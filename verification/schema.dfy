/** The row-key and column schema shared with the producer of the bus
    telemetry table: the column family and qualifiers, the hour bucket used
    by the catalog's queries, the Manhattan bus lines, and the key layout
    `MTA/<busLine>/<epochMillis>/<vehicleId>`. */
module Schema {
  import opened Text
  import opened KeyOrder

  const ColumnFamily: string := "cf"
  const LatQualifier: string := "VehicleLocation.Latitude"
  const LongQualifier: string := "VehicleLocation.Longitude"
  /** Read only by the direction filters, never projected. */
  const DestinationQualifier: string := "DestinationName"

  /** `Integer.MAX_VALUE`, the "all versions" request. */
  const IntegerMaxValue: int := 0x7fff_ffff

  /** 2017-06-01 00:00:00 UTC in epoch milliseconds, and the key string one
      past it in the last digit. */
  const Bucket: string := "1496275200000"
  const BucketEnd: string := "1496275200001"

  // The Manhattan bus lines in nine runs (`LineRun`), each with its text
  // (`RunText`, trailing comma included except in the last), and the
  // suffixes of the list and of the text that start at each run
  // (`LinesFrom`, `TextFrom`). Read in order, the runs give the line list
  // and the comma-separated text of the source. The list is built from
  // short runs so that each proof about it checks one short literal at a time.
  const LineRun1: seq<string> := ["M1", "M2", "M3", "M4", "M5", "M7"]
  const RunText1: string := "M1,M2,M3,M4,M5,M7,"
  const LineRun2: seq<string> := ["M8", "M9", "M10", "M11", "M12", "M15"]
  const RunText2: string := "M8,M9,M10,M11,M12,M15,"
  const LineRun3: seq<string> := ["M20", "M21", "M22", "M31", "M35", "M42"]
  const RunText3: string := "M20,M21,M22,M31,M35,M42,"
  const LineRun4: seq<string> := ["M50", "M55", "M57", "M66", "M72", "M96"]
  const RunText4: string := "M50,M55,M57,M66,M72,M96,"
  const LineRun5: seq<string> := ["M98", "M100", "M101", "M102", "M103", "M104"]
  const RunText5: string := "M98,M100,M101,M102,M103,M104,"
  const LineRun6: seq<string> := ["M106", "M116", "M14A"]
  const RunText6: string := "M106,M116,M14A,"
  const LineRun7: seq<string> := ["M34A-SBS", "M14D", "M15-SBS"]
  const RunText7: string := "M34A-SBS,M14D,M15-SBS,"
  const LineRun8: seq<string> := ["M23-SBS"]
  const RunText8: string := "M23-SBS,"
  const LineRun9: seq<string> := ["M34-SBS", "M60-SBS", "M79-SBS", "M86-SBS"]
  const RunText9: string := "M34-SBS,M60-SBS,M79-SBS,M86-SBS"
  const LinesFrom9: seq<string> := LineRun9
  const TextFrom9: string := RunText9
  const LinesFrom8: seq<string> := LineRun8 + LinesFrom9
  const TextFrom8: string := RunText8 + TextFrom9
  const LinesFrom7: seq<string> := LineRun7 + LinesFrom8
  const TextFrom7: string := RunText7 + TextFrom8
  const LinesFrom6: seq<string> := LineRun6 + LinesFrom7
  const TextFrom6: string := RunText6 + TextFrom7
  const LinesFrom5: seq<string> := LineRun5 + LinesFrom6
  const TextFrom5: string := RunText5 + TextFrom6
  const LinesFrom4: seq<string> := LineRun4 + LinesFrom5
  const TextFrom4: string := RunText4 + TextFrom5
  const LinesFrom3: seq<string> := LineRun3 + LinesFrom4
  const TextFrom3: string := RunText3 + TextFrom4
  const LinesFrom2: seq<string> := LineRun2 + LinesFrom3
  const TextFrom2: string := RunText2 + TextFrom3
  const LinesFrom1: seq<string> := LineRun1 + LinesFrom2
  const TextFrom1: string := RunText1 + TextFrom2

  /** The comma-separated text the line list is split from, "M1,M2,...,
      M79-SBS,M86-SBS": the run texts in order. */
  const ManhattanLinesText: string := TextFrom1

  /** The Manhattan bus lines, as splitting `ManhattanLinesText` at commas
      yields them (`ManhattanBusLinesContents`). */
  const ManhattanBusLines: seq<string> := LinesFrom1

  lemma {:induction false} JoinRun(run: seq<string>, rest: seq<string>, runText: string, restText: string)
    requires |run| >= 1 && |rest| >= 1
    requires Join(run, ",") + "," == runText && Join(rest, ",") == restText
    ensures Join(run + rest, ",") == runText + restText
  {
    JoinAppend(run, rest, ",");
  }

  lemma JoinOfRun1() ensures Join(LineRun1, ",") + "," == RunText1 {}
  lemma JoinOfRun2() ensures Join(LineRun2, ",") + "," == RunText2 {}
  lemma JoinOfRun3() ensures Join(LineRun3, ",") + "," == RunText3 {}
  lemma JoinOfRun4() ensures Join(LineRun4, ",") + "," == RunText4 {}
  lemma JoinOfRun5() ensures Join(LineRun5, ",") + "," == RunText5 {}
  lemma JoinOfRun6() ensures Join(LineRun6, ",") + "," == RunText6 {}
  lemma JoinOfRun7() ensures Join(LineRun7, ",") + "," == RunText7 {}
  lemma JoinOfRun8() ensures Join(LineRun8, ",") + "," == RunText8 {}

  lemma JoinFrom9() ensures Join(LinesFrom9, ",") == TextFrom9 {}
  lemma JoinFrom8() ensures Join(LinesFrom8, ",") == TextFrom8
  {
    JoinOfRun8();
    JoinFrom9();
    JoinRun(LineRun8, LinesFrom9, RunText8, TextFrom9);
  }
  lemma JoinFrom7() ensures Join(LinesFrom7, ",") == TextFrom7
  {
    JoinOfRun7();
    JoinFrom8();
    JoinRun(LineRun7, LinesFrom8, RunText7, TextFrom8);
  }
  lemma JoinFrom6() ensures Join(LinesFrom6, ",") == TextFrom6
  {
    JoinOfRun6();
    JoinFrom7();
    JoinRun(LineRun6, LinesFrom7, RunText6, TextFrom7);
  }
  lemma JoinFrom5() ensures Join(LinesFrom5, ",") == TextFrom5
  {
    JoinOfRun5();
    JoinFrom6();
    JoinRun(LineRun5, LinesFrom6, RunText5, TextFrom6);
  }
  lemma JoinFrom4() ensures Join(LinesFrom4, ",") == TextFrom4
  {
    JoinOfRun4();
    JoinFrom5();
    JoinRun(LineRun4, LinesFrom5, RunText4, TextFrom5);
  }
  lemma JoinFrom3() ensures Join(LinesFrom3, ",") == TextFrom3
  {
    JoinOfRun3();
    JoinFrom4();
    JoinRun(LineRun3, LinesFrom4, RunText3, TextFrom4);
  }
  lemma JoinFrom2() ensures Join(LinesFrom2, ",") == TextFrom2
  {
    JoinOfRun2();
    JoinFrom3();
    JoinRun(LineRun2, LinesFrom3, RunText2, TextFrom3);
  }
  lemma JoinFrom1() ensures Join(LinesFrom1, ",") == TextFrom1
  {
    JoinOfRun1();
    JoinFrom2();
    JoinRun(LineRun1, LinesFrom2, RunText1, TextFrom2);
  }

  /** Joining the expected list with commas gives back the line text. */
  lemma JoinManhattanLines()
    ensures Join(ManhattanBusLines, ",") == ManhattanLinesText
  {
    JoinFrom1();
  }

  /** A bus line code is one path segment of the key. */
  predicate IsLineCode(line: string)
  {
    |line| > 0 && '/' !in line
  }

  /** The fields of a row key. */
  datatype RowKey = RowKey(line: string, bucket: string, vehicle: string)

  /** The key grammar: the line is one segment and the bucket is a
      13-digit decimal timestamp. */
  predicate WellFormed(k: RowKey)
  {
    && IsLineCode(k.line)
    && |k.bucket| == |Bucket|
    && forall i :: 0 <= i < |k.bucket| ==> '0' <= k.bucket[i] <= '9'
  }

  function Encode(k: RowKey): string
  {
    "MTA/" + k.line + "/" + k.bucket + "/" + k.vehicle
  }

  /** Keys of every bucket of one bus line start with this. */
  function LinePrefix(line: string): string
  {
    "MTA/" + line + "/"
  }

  /** Keys of one bucket of one bus line start with this. */
  function HourPrefix(line: string, bucket: string): string
  {
    LinePrefix(line) + bucket
  }

  /** A usable entry of the comma-separated line text. */
  predicate IsManhattanEntry(x: string)
  {
    IsLineCode(x) && ',' !in x && StartsWith(x, "M")
  }

  predicate AllManhattanEntries(xs: seq<string>)
  {
    forall i :: 0 <= i < |xs| ==> IsManhattanEntry(xs[i])
  }

  lemma AllEntriesAppend(xs: seq<string>, ys: seq<string>)
    requires AllManhattanEntries(xs) && AllManhattanEntries(ys)
    ensures AllManhattanEntries(xs + ys)
  {
    forall i | 0 <= i < |xs + ys|
      ensures IsManhattanEntry((xs + ys)[i])
    {
      if i >= |xs| {
        assert (xs + ys)[i] == ys[i - |xs|];
      }
    }
  }

  lemma EntriesFrom9() ensures AllManhattanEntries(LinesFrom9) {}
  lemma EntriesFrom8() ensures AllManhattanEntries(LinesFrom8)
  {
    assert AllManhattanEntries(LineRun8);
    EntriesFrom9();
    AllEntriesAppend(LineRun8, LinesFrom9);
  }
  lemma EntriesFrom7() ensures AllManhattanEntries(LinesFrom7)
  {
    assert AllManhattanEntries(LineRun7);
    EntriesFrom8();
    AllEntriesAppend(LineRun7, LinesFrom8);
  }
  lemma EntriesFrom6() ensures AllManhattanEntries(LinesFrom6)
  {
    assert AllManhattanEntries(LineRun6);
    EntriesFrom7();
    AllEntriesAppend(LineRun6, LinesFrom7);
  }
  lemma EntriesFrom5() ensures AllManhattanEntries(LinesFrom5)
  {
    assert AllManhattanEntries(LineRun5);
    EntriesFrom6();
    AllEntriesAppend(LineRun5, LinesFrom6);
  }
  lemma EntriesFrom4() ensures AllManhattanEntries(LinesFrom4)
  {
    assert AllManhattanEntries(LineRun4);
    EntriesFrom5();
    AllEntriesAppend(LineRun4, LinesFrom5);
  }
  lemma EntriesFrom3() ensures AllManhattanEntries(LinesFrom3)
  {
    assert AllManhattanEntries(LineRun3);
    EntriesFrom4();
    AllEntriesAppend(LineRun3, LinesFrom4);
  }
  lemma EntriesFrom2() ensures AllManhattanEntries(LinesFrom2)
  {
    assert AllManhattanEntries(LineRun2);
    EntriesFrom3();
    AllEntriesAppend(LineRun2, LinesFrom3);
  }
  lemma EntriesFrom1() ensures AllManhattanEntries(LinesFrom1)
  {
    assert AllManhattanEntries(LineRun1);
    EntriesFrom2();
    AllEntriesAppend(LineRun1, LinesFrom2);
  }

  /** The 41 Manhattan lines are line codes beginning with "M" and holding
      no comma. */
  lemma ManhattanLinesAreCodes()
    ensures |ManhattanBusLines| == 41
    ensures AllManhattanEntries(ManhattanBusLines)
    ensures forall i :: 0 <= i < |ManhattanBusLines| ==>
      IsLineCode(ManhattanBusLines[i]) && StartsWith(ManhattanBusLines[i], "M")
  {
    EntriesFrom1();
  }

  /** Splitting the line text at commas yields the 41 Manhattan lines in
      order. */
  lemma {:induction false} ManhattanBusLinesContents()
    ensures JavaSplit(ManhattanLinesText, ',') == ManhattanBusLines
  {
    var xs := ManhattanBusLines;
    JoinManhattanLines();
    ManhattanLinesAreCodes();
    forall i | 0 <= i < |xs|
      ensures ',' !in xs[i] && xs[i] != ""
    {
      assert IsManhattanEntry(xs[i]);
    }
    JavaSplitJoin(xs, ',');
  }

  /** Two segments followed by "/" agree as prefixes only if the segments
      are equal and the remainders agree as prefixes. */
  lemma SegmentPrefix(a: string, x: string, b: string, y: string)
    requires '/' !in a && '/' !in b
    ensures StartsWith(a + "/" + x, b + "/" + y) <==> a == b && StartsWith(x, y)
  {
    var s, p := a + "/" + x, b + "/" + y;
    if StartsWith(s, p) {
      assert s[|a|] == '/' && p[|b|] == '/';
      assert |a| < |p| ==> s[..|p|][|a|] == s[|a|];
      assert |b| < |p| ==> s[..|p|][|b|] == s[|b|];
      assert a == s[..|a|] == p[..|a|] == b;
      StartsWithAppend(x, a + "/", y);
    }
    if a == b && StartsWith(x, y) {
      StartsWithAppend(x, a + "/", y);
    }
  }

  /** A well-formed key starts with the line prefix of `line` exactly when it
      belongs to that line. */
  lemma EncodeStartsWithLine(k: RowKey, line: string)
    requires WellFormed(k) && IsLineCode(line)
    ensures StartsWith(Encode(k), LinePrefix(line)) <==> k.line == line
  {
    var rest := k.bucket + "/" + k.vehicle;
    assert LinePrefix(line) == "MTA/" + (line + "/" + "");
    StartsWithAppend(k.line + "/" + rest, "MTA/", line + "/" + "");
    SegmentPrefix(k.line, rest, line, "");
  }

  /** A well-formed key starts with the hour prefix of `line` and a 13-digit
      `bucket` exactly when it belongs to that line and that bucket: the
      fixed width of the bucket keeps other timestamps out. */
  lemma EncodeStartsWithHour(k: RowKey, line: string, bucket: string)
    requires WellFormed(k) && IsLineCode(line) && |bucket| == |Bucket|
    ensures StartsWith(Encode(k), HourPrefix(line, bucket)) <==> k.line == line && k.bucket == bucket
  {
    var rest := k.bucket + "/" + k.vehicle;
    assert HourPrefix(line, bucket) == "MTA/" + (line + "/" + bucket);
    StartsWithAppend(k.line + "/" + rest, "MTA/", line + "/" + bucket);
    SegmentPrefix(k.line, rest, line, bucket);
    assert rest[..|bucket|] == k.bucket;
  }

  /** The key layout is unambiguous for well-formed keys: the fixed-width
      bucket ends the prefix, and the vehicle is the rest of the key. */
  lemma EncodeInjective(k: RowKey, k': RowKey)
    requires WellFormed(k) && WellFormed(k')
    requires Encode(k) == Encode(k')
    ensures k.line == k'.line && k.bucket == k'.bucket && k.vehicle == k'.vehicle
  {
    EncodeStartsWithHour(k, k'.line, k'.bucket);
    var n := |HourPrefix(k.line, k.bucket)| + 1;
    assert Encode(k)[n..] == k.vehicle;
    assert Encode(k')[n..] == k'.vehicle;
  }
}
