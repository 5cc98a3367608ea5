/** The query catalog: each named query as the read request it sends to
    the table, and what those requests select over the key schema. */
module Catalog {
  import opened KeyOrder
  import opened Schema

  /** A `family:qualifier` column coordinate. */
  datatype Column = Column(family: string, qualifier: string)

  datatype CompareOp = Equal

  /** A row range with a flag for each bound saying whether it is included. */
  datatype RowRange = RowRange(start: string, startInclusive: bool, stop: string, stopInclusive: bool)

  /** The one filter a read may carry. */
  datatype Filter =
    | NoFilter
    | SingleColumnValue(column: Column, op: CompareOp, value: string)
    | MultiRowRange(ranges: seq<RowRange>)

  /** A point lookup of one row, or a scan from a start row restricted to a
      row prefix. */
  datatype Read = Get(row: string) | Scan(startRow: string, rowPrefix: string)

  /** Everything one query asks of the table. */
  datatype ReadSpec = ReadSpec(read: Read, maxVersions: int, columns: seq<Column>, filter: Filter)

  datatype Query =
    | LookupVehicleInGivenHour
    | ScanBusLineInGivenHour
    | ScanEntireBusLine
    | FilterBusesGoingEast
    | FilterBusesGoingWest
    | ScanManhattanBusesInGivenHour

  const LatColumn: Column := Column(ColumnFamily, LatQualifier)
  const LongColumn: Column := Column(ColumnFamily, LongQualifier)
  const DestinationColumn: Column := Column(ColumnFamily, DestinationQualifier)

  /** The two location columns, in the order the queries add them. */
  const LocationColumns: seq<Column> := [LatColumn, LongColumn]

  /** The M86 Select Bus Service line, the one the single-line queries read. */
  const M86Line: string := "M86-SBS"
  /** "MTA/M86-SBS/": the prefix of every key of the line. */
  const M86LinePrefix: string := LinePrefix(M86Line)
  /** "MTA/M86-SBS/1496275200000": the prefix of the line's keys in the
      June 1, 2017 00:00 bucket. */
  const M86HourPrefix: string := HourPrefix(M86Line, Bucket)
  /** "MTA/M86-SBS/1496275200000/NYCT_5824": vehicle NYCT_5824 in that hour. */
  const LookupRowKey: string := Encode(RowKey(M86Line, Bucket, "NYCT_5824"))
  const EastDestination: string := "Select Bus Service Yorkville East End AV"
  const WestDestination: string := "Select Bus Service Westside West End AV"

  function LookupVehicleSpec(): ReadSpec
  {
    ReadSpec(Get(LookupRowKey), IntegerMaxValue, LocationColumns, NoFilter)
  }

  function ScanBusLineSpec(): ReadSpec
  {
    ReadSpec(Scan(M86HourPrefix, M86HourPrefix), IntegerMaxValue, LocationColumns, NoFilter)
  }

  function ScanEntireBusLineSpec(): ReadSpec
  {
    ReadSpec(Scan(M86LinePrefix, M86LinePrefix), 1, LocationColumns, NoFilter)
  }

  function FilterEastSpec(): ReadSpec
  {
    ReadSpec(Scan(M86LinePrefix, M86LinePrefix), 1, LocationColumns,
             SingleColumnValue(DestinationColumn, Equal, EastDestination))
  }

  function FilterWestSpec(): ReadSpec
  {
    ReadSpec(Scan(M86LinePrefix, M86LinePrefix), 1, LocationColumns,
             SingleColumnValue(DestinationColumn, Equal, WestDestination))
  }

  /** The hour range of one bus line: from its first key in the bucket,
      included, to the same key with the last digit raised, excluded. */
  function HourRange(line: string): RowRange
  {
    RowRange("MTA/" + line + "/" + Bucket, true, "MTA/" + line + "/" + BucketEnd, false)
  }

  /** One hour range per line, in the order of the lines. */
  function HourRanges(lines: seq<string>): seq<RowRange>
  {
    seq(|lines|, i requires 0 <= i < |lines| => HourRange(lines[i]))
  }

  /** The hour scan over a list of lines: the outer "MTA/M" bounds and one
      hour range per line. */
  function HourScan(lines: seq<string>): ReadSpec
  {
    ReadSpec(Scan("MTA/M", "MTA/M"), IntegerMaxValue, LocationColumns,
             MultiRowRange(HourRanges(lines)))
  }

  function ScanManhattanSpec(): ReadSpec
  {
    HourScan(ManhattanBusLines)
  }

  /** The read each query issues. */
  function Spec(q: Query): ReadSpec
  {
    match q
    case LookupVehicleInGivenHour => LookupVehicleSpec()
    case ScanBusLineInGivenHour => ScanBusLineSpec()
    case ScanEntireBusLine => ScanEntireBusLineSpec()
    case FilterBusesGoingEast => FilterEastSpec()
    case FilterBusesGoingWest => FilterWestSpec()
    case ScanManhattanBusesInGivenHour => ScanManhattanSpec()
  }

  /** The line each query prints before its results. */
  function Header(q: Query): string
  {
    match q
    case LookupVehicleInGivenHour =>
      "Lookup a specific " + "vehicle on the M86 " + "route on June 1, " + "2017 from 12:00am " + "to 1:00am:"
    case ScanBusLineInGivenHour =>
      "Scan for all M86 " + "buses on June 1, " + "2017 from 12:00am " + "to 1:00am:"
    case ScanEntireBusLine =>
      "Scan for all m86 " + "during the month:"
    case FilterBusesGoingEast =>
      "Scan for all m86 " + "heading East during " + "the month:"
    case FilterBusesGoingWest =>
      "Scan for all m86 " + "heading West during " + "the month:"
    case ScanManhattanBusesInGivenHour =>
      "Scan for all buses " + "on June 1, 2017 " + "from 12:00am to " + "1:00am:"
  }

  // One lemma per header, so that each literal is checked on its own.
  lemma LookupVehicleInGivenHourHeaderIsOneLine()
    ensures '\n' !in Header(LookupVehicleInGivenHour)
  {
  }

  lemma ScanBusLineInGivenHourHeaderIsOneLine()
    ensures '\n' !in Header(ScanBusLineInGivenHour)
  {
  }

  lemma ScanEntireBusLineHeaderIsOneLine()
    ensures '\n' !in Header(ScanEntireBusLine)
  {
  }

  lemma FilterBusesGoingEastHeaderIsOneLine()
    ensures '\n' !in Header(FilterBusesGoingEast)
  {
  }

  lemma FilterBusesGoingWestHeaderIsOneLine()
    ensures '\n' !in Header(FilterBusesGoingWest)
  {
  }

  lemma ScanManhattanBusesInGivenHourHeaderIsOneLine()
    ensures '\n' !in Header(ScanManhattanBusesInGivenHour)
  {
  }

  /** Every query prints a header, and it is one line. */
  lemma HeaderIsOneLine(q: Query)
    ensures |Header(q)| > 0 && '\n' !in Header(q)
  {
    match q
    case LookupVehicleInGivenHour => LookupVehicleInGivenHourHeaderIsOneLine();
    case ScanBusLineInGivenHour => ScanBusLineInGivenHourHeaderIsOneLine();
    case ScanEntireBusLine => ScanEntireBusLineHeaderIsOneLine();
    case FilterBusesGoingEast => FilterBusesGoingEastHeaderIsOneLine();
    case FilterBusesGoingWest => FilterBusesGoingWestHeaderIsOneLine();
    case ScanManhattanBusesInGivenHour => ScanManhattanBusesInGivenHourHeaderIsOneLine();
  }

  // ---------------------------------------------------------------------
  // Which rows a read selects. This is the intended meaning of the
  // request, not a model of the store's implementation: a value filter
  // compares the destination even though no scan reads that column.

  predicate InRange(r: RowRange, key: string)
  {
    && (if r.startInclusive then LessEq(r.start, key) else Less(r.start, key))
    && (if r.stopInclusive then LessEq(key, r.stop) else Less(key, r.stop))
  }

  predicate InSomeRange(ranges: seq<RowRange>, key: string)
  {
    exists i :: 0 <= i < |ranges| && InRange(ranges[i], key)
  }

  /** The key conditions of a read: the row itself for a lookup; for a scan,
      at or after the start row, under the prefix, and inside one of the
      ranges of a range filter. */
  predicate KeyAdmitted(spec: ReadSpec, key: string)
  {
    match spec.read
    case Get(row) => key == row
    case Scan(start, prefix) =>
      && LessEq(start, key)
      && StartsWith(key, prefix)
      && (spec.filter.MultiRowRange? ==> InSomeRange(spec.filter.ranges, key))
  }

  /** A row with key `key` whose destination cell holds `destination` is
      selected: its key is admitted and a value filter, if any, matches. */
  predicate Selects(spec: ReadSpec, key: string, destination: string)
  {
    KeyAdmitted(spec, key) && (spec.filter.SingleColumnValue? ==> destination == spec.filter.value)
  }

  // ---------------------------------------------------------------------
  // Properties of the catalog.

  /** Every query projects exactly the two location columns; the destination
      column is never projected and is the only column a filter reads. */
  lemma ProjectsLocationOnly(q: Query)
    ensures Spec(q).columns == [Column("cf", "VehicleLocation.Latitude"), Column("cf", "VehicleLocation.Longitude")]
    ensures DestinationColumn !in Spec(q).columns
    ensures Spec(q).filter.SingleColumnValue? ==>
      Spec(q).filter.column == Column("cf", "DestinationName")
  {
    assert Spec(q).columns == LocationColumns by {
      match q
      case LookupVehicleInGivenHour =>
      case ScanBusLineInGivenHour =>
      case ScanEntireBusLine =>
      case FilterBusesGoingEast =>
      case FilterBusesGoingWest =>
      case ScanManhattanBusesInGivenHour =>
    }
  }

  /** The hour lookups and scans ask for every version; the month scans ask
      for the latest only. */
  lemma VersionPolicy(q: Query)
    ensures Spec(q).maxVersions == 0x7fff_ffff <==>
      q == LookupVehicleInGivenHour || q == ScanBusLineInGivenHour || q == ScanManhattanBusesInGivenHour
    ensures Spec(q).maxVersions == 1 <==>
      q == ScanEntireBusLine || q == FilterBusesGoingEast || q == FilterBusesGoingWest
  {
    match q
    case LookupVehicleInGivenHour =>
    case ScanBusLineInGivenHour =>
    case ScanEntireBusLine =>
    case FilterBusesGoingEast =>
    case FilterBusesGoingWest =>
    case ScanManhattanBusesInGivenHour =>
  }

  /** Only the vehicle lookup is a point read; every scan starts at its own
      row prefix. */
  lemma ScansStartAtPrefix(q: Query)
    ensures Spec(q).read.Get? <==> q == LookupVehicleInGivenHour
    ensures Spec(q).read.Scan? ==> Spec(q).read.startRow == Spec(q).read.rowPrefix
  {
    match q
    case LookupVehicleInGivenHour =>
    case ScanBusLineInGivenHour =>
    case ScanEntireBusLine =>
    case FilterBusesGoingEast =>
    case FilterBusesGoingWest =>
    case ScanManhattanBusesInGivenHour =>
  }

  /** The East and West filters are the same request except for the
      destination they compare with; their headers differ. */
  lemma EastWestDifferOnlyInDestination()
    ensures FilterEastSpec().(filter := FilterWestSpec().filter) == FilterWestSpec()
    ensures FilterEastSpec().filter ==
      SingleColumnValue(DestinationColumn, Equal, "Select Bus Service Yorkville East End AV")
    ensures FilterWestSpec().filter ==
      SingleColumnValue(DestinationColumn, Equal, "Select Bus Service Westside West End AV")
    ensures Header(FilterBusesGoingEast) != Header(FilterBusesGoingWest)
  {
    assert Header(FilterBusesGoingEast)[25] != Header(FilterBusesGoingWest)[25];
  }

  /** A scan whose start row is its prefix and that has no range filter
      admits exactly the keys under the prefix. */
  lemma PrefixScanAdmits(spec: ReadSpec, key: string)
    requires spec.read.Scan? && spec.read.startRow == spec.read.rowPrefix
    requires !spec.filter.MultiRowRange?
    ensures KeyAdmitted(spec, key) <==> StartsWith(key, spec.read.rowPrefix)
  {
    if StartsWith(key, spec.read.rowPrefix) {
      PrefixIsLessEq(spec.read.rowPrefix, key);
    }
  }

  /** The hour range of a line holds exactly the keys that start with its
      start key. */
  lemma HourRangeIsPrefix(line: string, key: string)
    ensures InRange(HourRange(line), key) <==> StartsWith(key, HourRange(line).start)
  {
    var p := "MTA/" + line + "/" + "149627520000";
    assert Bucket == "149627520000" + ['0'] && BucketEnd == "149627520000" + ['1'];
    assert HourRange(line).start == p + ['0'];
    assert HourRange(line).stop == p + ['1'];
    HalfOpenRangeIsPrefix(p, '0', '1', key);
  }

  lemma HourRangeStart(line: string)
    ensures HourRange(line).start == HourPrefix(line, Bucket)
  {
  }

  /** Every range of an hour scan over Manhattan lines starts under the outer
      prefix "MTA/M". */
  lemma HourRangesUnderOuterPrefix(lines: seq<string>)
    requires AllManhattanEntries(lines)
    ensures forall i :: 0 <= i < |HourScan(lines).filter.ranges| ==>
      StartsWith(HourScan(lines).filter.ranges[i].start, "MTA/M")
  {
    var rs := HourScan(lines).filter.ranges;
    forall i | 0 <= i < |rs|
      ensures StartsWith(rs[i].start, "MTA/M")
    {
      var line := lines[i];
      assert rs[i].start == "MTA/" + (line + "/1496275200000");
      StartsWithAppend(line + "/1496275200000", "MTA/", "M");
      assert StartsWith(line + "/1496275200000", "M") by {
        assert (line + "/1496275200000")[..1] == line[..1];
      }
    }
  }

  /** The outer prefix of an hour scan over Manhattan lines excludes
      nothing: a key is admitted exactly when it lies in one of the hour
      ranges. */
  lemma HourScanSelectsUnionOfRanges(lines: seq<string>, key: string)
    requires AllManhattanEntries(lines)
    ensures KeyAdmitted(HourScan(lines), key) <==> InSomeRange(HourScan(lines).filter.ranges, key)
  {
    var rs := HourScan(lines).filter.ranges;
    if InSomeRange(rs, key) {
      var i :| 0 <= i < |rs| && InRange(rs[i], key);
      HourRangeIsPrefix(lines[i], key);
      HourRangesUnderOuterPrefix(lines);
      StartsWithTransitive(key, rs[i].start, "MTA/M");
      PrefixIsLessEq("MTA/M", key);
    }
  }

  /** A key lies in one of the hour ranges exactly when it starts with the
      hour prefix of one of the lines. */
  lemma InSomeHourRange(lines: seq<string>, key: string)
    ensures InSomeRange(HourRanges(lines), key) <==>
      exists i :: 0 <= i < |lines| && StartsWith(key, HourPrefix(lines[i], Bucket))
  {
    var rs := HourRanges(lines);
    forall i | 0 <= i < |rs|
      ensures InRange(rs[i], key) <==> StartsWith(key, HourPrefix(lines[i], Bucket))
    {
      HourRangeIsPrefix(lines[i], key);
      HourRangeStart(lines[i]);
    }
  }

  /** Over the key schema, an hour scan selects exactly the keys of its
      lines in the June 1, 2017 00:00 bucket. */
  lemma HourScanSelectsBucket(lines: seq<string>, k: RowKey)
    requires AllManhattanEntries(lines)
    requires WellFormed(k)
    ensures KeyAdmitted(HourScan(lines), Encode(k)) <==> k.line in lines && k.bucket == Bucket
  {
    HourScanSelectsUnionOfRanges(lines, Encode(k));
    InSomeHourRange(lines, Encode(k));
    forall i | 0 <= i < |lines|
      ensures StartsWith(Encode(k), HourPrefix(lines[i], Bucket)) <==> k.line == lines[i] && k.bucket == Bucket
    {
      EncodeStartsWithHour(k, lines[i], Bucket);
    }
  }

  /** The Manhattan scan: its 41 ranges, one per line in list order, each
      starting under the outer prefix, which therefore excludes nothing. */
  lemma ManhattanSelectsUnionOfRanges(key: string)
    ensures |ScanManhattanSpec().filter.ranges| == 41
    ensures forall i :: 0 <= i < 41 ==>
      ScanManhattanSpec().filter.ranges[i] == HourRange(ManhattanBusLines[i])
      && StartsWith(ScanManhattanSpec().filter.ranges[i].start, "MTA/M")
    ensures KeyAdmitted(ScanManhattanSpec(), key) <==> InSomeRange(ScanManhattanSpec().filter.ranges, key)
  {
    ManhattanLinesAreCodes();
    HourRangesUnderOuterPrefix(ManhattanBusLines);
    HourScanSelectsUnionOfRanges(ManhattanBusLines, key);
  }

  /** Over the key schema, the Manhattan scan selects exactly the keys of
      the 41 Manhattan lines in the June 1, 2017 00:00 bucket; keys of any
      other bucket are left out. */
  lemma ManhattanSelectsBucket(k: RowKey)
    requires WellFormed(k)
    ensures KeyAdmitted(ScanManhattanSpec(), Encode(k)) <==> k.line in ManhattanBusLines && k.bucket == "1496275200000"
  {
    ManhattanLinesAreCodes();
    HourScanSelectsBucket(ManhattanBusLines, k);
  }

  lemma LookupKeyWellFormed()
    ensures WellFormed(RowKey("M86-SBS", "1496275200000", "NYCT_5824"))
  {
    var b := "1496275200000";
    assert |b| == 13;
    forall i | 0 <= i < |b|
      ensures '0' <= b[i] <= '9'
    {
      assert b == "1496275" + "200000";
      if i < 7 {
        assert b[i] == "1496275"[i];
      } else {
        assert b[i] == "200000"[i - 7];
      }
    }
  }

  /** The M86-SBS line is a line code, and the constants naming its keys
      spell the key texts the queries use. */
  lemma M86Prefixes()
    ensures IsLineCode(M86Line)
    ensures M86LinePrefix == "MTA/M86-SBS/"
    ensures M86HourPrefix == M86LinePrefix + "1496275200000"
  {
  }

  /** The vehicle lookup reads one row, the key of vehicle NYCT_5824 on the
      M86-SBS line in the June 1 bucket. */
  lemma LookupSelectsOneVehicle(k: RowKey)
    requires WellFormed(k)
    ensures KeyAdmitted(LookupVehicleSpec(), Encode(k)) <==>
      k == RowKey("M86-SBS", "1496275200000", "NYCT_5824")
  {
    var target := RowKey(M86Line, Bucket, "NYCT_5824");
    LookupKeyWellFormed();
    if Encode(k) == Encode(target) {
      EncodeInjective(k, target);
    }
  }

  /** Over the key schema, the hour scan selects exactly the M86-SBS keys of
      the June 1, 2017 00:00 bucket. */
  lemma ScanBusLineSelectsBucket(k: RowKey)
    requires WellFormed(k)
    ensures KeyAdmitted(ScanBusLineSpec(), Encode(k)) <==> k.line == "M86-SBS" && k.bucket == "1496275200000"
  {
    M86Prefixes();
    PrefixScanAdmits(ScanBusLineSpec(), Encode(k));
    EncodeStartsWithHour(k, M86Line, Bucket);
  }

  /** Over the key schema, the month scan and both direction filters admit
      exactly the keys of the M86-SBS line, every bucket included. */
  lemma MonthScansSelectLine(q: Query, k: RowKey)
    requires q == ScanEntireBusLine || q == FilterBusesGoingEast || q == FilterBusesGoingWest
    requires WellFormed(k)
    ensures KeyAdmitted(Spec(q), Encode(k)) <==> k.line == "M86-SBS"
  {
    var spec := Spec(q);
    assert spec.read == Scan(M86LinePrefix, M86LinePrefix) && !spec.filter.MultiRowRange?;
    M86Prefixes();
    PrefixScanAdmits(spec, Encode(k));
    EncodeStartsWithLine(k, M86Line);
  }

  /** The direction filters select the M86-SBS rows whose destination is
      exactly the East (respectively West) terminus. */
  lemma DirectionFiltersSelect(k: RowKey, destination: string)
    requires WellFormed(k)
    ensures Selects(FilterEastSpec(), Encode(k), destination) <==>
      k.line == "M86-SBS" && destination == "Select Bus Service Yorkville East End AV"
    ensures Selects(FilterWestSpec(), Encode(k), destination) <==>
      k.line == "M86-SBS" && destination == "Select Bus Service Westside West End AV"
  {
    MonthScansSelectLine(FilterBusesGoingEast, k);
    MonthScansSelectLine(FilterBusesGoingWest, k);
  }

  /** The looked-up row lies in the hour scan. */
  lemma LookupWithinHourScan(key: string)
    ensures KeyAdmitted(LookupVehicleSpec(), key) ==> KeyAdmitted(ScanBusLineSpec(), key)
  {
    PrefixScanAdmits(ScanBusLineSpec(), key);
    LookupKeyWellFormed();
    EncodeStartsWithHour(RowKey(M86Line, Bucket, "NYCT_5824"), M86Line, Bucket);
  }

  /** The hour scan of the M86-SBS line lies inside its month scan. */
  lemma HourScanWithinMonthScan(key: string)
    ensures KeyAdmitted(ScanBusLineSpec(), key) ==> KeyAdmitted(ScanEntireBusLineSpec(), key)
  {
    PrefixScanAdmits(ScanBusLineSpec(), key);
    PrefixScanAdmits(ScanEntireBusLineSpec(), key);
    if StartsWith(key, M86HourPrefix) {
      StartsWithOwnPrefix(M86LinePrefix, Bucket);
      StartsWithTransitive(key, M86HourPrefix, M86LinePrefix);
    }
  }

  /** An hour scan admits every key in the hour of each of its lines. */
  lemma HourScanAdmitsLineHour(lines: seq<string>, j: nat, key: string)
    requires AllManhattanEntries(lines) && j < |lines|
    requires StartsWith(key, HourPrefix(lines[j], Bucket))
    ensures KeyAdmitted(HourScan(lines), key)
  {
    InSomeHourRange(lines, key);
    HourScanSelectsUnionOfRanges(lines, key);
  }

  lemma M86IsManhattanLine()
    ensures AllManhattanEntries(ManhattanBusLines)
    ensures 40 < |ManhattanBusLines| && ManhattanBusLines[40] == M86Line
  {
    ManhattanLinesAreCodes();
  }

  lemma ManhattanAdmitsM86Hour(key: string)
    requires StartsWith(key, M86HourPrefix)
    ensures KeyAdmitted(ScanManhattanSpec(), key)
  {
    M86IsManhattanLine();
    HourScanAdmitsLineHour(ManhattanBusLines, 40, key);
  }

  /** The hour scan of the M86-SBS line lies inside the Manhattan scan,
      M86-SBS being one of the Manhattan lines. */
  lemma HourScanWithinManhattanScan(key: string)
    ensures KeyAdmitted(ScanBusLineSpec(), key) ==> KeyAdmitted(ScanManhattanSpec(), key)
  {
    PrefixScanAdmits(ScanBusLineSpec(), key);
    if StartsWith(key, M86HourPrefix) {
      ManhattanAdmitsM86Hour(key);
    }
  }
}
