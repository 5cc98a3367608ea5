# Bus telemetry query catalog — a Dafny model

This project models the core of a small command-line demonstrator that reads
New York MTA bus positions from a sorted-key, wide-column table. The program
has a fixed catalog of six named queries. Each one is modelled here as the
read request it sends to the table, a `ReadSpec`, holding:

- a point get or a prefix scan, with its start row and row prefix;
- the projected columns;
- the maximum number of versions;
- its filter: none, a single-column value-equality filter, or a multi-row-range filter.

The header line each query prints before its results is `Catalog.Header`.

The table itself is not simulated. What a request selects is given by its
intended meaning: a predicate over row keys (`Catalog.KeyAdmitted`) and,
for the direction filters, over the row's destination as well
(`Catalog.Selects`), stated over the key schema `MTA/<busLine>/<epochMillis>/<vehicleId>`.

Modules, in dependency order:

- `Wrappers` (`wrappers.dfy`): `Option`, `Result`, `Outcome`.
- `Text` (`text.dfy`): joining, Java's `String.split` on one character, and line-terminated output. Includes the split/join round trip.
- `KeyOrder` (`key_order.dfy`): key prefixes and the lexicographic key order. It proves that a half-open range `[P+"0", P+"1")` holds exactly the keys starting with `P+"0"`.
- `Schema` (`schema.dfy`): the column family and qualifiers, and the 41 Manhattan bus lines, as a list constant proved equal to what splitting the program's comma-separated text yields. Also the row-key layout and its prefix lemmas. The line text is the program's text, written as nine literal pieces, one per run of lines.
- `Catalog` (`catalog.dfy`): the six query builders, the Manhattan hour ranges, key selection, and the catalog's properties: column projection, version policy, start row equal to prefix, East/West symmetry, range and prefix correctness, and containment between queries. The header texts are the program's texts, written as concatenations of short literals.
- `Output` (`output.dfy`): the pair formatter. It pairs cell `i` with cell `i + n/2`, is written as the printing loop and as a declarative definition, and is proved to read back at newlines and commas.
- `Driver` (`driver.dfy`): name dispatch, `requiredProperty`, `runQuery` and `main`. A run's result is standard output, standard error and the exit status.

Keys and values are `string` (`seq<char>`). Characters are compared by code. For the ASCII keys of this schema, that is the order of their UTF-8 bytes.

Behaviour of the program that the model keeps:

- A missing property is not caught (Codelab.java:228-234). It ends the run through the runtime's uncaught-exception path, which prints `Exception in thread "main" java.lang.IllegalArgumentException: Missing required system property: <name>` and exits with status 1.
- `runQuery` catches only `IOException` (Codelab.java:86-89), printing `Exception while running Codelab: <message>` and exiting with status 1. Any other exception from connecting, opening the table or reading escapes `main` and takes the uncaught-exception path. The model's `Driver.Fault` tells the two kinds apart.
- The vehicle lookup prints its header only after the read returns. The five scans print theirs before opening the scanner. So when a read fails, the scans have already printed their header and the lookup has printed nothing (`Driver.ReadFailureReported`).
- The formatter asserts an even cell count (Codelab.java:210). The model takes the even count as a precondition.

## Model

| member | source | states |
|---|---|---|
| Schema.ManhattanBusLinesContents | src/main/java/com/google/cloud/bigtable/codelab/Codelab.java:45-49 | `MANHATTAN_BUS_LINES` (`Schema.ManhattanBusLines`, split from `Schema.ManhattanLinesText`): splitting the program's comma-separated text at commas yields exactly the listed lines, in the stated order |
| Schema.ManhattanLinesAreCodes | src/main/java/com/google/cloud/bigtable/codelab/Codelab.java:45-49 | there are 41 Manhattan lines, each a non-empty, one-segment line code beginning with "M" and holding no comma |
| Text.JavaSplitJoin | src/main/java/com/google/cloud/bigtable/codelab/Codelab.java:49 | `String.split` on one character (`Text.JavaSplit`) recovers any non-empty list of non-empty entries joined with that separator when no entry contains it |
| KeyOrder.LessIsLexicographic | src/main/java/com/google/cloud/bigtable/codelab/Codelab.java:187-189 | the key order used for range bounds is the textbook lexicographic order (proper prefix, or smaller at the first difference) |
| KeyOrder.PrefixIsLessEq | src/main/java/com/google/cloud/bigtable/codelab/Codelab.java:197-198 | a key never sorts before its own prefix, so a start row equal to the row prefix removes no key under the prefix |
| KeyOrder.HalfOpenRangeIsPrefix | src/main/java/com/google/cloud/bigtable/codelab/Codelab.java:187-189 | a key lies in `[P+c, P+d)`, with `d` the successor of `c`, exactly when it starts with `P+c` (both directions) |
| Schema.EncodeStartsWithHour | src/main/java/com/google/cloud/bigtable/codelab/Codelab.java:188 | a well-formed key starts with `MTA/L/<13-digit bucket>` exactly when its line is `L` and its bucket is that bucket; the fixed width keeps other timestamps out |
| Schema.EncodeStartsWithLine | src/main/java/com/google/cloud/bigtable/codelab/Codelab.java:172-173 | a well-formed key starts with `MTA/L/` exactly when its line is `L` |
| Schema.EncodeInjective | src/main/java/com/google/cloud/bigtable/codelab/Codelab.java:96 | two well-formed keys with the same text have the same line, bucket and vehicle |
| Catalog.HourRangeIsPrefix | src/main/java/com/google/cloud/bigtable/codelab/Codelab.java:186-189 | the range built for one line (`Catalog.HourRange`), `[MTA/L/1496275200000, MTA/L/1496275200001)`, holds exactly the keys that start with its start key |
| Catalog.ProjectsLocationOnly | src/main/java/com/google/cloud/bigtable/codelab/Codelab.java:42-199 | every query (each builder adds `COLUMN_FAMILY_NAME`:`LAT_COLUMN_NAME` then `LONG_COLUMN_NAME`, `Schema.ColumnFamily`, `Schema.LatQualifier`, `Schema.LongQualifier`) projects exactly `cf:VehicleLocation.Latitude` then `cf:VehicleLocation.Longitude`; `cf:DestinationName` is never projected and is the only column a filter reads |
| Catalog.VersionPolicy | src/main/java/com/google/cloud/bigtable/codelab/Codelab.java:95-199 | the vehicle lookup, hour scan and Manhattan scan request `Integer.MAX_VALUE` versions and only they do; the month scan and both direction filters request 1 and only they do |
| Catalog.ScansStartAtPrefix | src/main/java/com/google/cloud/bigtable/codelab/Codelab.java:108-198 | only the vehicle lookup is a point get; in every scan the start row equals the row-prefix filter |
| Catalog.EastWestDifferOnlyInDestination | src/main/java/com/google/cloud/bigtable/codelab/Codelab.java:108-151 | `filterBusesGoingEast` and `filterBusesGoingWest` (`Catalog.FilterEastSpec`, `Catalog.FilterWestSpec`) build identical requests except for the destination compared for equality; their headers differ |
| Catalog.HeaderIsOneLine | src/main/java/com/google/cloud/bigtable/codelab/Codelab.java:103-201 | the header each query prints (`Catalog.Header`; lines 103-104, 123, 146, 160, 175, 201) is non-empty and holds no newline, so it shares its line with the first pair |
| Catalog.PrefixScanAdmits | src/main/java/com/google/cloud/bigtable/codelab/Codelab.java:153-159 | a scan whose start row is its prefix and that has no range filter admits exactly the keys under the prefix |
| Catalog.HourRangesUnderOuterPrefix | src/main/java/com/google/cloud/bigtable/codelab/Codelab.java:185-198 | for lines beginning with "M", every range start key begins with the outer prefix `MTA/M` |
| Catalog.HourScanSelectsUnionOfRanges | src/main/java/com/google/cloud/bigtable/codelab/Codelab.java:182-199 | the outer start row and prefix `MTA/M` exclude nothing: the scan admits a key exactly when it lies in one of the ranges |
| Catalog.InSomeHourRange | src/main/java/com/google/cloud/bigtable/codelab/Codelab.java:183-191 | the range list the loop builds (`Catalog.HourRanges`, one range per line, in order): a key lies in one of the ranges exactly when it starts with `MTA/L/1496275200000` for one of the lines `L` |
| Catalog.HourScanSelectsBucket | src/main/java/com/google/cloud/bigtable/codelab/Codelab.java:182-199 | over well-formed keys, the multi-range scan admits exactly the keys whose line is in the list and whose bucket is 1496275200000 |
| Catalog.HourScanAdmitsLineHour | src/main/java/com/google/cloud/bigtable/codelab/Codelab.java:185-191 | every key in the hour bucket of any listed line is admitted by the multi-range scan |
| Catalog.ManhattanSelectsUnionOfRanges | src/main/java/com/google/cloud/bigtable/codelab/Codelab.java:182-199 | `scanManhattanBusesInGivenHour`'s request (`Catalog.ScanManhattanSpec`) has 41 ranges, range `i` built from Manhattan line `i`, each starting under `MTA/M`, and it admits exactly the union of the ranges |
| Catalog.ManhattanSelectsBucket | src/main/java/com/google/cloud/bigtable/codelab/Codelab.java:182-199 | over well-formed keys, the Manhattan scan admits exactly the keys of the 41 Manhattan lines in bucket 1496275200000; other timestamps are excluded |
| Catalog.LookupSelectsOneVehicle | src/main/java/com/google/cloud/bigtable/codelab/Codelab.java:95-102 | `lookupVehicleInGivenHour`'s request (`Catalog.LookupVehicleSpec`): over well-formed keys, it reads exactly the key of vehicle NYCT_5824, line M86-SBS, bucket 1496275200000 |
| Catalog.ScanBusLineSelectsBucket | src/main/java/com/google/cloud/bigtable/codelab/Codelab.java:153-159 | `scanBusLineInGivenHour`'s request (`Catalog.ScanBusLineSpec`): over well-formed keys, it admits exactly the M86-SBS keys of bucket 1496275200000 |
| Catalog.MonthScansSelectLine | src/main/java/com/google/cloud/bigtable/codelab/Codelab.java:167-173 | `scanEntireBusLine`'s request (`Catalog.ScanEntireBusLineSpec`), and the key conditions of both direction filters: over well-formed keys, they admit exactly the M86-SBS keys of every bucket |
| Catalog.DirectionFiltersSelect | src/main/java/com/google/cloud/bigtable/codelab/Codelab.java:108-144 | the East (West) request (`Catalog.FilterEastSpec`, `Catalog.FilterWestSpec`) selects exactly the M86-SBS rows whose destination equals the East (West) terminus text |
| Catalog.LookupWithinHourScan | src/main/java/com/google/cloud/bigtable/codelab/Codelab.java:95-159 | the looked-up row is one of the rows of the hour scan |
| Catalog.HourScanWithinMonthScan | src/main/java/com/google/cloud/bigtable/codelab/Codelab.java:153-173 | every key of the hour scan is a key of the month scan |
| Catalog.HourScanWithinManhattanScan | src/main/java/com/google/cloud/bigtable/codelab/Codelab.java:153-199 | every key of the M86-SBS hour scan is a key of the Manhattan scan |
| Catalog.M86IsManhattanLine | src/main/java/com/google/cloud/bigtable/codelab/Codelab.java:45-49 | the line list satisfies the Manhattan-line conditions and its last entry is M86-SBS |
| Output.PrintLatLongPairs | src/main/java/com/google/cloud/bigtable/codelab/Codelab.java:208-216 | the printing loop writes, for each `i < n/2`, cell `i`, a comma, cell `i + n/2` and a newline, which is the declarative pair text `Output.FormatLatLongPairs` |
| Output.FormatLatLongPairsParses | src/main/java/com/google/cloud/bigtable/codelab/Codelab.java:208-216 | what `printLatLongPairs` prints (`Output.FormatLatLongPairs`): for values without commas or newlines, a row of `n` cells prints `n/2` lines, and line `i` reads back at its comma as cell `i` and cell `i + n/2` |
| Output.FormatRowsIsUnlines | src/main/java/com/google/cloud/bigtable/codelab/Codelab.java:162-164 | printing the rows of a scan one after another (`Output.FormatRows`) writes the pair lines of all rows, in row order, each newline-terminated |
| Output.AllPairLinesCount | src/main/java/com/google/cloud/bigtable/codelab/Codelab.java:208-216 | a result with `n` cells in all yields `n/2` pair lines |
| Output.QueryOutputLayout | src/main/java/com/google/cloud/bigtable/codelab/Codelab.java:160-164 | a query's output, split at newlines, is the header joined to the first pair line, then the other pair lines, then an empty remainder; only the header when there are no pairs |
| Driver.DispatchSelectsByName | src/main/java/com/google/cloud/bigtable/codelab/Codelab.java:59-84 | the `switch` on the query name (`Driver.Dispatch`): each of the six names selects its own query, a name selects a query exactly when it is that query's name, and only the six names select anything |
| Driver.RunQuery | src/main/java/com/google/cloud/bigtable/codelab/Codelab.java:52-93 | exit status 0 exactly when the connection opens, the name is known and the read succeeds, otherwise 1; on success, standard error is empty and standard output is the header followed by the pairs; when the connection opens, an unknown name prints the catalog message; a failed connection is reported as its kind requires (caught I/O exception or uncaught exception), whatever the name |
| Driver.ReadFailureReported | src/main/java/com/google/cloud/bigtable/codelab/Codelab.java:86-89 | a failed read exits 1, reported by the driver as `Exception while running Codelab: <message>` for an I/O exception and by the runtime otherwise; the scans have already printed their header, and the lookup has printed nothing |
| Driver.FailureReportKinds | src/main/java/com/google/cloud/bigtable/codelab/Codelab.java:86-89 | the report of a fault on standard error (`Driver.FailureReport`) starts with `Exception while` exactly when the fault is an `IOException`, which the driver reports as `Exception while running Codelab: <message>`; any other exception gets the runtime's line |
| Driver.StdoutLayout | src/main/java/com/google/cloud/bigtable/codelab/Codelab.java:59-77 | after a successful query whose values hold no comma or newline, standard output split at newlines is the header joined to the first pair line, then the other pair lines, then an empty remainder (only the header when there are no pairs); `n` cells in all give `n/2` pair lines |
| Driver.UnknownQueryFails | src/main/java/com/google/cloud/bigtable/codelab/Codelab.java:78-83 | with all properties present and the connection open, a name outside the six prints the catalog message and exits 1; the program connects (line 55) before it looks at the name, so a failed connection is reported instead (`Driver.RunQuery`) |
| Driver.RequiredProperty | src/main/java/com/google/cloud/bigtable/codelab/Codelab.java:228-234 | returns the value exactly when the property is present; otherwise fails with `Missing required system property: <prop>` |
| Driver.Main | src/main/java/com/google/cloud/bigtable/codelab/Codelab.java:218-226 | the program exits 0 exactly when all four properties are present, the query name is known, the connection opens and the read succeeds |
| Driver.MissingPropertyFails | src/main/java/com/google/cloud/bigtable/codelab/Codelab.java:218-234 | the first missing property, in reading order, is reported by name and the run exits 1 with nothing on standard output |

## Left out

- Connecting to the store, opening the table, and closing the connection. The outcome of connecting and opening is an input (`connection`). Release of the connection is not modelled.
- How the store executes a read. The model states what a request selects by its intended meaning, as predicates on the key and the destination. Not modelled: the store's handling of a value filter on rows lacking the column or on older versions, its merging of overlapping ranges, and range bounds left empty.
- The rows and cells the store returns, including their order and grouping by qualifier. They are an input, the `response` of `Driver.RunQuery`. For a point get, the store returns at most one row; the model does not enforce this bound and prints whatever rows the response holds, one after another.
- A read failing part-way through a scan. A read either fails before any row is printed or returns all its rows.
- Exception stack traces, the line separator of the platform (taken as "\n"), and a null exception message.
- UTF-8 encoding of keys and values. Both are character strings.
- Extracting a cell's value from the client's cell object. The model takes the values as given.
- The Java `assert` on an even cell count. It is a precondition of the formatter, not run-time behaviour.
- Text.JavaSplit: covers only a single, non-regex separator character, the only kind the program uses.
- Catalog.DirectionFiltersSelect: states the intended selection, M86-SBS rows whose destination equals the terminus text. The East and West scans read only the latitude and longitude columns (Codelab.java:116-118, 139-141), not `cf:DestinationName`, which their value filter tests (110-115, 131-136). The client library documents that a `SingleColumnValueFilter` treats a column the scan does not read as missing, and emits a row whose column is missing unless `filterIfMissing` is set, which the program does not do. Under that documented behaviour both scans would return every M86-SBS row; the model does not state that outcome.
- Driver.Main: its contract states only the exit status. Standard output and standard error are stated by `Driver.RunQuery`, `Driver.MissingPropertyFails` and `Driver.UnknownQueryFails`.
- The catalog message is a constant. No lemma relates it to the six query names.
