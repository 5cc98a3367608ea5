/** The command-line driver: reads the required properties, dispatches the
    query name to the catalog, and turns the outcome into standard output,
    standard error and an exit status. The connection and the store's answer
    are inputs; the stack traces printed after exceptions are not modelled. */
module Driver {
  import opened Wrappers
  import opened Text
  import opened KeyOrder
  import opened Catalog
  import opened Output

  /** An exception thrown while connecting, opening the table or reading:
      an `IOException`, which the driver catches, or an unchecked exception
      (its class name and message), which escapes to the runtime. */
  datatype Fault =
    | IOError(message: string)
    | Unchecked(exceptionClass: string, message: string)

  /** What one invocation writes and the status it exits with. */
  datatype Run = Run(stdout: string, stderr: string, exitCode: int)

  /** The query names, in the order of the catalog message. */
  const QueryNames: seq<string> :=
    ["lookupVehicleInGivenHour", "scanBusLineInGivenHour", "scanEntireBusLine",
     "filterBusesGoingEast", "filterBusesGoingWest", "scanManhattanBusesInGivenHour"]

  /** The message for an unknown query name. */
  const CatalogMessage: string :=
    "Please provide one of "
    + "the following queries: "
    + "lookupVehicleInGivenHour, "
    + "scanBusLineInGivenHour, "
    + "scanEntireBusLine, "
    + "filterBusesGoingEast, "
    + "filterBusesGoingWest, "
    + "scanManhattanBusesInGivenHour."

  /** The properties read at start-up, in the order they are read. */
  const RequiredProperties: seq<string> :=
    ["bigtable.projectID", "bigtable.instanceID", "bigtable.table", "query"]

  function QueryName(q: Query): string
  {
    match q
    case LookupVehicleInGivenHour => "lookupVehicleInGivenHour"
    case ScanBusLineInGivenHour => "scanBusLineInGivenHour"
    case ScanEntireBusLine => "scanEntireBusLine"
    case FilterBusesGoingEast => "filterBusesGoingEast"
    case FilterBusesGoingWest => "filterBusesGoingWest"
    case ScanManhattanBusesInGivenHour => "scanManhattanBusesInGivenHour"
  }

  /** The switch on the query name; any other name selects nothing. */
  function Dispatch(name: string): Option<Query>
  {
    match name
    case "lookupVehicleInGivenHour" => Some(LookupVehicleInGivenHour)
    case "scanBusLineInGivenHour" => Some(ScanBusLineInGivenHour)
    case "scanEntireBusLine" => Some(ScanEntireBusLine)
    case "filterBusesGoingEast" => Some(FilterBusesGoingEast)
    case "filterBusesGoingWest" => Some(FilterBusesGoingWest)
    case "scanManhattanBusesInGivenHour" => Some(ScanManhattanBusesInGivenHour)
    case _ => None
  }

  /** The value of a property, or the message of the exception thrown when
      it is missing. */
  function RequiredProperty(props: map<string, string>, prop: string): (r: Result<string, string>)
    ensures r.Success? <==> prop in props
    ensures r.Success? ==> r.value == props[prop]
    ensures r.Failure? ==> r.error == "Missing required system property: " + prop
  {
    if prop !in props then Failure("Missing required system property: " + prop) else Success(props[prop])
  }

  /** The standard-error line for an I/O exception caught by the driver. */
  function ExceptionReport(message: string): string
  {
    "Exception while running Codelab: " + message + "\n"
  }

  /** The class of the exception thrown for a missing property. */
  const IllegalArgument: string := "java.lang." + "IllegalArgumentException"

  /** The first line the runtime prints for an exception that escapes
      `main`. */
  function UncaughtReport(exceptionClass: string, message: string): string
  {
    "Exception in thread " + "\"main\" " + exceptionClass + ": " + message + "\n"
  }

  /** What standard error receives for a fault: the driver's own line for
      an I/O exception, the runtime's line for any other. */
  function FailureReport(fault: Fault): string
  {
    match fault
    case IOError(message) => ExceptionReport(message)
    case Unchecked(exceptionClass, message) => UncaughtReport(exceptionClass, message)
  }

  /** The two failure paths are told apart by their first words: only a
      caught I/O exception is reported as "Exception while running ...". */
  lemma FailureReportKinds(fault: Fault)
    ensures StartsWith(FailureReport(fault), "Exception while") <==> fault.IOError?
    ensures fault.IOError? ==> FailureReport(fault) == "Exception while running Codelab: " + fault.message + "\n"
  {
    var r := FailureReport(fault);
    if fault.Unchecked? {
      assert r[10] == 'i';
      assert "Exception while"[10] == 'w';
      assert |r| >= 15 ==> r[..15][10] == r[10];
    } else {
      assert r[..15] == "Exception while";
    }
  }

  /** One run of a query. `connection` is the outcome of connecting and
      opening the table; `response` is the store's answer to the read the
      query issues (its rows' cells), or the exception the read throws.
      The vehicle lookup prints its header after the read returns; the
      scans print theirs before opening the scanner. */
  function RunQuery(name: string, connection: Outcome<Fault>, response: Result<seq<Cells>, Fault>): (run: Run)
    requires response.Success? ==> EvenRows(response.value)
    ensures run.exitCode == 0 <==> connection.Pass? && Dispatch(name).Some? && response.Success?
    ensures run.exitCode == 0 || run.exitCode == 1
    ensures run.exitCode == 0 ==>
      run.stderr == "" && run.stdout == QueryOutput(Header(Dispatch(name).value), response.value)
    ensures connection.Pass? && Dispatch(name).None? ==> run == Run("", CatalogMessage + "\n", 1)
    ensures connection.Fail? ==> run == Run("", FailureReport(connection.error), 1)
  {
    if connection.Fail? then Run("", FailureReport(connection.error), 1)
    else
      match Dispatch(name)
      case None => Run("", CatalogMessage + "\n", 1)
      case Some(q) =>
        match response
        case Failure(fault) =>
          var printed := if Spec(q).read.Get? then "" else Header(q);
          Run(printed, FailureReport(fault), 1)
        case Success(rows) => Run(QueryOutput(Header(q), rows), "", 0)
  }

  /** The whole program: read the four properties in order (the first
      missing one ends the run with an uncaught exception and status 1),
      then run the query. */
  function Main(props: map<string, string>, connection: Outcome<Fault>, response: Result<seq<Cells>, Fault>): (run: Run)
    requires response.Success? ==> EvenRows(response.value)
    ensures run.exitCode == 0 <==>
      && "bigtable.projectID" in props && "bigtable.instanceID" in props && "bigtable.table" in props
      && "query" in props && Dispatch(props["query"]).Some? && connection.Pass? && response.Success?
  {
    match RequiredProperty(props, "bigtable.projectID")
    case Failure(e) => Run("", UncaughtReport(IllegalArgument, e), 1)
    case Success(_) =>
      match RequiredProperty(props, "bigtable.instanceID")
      case Failure(e) => Run("", UncaughtReport(IllegalArgument, e), 1)
      case Success(_) =>
        match RequiredProperty(props, "bigtable.table")
        case Failure(e) => Run("", UncaughtReport(IllegalArgument, e), 1)
        case Success(_) =>
          match RequiredProperty(props, "query")
          case Failure(e) => Run("", UncaughtReport(IllegalArgument, e), 1)
          case Success(query) => RunQuery(query, connection, response)
  }

  /** Dispatch and the query names are inverse: each name selects its own
      query, and only the six names select anything. */
  lemma DispatchSelectsByName(name: string, q: Query)
    ensures Dispatch(QueryName(q)) == Some(q)
    ensures Dispatch(name) == Some(q) <==> name == QueryName(q)
    ensures Dispatch(name).Some? <==> name in QueryNames
  {
  }

  /** The run that ends at the first missing property `prop`. */
  function MissingRun(prop: string): Run
  {
    Run("", UncaughtReport(IllegalArgument, "Missing required system property: " + prop), 1)
  }

  lemma MissingProjectFails(props: map<string, string>, connection: Outcome<Fault>, response: Result<seq<Cells>, Fault>)
    requires response.Success? ==> EvenRows(response.value)
    requires "bigtable.projectID" !in props
    ensures Main(props, connection, response) == MissingRun("bigtable.projectID")
  {
  }

  lemma MissingInstanceFails(
    props: map<string, string>, connection: Outcome<Fault>, response: Result<seq<Cells>, Fault>)
    requires response.Success? ==> EvenRows(response.value)
    requires "bigtable.projectID" in props && "bigtable.instanceID" !in props
    ensures Main(props, connection, response) == MissingRun("bigtable.instanceID")
  {
  }

  lemma MissingTableFails(props: map<string, string>, connection: Outcome<Fault>, response: Result<seq<Cells>, Fault>)
    requires response.Success? ==> EvenRows(response.value)
    requires "bigtable.projectID" in props && "bigtable.instanceID" in props && "bigtable.table" !in props
    ensures Main(props, connection, response) == MissingRun("bigtable.table")
  {
  }

  lemma MissingQueryFails(props: map<string, string>, connection: Outcome<Fault>, response: Result<seq<Cells>, Fault>)
    requires response.Success? ==> EvenRows(response.value)
    requires "bigtable.projectID" in props && "bigtable.instanceID" in props && "bigtable.table" in props
    requires "query" !in props
    ensures Main(props, connection, response) == MissingRun("query")
  {
  }

  /** A missing property is reported by name, the first missing one in
      reading order, and the run exits with status 1 before connecting. */
  lemma MissingPropertyFails(
    props: map<string, string>, connection: Outcome<Fault>, response: Result<seq<Cells>, Fault>, k: nat)
    requires response.Success? ==> EvenRows(response.value)
    requires k < |RequiredProperties|
    requires RequiredProperties[k] !in props
    requires forall j :: 0 <= j < k ==> RequiredProperties[j] in props
    ensures Main(props, connection, response) ==
      Run("", UncaughtReport(IllegalArgument, "Missing required system property: " + RequiredProperties[k]), 1)
  {
    if k == 0 {
      MissingProjectFails(props, connection, response);
    } else if k == 1 {
      assert RequiredProperties[0] in props;
      MissingInstanceFails(props, connection, response);
    } else if k == 2 {
      assert RequiredProperties[0] in props && RequiredProperties[1] in props;
      MissingTableFails(props, connection, response);
    } else {
      assert RequiredProperties[0] in props && RequiredProperties[1] in props && RequiredProperties[2] in props;
      MissingQueryFails(props, connection, response);
    }
  }

  /** With every property present, the program runs the named query. */
  lemma MainRunsQuery(props: map<string, string>, connection: Outcome<Fault>, response: Result<seq<Cells>, Fault>)
    requires response.Success? ==> EvenRows(response.value)
    requires forall p :: p in RequiredProperties ==> p in props
    ensures Main(props, connection, response) == RunQuery(props["query"], connection, response)
  {
    assert RequiredProperties[0] in props && RequiredProperties[1] in props;
    assert RequiredProperties[2] in props && RequiredProperties[3] in props;
  }

  /** With the properties present and the connection open, an unknown query
      name prints the catalog message and exits with status 1. */
  lemma UnknownQueryFails(props: map<string, string>, response: Result<seq<Cells>, Fault>)
    requires response.Success? ==> EvenRows(response.value)
    requires forall p :: p in RequiredProperties ==> p in props
    requires props["query"] !in QueryNames
    ensures Main(props, Pass, response) == Run("", CatalogMessage + "\n", 1)
  {
    DispatchSelectsByName(props["query"], LookupVehicleInGivenHour);
    MainRunsQuery(props, Pass, response);
  }

  /** A failed read: the scans have already printed their header, the
      lookup has printed nothing; either way the exception is reported on
      standard error (by the driver for an I/O exception, by the runtime
      otherwise) and the run exits with status 1. */
  lemma ReadFailureReported(name: string, fault: Fault)
    requires Dispatch(name).Some?
    ensures var run := RunQuery(name, Pass, Failure(fault));
      && run.exitCode == 1
      && run.stderr == FailureReport(fault)
      && (fault.IOError? ==> run.stderr == "Exception while running Codelab: " + fault.message + "\n")
      && (run.stdout == "" <==> Dispatch(name) == Some(LookupVehicleInGivenHour))
      && (Dispatch(name) != Some(LookupVehicleInGivenHour) ==> run.stdout == Header(Dispatch(name).value))
  {
    var q := Dispatch(name).value;
    HeaderIsOneLine(q);
    ScansStartAtPrefix(q);
  }

  /** The lines of standard output after a successful query whose values
      hold no comma or newline: the header shares a line with the first
      pair, every pair line ends with a newline, and a result of `n` cells
      in all prints `n/2` pair lines. */
  lemma StdoutLayout(name: string, rows: seq<Cells>)
    requires Dispatch(name).Some?
    requires EvenRows(rows)
    requires forall r :: 0 <= r < |rows| ==> PlainCells(rows[r])
    ensures var header := Header(Dispatch(name).value);
      var lines := AllPairLines(rows);
      var out := RunQuery(name, Pass, Success(rows)).stdout;
      && |lines| == CellCount(rows) / 2
      && (|lines| == 0 ==> SplitAll(out, '\n') == [header])
      && (|lines| > 0 ==> SplitAll(out, '\n') == [header + lines[0]] + lines[1..] + [""])
  {
    var q := Dispatch(name).value;
    HeaderIsOneLine(q);
    QueryOutputLayout(Header(q), rows);
  }
}
