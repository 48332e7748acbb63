/** The command-line entry points: the run-mode decision on `sys.argv`, the
    shell run that follows it, and the two extraction helpers that compare
    the local database with the codelists of the API. */
module Cli {
  import opened Wrappers
  import opened Strings
  import opened Tree
  import opened Namespaces
  import opened Hierarchy
  import opened Response
  import opened Extractors
  import opened Sessions

  // ---------------------------------------------------------------------
  // run-mode decision
  // ---------------------------------------------------------------------

  const NoModeMessage := "Provide at least one argument to specify the run mode\n"
  const ModeMessage := "Choose mode among: \"--interactive\"|\"-i\" or \"--shell\"|\"-s\"\n"
  const InteractiveExtraMessage := "Interactive mode does not take other arguments\n"
  const ShellMissingMessage :=
    "Shell mode requires additional arguments, at least two more (for the query type and for the artefact/context)\n"
  const StructureArgsMessage :=
    "For structure queries, only one more argument needed after the query type: \n* artefact\n"
  const DataArgsMessage :=
    "For data queries, 6 more arguments needed after the query type: \n* context\n* agency_id\n* dataflow_id\n* dataflow_version\n* filter_expression\n* optional_parameters\n"
  const QueryTypesMessage := "Supported query types: \"structure\" and \"data\"\n"

  /** The run mode `query()` settles on: the interactive session, or a shell
      run with the session arguments `argv[2:]`. */
  datatype Mode = InteractiveMode | ShellMode(args: seq<string>)

  predicate IsInteractiveFlag(a: string) { a == "--interactive" || a == "-i" }

  predicate IsShellFlag(a: string) { a == "--shell" || a == "-s" }

  /** The decision tree of `query()` on `sys.argv`: a run mode, or the
      message the program exits with. */
  function Dispatch(argv: seq<string>): Result<Mode>
  {
    if |argv| < 2 then Err(SystemExit(NoModeMessage))
    else if IsInteractiveFlag(argv[1]) then
      if |argv| == 2 then Ok(InteractiveMode) else Err(SystemExit(InteractiveExtraMessage))
    else if IsShellFlag(argv[1]) then
      if |argv| == 2 then Err(SystemExit(ShellMissingMessage))
      else if (|argv| == 4 && argv[2] == "structure") || (|argv| == 9 && argv[2] == "data") then
        Ok(ShellMode(argv[2..]))
      else if argv[2] == "structure" then Err(SystemExit(StructureArgsMessage))
      else if argv[2] == "data" then Err(SystemExit(DataArgsMessage))
      else Err(SystemExit(QueryTypesMessage))
    else Err(SystemExit(ModeMessage))
  }

  /** The arguments a shell run hands to the session are exactly the
      arguments of one query: the session is built without an index error
      or an unknown query type, and it reads every argument. */
  lemma DispatchShellQuery(argv: seq<string>)
    requires Dispatch(argv).Ok? && Dispatch(argv).value.ShellMode?
    ensures var a := Dispatch(argv).value.args;
            && |argv| >= 2 && IsShellFlag(argv[1]) && a == argv[2..]
            && ScriptedQuery(a).Ok? && Args(ScriptedQuery(a).value) == a
  {
    var a := argv[2..];
    if argv[2] == "structure" {
      assert a == [a[0], a[1]];
    } else {
      assert a == [a[0], a[1], a[2], a[3], a[4], a[5], a[6]];
    }
  }

  /** Conversely, the shell flag followed by the arguments of any query
      starts a shell run with those arguments. */
  lemma ShellAccepts(argv: seq<string>, q: Query)
    requires |argv| >= 2 && IsShellFlag(argv[1]) && argv[2..] == Args(q)
    ensures Dispatch(argv) == Ok(ShellMode(Args(q)))
  {
    assert |argv| == 2 + |Args(q)|;
    assert argv[2] == Args(q)[0];
  }

  /** Every other shell invocation exits with the usage message of the
      query type it names, or with the list of supported types. */
  lemma ShellUsage(argv: seq<string>)
    requires |argv| >= 3 && IsShellFlag(argv[1])
    requires forall q: Query :: argv[2..] != Args(q)
    ensures Dispatch(argv) == Err(SystemExit(
              if argv[2] == "structure" then StructureArgsMessage
              else if argv[2] == "data" then DataArgsMessage
              else QueryTypesMessage))
  {
    if |argv| == 4 && argv[2] == "structure" {
      ArgsOfStructure(argv);
      assert false;
    } else if |argv| == 9 && argv[2] == "data" {
      ArgsOfData(argv);
      assert false;
    }
  }

  /** The exits that come before any query type is read: no run mode, an
      unknown mode flag, arguments after the interactive flag, and the shell
      flag alone; the interactive flag alone is the interactive mode. */
  lemma DispatchExits(argv: seq<string>)
    ensures |argv| < 2 ==> Dispatch(argv) == Err(SystemExit(NoModeMessage))
    ensures |argv| >= 2 && !IsInteractiveFlag(argv[1]) && !IsShellFlag(argv[1]) ==>
              Dispatch(argv) == Err(SystemExit(ModeMessage))
    ensures |argv| > 2 && IsInteractiveFlag(argv[1]) ==> Dispatch(argv) == Err(SystemExit(InteractiveExtraMessage))
    ensures |argv| == 2 && IsInteractiveFlag(argv[1]) ==> Dispatch(argv) == Ok(InteractiveMode)
    ensures |argv| == 2 && IsShellFlag(argv[1]) ==> Dispatch(argv) == Err(SystemExit(ShellMissingMessage))
  {
  }

  lemma ArgsOfStructure(argv: seq<string>)
    requires |argv| == 4 && argv[2] == "structure"
    ensures argv[2..] == Args(StructureQuery(argv[3]))
  {
  }

  lemma ArgsOfData(argv: seq<string>)
    requires |argv| == 9 && argv[2] == "data"
    ensures argv[2..] == Args(DataQuery(argv[3], argv[4], argv[5], argv[6], argv[7], argv[8]))
  {
  }

  // ---------------------------------------------------------------------
  // shell run
  // ---------------------------------------------------------------------

  /** What a shell run writes besides the hierarchy report. */
  datatype Records =
    | NoRecords
    | DataflowRecords(dataflows: seq<Dataflow>)
    | CodelistRecords(codelists: seq<CodeRow>)

  /** What a shell run that gets as far as the report produces: the text
      written to the report file, and then the extracted records, or the
      exception the extraction raises after the report has been written. */
  datatype Outcome = Outcome(report: string, records: Result<Records>)

  /** What `query()` does: an interactive session (not modelled further),
      or a shell run with its outcome. */
  datatype Run = InteractiveRun | ShellRun(outcome: Outcome)

  /** The message a shell run exits with when `get` raises with `message`. */
  function CaughtMessage(message: string): string
  {
    "\nCaught an exception: \"" + message + "\"\n"
  }

  /** The work done on a 200 response to query `q` with body `body`: the
      hierarchy report, then the dataflow or codelist records when the
      artefact type asks for them. Only a failure of the report itself
      leaves nothing written. */
  function Processed(q: Query, body: Node): Result<Outcome>
  {
    var nss := Discovered(PreOrder(body));
    var lines :- HierarchyLines(body, nss, None);
    var report := ReportText(lines);
    if q == StructureQuery("dataflow") then
      var records := match Dataflows(body, LookupNamespace(nss, "structure"), LookupNamespace(nss, "common"))
                     case Ok(dfs) => Ok(DataflowRecords(dfs))
                     case Err(e) => Err(e);
      Ok(Outcome(report, records))
    else if q == StructureQuery("codelist") then
      var records := match Codelists(body, LookupNamespace(nss, "structure"), LookupNamespace(nss, "common"))
                     case Ok(cls) => Ok(CodelistRecords(cls))
                     case Err(e) => Err(e);
      Ok(Outcome(report, records))
    else Ok(Outcome(report, Ok(NoRecords)))
  }

  /** A shell run of query `q`: `get`, then the processing of the body. */
  function ShellOutcome(q: Query, status: nat, body: Node): Result<Outcome>
  {
    if status != 200 then Err(SystemExit(CaughtMessage(StatusMessage(status))))
    else Processed(q, body)
  }

  /** `query()` on `argv`, the endpoint answering with `status` and `body`. */
  function QueryRun(argv: seq<string>, status: nat, body: Node): Result<Run>
  {
    var mode :- Dispatch(argv);
    match mode
    case InteractiveMode => Ok(InteractiveRun)
    case ShellMode(args) =>
      var q :- ScriptedQuery(args);
      var outcome :- ShellOutcome(q, status, body);
      Ok(ShellRun(outcome))
  }

  /** A shell run on any status but 200 exits with the status in the
      message; on 200 it is the processing of the body. */
  lemma ShellRunSpec(argv: seq<string>, status: nat, body: Node)
    requires Dispatch(argv).Ok? && Dispatch(argv).value.ShellMode?
    ensures var q := ScriptedQuery(argv[2..]).value;
            && (status != 200 ==> QueryRun(argv, status, body) == Err(SystemExit(CaughtMessage(StatusMessage(status)))))
            && (status == 200 ==> (QueryRun(argv, status, body).Ok? <==> Processed(q, body).Ok?))
            && (status == 200 && QueryRun(argv, status, body).Ok? ==>
                  QueryRun(argv, status, body) == Ok(ShellRun(Processed(q, body).value)))
  {
    DispatchShellQuery(argv);
  }

  /** The report is written exactly when the rewrite of the hierarchy
      succeeds, whatever the extraction that follows does; it has one line
      per element of the tree. Dataflow records come exactly with the
      `dataflow` artefact type and codelist records exactly with the
      `codelist` one; they are the extracted ones, and an extraction that
      fails leaves its error next to the report. */
  lemma ProcessedSpec(q: Query, body: Node)
    ensures Processed(q, body).Ok? <==> HierarchyLines(body, Discovered(PreOrder(body)), None).Ok?
    ensures Processed(q, body).Ok? ==>
              var lines := HierarchyLines(body, Discovered(PreOrder(body)), None).value;
              Processed(q, body).value.report == ReportText(lines) && |lines| == NodeCount(body)
    ensures Processed(q, body).Ok? ==>
              var records := Processed(q, body).value.records;
              && (records.Ok? ==> (records.value.DataflowRecords? <==> q == StructureQuery("dataflow")))
              && (records.Ok? ==> (records.value.CodelistRecords? <==> q == StructureQuery("codelist")))
              && (records.Err? ==> q == StructureQuery("dataflow") || q == StructureQuery("codelist"))
    ensures Processed(q, body).Ok? && q == StructureQuery("dataflow") ==>
              var nss := Discovered(PreOrder(body));
              var dfs := Dataflows(body, LookupNamespace(nss, "structure"), LookupNamespace(nss, "common"));
              var records := Processed(q, body).value.records;
              && (records.Ok? <==> dfs.Ok?)
              && (records.Ok? ==> records.value.dataflows == dfs.value)
              && (records.Err? ==> records.error == dfs.error)
    ensures Processed(q, body).Ok? && q == StructureQuery("codelist") ==>
              var nss := Discovered(PreOrder(body));
              var cls := Codelists(body, LookupNamespace(nss, "structure"), LookupNamespace(nss, "common"));
              var records := Processed(q, body).value.records;
              && (records.Ok? <==> cls.Ok?)
              && (records.Ok? ==> records.value.codelists == cls.value)
              && (records.Err? ==> records.error == cls.error)
  {
    HierarchyLinesCount(body, Discovered(PreOrder(body)), None);
  }

  /** `query()`, with the copying of `argv[2:]` into the session arguments. */
  method Query(argv: seq<string>, status: nat, body: Node) returns (r: Result<Run>)
    ensures r == QueryRun(argv, status, body)
  {
    var mode :- Dispatch(argv);
    if mode.InteractiveMode? {
      return Ok(InteractiveRun);
    }
    DispatchShellQuery(argv);
    var args := CopyArgs(argv);
    var outcome :- RunShell(args, status, body);
    return Ok(ShellRun(outcome));
  }

  /** The loop that copies `argv[2:]` into the session arguments. */
  method CopyArgs(argv: seq<string>) returns (args: seq<string>)
    requires |argv| >= 2
    ensures args == argv[2..]
  {
    args := [];
    for i := 2 to |argv|
      invariant args == argv[2..i]
    {
      args := args + [argv[i]];
    }
  }

  /** The shell branch of `query()` on session arguments `args` that name a
      query. */
  method RunShell(args: seq<string>, status: nat, body: Node) returns (r: Result<Outcome>)
    requires ScriptedQuery(args).Ok?
    ensures r == ShellOutcome(ScriptedQuery(args).value, status, body)
  {
    var q := ScriptedQuery(args).value;
    var session := new CustomSession(q);
    var got := session.Get(status, body);
    if got.Err? {
      return Err(SystemExit(CaughtMessage(got.error.message)));
    }
    r := Process(session, got.value, q);
  }

  /** The work of a shell run on the response of a session for query `q`. */
  method Process(session: CustomSession, response: CustomResponse, ghost q: Query) returns (r: Result<Outcome>)
    requires session.queryType == QueryType(q)
    requires session.artefactType == (if q.StructureQuery? then Some(q.artefactType) else None)
    requires response.namespaces == Discovered(PreOrder(response.hierarchy))
    ensures r == Processed(q, response.hierarchy)
  {
    var report :- response.OutputHierarchy(None);
    var records: Result<Records> := Ok(NoRecords);
    if session.queryType == "structure" {
      if session.artefactType == Some("dataflow") {
        var dfs := ExtractDataflows(response);
        records := if dfs.Ok? then Ok(DataflowRecords(dfs.value)) else Err(dfs.error);
      } else if session.artefactType == Some("codelist") {
        var cls := ExtractCodelists(response);
        records := if cls.Ok? then Ok(CodelistRecords(cls.value)) else Err(cls.error);
      }
    }
    return Ok(Outcome(report, records));
  }

  // ---------------------------------------------------------------------
  // extract_fromDB
  // ---------------------------------------------------------------------

  /** The value kept for one database row: rows of `subjects` are grouped
      under "OECD", "Euro area", "European Union" or "China" by the first
      rule that applies; other rows are kept as they are. */
  function Normalise(table: string, row: string): string
  {
    if table != "subjects" then row
    else if StartsWith(row, "OECD") then "OECD"
    else if StartsWith(row, "Euro area") then "Euro area"
    else if StartsWith(row, "European Union") then "European Union"
    else if Contains(row, "China") then "China"
    else row
  }

  /** The kept value always occurs within the row, and rows of other tables
      are never changed. */
  lemma NormaliseWithin(table: string, row: string)
    ensures Contains(row, Normalise(table, row))
    ensures table != "subjects" ==> Normalise(table, row) == row
  {
    assert StartsWith(row, row);
  }

  /** Normalising twice changes nothing. */
  lemma NormaliseIdempotent(table: string, row: string)
    ensures Normalise(table, Normalise(table, row)) == Normalise(table, row)
  {
    var n := Normalise(table, row);
    if table == "subjects" && n != row {
      if n == "Euro area" {
        DiffersAt(n, "OECD", 0);
      } else if n == "European Union" {
        DiffersAt(n, "OECD", 0);
        DiffersAt(n, "Euro area", 4);
      } else if n == "China" {
        DiffersAt(n, "OECD", 0);
        DiffersAt(n, "Euro area", 0);
        DiffersAt(n, "European Union", 0);
        assert StartsWith(n, "China");
      }
    }
  }

  /** For `subjects`, each label takes the rows it is meant for: a row
      starting with "OECD", "Euro area" or "European Union" gets that label
      (the three prefixes exclude one another), a row that starts with none
      of them and contains "China" gets "China", and any other row is kept. */
  lemma NormaliseLabels(row: string)
    ensures Normalise("subjects", row) in {row, "OECD", "Euro area", "European Union", "China"}
    ensures StartsWith(row, "OECD") ==> Normalise("subjects", row) == "OECD"
    ensures StartsWith(row, "Euro area") ==> Normalise("subjects", row) == "Euro area"
    ensures StartsWith(row, "European Union") ==> Normalise("subjects", row) == "European Union"
    ensures !StartsWith(row, "OECD") && !StartsWith(row, "Euro area") && !StartsWith(row, "European Union") ==>
              Normalise("subjects", row) == if Contains(row, "China") then "China" else row
  {
    if StartsWith(row, "Euro area") {
      assert row[0] == "Euro area"[0];
      DiffersAt(row, "OECD", 0);
    }
    if StartsWith(row, "European Union") {
      assert row[0] == "European Union"[0] && row[4] == "European Union"[4];
      DiffersAt(row, "OECD", 0);
      DiffersAt(row, "Euro area", 4);
    }
  }

  lemma DiffersAt(s: string, p: string, i: nat)
    requires i < |s| && i < |p| && s[i] != p[i]
    ensures !StartsWith(s, p)
  {
  }

  /** `extract_fromDB(table, attribute)` over the rows the query returns:
      one value per row, in order, each row normalised. */
  method ExtractFromDb(table: string, rows: seq<string>) returns (selected: seq<string>)
    ensures |selected| == |rows|
    ensures forall i :: 0 <= i < |rows| ==> selected[i] == Normalise(table, rows[i])
  {
    selected := [];
    for i := 0 to |rows|
      invariant |selected| == i
      invariant forall j :: 0 <= j < i ==> selected[j] == Normalise(table, rows[j])
    {
      var row := rows[i];
      if table == "subjects" {
        if StartsWith(row, "OECD") {
          row := "OECD";
        } else if StartsWith(row, "Euro area") {
          row := "Euro area";
        } else if StartsWith(row, "European Union") {
          row := "European Union";
        } else if Contains(row, "China") {
          row := "China";
        }
      }
      selected := selected + [row];
    }
  }

  // ---------------------------------------------------------------------
  // extract_fromAPI
  // ---------------------------------------------------------------------

  /** The codelist (agency and id) each option of `extract_fromAPI` reads. */
  function Selector(what: string): Option<(string, string)>
  {
    if what == "subject" then Some(("OECD", "CL_AREA"))
    else if what == "indicator" then Some(("OECD.SDD.NAD", "CL_TRANSACTION"))
    else if what == "unit" then Some(("OECD.SDD.SDPS", "CL_MEI_TEST_UNIT_MEASURE"))
    else None
  }

  predicate Selects(row: CodeRow, agencyId: string, codelistId: string)
  {
    row.agencyId == agencyId && row.codelistId == codelistId
  }

  /** The `codelist_name` of the rows of the codelist `agencyId`/`codelistId`. */
  function Names(rows: seq<CodeRow>, agencyId: string, codelistId: string): seq<string>
  {
    if rows == [] then []
    else
      var last := rows[|rows| - 1];
      Names(rows[..|rows| - 1], agencyId, codelistId)
      + (if Selects(last, agencyId, codelistId) then [last.codelistName] else [])
  }

  /** The names are those of the selected rows and no others, at most one
      per row. */
  lemma {:induction false} NamesSpec(rows: seq<CodeRow>, agencyId: string, codelistId: string)
    ensures |Names(rows, agencyId, codelistId)| <= |rows|
    ensures forall x :: x in Names(rows, agencyId, codelistId) <==>
              exists i :: 0 <= i < |rows| && Selects(rows[i], agencyId, codelistId) && rows[i].codelistName == x
  {
    if rows != [] {
      var front := rows[..|rows| - 1];
      NamesSpec(front, agencyId, codelistId);
      forall x
        ensures x in Names(rows, agencyId, codelistId) <==>
                exists i :: 0 <= i < |rows| && Selects(rows[i], agencyId, codelistId) && rows[i].codelistName == x
      {
        if x in Names(rows, agencyId, codelistId) && x !in Names(front, agencyId, codelistId) {
          assert Selects(rows[|rows| - 1], agencyId, codelistId) && rows[|rows| - 1].codelistName == x;
        }
        if exists i :: 0 <= i < |rows| && Selects(rows[i], agencyId, codelistId) && rows[i].codelistName == x {
          var i :| 0 <= i < |rows| && Selects(rows[i], agencyId, codelistId) && rows[i].codelistName == x;
          if i < |rows| - 1 {
            assert front[i] == rows[i];
          }
        }
      }
    }
  }

  /** The names keep the order of the rows: the names of two runs of rows
      are the names of the first run followed by those of the second. */
  lemma {:induction false} NamesAppend(first: seq<CodeRow>, second: seq<CodeRow>, agencyId: string, codelistId: string)
    ensures Names(first + second, agencyId, codelistId) == Names(first, agencyId, codelistId) + Names(second, agencyId, codelistId)
    decreases |second|
  {
    if second != [] {
      var front := second[..|second| - 1];
      assert (first + second)[..|first + second| - 1] == first + front;
      NamesAppend(first, front, agencyId, codelistId);
    } else {
      assert first + second == first;
    }
  }

  /** What `extract_fromAPI(what)` returns: the names of its codelist among
      the codelist records of the endpoint's answer. A failed request leaves
      the response unbound; an unknown option exits once the records are
      extracted. */
  function FromApi(what: string, status: nat, body: Node): Result<seq<string>>
  {
    if status != 200 then Err(UnboundLocalError("cl_response"))
    else
      var nss := Discovered(PreOrder(body));
      var cl :- Codelists(body, LookupNamespace(nss, "structure"), LookupNamespace(nss, "common"));
      match Selector(what)
      case None => Err(SystemExit("Not a viable option"))
      case Some((agencyId, codelistId)) => Ok(Names(cl, agencyId, codelistId))
  }

  /** The loop of one option of `extract_fromAPI`. */
  method SelectNames(cl: seq<CodeRow>, agencyId: string, codelistId: string) returns (list: seq<string>)
    ensures list == Names(cl, agencyId, codelistId)
  {
    list := [];
    for i := 0 to |cl|
      invariant list == Names(cl[..i], agencyId, codelistId)
    {
      assert cl[..i + 1][..i] == cl[..i];
      if cl[i].agencyId == agencyId && cl[i].codelistId == codelistId {
        list := list + [cl[i].codelistName];
      }
    }
    assert cl[..|cl|] == cl;
  }

  /** `extract_fromAPI(what)`, the endpoint answering the codelist query
      with `status` and `body`. */
  method ExtractFromApi(what: string, status: nat, body: Node) returns (r: Result<seq<string>>)
    ensures r == FromApi(what, status, body)
  {
    var session := new CustomSession(StructureQuery("codelist"));
    var got := session.Get(status, body);
    if got.Err? {
      return Err(UnboundLocalError("cl_response"));
    }
    var cl :- ExtractCodelists(got.value);
    var list: seq<string>;
    if what == "subject" {
      list := SelectNames(cl, "OECD", "CL_AREA");
    } else if what == "indicator" {
      list := SelectNames(cl, "OECD.SDD.NAD", "CL_TRANSACTION");
    } else if what == "unit" {
      list := SelectNames(cl, "OECD.SDD.SDPS", "CL_MEI_TEST_UNIT_MEASURE");
    } else {
      return Err(SystemExit("Not a viable option"));
    }
    return Ok(list);
  }
}
