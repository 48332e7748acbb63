/** `CustomSession`: building the query URL and headers from command-line
    arguments or from answers typed at the console, and `get`, which accepts
    only a 200 response. */
module Sessions {
  import opened Wrappers
  import opened Strings
  import opened Tree
  import opened Response

  /** The leading part of every resource URL (the OECD endpoint). */
  const UrlRoot := "https://sdmx.oecd.org/public/rest/v2"

  const StructureMediaType := "application/vnd.sdmx.structure+xml; charset=utf-8; version=2.1"
  const DataMediaType := "application/vnd.sdmx.structurespecificdata+xml; charset=utf-8; version=2.1"

  /** A query: structural metadata about an artefact type, or data. */
  datatype Query =
    | StructureQuery(artefactType: string)
    | DataQuery(context: string, agencyId: string, dataflowId: string, dataflowVersion: string,
                filterExpression: string, optionalParameters: string)

  /** The query type, one of the values of `query_types`. */
  function QueryType(q: Query): string
  {
    match q
    case StructureQuery(_) => "structure"
    case DataQuery(_, _, _, _, _, _) => "data"
  }

  /** The part of the URL after the query type: the artefact type, or the
      data fields separated by `/`, with `?` before the optional parameters. */
  function Path(q: Query): string
  {
    match q
    case StructureQuery(a) => a
    case DataQuery(c, ag, df, v, f, o) =>
      c + ("/" + (ag + ("/" + (df + ("/" + (v + ("/" + (f + ("?" + o)))))))))
  }

  /** The trailing part of the URL, which identifies the resource. */
  function UrlTail(q: Query): string
  {
    QueryType(q) + ("/" + Path(q))
  }

  /** `"/".join([url_root, url_tail])`. */
  function Url(q: Query): string
  {
    Join("/", [UrlRoot, UrlTail(q)])
  }

  /** The `Accept` header a query sends. */
  function AcceptFor(q: Query): string
  {
    if q.StructureQuery? then StructureMediaType else DataMediaType
  }

  /** The headers a query sends. */
  function Headers(q: Query): map<string, string>
  {
    map["Accept" := AcceptFor(q), "Accept-Language" := "en", "Accept-Encoding" := "gzip, deflate, br"]
  }

  // ---------------------------------------------------------------------
  // scripted mode
  // ---------------------------------------------------------------------

  /** What `CustomSession(args)` raises for an unknown query type. */
  function UnknownQueryType(t: string): Error
  {
    RequestException("\"" + t + "\" not in dict_values(['structure', 'data'])")
  }

  /** The query `CustomSession(args)` builds, or what it raises: an index
      past the end of `args`, or an unknown query type. Arguments after the
      ones a query type reads are ignored. */
  function ScriptedQuery(args: seq<string>): Result<Query>
  {
    if |args| == 0 then Err(IndexError)
    else if args[0] != "structure" && args[0] != "data" then Err(UnknownQueryType(args[0]))
    else if args[0] == "structure" then
      if |args| < 2 then Err(IndexError) else Ok(StructureQuery(args[1]))
    else if |args| < 7 then Err(IndexError)
    else Ok(DataQuery(args[1], args[2], args[3], args[4], args[5], args[6]))
  }

  /** The arguments that express a query. */
  function Args(q: Query): seq<string>
  {
    match q
    case StructureQuery(a) => [QueryType(q), a]
    case DataQuery(c, ag, df, v, f, o) => [QueryType(q), c, ag, df, v, f, o]
  }

  /** Every query is built back from its arguments, whatever follows them. */
  lemma ScriptedQueryOfArgs(q: Query, extra: seq<string>)
    ensures ScriptedQuery(Args(q) + extra) == Ok(q)
  {
  }

  /** A query built from `args` is expressed by a prefix of `args`; the
      query type names a known type, and the build fails exactly when `args`
      is too short for its query type or names no known type. */
  lemma ScriptedQueryArgs(args: seq<string>)
    ensures ScriptedQuery(args).Ok? ==>
              var q := ScriptedQuery(args).value;
              |Args(q)| <= |args| && args[..|Args(q)|] == Args(q)
    ensures ScriptedQuery(args).Err? <==>
              || |args| == 0
              || (args[0] != "structure" && args[0] != "data")
              || (args[0] == "structure" && |args| < 2)
              || (args[0] == "data" && |args| < 7)
  {
    if ScriptedQuery(args).Ok? {
      var q := ScriptedQuery(args).value;
      assert args[..|Args(q)|] == Args(q);
    }
  }

  // ---------------------------------------------------------------------
  // interactive mode
  // ---------------------------------------------------------------------

  /** `query_types`: the menu number of each query type. */
  function Choice(answer: string): Option<string>
  {
    if answer == "1" then Some("structure")
    else if answer == "2" then Some("data")
    else None
  }

  /** The prompting loop on the answers `console[from..]`: the query type
      of the first valid answer and the position after it; running out of
      answers raises EOFError. */
  function ChooseFrom(console: seq<string>, from: nat): (r: Result<(string, nat)>)
    requires from <= |console|
    decreases |console| - from
  {
    if from == |console| then Err(EOFError)
    else
      match Choice(console[from])
      case Some(t) => Ok((t, from + 1))
      case None => ChooseFrom(console, from + 1)
  }

  /** The loop stops at the first valid answer, and fails only when no
      answer is valid. */
  lemma {:induction false} ChooseFromSpec(console: seq<string>, from: nat)
    requires from <= |console|
    ensures ChooseFrom(console, from).Err? <==> forall k :: from <= k < |console| ==> Choice(console[k]).None?
    ensures ChooseFrom(console, from).Err? ==> ChooseFrom(console, from).error == EOFError
    ensures ChooseFrom(console, from).Ok? ==>
              var (t, next) := ChooseFrom(console, from).value;
              && from < next <= |console| && Choice(console[next - 1]) == Some(t)
              && forall k :: from <= k < next - 1 ==> Choice(console[k]).None?
    decreases |console| - from
  {
    if from < |console| && Choice(console[from]).None? {
      ChooseFromSpec(console, from + 1);
    }
  }

  /** The query typed at the console after the menu, and the number of
      answers read; running out of answers raises EOFError. */
  function Interactive(console: seq<string>): Result<(Query, nat)>
  {
    var (t, next) :- ChooseFrom(console, 0);
    if t == "structure" then
      if next + 1 > |console| then Err(EOFError)
      else Ok((StructureQuery(console[next]), next + 1))
    else
      if next + 6 > |console| then Err(EOFError)
      else Ok((DataQuery(console[next], console[next + 1], console[next + 2], console[next + 3],
                         console[next + 4], console[next + 5]), next + 6))
  }

  /** Interactive mode reads the menu answers up to the first valid one, then
      one answer per field of the query, in the order of the fields. */
  lemma InteractiveSpec(console: seq<string>)
    requires Interactive(console).Ok?
    ensures var (q, used) := Interactive(console).value;
            var next := used - |Args(q)| + 1;
            && 0 < next <= used <= |console|
            && Choice(console[next - 1]) == Some(QueryType(q))
            && (forall k :: 0 <= k < next - 1 ==> Choice(console[k]).None?)
            && console[next..used] == Args(q)[1..]
  {
    ChooseFromSpec(console, 0);
    var (q, used) := Interactive(console).value;
    var next := ChooseFrom(console, 0).value.1;
    assert console[next..used] == Args(q)[1..];
  }

  /** `input()` at the prompts: the answers to the menu, until a valid one. */
  method ReadQueryType(console: seq<string>) returns (r: Result<(string, nat)>)
    ensures r == ChooseFrom(console, 0)
  {
    var i := 0;
    while true
      invariant i <= |console|
      invariant ChooseFrom(console, i) == ChooseFrom(console, 0)
      decreases |console| - i
    {
      if i == |console| {
        return Err(EOFError);
      }
      var answer := console[i];
      i := i + 1;
      var choice := Choice(answer);
      if choice.None? {
        continue;
      } else {
        return Ok((choice.value, i));
      }
    }
  }

  /** The session `CustomSession(args)` opens: from the arguments when there
      are any, else from the console answers. */
  function SessionQuery(args: Option<seq<string>>, console: seq<string>): Result<Query>
  {
    match args
    case Some(a) => ScriptedQuery(a)
    case None =>
      var (q, _) :- Interactive(console);
      Ok(q)
  }

  class CustomSession {
    var headers: map<string, string>
    var queryType: string
    /** Set only for structure queries. */
    var artefactType: Option<string>
    var url: string

    /** The session for query `q`: the default headers with the `Accept`
        header of the query type, and the URL of the resource. */
    constructor(q: Query)
      ensures headers == Headers(q)
      ensures queryType == QueryType(q)
      ensures artefactType == (if q.StructureQuery? then Some(q.artefactType) else None)
      ensures url == Url(q)
    {
      headers := map["Accept" := StructureMediaType, "Accept-Language" := "en", "Accept-Encoding" := "gzip, deflate, br"];
      queryType := QueryType(q);
      artefactType := None;
      url := "";
      new;
      match q {
        case StructureQuery(a) =>
          headers := headers["Accept" := StructureMediaType];
          artefactType := Some(a);
        case DataQuery(_, _, _, _, _, _) =>
          headers := headers["Accept" := DataMediaType];
      }
      url := Join("/", [UrlRoot, UrlTail(q)]);
    }

    /** `get()`: the response wrapped as a `CustomResponse` when the status
        is 200; any other status raises with the status in the message. */
    method Get(status: nat, body: Node) returns (r: Result<CustomResponse>)
      ensures r.Ok? <==> status == 200
      ensures r.Err? ==> r.error == RequestException(StatusMessage(status))
      ensures r.Ok? ==> fresh(r.value) && r.value.hierarchy == body
                        && r.value.namespaces == Namespaces.Discovered(PreOrder(body))
    {
      if status != 200 {
        return Err(RequestException(StatusMessage(status)));
      }
      var response := new CustomResponse(body);
      return Ok(response);
    }
  }

  /** The message `get` raises with. */
  function StatusMessage(status: nat): string
  {
    "Something went wrong! Status code: <" + NatToString(status) + ">"
  }

  /** `CustomSession(args)`, reading the console in interactive mode. */
  method Open(args: Option<seq<string>>, console: seq<string>) returns (r: Result<CustomSession>)
    ensures r.Ok? <==> SessionQuery(args, console).Ok?
    ensures r.Err? ==> r.error == SessionQuery(args, console).error
    ensures r.Ok? ==> var q := SessionQuery(args, console).value;
                      && fresh(r.value) && r.value.url == Url(q) && r.value.headers == Headers(q)
                      && r.value.queryType == QueryType(q)
                      && r.value.artefactType == (if q.StructureQuery? then Some(q.artefactType) else None)
  {
    var q: Query;
    if args.Some? {
      q :- ScriptedQuery(args.value);
    } else {
      var choice :- ReadQueryType(console);
      var (t, next) := choice;
      if t == "structure" {
        if next + 1 > |console| {
          return Err(EOFError);
        }
        q := StructureQuery(console[next]);
      } else {
        if next + 6 > |console| {
          return Err(EOFError);
        }
        q := DataQuery(console[next], console[next + 1], console[next + 2], console[next + 3],
                       console[next + 4], console[next + 5]);
      }
    }
    var session := new CustomSession(q);
    return Ok(session);
  }

  // ---------------------------------------------------------------------
  // URLs
  // ---------------------------------------------------------------------

  /** A query sends exactly the three default headers, in English, and
      announces the structure media type exactly for structure queries. */
  lemma HeadersSpec(q: Query)
    ensures Headers(q).Keys == {"Accept", "Accept-Language", "Accept-Encoding"}
    ensures Headers(q)["Accept-Language"] == "en" && Headers(q)["Accept-Encoding"] == "gzip, deflate, br"
    ensures Headers(q)["Accept"] == StructureMediaType <==> q.StructureQuery?
    ensures !q.StructureQuery? ==> Headers(q)["Accept"] == DataMediaType
  {
    assert StructureMediaType[30] != DataMediaType[30];
  }

  /** The URL is the root and the tail joined by a slash. */
  lemma UrlJoin(q: Query)
    ensures Url(q) == (UrlRoot + "/") + UrlTail(q)
  {
    assert [UrlRoot, UrlTail(q)][1..] == [UrlTail(q)];
    assert Join("/", [UrlTail(q)]) == UrlTail(q);
  }

  /** Every URL starts with the endpoint root and the query type. */
  lemma UrlShape(q: Query)
    ensures StartsWith(Url(q), UrlRoot + "/" + QueryType(q) + "/")
  {
    UrlJoin(q);
    PrefixOfJoined(UrlRoot + "/", QueryType(q), Path(q));
  }

  lemma PrefixOfJoined(p: string, t: string, rest: string)
    ensures StartsWith(p + (t + ("/" + rest)), p + t + "/")
  {
    var u := p + t + "/";
    assert (p + (t + ("/" + rest)))[..|u|] == u;
  }

  /** Equal texts with the same beginning have the same remainder. */
  lemma Cancel(p: string, x: string, y: string)
    requires p + x == p + y
    ensures x == y
  {
    assert x == (p + x)[|p|..];
    assert y == (p + y)[|p|..];
  }

  /** Different queries have different URLs, provided no data field but the
      last holds the separator that follows it (`/`, or `?` for the filter
      expression); an artefact type may hold anything. */
  lemma UrlInjective(q: Query, r: Query)
    requires q.DataQuery? ==> Separable(q)
    requires r.DataQuery? ==> Separable(r)
    requires Url(q) == Url(r)
    ensures q == r
  {
    UrlJoin(q);
    UrlJoin(r);
    Cancel(UrlRoot + "/", UrlTail(q), UrlTail(r));
    if q.StructureQuery? == r.StructureQuery? {
      Cancel(QueryType(q), "/" + Path(q), "/" + Path(r));
      Cancel("/", Path(q), Path(r));
      if q.DataQuery? {
        DataPathInjective(q, r);
      }
    } else {
      QueryTypeHeads(q, r);
    }
  }

  /** The query types differ already in their first letter. */
  lemma QueryTypeHeads(q: Query, r: Query)
    requires q.StructureQuery? != r.StructureQuery?
    ensures UrlTail(q) != UrlTail(r)
  {
    assert UrlTail(q)[0] == QueryType(q)[0];
    assert UrlTail(r)[0] == QueryType(r)[0];
  }

  /** The data fields can be read back from the URL. */
  predicate Separable(q: Query)
    requires q.DataQuery?
  {
    && '/' !in q.context && '/' !in q.agencyId && '/' !in q.dataflowId && '/' !in q.dataflowVersion
    && '?' !in q.filterExpression
  }

  lemma DataPathInjective(q: Query, r: Query)
    requires q.DataQuery? && r.DataQuery? && Separable(q) && Separable(r)
    requires Path(q) == Path(r)
    ensures q == r
  {
    var DataQuery(c1, ag1, df1, v1, f1, o1) := q;
    var DataQuery(c2, ag2, df2, v2, f2, o2) := r;
    SplitAtSeparator(c1, c2, ag1 + ("/" + (df1 + ("/" + (v1 + ("/" + (f1 + ("?" + o1))))))),
                     ag2 + ("/" + (df2 + ("/" + (v2 + ("/" + (f2 + ("?" + o2))))))), '/');
    SplitAtSeparator(ag1, ag2, df1 + ("/" + (v1 + ("/" + (f1 + ("?" + o1))))),
                     df2 + ("/" + (v2 + ("/" + (f2 + ("?" + o2))))), '/');
    SplitAtSeparator(df1, df2, v1 + ("/" + (f1 + ("?" + o1))), v2 + ("/" + (f2 + ("?" + o2))), '/');
    SplitAtSeparator(v1, v2, f1 + ("?" + o1), f2 + ("?" + o2), '/');
    SplitAtSeparator(f1, f2, o1, o2, '?');
  }

  /** Two texts without `c`, each followed by `c`, split a text the same way. */
  lemma SplitAtSeparator(a: string, b: string, x: string, y: string, c: char)
    requires c !in a && c !in b
    requires a + ([c] + x) == b + ([c] + y)
    ensures a == b && x == y
  {
    var s := a + ([c] + x);
    var t := b + ([c] + y);
    if |a| < |b| {
      SeparatorInLonger(a, b, x, y, c);
      assert false;
    } else if |b| < |a| {
      SeparatorInLonger(b, a, y, x, c);
      assert false;
    } else {
      assert a == s[..|a|];
      assert b == t[..|b|];
      assert x == s[|a| + 1..];
      assert y == t[|b| + 1..];
    }
  }

  /** Where the shorter text ends, the longer one holds the separator. */
  lemma SeparatorInLonger(a: string, b: string, x: string, y: string, c: char)
    requires |a| < |b|
    requires a + ([c] + x) == b + ([c] + y)
    ensures c in b
  {
    assert (a + ([c] + x))[|a|] == c;
    assert (b + ([c] + y))[|a|] == b[|a|];
  }
}
