# OECD SDMX REST client — a verified model of its core

The client queries the OECD endpoint of the SDMX RESTful web services. It builds
the resource URL and the `Accept` header from the command line or from answers
typed at the console (`CustomSession`). It wraps the XML answer as an element
tree and finds the namespaces prefixing its tags, with the description each
SDMX-ML 2.1 namespace carries after `/v2_1/` (`CustomResponse`). It flattens the
tree into indented display lines, one per element, and replaces each line's
leading namespace by `-> (<description>) ` for the hierarchy report. It pulls
flat records out of `Dataflow` and `Codelist` elements (`dataflows`,
`codelists`). `main.py` adds the run-mode decision on `sys.argv`, the
normalisation of `subjects` rows read from the local database, and the filter
that selects the codes of one codelist.

The model is split into modules that follow the program:

- `Wrappers`: `Option`, `Result`, and the Python exceptions the code can raise, as an `Error` value. `sys.exit(msg)` is `Err(SystemExit(msg))`.
- `Strings`: the Python string operations used: `startswith`, `in`, `strip`, `replace`, `re.sub(" +", " ", …)`, `join`, `str(int)`.
- `Tree`: the element tree, as `Node(tag, attrib, text, children)`.
  - `iter()` is the pre-order walk.
  - `findall(".//X")` is the tagged elements strictly below the root, in pre-order.
  - `findall("./X")` is the tagged children.
  - `find` is the first match.
- `Namespaces`: the three regular expressions, hand-coded:
  - `^({.+})`;
  - `/v2_1/(.+)}$`;
  - the namespace removal from attribute keys.

  It also holds the specification of namespace discovery and of both lookups.
- `Hierarchy`: `printable_hierarchy` and the rewriting and truncation of `output_hierarchy`, as functions.
- `Response`: the class `CustomResponse`, with its loops as methods proved against those functions.
- `Extractors`: `dataflows` and `codelists`, as functions over the tree and as loop methods proved equal to them.
- `Sessions`: the queries, URLs and headers, the class `CustomSession`, and the status check of `get`.
- `Cli`: `query()`, `extract_fromDB` and `extract_fromAPI` of `main.py`.

## Model

| member | source | states |
|---|---|---|
| Strings.RemoveLineBreaksSpec | CustomResponse.py:130 | removing line breaks leaves no `\n` or `\r` and adds no character |
| Strings.CollapseSpacesSpec | CustomResponse.py:131 | after `re.sub(" +", " ", …)` no two spaces are adjacent, no character is added, and the non-space characters are kept in order |
| Strings.CollapseSpacesRuns | CustomResponse.py:131 | `re.sub(" +", " ", …)` replaces each maximal run of spaces by exactly one space and keeps every other character, as the run-by-run reading `RunCollapse` states |
| Strings.CleanTextSpec | CustomResponse.py:130-131 | the cleaned text of a node is its text without line breaks, with each run of spaces replaced by one space; it has no line break and no run of two spaces, keeps every other character in order, and cleaning twice changes nothing |
| Strings.TrimStart | CustomResponse.py:148 | `lstrip` leaves a suffix of the text that starts with a non-space |
| Strings.TrimStartSpec | CustomResponse.py:148 | every character `lstrip` removes is whitespace |
| Strings.TrimEnd | CustomResponse.py:148 | `rstrip` leaves a prefix of the text that ends with a non-space |
| Strings.TrimEndSpec | CustomResponse.py:148 | every character `rstrip` removes is whitespace |
| Strings.LeadingWhitespace | CustomResponse.py:148 | a line is its leading whitespace followed by its left-stripped form |
| Strings.StripStartsWith | CustomResponse.py:148 | when the stripped line starts with a namespace, so does the line with only its leading whitespace removed |
| Strings.ReplaceAllAbsent | CustomResponse.py:150 | replacing a namespace that does not occur leaves the line unchanged |
| Strings.ReplaceAfterPrefix | CustomResponse.py:150 | when a text starts with the pattern after a part holding no first character of it, the replacement keeps that part, then the replacement text, then replaces in the rest |
| Strings.ReplaceAllAfterLeadingSpace | CustomResponse.py:148-150 | when the stripped line starts with the namespace, its first occurrence follows the leading whitespace, which the replacement keeps |
| Strings.NatToString | CustomSession.py:105 | a status code prints as decimal digits without a leading zero |
| Strings.NatToStringValue | CustomSession.py:105 | the digits of `str(status_code)` read back as the status code |
| Strings.RemoveLineBreaks | CustomResponse.py:130 | `replace("\n", "").replace("\r", "")`; characterised by RemoveLineBreaksSpec |
| Strings.CollapseSpaces | CustomResponse.py:131 | `re.sub(" +", " ", …)`; characterised by CollapseSpacesSpec and CollapseSpacesRuns |
| Strings.CleanText | CustomResponse.py:130-131 | the text normalisation of node texts and English names; characterised by CleanTextSpec |
| Strings.Strip | CustomResponse.py:148 | `strip()`, as `lstrip` then `rstrip`; characterised by TrimStart, TrimEnd, TrimStartSpec, TrimEndSpec and LeadingWhitespace |
| Strings.ReplaceAll | CustomResponse.py:150 | `re.sub(n, …, line)` with `n` read literally: every occurrence, left to right and without overlap, replaced; characterised by ReplaceAllAbsent, ReplaceAfterPrefix and ReplaceAllAfterLeadingSpace |
| Tree.AttrSpec | standalone_functions.py:16-17 | an attribute lookup succeeds exactly when the key is present, and gives that key's value |
| Tree.PreOrderSize | CustomResponse.py:43 | `iter()` visits the root first and every element once |
| Tree.TaggedSpec | standalone_functions.py:13-15 | `findall` keeps exactly the elements with the tag, and no more than were searched |
| Tree.TaggedAppend | standalone_functions.py:13-15 | `findall` of a concatenation is the `findall` of each part, in order: the matches keep the order of the search |
| Tree.TaggedSingle | standalone_functions.py:13-15 | one element is kept exactly when it has the tag |
| Tree.Attr | standalone_functions.py:16-17 | the lookup of a key in the attributes; characterised by AttrSpec |
| Tree.PreOrder | CustomResponse.py:43 | `iter()`: the element, then the walks of its children in order; characterised by PreOrderSize |
| Tree.Tagged | standalone_functions.py:13-15 | the elements of a walk that have the tag; characterised by TaggedSpec, TaggedAppend and TaggedSingle |
| Namespaces.NamespacePrefix | CustomResponse.py:44-45 | a found namespace is a prefix of the tag, at least `{x}` long |
| Namespaces.DescriptionOf | CustomResponse.py:62 | the group of `/v2_1/(.+)}$`, or None without a match; characterised by DescriptionSpec |
| Namespaces.Discovered | CustomResponse.py:42-50 | the namespaces of the tags in pre-order, each kept the first time it is seen; characterised by DiscoveredMembers, DiscoveredDistinct and DiscoveredOrder |
| Namespaces.NamespacePrefixSpec | CustomResponse.py:44-45 | `^({.+})` matches exactly when the tag starts with `{` and has a later `}` before any line break; the namespace runs to the last such `}` |
| Namespaces.StripNamespace | CustomResponse.py:125 | a key without a namespace is kept, and otherwise it is its namespace followed by the result |
| Namespaces.DescriptionSpec | CustomResponse.py:62 | `/v2_1/(.+)}$` matches exactly when some `/v2_1/` is followed by a non-empty, line-break-free text and a final `}`; the description starts after the leftmost such `/v2_1/` |
| Namespaces.DescriptionIsTail | CustomResponse.py:62 | for a namespace without line breaks, the namespace ends with `/v2_1/`, the description and `}` |
| Namespaces.DescriptionOfBuilt | CustomResponse.py:62 | the description of `<prefix>/v2_1/<d>}` is `d` when the prefix has no `v` and `d` no line break |
| Namespaces.DiscoveredMembers | CustomResponse.py:42-50 | the discovered namespaces are exactly those of the tags that have one |
| Namespaces.DiscoveredDistinct | CustomResponse.py:46-47 | no namespace is discovered twice |
| Namespaces.DiscoveredOrder | CustomResponse.py:43-47 | namespaces are listed in the order of their first appearance in the pre-order walk |
| Namespaces.NamespaceFor | CustomResponse.py:85-88 | no namespace is found exactly when none has the description; a found one has it |
| Namespaces.NamespaceOfDescription | CustomResponse.py:68-91 | for a discovered namespace whose description no other namespace shares, `find_namespace(find_description(ns)) == ns` |
| Namespaces.DescriptionOfNamespace | CustomResponse.py:68-91 | the description of the namespace found for `d` is `d` |
| Namespaces.LookupDescription | CustomResponse.py:68-79 | `find_description(ns)`: fails when some namespace has no description, else the description of `ns` or ""; characterised by NamespaceOfDescription and DescriptionOfNamespace |
| Namespaces.LookupNamespace | CustomResponse.py:81-91 | `find_namespace(d)`: fails when some namespace has no description, else the first namespace described by `d`, or an unbound local; characterised by NamespaceFor, NamespaceOfDescription, DescriptionOfNamespace, Response.LookupFound and Response.LookupMissing |
| Hierarchy.Printable | CustomResponse.py:118-138 | the display line of an element followed by those of its children at the next level; characterised by PrintableIsPreOrder, DepthsBelow, PrintableCount and LineFormat |
| Hierarchy.PrintableIsPreOrder | CustomResponse.py:134-138 | one display line per element, in pre-order: line `i` is the line of the `i`-th element of `iter()` at its depth |
| Hierarchy.DepthsBelow | CustomResponse.py:121-137 | the root is shown at the requested level and every other element deeper |
| Hierarchy.PrintableCount | CustomResponse.py:134-138 | the flattened hierarchy has as many lines as the tree has elements |
| Hierarchy.LineFormat | CustomResponse.py:121-134 | a line is the indentation, the tag, the attributes or "None", and the cleaned text or "None" |
| Hierarchy.Line | CustomResponse.py:121-134 | the display line of one element; characterised by LineFormat and IndentIsLeading |
| Hierarchy.StripNamespaceIdempotent | CustomResponse.py:125 | a displayed attribute key has no namespace left |
| Hierarchy.FirstPrefix | CustomResponse.py:147-151 | a namespace found for a line is one of the namespaces, and the stripped line starts with it |
| Hierarchy.FirstPrefixSpec | CustomResponse.py:147-151 | none is found exactly when the stripped line starts with no namespace; otherwise the first such namespace in order is found |
| Hierarchy.RewriteLine | CustomResponse.py:147-153 | the inner loop on one line: the first namespace the stripped line starts with is replaced by its marked description; characterised by RewriteLineShape and RewriteLinesSpec |
| Hierarchy.Take | CustomResponse.py:156-161 | `printable[:rng]` with Python's reading of a negative bound; characterised by HierarchyLinesCount |
| Hierarchy.RewriteLinesSpec | CustomResponse.py:146-153 | the rewrite fails exactly when a description is missing and some line starts with a namespace; otherwise it keeps the line count, leaves lines with no leading namespace unchanged, and replaces only the first leading namespace by its marked description |
| Hierarchy.RewriteLines | CustomResponse.py:146-153 | the outer loop of the rewrite over all lines, failing on the first failing line; characterised by RewriteLinesSpec |
| Hierarchy.RewriteLineShape | CustomResponse.py:148-150 | a rewritten line keeps its leading whitespace, then shows `-> (<description>) ` in place of the namespace |
| Hierarchy.IndentIsLeading | CustomResponse.py:121 | the indentation of a display line is part of the whitespace the rewrite keeps |
| Hierarchy.DiscoveredStartWithBrace | CustomResponse.py:44 | every discovered namespace starts with `{`, never with whitespace |
| Hierarchy.ReportText | CustomResponse.py:155-161 | the report starts with its header and has at least one character per line after it |
| Hierarchy.HierarchyLinesCount | CustomResponse.py:145-161 | the written lines are a prefix of the rewritten lines, of which there is one per element: all of them with no bound, the first `min(k, count)` for `k >= 0`, all but the last `-k` (none when `-k >= count`) for `k < 0`; writing fails exactly when the rewrite does |
| Hierarchy.HierarchyLines | CustomResponse.py:144-161 | the lines written to the report: the rewritten hierarchy cut by `rng`; characterised by HierarchyLinesCount |
| Response.Describe | CustomResponse.py:62 | an entry exists exactly when the namespace has a description, and pairs the two; otherwise `.group` fails on `None` |
| Response.DescriptionsSpec | CustomResponse.py:52-66 | the descriptions exist exactly when every namespace has one; then there is one entry per namespace, in order |
| Response.Descriptions | CustomResponse.py:52-66 | `get_namespace_descriptions()` as a function; characterised by DescriptionsSpec |
| Response.FirstPrefixAt | CustomResponse.py:147-151 | the namespace the loop stops at is the first one the stripped line starts with |
| Response.CustomResponse.constructor | CustomResponse.py:13-23 | the response keeps the tree and its discovered namespaces |
| Response.CustomResponse.GetNamespaces | CustomResponse.py:38-50 | the loop yields the discovered namespaces: distinct, exactly those that occur |
| Response.CustomResponse.GetNamespaceDescriptions | CustomResponse.py:52-66 | the loop yields one entry per namespace in order, or fails exactly when a namespace has no description |
| Response.CustomResponse.FindDescription | CustomResponse.py:68-79 | the description of `ns` when it is a namespace, "" otherwise |
| Response.CustomResponse.FindNamespace | CustomResponse.py:81-91 | the first namespace with description `d`; an unbound local when there is none |
| Response.CustomResponse.RewriteAt | CustomResponse.py:147-153 | the inner loop on one line computes its rewrite |
| Response.CustomResponse.RewriteAll | CustomResponse.py:144-153 | the in-place rewriting of every display line computes the rewrite of the flattened hierarchy |
| Response.CustomResponse.OutputHierarchy | CustomResponse.py:140-161 | the report text is the header and the (first `rng`) rewritten lines, or the rewrite's failure |
| Response.DescribeAll | CustomResponse.py:52-66 | the loop over the namespaces, stopping at the first without a description, computes their descriptions |
| Response.WriteReport | CustomResponse.py:154-161 | the text written is the header, then each line followed by a line break |
| Response.LookupFound | CustomResponse.py:81-91 | the first entry with description `d` gives the namespace `find_namespace` returns, a namespace with that description |
| Response.LookupMissing | CustomResponse.py:81-91 | with no entry of description `d`, `find_namespace` fails on its unbound local |
| Response.NamespaceForAt | CustomResponse.py:85-91 | the first namespace with description `d` is the one the lookup finds |
| Extractors.Get | standalone_functions.py:16-17 | a present attribute gives its value; a missing one raises `KeyError` |
| Extractors.EnglishNameSpec | standalone_functions.py:18-26 | the name is the cleaned text of the first name in English; that name without text fails |
| Extractors.EnglishNameAbsent | standalone_functions.py:18-26 | with no English name there is no name |
| Extractors.EnglishNameClean | standalone_functions.py:22-23 | an English name has no line break and no run of two spaces |
| Extractors.EnglishName | standalone_functions.py:18-24 | the name-scanning loop shared by dataflows, codelists and codes; characterised by EnglishNameSpec, EnglishNameAbsent and EnglishNameClean |
| Extractors.Reference | standalone_functions.py:27-38 | the `Structure` reference of a dataflow, or three "None"; characterised by DataflowOfSpec |
| Extractors.FindEnglishName | standalone_functions.py:18-26 | the scan-and-break loop finds that name |
| Extractors.DataflowOf | standalone_functions.py:16-48 | the loop body of `dataflows` on one element; characterised by DataflowOfSpec |
| Extractors.DataflowOfSpec | standalone_functions.py:16-48 | a record holds the dataflow's `id` and `agencyID` and its English name or ""; without `Structure` its references are "None", with it they are the `id`, `agencyID` and `class` of its `Ref` |
| Extractors.DataflowsOfSpec | standalone_functions.py:13-49 | one record per `Dataflow` element, in document order, each from its own element |
| Extractors.DataflowsEmpty | standalone_functions.py:13-15 | with no `Dataflow` element the list is empty, whatever the common namespace lookup would do |
| Extractors.DataflowsFailFrom | standalone_functions.py:13-49 | a failing dataflow makes the whole extraction fail with its error |
| Extractors.ExtractDataflows | standalone_functions.py:6-49 | the method computes the dataflow records of the response |
| Extractors.ExtractDataflowList | standalone_functions.py:13-49 | the loop over the dataflow elements computes their records |
| Extractors.ExtractDataflow | standalone_functions.py:16-48 | the loop body computes one record |
| Extractors.DataflowsOf | standalone_functions.py:13-49 | the loop of `dataflows` over given elements; characterised by DataflowsOfSpec and DataflowsFailFrom |
| Extractors.Dataflows | standalone_functions.py:6-49 | `dataflows(response)`; characterised by DataflowsOfSpec, DataflowsEmpty, DataflowsFailFrom and ExtractDataflows |
| Extractors.CodeStep | standalone_functions.py:75-100 | the body of the code loop on one code; characterised by CodeStepSpec |
| Extractors.CodelistRows | standalone_functions.py:62-100 | the rows of one codelist; characterised by CodelistRowsSpec |
| Extractors.CodeStepSpec | standalone_functions.py:75-100 | the body on one code gives a row with the codelist's ids, the code's id and parent, and the names chosen by whether the code has an English name |
| Extractors.CodeRowsSpec | standalone_functions.py:73-100 | one row per `Code`, in order, with the codelist's ids and the code's id and parent; an English code name is both code name and codelist name, and without one the code name is "" and the codelist name is the previous row's (the codelist's own for the first) |
| Extractors.ParentAbsent | standalone_functions.py:85-90 | a code without `Parent` has parent "None" |
| Extractors.ParentOf | standalone_functions.py:85-90 | the `id` of the `Ref` of a code's `Parent`, or "None"; characterised by ParentAbsent and CodeStepSpec |
| Extractors.CodelistRowsSpec | standalone_functions.py:62-100 | the rows of one codelist: one per `Code`, in order, each with the codelist's own `agencyID` and `id` and its code's row, the codelist name starting from the codelist's English name or "" |
| Extractors.CodelistsRowsSpec | standalone_functions.py:59-100 | one row per `Code` over all codelists, grouped codelist by codelist in document order: the rows of codelist `j` are exactly that codelist's rows, placed after those of the codelists before it |
| Extractors.CodeRowsFailFrom | standalone_functions.py:74-100 | a failing code makes its codelist fail with its error |
| Extractors.CodelistsRowsFailFrom | standalone_functions.py:59-100 | a failing codelist makes the whole extraction fail with its error |
| Extractors.ExtractCodelists | standalone_functions.py:52-101 | the method computes the codelist rows of the response |
| Extractors.ExtractCodelistList | standalone_functions.py:59-100 | the loop over the codelist elements computes their rows |
| Extractors.ExtractCodelist | standalone_functions.py:62-100 | the loop body on one codelist computes its rows |
| Extractors.ExtractCodes | standalone_functions.py:73-100 | the code loop, carrying the codelist name across codes, computes the rows |
| Extractors.ExtractCode | standalone_functions.py:75-100 | the body on one code computes its row, with the chained assignment of the names |
| Extractors.CodeRows | standalone_functions.py:73-100 | the code loop of one codelist, carrying the codelist name; characterised by CodeRowsSpec and CodeRowsFailFrom |
| Extractors.CodelistsRows | standalone_functions.py:59-100 | the loop of `codelists` over given elements; characterised by CodelistsRowsSpec and CodelistsRowsFailFrom |
| Extractors.Codelists | standalone_functions.py:52-101 | `codelists(response)`; characterised by CodelistsRowsSpec, CodelistsRowsFailFrom and ExtractCodelists |
| Sessions.ScriptedQuery | CustomSession.py:68-94 | the query built from the shell arguments, or the failure for missing or unknown ones; characterised by ScriptedQueryOfArgs and ScriptedQueryArgs |
| Sessions.ScriptedQueryOfArgs | CustomSession.py:68-94 | the arguments of a query, whatever follows them, build that query |
| Sessions.ScriptedQueryArgs | CustomSession.py:68-90 | a built query is read from a prefix of the arguments; building fails exactly for no argument, an unknown query type, or too few arguments for the type |
| Sessions.ChooseFromSpec | CustomSession.py:33-39 | the prompt loop stops at the first answer "1" or "2", and runs out of input only when no answer is valid |
| Sessions.InteractiveSpec | CustomSession.py:25-61 | interactive mode reads menu answers up to the first valid one, then one answer per query field in order |
| Sessions.Interactive | CustomSession.py:25-61 | the query built from the console answers; characterised by InteractiveSpec |
| Sessions.ReadQueryType | CustomSession.py:26-39 | the `while True` loop computes that choice |
| Sessions.CustomSession.constructor | CustomSession.py:14-94 | the headers are the defaults with the `Accept` of the query type, the artefact type is set only for structure queries, and the URL is the query's URL |
| Sessions.CustomSession.Get | CustomSession.py:97-111 | `get` succeeds exactly on status 200, with a response over the body, and otherwise raises with the status in the message |
| Sessions.Open | CustomSession.py:11-95 | building a session succeeds exactly when the arguments or the console answers give a query, and then has that query's URL, headers, type and artefact |
| Sessions.UrlJoin | CustomSession.py:65 | the URL is the root, `/`, and the tail |
| Sessions.UrlShape | CustomSession.py:79-94 | every URL starts with the root, `/`, the query type and `/` |
| Sessions.UrlInjective | CustomSession.py:79-94 | different queries get different URLs when the data fields do not contain the separator after them |
| Sessions.DataPathInjective | CustomSession.py:90 | the data fields are read back from the data path |
| Sessions.Url | CustomSession.py:65-94 | the resource URL of a query; characterised by UrlJoin, UrlShape and UrlInjective |
| Sessions.HeadersSpec | CustomSession.py:14-84 | a query sends the three default headers, in English, with the structure media type in `Accept` exactly for structure queries and the data media type otherwise |
| Sessions.Headers | CustomSession.py:14-84 | the headers a query sends; characterised by HeadersSpec |
| Sessions.StatusMessage | CustomSession.py:105 | the message `get` raises with; its status reads back by NatToStringValue, and CustomSession.Get states when it is raised |
| Cli.Dispatch | main.py:17-132 | the decision tree of `query()` on `argv`; characterised by DispatchExits, DispatchShellQuery, ShellAccepts and ShellUsage |
| Cli.DispatchExits | main.py:17-132 | no mode argument, an unknown mode, the interactive flag with more arguments and the bare shell flag each exit with their own message; the interactive flag alone starts interactive mode |
| Cli.DispatchShellQuery | main.py:73-79 | a shell run passes `argv[2:]` unchanged, and those arguments always build a session that reads all of them |
| Cli.ShellAccepts | main.py:67-79 | the shell flag followed by the arguments of any query starts a shell run |
| Cli.ShellUsage | main.py:111-128 | any other shell invocation with a query type exits with the message chosen by that type |
| Cli.ShellRunSpec | main.py:79-85 | a shell run on any status but 200 exits with the caught message; on 200 it is the processing of the body |
| Cli.ProcessedSpec | main.py:87-110 | the report is written exactly when the hierarchy rewrite succeeds, whatever the extraction does, and has one line per element; dataflow records come exactly with artefact `dataflow` and codelist records exactly with `codelist`, equal to the extracted ones; a failing extraction leaves its own error next to the report |
| Cli.Processed | main.py:87-110 | the work done on a 200 answer; characterised by ProcessedSpec |
| Cli.ShellOutcome | main.py:79-110 | `get`, then the processing of the body; characterised by ShellRunSpec |
| Cli.QueryRun | main.py:8-132 | `query()` on `argv` and an answer; characterised by DispatchExits, ShellRunSpec and ProcessedSpec, and computed by Query |
| Cli.Query | main.py:8-132 | the method computes the run `query()` makes of `argv` |
| Cli.CopyArgs | main.py:76-78 | the copying loop yields `argv[2:]` |
| Cli.RunShell | main.py:79-86 | session, `get` and caught exception of a shell run |
| Cli.Process | main.py:87-110 | the report, then the records or the error the extraction raised after the report was written |
| Cli.Normalise | main.py:145-158 | the value kept for one row of `extract_fromDB`; characterised by NormaliseLabels, NormaliseWithin and NormaliseIdempotent |
| Cli.NormaliseWithin | main.py:146-158 | the value kept for a row always occurs in the row; rows of other tables are kept as they are |
| Cli.NormaliseIdempotent | main.py:146-158 | normalising a normalised value changes nothing |
| Cli.NormaliseLabels | main.py:146-158 | a `subjects` row starting with "OECD", "Euro area" or "European Union" is that label (no row starts with two of them); one with none of them is "China" when it contains "China" and is kept otherwise |
| Cli.ExtractFromDb | main.py:143-161 | one value per row, in order, each the row normalised |
| Cli.Names | main.py:182-203 | the codelist names of the rows of one codelist, in order; characterised by NamesSpec and NamesAppend |
| Cli.NamesSpec | main.py:182-205 | the names are exactly those of the rows of the selected codelist, at most one per row |
| Cli.NamesAppend | main.py:182-205 | the filter keeps the order of the rows |
| Cli.SelectNames | main.py:184-187 | the filtering loop computes the names |
| Cli.FromApi | main.py:164-207 | the outcome of `extract_fromAPI`; the method ExtractFromApi is proved equal to it |
| Cli.ExtractFromApi | main.py:164-207 | `extract_fromAPI` returns the filtered names of the fetched codelists, fails with an unbound response when the request fails, and exits on an unknown option |

## Left out

- HTTP transport (`requests.Session.get`): the status code and the parsed body of the answer are parameters. Network failures other than a non-200 status are not modelled.
- XML parsing (`ET.fromstring`): the element tree is given. `tail` texts and namespace maps are not represented.
- File output: `hierarchy.txt` is modelled as the returned text. An exception raised by `dataflows` or `codelists` after it was written is kept as the records' error next to that text; the traceback that follows is not modelled. `output_dataflows`, `output_codelists` and their `tabulate` formatting (standalone_functions.py:104-117) are not part of this model.
- SQLite access in `extract_fromDB`: the rows the query returns are a parameter, and the SQL text is not modelled.
- Console output: `print`, `detail` and `print_namespaces`. Prompt texts are not modelled; console answers are a sequence of lines, and running out of them is `EOFError`.
- Cli.Query: the interactive branch of `query()` (main.py:18-64) stops at `InteractiveRun`. Its retry loop on failed requests and its recursive re-query are not modelled. The `EOFError` handler around `main()` (main.py:214-218) is not modelled either.
- Strings.ReplaceAll: `re.sub(n, f"-> ({description}) ", line)` at CustomResponse.py:150 reads the namespace as a regular expression and the replacement as a template; the model replaces the namespace literally by the marked description. It agrees with the source only for namespaces free of the metacharacters `. ^ $ * + ? { } [ ] \ | ( )` and descriptions free of backslashes. A `.` in the namespace also matches other characters. Other metacharacters can make the pattern miss the literal namespace, which the model still rewrites, or make `re` raise. Braces do not break the usual case: a `{` that does not start a repetition count such as `{2}` is a literal character for `re`, so the `{…}` around an SDMX-ML namespace matches itself. A backslash in the description is read as an escape, which can raise (`\d`: bad escape) or insert another character.
- Namespaces.LookupNamespace: the `UnboundLocalError` carries the variable name, not Python's full message text. The same holds for `cl_response` in Cli.FromApi.
- Sessions.UrlInjective: injectivity is only stated for data fields free of the separators; the source does not escape them.
- Unicode: `str.strip` uses the whitespace set of `str.isspace`, written out in `Strings.IsSpace`. No other Unicode processing is modelled.
