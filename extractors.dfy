/** `dataflows` and `codelists`: the records extracted from a structure
    response. Each is given as a specification function over the element
    tree (with the exception each step can raise) and as the loop that
    computes it on a `CustomResponse`. */
module Extractors {
  import opened Wrappers
  import opened Strings
  import opened Tree
  import opened Namespaces
  import opened Response

  /** The key ElementTree gives the `xml:lang` attribute. */
  const LangKey := "{http://www.w3.org/XML/1998/namespace}lang"

  /** `None.replace(...)`: a name element without text. */
  const NoText := AttributeError("'NoneType' object has no attribute 'replace'")

  /** `None.attrib`: a structure or parent element without a `Ref` child. */
  const NoRef := AttributeError("'NoneType' object has no attribute 'attrib'")

  /** `attrib[key]`. */
  function Get(attrib: seq<(string, string)>, key: string): (r: Result<string>)
    ensures r.Ok? <==> Attr(attrib, key).Some?
    ensures r.Ok? ==> r.value == Attr(attrib, key).value
    ensures r.Err? ==> r.error == KeyError(key)
  {
    match Attr(attrib, key)
    case Some(v) => Ok(v)
    case None => Err(KeyError(key))
  }

  /** The English-name loop: the cleaned text of the first name whose
      language is "en", `None` when there is none; reading a name's language
      fails when it has none, and an English name without text fails. */
  function EnglishName(names: seq<Node>): Result<Option<string>>
  {
    if names == [] then Ok(None)
    else
      var lang :- Get(names[0].attrib, LangKey);
      if lang == "en" then
        match names[0].text
        case None => Err(NoText)
        case Some(t) => Ok(Some(CleanText(t)))
      else EnglishName(names[1..])
  }

  /** `k` is the first name whose language is "en", and every name before it has a language. */
  predicate FirstEnglish(names: seq<Node>, k: int) {
    && 0 <= k < |names| && Attr(names[k].attrib, LangKey) == Some("en")
    && forall j :: 0 <= j < k ==> Attr(names[j].attrib, LangKey).Some? && Attr(names[j].attrib, LangKey) != Some("en")
  }

  /** The English name is found exactly at the first "en" name, when every
      name before it has a language; no name is found when every name has a
      language other than "en". */
  lemma {:induction false} EnglishNameSpec(names: seq<Node>, k: nat)
    requires FirstEnglish(names, k)
    ensures names[k].text.Some? ==> EnglishName(names) == Ok(Some(CleanText(names[k].text.value)))
    ensures names[k].text.None? ==> EnglishName(names) == Err(NoText)
  {
    if k > 0 {
      assert FirstEnglish(names[1..], k - 1) by {
        forall j | 0 <= j < k - 1
          ensures Attr(names[1..][j].attrib, LangKey).Some? && Attr(names[1..][j].attrib, LangKey) != Some("en")
        {
          assert names[1..][j] == names[j + 1];
        }
      }
      EnglishNameSpec(names[1..], k - 1);
    }
  }

  /** No English name is found when every name has a language other than "en". */
  lemma {:induction false} EnglishNameAbsent(names: seq<Node>)
    requires forall j :: 0 <= j < |names| ==> Attr(names[j].attrib, LangKey).Some? && Attr(names[j].attrib, LangKey) != Some("en")
    ensures EnglishName(names) == Ok(None)
  {
    if names != [] {
      assert forall j :: 0 <= j < |names[1..]| ==> names[1..][j] == names[j + 1];
      EnglishNameAbsent(names[1..]);
    }
  }

  /** A name that is found is cleaned text: no line break, no double space. */
  lemma {:induction false} EnglishNameClean(names: seq<Node>)
    requires EnglishName(names).Ok? && EnglishName(names).value.Some?
    ensures var n := EnglishName(names).value.value;
            '\n' !in n && '\r' !in n && NoDoubleSpace(n)
  {
    var lang := Get(names[0].attrib, LangKey).value;
    if lang == "en" {
      CleanTextSpec(names[0].text.value);
    } else {
      EnglishNameClean(names[1..]);
    }
  }

  // ---------------------------------------------------------------------
  // dataflows
  // ---------------------------------------------------------------------

  /** One dataflow dictionary. */
  datatype Dataflow = Dataflow(
    dataflowId: string,
    agencyId: string,
    dataflowName: string,
    referenceId: string,
    referenceAgencyId: string,
    referenceClass: string)

  /** The `Ref` of the dataflow's `Structure` child: its id, agency and
      class, or "None" three times when there is no `Structure`. */
  function Reference(df: Node, structure: string): Result<(string, string, string)>
  {
    match FindChild(df, structure + "Structure")
    case None => Ok(("None", "None", "None"))
    case Some(st) =>
      match FindChild(st, "Ref")
      case None => Err(NoRef)
      case Some(ref) =>
        var id :- Get(ref.attrib, "id");
        var agency :- Get(ref.attrib, "agencyID");
        var kind :- Get(ref.attrib, "class");
        Ok((id, agency, kind))
  }

  /** The loop body of `dataflows` on one `Dataflow` element, given the
      structure namespace and the outcome of looking up the common one. */
  function DataflowOf(df: Node, structure: string, common: Result<string>): Result<Dataflow>
  {
    var agencyId :- Get(df.attrib, "agencyID");
    var dataflowId :- Get(df.attrib, "id");
    var commonNs :- common;
    var name :- EnglishName(ChildrenTagged(df, commonNs + "Name"));
    var ref :- Reference(df, structure);
    Ok(Dataflow(dataflowId, agencyId, name.GetOr(""), ref.0, ref.1, ref.2))
  }

  /** The records of the dataflow elements `dfs`, in order. */
  function DataflowsOf(dfs: seq<Node>, structure: string, common: Result<string>): Result<seq<Dataflow>>
  {
    if dfs == [] then Ok([])
    else
      var out :- DataflowsOf(dfs[..|dfs| - 1], structure, common);
      var row :- DataflowOf(dfs[|dfs| - 1], structure, common);
      Ok(out + [row])
  }

  /** `dataflows(response)` over the tree `root`, given the outcomes of
      looking up the structure and common namespaces. */
  function Dataflows(root: Node, structure: Result<string>, common: Result<string>): Result<seq<Dataflow>>
  {
    var s :- structure;
    DataflowsOf(DescendantsTagged(root, s + "Dataflow"), s, common)
  }

  /** A dataflow record carries the element's own `id` and `agencyID`, its
      English name or "" when it has none; a dataflow without `Structure` has "None" references, and one with it
      has the attributes of the `Ref` inside. */
  lemma DataflowOfSpec(df: Node, s: string, common: Result<string>)
    requires DataflowOf(df, s, common).Ok?
    ensures var out := DataflowOf(df, s, common).value;
            && Attr(df.attrib, "id") == Some(out.dataflowId)
            && Attr(df.attrib, "agencyID") == Some(out.agencyId)
            && common.Ok?
            && (var name := EnglishName(ChildrenTagged(df, common.value + "Name"));
                name.Ok? && out.dataflowName == (if name.value.Some? then name.value.value else ""))
            && (FindChild(df, s + "Structure").None? ==>
                  out.referenceId == out.referenceAgencyId == out.referenceClass == "None")
            && (FindChild(df, s + "Structure").Some? ==>
                  var ref := FindChild(FindChild(df, s + "Structure").value, "Ref");
                  && ref.Some? && Attr(ref.value.attrib, "id") == Some(out.referenceId)
                  && Attr(ref.value.attrib, "agencyID") == Some(out.referenceAgencyId)
                  && Attr(ref.value.attrib, "class") == Some(out.referenceClass))
  {
  }

  /** One record per `Dataflow` element, in document order, each computed
      from its own element. */
  lemma {:induction false} DataflowsOfSpec(dfs: seq<Node>, s: string, common: Result<string>)
    requires DataflowsOf(dfs, s, common).Ok?
    ensures |DataflowsOf(dfs, s, common).value| == |dfs|
    ensures forall i :: 0 <= i < |dfs| ==> DataflowOf(dfs[i], s, common) == Ok(DataflowsOf(dfs, s, common).value[i])
  {
    if dfs != [] {
      var front := dfs[..|dfs| - 1];
      DataflowsOfSpec(front, s, common);
      forall i | 0 <= i < |front|
        ensures dfs[i] == front[i]
      {
      }
    }
  }

  /** With no `Dataflow` element the result is empty, and the common
      namespace is never looked up, so its failure does not matter. */
  lemma DataflowsEmpty(root: Node, s: string, common: Result<string>)
    requires DescendantsTagged(root, s + "Dataflow") == []
    ensures Dataflows(root, Ok(s), common) == Ok([])
  {
  }

  /** A failing dataflow makes `dataflows` fail with it. */
  lemma {:induction false} DataflowsFailFrom(dfs: seq<Node>, k: nat, s: string, common: Result<string>)
    requires k <= |dfs| && DataflowsOf(dfs[..k], s, common).Err?
    ensures DataflowsOf(dfs, s, common) == DataflowsOf(dfs[..k], s, common)
    decreases |dfs| - k
  {
    if k < |dfs| {
      assert dfs[..k + 1][..k] == dfs[..k];
      DataflowsFailFrom(dfs, k + 1, s, common);
    } else {
      assert dfs[..k] == dfs;
    }
  }

  /** `dataflows(response)`. */
  method ExtractDataflows(response: CustomResponse) returns (r: Result<seq<Dataflow>>)
    ensures r == Dataflows(response.hierarchy, LookupNamespace(response.namespaces, "structure"),
                           LookupNamespace(response.namespaces, "common"))
  {
    var s :- response.FindNamespace("structure");
    r := ExtractDataflowList(response, DescendantsTagged(response.hierarchy, s + "Dataflow"), s);
  }

  /** The loop of `dataflows` over the dataflow elements `dfs`. */
  method ExtractDataflowList(response: CustomResponse, dfs: seq<Node>, s: string) returns (r: Result<seq<Dataflow>>)
    ensures r == DataflowsOf(dfs, s, LookupNamespace(response.namespaces, "common"))
  {
    var common := LookupNamespace(response.namespaces, "common");
    var out := [];
    for i := 0 to |dfs|
      invariant DataflowsOf(dfs[..i], s, common) == Ok(out)
    {
      assert dfs[..i + 1][..i] == dfs[..i];
      var row := ExtractDataflow(response, dfs[i], s);
      if row.Err? {
        DataflowsFailFrom(dfs, i + 1, s, common);
        return Err(row.error);
      }
      out := out + [row.value];
    }
    assert dfs[..|dfs|] == dfs;
    return Ok(out);
  }

  /** The loop body of `dataflows` on one dataflow element. */
  method ExtractDataflow(response: CustomResponse, df: Node, s: string) returns (r: Result<Dataflow>)
    ensures r == DataflowOf(df, s, LookupNamespace(response.namespaces, "common"))
  {
    var agencyId :- Get(df.attrib, "agencyID");
    var dataflowId :- Get(df.attrib, "id");
    var common :- response.FindNamespace("common");
    var names := ChildrenTagged(df, common + "Name");
    var dataflowName := "";
    var english :- FindEnglishName(names);
    if english.Some? {
      dataflowName := english.value;
    }
    var structure := FindChild(df, s + "Structure");
    var referenceId, referenceAgencyId, referenceClass;
    if structure.Some? {
      var reference := FindChild(structure.value, "Ref");
      if reference.None? {
        return Err(NoRef);
      }
      referenceId :- Get(reference.value.attrib, "id");
      referenceAgencyId :- Get(reference.value.attrib, "agencyID");
      referenceClass :- Get(reference.value.attrib, "class");
    } else {
      referenceId, referenceAgencyId, referenceClass := "None", "None", "None";
    }
    return Ok(Dataflow(dataflowId, agencyId, dataflowName, referenceId, referenceAgencyId, referenceClass));
  }

  /** The English-name loop with its `break`. */
  method FindEnglishName(names: seq<Node>) returns (r: Result<Option<string>>)
    ensures r == EnglishName(names)
  {
    for i := 0 to |names|
      invariant EnglishName(names[i..]) == EnglishName(names)
    {
      assert names[i..][1..] == names[i + 1..];
      var lang :- Get(names[i].attrib, LangKey);
      if lang == "en" {
        match names[i].text
        case None =>
          return Err(NoText);
        case Some(t) =>
          var name := RemoveLineBreaks(t);
          name := CollapseSpaces(name);
          return Ok(Some(name));
      }
    }
    return Ok(None);
  }

  // ---------------------------------------------------------------------
  // codelists
  // ---------------------------------------------------------------------

  /** One code dictionary of `codelists`. */
  datatype CodeRow = CodeRow(
    agencyId: string,
    codelistId: string,
    codelistName: string,
    codeId: string,
    codeName: string,
    codeParent: string)

  /** The id of the `Ref` of a code's `Parent` child, "None" without one. */
  function ParentOf(code: Node, structure: string): Result<string>
  {
    match FindChild(code, structure + "Parent")
    case None => Ok("None")
    case Some(p) =>
      match FindChild(p, "Ref")
      case None => Err(NoRef)
      case Some(ref) => Get(ref.attrib, "id")
  }

  /** The loop body of `codelists` on one code, when the codelist name so
      far is `current`: an English code name also becomes the codelist name
      (the chained assignment), otherwise the codelist name is kept. */
  function CodeStep(agencyId: string, codelistId: string, current: string, code: Node,
                    structure: string, common: Result<string>): Result<CodeRow>
  {
    var codeId :- Get(code.attrib, "id");
    var commonNs :- common;
    var name :- EnglishName(ChildrenTagged(code, commonNs + "Name"));
    var parent :- ParentOf(code, structure);
    Ok(CodeRow(agencyId, codelistId, name.GetOr(current), codeId, name.GetOr(""), parent))
  }

  /** The codelist name in effect after `rows`: the last row's, or the
      codelist's own name before any code. */
  function CurrentName(listName: string, rows: seq<CodeRow>): string
  {
    if rows == [] then listName else rows[|rows| - 1].codelistName
  }

  /** The rows of the codes of one codelist, in order. */
  function CodeRows(agencyId: string, codelistId: string, listName: string, codes: seq<Node>,
                    structure: string, common: Result<string>): Result<seq<CodeRow>>
  {
    if codes == [] then Ok([])
    else
      var rows :- CodeRows(agencyId, codelistId, listName, codes[..|codes| - 1], structure, common);
      var row :- CodeStep(agencyId, codelistId, CurrentName(listName, rows), codes[|codes| - 1], structure, common);
      Ok(rows + [row])
  }

  /** The rows of one `Codelist` element. */
  function CodelistRows(cl: Node, structure: string, common: Result<string>): Result<seq<CodeRow>>
  {
    var agencyId :- Get(cl.attrib, "agencyID");
    var codelistId :- Get(cl.attrib, "id");
    var commonNs :- common;
    var name :- EnglishName(ChildrenTagged(cl, commonNs + "Name"));
    CodeRows(agencyId, codelistId, name.GetOr(""), ChildrenTagged(cl, structure + "Code"), structure, common)
  }

  /** The rows of the codelists `cls`, one codelist after the other. */
  function CodelistsRows(cls: seq<Node>, structure: string, common: Result<string>): Result<seq<CodeRow>>
  {
    if cls == [] then Ok([])
    else
      var rows :- CodelistsRows(cls[..|cls| - 1], structure, common);
      var more :- CodelistRows(cls[|cls| - 1], structure, common);
      Ok(rows + more)
  }

  /** `codelists(response)` over the tree `root`. */
  function Codelists(root: Node, structure: Result<string>, common: Result<string>): Result<seq<CodeRow>>
  {
    var s :- structure;
    CodelistsRows(DescendantsTagged(root, s + "Codelist"), s, common)
  }

  /** `row` is the row of `code` when the codelist name so far is
      `current`: it carries the codelist's ids and the code's own id and
      parent; an English code name is both its code name and its codelist
      name, and a code without one has an empty code name and keeps
      `current` as codelist name. */
  predicate RowOf(row: CodeRow, agencyId: string, codelistId: string, current: string, code: Node,
                  s: string, c: string)
  {
    var name := EnglishName(ChildrenTagged(code, c + "Name"));
    && row.agencyId == agencyId && row.codelistId == codelistId
    && Attr(code.attrib, "id") == Some(row.codeId)
    && ParentOf(code, s) == Ok(row.codeParent)
    && name.Ok?
    && (name.value.Some? ==> row.codeName == row.codelistName == name.value.value)
    && (name.value.None? ==> row.codeName == "" && row.codelistName == current)
  }

  /** The loop body on one code builds the row of that code. */
  lemma CodeStepSpec(agencyId: string, codelistId: string, current: string, code: Node, s: string, c: string)
    requires CodeStep(agencyId, codelistId, current, code, s, Ok(c)).Ok?
    ensures RowOf(CodeStep(agencyId, codelistId, current, code, s, Ok(c)).value, agencyId, codelistId, current, code, s, c)
  {
  }

  /** One row per code, in order, each the row of its code with the
      codelist name left by the rows before it (the codelist's own name for
      the first code). */
  lemma {:induction false} CodeRowsSpec(agencyId: string, codelistId: string, listName: string, codes: seq<Node>,
                                        s: string, c: string)
    requires CodeRows(agencyId, codelistId, listName, codes, s, Ok(c)).Ok?
    ensures var rows := CodeRows(agencyId, codelistId, listName, codes, s, Ok(c)).value;
            && |rows| == |codes|
            && forall i :: 0 <= i < |codes| ==>
                 RowOf(rows[i], agencyId, codelistId, CurrentName(listName, rows[..i]), codes[i], s, c)
  {
    if codes != [] {
      var front := codes[..|codes| - 1];
      CodeRowsSnoc(agencyId, codelistId, listName, codes, s, c);
      CodeRowsSpec(agencyId, codelistId, listName, front, s, c);
      var rows := CodeRows(agencyId, codelistId, listName, front, s, Ok(c)).value;
      var all := CodeRows(agencyId, codelistId, listName, codes, s, Ok(c)).value;
      var current := CurrentName(listName, rows);
      var last := codes[|codes| - 1];
      var row := CodeStep(agencyId, codelistId, current, last, s, Ok(c)).value;
      CodeStepSpec(agencyId, codelistId, current, last, s, c);
      RowsExtend(agencyId, codelistId, listName, codes, rows, row, all, s, c);
    }
  }

  /** The rows of the codes are those of all codes but the last, then the
      row of the last code. */
  lemma CodeRowsSnoc(agencyId: string, codelistId: string, listName: string, codes: seq<Node>, s: string, c: string)
    requires codes != [] && CodeRows(agencyId, codelistId, listName, codes, s, Ok(c)).Ok?
    ensures var front := CodeRows(agencyId, codelistId, listName, codes[..|codes| - 1], s, Ok(c));
            && front.Ok?
            && var step := CodeStep(agencyId, codelistId, CurrentName(listName, front.value), codes[|codes| - 1], s, Ok(c));
               && step.Ok?
               && CodeRows(agencyId, codelistId, listName, codes, s, Ok(c)).value == front.value + [step.value]
  {
  }

  /** Adding the row of one more code keeps every row the row of its code. */
  lemma RowsExtend(agencyId: string, codelistId: string, listName: string, codes: seq<Node>,
                   rows: seq<CodeRow>, row: CodeRow, all: seq<CodeRow>, s: string, c: string)
    requires codes != [] && all == rows + [row] && |rows| == |codes| - 1
    requires forall i :: 0 <= i < |codes| - 1 ==>
               RowOf(rows[i], agencyId, codelistId, CurrentName(listName, rows[..i]), codes[..|codes| - 1][i], s, c)
    requires RowOf(row, agencyId, codelistId, CurrentName(listName, rows), codes[|codes| - 1], s, c)
    ensures forall i :: 0 <= i < |codes| ==>
              RowOf(all[i], agencyId, codelistId, CurrentName(listName, all[..i]), codes[i], s, c)
  {
    forall i | 0 <= i < |codes|
      ensures RowOf(all[i], agencyId, codelistId, CurrentName(listName, all[..i]), codes[i], s, c)
    {
      if i < |rows| {
        assert codes[..|codes| - 1][i] == codes[i] && all[i] == rows[i] && all[..i] == rows[..i];
      } else {
        assert all[..i] == rows;
      }
    }
  }

  /** A code without a `Parent` child has parent "None". */
  lemma ParentAbsent(code: Node, s: string)
    requires FindChild(code, s + "Parent").None?
    ensures ParentOf(code, s) == Ok("None")
  {
  }

  /** The number of codes of the codelists `cls`. */
  function CodeCount(cls: seq<Node>, structure: string): nat
  {
    if cls == [] then 0
    else CodeCount(cls[..|cls| - 1], structure) + |ChildrenTagged(cls[|cls| - 1], structure + "Code")|
  }

  /** The rows of one codelist: one per `Code` child, in order, each the
      row of its code with the codelist's own `agencyID` and `id`, and the
      codelist name starting from the codelist's English name, or "" when it
      has none. */
  lemma CodelistRowsSpec(cl: Node, s: string, c: string)
    requires CodelistRows(cl, s, Ok(c)).Ok?
    ensures var rows := CodelistRows(cl, s, Ok(c)).value;
            var codes := ChildrenTagged(cl, s + "Code");
            var name := EnglishName(ChildrenTagged(cl, c + "Name"));
            && Attr(cl.attrib, "agencyID").Some? && Attr(cl.attrib, "id").Some? && name.Ok?
            && |rows| == |codes|
            && forall i :: 0 <= i < |codes| ==>
                 RowOf(rows[i], Attr(cl.attrib, "agencyID").value, Attr(cl.attrib, "id").value,
                       CurrentName(name.value.GetOr(""), rows[..i]), codes[i], s, c)
  {
    var agencyId := Get(cl.attrib, "agencyID").value;
    var codelistId := Get(cl.attrib, "id").value;
    var name := EnglishName(ChildrenTagged(cl, c + "Name")).value;
    CodeRowsSpec(agencyId, codelistId, name.GetOr(""), ChildrenTagged(cl, s + "Code"), s, c);
  }

  /** The rows `rows[CodeCount(cls[..j])..CodeCount(cls[..j + 1])]` are
      those of codelist `j` alone. */
  predicate GroupAt(rows: seq<CodeRow>, cls: seq<Node>, s: string, c: string, j: int)
    requires 0 <= j < |cls|
  {
    && CodelistRows(cls[j], s, Ok(c)).Ok?
    && CodeCount(cls[..j], s) <= CodeCount(cls[..j + 1], s) <= |rows|
    && rows[CodeCount(cls[..j], s)..CodeCount(cls[..j + 1], s)] == CodelistRows(cls[j], s, Ok(c)).value
  }

  /** `codelists` lists the rows codelist by codelist, in order: the rows of
      codelist `j` are those of that codelist alone, and sit right after the
      rows of the codelists before it. */
  lemma {:induction false} CodelistsRowsSpec(cls: seq<Node>, s: string, c: string)
    requires CodelistsRows(cls, s, Ok(c)).Ok?
    ensures |CodelistsRows(cls, s, Ok(c)).value| == CodeCount(cls, s)
    ensures forall j :: 0 <= j < |cls| ==> GroupAt(CodelistsRows(cls, s, Ok(c)).value, cls, s, c, j)
  {
    if cls != [] {
      var front := cls[..|cls| - 1];
      CodelistsRowsSpec(front, s, c);
      CodelistRowsSpec(cls[|cls| - 1], s, c);
      GroupsExtend(cls, front, CodelistsRows(front, s, Ok(c)).value, CodelistsRows(cls, s, Ok(c)).value, s, c);
    }
  }

  /** The step of CodelistsRowsSpec: the groups of the codelists before the
      last stay in place, and the last codelist's rows come after them. */
  lemma GroupsExtend(cls: seq<Node>, front: seq<Node>, rows: seq<CodeRow>, all: seq<CodeRow>, s: string, c: string)
    requires cls != [] && front == cls[..|cls| - 1]
    requires CodelistRows(cls[|cls| - 1], s, Ok(c)).Ok?
    requires all == rows + CodelistRows(cls[|cls| - 1], s, Ok(c)).value
    requires |rows| == CodeCount(front, s)
    requires forall j :: 0 <= j < |front| ==> GroupAt(rows, front, s, c, j)
    requires |CodelistRows(cls[|cls| - 1], s, Ok(c)).value| == |ChildrenTagged(cls[|cls| - 1], s + "Code")|
    ensures |all| == CodeCount(cls, s)
    ensures forall j :: 0 <= j < |cls| ==> GroupAt(all, cls, s, c, j)
  {
    assert all[..|rows|] == rows;
    forall j | 0 <= j < |cls|
      ensures GroupAt(all, cls, s, c, j)
    {
      if j < |front| {
        GroupKept(cls, front, rows, all, s, c, j);
      } else {
        assert cls[..j] == front && cls[..j + 1] == cls;
        assert all[|rows|..] == CodelistRows(cls[|cls| - 1], s, Ok(c)).value;
      }
    }
  }

  /** A group of the codelists before the last stays in place. */
  lemma GroupKept(cls: seq<Node>, front: seq<Node>, rows: seq<CodeRow>, all: seq<CodeRow>, s: string, c: string, j: nat)
    requires cls != [] && j < |front| && front == cls[..|cls| - 1]
    requires |rows| <= |all| && all[..|rows|] == rows
    requires GroupAt(rows, front, s, c, j)
    ensures GroupAt(all, cls, s, c, j)
  {
    assert cls[..j] == front[..j] && cls[..j + 1] == front[..j + 1] && cls[j] == front[j];
    assert all[CodeCount(front[..j], s)..CodeCount(front[..j + 1], s)]
           == rows[CodeCount(front[..j], s)..CodeCount(front[..j + 1], s)];
  }

  /** A failing step of the code loop makes the whole codelist fail with it. */
  lemma {:induction false} CodeRowsFailFrom(agencyId: string, codelistId: string, listName: string, codes: seq<Node>,
                                            k: nat, s: string, common: Result<string>)
    requires k <= |codes| && CodeRows(agencyId, codelistId, listName, codes[..k], s, common).Err?
    ensures CodeRows(agencyId, codelistId, listName, codes, s, common)
            == CodeRows(agencyId, codelistId, listName, codes[..k], s, common)
    decreases |codes| - k
  {
    if k < |codes| {
      assert codes[..k + 1][..k] == codes[..k];
      CodeRowsFailFrom(agencyId, codelistId, listName, codes, k + 1, s, common);
    } else {
      assert codes[..k] == codes;
    }
  }

  /** A failing codelist makes `codelists` fail with it. */
  lemma {:induction false} CodelistsRowsFailFrom(cls: seq<Node>, k: nat, s: string, common: Result<string>)
    requires k <= |cls| && CodelistsRows(cls[..k], s, common).Err?
    ensures CodelistsRows(cls, s, common) == CodelistsRows(cls[..k], s, common)
    decreases |cls| - k
  {
    if k < |cls| {
      assert cls[..k + 1][..k] == cls[..k];
      CodelistsRowsFailFrom(cls, k + 1, s, common);
    } else {
      assert cls[..k] == cls;
    }
  }

  /** `codelists(response)`. */
  method ExtractCodelists(response: CustomResponse) returns (r: Result<seq<CodeRow>>)
    ensures r == Codelists(response.hierarchy, LookupNamespace(response.namespaces, "structure"),
                           LookupNamespace(response.namespaces, "common"))
  {
    var s :- response.FindNamespace("structure");
    r := ExtractCodelistList(response, DescendantsTagged(response.hierarchy, s + "Codelist"), s);
  }

  /** The outer loop of `codelists` over the codelist elements `cls`. */
  method ExtractCodelistList(response: CustomResponse, cls: seq<Node>, s: string) returns (r: Result<seq<CodeRow>>)
    ensures r == CodelistsRows(cls, s, LookupNamespace(response.namespaces, "common"))
  {
    var common := LookupNamespace(response.namespaces, "common");
    var out := [];
    for i := 0 to |cls|
      invariant CodelistsRows(cls[..i], s, common) == Ok(out)
    {
      assert cls[..i + 1][..i] == cls[..i];
      var rows := ExtractCodelist(response, cls[i], s);
      if rows.Err? {
        CodelistsRowsFailFrom(cls, i + 1, s, common);
        return Err(rows.error);
      }
      out := out + rows.value;
    }
    assert cls[..|cls|] == cls;
    return Ok(out);
  }

  /** The loop body of `codelists` on one codelist element, with its inner
      loop over the codes. */
  method ExtractCodelist(response: CustomResponse, cl: Node, s: string) returns (r: Result<seq<CodeRow>>)
    ensures r == CodelistRows(cl, s, LookupNamespace(response.namespaces, "common"))
  {
    var common := LookupNamespace(response.namespaces, "common");
    var agencyId :- Get(cl.attrib, "agencyID");
    var codelistId :- Get(cl.attrib, "id");
    var c :- response.FindNamespace("common");
    var listNames := ChildrenTagged(cl, c + "Name");
    var codelistName := "";
    var english :- FindEnglishName(listNames);
    if english.Some? {
      codelistName := english.value;
    }
    r := ExtractCodes(response, agencyId, codelistId, codelistName, ChildrenTagged(cl, s + "Code"), s);
  }

  /** The inner loop of `codelists` over the codes of one codelist, whose
      own name is `listName`; `codelistName` follows the English code names. */
  method ExtractCodes(response: CustomResponse, agencyId: string, codelistId: string, listName: string,
                      codes: seq<Node>, s: string) returns (r: Result<seq<CodeRow>>)
    ensures r == CodeRows(agencyId, codelistId, listName, codes, s, LookupNamespace(response.namespaces, "common"))
  {
    var common := LookupNamespace(response.namespaces, "common");
    var codelistName := listName;
    var rows := [];
    for j := 0 to |codes|
      invariant CodeRows(agencyId, codelistId, listName, codes[..j], s, common) == Ok(rows)
      invariant codelistName == CurrentName(listName, rows)
    {
      assert codes[..j + 1][..j] == codes[..j];
      var row := ExtractCode(response, agencyId, codelistId, codelistName, codes[j], s);
      if row.Err? {
        CodeRowsFailFrom(agencyId, codelistId, listName, codes, j + 1, s, common);
        return Err(row.error);
      }
      codelistName := row.value.codelistName;
      rows := rows + [row.value];
    }
    assert codes[..|codes|] == codes;
    return Ok(rows);
  }

  /** The body of the inner loop on one code, when the codelist name so far
      is `current`; the row carries the codelist name after the code. */
  method ExtractCode(response: CustomResponse, agencyId: string, codelistId: string, current: string,
                     code: Node, s: string) returns (r: Result<CodeRow>)
    ensures r == CodeStep(agencyId, codelistId, current, code, s, LookupNamespace(response.namespaces, "common"))
  {
    var codelistName := current;
    var codeId :- Get(code.attrib, "id");
    var codeName := "";
    var c :- response.FindNamespace("common");
    var found :- FindEnglishName(ChildrenTagged(code, c + "Name"));
    if found.Some? {
      codeName := found.value;
      codelistName := codeName;
    }
    var parent := FindChild(code, s + "Parent");
    var codeParent;
    if parent.Some? {
      var reference := FindChild(parent.value, "Ref");
      if reference.None? {
        return Err(NoRef);
      }
      codeParent :- Get(reference.value.attrib, "id");
    } else {
      codeParent := "None";
    }
    return Ok(CodeRow(agencyId, codelistId, codelistName, codeId, codeName, codeParent));
  }
}
