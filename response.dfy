/** `CustomResponse`: a response whose XML body has been parsed into an
    element tree, with the namespaces found in it, the lookups between
    namespaces and their descriptions, and the hierarchy report. */
module Response {
  import opened Wrappers
  import opened Strings
  import opened Tree
  import opened Namespaces
  import opened Hierarchy

  /** One step of `get_namespace_descriptions`: the entry of one namespace,
      or the failure of `.group(1)` on a failed search. */
  function Describe(ns: string): (r: Result<Entry>)
    ensures r.Ok? <==> DescriptionOf(ns).Some?
    ensures r.Ok? ==> r.value == Entry(DescriptionOf(ns).value, ns)
    ensures r.Err? ==> r.error == NoMatch
  {
    match DescriptionOf(ns)
    case Some(d) => Ok(Entry(d, ns))
    case None => Err(NoMatch)
  }

  /** `get_namespace_descriptions()` over the namespaces `nss`. */
  function Descriptions(nss: seq<string>): Result<seq<Entry>>
  {
    Collect(seq(|nss|, i requires 0 <= i < |nss| => Describe(nss[i])))
  }

  /** The descriptions exist exactly when every namespace has one; then
      there is one entry per namespace, in order, pairing it with its
      description. */
  lemma DescriptionsSpec(nss: seq<string>)
    ensures Descriptions(nss).Ok? <==> AllDescribed(nss)
    ensures Descriptions(nss).Err? ==> Descriptions(nss).error == NoMatch
    ensures Descriptions(nss).Ok? ==>
              var es := Descriptions(nss).value;
              |es| == |nss| && forall i :: 0 <= i < |nss| ==> es[i] == Entry(DescriptionOf(nss[i]).value, nss[i])
  {
    var rs := seq(|nss|, i requires 0 <= i < |nss| => Describe(nss[i]));
    CollectOk(rs);
    assert forall i :: 0 <= i < |nss| ==> (rs[i].Ok? <==> DescriptionOf(nss[i]).Some?);
    if Collect(rs).Err? {
      var k :| 0 <= k < |rs| && rs[k].Err?;
      FirstFailure(rs, k);
    }
  }

  /** From a failing step, the first failing step is found by walking back. */
  lemma FirstFailure(rs: seq<Result<Entry>>, k: nat)
    requires k < |rs| && rs[k].Err?
    ensures exists f :: 0 <= f <= k && rs[f].Err? && Collect(rs) == Err(rs[f].error)
    decreases k
  {
    if forall i :: 0 <= i < k ==> rs[i].Ok? {
      CollectFirstError(rs, k);
    } else {
      var i :| 0 <= i < k && rs[i].Err?;
      FirstFailure(rs, i);
    }
  }

  /** The namespace `find_description` is asked about by `output_hierarchy`
      is found by scanning the namespaces in order. */
  lemma FirstPrefixAt(s: string, nss: seq<string>, k: nat)
    requires FirstLeading(s, nss, k)
    ensures FirstPrefix(s, nss) == Some(nss[k])
    decreases k
  {
    if k > 0 {
      assert FirstLeading(s, nss[1..], k - 1) by {
        forall m | 0 <= m < k - 1
          ensures !StartsWith(s, nss[1..][m])
        {
          assert nss[1..][m] == nss[m + 1];
        }
      }
      FirstPrefixAt(s, nss[1..], k - 1);
    }
  }

  class CustomResponse {
    /** The XML body as an element tree. */
    const hierarchy: Node
    /** The namespaces prefixing the tags of the tree. */
    var namespaces: seq<string>

    /** Wraps a response whose body parses to `root`. */
    constructor(root: Node)
      ensures hierarchy == root
      ensures namespaces == Discovered(PreOrder(root))
    {
      hierarchy := root;
      new;
      namespaces := GetNamespaces();
    }

    /** `get_namespaces()`: the namespaces of all tags, in order of first
        appearance in the pre-order walk, each once. */
    method GetNamespaces() returns (found: seq<string>)
      ensures found == Discovered(PreOrder(hierarchy))
      ensures Distinct(found)
      ensures forall x :: x in found <==> Occurs(PreOrder(hierarchy), x)
    {
      var elements := PreOrder(hierarchy);
      found := [];
      for i := 0 to |elements|
        invariant found == Discovered(elements[..i])
      {
        assert elements[..i + 1][..i] == elements[..i];
        match NamespacePrefix(elements[i].tag)
        case Some(n) =>
          if n !in found {
            found := found + [n];
          }
        case None =>
      }
      assert elements[..|elements|] == elements;
      DiscoveredDistinct(elements);
      DiscoveredMembers(elements);
    }

    /** `get_namespace_descriptions()`: an entry per namespace, or the
        failure on the first namespace without a description. */
    method GetNamespaceDescriptions() returns (r: Result<seq<Entry>>)
      ensures r == Descriptions(namespaces)
      ensures r.Ok? <==> AllDescribed(namespaces)
      ensures r.Err? ==> r.error == NoMatch
      ensures r.Ok? ==> |r.value| == |namespaces|
                        && forall i :: 0 <= i < |namespaces| ==> r.value[i].namespace == namespaces[i]
    {
      r := DescribeAll(namespaces);
      DescriptionsSpec(namespaces);
    }

    /** `find_description(ns)`: the description of `ns` if it is one of the
        namespaces, "" otherwise; fails when a namespace has no description. */
    method FindDescription(ns: string) returns (r: Result<string>)
      ensures r == LookupDescription(namespaces, ns)
      ensures r.Ok? && ns in namespaces ==> DescriptionOf(ns) == Some(r.value)
      ensures r.Ok? && ns !in namespaces ==> r.value == ""
    {
      var ds :- GetNamespaceDescriptions();
      DescriptionsSpec(namespaces);
      var description := "";
      for i := 0 to |ds|
        invariant forall j :: 0 <= j < i ==> namespaces[j] != ns
      {
        if ds[i].namespace == ns {
          description := ds[i].description;
          break;
        }
      }
      return Ok(description);
    }

    /** `find_namespace(d)`: the first namespace whose description is `d`;
        fails when a namespace has no description, and with an unbound
        local when none has description `d`. */
    method FindNamespace(d: string) returns (r: Result<string>)
      ensures r == LookupNamespace(namespaces, d)
      ensures r.Ok? ==> r.value in namespaces && DescriptionOf(r.value) == Some(d)
    {
      var ds :- GetNamespaceDescriptions();
      var namespace: Option<string> := None;
      for i := 0 to |ds|
        invariant forall j :: 0 <= j < i ==> ds[j].description != d
        invariant namespace.None?
      {
        if ds[i].description == d {
          namespace := Some(ds[i].namespace);
          LookupFound(namespaces, ds, d, i);
          break;
        }
      }
      match namespace
      case None =>
        LookupMissing(namespaces, ds, d);
        return Err(UnboundLocalError("namespace"));
      case Some(n) =>
        return Ok(n);
    }

    /** The body of `output_hierarchy`'s loop on one line: the namespaces
        are tried in order, and the first one the stripped line starts with
        is replaced everywhere in the line by its marked description. */
    method RewriteAt(line: string) returns (r: Result<string>)
      ensures r == RewriteLine(line, namespaces)
    {
      var s := Strip(line);
      FirstPrefixSpec(s, namespaces);
      for k := 0 to |namespaces|
        invariant forall m :: 0 <= m < k ==> !StartsWith(s, namespaces[m])
      {
        if StartsWith(s, namespaces[k]) {
          FirstPrefixAt(s, namespaces, k);
          var description :- FindDescription(namespaces[k]);
          DescribedNonEmpty(namespaces, namespaces[k]);
          return Ok(ReplaceAll(line, namespaces[k], Marked(description)));
        }
      }
      return Ok(line);
    }

    /** The rewriting loop of `output_hierarchy` over all display lines. */
    method RewriteAll() returns (r: Result<seq<string>>)
      ensures r == RewriteLines(Printable(hierarchy, 0), namespaces)
    {
      var nss := namespaces;
      var lines := Printable(hierarchy, 0);
      var printable := lines;
      var rs := seq(|lines|, i requires 0 <= i < |lines| => RewriteLine(lines[i], nss));
      for i := 0 to |printable|
        invariant |printable| == |lines|
        invariant forall j :: 0 <= j < i ==> rs[j] == Ok(printable[j])
        invariant forall j :: i <= j < |lines| ==> printable[j] == lines[j]
      {
        var rewritten := RewriteAt(printable[i]);
        if rewritten.Err? {
          CollectFirstError(rs, i);
          return Err(rewritten.error);
        }
        printable := printable[i := rewritten.value];
      }
      CollectOk(rs);
      assert Collect(rs).value == printable by {
        assert forall j :: 0 <= j < |rs| ==> Collect(rs).value[j] == printable[j];
      }
      return Ok(printable);
    }

    /** `output_hierarchy(rng)`: the text written to the report file, the
        header then the (first `rng`) display lines, each line whose stripped
        form starts with a namespace showing that namespace's description. */
    method OutputHierarchy(rng: Option<int>) returns (r: Result<string>)
      ensures r.Ok? <==> HierarchyLines(hierarchy, namespaces, rng).Ok?
      ensures r.Ok? ==> r.value == ReportText(HierarchyLines(hierarchy, namespaces, rng).value)
      ensures r.Err? ==> r.error == HierarchyLines(hierarchy, namespaces, rng).error
    {
      var printable :- RewriteAll();
      var text := WriteReport(Take(printable, rng));
      return Ok(text);
    }
  }

  /** The loop of `get_namespace_descriptions` over the namespaces `nss`,
      returning at the first namespace without a description. */
  method DescribeAll(nss: seq<string>) returns (r: Result<seq<Entry>>)
    ensures r == Descriptions(nss)
  {
    var rs := seq(|nss|, i requires 0 <= i < |nss| => Describe(nss[i]));
    var entries := [];
    for i := 0 to |nss|
      invariant Collect(rs[..i]) == Ok(entries)
    {
      assert rs[..i + 1] == rs[..i] + [rs[i]];
      CollectSnoc(rs[..i], rs[i]);
      match DescriptionOf(nss[i])
      case None =>
        CollectStops(rs, i);
        return Err(NoMatch);
      case Some(d) =>
        entries := entries + [Entry(d, nss[i])];
    }
    assert rs[..|nss|] == rs;
    return Ok(entries);
  }

  /** The writing loop of `output_hierarchy`: the header, then each line
      followed by a line break. */
  method WriteReport(lines: seq<string>) returns (text: string)
    ensures text == ReportText(lines)
  {
    text := Header;
    for i := 0 to |lines|
      invariant text == ReportText(lines[..i])
    {
      assert lines[..i + 1][..i] == lines[..i];
      text := text + lines[i] + "\n";
    }
    assert lines[..|lines|] == lines;
  }

  /** The first entry with description `d` names the namespace looked up. */
  lemma LookupFound(nss: seq<string>, ds: seq<Entry>, d: string, i: nat)
    requires Descriptions(nss) == Ok(ds)
    requires i < |ds| && ds[i].description == d
    requires forall j :: 0 <= j < i ==> ds[j].description != d
    ensures LookupNamespace(nss, d) == Ok(ds[i].namespace)
    ensures ds[i].namespace in nss && DescriptionOf(ds[i].namespace) == Some(d)
  {
    DescriptionsSpec(nss);
    NamespaceForAt(nss, d, i);
  }

  /** With no entry of description `d`, the lookup leaves its local unbound. */
  lemma LookupMissing(nss: seq<string>, ds: seq<Entry>, d: string)
    requires Descriptions(nss) == Ok(ds)
    requires forall j :: 0 <= j < |ds| ==> ds[j].description != d
    ensures LookupNamespace(nss, d) == Err(UnboundLocalError("namespace"))
  {
    DescriptionsSpec(nss);
  }

  /** A namespace with description `d` preceded by none is the one found. */
  lemma NamespaceForAt(nss: seq<string>, d: string, k: nat)
    requires k < |nss| && DescriptionOf(nss[k]) == Some(d)
    requires forall j :: 0 <= j < k ==> DescriptionOf(nss[j]) != Some(d)
    ensures NamespaceFor(nss, d) == Some(nss[k])
    decreases k
  {
    if k > 0 {
      NamespaceForAt(nss[1..], d, k - 1);
    }
  }
}
