/** Namespace handling of the response: the `{…}` prefix of a tag (the
    regular expression `^({.+})`), the description of an SDMX-ML 2.1
    namespace (`/v2_1/(.+)}$`), the ordered discovery of the namespaces of a
    tree, and the two lookups between namespaces and descriptions.

    The patterns are written out as string functions; each carries a lemma
    that ties it to a direct reading of the pattern (where a match can start
    and end, which one the greedy or leftmost search picks). */
module Namespaces {
  import opened Wrappers
  import opened Strings
  import opened Tree

  // ---------------------------------------------------------------------
  // `^({.+})`
  // ---------------------------------------------------------------------

  /** Index of the first line break, or `|s|`: a regular-expression `.`
      never matches `\n`. */
  function LineEnd(s: string): (e: nat)
    ensures e <= |s| && (forall i :: 0 <= i < e ==> s[i] != '\n') && (e < |s| ==> s[e] == '\n')
  {
    if s == [] || s[0] == '\n' then 0
    else
      var e := 1 + LineEnd(s[1..]);
      assert forall i :: 1 <= i < e ==> s[i] == s[1..][i - 1];
      e
  }

  /** The largest `j < hi` with `s[j] == '}'`. */
  function LastBrace(s: string, hi: nat): (r: Option<nat>)
    requires hi <= |s|
    ensures r.Some? ==> r.value < hi && s[r.value] == '}' && forall j :: r.value < j < hi ==> s[j] != '}'
    ensures r.None? ==> forall j :: 0 <= j < hi ==> s[j] != '}'
  {
    if hi == 0 then None
    else if s[hi - 1] == '}' then Some(hi - 1)
    else LastBrace(s, hi - 1)
  }

  /** `re.search(r"^({.+})", tag).group(1)`, or None when there is no match:
      the tag's leading `{`, then the longest run of characters other than a
      line break that ends in `}` and holds at least one character between
      the braces. */
  function NamespacePrefix(tag: string): (r: Option<string>)
    ensures r.Some? ==> 3 <= |r.value| <= |tag| && r.value == tag[..|r.value|]
                        && r.value[0] == '{' && r.value[|r.value| - 1] == '}'
                        && forall i :: 0 <= i < |r.value| ==> r.value[i] != '\n'
  {
    if |tag| > 0 && tag[0] == '{' then
      match LastBrace(tag, LineEnd(tag))
      case Some(j) => if j >= 2 then Some(tag[..j + 1]) else None
      case None => None
    else None
  }

  /** `tag[..j + 1]` is a match of `^({.+})`. */
  ghost predicate PrefixMatchEnd(tag: string, j: int) {
    2 <= j < |tag| && tag[0] == '{' && tag[j] == '}' && forall i :: 1 <= i < j ==> tag[i] != '\n'
  }

  /** NamespacePrefix finds a match exactly when the pattern has one, and
      then the longest one (the pattern is greedy). */
  lemma NamespacePrefixSpec(tag: string)
    ensures NamespacePrefix(tag).Some? <==> exists j :: PrefixMatchEnd(tag, j)
    ensures NamespacePrefix(tag).Some? ==>
              var p := NamespacePrefix(tag).value;
              PrefixMatchEnd(tag, |p| - 1) && forall j :: PrefixMatchEnd(tag, j) ==> j <= |p| - 1
  {
    if |tag| > 0 && tag[0] == '{' {
      var e := LineEnd(tag);
      forall j | PrefixMatchEnd(tag, j)
        ensures j < e && tag[j] == '}'
      {
      }
      match LastBrace(tag, e)
      case Some(k) =>
        forall j | PrefixMatchEnd(tag, j)
          ensures j <= k
        {
        }
        if k >= 2 {
          assert PrefixMatchEnd(tag, k);
        }
      case None =>
    }
  }

  /** `re.sub(r"^({.+})", "", key)`: an attribute key without its namespace. */
  function StripNamespace(key: string): (r: string)
    ensures NamespacePrefix(key).None? ==> r == key
    ensures NamespacePrefix(key).Some? ==> key == NamespacePrefix(key).value + r
  {
    match NamespacePrefix(key)
    case Some(p) => key[|p|..]
    case None => key
  }

  // ---------------------------------------------------------------------
  // `/v2_1/(.+)}$`
  // ---------------------------------------------------------------------

  /** The path segment that precedes the description in an SDMX-ML 2.1 namespace. */
  const Marker := "/v2_1/"

  /** Where `}$` can match: a brace at the very end, or right before a final line break. */
  function ClosingBrace(ns: string): (r: Option<nat>)
    ensures r.Some? ==> r.value < |ns| && ns[r.value] == '}'
  {
    if |ns| >= 1 && ns[|ns| - 1] == '}' then Some(|ns| - 1)
    else if |ns| >= 2 && ns[|ns| - 1] == '\n' && ns[|ns| - 2] == '}' then Some(|ns| - 2)
    else None
  }

  /** The leftmost `i >= from` at which `/v2_1/(.+)` can start and run up to `e`. */
  function FindMarker(ns: string, from: nat, e: nat): (r: Option<nat>)
    requires e <= |ns|
    ensures r.Some? ==> from <= r.value && r.value + |Marker| < e && ns[r.value..r.value + |Marker|] == Marker
    decreases |ns| - from
  {
    if from + |Marker| >= e then None
    else if ns[from..from + |Marker|] == Marker && LineBreakFree(ns[from + |Marker|..e]) then Some(from)
    else FindMarker(ns, from + 1, e)
  }

  /** No character of `s` is a line break, so `.+` can cover all of it. */
  predicate LineBreakFree(s: string)
    ensures LineBreakFree(s) <==> forall i :: 0 <= i < |s| ==> s[i] != '\n'
  {
    s == [] || (s[0] != '\n' && LineBreakFree(s[1..]))
  }

  /** `re.search(r"/v2_1/(.+)}$", ns).group(1)`, or None when there is no match. */
  function DescriptionOf(ns: string): Option<string>
  {
    match ClosingBrace(ns)
    case None => None
    case Some(e) =>
      match FindMarker(ns, 0, e)
      case None => None
      case Some(i) => Some(ns[i + |Marker|..e])
  }

  /** The pattern `/v2_1/(.+)}$` matches `ns` starting at `i`. */
  ghost predicate DescriptionMatchAt(ns: string, i: int) {
    && ClosingBrace(ns).Some?
    && 0 <= i && i + |Marker| < ClosingBrace(ns).value
    && ns[i..i + |Marker|] == Marker
    && forall k :: i + |Marker| <= k < ClosingBrace(ns).value ==> ns[k] != '\n'
  }

  lemma {:induction false} FindMarkerSpec(ns: string, from: nat, e: nat)
    requires e <= |ns| && ClosingBrace(ns) == Some(e)
    ensures FindMarker(ns, from, e).Some? <==> exists i :: from <= i && DescriptionMatchAt(ns, i)
    ensures FindMarker(ns, from, e).Some? ==>
              var i := FindMarker(ns, from, e).value;
              from <= i && DescriptionMatchAt(ns, i) && forall k :: from <= k < i ==> !DescriptionMatchAt(ns, k)
    decreases |ns| - from
  {
    if from + |Marker| >= e {
    } else if ns[from..from + |Marker|] == Marker && LineBreakFree(ns[from + |Marker|..e]) {
      assert forall i :: from + |Marker| <= i < e ==> ns[i] == ns[from + |Marker|..e][i - from - |Marker|];
      assert DescriptionMatchAt(ns, from);
    } else {
      if ns[from..from + |Marker|] == Marker {
        var rest := ns[from + |Marker|..e];
        var i :| 0 <= i < |rest| && rest[i] == '\n';
        assert ns[from + |Marker| + i] == '\n';
      }
      assert !DescriptionMatchAt(ns, from);
      FindMarkerSpec(ns, from + 1, e);
      forall i | from <= i && DescriptionMatchAt(ns, i)
        ensures from + 1 <= i
      {
      }
    }
  }

  /** DescriptionOf finds a description exactly when the pattern matches; it
      is the group of the leftmost match. */
  lemma DescriptionSpec(ns: string)
    ensures DescriptionOf(ns).Some? <==> exists i :: DescriptionMatchAt(ns, i)
    ensures DescriptionOf(ns).Some? ==>
              exists i :: DescriptionMatchAt(ns, i) && DescriptionOf(ns).value == ns[i + |Marker|..ClosingBrace(ns).value]
                          && forall k :: 0 <= k < i ==> !DescriptionMatchAt(ns, k)
  {
    match ClosingBrace(ns)
    case None =>
    case Some(e) =>
      FindMarkerSpec(ns, 0, e);
  }

  /** For a namespace without line breaks (every discovered one), the
      description is a non-empty tail: the namespace ends in `/v2_1/<d>}`. */
  lemma DescriptionIsTail(ns: string)
    requires forall i :: 0 <= i < |ns| ==> ns[i] != '\n'
    requires DescriptionOf(ns).Some?
    ensures var d := DescriptionOf(ns).value;
            |d| >= 1 && |d| + |Marker| + 1 <= |ns| && ns[|ns| - |d| - |Marker| - 1..] == Marker + d + "}"
  {
    var e := ClosingBrace(ns).value;
    assert ns[|ns| - 1] != '\n';
    var i := FindMarker(ns, 0, e).value;
    SplitTail(ns, i, i + |Marker|);
  }

  /** A string ending in a character splits, from `i`, into three slices. */
  lemma SplitTail(s: string, i: nat, j: nat)
    requires i <= j < |s|
    ensures s[i..] == s[i..j] + s[j..|s| - 1] + [s[|s| - 1]]
  {
  }

  /** A namespace built as `<prefix>/v2_1/<d>}`, whose prefix holds no `v`
      (so the version segment cannot start inside it), has description `d`.
      The SDMX-ML 2.1 namespaces are of this form, with prefix
      `{http://www.sdmx.org/resources/sdmxml/schemas`. */
  lemma DescriptionOfBuilt(prefix: string, d: string)
    requires forall i :: 0 <= i < |prefix| ==> prefix[i] != 'v'
    requires |d| >= 1 && forall i :: 0 <= i < |d| ==> d[i] != '\n'
    ensures DescriptionOf(prefix + Marker + d + "}") == Some(d)
  {
    var ns := prefix + Marker + d + "}";
    var e := |ns| - 1;
    assert ClosingBrace(ns) == Some(e);
    forall k | 0 <= k < |prefix|
      ensures !DescriptionMatchAt(ns, k)
    {
      assert ns[k + 1] == (if k + 1 < |prefix| then prefix[k + 1] else '/');
      if k + |Marker| < e {
        assert ns[k..k + |Marker|][1] == ns[k + 1];
      }
    }
    assert ns[|prefix|..|prefix| + |Marker|] == Marker;
    assert forall k :: |prefix| + |Marker| <= k < e ==> ns[k] == d[k - |prefix| - |Marker|];
    assert DescriptionMatchAt(ns, |prefix|);
    FindMarkerSpec(ns, 0, e);
    var i := FindMarker(ns, 0, e).value;
    assert i == |prefix|;
    assert ns[i + |Marker|..e] == d;
  }

  // ---------------------------------------------------------------------
  // Discovery: `get_namespaces`
  // ---------------------------------------------------------------------

  /** The namespaces of the tags of `nodes`, each once, in order of first
      appearance. Defined on the last node, the way the loop grows it. */
  function Discovered(nodes: seq<Node>): seq<string>
  {
    if nodes == [] then []
    else
      var d := Discovered(nodes[..|nodes| - 1]);
      match NamespacePrefix(nodes[|nodes| - 1].tag)
      case Some(n) => if n in d then d else d + [n]
      case None => d
  }

  predicate Distinct(s: seq<string>) {
    forall i, j :: 0 <= i < j < |s| ==> s[i] != s[j]
  }

  /** Some node of `nodes` has a tag with namespace `x`. */
  ghost predicate Occurs(nodes: seq<Node>, x: string) {
    exists k :: 0 <= k < |nodes| && NamespacePrefix(nodes[k].tag) == Some(x)
  }

  /** `k` is the position of the first node whose tag has namespace `x`. */
  ghost predicate FirstOccurrence(nodes: seq<Node>, x: string, k: int) {
    && 0 <= k < |nodes| && NamespacePrefix(nodes[k].tag) == Some(x)
    && forall m :: 0 <= m < k ==> NamespacePrefix(nodes[m].tag) != Some(x)
  }

  /** A namespace occurring before the last node first occurs at the same place with or without it. */
  lemma FirstOccurrenceInFront(nodes: seq<Node>, x: string, p: int)
    requires nodes != [] && Occurs(nodes[..|nodes| - 1], x) && FirstOccurrence(nodes, x, p)
    ensures p < |nodes| - 1 && FirstOccurrence(nodes[..|nodes| - 1], x, p)
  {
    var front := nodes[..|nodes| - 1];
    var k :| 0 <= k < |front| && NamespacePrefix(front[k].tag) == Some(x);
    assert NamespacePrefix(nodes[k].tag) == Some(x);
    assert p <= k;
    assert forall m :: 0 <= m <= p ==> front[m] == nodes[m];
  }

  /** Discovery yields every namespace that occurs and nothing else. */
  lemma {:induction false} DiscoveredMembers(nodes: seq<Node>)
    ensures forall x :: x in Discovered(nodes) <==> Occurs(nodes, x)
  {
    if nodes != [] {
      var front := nodes[..|nodes| - 1];
      DiscoveredMembers(front);
      OccursSnoc(nodes);
      if NamespacePrefix(nodes[|nodes| - 1].tag).Some? {
        assert Occurs(nodes, NamespacePrefix(nodes[|nodes| - 1].tag).value);
      }
    }
  }

  /** A namespace occurs in a non-empty walk exactly when it occurs before
      the last node or is the last node's. */
  lemma OccursSnoc(nodes: seq<Node>)
    requires nodes != []
    ensures forall x :: Occurs(nodes, x) <==>
                          Occurs(nodes[..|nodes| - 1], x) || NamespacePrefix(nodes[|nodes| - 1].tag) == Some(x)
  {
    var front := nodes[..|nodes| - 1];
    forall x | Occurs(nodes, x)
      ensures Occurs(front, x) || NamespacePrefix(nodes[|nodes| - 1].tag) == Some(x)
    {
      var k :| 0 <= k < |nodes| && NamespacePrefix(nodes[k].tag) == Some(x);
      if k < |front| {
        assert NamespacePrefix(front[k].tag) == Some(x);
      }
    }
    forall x | Occurs(front, x)
      ensures Occurs(nodes, x)
    {
      var k :| 0 <= k < |front| && NamespacePrefix(front[k].tag) == Some(x);
      assert NamespacePrefix(nodes[k].tag) == Some(x);
    }
  }

  /** Discovery never lists a namespace twice. */
  lemma {:induction false} DiscoveredDistinct(nodes: seq<Node>)
    ensures Distinct(Discovered(nodes))
  {
    if nodes != [] {
      DiscoveredDistinct(nodes[..|nodes| - 1]);
    }
  }

  /** Discovery lists the namespaces in the order of their first appearance. */
  lemma {:induction false} DiscoveredOrder(nodes: seq<Node>)
    ensures forall i, j, p, q ::
              (0 <= i < j < |Discovered(nodes)| && FirstOccurrence(nodes, Discovered(nodes)[i], p)
               && FirstOccurrence(nodes, Discovered(nodes)[j], q)) ==> p < q
  {
    if nodes != [] {
      var front := nodes[..|nodes| - 1];
      var d := Discovered(front);
      DiscoveredOrder(front);
      DiscoveredMembers(front);
      match NamespacePrefix(nodes[|nodes| - 1].tag)
      case Some(n) =>
        var d' := Discovered(nodes);
        forall i, j, p, q |
          0 <= i < j < |d'| && FirstOccurrence(nodes, d'[i], p) && FirstOccurrence(nodes, d'[j], q)
          ensures p < q
        {
          assert d'[i] == d[i] && Occurs(front, d[i]);
          FirstOccurrenceInFront(nodes, d[i], p);
          if j < |d| {
            assert d'[j] == d[j] && Occurs(front, d[j]);
            FirstOccurrenceInFront(nodes, d[j], q);
          } else {
            assert d'[j] == n && !Occurs(front, n);
            if q < |front| {
              assert NamespacePrefix(front[q].tag) == Some(n);
            }
          }
        }
      case None =>
        forall i, j, p, q |
          0 <= i < j < |d| && FirstOccurrence(nodes, d[i], p) && FirstOccurrence(nodes, d[j], q)
          ensures p < q
        {
          FirstOccurrenceInFront(nodes, d[i], p);
          FirstOccurrenceInFront(nodes, d[j], q);
        }
    }
  }

  // ---------------------------------------------------------------------
  // Lookups: `find_description`, `find_namespace`
  // ---------------------------------------------------------------------

  /** One entry of `get_namespace_descriptions`. */
  datatype Entry = Entry(description: string, namespace: string)

  /** Every namespace has a description; otherwise `get_namespace_descriptions`
      fails on `None.group`. */
  predicate AllDescribed(nss: seq<string>) {
    forall k :: 0 <= k < |nss| ==> DescriptionOf(nss[k]).Some?
  }

  /** A namespace with a description is not empty. */
  lemma DescribedNonEmpty(nss: seq<string>, ns: string)
    requires AllDescribed(nss) && ns in nss
    ensures DescriptionOf(ns).Some? && |ns| > 0
  {
    var k :| 0 <= k < |nss| && nss[k] == ns;
    assert DescriptionOf(nss[k]).Some?;
  }

  /** The error `re.search(...).group(1)` raises when the pattern does not match. */
  const NoMatch := AttributeError("'NoneType' object has no attribute 'group'")

  /** What `find_description(ns)` returns when it returns: the description of
      `ns` if `ns` is one of the namespaces, and "" otherwise. */
  function DescriptionFor(nss: seq<string>, ns: string): string
    requires AllDescribed(nss)
  {
    if ns in nss then DescriptionOf(ns).value else ""
  }

  /** The first namespace of `nss` whose description is `d`. */
  function NamespaceFor(nss: seq<string>, d: string): (r: Option<string>)
    ensures r.None? <==> forall k :: 0 <= k < |nss| ==> DescriptionOf(nss[k]) != Some(d)
    ensures r.Some? ==> exists k :: 0 <= k < |nss| && nss[k] == r.value && DescriptionOf(r.value) == Some(d)
                                    && forall m :: 0 <= m < k ==> DescriptionOf(nss[m]) != Some(d)
  {
    if nss == [] then None
    else if DescriptionOf(nss[0]) == Some(d) then Some(nss[0])
    else
      var r := NamespaceFor(nss[1..], d);
      assert forall k :: 1 <= k < |nss| ==> nss[k] == nss[1..][k - 1];
      r
  }

  /** `find_description(ns)` with its failure mode. */
  function LookupDescription(nss: seq<string>, ns: string): Result<string>
  {
    if AllDescribed(nss) then Ok(DescriptionFor(nss, ns)) else Err(NoMatch)
  }

  /** `find_namespace(d)` with its two failure modes: a namespace without a
      description, or no namespace with description `d` (the local
      `namespace` is then never bound). */
  function LookupNamespace(nss: seq<string>, d: string): Result<string>
  {
    if !AllDescribed(nss) then Err(NoMatch)
    else
      match NamespaceFor(nss, d)
      case Some(n) => Ok(n)
      case None => Err(UnboundLocalError("namespace"))
  }

  /** Looking up the namespace of a namespace's description gives it back,
      provided no other namespace shares that description. */
  lemma {:induction false} NamespaceOfDescription(nss: seq<string>, ns: string)
    requires AllDescribed(nss) && ns in nss
    requires forall m :: m in nss && DescriptionOf(m) == DescriptionOf(ns) ==> m == ns
    ensures LookupDescription(nss, ns).Ok?
    ensures LookupNamespace(nss, LookupDescription(nss, ns).value) == Ok(ns)
  {
    var d := DescriptionFor(nss, ns);
    var k :| 0 <= k < |nss| && nss[k] == ns;
    assert DescriptionOf(nss[k]) == Some(d);
    match NamespaceFor(nss, d)
    case Some(n) =>
      assert n in nss && DescriptionOf(n) == Some(d);
    case None =>
  }

  /** Looking up the description of the namespace found for `d` gives `d` back. */
  lemma DescriptionOfNamespace(nss: seq<string>, d: string)
    requires LookupNamespace(nss, d).Ok?
    ensures LookupDescription(nss, LookupNamespace(nss, d).value) == Ok(d)
  {
  }
}
