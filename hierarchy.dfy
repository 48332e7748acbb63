/** The display form of a response: `printable_hierarchy` flattens the tree
    into one indented line per element in pre-order, and `output_hierarchy`
    replaces the namespace at the head of each line by its description and
    keeps the first `rng` lines. */
module Hierarchy {
  import opened Wrappers
  import opened Strings
  import opened Tree
  import opened Namespaces

  /** Four spaces per level. */
  function Indent(level: nat): string
  {
    Spaces(4 * level)
  }

  /** One attribute as displayed: its key without namespace, then `="value"`. */
  function AttributeText(a: (string, string)): string
  {
    StripNamespace(a.0) + "=\"" + a.1 + "\""
  }

  /** The attributes joined by ", ", or "None" when there are none. */
  function AttributesText(attrib: seq<(string, string)>): string
  {
    if attrib == [] then "None"
    else Join(", ", seq(|attrib|, i requires 0 <= i < |attrib| => AttributeText(attrib[i])))
  }

  /** The element text, cleaned, or "None" when the element has no text. */
  function TextField(text: Option<string>): string
  {
    match text
    case Some(t) => CleanText(t)
    case None => "None"
  }

  /** The display line of one element at depth `level`. */
  function Line(n: Node, level: nat): string
  {
    Indent(level) + n.tag + " [Attributes: " + AttributesText(n.attrib) + "]: " + TextField(n.text)
  }

  /** `printable_hierarchy(element, level)`: the element's line, then each
      child's whole subtree one level deeper, in document order. */
  function Printable(n: Node, level: nat): seq<string>
    decreases n, 1
  {
    [Line(n, level)] + PrintableAll(n.children, level + 1)
  }

  function PrintableAll(ns: seq<Node>, level: nat): seq<string>
    decreases ns, 0
  {
    if ns == [] then [] else Printable(ns[0], level) + PrintableAll(ns[1..], level)
  }

  /** The depth of each element of the pre-order walk, counted from `level`. */
  function Depths(n: Node, level: nat): seq<nat>
    decreases n, 1
  {
    [level] + DepthsAll(n.children, level + 1)
  }

  function DepthsAll(ns: seq<Node>, level: nat): seq<nat>
    decreases ns, 0
  {
    if ns == [] then [] else Depths(ns[0], level) + DepthsAll(ns[1..], level)
  }

  /** Flattening emits exactly one line per element, in pre-order: line `i`
      is the line of the `i`-th element of the walk at that element's depth. */
  lemma {:induction false} PrintableIsPreOrder(n: Node, level: nat)
    ensures |Printable(n, level)| == |PreOrder(n)| == |Depths(n, level)|
    ensures forall i :: 0 <= i < |PreOrder(n)| ==>
              Printable(n, level)[i] == Line(PreOrder(n)[i], Depths(n, level)[i])
    decreases n, 1
  {
    PrintableAllIsPreOrder(n.children, level + 1);
    var p, q := [n], PreOrderAll(n.children);
    var a, b := [Line(n, level)], PrintableAll(n.children, level + 1);
    var c, d := [level], DepthsAll(n.children, level + 1);
    forall i | 0 < i < |p + q|
      ensures (a + b)[i] == Line((p + q)[i], (c + d)[i])
    {
      assert (a + b)[i] == b[i - 1] && (p + q)[i] == q[i - 1] && (c + d)[i] == d[i - 1];
    }
  }

  lemma {:induction false} PrintableAllIsPreOrder(ns: seq<Node>, level: nat)
    ensures |PrintableAll(ns, level)| == |PreOrderAll(ns)| == |DepthsAll(ns, level)|
    ensures forall i :: 0 <= i < |PreOrderAll(ns)| ==>
              PrintableAll(ns, level)[i] == Line(PreOrderAll(ns)[i], DepthsAll(ns, level)[i])
    decreases ns, 0
  {
    if ns != [] {
      PrintableIsPreOrder(ns[0], level);
      PrintableAllIsPreOrder(ns[1..], level);
      var a, b := Printable(ns[0], level), PrintableAll(ns[1..], level);
      var p, q := PreOrder(ns[0]), PreOrderAll(ns[1..]);
      var c, d := Depths(ns[0], level), DepthsAll(ns[1..], level);
      forall i | 0 <= i < |p + q|
        ensures (a + b)[i] == Line((p + q)[i], (c + d)[i])
      {
        if i < |p| {
          assert (a + b)[i] == a[i] && (p + q)[i] == p[i] && (c + d)[i] == c[i];
        } else {
          assert (a + b)[i] == b[i - |p|] && (p + q)[i] == q[i - |p|] && (c + d)[i] == d[i - |p|];
        }
      }
    }
  }

  /** The root is shown at `level` and every other element deeper. */
  lemma {:induction false} DepthsBelow(n: Node, level: nat)
    ensures |Depths(n, level)| > 0 && Depths(n, level)[0] == level
    ensures forall i :: 0 < i < |Depths(n, level)| ==> Depths(n, level)[i] > level
    decreases n, 1
  {
    DepthsAllBelow(n.children, level + 1);
  }

  lemma {:induction false} DepthsAllBelow(ns: seq<Node>, level: nat)
    ensures forall i :: 0 <= i < |DepthsAll(ns, level)| ==> DepthsAll(ns, level)[i] >= level
    decreases ns, 0
  {
    if ns != [] {
      DepthsBelow(ns[0], level);
      DepthsAllBelow(ns[1..], level);
      var c, d := Depths(ns[0], level), DepthsAll(ns[1..], level);
      forall i | 0 <= i < |c + d|
        ensures (c + d)[i] >= level
      {
        if i < |c| {
          assert (c + d)[i] == c[i];
        } else {
          assert (c + d)[i] == d[i - |c|];
        }
      }
    }
  }

  /** The number of display lines is the number of elements of the tree. */
  lemma PrintableCount(n: Node)
    ensures |Printable(n, 0)| == NodeCount(n)
  {
    PrintableIsPreOrder(n, 0);
    PreOrderSize(n);
  }

  /** A line starts with its indentation and its tag, shows "None" for no
      attributes and for no text, and a present text has no line break and
      no run of two spaces. */
  lemma LineFormat(n: Node, level: nat)
    ensures StartsWith(Line(n, level), Indent(level) + n.tag)
    ensures n.attrib == [] ==> Line(n, level) == Indent(level) + n.tag + " [Attributes: None]: " + TextField(n.text)
    ensures n.text.None? ==> Line(n, level) == Indent(level) + n.tag + " [Attributes: " + AttributesText(n.attrib) + "]: None"
    ensures n.text.Some? ==> var t := TextField(n.text);
              '\n' !in t && '\r' !in t && NoDoubleSpace(t)
  {
    var head := Indent(level) + n.tag;
    assert Line(n, level) == head + (" [Attributes: " + AttributesText(n.attrib) + "]: " + TextField(n.text));
    if n.text.Some? {
      CleanTextSpec(n.text.value);
    }
  }

  /** A displayed key has no namespace left: stripping is idempotent. */
  lemma StripNamespaceIdempotent(key: string)
    ensures NamespacePrefix(StripNamespace(key)).None?
    ensures StripNamespace(StripNamespace(key)) == StripNamespace(key)
  {
    match NamespacePrefix(key)
    case None =>
    case Some(p) =>
      var rest := key[|p|..];
      NamespacePrefixSpec(key);
      NamespacePrefixSpec(rest);
      if NamespacePrefix(rest).Some? {
        var j :| PrefixMatchEnd(rest, j);
        forall i | 1 <= i < |p| + j
          ensures key[i] != '\n'
        {
          if i >= |p| {
            assert key[i] == rest[i - |p|];
          }
        }
        assert false;
      }
  }

  // ---------------------------------------------------------------------
  // `output_hierarchy`
  // ---------------------------------------------------------------------

  /** The first namespace of `nss` that `s` starts with. */
  function FirstPrefix(s: string, nss: seq<string>): (r: Option<string>)
    ensures r.Some? ==> r.value in nss && StartsWith(s, r.value)
  {
    if nss == [] then None
    else if StartsWith(s, nss[0]) then Some(nss[0])
    else FirstPrefix(s, nss[1..])
  }

  /** The namespace `output_hierarchy` looks for on a line: the first one
      that the stripped line starts with. */
  function LeadingNamespace(line: string, nss: seq<string>): Option<string>
  {
    FirstPrefix(Strip(line), nss)
  }

  /** `nss[k]` is the first namespace of `nss` that `s` starts with. */
  predicate FirstLeading(s: string, nss: seq<string>, k: int) {
    0 <= k < |nss| && StartsWith(s, nss[k]) && forall m :: 0 <= m < k ==> !StartsWith(s, nss[m])
  }

  /** FirstPrefix finds a namespace exactly when `s` starts with one of
      them, and then the first in list order. */
  lemma {:induction false} FirstPrefixSpec(s: string, nss: seq<string>)
    ensures FirstPrefix(s, nss).None? <==> forall k :: 0 <= k < |nss| ==> !StartsWith(s, nss[k])
    ensures FirstPrefix(s, nss).Some? ==> exists k :: FirstLeading(s, nss, k) && nss[k] == FirstPrefix(s, nss).value
  {
    if nss != [] && !StartsWith(s, nss[0]) {
      var tail := nss[1..];
      FirstPrefixSpec(s, tail);
      if FirstPrefix(s, tail).Some? {
        var k :| FirstLeading(s, tail, k) && tail[k] == FirstPrefix(s, tail).value;
        assert FirstLeading(s, nss, k + 1) by {
          forall m | 0 <= m < k + 1
            ensures !StartsWith(s, nss[m])
          {
            if m > 0 {
              assert nss[m] == tail[m - 1];
            }
          }
        }
      } else {
        forall k | 0 <= k < |nss|
          ensures !StartsWith(s, nss[k])
        {
          if k > 0 {
            assert nss[k] == tail[k - 1];
          }
        }
      }
    } else if nss != [] {
      assert FirstLeading(s, nss, 0);
    }
  }

  /** What replaces a namespace: `-> (<description>) `. */
  function Marked(description: string): string
  {
    "-> (" + description + ") "
  }

  /** The loop body of `output_hierarchy` on one line: if the stripped line
      starts with a namespace, the first such namespace is looked up and
      every occurrence of it is replaced by its marked description. */
  function RewriteLine(line: string, nss: seq<string>): Result<string>
  {
    match LeadingNamespace(line, nss)
    case None => Ok(line)
    case Some(n) =>
      var description :- LookupDescription(nss, n);
      DescribedNonEmpty(nss, n);
      Ok(ReplaceAll(line, n, Marked(description)))
  }

  /** The loop of `output_hierarchy` over all lines. */
  function RewriteLines(lines: seq<string>, nss: seq<string>): Result<seq<string>>
  {
    Collect(seq(|lines|, i requires 0 <= i < |lines| => RewriteLine(lines[i], nss)))
  }

  /** `printable[:rng]`, with Python's reading of a negative bound. */
  function Take<T>(s: seq<T>, rng: Option<int>): seq<T>
  {
    match rng
    case None => s
    case Some(k) =>
      if k >= 0 then s[..if k < |s| then k else |s|]
      else s[..if |s| + k > 0 then |s| + k else 0]
  }

  /** The header of the report file. */
  const Header: string := "XPath resource hierarchy:\n" + "==================================================" + "\n"

  /** The report file: the header, then each line followed by a line break. */
  function ReportText(lines: seq<string>): (r: string)
    ensures |r| >= |Header| + |lines| && r[..|Header|] == Header
  {
    if lines == [] then Header
    else ReportText(lines[..|lines| - 1]) + lines[|lines| - 1] + "\n"
  }

  /** The lines `output_hierarchy(rng)` writes after its header. */
  function HierarchyLines(root: Node, nss: seq<string>, rng: Option<int>): Result<seq<string>>
  {
    var lines :- RewriteLines(Printable(root, 0), nss);
    Ok(Take(lines, rng))
  }

  /** The rewrite keeps the number of lines and their order; a line changes
      only when its stripped form starts with a namespace, and then only by
      replacing the first such namespace with its description. It fails only
      when some line needs a description and a namespace has none. */
  lemma RewriteLinesSpec(lines: seq<string>, nss: seq<string>)
    ensures RewriteLines(lines, nss).Err? <==>
              !AllDescribed(nss) && exists i :: 0 <= i < |lines| && LeadingNamespace(lines[i], nss).Some?
    ensures RewriteLines(lines, nss).Ok? ==>
              var out := RewriteLines(lines, nss).value;
              && |out| == |lines|
              && forall i :: 0 <= i < |lines| ==>
                   match LeadingNamespace(lines[i], nss)
                   case None => out[i] == lines[i]
                   case Some(n) => |n| > 0 && out[i] == ReplaceAll(lines[i], n, Marked(DescriptionOf(n).value))
  {
    var rs := seq(|lines|, i requires 0 <= i < |lines| => RewriteLine(lines[i], nss));
    CollectOk(rs);
    if Collect(rs).Ok? {
      forall i | 0 <= i < |lines|
        ensures LeadingNamespace(lines[i], nss).Some? ==> AllDescribed(nss)
      {
        assert rs[i].Ok?;
      }
    }
  }

  /** A rewritten line keeps its leading whitespace (so its indentation) and
      shows the marked description right after it. */
  lemma RewriteLineShape(line: string, nss: seq<string>, n: string)
    requires AllDescribed(nss) && LeadingNamespace(line, nss) == Some(n)
    requires !IsSpace(n[0])
    ensures RewriteLine(line, nss).Ok?
    ensures var w := LeadingWhitespace(line);
            |w| + |n| <= |line|
            && RewriteLine(line, nss).value == w + Marked(DescriptionOf(n).value) + ReplaceAll(line[|w| + |n|..], n, Marked(DescriptionOf(n).value))
  {
    DescribedNonEmpty(nss, n);
    ReplaceAllAfterLeadingSpace(line, n, Marked(DescriptionOf(n).value));
  }

  /** A display line's leading whitespace begins with its indentation. */
  lemma IndentIsLeading(n: Node, level: nat)
    ensures StartsWith(LeadingWhitespace(Line(n, level)), Indent(level))
  {
    LineFormat(n, level);
    var line := Line(n, level);
    assert line[..4 * level] == Indent(level);
    LeadingSpacesKept(line, 4 * level);
  }

  /** Leading spaces of a text are part of its leading whitespace. */
  lemma LeadingSpacesKept(s: string, k: nat)
    requires k <= |s| && forall i :: 0 <= i < k ==> s[i] == ' '
    ensures StartsWith(LeadingWhitespace(s), s[..k])
  {
    var w := LeadingWhitespace(s);
    var t := TrimStart(s);
    assert w == s[..|w|];
  }

  /** Every discovered namespace starts with `{`, so never with whitespace. */
  lemma DiscoveredStartWithBrace(nodes: seq<Node>)
    ensures forall n :: n in Discovered(nodes) ==> |n| >= 3 && n[0] == '{' && !IsSpace(n[0])
  {
    DiscoveredMembers(nodes);
    forall n | n in Discovered(nodes)
      ensures |n| >= 3 && n[0] == '{'
    {
      assert Occurs(nodes, n);
    }
  }

  /** `output_hierarchy` writes a prefix of the rewritten lines, of which
      there is one per element: all of them with no bound, the first
      `min(k, count)` with a bound `k >= 0`, and all but the last `-k`
      (none when `-k >= count`) with a negative bound `k`. It fails exactly
      when the rewrite does. */
  lemma HierarchyLinesCount(root: Node, nss: seq<string>, rng: Option<int>)
    ensures HierarchyLines(root, nss, rng).Ok? <==> RewriteLines(Printable(root, 0), nss).Ok?
    ensures HierarchyLines(root, nss, rng).Ok? ==>
              var all := RewriteLines(Printable(root, 0), nss).value;
              var out := HierarchyLines(root, nss, rng).value;
              && |all| == NodeCount(root)
              && |out| <= |all| && out == all[..|out|]
              && (rng.None? ==> |out| == NodeCount(root))
              && (rng.Some? && rng.value >= 0 ==>
                    |out| == if rng.value < NodeCount(root) then rng.value else NodeCount(root))
              && (rng.Some? && rng.value < 0 ==>
                    |out| == if NodeCount(root) + rng.value > 0 then NodeCount(root) + rng.value else 0)
  {
    PrintableCount(root);
    RewriteLinesSpec(Printable(root, 0), nss);
  }
}
