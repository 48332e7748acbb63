/** The parsed XML response as an ElementTree-like element tree, and the
    three path forms the client uses on it: `.//X` (proper descendants with
    tag X, in document order), `./X` (children with tag X) and `find`
    (the first of them). */
module Tree {
  import opened Wrappers

  /** An element: its tag (`{namespace}local` when qualified), its attributes
      in document order (keys unique, as in the `attrib` dict), its text and
      its children. */
  datatype Node = Node(tag: string, attrib: seq<(string, string)>, text: Option<string>, children: seq<Node>)

  /** `attrib.get(key)`: the value of the first attribute named `key`. */
  function Attr(attrib: seq<(string, string)>, key: string): Option<string>
  {
    if attrib == [] then None
    else if attrib[0].0 == key then Some(attrib[0].1)
    else Attr(attrib[1..], key)
  }

  /** An attribute is found exactly when some pair has the key, and then
      its value is that of the first such pair. */
  lemma {:induction false} AttrSpec(attrib: seq<(string, string)>, key: string)
    ensures Attr(attrib, key).Some? <==> exists i :: 0 <= i < |attrib| && attrib[i].0 == key
    ensures Attr(attrib, key).Some? ==>
              exists i :: 0 <= i < |attrib| && attrib[i] == (key, Attr(attrib, key).value)
                          && forall j :: 0 <= j < i ==> attrib[j].0 != key
  {
    if attrib != [] && attrib[0].0 != key {
      AttrSpec(attrib[1..], key);
      assert forall i :: 1 <= i < |attrib| ==> attrib[i] == attrib[1..][i - 1];
      if Attr(attrib, key).Some? {
        var i :| 0 <= i < |attrib[1..]| && attrib[1..][i] == (key, Attr(attrib, key).value)
                 && forall j :: 0 <= j < i ==> attrib[1..][j].0 != key;
        assert attrib[i + 1] == (key, Attr(attrib, key).value);
      }
    } else if attrib != [] {
      assert attrib[0] == (key, Attr(attrib, key).value);
    }
  }

  /** `element.iter()`: the element and all its descendants, in pre-order. */
  function PreOrder(n: Node): seq<Node>
    decreases n, 1
  {
    [n] + PreOrderAll(n.children)
  }

  function PreOrderAll(ns: seq<Node>): seq<Node>
    decreases ns, 0
  {
    if ns == [] then [] else PreOrder(ns[0]) + PreOrderAll(ns[1..])
  }

  /** Number of elements of a tree, counted structurally. */
  function NodeCount(n: Node): nat
    decreases n, 1
  {
    1 + NodeCountAll(n.children)
  }

  function NodeCountAll(ns: seq<Node>): nat
    decreases ns, 0
  {
    if ns == [] then 0 else NodeCount(ns[0]) + NodeCountAll(ns[1..])
  }

  /** The pre-order walk visits every element exactly once, the root first. */
  lemma {:induction false} PreOrderSize(n: Node)
    ensures |PreOrder(n)| == NodeCount(n) && PreOrder(n)[0] == n
    decreases n, 1
  {
    PreOrderAllSize(n.children);
  }

  lemma {:induction false} PreOrderAllSize(ns: seq<Node>)
    ensures |PreOrderAll(ns)| == NodeCountAll(ns)
    decreases ns, 0
  {
    if ns != [] {
      PreOrderSize(ns[0]);
      PreOrderAllSize(ns[1..]);
    }
  }

  /** The elements of `ns` whose tag is `tag`, in order. */
  function Tagged(ns: seq<Node>, tag: string): seq<Node>
  {
    if ns == [] then []
    else (if ns[0].tag == tag then [ns[0]] else []) + Tagged(ns[1..], tag)
  }

  /** Filtering keeps exactly the elements with the tag, in their order. */
  lemma {:induction false} TaggedSpec(ns: seq<Node>, tag: string)
    ensures |Tagged(ns, tag)| <= |ns|
    ensures forall x :: x in Tagged(ns, tag) <==> x in ns && x.tag == tag
  {
    if ns != [] {
      TaggedSpec(ns[1..], tag);
      assert ns == [ns[0]] + ns[1..];
    }
  }

  /** Filtering a concatenation filters each part and keeps them in order.
      With TaggedSingle, this fixes the order and the multiplicity of the
      elements `findall` returns. */
  lemma {:induction false} TaggedAppend(a: seq<Node>, b: seq<Node>, tag: string)
    ensures Tagged(a + b, tag) == Tagged(a, tag) + Tagged(b, tag)
    decreases |a|
  {
    if a == [] {
      assert a + b == b;
    } else {
      var head := if a[0].tag == tag then [a[0]] else [];
      assert (a + b)[0] == a[0] && (a + b)[1..] == a[1..] + b;
      TaggedAppend(a[1..], b, tag);
      calc {
        Tagged(a + b, tag);
        head + Tagged(a[1..] + b, tag);
        head + (Tagged(a[1..], tag) + Tagged(b, tag));
        (head + Tagged(a[1..], tag)) + Tagged(b, tag);
        Tagged(a, tag) + Tagged(b, tag);
      }
    }
  }

  /** The filter of one element is that element when it has the tag, and
      nothing otherwise. */
  lemma TaggedSingle(x: Node, tag: string)
    ensures Tagged([x], tag) == if x.tag == tag then [x] else []
  {
    assert [x][1..] == [];
  }

  /** `element.findall("./" + tag)`. */
  function ChildrenTagged(n: Node, tag: string): seq<Node>
  {
    Tagged(n.children, tag)
  }

  /** `element.findall(".//" + tag)`: proper descendants, in document order. */
  function DescendantsTagged(n: Node, tag: string): seq<Node>
  {
    Tagged(PreOrder(n)[1..], tag)
  }

  /** `element.find("./" + tag)`. */
  function FindChild(n: Node, tag: string): Option<Node>
  {
    var found := ChildrenTagged(n, tag);
    if found == [] then None else Some(found[0])
  }
}
