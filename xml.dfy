/** The element tree the generator builds. Rendering a tree to XML text
    (escaping, the declaration line, whitespace) is not part of this model. */
module Xml {

  import opened Wrappers

  datatype Attr = Attr(name: string, value: string)

  /** An element with its attributes, its child elements in document order
      and its text content ("" for none). */
  datatype Element = Element(name: string, attrs: seq<Attr>, children: seq<Element>, text: string)

  /** `addChild(name, text)`: an element holding only text. */
  function Leaf(name: string, text: string): Element {
    Element(name, [], [], text)
  }

  /** `addChild(name)` followed by further `addChild` calls on the result. */
  function Branch(name: string, children: seq<Element>): Element {
    Element(name, [], children, "")
  }

  /** The names of a list of elements, in order. */
  function Names(es: seq<Element>): (ns: seq<string>)
    ensures |ns| == |es|
    ensures forall i :: 0 <= i < |es| ==> ns[i] == es[i].name
  {
    if es == [] then [] else [es[0].name] + Names(es[1..])
  }

  /** The first child called `name`, as a SimpleXML property access `$e->name` finds it. */
  function Child(e: Element, name: string): (r: Option<Element>)
    ensures r.Some? ==> r.value in e.children && r.value.name == name
  {
    FirstNamed(e.children, name)
  }

  function FirstNamed(es: seq<Element>, name: string): (r: Option<Element>)
    ensures r.Some? ==> r.value in es && r.value.name == name
  {
    if es == [] then None
    else if es[0].name == name then Some(es[0])
    else FirstNamed(es[1..], name)
  }

  /** The first element called `name` is the one at `i` when none before
      it has that name. */
  lemma {:induction false} FirstNamedAt(es: seq<Element>, i: nat, name: string)
    requires i < |es| && es[i].name == name
    requires forall j :: 0 <= j < i ==> es[j].name != name
    ensures FirstNamed(es, name) == Some(es[i])
  {
    if i > 0 {
      FirstNamedAt(es[1..], i - 1, name);
    }
  }

  /** No two of the elements share a name. */
  predicate DistinctNames(es: seq<Element>) {
    forall i, j :: 0 <= i < j < |es| ==> es[i].name != es[j].name
  }

  /** Among elements with distinct names, looking one up by its name finds it. */
  lemma FirstNamedDistinct(es: seq<Element>, i: nat)
    requires DistinctNames(es) && i < |es|
    ensures FirstNamed(es, es[i].name) == Some(es[i])
  {
    FirstNamedAt(es, i, es[i].name);
  }

  /** Among elements whose first `k` have distinct names, looking one of
      those up by its name finds it, whatever follows them. */
  lemma FirstNamedDistinctPrefix(es: seq<Element>, k: nat, i: nat)
    requires k <= |es| && DistinctNames(es[..k]) && i < k
    ensures FirstNamed(es, es[i].name) == Some(es[i])
  {
    forall j | 0 <= j < i ensures es[j].name != es[i].name {
      assert es[j] == es[..k][j] && es[i] == es[..k][i];
    }
    FirstNamedAt(es, i, es[i].name);
  }

  /** No element called `name` is found exactly when no element has that name. */
  lemma {:induction false} FirstNamedMissing(es: seq<Element>, name: string)
    ensures FirstNamed(es, name).None? <==> name !in Names(es)
  {
    if es != [] {
      FirstNamedMissing(es[1..], name);
      assert Names(es) == [es[0].name] + Names(es[1..]);
    }
  }

  /** Follows a path of child names from `e`, first match at each step. */
  function At(e: Element, path: seq<string>): Option<Element>
  {
    if path == [] then Some(e)
    else match Child(e, path[0])
         case None => None
         case Some(c) => At(c, path[1..])
  }

  /** Following a path from an element whose first child is the next step
      leads into that child. */
  lemma PathOfTwo(e: Element, a: string, b: string)
    requires |e.children| >= 1 && e.children[0].name == a
    requires |e.children[0].children| >= 1 && e.children[0].children[0].name == b
    ensures At(e, [a, b]) == Some(e.children[0].children[0])
  {
    var c, d := e.children[0], e.children[0].children[0];
    FirstNamedAt(e.children, 0, a);
    FirstNamedAt(c.children, 0, b);
    assert Child(e, a) == Some(c) && Child(c, b) == Some(d);
    assert [b][1..] == [];
    assert At(c, [b]) == At(d, []);
    assert [a, b][1..] == [b];
    assert At(e, [a, b]) == At(c, [b]);
  }

  /** How many of the elements are called `name`. */
  function CountNamed(es: seq<Element>, name: string): (n: nat)
    ensures n <= |es|
  {
    if es == [] then 0
    else (if es[0].name == name then 1 else 0) + CountNamed(es[1..], name)
  }

  /** A name none of the elements has is counted zero times. */
  lemma {:induction false} CountNamedAbsent(es: seq<Element>, name: string)
    requires forall i :: 0 <= i < |es| ==> es[i].name != name
    ensures CountNamed(es, name) == 0
  {
    if es != [] {
      CountNamedAbsent(es[1..], name);
    }
  }

  lemma {:induction false} CountNamedConcat(a: seq<Element>, b: seq<Element>, name: string)
    ensures CountNamed(a + b, name) == CountNamed(a, name) + CountNamed(b, name)
  {
    if a == [] {
      assert a + b == b;
    } else {
      assert (a + b)[0] == a[0];
      assert (a + b)[1..] == a[1..] + b;
      CountNamedConcat(a[1..], b, name);
    }
  }

  /** An element under construction: a SimpleXML node whose list of children
      grows as `addChild` is called on it. */
  class Node {
    const name: string
    const attrs: seq<Attr>
    const text: string
    var children: seq<Element>

    constructor (name: string)
      ensures Value() == Branch(name, [])
    {
      this.name := name;
      this.attrs := [];
      this.text := "";
      this.children := [];
    }

    /** The element this node currently stands for. */
    function Value(): Element
      reads this
    {
      Element(name, attrs, children, text)
    }

    /** `addChild`: the new child goes after every existing child. */
    method AddChild(child: Element)
      modifies this`children
      ensures children == old(children) + [child]
    {
      children := children + [child];
    }
  }
}
