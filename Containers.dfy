/**
 * The child list of a container element and the `with` family that appends to it.
 *
 * Children are object references, so that appending a container to itself can be recognised by
 * reference identity, as the source does. The bulk forms are specified by `AppendEach`, a fold of
 * the single `with` over the given children.
 */
module Containers {
  import opened Wrappers
  import Tags

  /** The message of the exception a self-append throws. */
  const SelfAppendMessage: string := "Cannot append a tag to itself."

  /** A text leaf, `new Text(text)`; how it escapes and renders itself is not part of this model. */
  class Text {
    const text: string

    constructor(text: string)
      ensures this.text == text
    {
      this.text := text;
    }
  }

  /** The entries of `cs` that are not null, in their order. */
  function NonNull(cs: seq<object?>): (r: seq<object>)
    ensures |r| <= |cs|
    ensures forall i :: 0 <= i < |r| ==> r[i] in cs
    ensures forall i :: 0 <= i < |cs| && cs[i] != null ==> cs[i] in r
  {
    if cs == [] then []
    else (if cs[0] == null then [] else [cs[0]]) + NonNull(cs[1..])
  }

  /** Filtering a concatenation filters each part: order and repetitions are kept. */
  lemma {:induction false} NonNullAppend(a: seq<object?>, b: seq<object?>)
    ensures NonNull(a + b) == NonNull(a) + NonNull(b)
  {
    if a == [] {
      assert a + b == b;
    } else {
      assert (a + b)[1..] == a[1..] + b;
      NonNullAppend(a[1..], b);
    }
  }

  /** A single entry is dropped exactly when it is null. */
  lemma NonNullSingle(x: object?)
    ensures NonNull([x]) == if x == null then [] else [x]
  {
    assert [x][1..] == [];
  }

  /** The children a run of appends leaves, and whether the run stopped by throwing. */
  datatype AppendResult = AppendResult(children: seq<object>, failed: bool)

  /**
   * Appending each of `cs` in order to `children` of a container, as the bulk `with` forms do: a
   * null is skipped, and the first reference to the container itself (any of the references in
   * `self`) throws, leaving the children appended before it in place.
   */
  function AppendEach(children: seq<object>, self: set<object>, cs: seq<object?>): (r: AppendResult)
    decreases |cs|
    ensures r.failed <==> exists i :: 0 <= i < |cs| && cs[i] in self
    ensures !r.failed ==> r.children == children + NonNull(cs)
    ensures |children| <= |r.children| && r.children[..|children|] == children
  {
    if cs == [] then AppendResult(children, false)
    else if cs[0] in self then AppendResult(children, true)
    else
      assert cs == [cs[0]] + cs[1..];
      assert NonNull(cs) == (if cs[0] == null then [] else [cs[0]]) + NonNull(cs[1..]);
      AppendEach(if cs[0] == null then children else children + [cs[0]], self, cs[1..])
  }

  /** Appending a concatenation is appending the first part, then, unless it threw, the second. */
  lemma {:induction false} AppendEachConcat(children: seq<object>, self: set<object>, a: seq<object?>, b: seq<object?>)
    decreases |a|
    ensures AppendEach(children, self, a + b) ==
      var first := AppendEach(children, self, a);
      if first.failed then first else AppendEach(first.children, self, b)
  {
    if a == [] {
      assert a + b == b;
    } else {
      assert (a + b)[1..] == a[1..] + b;
      if a[0] !in self {
        AppendEachConcat(if a[0] == null then children else children + [a[0]], self, a[1..], b);
      }
    }
  }

  /** A self-reference at position `k` keeps exactly the non-null children before it, and throws. */
  lemma AppendEachStopsAtSelf(children: seq<object>, self: set<object>, cs: seq<object?>, k: nat)
    requires k < |cs| && cs[k] in self && forall i :: 0 <= i < k ==> cs[i] !in self
    ensures AppendEach(children, self, cs) == AppendResult(children + NonNull(cs[..k]), true)
  {
    assert cs == cs[..k] + cs[k..];
    AppendEachConcat(children, self, cs[..k], cs[k..]);
  }

  /** `ContainerTag`: an element whose children are appended in place. */
  class ContainerTag {
    /** The tag name and attributes (the `Tag` part of the object). */
    const element: Tags.Tag
    var children: seq<object>

    /** The references that stand for this one Java object: the container and its `Tag` part. */
    function Self(): set<object> {
      {this, element}
    }

    constructor(tagName: Option<string>)
      ensures fresh(element) && element.tagName == tagName && element.attrs == []
      ensures children == []
    {
      element := new Tags.Tag(tagName);
      children := [];
    }

    /** `with(child)`: a self-append throws; a null child is ignored; otherwise it goes last. */
    method With(child: object?) returns (r: Outcome)
      modifies this
      ensures r == if child in Self() then Fail(SelfAppendMessage) else Pass
      ensures children == if child in Self() || child == null then old(children) else old(children) + [child]
    {
      if child == this || child == element {
        return Fail(SelfAppendMessage);
      }
      if child == null {
        return Pass;
      }
      children := children + [child];
      return Pass;
    }

    /** `with(DomContent...)`: `with` for each child in order, until one throws. */
    method WithEach(cs: seq<object?>) returns (r: Outcome)
      modifies this
      ensures var res := AppendEach(old(children), Self(), cs);
        children == res.children && r == if res.failed then Fail(SelfAppendMessage) else Pass
    {
      var i := 0;
      while i < |cs|
        invariant 0 <= i <= |cs|
        invariant AppendEach(old(children), Self(), cs) == AppendEach(children, Self(), cs[i..])
      {
        ghost var before := children;
        assert cs[i..][0] == cs[i] && cs[i..][1..] == cs[i + 1..];
        r := With(cs[i]);
        if r.Fail? {
          assert AppendEach(before, Self(), cs[i..]) == AppendResult(before, true);
          return;
        }
        assert AppendEach(before, Self(), cs[i..]) == AppendEach(children, Self(), cs[i + 1..]);
        i := i + 1;
      }
      return Pass;
    }

    /** `with(Iterable)`: a null iterable is ignored; otherwise as `with(DomContent...)`. */
    method WithIterable(cs: Option<seq<object?>>) returns (r: Outcome)
      modifies this
      ensures cs.None? ==> r == Pass && children == old(children)
      ensures cs.Some? ==> var res := AppendEach(old(children), Self(), cs.value);
        children == res.children && r == if res.failed then Fail(SelfAppendMessage) else Pass
    {
      if cs.None? {
        return Pass;
      }
      r := WithEach(cs.value);
    }

    /** `condWith(condition, child)`. */
    method CondWith(condition: bool, child: object?) returns (r: Outcome)
      modifies this
      ensures !condition ==> r == Pass && children == old(children)
      ensures condition ==> r == if child in Self() then Fail(SelfAppendMessage) else Pass
      ensures condition ==>
        children == if child in Self() || child == null then old(children) else old(children) + [child]
    {
      r := Pass;
      if condition {
        r := With(child);
      }
    }

    /** `condWith(condition, Iterable)`. */
    method CondWithIterable(condition: bool, cs: Option<seq<object?>>) returns (r: Outcome)
      modifies this
      ensures !condition || cs.None? ==> r == Pass && children == old(children)
      ensures condition && cs.Some? ==> var res := AppendEach(old(children), Self(), cs.value);
        children == res.children && r == if res.failed then Fail(SelfAppendMessage) else Pass
    {
      r := Pass;
      if condition {
        r := WithIterable(cs);
      }
    }

    /** `condWith(condition, DomContent...)`. */
    method CondWithEach(condition: bool, cs: seq<object?>) returns (r: Outcome)
      modifies this
      ensures !condition ==> r == Pass && children == old(children)
      ensures condition ==> var res := AppendEach(old(children), Self(), cs);
        children == res.children && r == if res.failed then Fail(SelfAppendMessage) else Pass
    {
      r := Pass;
      if condition {
        r := WithEach(cs);
      }
    }

    /** `withText`: appends a new text leaf, which is never this container and never null. */
    method WithText(text: string) returns (leaf: Text)
      modifies this
      ensures fresh(leaf) && leaf.text == text
      ensures children == old(children) + [leaf]
    {
      leaf := new Text(text);
      var r := With(leaf);
    }

    /** `getNumChildren`. */
    method GetNumChildren() returns (n: nat)
      ensures n == |children|
    {
      n := |children|;
    }
  }
}
