/**
 * The two renderers of a container tree: compact (`renderModel`, and `render`, which `equals`
 * compares) and indented (`renderFormatted`).
 *
 * The tree is a value: a container is its tag name, its attributes and its children; every child
 * that is not a container is a leaf. The renderers call three collaborators that this model does
 * not define, passed in as `Collaborators`: the rendering of one attribute, the rendering of a leaf
 * and the indenter. Nothing is assumed about them except where a lemma says so in its `requires`.
 */
module Rendering {
  import opened Wrappers
  import opened Tags

  /**
   * A node of the document tree. A leaf is any child that is not a container: text, or a tag
   * without children such as an empty tag (`isTag`); the leaf collaborator renders it from `content`.
   */
  datatype Node =
    | Leaf(content: string, isTag: bool)
    | Container(tagName: Option<string>, attrs: seq<Attribute>, children: seq<Node>)

  /** Whether the node is a `Tag` object (a container or a tag leaf), as `instanceof Tag` asks. */
  predicate IsTag(n: Node) {
    n.Container? || n.isTag
  }

  /** The collaborators: `Attribute.renderModel`, `render` of a leaf, and `Config.indenter.indent`. */
  datatype Collaborators = Collaborators(
    attribute: Attribute -> string,
    leaf: string -> string,
    indent: (nat, string) -> string)

  /** `textarea` and `pre` keep their content exactly as rendered. */
  function IsSelfFormatting(tagName: Option<string>): (b: bool)
    ensures b <==> tagName == Some("textarea") || tagName == Some("pre")
    ensures b ==> HasTagName(tagName)
  {
    tagName == Some("textarea") || tagName == Some("pre")
  }

  // ---------------------------------------------------------------------------------------------
  // Compact rendering

  /** `renderModel`: the open tag, each child's rendering in order, the close tag. */
  function Render(h: Collaborators, n: Node): (r: string)
    decreases n, 1
    ensures n.Container? && !HasTagName(n.tagName) ==> r == RenderChildren(h, n.children)
  {
    match n
    case Leaf(content, _) => h.leaf(content)
    case Container(tagName, attrs, children) =>
      OpenTag(h.attribute, tagName, attrs) + RenderChildren(h, children) + CloseTag(tagName)
  }

  /** The children rendered one after another, with nothing between them. */
  function RenderChildren(h: Collaborators, cs: seq<Node>): (r: string)
    decreases cs, 2
    ensures cs == [] ==> r == ""
    ensures |cs| == 1 ==> r == Render(h, cs[0])
  {
    if cs == [] then ""
    else
      assert |cs| == 1 ==> cs[1..] == [];
      Render(h, cs[0]) + RenderChildren(h, cs[1..])
  }

  /** Rendering the children of a concatenation concatenates their renderings. */
  lemma {:induction false} RenderChildrenAppend(h: Collaborators, a: seq<Node>, b: seq<Node>)
    ensures RenderChildren(h, a + b) == RenderChildren(h, a) + RenderChildren(h, b)
  {
    if a == [] {
      assert a + b == b;
    } else {
      assert (a + b)[1..] == a[1..] + b;
      RenderChildrenAppend(h, a[1..], b);
    }
  }

  /** A child fragment contributes exactly its own children: removing the wrapper changes nothing. */
  lemma FragmentIsTransparent(h: Collaborators, n: Node, pre: seq<Node>, fragment: Node, post: seq<Node>)
    requires n.Container? && fragment.Container? && !HasTagName(fragment.tagName)
    ensures Render(h, n.(children := pre + [fragment] + post)) ==
            Render(h, n.(children := pre + fragment.children + post))
  {
    RenderChildrenAppend(h, pre + [fragment], post);
    RenderChildrenAppend(h, pre, [fragment]);
    RenderChildrenAppend(h, pre + fragment.children, post);
    RenderChildrenAppend(h, pre, fragment.children);
    assert RenderChildren(h, [fragment]) == Render(h, fragment) by {
      assert [fragment][1..] == [];
    }
  }

  /** `equals`: another tag is equal when both render to the same string; null or a non-tag is not. */
  function TagEquals(h: Collaborators, t: Node, obj: Option<Node>): (b: bool)
    requires IsTag(t)
    ensures b <==> obj.Some? && IsTag(obj.value) && Render(h, obj.value) == Render(h, t)
  {
    match obj
    case None => false
    case Some(o) => IsTag(o) && Render(h, o) == Render(h, t)
  }

  /** Equality is by rendering only: a fragment holding one tag leaf equals that tag, both ways. */
  lemma TagEqualsAcrossKinds(h: Collaborators, leaf: Node)
    requires leaf.Leaf? && leaf.isTag
    ensures TagEquals(h, Container(None, [], [leaf]), Some(leaf))
    ensures TagEquals(h, leaf, Some(Container(None, [], [leaf])))
  {
    assert [leaf][..0] == [];
    assert Render(h, Container(None, [], [leaf])) == Render(h, leaf);
  }

  /** Tags that differ only by fragments wrapped around some children are equal. */
  lemma EqualsIgnoresFragments(h: Collaborators, n: Node, pre: seq<Node>, fragment: Node, post: seq<Node>)
    requires n.Container? && fragment.Container? && !HasTagName(fragment.tagName)
    ensures TagEquals(h, n.(children := pre + [fragment] + post), Some(n.(children := pre + fragment.children + post)))
  {
    FragmentIsTransparent(h, n, pre, fragment, post);
  }

  // ---------------------------------------------------------------------------------------------
  // Formatted rendering

  /**
   * `renderFormatted(lvl)`: the open tag, a newline unless the tag is a fragment or self-formatting,
   * the formatted children, the indentation of `lvl` unless self-formatting, the close tag, and a
   * newline unless a fragment. `renderFormatted()` is this at level 0.
   */
  function Formatted(h: Collaborators, n: Node, lvl: nat): (r: string)
    requires n.Container?
    decreases n, 0
    ensures !HasTagName(n.tagName) ==> r == FormattedChildren(h, false, n.children, lvl) + h.indent(lvl, "")
    ensures HasTagName(n.tagName) ==> |r| > 0 && r[|r| - 1] == '\n'
  {
    var verbatim := IsSelfFormatting(n.tagName);
    OpenTag(h.attribute, n.tagName, n.attrs)
    + (if HasTagName(n.tagName) && !verbatim then "\n" else "")
    + FormattedChildren(h, verbatim, n.children, lvl)
    + (if verbatim then "" else h.indent(lvl, ""))
    + CloseTag(n.tagName)
    + (if HasTagName(n.tagName) then "\n" else "")
  }

  /**
   * One child of a container at level `lvl`, with the level raised by one for the child: a
   * tag-bearing container is formatted and indented at the raised level, a fragment one level
   * lower (at `lvl` itself), a leaf inside a self-formatting tag is indented by 0 with nothing
   * added, and any other leaf is indented at the raised level and followed by a newline.
   */
  function FormattedChild(h: Collaborators, verbatim: bool, c: Node, lvl: nat): (r: string)
    decreases c, 1
    ensures c.Leaf? && verbatim ==> r == h.indent(0, Render(h, c))
    ensures c.Leaf? && !verbatim ==> |r| > 0 && r[|r| - 1] == '\n'
  {
    match c
    case Container(tagName, _, _) =>
      if HasTagName(tagName) then h.indent(lvl + 1, Formatted(h, c, lvl + 1))
      else h.indent(lvl, Formatted(h, c, lvl))
    case Leaf(content, _) =>
      if verbatim then h.indent(0, h.leaf(content))
      else h.indent(lvl + 1, h.leaf(content)) + "\n"
  }

  /** The children formatted one after another; each starts again from the container's level. */
  function FormattedChildren(h: Collaborators, verbatim: bool, cs: seq<Node>, lvl: nat): (r: string)
    decreases cs, 2
    ensures cs == [] ==> r == ""
    ensures |cs| == 1 ==> r == FormattedChild(h, verbatim, cs[0], lvl)
  {
    if cs == [] then ""
    else
      assert |cs| == 1 ==> cs[1..] == [];
      FormattedChild(h, verbatim, cs[0], lvl) + FormattedChildren(h, verbatim, cs[1..], lvl)
  }

  /** The level is scoped per child: formatting a concatenation concatenates the formattings. */
  lemma {:induction false} FormattedChildrenAppend(h: Collaborators, verbatim: bool, a: seq<Node>, b: seq<Node>, lvl: nat)
    ensures FormattedChildren(h, verbatim, a + b, lvl) ==
            FormattedChildren(h, verbatim, a, lvl) + FormattedChildren(h, verbatim, b, lvl)
  {
    if a == [] {
      assert a + b == b;
    } else {
      assert (a + b)[1..] == a[1..] + b;
      FormattedChildrenAppend(h, verbatim, a[1..], b, lvl);
    }
  }

  /**
   * The frame around the children: a tag-bearing element that is not self-formatting starts with
   * its open tag and a newline and ends with the indentation of its own level, its close tag and a
   * newline; a self-formatting one adds nothing between its tags and its children.
   */
  lemma FormattedFrame(h: Collaborators, n: Node, lvl: nat)
    requires n.Container? && HasTagName(n.tagName)
    ensures var open, close := OpenTag(h.attribute, n.tagName, n.attrs), CloseTag(n.tagName);
      !IsSelfFormatting(n.tagName) ==>
        Formatted(h, n, lvl) ==
          open + "\n" + FormattedChildren(h, false, n.children, lvl) + h.indent(lvl, "") + close + "\n"
    ensures var open, close := OpenTag(h.attribute, n.tagName, n.attrs), CloseTag(n.tagName);
      IsSelfFormatting(n.tagName) ==>
        Formatted(h, n, lvl) == open + FormattedChildren(h, true, n.children, lvl) + close + "\n"
  {
  }

  /**
   * At the root of a parent that is not `textarea` or `pre`, with an indenter that leaves level 0
   * alone, a fragment child formats exactly as its own children would in its place.
   */
  lemma FormattedFragmentAtRoot(h: Collaborators, n: Node, pre: seq<Node>, fragment: Node, post: seq<Node>)
    requires forall s :: h.indent(0, s) == s
    requires n.Container? && !IsSelfFormatting(n.tagName)
    requires fragment.Container? && !HasTagName(fragment.tagName)
    ensures Formatted(h, n.(children := pre + [fragment] + post), 0) ==
            Formatted(h, n.(children := pre + fragment.children + post), 0)
  {
    FormattedChildrenAppend(h, false, pre + [fragment], post, 0);
    FormattedChildrenAppend(h, false, pre, [fragment], 0);
    FormattedChildrenAppend(h, false, pre + fragment.children, post, 0);
    FormattedChildrenAppend(h, false, pre, fragment.children, 0);
    assert FormattedChildren(h, false, [fragment], 0) == FormattedChildren(h, false, fragment.children, 0) by {
      assert [fragment][1..] == [];
      assert FormattedChild(h, false, fragment, 0) == Formatted(h, fragment, 0);
    }
  }

  /** Every child is a leaf (no child is a container). */
  predicate AllLeaves(cs: seq<Node>) {
    forall i :: 0 <= i < |cs| ==> cs[i].Leaf?
  }

  /** Leaves inside a self-formatting tag come out the same at every level. */
  lemma {:induction false} VerbatimLeavesIgnoreLevel(h: Collaborators, cs: seq<Node>, lvl: nat, lvl': nat)
    requires AllLeaves(cs)
    ensures FormattedChildren(h, true, cs, lvl) == FormattedChildren(h, true, cs, lvl')
  {
    if cs != [] {
      VerbatimLeavesIgnoreLevel(h, cs[1..], lvl, lvl');
    }
  }

  /** With an indenter that leaves level 0 alone, leaves inside a self-formatting tag are their render. */
  lemma {:induction false} VerbatimLeavesAsRendered(h: Collaborators, cs: seq<Node>, lvl: nat)
    requires forall s :: h.indent(0, s) == s
    requires AllLeaves(cs)
    ensures FormattedChildren(h, true, cs, lvl) == RenderChildren(h, cs)
  {
    if cs != [] {
      VerbatimLeavesAsRendered(h, cs[1..], lvl);
    }
  }

  /**
   * With an indenter that leaves level 0 alone, a `textarea` or `pre` holding only leaves formats,
   * at any level, as its compact rendering and one newline: nothing is inserted into its content.
   */
  lemma SelfFormattingPreservesContent(h: Collaborators, n: Node, lvl: nat)
    requires forall s :: h.indent(0, s) == s
    requires n.Container? && IsSelfFormatting(n.tagName) && AllLeaves(n.children)
    ensures Formatted(h, n, lvl) == Render(h, n) + "\n"
  {
    VerbatimLeavesAsRendered(h, n.children, lvl);
  }

  // ---------------------------------------------------------------------------------------------
  // Worked examples

  /**
   * Collaborators for the examples: an attribute renders as ` name` or ` name="value"`, a leaf as
   * its text, and the indenter puts two spaces per level before the fragment.
   */
  function Sample(): Collaborators {
    Collaborators(SampleAttribute, SampleLeaf, SampleIndent)
  }

  function SampleAttribute(a: Attribute): string {
    " " + a.name + (if a.value.Some? then "=\"" + a.value.value + "\"" else "")
  }

  function SampleLeaf(s: string): string {
    s
  }

  function SampleIndent(lvl: nat, s: string): string {
    Spaces(2 * lvl) + s
  }

  function Spaces(n: nat): string {
    if n == 0 then "" else " " + Spaces(n - 1)
  }

  /** `div` with `class="x"` and the text `hi` renders compactly as `<div class="x">hi</div>`. */
  lemma CompactDivExample()
    ensures Render(Sample(), Container(Some("div"), [Attribute("class", Some("x"))], [Leaf("hi", false)])) ==
            "<div class=\"x\">hi</div>"
  {
    var h := Sample();
    var cls := Attribute("class", Some("x"));
    var n := Container(Some("div"), [cls], [Leaf("hi", false)]);
    var attrs := RenderAttrs(h.attribute, [cls]);
    assert attrs == " class=\"x\"" by {
      assert [cls][1..] == [];
      assert RenderAttrs(h.attribute, []) == "";
      assert h.attribute(cls) == SampleAttribute(cls) == " class=\"x\"";
    }
    var children := RenderChildren(h, [Leaf("hi", false)]);
    assert children == "hi" by {
      assert [Leaf("hi", false)][1..] == [];
    }
    assert Render(h, n) == "<" + "div" + attrs + ">" + children + CloseTag(Some("div"));
    DivClassLayout(attrs, children, CloseTag(Some("div")));
  }

  /** The string arithmetic of the example above. */
  lemma DivClassLayout(attrs: string, children: string, close: string)
    requires attrs == " class=\"x\"" && children == "hi" && close == "</div>"
    ensures "<" + "div" + attrs + ">" + children + close == "<div class=\"x\">hi</div>"
  {
  }

  /** A fragment holding `a` and `b` renders compactly as `ab`. */
  lemma CompactFragmentExample()
    ensures Render(Sample(), Container(None, [], [Leaf("a", false), Leaf("b", false)])) == "ab"
  {
    var h := Sample();
    assert RenderChildren(h, [Leaf("b", false)]) == "b";
    assert RenderChildren(h, [Leaf("a", false), Leaf("b", false)]) == "ab";
  }

  /** An empty `span` at level 1 puts its close tag on a line of its own, indented at level 1. */
  lemma FormattedEmptySpanExample()
    ensures Formatted(Sample(), Container(Some("span"), [], []), 1) == "<span>\n  </span>\n"
  {
    var h := Sample();
    var span := Container(Some("span"), [], []);
    assert Spaces(2) == "  ";
    assert OpenTag(h.attribute, span.tagName, []) == "<span>";
    assert h.indent(1, "") == "  ";
    FormattedFrame(h, span, 1);
  }

  /** As the only child of a level-0 container, the empty `span` is indented by one level. */
  lemma FormattedSpanChildExample()
    ensures FormattedChildren(Sample(), false, [Container(Some("span"), [], [])], 0) == "  <span>\n  </span>\n"
  {
    var h := Sample();
    var span := Container(Some("span"), [], []);
    var inner := Formatted(h, span, 1);
    FormattedEmptySpanExample();
    assert [span][1..] == [];
    assert FormattedChildren(h, false, [], 0) == "";
    assert FormattedChildren(h, false, [span], 0) == FormattedChild(h, false, span, 0) + "";
    assert FormattedChild(h, false, span, 0) == Spaces(2) + inner;
    assert Spaces(2) == "  ";
    SpanChildLayout(Spaces(2), inner);
  }

  /** The string arithmetic of the example above. */
  lemma SpanChildLayout(pad: string, inner: string)
    requires pad == "  " && inner == "<span>\n  </span>\n"
    ensures pad + inner + "" == "  <span>\n  </span>\n"
  {
  }

  /**
   * `div` holding an empty `span` formats with the span's close tag on a line of its own, indented
   * at the span's level: the empty child still gets the newline after its open tag.
   */
  lemma FormattedDivExample()
    ensures Formatted(Sample(), Container(Some("div"), [], [Container(Some("span"), [], [])]), 0) ==
            "<div>\n  <span>\n  </span>\n</div>\n"
  {
    var h := Sample();
    var div := Container(Some("div"), [], [Container(Some("span"), [], [])]);
    FormattedSpanChildExample();
    var open, close := OpenTag(h.attribute, div.tagName, []), CloseTag(div.tagName);
    assert open == "<div>" && close == "</div>";
    assert h.indent(0, "") == "";
    FormattedFrame(h, div, 0);
    DivLayout(open, FormattedChildren(h, false, div.children, 0), h.indent(0, ""), close);
  }

  /** The string arithmetic of the example above. */
  lemma DivLayout(open: string, children: string, pad: string, close: string)
    requires open == "<div>" && children == "  <span>\n  </span>\n" && pad == "" && close == "</div>"
    ensures open + "\n" + children + pad + close + "\n" == "<div>\n  <span>\n  </span>\n</div>\n"
  {
  }
}
