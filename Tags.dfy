/**
 * The element part of the HTML builder: a tag name and an ordered list of attributes.
 *
 * The attribute list is specified by pure functions on `seq<Attribute>` (SetAttr, ReplaceAttr and
 * the queries); the class `Tag` keeps the list as a field and changes it in place with loops, and
 * each of its mutators is proved to leave exactly the list the specifying function describes.
 */
module Tags {
  import opened Wrappers
  import Strings

  /** An attribute: a name and an optional value (a valueless one renders as its bare name). */
  datatype Attribute = Attribute(name: string, value: Option<string>)

  /** Whether open and close tags are emitted at all; a tag without a name is a fragment. */
  function HasTagName(tagName: Option<string>): (b: bool)
    ensures b <==> tagName.Some? && |tagName.value| > 0
  {
    match tagName
    case None => false
    case Some(t) => t != ""
  }

  // ---------------------------------------------------------------------------------------------
  // Queries

  /** The index of the first attribute called `name`, if there is one. */
  function FirstNamed(attrs: seq<Attribute>, name: string): (r: Option<nat>)
    ensures r.Some? ==> r.value < |attrs| && attrs[r.value].name == name
    ensures r.Some? ==> forall j :: 0 <= j < r.value ==> attrs[j].name != name
    ensures r.None? <==> forall j :: 0 <= j < |attrs| ==> attrs[j].name != name
  {
    if attrs == [] then None
    else if attrs[0].name == name then Some(0)
    else match FirstNamed(attrs[1..], name)
      case None => None
      case Some(i) => Some(i + 1)
  }

  /** `hasAttr`: the first attribute called `p` exists and carries a value. */
  function HasAttr(attrs: seq<Attribute>, p: string): (b: bool)
    ensures b <==> exists i :: 0 <= i < |attrs| && attrs[i].name == p && attrs[i].value.Some? &&
                             forall j :: 0 <= j < i ==> attrs[j].name != p
    ensures (forall i :: 0 <= i < |attrs| ==> attrs[i].name != p) ==> !b
  {
    match FirstNamed(attrs, p)
    case None => false
    case Some(i) => attrs[i].value.Some?
  }

  /**
   * `attrValue` as written: it maps the first attribute called `p` to its NAME, so it answers `p`
   * itself whenever such an attribute exists, and null otherwise.
   */
  function AttrValue(attrs: seq<Attribute>, p: string): (r: Option<string>)
    ensures r.Some? <==> exists i :: 0 <= i < |attrs| && attrs[i].name == p
    ensures r.Some? ==> r.value == p
  {
    match FirstNamed(attrs, p)
    case None => None
    case Some(i) => Some(attrs[i].name)
  }

  /** `attrValue` as evidently intended: the value of the first attribute called `p`. */
  function AttrValueOf(attrs: seq<Attribute>, p: string): (r: Option<string>)
    ensures r.Some? <==> HasAttr(attrs, p)
    ensures forall i :: 0 <= i < |attrs| && attrs[i].name == p && (forall j :: 0 <= j < i ==> attrs[j].name != p)
                        ==> r == attrs[i].value
  {
    match FirstNamed(attrs, p)
    case None => None
    case Some(i) => attrs[i].value
  }

  /** The as-written query answers the attribute's name where its value was asked for. */
  lemma AttrValueAnswersName()
    ensures var attrs := [Attribute("id", Some("main"))];
      AttrValue(attrs, "id") == Some("id") && AttrValueOf(attrs, "id") == Some("main")
  {
  }

  /** Number of attributes called `name`. */
  function CountNamed(attrs: seq<Attribute>, name: string): (c: nat)
    ensures c <= |attrs|
    ensures c == 0 <==> forall i :: 0 <= i < |attrs| ==> attrs[i].name != name
  {
    if attrs == [] then 0
    else CountNamed(attrs[..|attrs| - 1], name) + (if attrs[|attrs| - 1].name == name then 1 else 0)
  }

  /** No two attributes share a name. */
  predicate NamesUnique(attrs: seq<Attribute>) {
    forall i, j :: 0 <= i < j < |attrs| ==> attrs[i].name != attrs[j].name
  }

  /** `a` is `b` with some entries deleted and the rest kept in their order. */
  predicate IsSubsequence<T(==)>(a: seq<T>, b: seq<T>) {
    a == [] ||
    (b != [] &&
     ((a[|a| - 1] == b[|b| - 1] && IsSubsequence(a[..|a| - 1], b[..|b| - 1])) ||
      IsSubsequence(a, b[..|b| - 1])))
  }

  // ---------------------------------------------------------------------------------------------
  // setAttribute

  /**
   * The list after `setAttribute(name, value)`: a valueless attribute is always appended; a valued
   * one overwrites the value of the first attribute called `name`, or is appended if there is none.
   */
  function SetAttr(attrs: seq<Attribute>, name: string, value: Option<string>): (r: seq<Attribute>)
    ensures value.None? ==> r == attrs + [Attribute(name, None)]
    ensures value.Some? && FirstNamed(attrs, name).None? ==> r == attrs + [Attribute(name, value)]
    ensures value.Some? && FirstNamed(attrs, name).Some? ==>
      var i := FirstNamed(attrs, name).value;
      |r| == |attrs| && r[i] == Attribute(name, value) &&
      forall j :: 0 <= j < |attrs| && j != i ==> r[j] == attrs[j]
  {
    if value.None? || attrs == [] then attrs + [Attribute(name, value)]
    else if attrs[0].name == name then [attrs[0].(value := value)] + attrs[1..]
    else [attrs[0]] + SetAttr(attrs[1..], name, value)
  }

  /** Appending never changes which attribute is the first one of a name that already occurs. */
  lemma {:induction false} FirstNamedAppend(attrs: seq<Attribute>, a: Attribute, p: string)
    ensures FirstNamed(attrs + [a], p) ==
      if FirstNamed(attrs, p).Some? then FirstNamed(attrs, p)
      else if a.name == p then Some(|attrs|) else None
  {
    if attrs != [] {
      assert (attrs + [a])[1..] == attrs[1..] + [a];
      FirstNamedAppend(attrs[1..], a, p);
    }
  }

  /** Two lists with the same names position by position agree on every first occurrence. */
  lemma {:induction false} FirstNamedSameNames(a: seq<Attribute>, b: seq<Attribute>, p: string)
    requires |a| == |b| && forall i :: 0 <= i < |a| ==> a[i].name == b[i].name
    ensures FirstNamed(a, p) == FirstNamed(b, p)
  {
    if a != [] {
      FirstNamedSameNames(a[1..], b[1..], p);
    }
  }

  /** After a valued set, `name` is present and reads back exactly the value set. */
  lemma SetAttrValued(attrs: seq<Attribute>, name: string, v: string)
    ensures HasAttr(SetAttr(attrs, name, Some(v)), name)
    ensures AttrValueOf(SetAttr(attrs, name, Some(v)), name) == Some(v)
  {
    if FirstNamed(attrs, name).Some? {
      FirstNamedSameNames(SetAttr(attrs, name, Some(v)), attrs, name);
    } else {
      FirstNamedAppend(attrs, Attribute(name, Some(v)), name);
    }
  }

  /** A valued set of `name` leaves every other name reading as before. */
  lemma SetAttrValuedOthers(attrs: seq<Attribute>, name: string, v: string, p: string)
    requires p != name
    ensures HasAttr(SetAttr(attrs, name, Some(v)), p) == HasAttr(attrs, p)
    ensures AttrValueOf(SetAttr(attrs, name, Some(v)), p) == AttrValueOf(attrs, p)
  {
    if FirstNamed(attrs, name).Some? {
      FirstNamedSameNames(SetAttr(attrs, name, Some(v)), attrs, p);
    } else {
      FirstNamedAppend(attrs, Attribute(name, Some(v)), p);
    }
  }

  /** A valueless set changes no answer of `hasAttr`, not even for its own name. */
  lemma SetAttrValueless(attrs: seq<Attribute>, name: string, p: string)
    ensures HasAttr(SetAttr(attrs, name, None), p) == HasAttr(attrs, p)
    ensures AttrValueOf(SetAttr(attrs, name, None), p) == AttrValueOf(attrs, p)
  {
    FirstNamedAppend(attrs, Attribute(name, None), p);
  }

  /** Valueless attributes of one name accumulate: each set adds one more entry of that name. */
  lemma SetAttrValuelessAccumulates(attrs: seq<Attribute>, name: string)
    ensures CountNamed(SetAttr(attrs, name, None), name) == CountNamed(attrs, name) + 1
    ensures CountNamed(SetAttr(SetAttr(attrs, name, None), name, None), name) == CountNamed(attrs, name) + 2
  {
    var once := SetAttr(attrs, name, None);
    assert once[..|once| - 1] == attrs;
    var twice := SetAttr(once, name, None);
    assert twice[..|twice| - 1] == once;
  }

  /** A valued set keeps the names distinct if they were. */
  lemma SetAttrKeepsNamesUnique(attrs: seq<Attribute>, name: string, v: string)
    requires NamesUnique(attrs)
    ensures NamesUnique(SetAttr(attrs, name, Some(v)))
  {
  }

  // ---------------------------------------------------------------------------------------------
  // attr(Attribute)

  /** `attrs` without the attributes called `name`, the others in their order. */
  function Without(attrs: seq<Attribute>, name: string): (r: seq<Attribute>)
    ensures |r| == |attrs| - CountNamed(attrs, name)
  {
    if attrs == [] then []
    else
      var last := attrs[|attrs| - 1];
      Without(attrs[..|attrs| - 1], name) + (if last.name == name then [] else [last])
  }

  /** Deleting from one more entry of a list: that entry is kept unless it has the name. */
  lemma WithoutStep(attrs: seq<Attribute>, name: string, i: nat)
    requires i < |attrs|
    ensures Without(attrs[..i + 1], name) ==
      Without(attrs[..i], name) + (if attrs[i].name == name then [] else [attrs[i]])
  {
    assert attrs[..i + 1][..i] == attrs[..i];
  }

  /** What is left after deleting the attributes called `name`: exactly the others. */
  lemma {:induction false} WithoutMembers(attrs: seq<Attribute>, name: string)
    ensures forall i :: 0 <= i < |Without(attrs, name)| ==>
      Without(attrs, name)[i] in attrs && Without(attrs, name)[i].name != name
    ensures forall i :: 0 <= i < |attrs| && attrs[i].name != name ==> attrs[i] in Without(attrs, name)
  {
    if attrs != [] {
      var init, last := attrs[..|attrs| - 1], attrs[|attrs| - 1];
      WithoutMembers(init, name);
      var k := Without(init, name);
      assert forall i :: 0 <= i < |k| ==> k[i] in attrs by {
        forall i | 0 <= i < |k| ensures k[i] in attrs {
          var m :| 0 <= m < |init| && init[m] == k[i];
          assert attrs[m] == k[i];
        }
      }
      forall i | 0 <= i < |attrs| && attrs[i].name != name ensures attrs[i] in Without(attrs, name) {
        if i < |init| {
          assert attrs[i] == init[i];
        }
      }
    }
  }

  /** Deleting the attributes of one name keeps the others in their order. */
  lemma {:induction false} WithoutIsSubsequence(attrs: seq<Attribute>, name: string)
    ensures IsSubsequence(Without(attrs, name), attrs)
  {
    if attrs != [] {
      var init, last := attrs[..|attrs| - 1], attrs[|attrs| - 1];
      WithoutIsSubsequence(init, name);
      var r := Without(attrs, name);
      if last.name == name {
        assert r == Without(init, name);
      } else {
        assert r[..|r| - 1] == Without(init, name);
        assert r[|r| - 1] == last;
      }
    }
  }

  /** Deleting the attributes of one name keeps the remaining names distinct if they were. */
  lemma {:induction false} WithoutKeepsNamesUnique(attrs: seq<Attribute>, name: string)
    requires NamesUnique(attrs)
    ensures NamesUnique(Without(attrs, name))
  {
    if attrs != [] {
      var init, last := attrs[..|attrs| - 1], attrs[|attrs| - 1];
      WithoutKeepsNamesUnique(init, name);
      var r := Without(attrs, name);
      if last.name != name {
        var k := Without(init, name);
        assert r == k + [last];
        WithoutMembers(init, name);
        forall i | 0 <= i < |k| ensures k[i].name != last.name {
          assert k[i] in init;
          var m :| 0 <= m < |init| && init[m] == k[i];
          assert attrs[m] == k[i];
        }
      }
    }
  }

  /** The list after `attr(a)`: every attribute called `a.name` is removed, then `a` is appended. */
  function ReplaceAttr(attrs: seq<Attribute>, a: Attribute): (r: seq<Attribute>)
    ensures |r| > 0 && r[|r| - 1] == a
    ensures r[..|r| - 1] == Without(attrs, a.name)
  {
    Without(attrs, a.name) + [a]
  }

  /** After `attr(a)` exactly one attribute has `a`'s name, `a` itself, and it is the last one. */
  lemma ReplaceAttrLeavesOne(attrs: seq<Attribute>, a: Attribute)
    ensures CountNamed(ReplaceAttr(attrs, a), a.name) == 1
    ensures FirstNamed(ReplaceAttr(attrs, a), a.name) == Some(|ReplaceAttr(attrs, a)| - 1)
  {
    var r := ReplaceAttr(attrs, a);
    var kept := Without(attrs, a.name);
    assert r[..|r| - 1] == kept;
    WithoutMembers(attrs, a.name);
    FirstNamedAppend(kept, a, a.name);
  }

  /** `attr(a)` keeps the other attributes in their order, and keeps names distinct if they were. */
  lemma ReplaceAttrKeepsOthers(attrs: seq<Attribute>, a: Attribute)
    ensures IsSubsequence(ReplaceAttr(attrs, a)[..|ReplaceAttr(attrs, a)| - 1], attrs)
    ensures NamesUnique(attrs) ==> NamesUnique(ReplaceAttr(attrs, a))
  {
    var r := ReplaceAttr(attrs, a);
    var kept := Without(attrs, a.name);
    WithoutIsSubsequence(attrs, a.name);
    if NamesUnique(attrs) {
      WithoutKeepsNamesUnique(attrs, a.name);
      WithoutMembers(attrs, a.name);
      forall i | 0 <= i < |kept| ensures r[i].name != a.name {
        assert r[i] == kept[i];
      }
    }
  }

  // ---------------------------------------------------------------------------------------------
  // Open and close tags

  /** The attributes rendered one after another in list order, each by `render`. */
  function RenderAttrs(render: Attribute -> string, attrs: seq<Attribute>): (r: string)
    ensures attrs == [] ==> r == ""
    ensures attrs != [] ==> r == RenderAttrs(render, attrs[..|attrs| - 1]) + render(attrs[|attrs| - 1])
  {
    if attrs == [] then ""
    else
      assert |attrs| > 1 ==> attrs[..|attrs| - 1][1..] == attrs[1..][..|attrs| - 2];
      assert attrs[..|attrs| - 1] != [] ==> attrs[..|attrs| - 1][0] == attrs[0];
      render(attrs[0]) + RenderAttrs(render, attrs[1..])
  }

  /** Rendering the attributes of a concatenation concatenates their renderings. */
  lemma {:induction false} RenderAttrsAppend(render: Attribute -> string, a: seq<Attribute>, b: seq<Attribute>)
    ensures RenderAttrs(render, a + b) == RenderAttrs(render, a) + RenderAttrs(render, b)
  {
    if a == [] {
      assert a + b == b;
    } else {
      assert (a + b)[1..] == a[1..] + b;
      RenderAttrsAppend(render, a[1..], b);
    }
  }

  /** The open tag: `<`, the name, the rendered attributes in list order, `>`; nothing for a fragment. */
  function OpenTag(render: Attribute -> string, tagName: Option<string>, attrs: seq<Attribute>): (r: string)
    ensures !HasTagName(tagName) ==> r == ""
  {
    if HasTagName(tagName) then "<" + tagName.value + RenderAttrs(render, attrs) + ">" else ""
  }

  /** A named open tag is `<`, the name, the rendered attributes and `>`, each in its place. */
  lemma OpenTagShape(render: Attribute -> string, tagName: Option<string>, attrs: seq<Attribute>)
    requires HasTagName(tagName)
    ensures var r, t := OpenTag(render, tagName, attrs), tagName.value;
      |r| == |t| + |RenderAttrs(render, attrs)| + 2 && r[0] == '<' && r[|r| - 1] == '>' &&
      r[1..|t| + 1] == t && r[|t| + 1..|r| - 1] == RenderAttrs(render, attrs)
  {
    var t, body := tagName.value, RenderAttrs(render, attrs);
    var r := "<" + t + body + ">";
    assert OpenTag(render, tagName, attrs) == r;
    assert r[1..|t| + 1] == t;
    assert r[|t| + 1..|r| - 1] == body;
  }

  /** The close tag: `</`, the name, `>`; nothing for a fragment. */
  function CloseTag(tagName: Option<string>): (r: string)
    ensures !HasTagName(tagName) ==> r == ""
    ensures HasTagName(tagName) ==>
      |r| == |tagName.value| + 3 && r[..2] == "</" && r[2..|r| - 1] == tagName.value && r[|r| - 1] == '>'
  {
    if HasTagName(tagName) then "</" + tagName.value + ">" else ""
  }

  /** Overwriting a value keeps the attribute where it was in the open tag. */
  lemma OpenTagAfterOverwrite(render: Attribute -> string, tagName: Option<string>, attrs: seq<Attribute>,
                              name: string, v: string, i: nat)
    requires HasTagName(tagName) && FirstNamed(attrs, name) == Some(i)
    ensures OpenTag(render, tagName, SetAttr(attrs, name, Some(v))) ==
      "<" + tagName.value +
      (RenderAttrs(render, attrs[..i]) + render(Attribute(name, Some(v))) + RenderAttrs(render, attrs[i + 1..])) +
      ">"
  {
    SetAttrSplice(attrs, name, v, i);
    RenderAttrsSplice(render, attrs[..i], Attribute(name, Some(v)), attrs[i + 1..]);
  }

  /** The rendering of one attribute between two runs of them. */
  lemma RenderAttrsSplice(render: Attribute -> string, pre: seq<Attribute>, a: Attribute, post: seq<Attribute>)
    ensures RenderAttrs(render, pre + [a] + post) == RenderAttrs(render, pre) + render(a) + RenderAttrs(render, post)
  {
    RenderAttrsAppend(render, pre + [a], post);
    RenderAttrsAppend(render, pre, [a]);
    assert RenderAttrs(render, [a]) == render(a) by {
      assert [a][1..] == [];
    }
  }

  /** A valued set on a name that occurs first at `i` replaces entry `i` and nothing else. */
  lemma SetAttrSplice(attrs: seq<Attribute>, name: string, v: string, i: nat)
    requires FirstNamed(attrs, name) == Some(i)
    ensures SetAttr(attrs, name, Some(v)) == attrs[..i] + [Attribute(name, Some(v))] + attrs[i + 1..]
  {
    var a := Attribute(name, Some(v));
    var r := SetAttr(attrs, name, Some(v));
    var s := attrs[..i] + [a] + attrs[i + 1..];
    assert |r| == |s|;
    forall j | 0 <= j < |s| ensures r[j] == s[j] {
      if j < i {
        assert s[j] == attrs[..i][j];
      } else if j > i {
        assert s[j] == attrs[i + 1..][j - i - 1];
      }
    }
  }

  /** Setting an attribute that is appended adds its rendering just before the open tag's `>`. */
  lemma OpenTagAfterAppend(render: Attribute -> string, tagName: Option<string>, attrs: seq<Attribute>,
                           name: string, value: Option<string>)
    requires HasTagName(tagName) && (value.None? || FirstNamed(attrs, name).None?)
    ensures OpenTag(render, tagName, SetAttr(attrs, name, value)) ==
      "<" + tagName.value + RenderAttrs(render, attrs) + render(Attribute(name, value)) + ">"
  {
    RenderAttrsAppend(render, attrs, [Attribute(name, value)]);
  }

  // ---------------------------------------------------------------------------------------------
  // withClasses

  /** What `withClasses` accumulates: each class (null as the empty string) followed by one space. */
  function ClassList(classes: seq<Option<string>>): (r: string)
    ensures |r| >= |classes|
    ensures classes != [] ==> r[|r| - 1] == ' '
  {
    if classes == [] then ""
    else
      var last := classes[|classes| - 1];
      ClassList(classes[..|classes| - 1]) + (if last.Some? then last.value else "") + " "
  }

  /** Words separated by single spaces. */
  function SpaceSeparated(words: seq<string>): string {
    if words == [] then ""
    else if |words| == 1 then words[0]
    else SpaceSeparated(words[..|words| - 1]) + " " + words[|words| - 1]
  }

  /** A class name `withClasses` reproduces unchanged: non-empty and free of blank characters. */
  predicate IsClassName(w: string) {
    w != [] && forall k :: 0 <= k < |w| ==> !Strings.IsBlank(w[k])
  }

  /** For proper class names, the trimmed accumulation is the names separated by single spaces. */
  lemma {:induction false} ClassListOfNames(classes: seq<Option<string>>, words: seq<string>)
    requires |classes| == |words|
    requires forall i :: 0 <= i < |words| ==> classes[i] == Some(words[i]) && IsClassName(words[i])
    ensures Strings.Trim(ClassList(classes)) == SpaceSeparated(words)
  {
    if words != [] {
      ClassListSpaced(classes, words);
      SpaceSeparatedEnds(words);
      Strings.TrimTrailingSpace(SpaceSeparated(words));
    }
  }

  lemma {:induction false} ClassListSpaced(classes: seq<Option<string>>, words: seq<string>)
    requires |classes| == |words| > 0
    requires forall i :: 0 <= i < |words| ==> classes[i] == Some(words[i])
    ensures ClassList(classes) == SpaceSeparated(words) + " "
  {
    if |words| > 1 {
      ClassListSpaced(classes[..|classes| - 1], words[..|words| - 1]);
    } else {
      assert classes[..0] == [];
    }
  }

  lemma {:induction false} SpaceSeparatedEnds(words: seq<string>)
    requires |words| > 0 && forall i :: 0 <= i < |words| ==> IsClassName(words[i])
    ensures var s := SpaceSeparated(words);
      s != [] && !Strings.IsBlank(s[0]) && !Strings.IsBlank(s[|s| - 1])
  {
    if |words| > 1 {
      SpaceSeparatedEnds(words[..|words| - 1]);
    } else {
      assert IsClassName(words[0]);
    }
  }

  // ---------------------------------------------------------------------------------------------
  // The element object

  /** `Tag`: a tag name and the attribute list its mutators change in place. */
  class Tag {
    var tagName: Option<string>
    var attrs: seq<Attribute>

    constructor(tagName: Option<string>)
      ensures this.tagName == tagName && attrs == []
    {
      this.tagName := tagName;
      attrs := [];
    }

    /** `setAttribute`: scan for the first attribute of the name; overwrite its value, or append. */
    method SetAttribute(name: string, value: Option<string>)
      modifies this
      ensures tagName == old(tagName)
      ensures attrs == SetAttr(old(attrs), name, value)
    {
      if value.None? {
        attrs := attrs + [Attribute(name, None)];
        return;
      }
      var i := 0;
      while i < |attrs| && attrs[i].name != name
        invariant 0 <= i <= |attrs|
        invariant forall j :: 0 <= j < i ==> attrs[j].name != name
      {
        i := i + 1;
      }
      if i == |attrs| {
        attrs := attrs + [Attribute(name, value)];
      } else {
        assert FirstNamed(attrs, name) == Some(i);
        ghost var before := attrs;
        attrs := attrs[i := attrs[i].(value := value)];
        assert attrs == SetAttr(before, name, value);
      }
    }

    /** `attr(String, Object)`, with the value already converted to a string. */
    method Attr(name: string, value: Option<string>)
      modifies this
      ensures tagName == old(tagName)
      ensures attrs == SetAttr(old(attrs), name, value)
    {
      SetAttribute(name, value);
    }

    /** `attr(String)`: a valueless attribute. */
    method Flag(name: string)
      modifies this
      ensures tagName == old(tagName)
      ensures attrs == old(attrs) + [Attribute(name, None)]
    {
      Attr(name, None);
    }

    /** `attr(Attribute)`: remove every attribute of `a`'s name through the iterator, then append `a`. */
    method ReplaceAttribute(a: Attribute)
      modifies this
      ensures tagName == old(tagName)
      ensures attrs == ReplaceAttr(old(attrs), a)
    {
      var all := attrs;
      var kept := [];
      for i := 0 to |all|
        invariant kept == Without(all[..i], a.name)
        invariant tagName == old(tagName)
      {
        WithoutStep(all, a.name, i);
        if all[i].name != a.name {
          kept := kept + [all[i]];
        }
      }
      assert all[..|all|] == all;
      attrs := kept + [a];
    }

    /** `condAttr`: `attr(name, value)` when the condition holds, otherwise nothing changes. */
    method CondAttr(condition: bool, name: string, value: Option<string>)
      modifies this
      ensures tagName == old(tagName)
      ensures attrs == if condition then SetAttr(old(attrs), name, value) else old(attrs)
    {
      if condition {
        Attr(name, value);
      }
    }

    /** `withClasses`: accumulate each class and a space, then set `class` to the trimmed result. */
    method WithClasses(classes: seq<Option<string>>)
      modifies this
      ensures tagName == old(tagName)
      ensures attrs == SetAttr(old(attrs), "class", Some(Strings.Trim(ClassList(classes))))
    {
      var sb := "";
      for i := 0 to |classes|
        invariant sb == ClassList(classes[..i])
      {
        assert classes[..i + 1][..i] == classes[..i];
        var s := classes[i];
        sb := sb + (if s.Some? then s.value else "") + " ";
      }
      assert classes[..|classes|] == classes;
      Attr("class", Some(Strings.Trim(sb)));
    }

    /** `withId`, one of the named wrappers over `attr`. */
    method WithId(id: Option<string>)
      modifies this
      ensures tagName == old(tagName)
      ensures attrs == SetAttr(old(attrs), "id", id)
    {
      Attr("id", id);
    }

    /** `withData`: the attribute name is `data-` followed by the given suffix. */
    method WithData(dataAttr: string, value: Option<string>)
      modifies this
      ensures tagName == old(tagName)
      ensures attrs == SetAttr(old(attrs), "data-" + dataAttr, value)
    {
      Attr("data-" + dataAttr, value);
    }

    /** `isHidden`, one of the valueless wrappers. */
    method IsHidden()
      modifies this
      ensures tagName == old(tagName)
      ensures attrs == old(attrs) + [Attribute("hidden", None)]
    {
      Attr("hidden", None);
    }

    /** `withCondHidden`, one of the conditional wrappers. */
    method WithCondHidden(condition: bool)
      modifies this
      ensures tagName == old(tagName)
      ensures attrs == if condition then old(attrs) + [Attribute("hidden", None)] else old(attrs)
    {
      CondAttr(condition, "hidden", None);
    }
  }
}
