# j2html element core in Dafny

This project models the core of j2html, a Java library for building HTML in code.
A program builds a tree of element objects by chained mutator calls and renders it either
compactly or indented. The model covers two classes:

- `Tag` (`src/main/java/j2html/tags/Tag.java`): an element's tag name and its ordered attribute
  list, the mutators that change that list, and the open and close tags.
- `ContainerTag` (`src/main/java/j2html/tags/ContainerTag.java`): the element's child list, the
  `with` family that appends to it, compact rendering (`renderModel`) and indented rendering
  (`renderFormatted`).

Modules:

- `Wrappers`: `Option` (Java `null` is `None`) and `Outcome`, the result of a mutator that may
  throw.
- `Strings`: Java's `String.trim`, which `withClasses` uses.
- `Tags`: the `Attribute` value. The attribute list is specified by pure functions on
  `seq<Attribute>` (`SetAttr`, `ReplaceAttr`, the queries, `OpenTag`, `CloseTag`). The class
  `Tags.Tag` holds that list as a field. Its mutators change it with loops, as the source does,
  and each is proved to leave exactly the list its specifying function describes.
- `Containers`: the class `Containers.ContainerTag`, whose children are object references. This
  lets a self-append be recognised by reference identity, as the source does. The bulk `with`
  forms are specified by `AppendEach`, a fold of the single `with`.
- `Rendering`: both renderers over a `Node` tree value. A node is a leaf or a container with a
  tag name, attributes and children. A leaf records whether it is a tag (an element without
  children, such as an empty tag) or text, because `equals` treats the two differently. The
  renderers call three collaborators that are not part of this model, passed in as a
  `Collaborators` value:
  - the rendering of one attribute (`Attribute.renderModel`);
  - the rendering of a non-container child (`DomContent.render`);
  - the indenter (`Config.indenter.indent`).

  Nothing is assumed about the collaborators except where a lemma's `requires` says so.

The worked examples (the `Rendering.*Example` lemmas) use one fixed choice of collaborators,
`Rendering.Sample()`:
- an attribute renders as ` name="value"`, or ` name` when valueless;
- a leaf renders as its text;
- the indenter at level `lvl` puts `2 * lvl` spaces in front of the whole fragment it is given,
  once, not in front of every line of it.

Formatted output of an empty element: `ContainerTag.java:153-155` emits a newline after every
named open tag that is not `textarea` or `pre`. Lines 173-175 then emit the indentation of the
element's level before the close tag, even when there are no children. So an empty `span` does
not format as `<span></span>` on one line; at level 1 it closes on a line of its own.
`Rendering.FormattedDivExample` proves that a `div` holding an empty `span` formats as
`"<div>\n  <span>\n  </span>\n</div>\n"` under the sample collaborators.

Fragments and indentation: a fragment child is formatted and indented at its parent's level
(`ContainerTag.java:163`), and its own children are then indented at the next level. So at the root
of a parent that is not `textarea` or `pre`, under an indenter that leaves level 0 alone, a
fragment adds no indentation: `Rendering.FormattedFragmentAtRoot`. Inside a
`textarea` or `pre`, the fragment is not self-formatting itself, so its text children are
indented and followed by newlines (`ContainerTag.java:165-168`). Deeper down, a fragment's children
are indented twice: once at their own level and once more with the whole fragment. After its last
child, the fragment also emits its own `indent(lvl, "")` with no newline
(`ContainerTag.java:173-174`). That stray indentation lands before the next sibling or before the
parent's close tag. `Rendering.Formatted` states this: a fragment formats as its children
followed by `indent(lvl, "")`.

## Model

| member | source | states |
|---|---|---|
| Tags.HasTagName | src/main/java/j2html/tags/Tag.java:22-24 | a tag has a name exactly when the name is not null and not empty |
| Tags.FirstNamed | src/main/java/j2html/tags/Tag.java:68-77 | the index the attribute search stops at: the first entry with the name, with no earlier entry of that name, or none exactly when no entry has it |
| Tags.HasAttr | src/main/java/j2html/tags/Tag.java:88-90 | true exactly when the first attribute with the name exists and has a non-null value; false when no attribute has the name |
| Tags.AttrValue | src/main/java/j2html/tags/Tag.java:84-86 | as written: non-null exactly when some attribute has the name, and then the answer is the name itself |
| Tags.AttrValueOf | src/main/java/j2html/tags/Tag.java:84-86 | as intended: non-null exactly when `hasAttr` holds, and equal to the value of the first attribute with the name |
| Tags.AttrValueAnswersName | src/main/java/j2html/tags/Tag.java:85 | for the single attribute `id="main"`, the as-written query answers `id` and the intended one answers `main` |
| Tags.CountNamed | src/main/java/j2html/tags/Tag.java:97-111 | the number of attributes with a name is at most the list length, and is 0 exactly when no entry has the name |
| Tags.SetAttr | src/main/java/j2html/tags/Tag.java:64-82 | a null value always appends a valueless attribute; a value overwrites the first entry with the name in place and changes no other entry, or appends when the name is absent |
| Tags.FirstNamedAppend | src/main/java/j2html/tags/Tag.java:73 | appending an attribute never moves the first occurrence of a name that was already present; an absent name is then found at the appended position or nowhere |
| Tags.FirstNamedSameNames | src/main/java/j2html/tags/Tag.java:79 | overwriting a value, which keeps every name where it was, changes no answer of the attribute search |
| Tags.SetAttrValued | src/main/java/j2html/tags/Tag.java:64-82 | after a valued set, `hasAttr(name)` holds and the value read back is the one set |
| Tags.SetAttrValuedOthers | src/main/java/j2html/tags/Tag.java:64-82 | after a valued set, every other name gives the same `hasAttr` and value as before |
| Tags.SetAttrValueless | src/main/java/j2html/tags/Tag.java:65-66 | a valueless set changes no answer of `hasAttr` or of the corrected value query `AttrValueOf` for any name, its own included |
| Tags.SetAttrValuelessAccumulates | src/main/java/j2html/tags/Tag.java:65-66 | valueless sets of one name are not deduplicated: one set adds one entry of that name, two sets add two |
| Tags.SetAttrKeepsNamesUnique | src/main/java/j2html/tags/Tag.java:67-81 | a valued set keeps the names distinct if they were distinct |
| Tags.Without | src/main/java/j2html/tags/Tag.java:98-107 | deleting the attributes with a name removes exactly as many entries as carry that name |
| Tags.WithoutStep | src/main/java/j2html/tags/Tag.java:101-106 | one more step of the iteration keeps the visited entry exactly when its name differs |
| Tags.WithoutMembers | src/main/java/j2html/tags/Tag.java:101-106 | what is left is drawn from the list and carries other names, and every entry with another name is kept |
| Tags.WithoutIsSubsequence | src/main/java/j2html/tags/Tag.java:101-106 | deleting keeps the other attributes in their original order |
| Tags.WithoutKeepsNamesUnique | src/main/java/j2html/tags/Tag.java:101-106 | deleting keeps distinct names distinct |
| Tags.ReplaceAttr | src/main/java/j2html/tags/Tag.java:97-111 | the list after `attr(a)` ends with `a`, and everything before it is the old list without the attributes of `a`'s name |
| Tags.ReplaceAttrLeavesOne | src/main/java/j2html/tags/Tag.java:97-111 | after `attr(a)` exactly one attribute has `a`'s name, and it is the last one |
| Tags.ReplaceAttrKeepsOthers | src/main/java/j2html/tags/Tag.java:97-111 | `attr(a)` keeps the other attributes in their order, and keeps distinct names distinct |
| Tags.RenderAttrsAppend | src/main/java/j2html/tags/Tag.java:41-46 | rendering the attributes of a concatenation concatenates the two renderings |
| Tags.RenderAttrsSplice | src/main/java/j2html/tags/Tag.java:41-46 | the rendering of one attribute sits between the renderings of the entries before and after it |
| Tags.RenderAttrs | src/main/java/j2html/tags/Tag.java:41-46 | the iterator loop's step: the attributes before the last one, rendered in order, followed by the last one's rendering; nothing for no attributes |
| Tags.OpenTag | src/main/java/j2html/tags/Tag.java:38-50 | a fragment, with no tag name, has an empty open tag |
| Tags.OpenTagShape | src/main/java/j2html/tags/Tag.java:38-50 | a named open tag is `<`, the tag name, the attributes rendered in list order and `>`, each at its position |
| Tags.CloseTag | src/main/java/j2html/tags/Tag.java:52-58 | a fragment has an empty close tag; otherwise it is `</`, the tag name and `>` |
| Tags.SetAttrSplice | src/main/java/j2html/tags/Tag.java:76-80 | a valued set replaces the first entry with the name by the new attribute, in place, and nothing else |
| Tags.OpenTagAfterOverwrite | src/main/java/j2html/tags/Tag.java:38-50 | after an overwriting set, the open tag shows the new value at the position of the first attribute with that name |
| Tags.OpenTagAfterAppend | src/main/java/j2html/tags/Tag.java:38-50 | after an appending set, the new attribute is rendered last, just before `>` |
| Tags.ClassList | src/main/java/j2html/tags/Tag.java:130-133 | the accumulation has at least one character per class and, for at least one class, ends with the space that `trim` then removes |
| Tags.ClassListOfNames | src/main/java/j2html/tags/Tag.java:125-136 | for non-empty class names without blanks, the trimmed accumulation is the names separated by single spaces |
| Tags.ClassListSpaced | src/main/java/j2html/tags/Tag.java:130-133 | for non-null classes, the accumulation is the space-separated names followed by one space |
| Tags.SpaceSeparatedEnds | src/main/java/j2html/tags/Tag.java:135 | space-separated class names neither start nor end with a blank, so trimming stops at them |
| Tags.Tag.constructor | src/main/java/j2html/tags/Tag.java:13-16 | a new element has the given tag name and no attributes |
| Tags.Tag.SetAttribute | src/main/java/j2html/tags/Tag.java:64-82 | the loop leaves exactly the list `SetAttr` describes, and keeps the tag name |
| Tags.Tag.Attr | src/main/java/j2html/tags/Tag.java:92-95 | `attr(name, value)` is `setAttribute` with the value converted to a string |
| Tags.Tag.ReplaceAttribute | src/main/java/j2html/tags/Tag.java:97-111 | the removal loop and the append leave exactly the list `ReplaceAttr` describes |
| Tags.Tag.Flag | src/main/java/j2html/tags/Tag.java:113-115 | `attr(name)` appends a valueless attribute |
| Tags.Tag.CondAttr | src/main/java/j2html/tags/Tag.java:117-119 | `condAttr` is `attr` when the condition holds, and changes nothing otherwise |
| Tags.Tag.WithClasses | src/main/java/j2html/tags/Tag.java:125-136 | the loop accumulates each class, null as empty, followed by a space; the trimmed result is set as `class` |
| Tags.Tag.IsHidden | src/main/java/j2html/tags/Tag.java:146-148 | appends a valueless `hidden` attribute |
| Tags.Tag.WithId | src/main/java/j2html/tags/Tag.java:182-184 | sets `id` through `attr` |
| Tags.Tag.WithData | src/main/java/j2html/tags/Tag.java:186-188 | sets the attribute named `data-` followed by the suffix |
| Tags.Tag.WithCondHidden | src/main/java/j2html/tags/Tag.java:246-248 | appends a valueless `hidden` attribute when the condition holds, and changes nothing otherwise |
| Strings.StripLeading | src/main/java/j2html/tags/Tag.java:135 | the result is a suffix of the input, everything removed is blank, and it does not start with a blank |
| Strings.StripTrailing | src/main/java/j2html/tags/Tag.java:135 | the result is a prefix of the input, everything removed is blank, and it does not end with a blank |
| Strings.Trim | src/main/java/j2html/tags/Tag.java:135 | the result is an infix of the input with only blanks outside it and non-blank ends; it is empty exactly when the input is all blanks |
| Strings.TrimIdentity | src/main/java/j2html/tags/Tag.java:135 | trimming leaves a string unchanged exactly when it neither starts nor ends with a blank |
| Strings.TrimTrailingSpace | src/main/java/j2html/tags/Tag.java:132-135 | trimming a string with non-blank ends plus one trailing space gives back the string |
| Containers.Text.constructor | src/main/java/j2html/tags/ContainerTag.java:125 | a new text leaf holds the given text |
| Containers.NonNull | src/main/java/j2html/tags/ContainerTag.java:29-31 | every entry kept comes from the input, and every non-null entry of the input is kept |
| Containers.NonNullAppend | src/main/java/j2html/tags/ContainerTag.java:29-31 | filtering a concatenation filters each part, so order and repetitions are kept |
| Containers.NonNullSingle | src/main/java/j2html/tags/ContainerTag.java:29-31 | a single entry is dropped exactly when it is null |
| Containers.AppendEach | src/main/java/j2html/tags/ContainerTag.java:56-63 | appending a run of children fails exactly when a reference to the container itself is among them; otherwise the old children are followed by the non-null new ones; the old children always stay as a prefix |
| Containers.AppendEachConcat | src/main/java/j2html/tags/ContainerTag.java:85-90 | appending a concatenation is appending the first part, then the second unless the first threw |
| Containers.AppendEachStopsAtSelf | src/main/java/j2html/tags/ContainerTag.java:25-28 | when the first self-reference is at position k, the non-null children before k are appended and the call throws |
| Containers.ContainerTag.constructor | src/main/java/j2html/tags/ContainerTag.java:13-16 | a new container has the given tag name, no attributes and no children |
| Containers.ContainerTag.With | src/main/java/j2html/tags/ContainerTag.java:25-34 | appending the container itself, or its `Tag` part, throws the source's message and changes nothing; a null child is ignored; any other child is appended last |
| Containers.ContainerTag.WithEach | src/main/java/j2html/tags/ContainerTag.java:85-90 | the loop leaves the children and outcome `AppendEach` describes, stopping at the first self-append |
| Containers.ContainerTag.WithIterable | src/main/java/j2html/tags/ContainerTag.java:56-63 | a null iterable changes nothing; otherwise as the varargs form |
| Containers.ContainerTag.CondWith | src/main/java/j2html/tags/ContainerTag.java:45-47 | `with(child)` when the condition holds, nothing otherwise |
| Containers.ContainerTag.CondWithIterable | src/main/java/j2html/tags/ContainerTag.java:74-76 | `with(iterable)` when the condition holds, nothing otherwise |
| Containers.ContainerTag.CondWithEach | src/main/java/j2html/tags/ContainerTag.java:113-115 | `with(children...)` when the condition holds, nothing otherwise |
| Containers.ContainerTag.WithText | src/main/java/j2html/tags/ContainerTag.java:124-126 | appends one new text leaf holding the text; it is never a self-append |
| Containers.ContainerTag.GetNumChildren | src/main/java/j2html/tags/ContainerTag.java:131-133 | the number of children |
| Rendering.IsSelfFormatting | src/main/java/j2html/tags/ContainerTag.java:183-185 | true exactly for `textarea` and `pre`, which always have a tag name |
| Rendering.Render | src/main/java/j2html/tags/ContainerTag.java:188-196 | a fragment renders as exactly its children's renderings |
| Rendering.RenderChildren | src/main/java/j2html/tags/ContainerTag.java:190-194 | no children render as nothing; a single child renders as itself, with nothing around it |
| Rendering.RenderChildrenAppend | src/main/java/j2html/tags/ContainerTag.java:190-194 | rendering the children of a concatenation concatenates the two renderings |
| Rendering.FragmentIsTransparent | src/main/java/j2html/tags/ContainerTag.java:188-196 | replacing a fragment child by its own children leaves the compact rendering unchanged |
| Rendering.TagEquals | src/main/java/j2html/tags/Tag.java:121-123 | another tag, container or tag leaf, is equal exactly when both render to the same string; null and text are never equal |
| Rendering.TagEqualsAcrossKinds | src/main/java/j2html/tags/Tag.java:121-123 | equality looks at the rendering only: a fragment holding one tag leaf equals that tag, in both directions |
| Rendering.EqualsIgnoresFragments | src/main/java/j2html/tags/Tag.java:121-123 | containers that differ only by fragment wrappers around some children are equal |
| Rendering.Formatted | src/main/java/j2html/tags/ContainerTag.java:150-181 | a fragment formats as its children followed by the indentation of its level; a named element always ends with a newline |
| Rendering.FormattedChild | src/main/java/j2html/tags/ContainerTag.java:158-170 | a leaf inside `textarea` or `pre` is its compact rendering indented at level 0, whatever the level; any other leaf ends with a newline |
| Rendering.FormattedChildren | src/main/java/j2html/tags/ContainerTag.java:157-171 | no children format as nothing; a single child formats as that child alone |
| Rendering.FormattedChildrenAppend | src/main/java/j2html/tags/ContainerTag.java:157-171 | the level goes up and back down around each child, so formatting a concatenation concatenates the two formattings |
| Rendering.FormattedFrame | src/main/java/j2html/tags/ContainerTag.java:150-181 | a named, non-self-formatting element is its open tag, a newline, its children, its level's indentation, its close tag and a newline; a self-formatting element adds nothing between its tags and its children |
| Rendering.FormattedFragmentAtRoot | src/main/java/j2html/tags/ContainerTag.java:159-164 | at the root, in a parent that is not `textarea` or `pre`, with an indenter that leaves level 0 alone, a fragment child formats as its own children would in its place |
| Rendering.VerbatimLeavesIgnoreLevel | src/main/java/j2html/tags/ContainerTag.java:165-166 | leaves inside a self-formatting element come out the same at every level |
| Rendering.VerbatimLeavesAsRendered | src/main/java/j2html/tags/ContainerTag.java:165-166 | with an indenter that leaves level 0 alone, leaves inside a self-formatting element are exactly their compact rendering |
| Rendering.SelfFormattingPreservesContent | src/main/java/j2html/tags/ContainerTag.java:150-185 | with an indenter that leaves level 0 alone, a `textarea` or `pre` holding only leaves formats, at any level, as its compact rendering plus one newline |
| Rendering.CompactDivExample | src/main/java/j2html/tags/ContainerTag.java:188-196 | under the sample collaborators, `div` with `class="x"` and the text `hi` renders as `<div class="x">hi</div>` |
| Rendering.CompactFragmentExample | src/main/java/j2html/tags/ContainerTag.java:188-196 | under the sample collaborators, a fragment holding `a` and `b` renders as `ab` |
| Rendering.FormattedEmptySpanExample | src/main/java/j2html/tags/ContainerTag.java:150-181 | under the sample collaborators, an empty `span` at level 1 formats as `<span>`, a newline, two spaces of indentation, `</span>` and a newline |
| Rendering.FormattedSpanChildExample | src/main/java/j2html/tags/ContainerTag.java:157-171 | under the sample collaborators, as the only child at level 0, the empty `span` is formatted at level 1 and indented by one level |
| Rendering.FormattedDivExample | src/main/java/j2html/tags/ContainerTag.java:142-181 | under the sample collaborators, `div` holding an empty `span` formats as `<div>\n  <span>\n  </span>\n</div>\n` |

## Left out

- Attribute rendering and escaping, leaf rendering (`Text` and other `DomContent`), and
  `Config.indenter` are not part of this model. They are parameters (`Rendering.Collaborators`,
  and the `render` argument of `Tags.OpenTag`).
- The model object passed through `renderModel` is left out. So are the `Appendable` writer
  (rendering yields a string) and the `IOException` wrapping in `renderFormatted()`.
- `with(Stream)`: the stream is consumed by `with` per element, so it is the same fold as
  `Containers.ContainerTag.WithEach`. Streams are not modelled.
- Only `withId`, `withData`, `isHidden` and `withCondHidden` of the one-line wrappers are
  modelled. Each of the others is an instance of `Tags.Tag.Attr` (a valued or valueless set) or
  of `Tags.Tag.CondAttr` (a conditional one) with a fixed attribute name. This includes
  `withCharset(boolean, String)` at `Tag.java:262`, which is conditional despite its name.
- `Tags.Tag.Attr`: the `Object` value arrives already converted by `String.valueOf`.
- Null attribute names and null strings passed as names are left out: null names cause
  `NullPointerException` or skip the removal loop in `attr(Attribute)`.
- `Attribute` is a value. Aliasing of a mutable `Attribute` object shared between two tags, which
  `setValue` would change in both, is left out.
- `Tags.Tag.SetAttribute`: the boolean the source returns is always true and is not modelled. The
  chaining return value `this` of the mutators is left out too.
- `Containers.ContainerTag`: inheritance from `Tag` is modelled as the field `element`.
- `Containers.ContainerTag`: the `children` list of object references is separate from the
  `Rendering.Node` tree value the renderers work on. The step from one to the other is not modelled.
- `Containers.ContainerTag.WithText` returns the new leaf rather than `this`, so that its
  ensures can name the leaf.
- Element kinds other than containers, such as empty tags, appear in the rendering tree only as
  leaves marked as tags, rendered by the leaf collaborator.
- The varargs array of `with(DomContent...)` is never null in the model. A null array would throw
  `NullPointerException`.
- `getTagName` is a plain accessor of the modelled field.
- `getAttributes` and `getChildren`: they hand out the live mutable lists. Changes a caller makes
  through them, from outside the element, are not modelled.
- `Containers.ContainerTag.WithIterable`: the iterable is a value snapshot. The call
  `c.with(c.getChildren())` with at least one child makes the `ArrayList` iterator at
  `ContainerTag.java:58-59` throw `ConcurrentModificationException` after the first append. The
  model instead appends every child.
- `Containers.ContainerTag.With` rejects only the container itself (`ContainerTag.java:26`), so
  `a.with(b); b.with(a)` builds a cycle, and rendering it recurses without end. `Rendering.Node` is
  a finite tree and cannot hold a cycle, so `Rendering.Render` and `Rendering.Formatted` terminate
  only because cycles cannot be built in the model.
- `withClasses((String[]) null)` throws `NullPointerException` at `Tag.java:128`, and
  `attr((Attribute) null)` throws at `Tag.java:99`. The model's class list and attribute are
  never null.

## Findings

| source | as written | input that shows it | evidently intended | confidence | as-written member | corrected member |
|---|---|---|---|---|---|---|
| src/main/java/j2html/tags/Tag.java:85 | `attrValue` maps the first matching attribute to its name | an element with the single attribute `id="main"`, asked for `id`, answers `id` | the value of the first attribute with that name, `main` | not executed | Tags.AttrValue, Tags.AttrValueAnswersName | Tags.AttrValueOf |
