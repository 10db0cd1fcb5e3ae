/**
 * The oldest renderer, index.ts: `jsxElementToOverReactString` over the small
 * `{type, props, children, nodeValue}` records that jsx-parser produces. It
 * accumulates its text in `dartOutput` and counts in `childCount`, looping over
 * the props and the children; the model keeps that method and proves it against
 * `RecordText`, a recursive definition of the same text.
 */
module RecordRenderer {
  import opened Text

  /** index.ts declares its own two-space `indent`. */
  const Indent: string := "  "

  /** `indent.repeat(depth)`. */
  function Pad(depth: nat): (r: string)
    ensures |r| == 2 * depth
  {
    if depth == 0 then [] else Pad(depth - 1) + Indent
  }

  lemma {:induction false} PadSpaces(depth: nat)
    ensures forall i :: 0 <= i < |Pad(depth)| ==> Pad(depth)[i] == ' '
  {
    if depth > 0 {
      PadSpaces(depth - 1);
    }
  }

  /** The `type` jsx-parser gives a text node. */
  const TextKind: string := "#text"

  /** What `String()` makes of a prop object that has no `nodeValue`. */
  const ObjectString: string := "[object Object]"

  /** A prop as jsx-parser hands it over: a plain string for a quoted attribute, or a
      `{type, nodeValue}` object for an expression. `json` stands for
      `JSON.stringify(eval("(" + nodeValue + ")"))`, which the model does not run; it is
      `None` when that throws: `eval` raises an error (a free identifier, say), or
      `JSON.stringify` returns `undefined` (for a function) and `replaceAll` is then
      called on it. */
  datatype PropValue =
    | Plain(text: string)
    | Evaluated(nodeValue: string, json: Option<string>)

  /** One entry of `props`, in the order `for ... in` visits them. */
  datatype Prop = Prop(name: string, value: PropValue)

  /** The local `JSXElement` record type; a missing `props` or `children` is the empty
      sequence, a missing `nodeValue` is `None`. */
  datatype JsxRecord = JsxRecord(kind: string, props: seq<Prop>, children: seq<JsxRecord>, nodeValue: Option<string>)

  // ---------------------------------------------------------------------------
  // The pieces of an element's text
  // ---------------------------------------------------------------------------

  /** `startsWithCapital(el.type) ? el.type : 'Dom.' + el.type`. */
  function Factory(kind: string): string {
    if StartsWithCapital(kind) then kind else "Dom." + kind
  }

  /** The factory ends with the tag, after `Dom.` exactly when the tag is empty or
      starts with a lower-case letter. */
  lemma {:induction false} FactoryForm(kind: string)
    ensures var r := Factory(kind);
      |r| >= |kind| && r[|r| - |kind|..] == kind &&
      r[..|r| - |kind|] == if |kind| > 0 && !('a' <= kind[0] <= 'z') then [] else "Dom."
  {
  }

  /** A template literal interpolating an absent `nodeValue` writes `undefined`. */
  function NodeValueText(v: Option<string>): string {
    if v.None? then "undefined" else v.value
  }

  /** `el.props[prop].nodeValue` is truthy and its evaluation throws. */
  predicate PropThrows(v: PropValue) {
    v.Evaluated? && v.nodeValue != [] && v.json.None?
  }

  /** The value written after `= `: an evaluated expression as its JSON with the double
      quotes turned single, anything else as its string in single quotes. A prop whose
      evaluation throws is never written (see `Throws`); it is given the empty text. */
  function PropValueText(v: PropValue): (r: string)
    ensures v.Plain? ==> r == "'" + v.text + "'"
    ensures v.Evaluated? && v.nodeValue == [] ==> r == "'" + ObjectString + "'"
    ensures v.Evaluated? && v.nodeValue != [] && v.json.Some? ==>
      '"' !in r && ('"' !in v.json.value ==> r == v.json.value)
    ensures v.Evaluated? && v.nodeValue != [] && v.json.Some? ==>
      |r| == |v.json.value| &&
      forall i :: 0 <= i < |r| ==> r[i] == if v.json.value[i] == '"' then '\'' else v.json.value[i]
  {
    if v.Evaluated? && v.nodeValue != [] then
      if v.json.Some? then ReplaceAllChar(v.json.value, '"', "'") else []
    else if v.Plain? then "'" + v.text + "'"
    else "'" + ObjectString + "'"
  }

  /** A text node: its value in single quotes on a line of its own. */
  function TextLine(v: Option<string>, depth: nat): string {
    Pad(depth) + "'" + NodeValueText(v) + "'\n"
  }

  function PropLine(p: Prop, depth: nat): string {
    Pad(depth) + ".." + p.name + " = " + PropValueText(p.value) + "\n"
  }

  /** The prop lines, in order. */
  function PropLines(props: seq<Prop>, depth: nat): string {
    if props == [] then [] else PropLines(props[..|props| - 1], depth) + PropLine(props[|props| - 1], depth)
  }

  /** The factory call: `(` before and a line feed after it when there are props. */
  function Opening(kind: string, hasProps: bool, depth: nat): string {
    if hasProps then Pad(depth) + "(" + Factory(kind) + "()\n" else Pad(depth) + Factory(kind) + "()"
  }

  /** The factory call and, when there are props, their lines one level deeper. */
  function Head(kind: string, props: seq<Prop>, depth: nat): string {
    if |props| > 0 then Opening(kind, true, depth) + PropLines(props, depth + 1) else Opening(kind, false, depth)
  }

  /** What opens the children's block: `)` at the element's indent first when there
      are props. */
  function Reopen(hasProps: bool, depth: nat): string {
    if hasProps then Pad(depth) + ")(\n" else "(\n"
  }

  /** A child's text, followed by `,\n` when it is one of several children. */
  function ChildPiece(text: string, several: bool): string {
    if several then text + ",\n" else text
  }

  /** The part after the prop lines: the children's block, or the empty call. */
  function Closing(hasProps: bool, children: seq<JsxRecord>, depth: nat): string
    decreases children, 1
  {
    if |children| > 0 then Reopen(hasProps, depth) + ChildrenText(children, depth + 1, |children| > 1) + (Pad(depth) + ")")
    else if hasProps then Pad(depth) + ")()"
    else "()"
  }

  /** `el.type === '#text'`. */
  predicate IsText(el: JsxRecord) {
    el.kind == TextKind
  }

  /** What `jsxElementToOverReactString(el, depth)` returns. */
  function RecordText(el: JsxRecord, depth: nat): string
    decreases el, 2
  {
    if IsText(el) then TextLine(el.nodeValue, depth)
    else if 1 < |el.children| then Head(el.kind, el.props, depth) + Closing(|el.props| > 0, el.children, depth) + ",\n"
    else Head(el.kind, el.props, depth) + Closing(|el.props| > 0, el.children, depth)
  }

  /** Whether `jsxElementToOverReactString(el, depth)` throws instead of returning:
      some prop of a non-text element in the tree fails to evaluate. */
  predicate Throws(el: JsxRecord)
    decreases el, 1
  {
    !IsText(el) && (PropsThrow(el.props) || ChildrenThrow(el.children))
  }

  /** Some prop in `props` fails to evaluate. */
  predicate PropsThrow(props: seq<Prop>) {
    props != [] && (PropsThrow(props[..|props| - 1]) || PropThrows(props[|props| - 1].value))
  }

  predicate ChildrenThrow(children: seq<JsxRecord>)
    decreases children, 0
  {
    children != [] && (ChildrenThrow(children[..|children| - 1]) || Throws(children[|children| - 1]))
  }

  /** The children's texts in order, each as a `ChildPiece`. */
  function ChildrenText(children: seq<JsxRecord>, depth: nat, several: bool): string
    decreases children, 0
  {
    if children == [] then []
    else ChildrenText(children[..|children| - 1], depth, several) + ChildPiece(RecordText(children[|children| - 1], depth), several)
  }

  // ---------------------------------------------------------------------------
  // jsxElementToOverReactString
  // ---------------------------------------------------------------------------

  /** Returns `None` exactly where the source throws, and otherwise `RecordText`. */
  method JsxElementToOverReactString(el: JsxRecord, depth: nat) returns (r: Option<string>)
    ensures r.None? <==> Throws(el)
    ensures r.Some? ==> r.value == RecordText(el, depth)
    decreases el, 2
  {
    if IsText(el) {
      return Some(TextLine(el.nodeValue, depth));
    }
    var childCount := 0;
    var hasProps := |el.props| > 0;
    var dartOutput := Opening(el.kind, hasProps, depth);
    if hasProps {
      var withProps := AppendProps(dartOutput, el.props, depth + 1);
      if withProps.None? {
        return None;
      }
      dartOutput := withProps.value;
    }
    assert dartOutput == Head(el.kind, el.props, depth);
    if |el.children| > 0 {
      childCount := childCount + 1;
    }
    var closed := AppendClosing(dartOutput, hasProps, el.children, depth, el);
    if closed.None? {
      return None;
    }
    dartOutput := closed.value;
    if childCount < |el.children| {
      dartOutput := dartOutput + ",\n";
    }
    return Some(dartOutput);
  }

  /** The children's block, or the empty call when there are no children. */
  method AppendClosing(output: string, hasProps: bool, children: seq<JsxRecord>, depth: nat, ghost parent: JsxRecord) returns (r: Option<string>)
    requires forall i :: 0 <= i < |children| ==> children[i] < parent
    ensures r.None? <==> ChildrenThrow(children)
    ensures r.Some? ==> r.value == output + Closing(hasProps, children, depth)
    decreases parent, 1
  {
    if |children| > 0 {
      var open := Reopen(hasProps, depth);
      var block := AppendChildren(output + open, children, depth + 1, parent);
      if block.None? {
        return None;
      }
      r := Some(block.value + (Pad(depth) + ")"));
      Regroup(output, open, ChildrenText(children, depth + 1, |children| > 1), Pad(depth) + ")");
    } else if hasProps {
      r := Some(output + (Pad(depth) + ")()"));
    } else {
      r := Some(output + "()");
    }
  }

  /** The loop over `children`: each child's text at `depth`, then `,\n` when there is
      more than one child. */
  method AppendChildren(output: string, children: seq<JsxRecord>, depth: nat, ghost parent: JsxRecord) returns (r: Option<string>)
    requires forall i :: 0 <= i < |children| ==> children[i] < parent
    ensures r.None? <==> ChildrenThrow(children)
    ensures r.Some? ==> r.value == output + ChildrenText(children, depth, |children| > 1)
    decreases parent, 0
  {
    var several := |children| > 1;
    var acc := output;
    ghost var block: string := [];
    for i := 0 to |children|
      invariant !ChildrenThrow(children[..i])
      invariant ChildrenText(children[..i], depth, several) == block
      invariant acc == output + block
    {
      ChildrenThrowStep(children, i);
      var child := JsxElementToOverReactString(children[i], depth);
      if child.None? {
        ChildrenThrowAt(children);
        return None;
      }
      var piece := if several then child.value + ",\n" else child.value;
      ChildrenTextStep(children, i, depth, several);
      AppendAssoc(output, block, piece);
      acc := acc + piece;
      block := block + piece;
    }
    assert children[..|children|] == children;
    return Some(acc);
  }

  /** The loop over `props`: one line per prop, appended in order, unless a prop's
      evaluation throws. */
  method AppendProps(output: string, props: seq<Prop>, depth: nat) returns (r: Option<string>)
    ensures r.None? <==> PropsThrow(props)
    ensures r.Some? ==> r.value == output + PropLines(props, depth)
  {
    var acc := output;
    ghost var lines: string := [];
    for i := 0 to |props|
      invariant !PropsThrow(props[..i])
      invariant PropLines(props[..i], depth) == lines
      invariant acc == output + lines
    {
      PropsThrowStep(props, i);
      if PropThrows(props[i].value) {
        PropsThrowAt(props);
        return None;
      }
      PropLinesStep(props, i, depth);
      var line := PropLine(props[i], depth);
      AppendAssoc(output, lines, line);
      acc := acc + line;
      lines := lines + line;
    }
    assert props[..|props|] == props;
    return Some(acc);
  }

  lemma {:induction false} PropLinesStep(props: seq<Prop>, i: nat, depth: nat)
    requires i < |props|
    ensures PropLines(props[..i + 1], depth) == PropLines(props[..i], depth) + PropLine(props[i], depth)
  {
    assert props[..i + 1][..i] == props[..i];
  }

  lemma {:induction false} PropsThrowStep(props: seq<Prop>, i: nat)
    requires i < |props|
    ensures PropsThrow(props[..i + 1]) <==> PropsThrow(props[..i]) || PropThrows(props[i].value)
  {
    assert props[..i + 1][..i] == props[..i];
  }

  /** The props throw exactly when one of them does. */
  lemma {:induction false} PropsThrowAt(props: seq<Prop>)
    ensures PropsThrow(props) <==> exists i :: 0 <= i < |props| && PropThrows(props[i].value)
  {
    if props != [] {
      var init := props[..|props| - 1];
      PropsThrowAt(init);
      assert forall i :: 0 <= i < |init| ==> init[i] == props[i];
    }
  }

  /** The children throw exactly when one of them does. */
  lemma {:induction false} ChildrenThrowAt(children: seq<JsxRecord>)
    ensures ChildrenThrow(children) <==> exists i :: 0 <= i < |children| && Throws(children[i])
  {
    if children != [] {
      var init := children[..|children| - 1];
      ChildrenThrowAt(init);
      assert forall i :: 0 <= i < |init| ==> init[i] == children[i];
    }
  }

  lemma {:induction false} ChildrenThrowStep(children: seq<JsxRecord>, i: nat)
    requires i < |children|
    ensures ChildrenThrow(children[..i + 1]) <==> ChildrenThrow(children[..i]) || Throws(children[i])
  {
    assert children[..i + 1][..i] == children[..i];
  }

  lemma {:induction false} ChildrenTextStep(children: seq<JsxRecord>, i: nat, depth: nat, several: bool)
    requires i < |children|
    ensures ChildrenText(children[..i + 1], depth, several) == ChildrenText(children[..i], depth, several) + ChildPiece(RecordText(children[i], depth), several)
  {
    assert children[..i + 1][..i] == children[..i];
  }

  lemma {:induction false} Regroup(a: string, b: string, c: string, d: string)
    ensures a + b + c + d == a + (b + c + d)
  {}
}
