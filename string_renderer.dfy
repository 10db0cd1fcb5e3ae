/**
 * The string-returning renderer of utils/jsx2overreact.ts: every converter
 * returns the text of its node, and the element converter runs the regex
 * cleanups of the `Cleanup` module over what it built.
 *
 * The pure converters are functions. `jsxToOverReactString`,
 * `convertObjectExpression` and `convertJSXChild`, which build their output
 * with `+=` inside loops, are methods proved to return what the functions
 * `ProgramText`, `ObjectText` and `ChildText` specify. `None` stands for a call
 * that never returns: `convertName` on a `JSXNamespacedName` recurses on the
 * same node without end.
 */
module StringRenderer {
  import opened Text
  import opened Estree
  import opened Cleanup

  const Indent: string := "  "

  /** `indent.repeat(depth)`. */
  function Pad(depth: nat): (r: string)
    ensures |r| == 2 * depth
    ensures forall i :: 0 <= i < |r| ==> r[i] == ' '
  {
    if depth == 0 then [] else Pad(depth - 1) + Indent
  }

  /** What `convertExpression` writes before the JSON of a node it does not handle. */
  const Unhandled: string := "EXPRESSION IDK: "

  /** JavaScript's `String(value)` of an ESTree node object. */
  const ObjectString: string := "[object Object]"

  // ---------------------------------------------------------------------------
  // Names
  // ---------------------------------------------------------------------------

  /** `convertName` on a tag name: a member expression yields its property only. */
  function ConvertName(name: JSXName): (r: Option<string>)
    ensures r.None? <==> name.NameNamespaced?
    ensures name.NameMember? ==> r == Some(name.property)
  {
    match name
    case NameIdentifier(n) => Some(n)
    case NameMember(_, property) => Some(property)
    case NameNamespaced(_, _) => None
  }

  /** The capital rule of `convertElementName`: a name whose first character is not
      a lower-case letter stays as it is, any other (the empty one included) gets
      the `Dom.` prefix. */
  function FactoryName(converted: string): (r: string)
    ensures |converted| > 0 && !('a' <= converted[0] <= 'z') ==> r == converted
    ensures !(|converted| > 0 && !('a' <= converted[0] <= 'z')) ==> r == "Dom." + converted
  {
    if StartsWithCapital(converted) then converted else "Dom." + converted
  }

  function ConvertElementName(name: JSXName): (r: Option<string>)
    ensures r.None? <==> name.NameNamespaced?
    ensures r.Some? ==> |r.value| > 0
  {
    match ConvertName(name)
    case None => None
    case Some(converted) => Some(FactoryName(converted))
  }

  /** `convertName(attr.name.name)`: the name string of a `JSXIdentifier`, the local
      `JSXIdentifier` of a `JSXNamespacedName`. */
  function AttributeName(name: AttrName): string {
    match name
    case AttrIdentifier(n) => n
    case AttrNamespaced(_, local) => local
  }

  // ---------------------------------------------------------------------------
  // Text
  // ---------------------------------------------------------------------------

  /** `s.replace(/(\r\n|\n|\r)/gm, "")`: the characters of `s` other than line
      breaks, in order. */
  function RemoveBreaks(s: string): (r: string)
    ensures forall i :: 0 <= i < |r| ==> !IsBreak(r[i])
    ensures r == Without(Without(s, '\n'), '\r')
  {
    if s == [] then []
    else
      WithoutAppend(if s[0] == '\n' then [] else [s[0]], Without(s[1..], '\n'), '\r');
      assert [s[0]][1..] == [];
      (if IsBreak(s[0]) then [] else [s[0]]) + RemoveBreaks(s[1..])
  }

  /** `s.replaceAll("'", "\\'")`. */
  function EscapeQuotes(s: string): string {
    ReplaceAllChar(s, '\'', "\\'")
  }

  function CleanString(s: string): string {
    var trimmed := Trim(s);
    if RemoveBreaks(trimmed) == [] then [] else "'" + EscapeQuotes(trimmed) + "'"
  }

  /** `cleanString` is empty exactly for whitespace-only text; otherwise it is the
      trimmed text, quotes escaped, in single quotes. It is never a lone line feed. */
  lemma {:induction false} CleanStringSpec(s: string)
    ensures CleanString(s) == [] <==> IsBlank(s)
    ensures !IsBlank(s) ==> CleanString(s) == "'" + EscapeQuotes(Trim(s)) + "'"
    ensures CleanString(s) != "\n"
  {
    TrimSpec(s);
    var t := Trim(s);
    if t != [] {
      assert !IsBreak(t[0]);
      assert RemoveBreaks(t) == [t[0]] + RemoveBreaks(t[1..]);
    }
  }

  /** Every `'` of the escaped text has a backslash before it. */
  lemma {:induction false} QuotesEscaped(s: string)
    ensures var e := EscapeQuotes(s);
      forall i :: 0 <= i < |e| && e[i] == '\'' ==> i > 0 && e[i - 1] == '\\'
    decreases |s|
  {
    if s != [] {
      QuotesEscaped(s[1..]);
      var head := if s[0] == '\'' then "\\'" else [s[0]];
      var tail := EscapeQuotes(s[1..]);
      var e := EscapeQuotes(s);
      assert e == head + tail;
      forall i | 0 <= i < |e| && e[i] == '\''
        ensures i > 0 && e[i - 1] == '\\'
      {
        if i >= |head| {
          assert tail[i - |head|] == e[i];
          if i > |head| {
            assert tail[i - |head| - 1] == e[i - 1];
          }
        }
      }
    }
  }

  /** Escaping only inserts backslashes: without them, the escaped text is the text. */
  lemma {:induction false} EscapeKeepsText(s: string)
    ensures Without(EscapeQuotes(s), '\\') == Without(s, '\\')
    decreases |s|
  {
    if s != [] {
      EscapeKeepsText(s[1..]);
      var head := if s[0] == '\'' then "\\'" else [s[0]];
      assert EscapeQuotes(s) == head + EscapeQuotes(s[1..]);
      WithoutAppend(head, EscapeQuotes(s[1..]), '\\');
      WithoutSplit(s, '\\');
      assert [s[0]][1..] == [];
      assert "\\'"[1..] == "'" && "'"[1..] == [];
    }
  }

  /** `convertExpression` on a `Literal`: a string goes in single quotes as it is,
      anything else is written as JavaScript's `String(value)`. */
  function LiteralString(value: LiteralValue): string {
    match value
    case StringValue(s) => "'" + s + "'"
    case NumberValue(text) => text
    case BooleanValue(b) => if b then "true" else "false"
    case NullValue => "null"
    case RegExpValue(pattern, flags) => "/" + pattern + "/" + flags
    case BigIntValue(digits) => digits
  }

  // ---------------------------------------------------------------------------
  // The converters
  // ---------------------------------------------------------------------------

  function ConvertExpression(e: Node, depth: nat): Option<string>
    decreases e, 2
  {
    match e
    case JSXElement(_, _, _) => ChildText(e, depth)
    case JSXFragment(_) => ChildText(e, depth)
    case Identifier(name) => Some(name)
    case Literal(_, value) => Some(LiteralString(value))
    case ObjectExpression(properties) => ObjectText(properties)
    case JSXExpressionContainer(inner) => ConvertExpression(inner, depth)
    case _ => Some(Unhandled + Kind(e))
  }

  /** `convertObjectExpression`: the properties between braces, joined by `,\n`, the
      whole turned into a single-quoted JSON string by `formatValue`. */
  function ObjectText(properties: seq<Node>): Option<string>
    decreases properties, 1
  {
    match PropertyTexts(properties)
    case None => None
    case Some(texts) => Some(SingleQuoted("{" + Join(texts, ",\n") + "}"))
  }

  function PropertyTexts(properties: seq<Node>): Option<seq<string>>
    decreases properties, 0
  {
    if properties == [] then Some([])
    else Snoc(PropertyTexts(properties[..|properties| - 1]), ConvertObjectLiteralElementLike(properties[|properties| - 1]))
  }

  /** Key and value are converted at depth 0; a spread writes its argument object as
      JavaScript's `String` does, and any other node falls through to `undefined`. */
  function ConvertObjectLiteralElementLike(p: Node): Option<string>
    decreases p, 3
  {
    match p
    case Property(key, value, _, _, _, _) =>
      (match ConvertExpression(key, 0)
       case None => None
       case Some(k) =>
         match ConvertExpression(value, 0)
         case None => None
         case Some(v) => Some("'" + k + "': " + v))
    case SpreadElement(_) => Some("..addAll(" + ObjectString + ")")
    case _ => Some("undefined")
  }

  function ConvertJSXAttribute(a: Node, depth: nat): Option<string>
    decreases a, 3
  {
    match a
    case JSXAttribute(name, value) =>
      (match ConvertJSXAttributeValue(value, depth)
       case None => None
       case Some(v) => Some(".." + AttributeName(name) + " = " + v))
    case _ => Some("")
  }

  function ConvertJSXAttributeValue(value: Option<Node>, depth: nat): Option<string>
    decreases value, 3
  {
    match value
    case None => Some("null")
    case Some(n) =>
      if n.Literal? && n.literal.StringValue? then Some(CleanString(n.literal.s))
      else if n.JSXElement? || n.JSXExpressionContainer? || n.JSXFragment? then ConvertExpression(n, depth)
      else Some(ObjectString)
  }

  /** `convertJSXChild`: an element or fragment, a text child, or `""` for anything
      else; always passed through the cleanups. */
  function ChildText(el: Node, depth: nat): Option<string>
    decreases el, 1
  {
    match el
    case JSXElement(tag, attributes, children) =>
      (match ConvertElementName(tag)
       case None => None
       case Some(name) =>
         ElementResult(name, AttributeLines(attributes, depth + 1), |attributes| > 0, KidTexts(children, depth + 1), |children| > 0, depth))
    case JSXFragment(children) =>
      ElementResult(FactoryName("Fragment"), Some([]), false, KidTexts(children, depth + 1), |children| > 0, depth)
    case JSXText(value) => Some(Tidy(TextLine(value, depth)))
    case _ => Some(Tidy([]))
  }

  /** The attribute lines, each indented at `depth` and ended by a line feed, with the
      spaces after `=` collapsed. */
  function AttributeLines(attributes: seq<Node>, depth: nat): Option<string>
    decreases attributes, 0
  {
    if attributes == [] then Some([])
    else AppendLine(AttributeLines(attributes[..|attributes| - 1], depth), ConvertJSXAttribute(attributes[|attributes| - 1], depth), depth)
  }

  /** The converted children that are not `""`, in order. */
  function KidTexts(children: seq<Node>, depth: nat): Option<seq<string>>
    decreases children, 0
  {
    if children == [] then Some([])
    else SnocKept(KidTexts(children[..|children| - 1], depth), ChildText(children[|children| - 1], depth))
  }

  // ---------------------------------------------------------------------------
  // Layout
  // ---------------------------------------------------------------------------

  /** One more converted item: a call that does not return makes the whole not return. */
  function Snoc(init: Option<seq<string>>, last: Option<string>): Option<seq<string>> {
    if init.None? || last.None? then None else Some(init.value + [last.value])
  }

  /** As `Snoc`, but an empty text is filtered out. */
  function SnocKept(init: Option<seq<string>>, last: Option<string>): Option<seq<string>> {
    if init.None? || last.None? then None
    else if last.value == [] then init
    else Some(init.value + [last.value])
  }

  function AppendLine(init: Option<string>, last: Option<string>, depth: nat): Option<string> {
    if init.None? || last.None? then None else Some(init.value + AttributeLine(last.value, depth))
  }

  function AttributeLine(text: string, depth: nat): string {
    CollapseAfterEquals(Pad(depth) + text + "\n")
  }

  function TextLine(value: string, depth: nat): string {
    var cleaned := CleanString(value);
    if cleaned != [] && cleaned != "\n" then Pad(depth) + cleaned + "\n" else []
  }

  /** What follows each surviving child: `,\n` only when more than one survives. */
  function KidSeparator(kids: seq<string>): string {
    if |kids| > 1 then ",\n" else []
  }

  /** Each part followed by `sep`. */
  function Separated(parts: seq<string>, sep: string): string {
    if parts == [] then [] else Separated(parts[..|parts| - 1], sep) + (parts[|parts| - 1] + sep)
  }

  /** The first line of an element at `depth`: `(` before the name and a line break
      after `()` exactly when there are attributes. */
  function Opening(name: string, hasProps: bool, depth: nat): string {
    Pad(depth) + OpenTail(name, hasProps)
  }

  function OpenTail(name: string, hasProps: bool): string {
    if hasProps then "(" + name + "()\n" else name + "()"
  }

  /** What opens the child block: `)` at the element's indent closes the attribute
      block first when there is one. */
  function Reopen(hasProps: bool, depth: nat): string {
    if hasProps then Pad(depth) + ")" + "(\n" else "(\n"
  }

  function Closing(hasProps: bool, hasChildren: bool, kids: seq<string>, depth: nat): string {
    if hasChildren then Reopen(hasProps, depth) + Separated(kids, KidSeparator(kids)) + (Pad(depth) + ")")
    else if hasProps then Pad(depth) + ")()"
    else "()"
  }

  /** An element or fragment whose attributes and children all convert: its text,
      cleaned up. */
  function ElementResult(name: string, lines: Option<string>, hasProps: bool, kids: Option<seq<string>>, hasChildren: bool, depth: nat): Option<string> {
    if lines.None? || kids.None? then None
    else Some(Tidy(ElementOutput(name, hasProps, lines.value, hasChildren, kids.value, depth)))
  }

  /** The text an element or fragment builds before the cleanups. */
  function ElementOutput(name: string, hasProps: bool, lines: string, hasChildren: bool, kids: seq<string>, depth: nat): string {
    Finish(Opening(name, hasProps, depth) + lines, hasProps, hasChildren, kids, depth)
  }

  /** The element's text after its opening and attribute lines `head`: the closing
      parentheses around the child block, and `,\n` when more than one child survives. */
  function Finish(head: string, hasProps: bool, hasChildren: bool, kids: seq<string>, depth: nat): string {
    var body := head + Closing(hasProps, hasChildren, kids, depth);
    if hasChildren && 1 < |kids| then body + ",\n" else body
  }

  // ---------------------------------------------------------------------------
  // Statements and the program
  // ---------------------------------------------------------------------------

  /** Only an expression statement produces text. */
  function ConvertStatement(s: Node): (r: Option<string>)
    ensures !s.ExpressionStatement? ==> r == Some([])
  {
    if s.ExpressionStatement? then ConvertExpression(s.expression, 0) else Some([])
  }

  predicate AllStatements(body: seq<Node>) {
    forall i :: 0 <= i < |body| ==> ConvertStatement(body[i]).Some?
  }

  function StatementTexts(body: seq<Node>): (r: seq<string>)
    requires AllStatements(body)
    ensures |r| == |body|
    ensures forall i :: 0 <= i < |body| ==> r[i] == ConvertStatement(body[i]).value
  {
    seq(|body|, i requires 0 <= i < |body| => ConvertStatement(body[i]).value)
  }

  // ---------------------------------------------------------------------------
  // The loops
  // ---------------------------------------------------------------------------

  /** `jsxToOverReactString`: the statements' texts one after another. */
  method JsxToOverReactString(program: Program) returns (r: Option<string>)
    ensures r.Some? <==> AllStatements(program.body)
    ensures r.Some? ==> r.value == Concat(StatementTexts(program.body))
  {
    var body := program.body;
    var output := "";
    for i := 0 to |body|
      invariant AllStatements(body[..i])
      invariant output == Concat(StatementTexts(body[..i]))
    {
      var text := ConvertStatement(body[i]);
      if text.None? {
        return None;
      }
      StatementsStep(body, i);
      output := output + text.value;
    }
    assert body[..|body|] == body;
    return Some(output);
  }

  /** One more converted statement extends the texts by its own. */
  lemma {:induction false} StatementsStep(body: seq<Node>, i: nat)
    requires i < |body| && AllStatements(body[..i]) && ConvertStatement(body[i]).Some?
    ensures AllStatements(body[..i + 1])
    ensures Concat(StatementTexts(body[..i + 1])) == Concat(StatementTexts(body[..i])) + ConvertStatement(body[i]).value
  {
    assert forall k :: 0 <= k < i ==> body[..i + 1][k] == body[..i][k];
    assert StatementTexts(body[..i + 1])[..i] == StatementTexts(body[..i]);
  }

  lemma {:induction false} PropertyTextsFailPrefix(properties: seq<Node>, j: nat)
    requires j <= |properties| && PropertyTexts(properties[..j]).None?
    ensures PropertyTexts(properties).None?
    decreases |properties|
  {
    if j < |properties| {
      var init := properties[..|properties| - 1];
      assert init[..j] == properties[..j];
      PropertyTextsFailPrefix(init, j);
    } else {
      assert properties[..j] == properties;
    }
  }

  lemma {:induction false} JoinAppend(parts: seq<string>, last: string, sep: string)
    requires |parts| >= 1
    ensures Join(parts + [last], sep) == Join(parts, sep) + sep + last
  {
    assert (parts + [last])[..|parts|] == parts;
  }

  lemma {:induction false} PropertyTextsSnoc(properties: seq<Node>, i: nat)
    requires i < |properties|
    ensures PropertyTexts(properties[..i + 1]) ==
      Snoc(PropertyTexts(properties[..i]), ConvertObjectLiteralElementLike(properties[i]))
  {
    assert properties[..i + 1][..i] == properties[..i];
  }

  /** The text `convertObjectExpression` holds after `i` of `n` properties. */
  function ObjectPrefix(texts: seq<string>, n: nat): string {
    "{" + Join(texts, ",\n") + (if 0 < |texts| < n then ",\n" else [])
  }

  lemma {:induction false} ObjectPrefixStep(texts: seq<string>, text: string, n: nat)
    requires |texts| < n
    ensures ObjectPrefix(texts, n) + text + (if |texts| + 1 < n then ",\n" else []) == ObjectPrefix(texts + [text], n)
  {
    if |texts| > 0 {
      JoinAppend(texts, text, ",\n");
    } else {
      assert texts + [text] == [text];
    }
  }

  /** `convertObjectExpression`: `count` counts the properties written so far, and a
      separator follows every property but the last. */
  method ConvertObjectExpression(properties: seq<Node>) returns (r: Option<string>)
    ensures r == ObjectText(properties)
    ensures r.Some? ==> |r.value| >= 2 && r.value[0] == '\'' && r.value[|r.value| - 1] == '\''
  {
    var output := "{";
    var count := 0;
    ghost var texts: seq<string> := [];
    for i := 0 to |properties|
      invariant count == i && |texts| == i
      invariant PropertyTexts(properties[..i]) == Some(texts)
      invariant output == ObjectPrefix(texts, |properties|)
    {
      count := count + 1;
      var text := ConvertObjectLiteralElementLike(properties[i]);
      PropertyTextsSnoc(properties, i);
      if text.None? {
        PropertyTextsFailPrefix(properties, i + 1);
        return None;
      }
      ghost var before := output;
      output := output + text.value;
      if count < |properties| {
        output := output + ",\n";
      }
      ObjectPrefixStep(texts, text.value, |properties|);
      texts := texts + [text.value];
    }
    assert properties[..|properties|] == properties;
    assert output == "{" + Join(texts, ",\n");
    output := output + "}";
    assert ObjectText(properties) == Some(SingleQuoted(output));
    SingleQuotedSpec(output);
    return Some(SingleQuoted(output));
  }

  lemma {:induction false} AttributeLinesSnoc(attributes: seq<Node>, i: nat, depth: nat)
    requires i < |attributes|
    ensures AttributeLines(attributes[..i + 1], depth) ==
      AppendLine(AttributeLines(attributes[..i], depth), ConvertJSXAttribute(attributes[i], depth), depth)
  {
    assert attributes[..i + 1][..i] == attributes[..i];
  }

  lemma {:induction false} AttributeLinesFailPrefix(attributes: seq<Node>, j: nat, depth: nat)
    requires j <= |attributes| && AttributeLines(attributes[..j], depth).None?
    ensures AttributeLines(attributes, depth).None?
    decreases |attributes|
  {
    if j < |attributes| {
      var init := attributes[..|attributes| - 1];
      assert init[..j] == attributes[..j];
      AttributeLinesFailPrefix(init, j, depth);
    } else {
      assert attributes[..j] == attributes;
    }
  }

  lemma {:induction false} KidTextsSnoc(children: seq<Node>, i: nat, depth: nat)
    requires i < |children|
    ensures KidTexts(children[..i + 1], depth) == SnocKept(KidTexts(children[..i], depth), ChildText(children[i], depth))
  {
    assert children[..i + 1][..i] == children[..i];
  }

  lemma {:induction false} KidTextsFailPrefix(children: seq<Node>, j: nat, depth: nat)
    requires j <= |children| && KidTexts(children[..j], depth).None?
    ensures KidTexts(children, depth).None?
    decreases |children|
  {
    if j < |children| {
      var init := children[..|children| - 1];
      assert init[..j] == children[..j];
      KidTextsFailPrefix(init, j, depth);
    } else {
      assert children[..j] == children;
    }
  }

  lemma {:induction false} SeparatedSnoc(parts: seq<string>, j: nat, sep: string)
    requires j < |parts|
    ensures Separated(parts[..j + 1], sep) == Separated(parts[..j], sep) + (parts[j] + sep)
  {
    assert parts[..j + 1][..j] == parts[..j];
  }

  /** `convertJSXChild`. */
  method ConvertJSXChild(el: Node, depth: nat) returns (r: Option<string>)
    ensures r == ChildText(el, depth)
    decreases el, 3
  {
    if el.JSXElement? {
      var name := ConvertElementName(el.tagName);
      if name.None? {
        return None;
      }
      r := ConvertElement(name.value, el.attributes, el.children, depth, el);
    } else if el.JSXFragment? {
      r := ConvertElement(FactoryName("Fragment"), [], el.fragmentChildren, depth, el);
    } else if el.JSXText? {
      var output := ConvertText(el.text, depth);
      return Some(output);
    } else {
      return Some(Tidy(""));
    }
  }

  /** The `JSXElement`/`JSXFragment` case of `convertJSXChild`, for the element
      `parent` with the given converted name, attributes and children. */
  method ConvertElement(name: string, attributes: seq<Node>, children: seq<Node>, depth: nat, ghost parent: Node)
    returns (r: Option<string>)
    requires forall i :: 0 <= i < |children| ==> children[i] < parent
    ensures r == ElementResult(name, AttributeLines(attributes, depth + 1), |attributes| > 0,
                               KidTexts(children, depth + 1), |children| > 0, depth)
    decreases parent, 2
  {
    var head := OpenElement(name, attributes, depth);
    if head.None? {
      return None;
    }
    var output := CloseElement(head.value, |attributes| > 0, children, depth, parent);
    if output.None? {
      return None;
    }
    return Some(Tidy(output.value));
  }

  /** The opening of `convertJSXChild`'s element case: the name line, then one line
      per attribute when there are any. */
  method OpenElement(name: string, attributes: seq<Node>, depth: nat) returns (r: Option<string>)
    ensures AttributeLines(attributes, depth + 1).None? ==> r.None?
    ensures AttributeLines(attributes, depth + 1).Some? ==>
      r == Some(Opening(name, |attributes| > 0, depth) + AttributeLines(attributes, depth + 1).value)
  {
    var hasProps := |attributes| > 0;
    var output := Pad(depth) + (if hasProps then "(" + name + "()\n" else name + "()");
    if hasProps {
      r := AppendAttributes(output, attributes, depth + 1);
    } else {
      assert AttributeLines(attributes, depth + 1) == Some([]);
      AppendEmpty(output);
      r := Some(output);
    }
  }

  /** The rest of `convertJSXChild`'s element case after `head`: the child block
      between parentheses, then `,\n` when more than one child survives. */
  method CloseElement(head: string, hasProps: bool, children: seq<Node>, depth: nat, ghost parent: Node)
    returns (r: Option<string>)
    requires forall i :: 0 <= i < |children| ==> children[i] < parent
    ensures KidTexts(children, depth + 1).None? ==> r.None?
    ensures KidTexts(children, depth + 1).Some? ==>
      r == Some(Finish(head, hasProps, |children| > 0, KidTexts(children, depth + 1).value, depth))
    decreases parent, 1
  {
    var hasChildren := |children| > 0;
    var childCount := 0;
    var convertedKids: seq<string> := [];
    var output := head;
    if hasChildren {
      childCount := childCount + 1;
      if hasProps {
        output := output + (Pad(depth) + ")" + "(\n");
      } else {
        output := output + "(\n";
      }
      var kids := ConvertKids(children, depth + 1, parent);
      if kids.None? {
        return None;
      }
      convertedKids := kids.value;
      output := AppendKids(output, convertedKids);
      output := output + (Pad(depth) + ")");
      ChildBlock(head, Reopen(hasProps, depth), Separated(convertedKids, KidSeparator(convertedKids)), Pad(depth) + ")");
    } else if hasProps {
      output := output + (Pad(depth) + ")()");
    } else {
      output := output + "()";
    }
    assert KidTexts(children, depth + 1) == Some(convertedKids);
    if hasChildren && childCount < |convertedKids| {
      output := output + ",\n";
    }
    return Some(output);
  }

  lemma {:induction false} KidStep(children: seq<Node>, i: nat, depth: nat, kids: seq<string>, kid: Option<string>)
    requires i < |children| && KidTexts(children[..i], depth) == Some(kids)
    requires kid == ChildText(children[i], depth)
    ensures kid.None? ==> KidTexts(children, depth).None?
    ensures kid.Some? ==> KidTexts(children[..i + 1], depth) == Some(if kid.value == [] then kids else kids + [kid.value])
  {
    KidTextsSnoc(children, i, depth);
    if kid.None? {
      KidTextsFailPrefix(children, i + 1, depth);
    }
  }

  /** `el.children.map(child => convertJSXChild(child, depth)).filter(child => child != '')`. */
  method ConvertKids(children: seq<Node>, depth: nat, ghost parent: Node) returns (r: Option<seq<string>>)
    requires forall i :: 0 <= i < |children| ==> children[i] < parent
    ensures r == KidTexts(children, depth)
    decreases parent, 0
  {
    var kept: seq<string> := [];
    for i := 0 to |children|
      invariant KidTexts(children[..i], depth) == Some(kept)
    {
      var kid := ConvertJSXChild(children[i], depth);
      KidStep(children, i, depth, kept, kid);
      if kid.None? {
        return None;
      }
      if kid.value != "" {
        kept := kept + [kid.value];
      }
    }
    assert children[..|children|] == children;
    return Some(kept);
  }

  lemma {:induction false} ChildBlock(head: string, open: string, block: string, close: string)
    ensures head + open + block + close == head + (open + block + close)
  {
  }

  /** The loop of `convertJSXChild` that writes the surviving children, each followed
      by `,\n` when more than one survives. */
  method AppendKids(output: string, convertedKids: seq<string>) returns (r: string)
    ensures r == output + Separated(convertedKids, KidSeparator(convertedKids))
  {
    r := output;
    for j := 0 to |convertedKids|
      invariant r == output + Separated(convertedKids[..j], KidSeparator(convertedKids))
    {
      SeparatedSnoc(convertedKids, j, KidSeparator(convertedKids));
      r := r + (convertedKids[j] + (if |convertedKids| > 1 then ",\n" else ""));
    }
    assert convertedKids[..|convertedKids|] == convertedKids;
  }

  /** The `JSXText` case of `convertJSXChild`. */
  method ConvertText(value: string, depth: nat) returns (r: string)
    ensures r == Tidy(TextLine(value, depth))
  {
    var output := "";
    var cleaned := CleanString(value);
    if cleaned != "" && cleaned != "\n" {
      var line := Pad(depth) + cleaned + "\n";
      EmptyAppend(line);
      output := output + line;
    }
    assert output == TextLine(value, depth);
    return Tidy(output);
  }

  /** The attribute loop of `convertJSXChild`: each attribute on its own line at
      `depth`, the spaces after `=` collapsed. */
  method AppendAttributes(output: string, attributes: seq<Node>, depth: nat) returns (r: Option<string>)
    ensures AttributeLines(attributes, depth).None? ==> r.None?
    ensures AttributeLines(attributes, depth).Some? ==> r == Some(output + AttributeLines(attributes, depth).value)
  {
    var written := output;
    ghost var lines: string := [];
    for i := 0 to |attributes|
      invariant AttributeLines(attributes[..i], depth) == Some(lines)
      invariant written == output + lines
    {
      var text := ConvertJSXAttribute(attributes[i], depth);
      AttributeLinesSnoc(attributes, i, depth);
      if text.None? {
        AttributeLinesFailPrefix(attributes, i + 1, depth);
        return None;
      }
      var attributeString := Pad(depth) + text.value + "\n";
      written := written + CollapseAfterEquals(attributeString);
      lines := lines + AttributeLine(text.value, depth);
    }
    assert attributes[..|attributes|] == attributes;
    return Some(written);
  }
}
