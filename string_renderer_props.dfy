/**
 * What the string-returning renderer of utils/jsx2overreact.ts promises: the
 * child filter and the comma rule, the attribute lines, the layout of an
 * element with and without children, quoting, and that its cleanups leave no
 * line opening with a comma.
 */
module StringRendererProps {
  import opened Text
  import opened Estree
  import opened Cleanup
  import opened StringRenderer

  // ---------------------------------------------------------------------------
  // Children: map, then drop the empty texts
  // ---------------------------------------------------------------------------

  predicate AllChildren(children: seq<Node>, depth: nat) {
    forall i :: 0 <= i < |children| ==> ChildText(children[i], depth).Some?
  }

  function ChildTexts(children: seq<Node>, depth: nat): (r: seq<string>)
    requires AllChildren(children, depth)
    ensures |r| == |children|
    ensures forall i :: 0 <= i < |children| ==> r[i] == ChildText(children[i], depth).value
  {
    seq(|children|, i requires 0 <= i < |children| => ChildText(children[i], depth).value)
  }

  /** The texts that are not empty, in order. */
  function NonEmpty(texts: seq<string>): (r: seq<string>)
    ensures |r| <= |texts|
    ensures forall i :: 0 <= i < |r| ==> r[i] != [] && r[i] in texts
  {
    if texts == [] then []
    else if texts[|texts| - 1] == [] then NonEmpty(texts[..|texts| - 1])
    else NonEmpty(texts[..|texts| - 1]) + [texts[|texts| - 1]]
  }

  lemma {:induction false} NonEmptySnoc(texts: seq<string>, t: string)
    ensures NonEmpty(texts + [t]) == if t == [] then NonEmpty(texts) else NonEmpty(texts) + [t]
  {
    assert (texts + [t])[..|texts|] == texts;
  }

  lemma {:induction false} AllChildrenInit(children: seq<Node>, depth: nat)
    requires children != []
    ensures AllChildren(children, depth) <==>
      AllChildren(children[..|children| - 1], depth) && ChildText(children[|children| - 1], depth).Some?
  {
    var init := children[..|children| - 1];
    assert forall i :: 0 <= i < |init| ==> init[i] == children[i];
  }

  lemma {:induction false} ChildTextsSnoc(children: seq<Node>, depth: nat)
    requires children != [] && AllChildren(children, depth)
    ensures AllChildren(children[..|children| - 1], depth)
    ensures ChildTexts(children, depth) ==
      ChildTexts(children[..|children| - 1], depth) + [ChildText(children[|children| - 1], depth).value]
  {
    var init := children[..|children| - 1];
    AllChildrenInit(children, depth);
    var a := ChildTexts(children, depth);
    var b := ChildTexts(init, depth) + [ChildText(children[|children| - 1], depth).value];
    forall i | 0 <= i < |a|
      ensures a[i] == b[i]
    {
      if i < |init| {
        assert init[i] == children[i];
      }
    }
  }

  /** `convertJSXChild` on the children returns exactly when it returns on each of
      them, and keeps the texts that are not empty, in source order. */
  lemma {:induction false} KidTextsSpec(children: seq<Node>, depth: nat)
    ensures KidTexts(children, depth).Some? <==> AllChildren(children, depth)
    ensures KidTexts(children, depth).Some? ==> KidTexts(children, depth).value == NonEmpty(ChildTexts(children, depth))
    decreases |children|
  {
    if children != [] {
      var init := children[..|children| - 1];
      var last := ChildText(children[|children| - 1], depth);
      KidTextsSpec(init, depth);
      AllChildrenInit(children, depth);
      assert KidTexts(children, depth) == SnocKept(KidTexts(init, depth), last);
      if KidTexts(children, depth).Some? {
        ChildTextsSnoc(children, depth);
        NonEmptySnoc(ChildTexts(init, depth), last.value);
      }
    }
  }

  // ---------------------------------------------------------------------------
  // Attributes
  // ---------------------------------------------------------------------------

  predicate AllAttributes(attributes: seq<Node>, depth: nat) {
    forall i :: 0 <= i < |attributes| ==> ConvertJSXAttribute(attributes[i], depth).Some?
  }

  function AttributeTexts(attributes: seq<Node>, depth: nat): (r: seq<string>)
    requires AllAttributes(attributes, depth)
    ensures |r| == |attributes|
    ensures forall i :: 0 <= i < |attributes| ==> r[i] == AttributeLine(ConvertJSXAttribute(attributes[i], depth).value, depth)
  {
    seq(|attributes|, i requires 0 <= i < |attributes| => AttributeLine(ConvertJSXAttribute(attributes[i], depth).value, depth))
  }

  lemma {:induction false} AllAttributesInit(attributes: seq<Node>, depth: nat)
    requires attributes != []
    ensures AllAttributes(attributes, depth) <==>
      AllAttributes(attributes[..|attributes| - 1], depth) && ConvertJSXAttribute(attributes[|attributes| - 1], depth).Some?
    ensures AllAttributes(attributes, depth) ==>
      AttributeTexts(attributes, depth) == AttributeTexts(attributes[..|attributes| - 1], depth) +
        [AttributeLine(ConvertJSXAttribute(attributes[|attributes| - 1], depth).value, depth)]
  {
    var init := attributes[..|attributes| - 1];
    assert forall i :: 0 <= i < |init| ==> init[i] == attributes[i];
  }

  /** The attribute block is one line per attribute, in source order. */
  lemma {:induction false} AttributeLinesSpec(attributes: seq<Node>, depth: nat)
    ensures AttributeLines(attributes, depth).Some? <==> AllAttributes(attributes, depth)
    ensures AttributeLines(attributes, depth).Some? ==> AttributeLines(attributes, depth).value == Concat(AttributeTexts(attributes, depth))
    decreases |attributes|
  {
    if attributes != [] {
      var init := attributes[..|attributes| - 1];
      AttributeLinesSpec(init, depth);
      AllAttributesInit(attributes, depth);
    }
  }

  /** An attribute line is indented at `depth`, has no `=` followed by two spaces, and
      differs from the attribute's text and its line feed in spaces only. */
  lemma {:induction false} AttributeLineSpec(text: string, depth: nat)
    ensures var line := AttributeLine(text, depth);
      && |line| >= 2 * depth && line[..2 * depth] == Pad(depth)
      && NoWideEquals(line)
      && Without(line, ' ') == Without(text + "\n", ' ')
  {
    var p := Pad(depth);
    var s := p + text + "\n";
    assert '=' !in p;
    assert s == p + (text + "\n");
    CollapseAfterPrefix(p, text + "\n");
    CollapseLeavesNoWideEquals(s);
    CollapseRemovesOnlySpaces(s);
    WithoutAppend(p, text + "\n", ' ');
    NonSpaceOfSpaces(p);
  }

  /** A spread attribute writes nothing, a missing value is `null`, and a string value
      is cleaned. */
  lemma {:induction false} AttributeForms(name: AttrName, argument: Node, raw: Option<string>, s: string, depth: nat)
    ensures ConvertJSXAttribute(JSXSpreadAttribute(argument), depth) == Some([])
    ensures ConvertJSXAttribute(JSXAttribute(name, None), depth) == Some(".." + AttributeName(name) + " = null")
    ensures ConvertJSXAttribute(JSXAttribute(name, Some(Literal(raw, StringValue(s)))), depth) ==
      Some(".." + AttributeName(name) + " = " + CleanString(s))
  {
    assert ".." + AttributeName(name) + " = " + "null" == ".." + AttributeName(name) + " = null";
  }

  // ---------------------------------------------------------------------------
  // Expressions and objects
  // ---------------------------------------------------------------------------

  /** Identifiers are written as their name, string literals in single quotes, and the
      kinds `convertExpression` does not handle as text opening with `EXPRESSION IDK: `. */
  lemma {:induction false} ExpressionForms(e: Node, depth: nat)
    ensures e.Identifier? ==> ConvertExpression(e, depth) == Some(e.name)
    ensures e.Literal? && e.literal.StringValue? ==> ConvertExpression(e, depth) == Some("'" + e.literal.s + "'")
    ensures e.JSXExpressionContainer? ==> ConvertExpression(e, depth) == ConvertExpression(e.contained, depth)
    ensures !(e.JSXElement? || e.JSXFragment? || e.Identifier? || e.Literal? || e.ObjectExpression? || e.JSXExpressionContainer?) ==>
      ConvertExpression(e, depth).Some? && |ConvertExpression(e, depth).value| >= |Unhandled| &&
      ConvertExpression(e, depth).value[..|Unhandled|] == Unhandled
  {
    if !(e.JSXElement? || e.JSXFragment? || e.Identifier? || e.Literal? || e.ObjectExpression? || e.JSXExpressionContainer?) {
      assert ConvertExpression(e, depth) == Some(Unhandled + Kind(e));
      assert (Unhandled + Kind(e))[..|Unhandled|] == Unhandled;
    }
  }

  /** An object expression is written as a single-quoted string holding no double quote. */
  lemma {:induction false} ObjectTextQuoted(properties: seq<Node>)
    ensures ObjectText(properties).Some? <==> PropertyTexts(properties).Some?
    ensures ObjectText(properties).Some? ==>
      var t := ObjectText(properties).value;
      |t| >= 2 && t[0] == '\'' && t[|t| - 1] == '\'' && '"' !in t
  {
    if PropertyTexts(properties).Some? {
      assert ObjectText(properties) == Some(SingleQuoted("{" + Join(PropertyTexts(properties).value, ",\n") + "}"));
      SingleQuotedSpec("{" + Join(PropertyTexts(properties).value, ",\n") + "}");
    }
  }

  lemma {:induction false} EmptyObject()
    ensures ObjectText([]) == Some("'{}'")
  {
    var body := "{" + Join([], ",\n") + "}";
    assert body == "{}";
    assert JsonEscape("{}") == "{}" by {
      assert "{}"[1..] == "}";
      assert "}"[1..] == [];
    }
    var q := JsonQuote(body);
    assert q == "\"" + "{}" + "\"";
    ReplaceAllCharAppend("\"" + "{}", "\"", '"', "'");
    ReplaceAllCharAppend("\"", "{}", '"', "'");
    assert ReplaceAllChar("\"", '"', "'") == "'";
    assert ReplaceAllChar(q, '"', "'") == "'" + "{}" + "'";
    assert PropertyTexts([]) == Some([]);
    assert ObjectText([]) == Some(SingleQuoted(body));
    assert SingleQuoted(body) == "'" + "{}" + "'";
    assert "'" + "{}" + "'" == "'{}'";
  }

  // ---------------------------------------------------------------------------
  // Layout
  // ---------------------------------------------------------------------------

  /** Before the cleanups, the text is indented at `depth` and opens with `(` exactly
      when there are attributes. */
  lemma {:induction false} OutputOpening(name: string, hasProps: bool, lines: string, hasChildren: bool, kids: seq<string>, depth: nat)
    requires |name| > 0
    ensures var out := ElementOutput(name, hasProps, lines, hasChildren, kids, depth);
      |out| > 2 * depth && out[..2 * depth] == Pad(depth) && out[2 * depth] == (if hasProps then '(' else name[0])
  {
    var pad := Pad(depth);
    var tail := OpenTail(name, hasProps);
    var close := Closing(hasProps, hasChildren, kids, depth);
    assert tail[0] == if hasProps then '(' else name[0];
    var out := ElementOutput(name, hasProps, lines, hasChildren, kids, depth);
    if hasChildren && 1 < |kids| {
      Group5(pad, tail, lines, close, ",\n");
      LeadingPad(pad, tail + lines + close + ",\n", out);
    } else {
      Group4(pad, tail, lines, close);
      LeadingPad(pad, tail + lines + close, out);
    }
  }

  /** A text that is `pad` before a non-empty `rest` starts with `pad` and then the first
      character of `rest`. */
  lemma {:induction false} LeadingPad(pad: string, rest: string, out: string)
    requires out == pad + rest && |rest| > 0
    ensures |out| > |pad| && out[..|pad|] == pad && out[|pad|] == rest[0]
  {
  }

  lemma {:induction false} Group4(a: string, b: string, c: string, d: string)
    ensures a + b + c + d == a + (b + c + d)
  {
  }

  lemma {:induction false} Group5(a: string, b: string, c: string, d: string, e: string)
    ensures a + b + c + d + e == a + (b + c + d + e)
  {
  }

  /** Before the cleanups, without children: `name()()`, or, with attributes,
      `(name()`, the attribute lines and `)()` at the element's indent. */
  lemma {:induction false} OutputChildless(name: string, hasProps: bool, lines: string, kids: seq<string>, depth: nat)
    requires !hasProps ==> lines == []
    ensures ElementOutput(name, hasProps, lines, false, kids, depth) ==
      if hasProps then Pad(depth) + ("(" + name + "()\n") + lines + (Pad(depth) + ")()")
      else Pad(depth) + (name + "()") + "()"
  {
    if !hasProps {
      AppendEmpty(Pad(depth) + (name + "()"));
    }
  }

  lemma {:induction false} SeparatedJoin(parts: seq<string>, sep: string)
    requires |parts| >= 1
    ensures Separated(parts, sep) == Join(parts, sep) + sep
    decreases |parts|
  {
    var init := parts[..|parts| - 1];
    if |parts| == 1 {
      assert init == [];
    } else {
      SeparatedJoin(init, sep);
    }
  }

  lemma {:induction false} SeparatedConcat(parts: seq<string>)
    ensures Separated(parts, []) == Concat(parts)
    decreases |parts|
  {
    if parts != [] {
      SeparatedConcat(parts[..|parts| - 1]);
    }
  }

  /** A `,\n` follows each surviving child when more than one survives; a lone child
      (or none) is written bare. */
  lemma {:induction false} CommaRule(kids: seq<string>)
    ensures Separated(kids, KidSeparator(kids)) ==
      if |kids| > 1 then Join(kids, ",\n") + ",\n" else Concat(kids)
  {
    if |kids| > 1 {
      SeparatedJoin(kids, ",\n");
    } else {
      SeparatedConcat(kids);
    }
  }

  /** Before the cleanups, the text ends with its closing `)`, followed by `,\n`
      exactly when more than one child survives. */
  lemma {:induction false} OutputEnding(name: string, hasProps: bool, lines: string, hasChildren: bool, kids: seq<string>, depth: nat)
    ensures var out := ElementOutput(name, hasProps, lines, hasChildren, kids, depth);
      if hasChildren && |kids| > 1 then |out| >= 3 && out[|out| - 3..] == "),\n"
      else |out| >= 1 && out[|out| - 1] == ')'
  {
    var head := Opening(name, hasProps, depth) + lines;
    var close := Closing(hasProps, hasChildren, kids, depth);
    assert close[|close| - 1] == ')';
    var out := ElementOutput(name, hasProps, lines, hasChildren, kids, depth);
    if hasChildren && |kids| > 1 {
      assert out[|out| - 3..] == [close[|close| - 1]] + ",\n";
    }
  }

  // ---------------------------------------------------------------------------
  // convertJSXChild
  // ---------------------------------------------------------------------------

  /** An element converts exactly when its name is not namespaced and all its
      attributes and children convert. */
  lemma {:induction false} ElementConverts(tag: JSXName, attributes: seq<Node>, children: seq<Node>, depth: nat)
    ensures ChildText(JSXElement(tag, attributes, children), depth).Some? <==>
      !tag.NameNamespaced? && AllAttributes(attributes, depth + 1) && AllChildren(children, depth + 1)
  {
    AttributeLinesSpec(attributes, depth + 1);
    KidTextsSpec(children, depth + 1);
  }

  /** A tag name as JSX writes it: no parenthesis and no comma. */
  predicate PlainName(s: string) {
    '(' !in s && ')' !in s && ',' !in s
  }

  lemma {:induction false} FactoryNamePlain(converted: string)
    requires PlainName(converted)
    ensures PlainName(FactoryName(converted))
  {
  }

  /** An element that converts is the cleaned-up text built from its factory name,
      its attribute lines and its kept children. */
  lemma {:induction false} ElementText(tag: JSXName, attributes: seq<Node>, children: seq<Node>, depth: nat)
    requires ChildText(JSXElement(tag, attributes, children), depth).Some?
    ensures ConvertElementName(tag).Some? && AttributeLines(attributes, depth + 1).Some? && KidTexts(children, depth + 1).Some?
    ensures ChildText(JSXElement(tag, attributes, children), depth).value ==
      Tidy(ElementOutput(ConvertElementName(tag).value, |attributes| > 0, AttributeLines(attributes, depth + 1).value,
        |children| > 0, KidTexts(children, depth + 1).value, depth))
  {
  }

  /** After the cleanups the text still starts with the indentation and then `(` or the
      name's first character. */
  lemma {:induction false} TidyOpening(name: string, hasProps: bool, lines: string, hasChildren: bool, kids: seq<string>, depth: nat)
    requires |name| > 0 && PlainName(name)
    ensures var r := Tidy(ElementOutput(name, hasProps, lines, hasChildren, kids, depth));
      |r| > 2 * depth && r[..2 * depth] == Pad(depth) && (r[2 * depth] == '(' <==> hasProps)
  {
    assert name[0] in name;
    var out := ElementOutput(name, hasProps, lines, hasChildren, kids, depth);
    OutputOpening(name, hasProps, lines, hasChildren, kids, depth);
    var p := out[..2 * depth + 1];
    assert p == Pad(depth) + [out[2 * depth]];
    assert out == p + out[2 * depth + 1..];
    TidyPrefix(p, out[2 * depth + 1..]);
    var r := Tidy(out);
    assert r[..2 * depth] == p[..2 * depth];
  }

  /** An element's text, as `convertJSXChild` returns it, starts with the element's
      indentation, followed by `(` exactly when it has attributes. */
  lemma {:induction false} ElementOpening(tag: JSXName, attributes: seq<Node>, children: seq<Node>, depth: nat)
    requires ConvertName(tag).Some? ==> PlainName(ConvertName(tag).value)
    ensures var r := ChildText(JSXElement(tag, attributes, children), depth);
      r.Some? ==> |r.value| > 2 * depth && r.value[..2 * depth] == Pad(depth) && (r.value[2 * depth] == '(' <==> |attributes| > 0)
  {
    if ChildText(JSXElement(tag, attributes, children), depth).Some? {
      ElementText(tag, attributes, children, depth);
      FactoryNamePlain(ConvertName(tag).value);
      TidyOpening(ConvertElementName(tag).value, |attributes| > 0, AttributeLines(attributes, depth + 1).value,
        |children| > 0, KidTexts(children, depth + 1).value, depth);
    }
  }

  /** Every attribute line ends with a line feed. */
  lemma {:induction false} AttributeLinesEnd(attributes: seq<Node>, depth: nat)
    ensures var r := AttributeLines(attributes, depth);
      r.Some? && r.value != [] ==> r.value[|r.value| - 1] == '\n'
  {
    if attributes != [] {
      var last := ConvertJSXAttribute(attributes[|attributes| - 1], depth);
      if last.Some? {
        var s := Pad(depth) + last.value + "\n";
        CollapseLast(s);
      }
    }
  }

  lemma {:induction false} PadClean(depth: nat)
    ensures ')' !in Pad(depth) && ',' !in Pad(depth) && NoRewrite(Pad(depth))
  {
    var pad := Pad(depth);
    assert forall i :: 0 <= i < |pad| ==> pad[i] == ' ';
    NoRewritePlain(pad);
  }

  /** The opening line `(name()` at its indent gives the cleanups no match. */
  lemma {:induction false} OpenLineClean(name: string, depth: nat)
    requires PlainName(name)
    ensures NoRewrite(Pad(depth) + ("(" + name + "()\n"))
  {
    PadClean(depth);
    var x := Pad(depth) + "(" + name + "(";
    NoRewritePlain(x);
    assert NoRewrite(")\n");
    NoRewriteAppend(x, ")\n");
    assert x + ")\n" == Pad(depth) + ("(" + name + "()\n");
  }

  /** The closing `)()` at its indent gives the cleanups no match. */
  lemma {:induction false} CloseLineClean(depth: nat)
    ensures NoRewrite(Pad(depth) + ")()")
  {
    PadClean(depth);
    assert NoRewrite(")()");
    NoRewriteAppend(Pad(depth), ")()");
  }

  /** The childless layout with attributes gives the cleanups no match when its
      attribute lines give none. */
  lemma {:induction false} PropsLayoutClean(name: string, lines: string, depth: nat)
    requires PlainName(name) && NoRewrite(lines)
    requires lines == [] || lines[|lines| - 1] == '\n'
    ensures NoRewrite(Pad(depth) + ("(" + name + "()\n") + lines + (Pad(depth) + ")()"))
  {
    var a := Pad(depth) + ("(" + name + "()\n");
    OpenLineClean(name, depth);
    NoRewriteAppend(a, lines);
    CloseLineClean(depth);
    NoRewriteAppend(a + lines, Pad(depth) + ")()");
  }

  /** The childless layout without attributes gives the cleanups no match. */
  lemma {:induction false} BareLayoutClean(name: string, depth: nat)
    requires PlainName(name)
    ensures NoRewrite(Pad(depth) + (name + "()") + "()")
  {
    PadClean(depth);
    var x := Pad(depth) + name + "(";
    NoRewritePlain(x);
    assert NoRewrite(")()");
    NoRewriteAppend(x, ")()");
    assert x + ")()" == Pad(depth) + (name + "()") + "()";
  }

  /** The childless layout gives the cleanups nothing to do when the name and the
      attribute lines do not. */
  lemma {:induction false} TidyChildless(name: string, hasProps: bool, lines: string, depth: nat)
    requires PlainName(name) && NoRewrite(lines)
    requires lines == [] || lines[|lines| - 1] == '\n'
    requires !hasProps ==> lines == []
    ensures Tidy(ElementOutput(name, hasProps, lines, false, [], depth)) ==
      if hasProps then Pad(depth) + ("(" + name + "()\n") + lines + (Pad(depth) + ")()")
      else Pad(depth) + (name + "()") + "()"
  {
    OutputChildless(name, hasProps, lines, [], depth);
    if hasProps {
      PropsLayoutClean(name, lines, depth);
      TidyIdentity(Pad(depth) + ("(" + name + "()\n") + lines + (Pad(depth) + ")()"));
    } else {
      BareLayoutClean(name, depth);
      TidyIdentity(Pad(depth) + (name + "()") + "()");
    }
  }

  /** An element without children, as `convertJSXChild` returns it: `name()()` at its
      indent, or, with attributes, `(name()`, the attribute lines and `)()` at its
      indent, whenever the attribute lines hold no match of the final rewrites. */
  lemma {:induction false} ChildlessElement(tag: JSXName, attributes: seq<Node>, depth: nat)
    requires ConvertName(tag).Some? ==> PlainName(ConvertName(tag).value)
    requires AttributeLines(attributes, depth + 1).Some? ==> NoRewrite(AttributeLines(attributes, depth + 1).value)
    ensures var r := ChildText(JSXElement(tag, attributes, []), depth);
      r.Some? ==>
        var name := ConvertElementName(tag).value;
        var lines := AttributeLines(attributes, depth + 1).value;
        r.value == if |attributes| > 0 then Pad(depth) + ("(" + name + "()\n") + lines + (Pad(depth) + ")()")
          else Pad(depth) + (name + "()") + "()"
  {
    if ChildText(JSXElement(tag, attributes, []), depth).Some? {
      ElementText(tag, attributes, [], depth);
      FactoryNamePlain(ConvertName(tag).value);
      AttributeLinesEnd(attributes, depth + 1);
      assert KidTexts([], depth + 1) == Some([]);
      TidyChildless(ConvertElementName(tag).value, |attributes| > 0, AttributeLines(attributes, depth + 1).value, depth);
    }
  }

  /** After the cleanups the text still ends with its closing `)`, followed by `,\n`
      exactly when more than one child survives. */
  lemma {:induction false} TidyEnding(name: string, hasProps: bool, lines: string, hasChildren: bool, kids: seq<string>, depth: nat)
    ensures var r := Tidy(ElementOutput(name, hasProps, lines, hasChildren, kids, depth));
      if hasChildren && |kids| > 1 then |r| >= 3 && r[|r| - 3..] == "),\n"
      else |r| >= 1 && r[|r| - 1] == ')'
  {
    var head := Opening(name, hasProps, depth) + lines;
    var close := Closing(hasProps, hasChildren, kids, depth);
    ClosingParen(hasProps, hasChildren, kids, depth);
    LastOfAppend(head, close);
    assert ElementOutput(name, hasProps, lines, hasChildren, kids, depth) == Finish(head, hasProps, hasChildren, kids, depth);
    TidyParenEnd(head + close, hasChildren && |kids| > 1);
  }

  /** The cleanups keep a final `)`, and `,\n` after it. */
  lemma {:induction false} TidyParenEnd(body: string, several: bool)
    requires body != [] && body[|body| - 1] == ')'
    ensures var r := Tidy(if several then body + ",\n" else body);
      if several then |r| >= 3 && r[|r| - 3..] == "),\n" else |r| >= 1 && r[|r| - 1] == ')'
  {
    TidyCloseTail(body);
    if several {
      var t := Tidy(body);
      var r := t + ",\n";
      assert r[|r| - 3..] == [t[|t| - 1]] + ",\n";
    }
  }

  lemma {:induction false} LastOfAppend(a: string, b: string)
    requires b != []
    ensures a + b != [] && (a + b)[|a + b| - 1] == b[|b| - 1]
  {
  }

  lemma {:induction false} ClosingParen(hasProps: bool, hasChildren: bool, kids: seq<string>, depth: nat)
    ensures var close := Closing(hasProps, hasChildren, kids, depth); close != [] && close[|close| - 1] == ')'
  {
  }

  /** An element's text, as `convertJSXChild` returns it, ends with its closing `)`,
      followed by `,\n` exactly when more than one child survives. */
  lemma {:induction false} ElementEnding(tag: JSXName, attributes: seq<Node>, children: seq<Node>, depth: nat)
    ensures var r := ChildText(JSXElement(tag, attributes, children), depth);
      r.Some? ==>
        if |children| > 0 && |KidTexts(children, depth + 1).value| > 1 then |r.value| >= 3 && r.value[|r.value| - 3..] == "),\n"
        else |r.value| >= 1 && r.value[|r.value| - 1] == ')'
  {
    if ChildText(JSXElement(tag, attributes, children), depth).Some? {
      ElementText(tag, attributes, children, depth);
      TidyEnding(ConvertElementName(tag).value, |attributes| > 0, AttributeLines(attributes, depth + 1).value,
        |children| > 0, KidTexts(children, depth + 1).value, depth);
    }
  }

  /** Whatever `convertJSXChild` returns has no line opening with a comma and a line
      break. */
  lemma {:induction false} ChildTextClean(el: Node, depth: nat)
    ensures ChildText(el, depth).Some? ==> NoCommaLine(ChildText(el, depth).value, true)
  {
  }

  /** A text child is dropped exactly when it is whitespace only; otherwise it is one
      line at its depth holding the cleaned text. */
  lemma {:induction false} TextChild(value: string, depth: nat)
    ensures ChildText(JSXText(value), depth) == Some([]) <==> IsBlank(value)
    ensures !IsBlank(value) ==>
      ChildText(JSXText(value), depth) == Some(Tidy(Pad(depth) + ("'" + EscapeQuotes(Trim(value)) + "'") + "\n"))
  {
    CleanStringSpec(value);
    var line := TextLine(value, depth);
    if !IsBlank(value) {
      var cleaned := CleanString(value);
      assert line == Pad(depth) + cleaned + "\n";
      assert line[0] == if depth > 0 then ' ' else '\'';
      TidyHead(line);
    } else {
      assert line == [];
      assert Tidy([]) == [];
    }
  }

  /** A bare call whose head holds neither `)` nor `,` survives the cleanup unchanged. */
  lemma {:induction false} BareCallKept(head: string)
    requires ')' !in head && ',' !in head
    ensures Tidy(head + "()()") == head + "()()"
  {
    var out := head + "()()";
    assert forall i :: 0 <= i < |head| ==> out[i] == head[i];
    assert out[|head|..] == "()()";
    TidyIdentity(out);
  }

  /** An element with neither attributes nor children: `name()()` at its depth. */
  lemma {:induction false} EmptyElement(n: string, depth: nat)
    requires ')' !in n && ',' !in n
    ensures ChildText(JSXElement(NameIdentifier(n), [], []), depth) == Some(Pad(depth) + FactoryName(n) + "()()")
  {
    var name := FactoryName(n);
    assert ')' !in name && ',' !in name;
    var head := Pad(depth) + name;
    assert forall i :: 0 <= i < |Pad(depth)| ==> Pad(depth)[i] == ' ';
    assert ')' !in head && ',' !in head;
    OutputChildless(name, false, [], [], depth);
    assert Pad(depth) + (name + "()") + "()" == head + "()()";
    BareCallKept(head);
  }
}
