/**
 * The astring-based renderer of utils/jsx2overreact-generator.ts: a table of
 * handlers keyed by node kind, each writing into a shared output buffer and
 * moving a shared indentation counter.
 *
 * `Render(n, level)` specifies what the handler for `n` writes when entered
 * with `indentLevel == level`; the methods of `RenderState` are the handlers
 * themselves, each proved to append exactly that text and to leave
 * `indentLevel` where it found it. A handler that throws in the source
 * (a missing handler, a property read on null, unbounded recursion) or that
 * is inherited from astring's own table is a `Fail`.
 */
module Generator {
  import opened Text
  import opened Estree

  /** astring's default `indent` and `lineEnd` options; the converter does not override them. */
  const Indent: string := "  "
  const LineEnd: string := "\n"

  /** `state.indent.repeat(level)`. */
  function Pad(level: nat): string {
    Repeat(Indent, level)
  }

  datatype Failure =
    | NoHandler(kind: string)      // `state.generator[kind]` is undefined: a TypeError
    | Unmodelled(kind: string)     // handled by a handler inherited from astring, not part of this model
    | NullAccess(what: string)     // a property read on null or undefined: a TypeError
    | Diverges(what: string)       // recursion without end: a RangeError

  /** What a handler writes, or why it does not finish. */
  datatype Out = Ok(text: string) | Fail(failure: Failure)

  /** Writing `pre`, then what `o` writes, then `post`: a failure in `o` aborts. */
  function Wrap(pre: string, o: Out, post: string): Out {
    if o.Fail? then o else Ok(pre + o.text + post)
  }

  /** Writing `pre`, then what `o` writes. */
  function Then(pre: string, o: Out): Out {
    if o.Fail? then o else Ok(pre + o.text)
  }

  /** What `o` writes, then `post`. */
  function Close(o: Out, post: string): Out {
    if o.Fail? then o else Ok(o.text + post)
  }

  // ---------------------------------------------------------------------------
  // Names
  // ---------------------------------------------------------------------------

  /** `formatName`: `None` where the source recurses on the same node forever. */
  function FormatName(name: JSXName): Option<string> {
    match name
    case NameIdentifier(n) => Some(n)
    case NameMember(_, property) => Some(property)
    case NameNamespaced(_, _) => None
  }

  /** `formatElementName`: a name whose first character is not a lower-case letter is a
      component factory and stays as it is; any other name, the empty one included,
      is a DOM factory and gets the `Dom.` prefix. */
  function FormatElementName(name: JSXName): (r: Option<string>)
    ensures r.None? <==> name.NameNamespaced?
    ensures r.Some? ==>
      var base := FormatName(name).value;
      if |base| > 0 && !('a' <= base[0] <= 'z') then r.value == base else r.value == "Dom." + base
  {
    match FormatName(name)
    case None => None
    case Some(converted) => if StartsWithCapital(converted) then Some(converted) else Some("Dom." + converted)
  }

  /** The `JSXIdentifier` handler: the first `aria-` becomes `aria.`. */
  function IdentifierText(name: string): string {
    if Contains(name, "aria-") then ReplaceFirst(name, "aria-", "aria.") else name
  }

  /** A name without `aria-` is written as it is; otherwise exactly its first `aria-`
      becomes `aria.`. */
  lemma {:induction false} IdentifierTextSpec(name: string)
    ensures !Contains(name, "aria-") ==> IdentifierText(name) == name
    ensures Contains(name, "aria-") ==>
      exists i :: 0 <= i <= |name| && HasPrefixAt(name, i, "aria-") &&
        (forall j :: 0 <= j < i ==> !HasPrefixAt(name, j, "aria-")) &&
        IdentifierText(name) == name[..i] + "aria." + name[i + 5..]
  {
    ReplaceFirstSpec(name, "aria-", "aria.");
  }

  /** The `Literal` handler, with `RegExpLiteral` for regular expressions. */
  function LiteralText(raw: Option<string>, value: LiteralValue): string {
    if raw.Some? then raw.value
    else
      match value
      case RegExpValue(pattern, flags) => "/" + pattern + "/" + flags
      case BigIntValue(digits) => digits + "n"
      case _ => SingleQuotedValue(value)
  }

  /** `JSON.stringify(value).replaceAll('"', "'")` for the remaining literal values. */
  function SingleQuotedValue(value: LiteralValue): string
    requires !value.RegExpValue? && !value.BigIntValue?
  {
    match value
    case StringValue(s) => SingleQuoted(s)
    case NumberValue(text) => text
    case BooleanValue(b) => if b then "true" else "false"
    case NullValue => "null"
  }

  // ---------------------------------------------------------------------------
  // Child filters
  // ---------------------------------------------------------------------------

  /** The `JSXElement` child filter: everything but whitespace-only text. */
  predicate Kept(c: Node) {
    !c.JSXText? || !IsBlank(c.text)
  }

  /** The `JSXFragment` child filter: only whitespace-only text. */
  predicate BlankText(c: Node) {
    c.JSXText? && Trim(c.text) == []
  }

  function KeptChildren(cs: seq<Node>): (r: seq<Node>)
    ensures forall c :: c in r ==> c in cs
  {
    if cs == [] then []
    else if Kept(cs[|cs| - 1]) then KeptChildren(cs[..|cs| - 1]) + [cs[|cs| - 1]]
    else KeptChildren(cs[..|cs| - 1])
  }

  function BlankTexts(cs: seq<Node>): (r: seq<Node>)
    ensures forall c :: c in r ==> c in cs
  {
    if cs == [] then []
    else if BlankText(cs[|cs| - 1]) then BlankTexts(cs[..|cs| - 1]) + [cs[|cs| - 1]]
    else BlankTexts(cs[..|cs| - 1])
  }

  // ---------------------------------------------------------------------------
  // Specification of what each handler writes
  // ---------------------------------------------------------------------------

  /** The node kinds the JSX handlers of the converter take (or lack a handler for). */
  predicate IsJsx(n: Node) {
    n.JSXElement? || n.JSXFragment? || n.JSXAttribute? || n.JSXText? || n.JSXExpressionContainer? ||
    n.JSXSpreadAttribute? || n.JSXEmptyExpression? || n.JSXSpreadChild?
  }

  /** What `state.generator[n.type](n, state)` writes when `state.indentLevel == level`. */
  function Render(n: Node, level: nat): Out
    decreases n, 4
  {
    if IsJsx(n) then RenderJsx(n, level) else RenderScript(n, level)
  }

  function RenderJsx(n: Node, level: nat): Out
    requires IsJsx(n)
    decreases n, 3
  {
    match n
    case JSXText(value) => Ok("'" + Trim(value) + "'")
    case JSXExpressionContainer(e) => Render(e, level)
    case JSXElement(_, _, _) => RenderElement(n, level)
    case JSXFragment(_) => RenderFragment(n, level)
    case JSXAttribute(_, _) => RenderAttribute(n, level)
    case JSXSpreadAttribute(_) => Fail(NoHandler(Kind(n)))
    case JSXEmptyExpression => Fail(NoHandler(Kind(n)))
    case JSXSpreadChild(_) => Fail(NoHandler(Kind(n)))
  }

  function RenderScript(n: Node, level: nat): Out
    requires !IsJsx(n)
    decreases n, 3
  {
    match n
    case Identifier(name) => Ok(name)
    case Literal(raw, value) => Ok(LiteralText(raw, value))
    case ObjectExpression(_) => RenderObject(n, level)
    case Property(_, _, _, _, _, _) => RenderProperty(n, level)
    case ArrayExpression(es) => RenderArray(es, level)
    case ArrayPattern(_) => RenderPattern(n, level)
    case ArrowFunctionExpression(_, _) => RenderArrow(n, level)
    case VariableDeclarator(_, _) => RenderDeclarator(n, level)
    case VariableDeclaration(_, _) => Close(DeclarationText(n, level), ";")
    case ExpressionStatement(_) => Fail(Unmodelled(Kind(n)))
    case SpreadElement(_) => Fail(Unmodelled(Kind(n)))
    case Other(kind) => Fail(Unmodelled(kind))
  }

  /** Each item written at `level` between `prefix` and `suffix`, in order. */
  function Lines(items: seq<Node>, level: nat, prefix: string, suffix: string): Out
    decreases items, 0
  {
    if items == [] then Ok([])
    else
      var init := Lines(items[..|items| - 1], level, prefix, suffix);
      if init.Fail? then init
      else Wrap(init.text + prefix, Render(items[|items| - 1], level), suffix)
  }

  /** Each item written at `level` after `prefix`, with `sep` between consecutive items. */
  function Joined(items: seq<Node>, level: nat, prefix: string, sep: string): Out
    decreases items, 0
  {
    if items == [] then Ok([])
    else if |items| == 1 then Then(prefix, Render(items[0], level))
    else
      var init := Joined(items[..|items| - 1], level, prefix, sep);
      if init.Fail? then init
      else Then(init.text + sep + prefix, Render(items[|items| - 1], level))
  }

  /** The children of an element that survive its filter, each on its own line. */
  function KeptLines(cs: seq<Node>, level: nat): Out
    decreases cs, 0
  {
    if cs == [] then Ok([])
    else
      var init := KeptLines(cs[..|cs| - 1], level);
      if !Kept(cs[|cs| - 1]) || init.Fail? then init
      else Wrap(init.text + Pad(level), Render(cs[|cs| - 1], level), "," + LineEnd)
  }

  /** The children of a fragment that survive its filter: no separator at all. */
  function FragmentLines(cs: seq<Node>, level: nat): Out
    decreases cs, 0
  {
    if cs == [] then Ok([])
    else
      var init := FragmentLines(cs[..|cs| - 1], level);
      if !BlankText(cs[|cs| - 1]) || init.Fail? then init
      else Then(init.text + Pad(level), Render(cs[|cs| - 1], level))
  }

  /** Array elements: a hole writes nothing, and every element but the last is followed by `, `. */
  function Elements(es: seq<Option<Node>>, level: nat): Out
    decreases es, 0
  {
    if es == [] then Ok([])
    else
      var init := Elements(es[..|es| - 1], level);
      var last := es[|es| - 1];
      if init.Fail? then init
      else
        var sep := if |es| > 1 then ", " else "";
        match last
        case None => Ok(init.text + sep)
        case Some(e) => assert e < last; Then(init.text + sep, Render(e, level))
  }

  /** What `formatJSXElement` writes up to its final parentheses: `(` before the name only
      when there are attributes, and then the attribute block closed by `)` on its own line. */
  function ElementHead(tag: string, hasProps: bool, props: Out, level: nat): string
    requires hasProps ==> props.Ok?
  {
    if hasProps then "(" + (tag + "()") + (LineEnd + props.text + (Pad(level) + ")")) else tag + "()"
  }

  /** The child block between the final parentheses of an element or a fragment. */
  function ChildBlock(hasKids: bool, kids: Out, level: nat): string
    requires hasKids ==> kids.Ok?
  {
    if hasKids then LineEnd + kids.text + Pad(level) else []
  }

  /** How `formatJSXElement` lays out an element named `tag`, given what its attribute
      lines and its child lines write. */
  function ElementLayout(tag: string, hasProps: bool, props: Out, hasKids: bool, kids: Out, level: nat): Out {
    if hasProps && props.Fail? then props
    else if hasKids && kids.Fail? then kids
    else Ok(ElementHead(tag, hasProps, props, level) + "(" + ChildBlock(hasKids, kids, level) + ")")
  }

  function RenderElement(n: Node, level: nat): Out
    requires n.JSXElement?
    decreases n, 2
  {
    match FormatElementName(n.tagName)
    case None => Fail(Diverges("formatName"))
    case Some(tag) =>
      ElementLayout(tag, |n.attributes| > 0, Lines(n.attributes, level + 2, Pad(level + 1), LineEnd),
                    |KeptChildren(n.children)| > 0, KeptLines(n.children, level + 1), level)
  }

  /** What `formatJSXElement` writes before the parentheses of the child block, or why
      it stops there. */
  function ElementStart(n: Node, level: nat): Out
    requires n.JSXElement?
    decreases n, 1
  {
    match FormatElementName(n.tagName)
    case None => Fail(Diverges("formatName"))
    case Some(tag) =>
      var props := Lines(n.attributes, level + 2, Pad(level + 1), LineEnd);
      if |n.attributes| > 0 && props.Fail? then props
      else Ok(ElementHead(tag, |n.attributes| > 0, props, level))
  }

  /** How `formatJSXFragment` lays out a fragment, given what its child lines write. */
  function FragmentLayout(hasKids: bool, kids: Out, level: nat): Out {
    if hasKids && kids.Fail? then kids
    else Ok("Fragment()" + "(" + ChildBlock(hasKids, kids, level) + ")")
  }

  function RenderFragment(n: Node, level: nat): Out
    requires n.JSXFragment?
    decreases n, 2
  {
    FragmentLayout(|BlankTexts(n.fragmentChildren)| > 0, FragmentLines(n.fragmentChildren, level + 1), level)
  }

  function RenderAttribute(n: Node, level: nat): Out
    requires n.JSXAttribute?
    decreases n, 2
  {
    match n.attrName
    case AttrNamespaced(_, _) => Fail(NoHandler("JSXNamespacedName"))
    case AttrIdentifier(name) =>
      Then(".." + IdentifierText(name) + " = ",
           match n.attrValue
           case None => Ok("null")
           case Some(v) => Render(v, level))
  }

  function RenderObject(n: Node, level: nat): Out
    requires n.ObjectExpression?
    decreases n, 2
  {
    if |n.properties| == 0 then Ok("{}")
    else Wrap("{" + LineEnd, Joined(n.properties, level + 1, Pad(level + 1), "," + LineEnd), LineEnd + Pad(level) + "}")
  }

  function RenderProperty(n: Node, level: nat): Out
    requires n.Property?
    decreases n, 2
  {
    if n.isMethod || n.kind != Init then Fail(Unmodelled("MethodDefinition"))
    else
      var key := PropertyKey(n, level);
      if key.Fail? then key else Then(key.text, Render(n.value, level))
  }

  /** What the `Property` handler writes before the value: nothing for a shorthand,
      the key in brackets when computed, an identifier key in single quotes, any
      other key as it is; then `: `. */
  function PropertyKey(n: Node, level: nat): Out
    requires n.Property?
    decreases n, 1
  {
    if n.shorthand then Ok([])
    else if n.computed then Wrap("[", Render(n.key, level), "]: ")
    else if n.key.Identifier? then Wrap("'", Render(n.key, level), "': ")
    else Close(Render(n.key, level), ": ")
  }

  function RenderArray(es: seq<Option<Node>>, level: nat): Out
    decreases es, 1
  {
    var trailingHole := |es| > 0 && es[|es| - 1].None?;
    Wrap("[", Elements(es, level), if trailingHole then ", " + "]" else "]")
  }

  function RenderPattern(n: Node, level: nat): Out
    requires n.ArrayPattern?
    decreases n, 2
  {
    var ps := n.patterns;
    if |ps| == 2 then
      match ps[1]
      case None => Fail(NullAccess("elements[1].name"))
      case Some(second) =>
        if !second.Identifier? then Fail(NullAccess("elements[1].name.includes"))
        else if Contains(second.name, "set") then
          match ps[0]
          case None => Fail(NullAccess("elements[0].type"))
          case Some(first) => assert first < ps[0]; Render(first, level)
        else RenderArray(ps, level)
    else RenderArray(ps, level)
  }

  /** `formatSequence`. */
  function Sequence(items: seq<Node>, level: nat): Out
    decreases items, 1
  {
    Wrap("(", Joined(items, level, [], ", "), ")")
  }

  function RenderArrow(n: Node, level: nat): Out
    requires n.ArrowFunctionExpression?
    decreases n, 2
  {
    var params := Sequence(n.params, level);
    if params.Fail? then params
    else
      Then(params.text + " ",
           if n.body.ObjectExpression? then Wrap("(", RenderObject(n.body, level), ")")
           else Render(n.body, level))
  }

  function RenderDeclarator(n: Node, level: nat): Out
    requires n.VariableDeclarator?
    decreases n, 2
  {
    var id := Render(n.id, level);
    if id.Fail? then id
    else
      match n.init
      case None => id
      case Some(e) => Then(id.text + " = ", Render(e, level))
  }

  /** `formatVariableDeclaration`: `var ` and the declarators; the declaration's kind is ignored. */
  function DeclarationText(n: Node, level: nat): Out
    requires n.VariableDeclaration?
    decreases n, 2
  {
    Then("var ", Joined(n.declarations, level, [], ", "))
  }

  // ---------------------------------------------------------------------------
  // Facts about the list functions that the handlers' loops rely on
  // ---------------------------------------------------------------------------

  lemma {:induction false} LinesFailPrefix(items: seq<Node>, j: nat, level: nat, prefix: string, suffix: string)
    requires j <= |items|
    requires Lines(items[..j], level, prefix, suffix).Fail?
    ensures Lines(items, level, prefix, suffix) == Lines(items[..j], level, prefix, suffix)
    decreases |items| - j
  {
    if j < |items| {
      assert items[..|items| - 1][..j] == items[..j];
      LinesFailPrefix(items[..|items| - 1], j, level, prefix, suffix);
    } else {
      assert items[..j] == items;
    }
  }

  lemma {:induction false} JoinedFailPrefix(items: seq<Node>, j: nat, level: nat, prefix: string, sep: string)
    requires j <= |items|
    requires Joined(items[..j], level, prefix, sep).Fail?
    ensures Joined(items, level, prefix, sep) == Joined(items[..j], level, prefix, sep)
    decreases |items| - j
  {
    if j < |items| {
      assert items[..|items| - 1][..j] == items[..j];
      JoinedFailPrefix(items[..|items| - 1], j, level, prefix, sep);
    } else {
      assert items[..j] == items;
    }
  }

  lemma {:induction false} ElementsFailPrefix(es: seq<Option<Node>>, j: nat, level: nat)
    requires j <= |es|
    requires Elements(es[..j], level).Fail?
    ensures Elements(es, level) == Elements(es[..j], level)
    decreases |es| - j
  {
    if j < |es| {
      assert es[..|es| - 1][..j] == es[..j];
      ElementsFailPrefix(es[..|es| - 1], j, level);
    } else {
      assert es[..j] == es;
    }
  }

  /** One more item: the layout of `items[..i + 1]` extends that of `items[..i]`. */
  lemma {:induction false} LinesStep(items: seq<Node>, i: nat, level: nat, prefix: string, suffix: string)
    requires i < |items|
    requires Lines(items[..i], level, prefix, suffix).Ok?
    ensures Render(items[i], level).Fail? ==> Lines(items, level, prefix, suffix) == Render(items[i], level)
    ensures Render(items[i], level).Ok? ==>
      Lines(items[..i + 1], level, prefix, suffix) ==
      Ok(Lines(items[..i], level, prefix, suffix).text + prefix + Render(items[i], level).text + suffix)
  {
    assert items[..i + 1][..i] == items[..i];
    if Render(items[i], level).Fail? {
      LinesFailPrefix(items, i + 1, level, prefix, suffix);
    }
  }

  lemma {:induction false} JoinedStep(items: seq<Node>, i: nat, level: nat, prefix: string, sep: string)
    requires i < |items|
    requires i > 0 ==> Joined(items[..i], level, prefix, sep).Ok?
    ensures Render(items[i], level).Fail? ==> Joined(items, level, prefix, sep) == Render(items[i], level)
    ensures Render(items[i], level).Ok? ==>
      Joined(items[..i + 1], level, prefix, sep) ==
      Ok((if i == 0 then [] else Joined(items[..i], level, prefix, sep).text + sep) + prefix + Render(items[i], level).text)
  {
    assert items[..i + 1][..i] == items[..i];
    if i == 0 {
      assert items[..1] == [items[0]];
    }
    if Render(items[i], level).Fail? {
      JoinedFailPrefix(items, i + 1, level, prefix, sep);
    }
  }

  /** The first array element: a hole writes nothing. */
  lemma {:induction false} ElementsFirst(es: seq<Option<Node>>, level: nat)
    requires |es| > 0
    ensures es[0].None? ==> Elements(es[..1], level) == Ok([])
    ensures es[0].Some? && Render(es[0].value, level).Fail? ==> Elements(es, level) == Render(es[0].value, level)
    ensures es[0].Some? && Render(es[0].value, level).Ok? ==> Elements(es[..1], level) == Ok(Render(es[0].value, level).text)
  {
    assert es[..1][..0] == [];
    if es[0].Some? && Render(es[0].value, level).Fail? {
      ElementsFailPrefix(es, 1, level);
    } else if es[0].Some? {
      EmptyAppend(Render(es[0].value, level).text);
    }
  }

  /** A later array element: `, `, then the element unless it is a hole. */
  lemma {:induction false} ElementsNext(es: seq<Option<Node>>, i: nat, level: nat, done: string)
    requires 0 < i < |es|
    requires Elements(es[..i], level) == Ok(done)
    ensures es[i].None? ==> Elements(es[..i + 1], level) == Ok(done + ", ")
    ensures es[i].Some? && Render(es[i].value, level).Fail? ==> Elements(es, level) == Render(es[i].value, level)
    ensures es[i].Some? && Render(es[i].value, level).Ok? ==>
      Elements(es[..i + 1], level) == Ok(done + ", " + Render(es[i].value, level).text)
  {
    assert es[..i + 1][..i] == es[..i];
    if es[i].Some? && Render(es[i].value, level).Fail? {
      ElementsFailPrefix(es, i + 1, level);
    }
  }

  /** The first item alone. */
  lemma {:induction false} JoinedFirst(items: seq<Node>, level: nat, prefix: string, sep: string)
    requires |items| > 0
    ensures Render(items[0], level).Fail? ==> Joined(items, level, prefix, sep) == Render(items[0], level)
    ensures Render(items[0], level).Ok? ==>
      Joined(items[..1], level, prefix, sep) == Ok(prefix + Render(items[0], level).text)
  {
    assert items[..1] == [items[0]];
    if Render(items[0], level).Fail? {
      JoinedFailPrefix(items, 1, level, prefix, sep);
    }
  }

  /** A later item: the separator, the prefix and the item extend what is written. */
  lemma {:induction false} JoinedNext(items: seq<Node>, i: nat, level: nat, prefix: string, sep: string, done: string)
    requires 0 < i < |items|
    requires Joined(items[..i], level, prefix, sep) == Ok(done)
    ensures Render(items[i], level).Fail? ==> Joined(items, level, prefix, sep) == Render(items[i], level)
    ensures Render(items[i], level).Ok? ==>
      Joined(items[..i + 1], level, prefix, sep) == Ok(done + sep + prefix + Render(items[i], level).text)
  {
    assert items[..i + 1][..i] == items[..i];
    if Render(items[i], level).Fail? {
      JoinedFailPrefix(items, i + 1, level, prefix, sep);
    }
  }

  lemma {:induction false} AppendRun(a: string, b: string, c: string, d: string, e: string)
    ensures a + b + c + d + e == a + (b + c + d + e)
  {}

  lemma {:induction false} EnclosedBlock(a: string, open: string, e: string, body: string, indent: string, close: string)
    ensures a + open + e + body + e + (indent + close) == a + (open + e + body + (e + indent + close))
  {}

  lemma {:induction false} SpacedGroup(a: string, p: string, s: string, open: string, body: string, close: string)
    ensures a + p + s + open + body + close == a + (p + s + (open + body + close))
  {}

  lemma {:induction false} BareRegroup(start: string, done: string, sep: string, r: string)
    ensures start + done + sep + r == start + (done + sep + [] + r)
  {
    AppendEmpty(done + sep);
  }

  /** The element's child block is the generic line layout over the filtered children:
      each surviving child, in source order, indented to `level` and followed by
      `,` and a line end. */
  lemma {:induction false} KeptLinesAsLines(cs: seq<Node>, level: nat)
    ensures KeptLines(cs, level) == Lines(KeptChildren(cs), level, Pad(level), "," + LineEnd)
  {
    if cs != [] {
      KeptLinesAsLines(cs[..|cs| - 1], level);
      var k := KeptChildren(cs[..|cs| - 1]);
      if Kept(cs[|cs| - 1]) {
        assert (k + [cs[|cs| - 1]])[..|k|] == k;
      }
    }
  }

  lemma {:induction false} FragmentLinesAsLines(cs: seq<Node>, level: nat)
    ensures FragmentLines(cs, level) == Lines(BlankTexts(cs), level, Pad(level), [])
  {
    if cs != [] {
      FragmentLinesAsLines(cs[..|cs| - 1], level);
      var k := BlankTexts(cs[..|cs| - 1]);
      if BlankText(cs[|cs| - 1]) {
        assert (k + [cs[|cs| - 1]])[..|k|] == k;
      }
    }
  }

  /** An element is its filtered children laid out one per line. */
  lemma {:induction false} ElementViaFilter(n: Node, level: nat)
    requires n.JSXElement? && FormatElementName(n.tagName).Some?
    ensures RenderElement(n, level) ==
      ElementLayout(FormatElementName(n.tagName).value, |n.attributes| > 0, Lines(n.attributes, level + 2, Pad(level + 1), LineEnd),
                    |KeptChildren(n.children)| > 0, Lines(KeptChildren(n.children), level + 1, Pad(level + 1), "," + LineEnd), level)
  {
    KeptLinesAsLines(n.children, level + 1);
  }

  /** An element is its head, then its filtered children between parentheses. */
  lemma {:induction false} ElementByParts(n: Node, level: nat)
    requires n.JSXElement?
    ensures var st := ElementStart(n, level);
      var kids := Lines(KeptChildren(n.children), level + 1, Pad(level + 1), "," + LineEnd);
      var hasKids := |KeptChildren(n.children)| > 0;
      RenderElement(n, level) ==
        if st.Fail? then st
        else if hasKids && kids.Fail? then kids
        else Ok(st.text + "(" + ChildBlock(hasKids, kids, level) + ")")
  {
    if FormatElementName(n.tagName).Some? {
      ElementViaFilter(n, level);
    }
  }

  /** A fragment is its whitespace-only text children laid out back to back. */
  lemma {:induction false} FragmentViaFilter(n: Node, level: nat)
    requires n.JSXFragment?
    ensures RenderFragment(n, level) ==
      FragmentLayout(|BlankTexts(n.fragmentChildren)| > 0, Lines(BlankTexts(n.fragmentChildren), level + 1, Pad(level + 1), []), level)
  {
    FragmentLinesAsLines(n.fragmentChildren, level + 1);
  }

  lemma {:induction false} AppendBlock(a: string, b: string, c: string, d: string)
    ensures a + b + c + d == a + (b + c + d)
  {}

  lemma {:induction false} AppendWrapped(a: string, b: string, c: string, d: string, e: string)
    ensures a + b + c + d + e == a + (b + c + (d + e))
  {}

  lemma {:induction false} ReindentStep(a: string, j: string, e: string, indent: string, t: string)
    ensures a + j + e + (indent + t + e) == a + (j + (e + indent) + t) + e
  {}

  lemma {:induction false} ReindentLast(a: string, j: string, e: string, indent: string, t: string)
    ensures a + j + e + (indent + t) == a + (j + (e + indent) + t)
  {}

  lemma {:induction false} AppendLayout(a: string, head: string, body: string)
    ensures a + head + "(" + body + ")" == a + (head + "(" + body + ")")
  {}

  datatype Status = Written | Failed(failure: Failure)

  function StatusOf(o: Out): Status {
    if o.Ok? then Written else Failed(o.failure)
  }

  // ---------------------------------------------------------------------------
  // The handlers
  // ---------------------------------------------------------------------------

  /** astring's `state`: the output buffer and the current indentation depth. */
  class RenderState {
    var output: string
    var indentLevel: nat

    constructor ()
      ensures output == [] && indentLevel == 0
    {
      output := [];
      indentLevel := 0;
    }

    /** `state.write`. */
    method Write(s: string)
      modifies this
      ensures output == old(output) + s && indentLevel == old(indentLevel)
    {
      output := output + s;
    }

    /** `reindent`: the lines of `text`, each trimmed, the first as it is and every
        later one after a line end and `indent`. */
    method Reindent(text: string, indent: string, lineEnd: string)
      modifies this
      ensures output == old(output) + Join(TrimAll(Split(text, '\n')), lineEnd + indent)
      ensures indentLevel == old(indentLevel)
    {
      ghost var start := output;
      var lines := Split(text, '\n');
      ghost var trimmed := TrimAll(lines);
      var end := |lines| - 1;
      Write(Trim(lines[0]));
      assert trimmed[..1] == [trimmed[0]];
      if end > 0 {
        Write(lineEnd);
        for i := 1 to end
          invariant output == start + Join(trimmed[..i], lineEnd + indent) + lineEnd
          invariant indentLevel == old(indentLevel)
        {
          ghost var before := Join(trimmed[..i], lineEnd + indent);
          Write(indent + Trim(lines[i]) + lineEnd);
          JoinSnoc(trimmed, i, lineEnd + indent);
          ReindentStep(start, before, lineEnd, indent, trimmed[i]);
        }
        ghost var before := Join(trimmed[..end], lineEnd + indent);
        Write(indent + Trim(lines[end]));
        JoinSnoc(trimmed, end, lineEnd + indent);
        assert trimmed[..end + 1] == trimmed;
        ReindentLast(start, before, lineEnd, indent, trimmed[end]);
      }
    }

    /** `state.generator[n.type](n, state)`: dispatch on the node's kind, to the JSX
        handlers the converter adds or to the ECMAScript ones. */
    method Generate(n: Node) returns (status: Status)
      modifies this
      ensures status == StatusOf(Render(n, old(indentLevel)))
      ensures status.Written? ==>
        output == old(output) + Render(n, old(indentLevel)).text && indentLevel == old(indentLevel)
      decreases n, 6
    {
      if IsJsx(n) {
        status := GenerateJsx(n);
      } else {
        status := GenerateScript(n);
      }
    }

    method GenerateJsx(n: Node) returns (status: Status)
      requires IsJsx(n)
      modifies this
      ensures status == StatusOf(RenderJsx(n, old(indentLevel)))
      ensures status.Written? ==>
        output == old(output) + RenderJsx(n, old(indentLevel)).text && indentLevel == old(indentLevel)
      decreases n, 5
    {
      match n
      case JSXText(_) =>
        WriteJSXText(n);
        status := Written;
      case JSXExpressionContainer(e) =>
        status := Generate(e);
      case JSXElement(_, _, _) =>
        status := FormatJSXElement(n);
      case JSXFragment(_) =>
        status := FormatJSXFragment(n);
      case JSXAttribute(_, _) =>
        status := FormatJSXAttribute(n);
      case JSXSpreadAttribute(_) =>
        status := Failed(NoHandler(Kind(n)));
      case JSXEmptyExpression =>
        status := Failed(NoHandler(Kind(n)));
      case JSXSpreadChild(_) =>
        status := Failed(NoHandler(Kind(n)));
    }

    method GenerateScript(n: Node) returns (status: Status)
      requires !IsJsx(n)
      modifies this
      ensures status == StatusOf(RenderScript(n, old(indentLevel)))
      ensures status.Written? ==>
        output == old(output) + RenderScript(n, old(indentLevel)).text && indentLevel == old(indentLevel)
      decreases n, 5
    {
      match n
      case Identifier(name) =>
        Write(name);
        status := Written;
      case Literal(_, _) =>
        WriteLiteral(n);
        status := Written;
      case ObjectExpression(_) =>
        status := WriteObjectExpression(n);
      case Property(_, _, _, _, _, _) =>
        status := WriteProperty(n);
      case ArrayExpression(es) =>
        assert forall e :: e in es && e.Some? ==> e.value < e;
        status := WriteArrayExpression(es, n);
      case ArrayPattern(_) =>
        status := WriteArrayPattern(n);
      case ArrowFunctionExpression(_, _) =>
        status := WriteArrowFunction(n);
      case VariableDeclarator(_, _) =>
        status := WriteVariableDeclarator(n);
      case VariableDeclaration(_, _) =>
        status := WriteVariableDeclaration(n);
      case ExpressionStatement(_) =>
        status := Failed(Unmodelled(Kind(n)));
      case SpreadElement(_) =>
        status := Failed(Unmodelled(Kind(n)));
      case Other(kind) =>
        status := Failed(Unmodelled(kind));
    }

    /** The `JSXText` handler: the trimmed text between single quotes, unescaped. */
    method WriteJSXText(n: Node)
      requires n.JSXText?
      modifies this
      ensures output == old(output) + ("'" + Trim(n.text) + "'") && indentLevel == old(indentLevel)
    {
      Write("'" + Trim(n.text) + "'");
    }

    /** The `Literal` handler. */
    method WriteLiteral(n: Node)
      requires n.Literal?
      modifies this
      ensures output == old(output) + LiteralText(n.raw, n.literal) && indentLevel == old(indentLevel)
    {
      if n.raw.Some? {
        Write(n.raw.value);
      } else if n.literal.RegExpValue? {
        WriteRegExpLiteral(n.literal);
      } else if n.literal.BigIntValue? {
        Write(n.literal.digits + "n");
      } else {
        Write(SingleQuotedValue(n.literal));
      }
    }

    /** The `RegExpLiteral` handler. */
    method WriteRegExpLiteral(v: LiteralValue)
      requires v.RegExpValue?
      modifies this
      ensures output == old(output) + ("/" + v.pattern + "/" + v.flags) && indentLevel == old(indentLevel)
    {
      Write("/" + v.pattern + "/" + v.flags);
    }

    /** The `JSXIdentifier` handler. */
    method WriteJSXIdentifier(name: string)
      modifies this
      ensures output == old(output) + IdentifierText(name) && indentLevel == old(indentLevel)
    {
      if Contains(name, "aria-") {
        Write(ReplaceFirst(name, "aria-", "aria."));
        return;
      }
      Write(name);
    }

    /** `formatJSXAttribute`. */
    method FormatJSXAttribute(n: Node) returns (status: Status)
      requires n.JSXAttribute?
      modifies this
      ensures status == StatusOf(RenderAttribute(n, old(indentLevel)))
      ensures status.Written? ==>
        output == old(output) + RenderAttribute(n, old(indentLevel)).text && indentLevel == old(indentLevel)
      decreases n, 2
    {
      ghost var start := output;
      ghost var level := indentLevel;
      Write("..");
      if n.attrName.AttrNamespaced? {
        return Failed(NoHandler("JSXNamespacedName"));
      }
      WriteJSXIdentifier(n.attrName.name);
      Write(" = ");
      ghost var name := IdentifierText(n.attrName.name);
      if n.attrValue.Some? {
        status := Generate(n.attrValue.value);
        if status.Written? {
          AppendRun(start, "..", name, " = ", Render(n.attrValue.value, level).text);
        }
      } else {
        Write("null");
        AppendRun(start, "..", name, " = ", "null");
        status := Written;
      }
    }

    /** The loop over attributes or filtered children shared by `formatJSXElement` and
        `formatJSXFragment`: each item after `prefix` and before `suffix`. */
    method WriteLines(items: seq<Node>, prefix: string, suffix: string, ghost parent: Node) returns (status: Status)
      requires forall c :: c in items ==> c < parent
      modifies this
      ensures status == StatusOf(Lines(items, old(indentLevel), prefix, suffix))
      ensures status.Written? ==>
        output == old(output) + Lines(items, old(indentLevel), prefix, suffix).text && indentLevel == old(indentLevel)
      decreases parent, 1
    {
      ghost var start := output;
      ghost var level := indentLevel;
      status := Written;
      for i := 0 to |items|
        invariant indentLevel == level
        invariant status == Written
        invariant Lines(items[..i], level, prefix, suffix).Ok?
        invariant output == start + Lines(items[..i], level, prefix, suffix).text
      {
        assert items[i] in items;
        ghost var before := Lines(items[..i], level, prefix, suffix).text;
        Write(prefix);
        status := Generate(items[i]);
        LinesStep(items, i, level, prefix, suffix);
        if status.Failed? {
          return;
        }
        Write(suffix);
        AppendRun(start, before, prefix, Render(items[i], level).text, suffix);
      }
      assert items[..|items|] == items;
    }

    /** The attribute block of `formatJSXElement`: a line end, each attribute on its own
        line one level deeper than `propIndent`, then `indent` and `)`. */
    method WriteAttributeBlock(attributes: seq<Node>, indent: string, ghost parent: Node) returns (status: Status)
      requires forall c :: c in attributes ==> c < parent
      modifies this
      ensures status == StatusOf(Lines(attributes, old(indentLevel) + 1, Pad(old(indentLevel)), LineEnd))
      ensures status.Written? ==>
        output == old(output) + (LineEnd + Lines(attributes, old(indentLevel) + 1, Pad(old(indentLevel)), LineEnd).text + (indent + ")")) &&
        indentLevel == old(indentLevel)
      decreases parent, 2
    {
      ghost var start := output;
      var propIndent := Pad(indentLevel);
      indentLevel := indentLevel + 1;
      Write(LineEnd);
      status := WriteLines(attributes, propIndent, LineEnd, parent);
      if status.Failed? {
        return;
      }
      indentLevel := indentLevel - 1;
      Write(indent);
      Write(")");
      AppendWrapped(start, LineEnd, Lines(attributes, indentLevel + 1, propIndent, LineEnd).text, indent, ")");
    }

    /** The child block of `formatJSXElement` and `formatJSXFragment`: a line end, the
        filtered children each after `childIndent` and before `suffix`, then `indent`. */
    method WriteChildBlock(children: seq<Node>, childIndent: string, suffix: string, indent: string, ghost parent: Node)
      returns (status: Status)
      requires forall c :: c in children ==> c < parent
      modifies this
      ensures status == StatusOf(Lines(children, old(indentLevel), childIndent, suffix))
      ensures status.Written? ==>
        output == old(output) + (LineEnd + Lines(children, old(indentLevel), childIndent, suffix).text + indent) &&
        indentLevel == old(indentLevel)
      decreases parent, 2
    {
      ghost var start := output;
      Write(LineEnd);
      status := WriteLines(children, childIndent, suffix, parent);
      if status.Failed? {
        return;
      }
      Write(indent);
      AppendBlock(start, LineEnd, Lines(children, indentLevel, childIndent, suffix).text, indent);
    }

    /** `formatJSXElement`. */
    method FormatJSXElement(n: Node) returns (status: Status)
      requires n.JSXElement?
      modifies this
      ensures status == StatusOf(RenderElement(n, old(indentLevel)))
      ensures status.Written? ==>
        output == old(output) + RenderElement(n, old(indentLevel)).text && indentLevel == old(indentLevel)
      decreases n, 4
    {
      ghost var start := output;
      var level := indentLevel;
      var indent := Pad(indentLevel);
      indentLevel := indentLevel + 1;
      var jsxElementIndent := indent + Indent;
      assert jsxElementIndent == Pad(level + 1);

      var children := KeptChildren(n.children);
      var hasChildren := |children| > 0;
      ghost var kids := Lines(children, level + 1, jsxElementIndent, "," + LineEnd);
      ElementByParts(n, level);

      status := WriteElementHead(n, indent);
      if status.Failed? {
        return;
      }
      ghost var head := ElementStart(n, level).text;
      Write("(");
      if hasChildren {
        status := WriteChildBlock(children, jsxElementIndent, "," + LineEnd, indent, n);
        if status.Failed? {
          return;
        }
      } else {
        AppendEmpty(start + head + "(");
      }
      ghost var body := ChildBlock(hasChildren, kids, level);
      Write(")");
      AppendLayout(start, head, body);
      indentLevel := indentLevel - 1;
      status := Written;
    }

    /** The part of `formatJSXElement` before the child block: `(` when there are
        attributes, the factory name and `()`, then the attribute block. */
    method WriteElementHead(n: Node, indent: string) returns (status: Status)
      requires n.JSXElement? && indentLevel >= 1 && indent == Pad(indentLevel - 1)
      modifies this
      ensures status == StatusOf(ElementStart(n, old(indentLevel) - 1))
      ensures status.Written? ==>
        output == old(output) + ElementStart(n, old(indentLevel) - 1).text && indentLevel == old(indentLevel)
      decreases n, 3
    {
      ghost var start := output;
      ghost var level := indentLevel - 1;
      var hasProps := |n.attributes| > 0;
      ghost var props := Lines(n.attributes, level + 2, Pad(level + 1), LineEnd);
      if hasProps {
        Write("(");
      }
      var name := FormatElementName(n.tagName);
      if name.None? {
        return Failed(Diverges("formatName"));
      }
      Write(name.value + "()");
      if hasProps {
        status := WriteAttributeBlock(n.attributes, indent, n);
        if status.Failed? {
          return;
        }
        AppendBlock(start, "(", name.value + "()", LineEnd + props.text + (indent + ")"));
      } else {
        status := Written;
      }
    }

    /** `formatJSXFragment`. */
    method FormatJSXFragment(n: Node) returns (status: Status)
      requires n.JSXFragment?
      modifies this
      ensures status == StatusOf(RenderFragment(n, old(indentLevel)))
      ensures status.Written? ==>
        output == old(output) + RenderFragment(n, old(indentLevel)).text && indentLevel == old(indentLevel)
      decreases n, 3
    {
      ghost var start := output;
      var level := indentLevel;
      FragmentViaFilter(n, level);
      var indent := Pad(indentLevel);
      indentLevel := indentLevel + 1;
      var jsxElementIndent := indent + Indent;
      assert jsxElementIndent == Pad(level + 1);
      var children := BlankTexts(n.fragmentChildren);
      var hasChildren := |children| > 0;
      ghost var kids := Lines(children, level + 1, jsxElementIndent, []);
      Write("Fragment()");
      Write("(");
      if hasChildren {
        status := WriteChildBlock(children, jsxElementIndent, [], indent, n);
        if status.Failed? {
          return;
        }
      }
      ghost var body := ChildBlock(hasChildren, kids, level);
      assert output == start + "Fragment()" + "(" + body;
      Write(")");
      AppendLayout(start, "Fragment()", body);
      indentLevel := indentLevel - 1;
      status := Written;
    }

    /** The `Property` handler. */
    method WriteProperty(n: Node) returns (status: Status)
      requires n.Property?
      modifies this
      ensures status == StatusOf(RenderProperty(n, old(indentLevel)))
      ensures status.Written? ==>
        output == old(output) + RenderProperty(n, old(indentLevel)).text && indentLevel == old(indentLevel)
      decreases n, 3
    {
      if n.isMethod || n.kind != Init {
        return Failed(Unmodelled("MethodDefinition"));
      }
      ghost var start := output;
      ghost var level := indentLevel;
      status := WritePropertyKey(n);
      if status.Failed? {
        return;
      }
      status := Generate(n.value);
      if status.Written? {
        AppendAssoc(start, PropertyKey(n, level).text, Render(n.value, level).text);
      }
    }

    /** The key part of the `Property` handler. */
    method WritePropertyKey(n: Node) returns (status: Status)
      requires n.Property?
      modifies this
      ensures status == StatusOf(PropertyKey(n, old(indentLevel)))
      ensures status.Written? ==>
        output == old(output) + PropertyKey(n, old(indentLevel)).text && indentLevel == old(indentLevel)
      decreases n, 2
    {
      ghost var start := output;
      if n.shorthand {
        AppendEmpty(start);
        return Written;
      }
      if n.computed {
        Write("[");
        status := Generate(n.key);
        if status.Failed? { return; }
        Write("]");
      } else {
        if n.key.Identifier? { Write("'"); }
        status := Generate(n.key);
        if status.Failed? { return; }
        if n.key.Identifier? { Write("'"); }
      }
      Write(": ");
    }

    /** The `ObjectExpression` handler. */
    method WriteObjectExpression(n: Node) returns (status: Status)
      requires n.ObjectExpression?
      modifies this
      ensures status == StatusOf(RenderObject(n, old(indentLevel)))
      ensures status.Written? ==>
        output == old(output) + RenderObject(n, old(indentLevel)).text && indentLevel == old(indentLevel)
      decreases n, 2
    {
      ghost var start := output;
      var level := indentLevel;
      var indent := Pad(indentLevel);
      indentLevel := indentLevel + 1;
      var propertyIndent := indent + Indent;
      assert propertyIndent == Pad(level + 1);
      Write("{");
      if |n.properties| > 0 {
        Write(LineEnd);
        status := WriteProperties(n.properties, propertyIndent, n);
        if status.Failed? {
          return;
        }
        Write(LineEnd);
        Write(indent + "}");
        ghost var joined := Joined(n.properties, level + 1, propertyIndent, "," + LineEnd).text;
        EnclosedBlock(start, "{", LineEnd, joined, indent, "}");
      } else {
        Write("}");
      }
      indentLevel := indentLevel - 1;
      status := Written;
    }

    /** The property loop of the `ObjectExpression` handler: `,` and a line end between
        consecutive properties, each after `propertyIndent`. */
    method WriteProperties(properties: seq<Node>, propertyIndent: string, ghost parent: Node) returns (status: Status)
      requires |properties| > 0
      requires forall c :: c in properties ==> c < parent
      modifies this
      ensures status == StatusOf(Joined(properties, old(indentLevel), propertyIndent, "," + LineEnd))
      ensures status.Written? ==>
        output == old(output) + Joined(properties, old(indentLevel), propertyIndent, "," + LineEnd).text &&
        indentLevel == old(indentLevel)
      decreases parent, 1
    {
      ghost var start := output;
      ghost var level := indentLevel;
      var comma := "," + LineEnd;
      assert properties[0] in properties;
      Write(propertyIndent);
      status := Generate(properties[0]);
      JoinedFirst(properties, level, propertyIndent, comma);
      if status.Failed? {
        return;
      }
      AppendAssoc(start, propertyIndent, Render(properties[0], level).text);
      var i := 1;
      while i < |properties|
        invariant 1 <= i <= |properties|
        invariant indentLevel == level
        invariant status == Written
        invariant Joined(properties[..i], level, propertyIndent, comma).Ok?
        invariant output == start + Joined(properties[..i], level, propertyIndent, comma).text
        decreases |properties| - i
      {
        assert properties[i] in properties;
        ghost var done := Joined(properties[..i], level, propertyIndent, comma).text;
        Write(comma);
        Write(propertyIndent);
        status := Generate(properties[i]);
        JoinedNext(properties, i, level, propertyIndent, comma, done);
        if status.Failed? {
          return;
        }
        AppendRun(start, done, comma, propertyIndent, Render(properties[i], level).text);
        i := i + 1;
      }
      assert properties[..|properties|] == properties;
    }

    /** The `ArrayExpression` handler, which the `ArrayPattern` handler also calls. */
    method WriteArrayExpression(elements: seq<Option<Node>>, ghost parent: Node) returns (status: Status)
      requires forall e :: e in elements && e.Some? ==> e.value < parent
      modifies this
      ensures status == StatusOf(RenderArray(elements, old(indentLevel)))
      ensures status.Written? ==>
        output == old(output) + RenderArray(elements, old(indentLevel)).text && indentLevel == old(indentLevel)
      decreases parent, 1
    {
      ghost var start := output;
      var level := indentLevel;
      Write("[");
      if |elements| > 0 {
        ElementsFirst(elements, level);
        if elements[0].Some? {
          assert elements[0] in elements;
          status := Generate(elements[0].value);
          if status.Failed? {
            return;
          }
        } else {
          AppendEmpty(start + "[");
        }
        for i := 1 to |elements|
          invariant indentLevel == level
          invariant Elements(elements[..i], level).Ok?
          invariant output == start + "[" + Elements(elements[..i], level).text
        {
          ghost var done := Elements(elements[..i], level).text;
          Write(", ");
          ElementsNext(elements, i, level, done);
          if elements[i].Some? {
            assert elements[i] in elements;
            status := Generate(elements[i].value);
            if status.Failed? {
              return;
            }
            AppendBlock(start + "[", done, ", ", Render(elements[i].value, level).text);
          } else {
            AppendAssoc(start + "[", done, ", ");
          }
        }
        assert elements[..|elements|] == elements;
      } else {
        AppendEmpty(start + "[");
      }
      ghost var items := Elements(elements, level).text;
      if |elements| > 0 && elements[|elements| - 1].None? {
        Write(", ");
        Write("]");
        AppendWrapped(start, "[", items, ", ", "]");
      } else {
        Write("]");
        AppendBlock(start, "[", items, "]");
      }
      status := Written;
    }

    /** The `ArrayPattern` handler: `[x, setX]` collapses to `x`. */
    method WriteArrayPattern(n: Node) returns (status: Status)
      requires n.ArrayPattern?
      modifies this
      ensures status == StatusOf(RenderPattern(n, old(indentLevel)))
      ensures status.Written? ==>
        output == old(output) + RenderPattern(n, old(indentLevel)).text && indentLevel == old(indentLevel)
      decreases n, 2
    {
      if |n.patterns| == 2 {
        if n.patterns[1].None? {
          return Failed(NullAccess("elements[1].name"));
        }
        if !n.patterns[1].value.Identifier? {
          return Failed(NullAccess("elements[1].name.includes"));
        }
        if Contains(n.patterns[1].value.name, "set") {
          if n.patterns[0].None? {
            return Failed(NullAccess("elements[0].type"));
          }
          assert n.patterns[0].value < n.patterns[0];
          status := Generate(n.patterns[0].value);
          return;
        }
      }
      assert forall e :: e in n.patterns && e.Some? ==> e.value < e;
      status := WriteArrayExpression(n.patterns, n);
    }

    /** The comma-separated loop of `formatSequence` and `formatVariableDeclaration`:
        the first node, then `, ` before each later one. */
    method WriteJoined(nodes: seq<Node>, ghost parent: Node) returns (status: Status)
      requires forall c :: c in nodes ==> c < parent
      modifies this
      ensures status == StatusOf(Joined(nodes, old(indentLevel), [], ", "))
      ensures status.Written? ==>
        output == old(output) + Joined(nodes, old(indentLevel), [], ", ").text && indentLevel == old(indentLevel)
      decreases parent, 1
    {
      if |nodes| == 0 {
        return Written;
      }
      ghost var start := output;
      ghost var level := indentLevel;
      assert nodes[0] in nodes;
      status := Generate(nodes[0]);
      JoinedFirst(nodes, level, [], ", ");
      if status.Failed? {
        return;
      }
      EmptyAppend(Render(nodes[0], level).text);
      for i := 1 to |nodes|
        invariant indentLevel == level
        invariant status == Written
        invariant Joined(nodes[..i], level, [], ", ").Ok?
        invariant output == start + Joined(nodes[..i], level, [], ", ").text
      {
        assert nodes[i] in nodes;
        ghost var done := Joined(nodes[..i], level, [], ", ").text;
        Write(", ");
        status := Generate(nodes[i]);
        JoinedNext(nodes, i, level, [], ", ", done);
        if status.Failed? {
          return;
        }
        BareRegroup(start, done, ", ", Render(nodes[i], level).text);
      }
      assert nodes[..|nodes|] == nodes;
    }

    /** `formatSequence`. */
    method FormatSequence(nodes: seq<Node>, ghost parent: Node) returns (status: Status)
      requires forall c :: c in nodes ==> c < parent
      modifies this
      ensures status == StatusOf(Sequence(nodes, old(indentLevel)))
      ensures status.Written? ==>
        output == old(output) + Sequence(nodes, old(indentLevel)).text && indentLevel == old(indentLevel)
      decreases parent, 2
    {
      Write("(");
      status := WriteJoined(nodes, parent);
      if status.Failed? { return; }
      Write(")");
    }

    /** The `ArrowFunctionExpression` handler. */
    method WriteArrowFunction(n: Node) returns (status: Status)
      requires n.ArrowFunctionExpression?
      modifies this
      ensures status == StatusOf(RenderArrow(n, old(indentLevel)))
      ensures status.Written? ==>
        output == old(output) + RenderArrow(n, old(indentLevel)).text && indentLevel == old(indentLevel)
      decreases n, 3
    {
      ghost var start := output;
      ghost var level := indentLevel;
      status := FormatSequence(n.params, n);
      if status.Failed? { return; }
      ghost var params := Sequence(n.params, level).text;
      Write(" ");
      if n.body.ObjectExpression? {
        Write("(");
        status := WriteObjectExpression(n.body);
        if status.Failed? { return; }
        Write(")");
        SpacedGroup(start, params, " ", "(", RenderObject(n.body, level).text, ")");
      } else {
        status := Generate(n.body);
        if status.Written? {
          AppendBlock(start, params, " ", Render(n.body, level).text);
        }
      }
    }

    /** The `VariableDeclarator` handler. */
    method WriteVariableDeclarator(n: Node) returns (status: Status)
      requires n.VariableDeclarator?
      modifies this
      ensures status == StatusOf(RenderDeclarator(n, old(indentLevel)))
      ensures status.Written? ==>
        output == old(output) + RenderDeclarator(n, old(indentLevel)).text && indentLevel == old(indentLevel)
      decreases n, 2
    {
      status := Generate(n.id);
      if status.Failed? { return; }
      if n.init.Some? {
        Write(" = ");
        status := Generate(n.init.value);
      }
    }

    /** `formatVariableDeclaration`. */
    method FormatVariableDeclaration(n: Node) returns (status: Status)
      requires n.VariableDeclaration?
      modifies this
      ensures status == StatusOf(DeclarationText(n, old(indentLevel)))
      ensures status.Written? ==>
        output == old(output) + DeclarationText(n, old(indentLevel)).text && indentLevel == old(indentLevel)
      decreases n, 2
    {
      Write("var ");
      status := WriteJoined(n.declarations, n);
    }

    /** The `VariableDeclaration` handler. */
    method WriteVariableDeclaration(n: Node) returns (status: Status)
      requires n.VariableDeclaration?
      modifies this
      ensures status == StatusOf(RenderScript(n, old(indentLevel)))
      ensures status.Written? ==>
        output == old(output) + RenderScript(n, old(indentLevel)).text && indentLevel == old(indentLevel)
      decreases n, 3
    {
      status := FormatVariableDeclaration(n);
      if status.Failed? { return; }
      Write(";");
    }
  }
}
