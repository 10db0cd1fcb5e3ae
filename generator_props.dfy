/**
 * What the astring-based renderer promises, stated against `Generator.Render`
 * without its recursive list helpers: each list as the concatenation (or the
 * join) of what its items write, the element and fragment layouts in closed
 * form, and the filters as order-preserving subsequences.
 */
module GeneratorProps {
  import opened Text
  import opened Estree
  import opened Generator

  // ---------------------------------------------------------------------------
  // Lists as concatenations and joins of their items
  // ---------------------------------------------------------------------------

  /** Every item renders without failing. */
  predicate AllOk(items: seq<Node>, level: nat) {
    forall i :: 0 <= i < |items| ==> Render(items[i], level).Ok?
  }

  /** What each item writes, between `prefix` and `suffix`. */
  function ItemTexts(items: seq<Node>, level: nat, prefix: string, suffix: string): (r: seq<string>)
    requires AllOk(items, level)
    ensures |r| == |items|
    ensures forall i :: 0 <= i < |items| ==> r[i] == prefix + Render(items[i], level).text + suffix
  {
    seq(|items|, i requires 0 <= i < |items| => prefix + Render(items[i], level).text + suffix)
  }

  lemma {:induction false} ItemTextsPrefix(items: seq<Node>, j: nat, level: nat, prefix: string, suffix: string)
    requires j <= |items| && AllOk(items, level)
    ensures AllOk(items[..j], level)
    ensures ItemTexts(items[..j], level, prefix, suffix) == ItemTexts(items, level, prefix, suffix)[..j]
  {
    assert forall i :: 0 <= i < j ==> items[..j][i] == items[i];
  }

  /** A list of lines succeeds exactly when every item does, and then writes the items'
      texts one after another, each between `prefix` and `suffix`, in order. */
  lemma {:induction false} LinesConcat(items: seq<Node>, level: nat, prefix: string, suffix: string)
    ensures Lines(items, level, prefix, suffix).Ok? <==> AllOk(items, level)
    ensures AllOk(items, level) ==>
      Lines(items, level, prefix, suffix).text == Concat(ItemTexts(items, level, prefix, suffix))
  {
    if items != [] {
      LinesConcat(items[..|items| - 1], level, prefix, suffix);
      LinesConcatStep(items, level, prefix, suffix);
    }
  }

  /** `LinesConcat` for one more item, given it for all items but the last. */
  lemma {:induction false} LinesConcatStep(items: seq<Node>, level: nat, prefix: string, suffix: string)
    requires items != []
    requires var init := items[..|items| - 1];
      && (Lines(init, level, prefix, suffix).Ok? <==> AllOk(init, level))
      && (AllOk(init, level) ==> Lines(init, level, prefix, suffix).text == Concat(ItemTexts(init, level, prefix, suffix)))
    ensures Lines(items, level, prefix, suffix).Ok? <==> AllOk(items, level)
    ensures AllOk(items, level) ==>
      Lines(items, level, prefix, suffix).text == Concat(ItemTexts(items, level, prefix, suffix))
  {
    var k := |items| - 1;
    AllOkSnoc(items, level);
    if AllOk(items, level) {
      ItemTextsPrefix(items, k, level, prefix, suffix);
      var done := Lines(items[..k], level, prefix, suffix).text;
      AppendBlock(done, prefix, Render(items[k], level).text, suffix);
    }
  }

  /** All items render exactly when all but the last do and the last does. */
  lemma {:induction false} AllOkSnoc(items: seq<Node>, level: nat)
    requires items != []
    ensures AllOk(items, level) <==>
      AllOk(items[..|items| - 1], level) && Render(items[|items| - 1], level).Ok?
  {
    var init := items[..|items| - 1];
    assert forall i :: 0 <= i < |init| ==> init[i] == items[i];
  }

  /** A joined list succeeds exactly when every item does, and then writes the items'
      texts, each after `prefix`, with `sep` between consecutive ones. */
  lemma {:induction false} JoinedJoin(items: seq<Node>, level: nat, prefix: string, sep: string)
    ensures Joined(items, level, prefix, sep).Ok? <==> AllOk(items, level)
    ensures AllOk(items, level) ==>
      Joined(items, level, prefix, sep).text == Join(ItemTexts(items, level, prefix, []), sep)
  {
    if |items| == 1 {
      assert AllOk(items, level) <==> Render(items[0], level).Ok?;
    } else if |items| > 1 {
      JoinedJoin(items[..|items| - 1], level, prefix, sep);
      JoinedJoinStep(items, level, prefix, sep);
    }
  }

  /** `JoinedJoin` for one more item, given it for all items but the last. */
  lemma {:induction false} JoinedJoinStep(items: seq<Node>, level: nat, prefix: string, sep: string)
    requires |items| > 1
    requires var init := items[..|items| - 1];
      && (Joined(init, level, prefix, sep).Ok? <==> AllOk(init, level))
      && (AllOk(init, level) ==> Joined(init, level, prefix, sep).text == Join(ItemTexts(init, level, prefix, []), sep))
    ensures Joined(items, level, prefix, sep).Ok? <==> AllOk(items, level)
    ensures AllOk(items, level) ==>
      Joined(items, level, prefix, sep).text == Join(ItemTexts(items, level, prefix, []), sep)
  {
    var k := |items| - 1;
    AllOkSnoc(items, level);
    if AllOk(items, level) {
      ItemTextsPrefix(items, k, level, prefix, []);
      var t := ItemTexts(items, level, prefix, []);
      var done := Joined(items[..k], level, prefix, sep).text;
      AppendEmpty(prefix + Render(items[k], level).text);
      AppendBlock(done, sep, prefix, Render(items[k], level).text);
    }
  }

  /** Every element that is not a hole renders without failing. */
  predicate AllElementsOk(es: seq<Option<Node>>, level: nat) {
    forall i :: 0 <= i < |es| && es[i].Some? ==> Render(es[i].value, level).Ok?
  }

  /** What each array element writes: nothing for a hole. */
  function ElementTexts(es: seq<Option<Node>>, level: nat): (r: seq<string>)
    requires AllElementsOk(es, level)
    ensures |r| == |es|
    ensures forall i :: 0 <= i < |es| ==> r[i] == (if es[i].Some? then Render(es[i].value, level).text else [])
  {
    seq(|es|, i requires 0 <= i < |es| => if es[i].Some? then Render(es[i].value, level).text else [])
  }

  /** Array elements succeed exactly when every non-hole does, and then write the
      elements' texts joined by `, `, a hole contributing the empty text. */
  lemma {:induction false} ElementsJoin(es: seq<Option<Node>>, level: nat)
    ensures Elements(es, level).Ok? <==> AllElementsOk(es, level)
    ensures AllElementsOk(es, level) ==> Elements(es, level).text == Join(ElementTexts(es, level), ", ")
  {
    if es != [] {
      var k := |es| - 1;
      var init := es[..k];
      ElementsJoin(init, level);
      assert forall i :: 0 <= i < k ==> init[i] == es[i];
      if AllElementsOk(es, level) {
        var t := ElementTexts(es, level);
        assert t[..k] == ElementTexts(init, level);
        if k == 0 {
          assert Elements(init, level) == Ok([]);
        }
      } else if AllElementsOk(init, level) {
        assert es[k].Some? && !Render(es[k].value, level).Ok?;
      }
    }
  }

  // ---------------------------------------------------------------------------
  // The child filters
  // ---------------------------------------------------------------------------

  /** The element filter keeps, in order, exactly the children that are not
      whitespace-only text: it distributes over concatenation and keeps or drops
      each single child on its own. */
  lemma {:induction false} KeptChildrenAppend(a: seq<Node>, b: seq<Node>)
    ensures KeptChildren(a + b) == KeptChildren(a) + KeptChildren(b)
    decreases |b|
  {
    if b == [] {
      assert a + b == a;
    } else {
      var k := |b| - 1;
      assert (a + b)[..|a + b| - 1] == a + b[..k];
      KeptChildrenAppend(a, b[..k]);
    }
  }

  lemma {:induction false} KeptChildrenAreKept(cs: seq<Node>)
    ensures forall c :: c in KeptChildren(cs) ==> Kept(c)
  {
    if cs != [] {
      KeptChildrenAreKept(cs[..|cs| - 1]);
    }
  }

  lemma {:induction false} KeptChildrenSingle(c: Node)
    ensures KeptChildren([c]) == if Kept(c) then [c] else []
  {
    assert [c][..0] == [];
  }

  lemma {:induction false} BlankTextsAppend(a: seq<Node>, b: seq<Node>)
    ensures BlankTexts(a + b) == BlankTexts(a) + BlankTexts(b)
    decreases |b|
  {
    if b == [] {
      assert a + b == a;
    } else {
      var k := |b| - 1;
      assert (a + b)[..|a + b| - 1] == a + b[..k];
      BlankTextsAppend(a, b[..k]);
    }
  }

  lemma {:induction false} BlankTextsAreBlank(cs: seq<Node>)
    ensures forall c :: c in BlankTexts(cs) ==> BlankText(c)
  {
    if cs != [] {
      BlankTextsAreBlank(cs[..|cs| - 1]);
    }
  }

  lemma {:induction false} BlankTextsSingle(c: Node)
    ensures BlankTexts([c]) == if BlankText(c) then [c] else []
  {
    assert [c][..0] == [];
  }

  /** On text children the two filters are complementary: the element keeps exactly the
      texts the fragment drops. The element's test (nothing left once every whitespace
      character is removed) and the fragment's (nothing left after `trim`) agree. */
  lemma {:induction false} FiltersComplementary(c: Node)
    requires c.JSXText?
    ensures Kept(c) <==> !BlankText(c)
  {
    TrimSpec(c.text);
  }

  /** Adding a whitespace-only text child anywhere leaves an element's output unchanged. */
  lemma {:induction false} BlankChildIgnored(tag: JSXName, attributes: seq<Node>, a: seq<Node>, b: seq<Node>, t: string, level: nat)
    requires IsBlank(t)
    ensures Render(JSXElement(tag, attributes, a + [JSXText(t)] + b), level) == Render(JSXElement(tag, attributes, a + b), level)
  {
    var x := JSXText(t);
    KeptChildrenAppend(a + [x], b);
    KeptChildrenAppend(a, [x]);
    KeptChildrenAppend(a, b);
    KeptChildrenSingle(x);
    assert KeptChildren(a + [x] + b) == KeptChildren(a + b);
    var with := JSXElement(tag, attributes, a + [x] + b);
    var without := JSXElement(tag, attributes, a + b);
    assert Render(with, level) == RenderElement(with, level);
    assert Render(without, level) == RenderElement(without, level);
    if !tag.NameNamespaced? {
      ElementViaFilter(with, level);
      ElementViaFilter(without, level);
    }
  }

  // ---------------------------------------------------------------------------
  // Elements and fragments
  // ---------------------------------------------------------------------------

  /** `formatJSXElement` in closed form: with attributes, `(`, the name and `()`, each
      attribute on its own line one level deeper, then `)` at the element's indent; then
      `(`, each kept child on its own line at the next level followed by `,` and a line
      end, in source order, the element's indent, and `)`. It fails exactly when an
      attribute or a kept child does. */
  lemma {:induction false} ElementSpec(n: Node, level: nat)
    requires n.JSXElement? && !n.tagName.NameNamespaced?
    ensures Render(n, level).Ok? <==> AllOk(n.attributes, level + 2) && AllOk(KeptChildren(n.children), level + 1)
    ensures var kids := KeptChildren(n.children);
      var tag := FormatElementName(n.tagName).value;
      Render(n, level).Ok? ==>
        Render(n, level).text ==
          (if |n.attributes| > 0
           then "(" + (tag + "()") + (LineEnd + Concat(ItemTexts(n.attributes, level + 2, Pad(level + 1), LineEnd)) + (Pad(level) + ")"))
           else tag + "()")
          + "("
          + (if |kids| > 0 then LineEnd + Concat(ItemTexts(kids, level + 1, Pad(level + 1), "," + LineEnd)) + Pad(level) else [])
          + ")"
  {
    ElementViaFilter(n, level);
    assert Render(n, level) == RenderElement(n, level);
    LinesConcat(n.attributes, level + 2, Pad(level + 1), LineEnd);
    LinesConcat(KeptChildren(n.children), level + 1, Pad(level + 1), "," + LineEnd);
  }

  /** The output opens with `(` exactly when the element has attributes (for a tag name
      that does not itself begin with `(`). */
  lemma {:induction false} ElementOpensWithParen(n: Node, level: nat)
    requires n.JSXElement? && !n.tagName.NameNamespaced?
    requires var base := FormatName(n.tagName).value; base == [] || base[0] != '('
    requires Render(n, level).Ok?
    ensures |Render(n, level).text| > 0
    ensures Render(n, level).text[0] == '(' <==> |n.attributes| > 0
  {
    ElementSpec(n, level);
    var tag := FormatElementName(n.tagName).value;
    assert |tag| > 0 && tag[0] != '(';
  }

  /** Even a lone child is followed by `,`: `<b>x</b>` is `Dom.b()(`, a line end, the
      child one level deeper, `,`, a line end and `)`. */
  lemma {:induction false} LoneChildTrailingComma(n: Node, level: nat)
    requires n.JSXElement? && !n.tagName.NameNamespaced? && |n.attributes| == 0
    requires |KeptChildren(n.children)| == 1
    requires Render(n, level).Ok?
    ensures var c := KeptChildren(n.children)[0];
      && Render(c, level + 1).Ok?
      && Render(n, level).text ==
           FormatElementName(n.tagName).value + "()" + "(" +
           (LineEnd + (Pad(level + 1) + Render(c, level + 1).text + ("," + LineEnd)) + Pad(level)) + ")"
  {
    ElementSpec(n, level);
    var t := ItemTexts(KeptChildren(n.children), level + 1, Pad(level + 1), "," + LineEnd);
    assert t[..0] == [];
  }

  lemma {:induction false} TrimHelloWorld()
    ensures Trim("hello world") == "hello world"
  {
    var s := "hello world";
    assert TrimStart(s) == s by {
      assert s[0] == 'h';
    }
    assert TrimEnd(s) == s by {
      assert s[|s| - 1] == 'd';
    }
  }

  lemma {:induction false} HelloWorldText(c: Node)
    requires c == JSXText("hello world")
    ensures Kept(c)
    ensures Render(c, 1) == Ok("'hello world'")
  {
    TrimHelloWorld();
    assert !IsJsWhitespace(c.text[0]);
    assert Render(c, 1) == RenderJsx(c, 1);
  }

  lemma {:induction false} DivName()
    ensures FormatElementName(NameIdentifier("div")) == Some("Dom.div")
  {
    assert !StartsWithCapital("div") by {
      assert "div"[0] == 'd';
    }
    assert "Dom." + "div" == "Dom.div";
  }

  lemma {:induction false} HelloWorldLayout()
    ensures "Dom.div" + "()" + "(" + (LineEnd + ("  " + "'hello world'" + ("," + LineEnd)) + []) + ")" ==
      "Dom.div()(\n  'hello world',\n)"
  {
  }

  /** `<div>hello world</div>` at the top level. */
  lemma {:induction false} HelloWorldElement()
    ensures Render(JSXElement(NameIdentifier("div"), [], [JSXText("hello world")]), 0) ==
      Ok("Dom.div()(\n  'hello world',\n)")
  {
    var c := JSXText("hello world");
    var n := JSXElement(NameIdentifier("div"), [], [c]);
    HelloWorldText(c);
    KeptChildrenSingle(c);
    DivName();
    ElementSpec(n, 0);
    LoneChildTrailingComma(n, 0);
    assert Pad(1) == "  " && Pad(0) == [];
    HelloWorldLayout();
  }

  lemma {:induction false} BlankLines(items: seq<Node>, level: nat, prefix: string)
    requires forall c :: c in items ==> BlankText(c)
    ensures Lines(items, level, prefix, []) == Ok(Repeat(prefix + "''", |items|))
  {
    if items != [] {
      var k := |items| - 1;
      assert forall c :: c in items[..k] ==> c in items;
      BlankLines(items[..k], level, prefix);
      assert items[k] in items;
      assert Render(items[k], level) == Ok("''");
      AppendAssoc(Repeat(prefix + "''", k), prefix, "''");
    }
  }

  /** `formatJSXFragment` in closed form: only whitespace-only text children survive its
      filter and each writes `''`, so the output depends only on how many there are; it
      never fails. */
  lemma {:induction false} FragmentClosedForm(n: Node, level: nat)
    requires n.JSXFragment?
    ensures var k := |BlankTexts(n.fragmentChildren)|;
      Render(n, level) ==
        Ok("Fragment()(" + (if k > 0 then LineEnd + Repeat(Pad(level + 1) + "''", k) + Pad(level) else []) + ")")
  {
    var kids := BlankTexts(n.fragmentChildren);
    FragmentViaFilter(n, level);
    assert Render(n, level) == RenderFragment(n, level);
    BlankTextsAreBlank(n.fragmentChildren);
    BlankLines(kids, level + 1, Pad(level + 1));
    FragmentLayoutOk(|kids| > 0, Repeat(Pad(level + 1) + "''", |kids|), level);
  }

  /** The fragment layout around child lines that do not fail. */
  lemma {:induction false} FragmentLayoutOk(hasKids: bool, t: string, level: nat)
    ensures FragmentLayout(hasKids, Ok(t), level) ==
      Ok("Fragment()(" + (if hasKids then LineEnd + t + Pad(level) else []) + ")")
  {
    assert "Fragment()" + "(" == "Fragment()(";
  }

  // ---------------------------------------------------------------------------
  // Attributes, objects, arrays, declarations
  // ---------------------------------------------------------------------------

  /** `..name = value`, with `null` for an attribute without a value; a name holding
      `aria-` has its first `aria-` written as `aria.`. A namespaced attribute name has
      no handler. */
  lemma {:induction false} AttributeSpec(n: Node, level: nat)
    requires n.JSXAttribute?
    ensures n.attrName.AttrNamespaced? ==> Render(n, level) == Fail(NoHandler("JSXNamespacedName"))
    ensures n.attrName.AttrIdentifier? ==>
      (Render(n, level).Ok? <==> n.attrValue.None? || Render(n.attrValue.value, level).Ok?)
    ensures n.attrName.AttrIdentifier? && Render(n, level).Ok? ==>
      var name := n.attrName.name;
      var value := if n.attrValue.None? then "null" else Render(n.attrValue.value, level).text;
      && (!Contains(name, "aria-") ==> Render(n, level).text == ".." + name + " = " + value)
      && (Contains(name, "aria-") ==>
            exists i :: 0 <= i <= |name| && HasPrefixAt(name, i, "aria-") &&
              (forall j :: 0 <= j < i ==> !HasPrefixAt(name, j, "aria-")) &&
              Render(n, level).text == ".." + (name[..i] + "aria." + name[i + 5..]) + " = " + value)
  {
    assert Render(n, level) == RenderAttribute(n, level);
    if n.attrName.AttrIdentifier? {
      IdentifierTextSpec(n.attrName.name);
    }
  }

  /** An empty object is exactly `{}`; otherwise `{`, a line end, the properties one
      level deeper joined by `,` and a line end, a line end, and `}` at the entry
      indent. */
  lemma {:induction false} ObjectSpec(n: Node, level: nat)
    requires n.ObjectExpression?
    ensures |n.properties| == 0 ==> Render(n, level) == Ok("{}")
    ensures Render(n, level).Ok? <==> AllOk(n.properties, level + 1)
    ensures |n.properties| > 0 && Render(n, level).Ok? ==>
      Render(n, level).text ==
        "{" + LineEnd + Join(ItemTexts(n.properties, level + 1, Pad(level + 1), []), "," + LineEnd) + (LineEnd + Pad(level) + "}")
  {
    assert Render(n, level) == RenderObject(n, level);
    JoinedJoin(n.properties, level + 1, Pad(level + 1), "," + LineEnd);
  }

  /** How a plain property writes its key: nothing for a shorthand, `[key]: ` when
      computed, `'name': ` for an identifier key, and `key: ` otherwise. Methods, getters
      and setters go to astring's method handler. */
  lemma {:induction false} PropertyKeys(n: Node, level: nat)
    requires n.Property?
    ensures n.isMethod || n.kind != Init ==> Render(n, level) == Fail(Unmodelled("MethodDefinition"))
    ensures !n.isMethod && n.kind == Init && n.shorthand ==> Render(n, level) == Render(n.value, level)
    ensures !n.isMethod && n.kind == Init && !n.shorthand && !n.computed && n.key.Identifier? &&
            Render(n.value, level).Ok? ==>
      Render(n, level) == Ok("'" + n.key.name + "': " + Render(n.value, level).text)
    ensures !n.isMethod && n.kind == Init && !n.shorthand && n.computed &&
            Render(n.key, level).Ok? && Render(n.value, level).Ok? ==>
      Render(n, level) == Ok("[" + Render(n.key, level).text + "]: " + Render(n.value, level).text)
  {
    assert Render(n, level) == RenderProperty(n, level);
    if n.key.Identifier? {
      assert Render(n.key, level) == Ok(n.key.name);
    }
  }

  /** An array writes its elements joined by `, `, a hole writing nothing, and one more
      `, ` when the last element is a hole; it fails exactly when an element does. */
  lemma {:induction false} ArraySpec(es: seq<Option<Node>>, level: nat)
    ensures Render(ArrayExpression(es), level).Ok? <==> AllElementsOk(es, level)
    ensures AllElementsOk(es, level) ==>
      Render(ArrayExpression(es), level).text ==
        "[" + Join(ElementTexts(es, level), ", ") + (if |es| > 0 && es[|es| - 1].None? then ", " + "]" else "]")
  {
    assert forall e :: e in es && e.Some? ==> e.value < e;
    assert Render(ArrayExpression(es), level) == RenderArray(es, level);
    ElementsJoin(es, level);
  }

  /** `[a, , b]`: a hole between elements writes nothing between its separators. */
  lemma {:induction false} ArrayInnerHole(a: string, b: string)
    ensures Render(ArrayExpression([Some(Identifier(a)), None, Some(Identifier(b))]), 0) == Ok("[" + a + ", , " + b + "]")
  {
    assert Render(Identifier(a), 0) == Ok(a);
    assert Render(Identifier(b), 0) == Ok(b);
    var es := [Some(Identifier(a)), None, Some(Identifier(b))];
    ArraySpec(es, 0);
    assert ElementTexts(es, 0) == [a, [], b];
    JoinTriple(a, [], b, ", ");
    InnerHoleText(a, b);
  }

  lemma {:induction false} InnerHoleText(a: string, b: string)
    ensures "[" + (a + ", " + [] + ", " + b) + "]" == "[" + a + ", , " + b + "]"
  {
    assert ", " + [] + ", " == ", , ";
  }

  /** `[a, ,]`: a trailing hole writes one more separator. */
  lemma {:induction false} ArrayTrailingHole(a: string)
    ensures Render(ArrayExpression([Some(Identifier(a)), None]), 0) == Ok("[" + a + ", , ]")
  {
    assert Render(Identifier(a), 0) == Ok(a);
    var es := [Some(Identifier(a)), None];
    ArraySpec(es, 0);
    assert ElementTexts(es, 0) == [a, []];
    JoinPair(a, [], ", ");
    TrailingHoleText(a);
  }

  lemma {:induction false} TrailingHoleText(a: string)
    ensures "[" + (a + ", " + []) + (", " + "]") == "[" + a + ", , ]"
  {
    assert ", " + [] + (", " + "]") == ", , ]";
  }

  /** A declaration of any kind is written `var `, its declarators joined by `, `,
      and `;`. */
  lemma {:induction false} DeclarationSpec(n: Node, level: nat)
    requires n.VariableDeclaration?
    ensures Render(n, level).Ok? <==> AllOk(n.declarations, level)
    ensures Render(n, level).Ok? ==>
      Render(n, level).text == "var " + Join(ItemTexts(n.declarations, level, [], []), ", ") + ";"
  {
    assert Render(n, level) == RenderScript(n, level);
    JoinedJoin(n.declarations, level, [], ", ");
    var joined := Joined(n.declarations, level, [], ", ");
    assert RenderScript(n, level) == Close(Then("var ", joined), ";");
  }

  /** The `[x, setX]` heuristic: a two-element pattern whose second name contains `set`
      is written as its first element alone; reading the name of a hole or of a
      non-identifier, or the type of a missing first element, is a TypeError; any other
      pattern is written as an array. */
  lemma {:induction false} SetterPattern(ps: seq<Option<Node>>, level: nat)
    ensures |ps| == 2 && ps[0].Some? && ps[1].Some? && ps[1].value.Identifier? && Contains(ps[1].value.name, "set") ==>
      Render(ArrayPattern(ps), level) == Render(ps[0].value, level)
    ensures (|ps| != 2 || (ps[1].Some? && ps[1].value.Identifier? && !Contains(ps[1].value.name, "set"))) ==>
      Render(ArrayPattern(ps), level) == Render(ArrayExpression(ps), level)
    ensures |ps| == 2 && (ps[1].None? || !ps[1].value.Identifier? || (Contains(ps[1].value.name, "set") && ps[0].None?)) ==>
      Render(ArrayPattern(ps), level).Fail? && Render(ArrayPattern(ps), level).failure.NullAccess?
  {
    assert Render(ArrayPattern(ps), level) == RenderPattern(ArrayPattern(ps), level);
    assert forall e :: e in ps && e.Some? ==> e.value < e;
    assert Render(ArrayExpression(ps), level) == RenderArray(ps, level);
  }

  /** An arrow function is `(`, its parameters joined with `, `, `) ` and its body,
      which is parenthesised when it is an object expression: no `=>` is written. A
      failing parameter makes the whole fail before the body is written, and so does
      a failing body. */
  lemma {:induction false} ArrowWithoutArrowToken(params: seq<Node>, body: Node, level: nat)
    ensures var r := Render(ArrowFunctionExpression(params, body), level);
      var ps := Joined(params, level, [], ", ");
      var b := Render(body, level);
      && (ps.Fail? ==> r == ps)
      && (ps.Ok? && b.Fail? ==> r == b)
      && (ps.Ok? && b.Ok? ==> r == Ok("(" + ps.text + ") " + (if body.ObjectExpression? then "(" + b.text + ")" else b.text)))
  {
    var n := ArrowFunctionExpression(params, body);
    assert Render(n, level) == RenderArrow(n, level);
    var ps := Joined(params, level, [], ", ");
    if ps.Fail? {
      assert Sequence(params, level) == ps;
    } else {
      assert Sequence(params, level) == Ok("(" + ps.text + ")");
      ArrowTail("(" + ps.text + ")", body, level);
    }
  }

  /** What follows the parameter list `head` of an arrow function. */
  lemma {:induction false} ArrowTail(head: string, body: Node, level: nat)
    ensures var b := Render(body, level);
      var t := Then(head + " ", if body.ObjectExpression? then Wrap("(", RenderObject(body, level), ")") else b);
      && (b.Fail? ==> t == b)
      && (b.Ok? ==> t == Ok(head + " " + (if body.ObjectExpression? then "(" + b.text + ")" else b.text)))
  {
    if body.ObjectExpression? {
      assert Render(body, level) == RenderObject(body, level);
    }
  }
}
