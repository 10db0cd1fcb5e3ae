/**
 * What `jsxElementToOverReactString` in index.ts promises: the layout of text nodes
 * and elements, the `Dom.` rule, the comma rule for children, the repository's
 * own expected outputs, and the doubled comma its comma rule produces for nested
 * lists.
 */
module RecordRendererProps {
  import opened Text
  import opened RecordRenderer

  /** A text node as jsx-parser produces it. */
  function TextRecord(value: string): JsxRecord {
    JsxRecord(TextKind, [], [], Some(value))
  }

  // ---------------------------------------------------------------------------
  // Layout
  // ---------------------------------------------------------------------------

  lemma {:induction false} TextLineLayout(v: Option<string>, depth: nat)
    ensures var out := TextLine(v, depth);
      var t := NodeValueText(v);
      |out| == 2 * depth + |t| + 3 && out[..2 * depth] == Pad(depth) && out[2 * depth] == '\'' &&
      out[2 * depth + 1..|out| - 2] == t && out[|out| - 2..] == "'\n"
  {
    var out := TextLine(v, depth);
    var t := NodeValueText(v);
    var pq := Pad(depth) + "'";
    var body := pq + t;
    assert out == body + "'\n";
    assert out[..|body|] == body;
    assert out[|body|..] == "'\n";
    assert body[..|pq|] == pq;
    assert body[|pq|..] == t;
    assert pq[..2 * depth] == Pad(depth);
    assert out[2 * depth + 1..|out| - 2] == body[|pq|..];
    assert out[..2 * depth] == pq[..2 * depth];
  }

  /** A text node is its value in single quotes, indented at `depth` and ended by a
      line feed; its props and children play no part. */
  lemma {:induction false} TextNodeLayout(el: JsxRecord, depth: nat)
    requires IsText(el)
    ensures var out := RecordText(el, depth);
      var v := NodeValueText(el.nodeValue);
      |out| == 2 * depth + |v| + 3 && out[..2 * depth] == Pad(depth) && out[2 * depth] == '\'' &&
      out[2 * depth + 1..|out| - 2] == v && out[|out| - 2..] == "'\n"
  {
    TextLineLayout(el.nodeValue, depth);
  }

  lemma {:induction false} OpeningLayout(kind: string, hasProps: bool, depth: nat)
    requires kind == [] || kind[0] != '('
    ensures var out := Opening(kind, hasProps, depth);
      var at := 2 * depth + (if hasProps then 1 else 0);
      |out| > at && out[..2 * depth] == Pad(depth) && (out[2 * depth] == '(' <==> hasProps) &&
      HasPrefixAt(out, at, Factory(kind) + "()")
  {
    var f := Factory(kind);
    FactoryForm(kind);
    assert f[0] != '(';
    var a := if hasProps then Pad(depth) + "(" else Pad(depth);
    var c := a + f + "()";
    var out := Opening(kind, hasProps, depth);
    if hasProps {
      assert out == c + "\n";
      assert out[..|c|] == c;
    } else {
      assert out == c;
    }
    AppendAssoc(a, f, "()");
    assert c[..|a|] == a && c[|a|..] == f + "()";
    assert a[..2 * depth] == Pad(depth);
    assert out[..2 * depth] == a[..2 * depth];
    assert out[2 * depth] == if hasProps then '(' else f[0];
    assert out[|a|..|a| + |f| + 2] == c[|a|..];
  }

  /** The factory call is where an element's text begins. */
  lemma {:induction false} OpeningFirst(el: JsxRecord, depth: nat)
    requires !IsText(el)
    ensures Opening(el.kind, |el.props| > 0, depth) <= RecordText(el, depth)
  {
    var open := Opening(el.kind, |el.props| > 0, depth);
    var head := Head(el.kind, el.props, depth);
    var body := head + Closing(|el.props| > 0, el.children, depth);
    assert open <= head by {
      if |el.props| > 0 {
        assert head == open + PropLines(el.props, depth + 1);
      }
    }
    assert head <= body;
    assert body <= RecordText(el, depth) by {
      if 1 < |el.children| {
        assert RecordText(el, depth) == body + ",\n";
      }
    }
  }

  /** An element's text is indented at `depth`, opens with `(` exactly when it has
      props, and then names its factory followed by `()`. */
  lemma {:induction false} ElementOpening(el: JsxRecord, depth: nat)
    requires !IsText(el) && (el.kind == [] || el.kind[0] != '(')
    ensures var out := RecordText(el, depth);
      var at := 2 * depth + (if |el.props| > 0 then 1 else 0);
      |out| > 2 * depth && out[..2 * depth] == Pad(depth) && (out[2 * depth] == '(' <==> |el.props| > 0) &&
      HasPrefixAt(out, at, Factory(el.kind) + "()")
  {
    var hasProps := |el.props| > 0;
    var open := Opening(el.kind, hasProps, depth);
    var out := RecordText(el, depth);
    OpeningLayout(el.kind, hasProps, depth);
    OpeningFirst(el, depth);
    PatternInPrefix(open, out, 2 * depth + (if hasProps then 1 else 0), Factory(el.kind) + "()");
    assert out[..|open|] == open;
    assert out[..2 * depth] == open[..2 * depth];
    assert out[2 * depth] == open[2 * depth];
  }

  /** Without children: the empty call `()` right after the factory's `()`, or, with
      props, the prop lines and `)()` at the element's indent. */
  lemma {:induction false} ChildlessElement(el: JsxRecord, depth: nat)
    requires !IsText(el) && el.children == []
    ensures RecordText(el, depth) ==
      if |el.props| > 0 then Pad(depth) + "(" + Factory(el.kind) + "()\n" + PropLines(el.props, depth + 1) + (Pad(depth) + ")()")
      else Pad(depth) + Factory(el.kind) + "()()"
  {
    if |el.props| == 0 {
      AppendAssoc(Pad(depth) + Factory(el.kind), "()", "()");
    }
  }

  lemma {:induction false} ClosingEnds(hasProps: bool, children: seq<JsxRecord>, depth: nat)
    ensures var c := Closing(hasProps, children, depth);
      |c| >= 1 && c[|c| - 1] == ')'
  {
  }

  /** The element's text ends with its `)`, followed by `,\n` exactly when it has more
      than one child. */
  lemma {:induction false} ElementEnding(el: JsxRecord, depth: nat)
    requires !IsText(el)
    ensures var out := RecordText(el, depth);
      if |el.children| > 1 then |out| >= 3 && out[|out| - 3..] == "),\n"
      else |out| >= 1 && out[|out| - 1] == ')'
  {
    var hasProps := |el.props| > 0;
    var head := Head(el.kind, el.props, depth);
    var close := Closing(hasProps, el.children, depth);
    ClosingEnds(hasProps, el.children, depth);
    ParenEnding(head, close);
    ElementPieces(el, depth);
    EndingShape(RecordText(el, depth), head + close, |el.children| > 1);
  }

  /** An element's text is its head and its closing, then `,\n` when it has several
      children. */
  lemma {:induction false} ElementPieces(el: JsxRecord, depth: nat)
    requires !IsText(el)
    ensures var body := Head(el.kind, el.props, depth) + Closing(|el.props| > 0, el.children, depth);
      RecordText(el, depth) == if |el.children| > 1 then body + ",\n" else body
  {
  }

  lemma {:induction false} EndingShape(out: string, body: string, several: bool)
    requires |body| >= 1 && body[|body| - 1] == ')' && |body + ",\n"| >= 3 && (body + ",\n")[|body + ",\n"| - 3..] == "),\n"
    requires out == if several then body + ",\n" else body
    ensures if several then |out| >= 3 && out[|out| - 3..] == "),\n" else |out| >= 1 && out[|out| - 1] == ')'
  {
  }

  /** A string ending in `)` still does after a prefix, and ends in `),\n` once `,\n`
      follows. */
  lemma {:induction false} ParenEnding(head: string, close: string)
    requires |close| >= 1 && close[|close| - 1] == ')'
    ensures var body := head + close;
      body[|body| - 1] == ')' && |body + ",\n"| >= 3 && (body + ",\n")[|body + ",\n"| - 3..] == "),\n"
  {
    var body := head + close;
    assert body[|body| - 1] == ')';
    var out := body + ",\n";
    assert out[|out| - 3] == ')';
    assert out[|out| - 2..] == ",\n";
    assert out[|out| - 3..] == [out[|out| - 3]] + out[|out| - 2..];
  }

  // ---------------------------------------------------------------------------
  // Props
  // ---------------------------------------------------------------------------

  function PropTexts(props: seq<Prop>, depth: nat): (r: seq<string>)
    ensures |r| == |props|
    ensures forall i :: 0 <= i < |props| ==> r[i] == PropLine(props[i], depth)
  {
    seq(|props|, i requires 0 <= i < |props| => PropLine(props[i], depth))
  }

  /** The prop lines are one line per prop, in the order the props are visited. */
  lemma {:induction false} PropLinesInOrder(props: seq<Prop>, depth: nat)
    ensures PropLines(props, depth) == Concat(PropTexts(props, depth))
    decreases |props|
  {
    if props != [] {
      var init := props[..|props| - 1];
      PropLinesInOrder(init, depth);
      PropTextsInit(props, depth);
    }
  }

  lemma {:induction false} PropTextsInit(props: seq<Prop>, depth: nat)
    requires props != []
    ensures PropTexts(props, depth)[..|props| - 1] == PropTexts(props[..|props| - 1], depth)
  {
  }

  /** A prop without a `nodeValue` is its string in single quotes after `= `, on a line
      of its own at the given depth; an evaluated prop holds no double quote. */
  lemma {:induction false} PropLineForms(p: Prop, depth: nat)
    ensures p.value.Plain? ==> PropLine(p, depth) == Pad(depth) + ".." + p.name + " = '" + p.value.text + "'\n"
    ensures p.value.Evaluated? && p.value.nodeValue != [] ==>
      var line := PropLine(p, depth);
      line[..2 * depth + 2] == Pad(depth) + ".." && line[|line| - 1] == '\n' &&
      '"' !in line[2 * depth + 2 + |p.name| + 3..|line| - 1]
  {
    var lead := Pad(depth) + "..";
    var h := lead + p.name;
    var tail := PropValueText(p.value);
    var line := PropLine(p, depth);
    var x := h + " = " + tail;
    assert line == x + "\n";
    if p.value.Plain? {
      var t := p.value.text;
      AppendAssoc(h + " = ", "'" + t + "'", "\n");
      AppendAssoc(h, " = ", "'" + t + "'" + "\n");
      AppendAssoc(h + " = '", t, "'\n");
      AppendAssoc(h, " = '", t + "'\n");
      assert " = " + ("'" + t + "'" + "\n") == " = '" + (t + "'\n");
    } else if p.value.nodeValue != [] {
      assert line[..|x|] == x;
      assert x[..|h|] == h;
      assert h[..|lead|] == lead;
      assert line[..|lead|] == lead;
      assert x[|h + " = "|..] == tail;
      assert line[|h + " = "|..|line| - 1] == x[|h + " = "|..];
    }
  }

  lemma {:induction false} OneProp(p: Prop, depth: nat)
    ensures PropLines([p], depth) == PropLine(p, depth)
  {
    var props := [p];
    assert props[..0] == [];
    EmptyAppend(PropLine(p, depth));
  }

  // ---------------------------------------------------------------------------
  // Children
  // ---------------------------------------------------------------------------

  function ChildTexts(children: seq<JsxRecord>, depth: nat): (r: seq<string>)
    ensures |r| == |children|
    ensures forall i :: 0 <= i < |children| ==> r[i] == RecordText(children[i], depth)
  {
    seq(|children|, i requires 0 <= i < |children| => RecordText(children[i], depth))
  }

  /** Each child followed by `,\n`: the children's texts joined by `,\n`, with one
      more `,\n` at the end. */
  lemma {:induction false} ChildrenJoin(children: seq<JsxRecord>, depth: nat)
    requires |children| >= 1
    ensures ChildrenText(children, depth, true) == Join(ChildTexts(children, depth), ",\n") + ",\n"
    decreases |children|
  {
    var init := children[..|children| - 1];
    if |children| == 1 {
      assert init == [];
      EmptyAppend(RecordText(children[0], depth) + ",\n");
    } else {
      ChildrenJoin(init, depth);
      ChildTextsInit(children, depth);
    }
  }

  lemma {:induction false} ChildTextsInit(children: seq<JsxRecord>, depth: nat)
    requires children != []
    ensures ChildTexts(children, depth)[..|children| - 1] == ChildTexts(children[..|children| - 1], depth)
  {
  }

  lemma {:induction false} OnlyChild(children: seq<JsxRecord>, depth: nat)
    requires |children| == 1
    ensures ChildrenText(children, depth, |children| > 1) == RecordText(children[0], depth)
  {
    assert children[..0] == [];
    EmptyAppend(RecordText(children[0], depth));
  }

  lemma {:induction false} BothChildren(children: seq<JsxRecord>, depth: nat)
    requires |children| == 2
    ensures ChildrenText(children, depth, |children| > 1) == RecordText(children[0], depth) + ",\n" + (RecordText(children[1], depth) + ",\n")
  {
    var first := children[..1];
    assert first[..0] == [] && first[0] == children[0];
    EmptyAppend(RecordText(children[0], depth) + ",\n");
    assert ChildrenText(first, depth, true) == RecordText(children[0], depth) + ",\n";
  }

  /** Children are separated by `,\n` only when there is more than one; a lone child
      is written bare. */
  lemma {:induction false} CommaRule(children: seq<JsxRecord>, depth: nat)
    ensures ChildrenText(children, depth, |children| > 1) ==
      if |children| > 1 then Join(ChildTexts(children, depth), ",\n") + ",\n"
      else if |children| == 1 then RecordText(children[0], depth)
      else []
  {
    if |children| > 1 {
      ChildrenJoin(children, depth);
    } else if |children| == 1 {
      OnlyChild(children, depth);
    }
  }

  /** The children's block grows by appending: a prefix of the children gives a prefix
      of the block. */
  lemma {:induction false} ChildrenTextPrefix(children: seq<JsxRecord>, j: nat, depth: nat, several: bool)
    requires j <= |children|
    ensures ChildrenText(children[..j], depth, several) <= ChildrenText(children, depth, several)
    decreases |children|
  {
    if j < |children| {
      var init := children[..|children| - 1];
      ChildrenTextPrefix(init, j, depth, several);
      assert init[..j] == children[..j];
    } else {
      assert children[..j] == children;
    }
  }

  /** An element with children, in closed form: the factory call (after `(` and
      followed by the prop lines and `)` when there are props), `(` and a line feed,
      the children's texts — joined by `,\n` and followed by `,\n` when there are
      several, the lone child's text otherwise — then `)` at the element's indent, and
      `,\n` when there are several children. */
  lemma {:induction false} ElementWithChildren(el: JsxRecord, depth: nat)
    requires !IsText(el) && |el.children| > 0
    ensures var several := |el.children| > 1;
      var open := if |el.props| > 0 then Pad(depth) + "(" + Factory(el.kind) + "()\n" + PropLines(el.props, depth + 1) + Pad(depth) + ")(\n"
        else Pad(depth) + Factory(el.kind) + "()(\n";
      var block := if several then Join(ChildTexts(el.children, depth + 1), ",\n") + ",\n" else RecordText(el.children[0], depth + 1);
      RecordText(el, depth) == open + block + Pad(depth) + ")" + (if several then ",\n" else "")
  {
    var several := |el.children| > 1;
    var hr := Head(el.kind, el.props, depth) + Reopen(|el.props| > 0, depth);
    var b := ChildrenText(el.children, depth + 1, several);
    var open := if |el.props| > 0 then Pad(depth) + "(" + Factory(el.kind) + "()\n" + PropLines(el.props, depth + 1) + Pad(depth) + ")(\n"
      else Pad(depth) + Factory(el.kind) + "()(\n";
    var block := if several then Join(ChildTexts(el.children, depth + 1), ",\n") + ",\n" else RecordText(el.children[0], depth + 1);
    assert hr == open by {
      OpenForm(el.kind, el.props, depth);
    }
    assert b == block by {
      CommaRule(el.children, depth + 1);
    }
    assert RecordText(el, depth) == if several then hr + b + (Pad(depth) + ")") + ",\n" else hr + b + (Pad(depth) + ")") by {
      ElementBlocks(el, depth);
    }
    Reassemble(RecordText(el, depth), hr, open, b, block, Pad(depth), several);
  }

  /** The factory call and prop lines followed by what opens the children's block. */
  lemma {:induction false} OpenForm(kind: string, props: seq<Prop>, depth: nat)
    ensures Head(kind, props, depth) + Reopen(|props| > 0, depth) ==
      if |props| > 0 then Pad(depth) + "(" + Factory(kind) + "()\n" + PropLines(props, depth + 1) + Pad(depth) + ")(\n"
      else Pad(depth) + Factory(kind) + "()(\n"
  {
  }

  /** Equal pieces, regrouped: the element's text from its head and block. */
  lemma {:induction false} Reassemble(x: string, hr: string, open: string, b: string, block: string, pad: string, several: bool)
    requires x == if several then hr + b + (pad + ")") + ",\n" else hr + b + (pad + ")")
    requires hr == open && b == block
    ensures x == open + block + pad + ")" + (if several then ",\n" else "")
  {
  }

  /** An element with children: its factory call and prop lines, what opens the
      children's block, the block, the `)` at the element's indent, and `,\n` when
      there is more than one child. */
  lemma {:induction false} ElementBlocks(el: JsxRecord, depth: nat)
    requires !IsText(el) && |el.children| > 0
    ensures var body := Head(el.kind, el.props, depth) + Reopen(|el.props| > 0, depth) +
        ChildrenText(el.children, depth + 1, |el.children| > 1) + (Pad(depth) + ")");
      (|el.children| == 1 ==> RecordText(el, depth) == body) && (|el.children| > 1 ==> RecordText(el, depth) == body + ",\n")
  {
    Regroup(Head(el.kind, el.props, depth), Reopen(|el.props| > 0, depth),
      ChildrenText(el.children, depth + 1, |el.children| > 1), Pad(depth) + ")");
  }

  /** A pattern inside a string is still there when something follows. */
  lemma {:induction false} PatternExtends(a: string, b: string, i: nat, pat: string)
    requires HasPrefixAt(a, i, pat)
    ensures HasPrefixAt(a + b, i, pat)
  {
    assert (a + b)[i..i + |pat|] == a[i..i + |pat|];
  }

  /** A pattern inside a string is still there, shifted, when something precedes. */
  lemma {:induction false} PatternShifts(a: string, b: string, i: nat, pat: string)
    requires HasPrefixAt(b, i, pat)
    ensures HasPrefixAt(a + b, |a| + i, pat)
  {
    assert (a + b)[|a| + i..|a| + i + |pat|] == b[i..i + |pat|];
  }

  /** A pattern inside a prefix is inside the whole. */
  lemma {:induction false} PatternInPrefix(a: string, b: string, i: nat, pat: string)
    requires a <= b && HasPrefixAt(a, i, pat)
    ensures HasPrefixAt(b, i, pat)
  {
    assert b[i..i + |pat|] == b[..|a|][i..i + |pat|];
  }

  /** A string ending in `end` followed by `more` holds `end + more` at the seam. */
  lemma {:induction false} EndThenMore(s: string, end: string, more: string)
    requires |s| >= |end| && s[|s| - |end|..] == end
    ensures HasPrefixAt(s + more, |s| - |end|, end + more)
  {
    var t := s + more;
    assert t[|s| - |end|..|s|] == end;
    assert t[|s|..] == more;
    assert t[|s| - |end|..|s| + |more|] == t[|s| - |end|..|s|] + t[|s|..];
  }

  /** The abstract shape of the doubled comma: a text whose children's block starts
      with the pieces before a child, then a child ending in `),\n`, then `,\n`. */
  lemma {:induction false} DoubleCommaShape(out: string, body: string, pre: string, block: string, post: string, more: string,
                                            upTo: string, before: string, child: string)
    requires body == pre + block + post && (out == body || out == body + more)
    requires upTo <= block && upTo == before + (child + ",\n")
    requires |child| >= 3 && child[|child| - 3..] == "),\n"
    ensures Contains(out, "),\n,\n")
  {
    var pat := "),\n,\n";
    EndThenMore(child, "),\n", ",\n");
    assert "),\n" + ",\n" == pat;
    PatternShifts(before, child + ",\n", |child| - 3, pat);
    PatternInPrefix(upTo, block, |before| + |child| - 3, pat);
    PatternShifts(pre, block, |before| + |child| - 3, pat);
    PatternExtends(pre + block, post, |pre| + |before| + |child| - 3, pat);
    if out != body {
      PatternExtends(body, more, |pre| + |before| + |child| - 3, pat);
    }
  }

  /** An element with more than one child that is itself one of several children ends
      with its own `,\n` and then gets its parent's separator as well, so the parent's
      text holds a line with a lone comma. */
  lemma {:induction false} NestedListDoubleComma(parent: JsxRecord, i: nat, depth: nat)
    requires !IsText(parent) && 1 < |parent.children| && i < |parent.children|
    requires !IsText(parent.children[i]) && 1 < |parent.children[i].children|
    ensures Contains(RecordText(parent, depth), "),\n,\n")
  {
    var children := parent.children;
    var several := |children| > 1;
    ListEnding(children[i], depth + 1);
    PieceInBlock(children, i, depth + 1, several);
    ListBody(parent, depth);
    var pre := Head(parent.kind, parent.props, depth) + Reopen(|parent.props| > 0, depth);
    var block := ChildrenText(children, depth + 1, several);
    DoubleCommaShape(RecordText(parent, depth), pre + block + (Pad(depth) + ")"), pre, block, Pad(depth) + ")", ",\n",
      ChildrenText(children[..i + 1], depth + 1, several), ChildrenText(children[..i], depth + 1, several), RecordText(children[i], depth + 1));
  }

  /** An element with more than one child ends in `),\n`. */
  lemma {:induction false} ListEnding(el: JsxRecord, depth: nat)
    requires !IsText(el) && |el.children| > 1
    ensures var out := RecordText(el, depth); |out| >= 3 && out[|out| - 3..] == "),\n"
  {
    ElementEnding(el, depth);
  }

  /** The text of an element with more than one child, ending in `,\n`. */
  lemma {:induction false} ListBody(el: JsxRecord, depth: nat)
    requires !IsText(el) && |el.children| > 1
    ensures RecordText(el, depth) == Head(el.kind, el.props, depth) + Reopen(|el.props| > 0, depth) +
        ChildrenText(el.children, depth + 1, |el.children| > 1) + (Pad(depth) + ")") + ",\n"
  {
    ElementBlocks(el, depth);
  }

  /** With several children, the pieces up to and including the `i`-th child, which
      ends in `,\n`, begin the children's block. */
  lemma {:induction false} PieceInBlock(children: seq<JsxRecord>, i: nat, depth: nat, several: bool)
    requires i < |children| && several
    ensures ChildrenText(children[..i + 1], depth, several) <= ChildrenText(children, depth, several)
    ensures ChildrenText(children[..i + 1], depth, several) == ChildrenText(children[..i], depth, several) + (RecordText(children[i], depth) + ",\n")
  {
    ChildrenTextStep(children, i, depth, several);
    PieceWithComma(RecordText(children[i], depth), several);
    ChildrenTextPrefix(children, i + 1, depth, several);
  }

  lemma {:induction false} PieceWithComma(text: string, several: bool)
    requires several
    ensures ChildPiece(text, several) == text + ",\n"
  {
  }

  // ---------------------------------------------------------------------------
  // Shapes the repository's expected outputs take
  // ---------------------------------------------------------------------------

  /** An element with a single child: its head, what opens the block, the child one
      level deeper, and the `)` at the element's indent. */
  lemma {:induction false} SoleChildParts(el: JsxRecord, depth: nat)
    requires !IsText(el) && |el.children| == 1
    ensures RecordText(el, depth) ==
      Head(el.kind, el.props, depth) + Reopen(|el.props| > 0, depth) + RecordText(el.children[0], depth + 1) + (Pad(depth) + ")")
  {
    ElementBlocks(el, depth);
    OnlyChild(el.children, depth + 1);
    Substitute4(RecordText(el, depth),
      Head(el.kind, el.props, depth), Reopen(|el.props| > 0, depth), ChildrenText(el.children, depth + 1, |el.children| > 1), Pad(depth) + ")",
      Head(el.kind, el.props, depth), Reopen(|el.props| > 0, depth), RecordText(el.children[0], depth + 1), Pad(depth) + ")");
  }

  /** An element without props and with a single child. */
  lemma {:induction false} SoleChild(el: JsxRecord, depth: nat)
    requires !IsText(el) && el.props == [] && |el.children| == 1
    ensures RecordText(el, depth) == Pad(depth) + Factory(el.kind) + "()" + "(\n" + RecordText(el.children[0], depth + 1) + (Pad(depth) + ")")
  {
    SoleChildParts(el, depth);
    Substitute4(RecordText(el, depth),
      Head(el.kind, el.props, depth), Reopen(|el.props| > 0, depth), RecordText(el.children[0], depth + 1), Pad(depth) + ")",
      Pad(depth) + Factory(el.kind) + "()", "(\n", RecordText(el.children[0], depth + 1), Pad(depth) + ")");
  }

  /** An element with props and a single child. */
  lemma {:induction false} SoleChildWithProps(el: JsxRecord, depth: nat)
    requires !IsText(el) && |el.props| > 0 && |el.children| == 1
    ensures RecordText(el, depth) ==
      Pad(depth) + "(" + Factory(el.kind) + "()\n" + PropLines(el.props, depth + 1) + (Pad(depth) + ")(\n") + RecordText(el.children[0], depth + 1) + (Pad(depth) + ")")
  {
    SoleChildParts(el, depth);
    Substitute4(RecordText(el, depth),
      Head(el.kind, el.props, depth), Reopen(|el.props| > 0, depth), RecordText(el.children[0], depth + 1), Pad(depth) + ")",
      Pad(depth) + "(" + Factory(el.kind) + "()\n" + PropLines(el.props, depth + 1), Pad(depth) + ")(\n", RecordText(el.children[0], depth + 1), Pad(depth) + ")");
  }

  /** An element without props and with two children. */
  lemma {:induction false} TwoChildren(el: JsxRecord, depth: nat)
    requires !IsText(el) && el.props == [] && |el.children| == 2
    ensures RecordText(el, depth) ==
      Pad(depth) + Factory(el.kind) + "()" + "(\n" + (RecordText(el.children[0], depth + 1) + ",\n" + (RecordText(el.children[1], depth + 1) + ",\n")) +
      (Pad(depth) + ")") + ",\n"
  {
    ElementBlocks(el, depth);
    BothChildren(el.children, depth + 1);
    Substitute(RecordText(el, depth),
      Head(el.kind, el.props, depth), Reopen(|el.props| > 0, depth), ChildrenText(el.children, depth + 1, |el.children| > 1), Pad(depth) + ")", ",\n",
      Pad(depth) + Factory(el.kind) + "()", "(\n", RecordText(el.children[0], depth + 1) + ",\n" + (RecordText(el.children[1], depth + 1) + ",\n"),
      Pad(depth) + ")", ",\n");
  }

  // ---------------------------------------------------------------------------
  // The repository's expected outputs (before its tests strip the indentation),
  // for any text and prop values
  // ---------------------------------------------------------------------------

  /** A prop-less element with one child, once its pieces are known. */
  lemma {:induction false} SoleChildAt(el: JsxRecord, depth: nat, call: string, child: string, close: string)
    requires !IsText(el) && el.props == [] && |el.children| == 1
    requires Pad(depth) + Factory(el.kind) + "()" == call
    requires RecordText(el.children[0], depth + 1) == child && Pad(depth) + ")" == close
    ensures RecordText(el, depth) == call + "(\n" + child + close
  {
    SoleChild(el, depth);
  }

  /** An element with props and one child, once its pieces are known. */
  lemma {:induction false} SoleChildWithPropsAt(el: JsxRecord, depth: nat, call: string, lines: string, reopen: string, child: string, close: string)
    requires !IsText(el) && |el.props| > 0 && |el.children| == 1
    requires Pad(depth) + "(" + Factory(el.kind) + "()\n" == call && PropLines(el.props, depth + 1) == lines
    requires Pad(depth) + ")(\n" == reopen && RecordText(el.children[0], depth + 1) == child && Pad(depth) + ")" == close
    ensures RecordText(el, depth) == call + lines + reopen + child + close
  {
    SoleChildWithProps(el, depth);
  }

  /** An element with props and no children, once its pieces are known. */
  lemma {:induction false} ChildlessWithPropsAt(el: JsxRecord, depth: nat, call: string, lines: string, close: string)
    requires !IsText(el) && |el.props| > 0 && el.children == []
    requires Pad(depth) + "(" + Factory(el.kind) + "()\n" == call && PropLines(el.props, depth + 1) == lines
    requires Pad(depth) + ")()" == close
    ensures RecordText(el, depth) == call + lines + close
  {
    ChildlessElement(el, depth);
  }

  /** A prop-less element with two children, once its pieces are known. */
  lemma {:induction false} TwoChildrenAt(el: JsxRecord, depth: nat, call: string, first: string, second: string, close: string)
    requires !IsText(el) && el.props == [] && |el.children| == 2
    requires Pad(depth) + Factory(el.kind) + "()" == call
    requires RecordText(el.children[0], depth + 1) == first && RecordText(el.children[1], depth + 1) == second
    requires Pad(depth) + ")" == close
    ensures RecordText(el, depth) == call + "(\n" + (first + ",\n" + (second + ",\n")) + close + ",\n"
  {
    TwoChildren(el, depth);
  }

  lemma {:induction false} PadLiterals()
    ensures Pad(0) == [] && Pad(1) == "  " && Pad(2) == "    " && Pad(3) == "      "
  {
    assert Pad(1) == [] + "  ";
    assert Pad(2) == "  " + "  ";
    assert Pad(3) == "    " + "  ";
  }

  lemma {:induction false} TextAt(text: string, depth: nat)
    ensures RecordText(TextRecord(text), depth) == Pad(depth) + "'" + text + "'\n"
  {
  }

  /** A text on its own is quoted. */
  lemma {:induction false} QuotedText(text: string)
    ensures RecordText(TextRecord(text), 0) == "'" + text + "'\n"
  {
    TextAt(text, 0);
    PadLiterals();
    EmptyAppend("'");
  }

  lemma {:induction false} TextAtOne(text: string)
    ensures RecordText(TextRecord(text), 1) == "  '" + text + "'\n"
  {
    TextAt(text, 1);
    PadLiterals();
    assert "  " + "'" == "  '";
  }

  lemma {:induction false} TextAtThree(text: string)
    ensures RecordText(TextRecord(text), 3) == "      '" + text + "'\n"
  {
    TextAt(text, 3);
    PadLiterals();
    assert "      " + "'" == "      '";
  }

  lemma {:induction false} ClosersAtZero()
    ensures Pad(0) + ")" == ")" && Pad(0) + ")(\n" == ")(\n" && Pad(0) + ")()" == ")()"
  {
    PadLiterals();
    EmptyAppend(")");
    EmptyAppend(")(\n");
    EmptyAppend(")()");
  }

  lemma {:induction false} ClosersInside()
    ensures Pad(1) + ")" == "  )" && Pad(2) + ")" == "    )" && Pad(2) + ")()" == "    )()"
  {
    PadLiterals();
  }

  lemma {:induction false} DivCall()
    ensures Pad(0) + Factory("div") + "()" == "Dom.div()"
  {
    PadLiterals();
    assert Factory("div") == "Dom.div";
    EmptyAppend("Dom.div");
  }

  lemma {:induction false} HelloWorldCall()
    ensures Pad(0) + Factory("HelloWorld") + "()" == "HelloWorld()"
  {
    PadLiterals();
    assert StartsWithCapital("HelloWorld");
    EmptyAppend("HelloWorld");
  }

  lemma {:induction false} HelloWorldPropsCall()
    ensures Pad(0) + "(" + Factory("HelloWorld") + "()\n" == "(HelloWorld()\n"
  {
    PadLiterals();
    assert StartsWithCapital("HelloWorld");
    EmptyAppend("(");
  }

  lemma {:induction false} TestPropsCall()
    ensures Pad(0) + "(" + Factory("Test") + "()\n" == "(Test()\n"
  {
    PadLiterals();
    assert StartsWithCapital("Test");
    EmptyAppend("(");
  }

  lemma {:induction false} FancyCall()
    ensures Pad(2) + Factory("Fancy") + "()" == "    Fancy()"
  {
    PadLiterals();
    assert StartsWithCapital("Fancy");
  }

  lemma {:induction false} FunPropsCall()
    ensures Pad(2) + "(" + Factory("Fun") + "()\n" == "    (Fun()\n"
  {
    PadLiterals();
    assert StartsWithCapital("Fun");
  }

  lemma {:induction false} DivCallAtOne()
    ensures Pad(1) + Factory("div") + "()" == "  Dom.div()"
  {
    PadLiterals();
    assert Factory("div") == "Dom.div";
  }

  /** A single prop with a plain string value. */
  lemma {:induction false} OnePlainProp(name: string, value: string, depth: nat, lead: string)
    requires Pad(depth) + ".." + name + " = '" == lead
    ensures PropLines([Prop(name, Plain(value))], depth) == lead + value + "'\n"
  {
    OneProp(Prop(name, Plain(value)), depth);
    PropLineForms(Prop(name, Plain(value)), depth);
  }

  /** A single prop with an evaluated value whose JSON holds no double quote. */
  lemma {:induction false} OneEvaluatedProp(name: string, expr: string, json: string, depth: nat, lead: string)
    requires expr != [] && '"' !in json
    requires Pad(depth) + ".." + name + " = " == lead
    ensures PropLines([Prop(name, Evaluated(expr, Some(json)))], depth) == lead + json + "\n"
  {
    OneProp(Prop(name, Evaluated(expr, Some(json))), depth);
  }

  lemma {:induction false} OmgLead()
    ensures Pad(1) + ".." + "omg" + " = '" == "  ..omg = '"
  {
    PadLiterals();
  }

  lemma {:induction false} PropLead()
    ensures Pad(1) + ".." + "prop" + " = '" == "  ..prop = '" && Pad(1) + ".." + "prop" + " = " == "  ..prop = "
  {
    PadLiterals();
  }

  lemma {:induction false} CorrectLead()
    ensures Pad(3) + ".." + "correct" + " = " == "      ..correct = "
  {
    PadLiterals();
  }

  /** `<div>hello world</div>`: a lower-case tag gets the `Dom.` prefix. */
  lemma {:induction false} DomFactory(text: string)
    ensures RecordText(JsxRecord("div", [], [TextRecord(text)], None), 0) == "Dom.div()" + "(\n" + ("  '" + text + "'\n") + ")"
  {
    DivCall();
    TextAtOne(text);
    ClosersAtZero();
    SoleChildAt(JsxRecord("div", [], [TextRecord(text)], None), 0, "Dom.div()", "  '" + text + "'\n", ")");
  }

  /** `<HelloWorld>hello world</HelloWorld>`: a capitalised tag is its own factory. */
  lemma {:induction false} CapitalFactory(text: string)
    ensures RecordText(JsxRecord("HelloWorld", [], [TextRecord(text)], None), 0) == "HelloWorld()" + "(\n" + ("  '" + text + "'\n") + ")"
  {
    HelloWorldCall();
    TextAtOne(text);
    ClosersAtZero();
    SoleChildAt(JsxRecord("HelloWorld", [], [TextRecord(text)], None), 0, "HelloWorld()", "  '" + text + "'\n", ")");
  }

  /** `<HelloWorld omg="lol">hello world</HelloWorld>`: with props the factory call is
      wrapped in parentheses and each prop becomes a cascade setter. */
  lemma {:induction false} CascadeSetter(value: string, text: string)
    ensures RecordText(JsxRecord("HelloWorld", [Prop("omg", Plain(value))], [TextRecord(text)], None), 0) ==
      "(HelloWorld()\n" + ("  ..omg = '" + value + "'\n") + ")(\n" + ("  '" + text + "'\n") + ")"
  {
    HelloWorldPropsCall();
    OmgLead();
    OnePlainProp("omg", value, 1, "  ..omg = '");
    TextAtOne(text);
    ClosersAtZero();
    SoleChildWithPropsAt(JsxRecord("HelloWorld", [Prop("omg", Plain(value))], [TextRecord(text)], None), 0,
      "(HelloWorld()\n", "  ..omg = '" + value + "'\n", ")(\n", "  '" + text + "'\n", ")");
  }

  /** `<Test prop='some value'></Test>`: a string prop keeps its single quotes. */
  lemma {:induction false} StringProp(value: string)
    ensures RecordText(JsxRecord("Test", [Prop("prop", Plain(value))], [], None), 0) ==
      "(Test()\n" + ("  ..prop = '" + value + "'\n") + ")()"
  {
    TestPropsCall();
    PropLead();
    OnePlainProp("prop", value, 1, "  ..prop = '");
    ClosersAtZero();
    ChildlessWithPropsAt(JsxRecord("Test", [Prop("prop", Plain(value))], [], None), 0, "(Test()\n", "  ..prop = '" + value + "'\n", ")()");
  }

  /** `<Test prop={true}></Test>` and the like: an expression prop is written as its
      JSON. */
  lemma {:induction false} EvaluatedProp(expr: string, json: string)
    requires expr != [] && '"' !in json
    ensures RecordText(JsxRecord("Test", [Prop("prop", Evaluated(expr, Some(json)))], [], None), 0) ==
      "(Test()\n" + ("  ..prop = " + json + "\n") + ")()"
  {
    TestPropsCall();
    PropLead();
    OneEvaluatedProp("prop", expr, json, 1, "  ..prop = ");
    ClosersAtZero();
    ChildlessWithPropsAt(JsxRecord("Test", [Prop("prop", Evaluated(expr, Some(json)))], [], None), 0, "(Test()\n", "  ..prop = " + json + "\n", ")()");
  }

  lemma {:induction false} QuoteTurned()
    ensures ReplaceAllChar("\"", '"', "'") == "'"
  {
    assert "\""[1..] == [];
    AppendEmpty("'");
  }

  /** A one-entry object's JSON with its double quotes turned single. */
  lemma {:induction false} EntryTurned(key: string, value: string)
    requires '"' !in key && '"' !in value
    ensures ReplaceAllChar("{" + "\"" + key + "\"" + ":" + "\"" + value + "\"" + "}", '"', "'") ==
      "{" + "'" + key + "'" + ":" + "'" + value + "'" + "}"
  {
    var q := "\"";
    QuoteTurned();
    ReplaceAllCharAppend("{", q, '"', "'");
    ReplaceAllCharAppend("{" + q, key, '"', "'");
    ReplaceAllCharAppend("{" + q + key, q, '"', "'");
    ReplaceAllCharAppend("{" + q + key + q, ":", '"', "'");
    ReplaceAllCharAppend("{" + q + key + q + ":", q, '"', "'");
    ReplaceAllCharAppend("{" + q + key + q + ":" + q, value, '"', "'");
    ReplaceAllCharAppend("{" + q + key + q + ":" + q + value, q, '"', "'");
    ReplaceAllCharAppend("{" + q + key + q + ":" + q + value + q, "}", '"', "'");
  }

  lemma {:induction false} JsonPieces()
    ensures "{\"test\":\"omg\"}" == "{" + "\"" + "test" + "\"" + ":" + "\"" + "omg" + "\"" + "}"
  {
  }

  lemma {:induction false} DartPieces()
    ensures "{'test':'omg'}" == "{" + "'" + "test" + "'" + ":" + "'" + "omg" + "'" + "}"
  {
  }

  /** The JSON of `{test:"omg"}` with its double quotes turned single. */
  lemma {:induction false} MapJson()
    ensures ReplaceAllChar("{\"test\":\"omg\"}", '"', "'") == "{'test':'omg'}"
  {
    EntryTurned("test", "omg");
    JsonPieces();
    DartPieces();
  }

  lemma {:induction false} MapPropLine(expr: string)
    requires expr != []
    ensures PropLines([Prop("prop", Evaluated(expr, Some("{\"test\":\"omg\"}")))], 1) == "  ..prop = " + "{'test':'omg'}" + "\n"
  {
    PropLead();
    OneProp(Prop("prop", Evaluated(expr, Some("{\"test\":\"omg\"}"))), 1);
    MapJson();
  }

  /** `<Test prop={{test:"omg"}}></Test>`: an object prop becomes a Dart map literal
      with single-quoted keys and values. */
  lemma {:induction false} MapProp(expr: string)
    requires expr != []
    ensures RecordText(JsxRecord("Test", [Prop("prop", Evaluated(expr, Some("{\"test\":\"omg\"}")))], [], None), 0) ==
      "(Test()\n" + ("  ..prop = " + "{'test':'omg'}" + "\n") + ")()"
  {
    TestPropsCall();
    MapPropLine(expr);
    ClosersAtZero();
    ChildlessWithPropsAt(JsxRecord("Test", [Prop("prop", Evaluated(expr, Some("{\"test\":\"omg\"}")))], [], None), 0,
      "(Test()\n", "  ..prop = " + "{'test':'omg'}" + "\n", ")()");
  }

  function FancyRecord(text: string): JsxRecord {
    JsxRecord("Fancy", [], [TextRecord(text)], None)
  }

  function FunRecord(expr: string, json: string): JsxRecord {
    JsxRecord("Fun", [Prop("correct", Evaluated(expr, Some(json)))], [], None)
  }

  function DivRecord(text: string, expr: string, json: string): JsxRecord {
    JsxRecord("div", [], [FancyRecord(text), FunRecord(expr, json)], None)
  }

  lemma {:induction false} FancyAtTwo(text: string)
    ensures RecordText(FancyRecord(text), 2) == "    Fancy()" + "(\n" + ("      '" + text + "'\n") + "    )"
  {
    FancyCall();
    TextAtThree(text);
    ClosersInside();
    SoleChildAt(FancyRecord(text), 2, "    Fancy()", "      '" + text + "'\n", "    )");
  }

  lemma {:induction false} FunAtTwo(expr: string, json: string)
    requires expr != [] && '"' !in json
    ensures RecordText(FunRecord(expr, json), 2) == "    (Fun()\n" + ("      ..correct = " + json + "\n") + "    )()"
  {
    FunPropsCall();
    CorrectLead();
    OneEvaluatedProp("correct", expr, json, 3, "      ..correct = ");
    ClosersInside();
    ChildlessWithPropsAt(FunRecord(expr, json), 2, "    (Fun()\n", "      ..correct = " + json + "\n", "    )()");
  }

  lemma {:induction false} DivAtOne(text: string, expr: string, json: string)
    requires expr != [] && '"' !in json
    ensures RecordText(DivRecord(text, expr, json), 1) ==
      "  Dom.div()" + "(\n" +
      ("    Fancy()" + "(\n" + ("      '" + text + "'\n") + "    )" + ",\n" +
       ("    (Fun()\n" + ("      ..correct = " + json + "\n") + "    )()" + ",\n")) +
      "  )" + ",\n"
  {
    DivCallAtOne();
    FancyAtTwo(text);
    FunAtTwo(expr, json);
    ClosersInside();
    TwoChildrenAt(DivRecord(text, expr, json), 1, "  Dom.div()",
      "    Fancy()" + "(\n" + ("      '" + text + "'\n") + "    )",
      "    (Fun()\n" + ("      ..correct = " + json + "\n") + "    )()", "  )");
  }

  /** The repository's deeply nested example: a lone child is written bare, the two
      children of the `div` each get `,\n`, and so does the `div` itself, which has
      more than one child. */
  lemma {:induction false} NestedChildren(value: string, text: string, expr: string, json: string)
    requires expr != [] && '"' !in json
    ensures RecordText(JsxRecord("HelloWorld", [Prop("omg", Plain(value))], [DivRecord(text, expr, json)], None), 0) ==
      "(HelloWorld()\n" + ("  ..omg = '" + value + "'\n") + ")(\n" +
      ("  Dom.div()" + "(\n" +
       ("    Fancy()" + "(\n" + ("      '" + text + "'\n") + "    )" + ",\n" +
        ("    (Fun()\n" + ("      ..correct = " + json + "\n") + "    )()" + ",\n")) +
       "  )" + ",\n") +
      ")"
  {
    HelloWorldPropsCall();
    OmgLead();
    OnePlainProp("omg", value, 1, "  ..omg = '");
    DivAtOne(text, expr, json);
    ClosersAtZero();
    SoleChildWithPropsAt(JsxRecord("HelloWorld", [Prop("omg", Plain(value))], [DivRecord(text, expr, json)], None), 0,
      "(HelloWorld()\n", "  ..omg = '" + value + "'\n", ")(\n",
      "  Dom.div()" + "(\n" +
       ("    Fancy()" + "(\n" + ("      '" + text + "'\n") + "    )" + ",\n" +
        ("    (Fun()\n" + ("      ..correct = " + json + "\n") + "    )()" + ",\n")) +
       "  )" + ",\n",
      ")");
  }

  // ---------------------------------------------------------------------------
  // Props whose evaluation throws
  // ---------------------------------------------------------------------------

  /** A prop that fails to evaluate anywhere below a non-text element makes the whole
      call throw, since each child's call is made from inside the parent's loop. */
  lemma {:induction false} ThrowsFromChild(el: JsxRecord, i: nat)
    requires !IsText(el) && i < |el.children| && Throws(el.children[i])
    ensures Throws(el)
  {
    ChildrenThrowAt(el.children);
  }

  /** A prop that fails to evaluate, and the others around it, in any order. */
  lemma {:induction false} ThrowsFromProp(el: JsxRecord, i: nat)
    requires !IsText(el) && i < |el.props| && PropThrows(el.props[i].value)
    ensures Throws(el)
  {
    PropsThrowAt(el.props);
  }

  /** A tree whose evaluated props all yield JSON does not throw. */
  lemma {:induction false} NoFailureNoThrow(el: JsxRecord)
    requires forall i :: 0 <= i < |el.props| ==> !PropThrows(el.props[i].value)
    requires forall c :: c in el.children ==> !Throws(c)
    ensures !Throws(el)
  {
    PropsThrowAt(el.props);
    ChildrenThrowAt(el.children);
  }

  /** `{missing}` under a `div`: `eval` has no `missing` to read, so nothing is returned. */
  lemma {:induction false} FreeIdentifierInChild(expr: string)
    requires expr != []
    ensures Throws(JsxRecord("div", [], [JsxRecord("Test", [Prop("prop", Evaluated(expr, None))], [], None)], None))
  {
    var child := JsxRecord("Test", [Prop("prop", Evaluated(expr, None))], [], None);
    ThrowsFromProp(child, 0);
    ThrowsFromChild(JsxRecord("div", [], [child], None), 0);
  }

  /** An empty `nodeValue` is never evaluated, whatever its JSON would be. */
  lemma {:induction false} EmptyExpressionNoThrow(name: string, json: Option<string>)
    ensures !Throws(JsxRecord("Test", [Prop(name, Evaluated([], json))], [], None))
  {
    NoFailureNoThrow(JsxRecord("Test", [Prop(name, Evaluated([], json))], [], None));
  }

  /** Equal pieces make equal concatenations. */
  lemma {:induction false} Substitute4(x: string, a: string, b: string, c: string, d: string, a': string, b': string, c': string, d': string)
    requires x == a + b + c + d
    requires a == a' && b == b' && c == c' && d == d'
    ensures x == a' + b' + c' + d'
  {
  }

  /** Equal pieces make equal concatenations. */
  lemma {:induction false} Substitute(x: string, a: string, b: string, c: string, d: string, e: string,
                                      a': string, b': string, c': string, d': string, e': string)
    requires x == a + b + c + d + e
    requires a == a' && b == b' && c == c' && d == d' && e == e'
    ensures x == a' + b' + c' + d' + e'
  {
  }
}
