/**
 * What utils/html2json.ts promises: `removeDOCTYPE` cuts exactly the lines its
 * three regular expressions describe; the attribute reduce keeps each name once
 * and gives back the written value when `json2html` joins it again; the handlers
 * only ever append to the finished top-level nodes; and `json2html` of the tree
 * `html2json` builds from a well-nested document writes that document again.
 */
module HtmlJsonProps {
  import opened Text
  import opened HtmlJson

  // ---------------------------------------------------------------------------
  // removeDOCTYPE
  // ---------------------------------------------------------------------------

  /** The regular expression `open.*close\n` read as written: `open` at `p`, then
      characters `.` accepts (no LineTerminator), then `close` and a line feed, the
      match ending just before `e`. */
  predicate RegexMatch(s: string, p: nat, e: nat, open: string, close: string) {
    && p + |open| + |close| < e <= |s|
    && HasPrefixAt(s, p, open)
    && s[e - 1] == '\n'
    && s[e - 1 - |close|..e - 1] == close
    && forall k :: p + |open| <= k < e - 1 - |close| ==> !IsLineTerminator(s[k])
  }

  predicate NoTerminator(t: string) {
    forall i :: 0 <= i < |t| ==> !IsLineTerminator(t[i])
  }

  /** `LineEnd` is the first LineTerminator: one found at `q` after a run without
      any is where it stops. */
  lemma {:induction false} LineEndAt(s: string, i: nat, q: nat)
    requires i <= q < |s| && IsLineTerminator(s[q])
    requires forall k :: i <= k < q ==> !IsLineTerminator(s[k])
    ensures LineEnd(s, i) == q
  {
    var r := LineEnd(s, i);
    if r < q {
      assert false;
    } else if r > q {
      assert false;
    }
  }

  /** `LineMatchAt` is the regular expression's match, and the match it finds at `p` is
      the only one there: a greedy `.*` cannot cross a line feed. */
  lemma {:induction false} LineMatchIsRegex(s: string, p: nat, open: string, close: string)
    requires NoTerminator(close)
    ensures forall e :: RegexMatch(s, p, e, open, close) <==>
      (LineMatchAt(s, p, open, close) && e == LineEnd(s, p + |open|) + 1)
  {
    forall e | RegexMatch(s, p, e, open, close)
      ensures LineMatchAt(s, p, open, close) && e == LineEnd(s, p + |open|) + 1
    {
      RegexEnd(s, p, e, open, close);
    }
    if LineMatchAt(s, p, open, close) {
      var q := LineEnd(s, p + |open|);
      assert RegexMatch(s, p, q + 1, open, close);
    }
  }

  lemma {:induction false} RegexEnd(s: string, p: nat, e: nat, open: string, close: string)
    requires NoTerminator(close)
    requires RegexMatch(s, p, e, open, close)
    ensures LineMatchAt(s, p, open, close) && e == LineEnd(s, p + |open|) + 1
  {
    var q := e - 1;
    var c := q - |close|;
    forall k | p + |open| <= k < q
      ensures !IsLineTerminator(s[k])
    {
      if k >= c {
        assert s[k] == s[c..q][k - c] == close[k - c];
      }
    }
    LineEndAt(s, p + |open|, q);
  }

  /** Without a line feed there is nothing to remove. */
  lemma {:induction false} NoLineFeedKept(html: string)
    requires '\n' !in html
    ensures RemoveDoctype(html) == html
  {
    NoLineFeedLine(html, "<?xml", "?>");
    NoLineFeedLine(html, "<!doctype", ">");
    NoLineFeedLine(html, "<!DOCTYPE", ">");
  }

  lemma {:induction false} NoLineFeedLine(s: string, open: string, close: string)
    requires '\n' !in s
    ensures ReplaceLine(s, open, close) == s
  {
    forall k | 0 <= k <= |s|
      ensures !LineMatchAt(s, k, open, close)
    {
      if HasPrefixAt(s, k, open) {
        var q := LineEnd(s, k + |open|);
        assert q < |s| ==> s[q] in s;
      }
    }
  }

  /** Markup in which none of `<?xml`, `<!doctype` and `<!DOCTYPE` occurs (the match is
      case-sensitive) comes back unchanged. */
  lemma {:induction false} NoDeclarationKept(html: string)
    requires forall p :: 0 <= p <= |html| ==> !HasPrefixAt(html, p, "<?xml")
    requires forall p :: 0 <= p <= |html| ==> !HasPrefixAt(html, p, "<!doctype")
    requires forall p :: 0 <= p <= |html| ==> !HasPrefixAt(html, p, "<!DOCTYPE")
    ensures RemoveDoctype(html) == html
  {
    assert forall k :: 0 <= k <= |html| ==> !LineMatchAt(html, k, "<?xml", "?>");
    assert forall k :: 0 <= k <= |html| ==> !LineMatchAt(html, k, "<!doctype", ">");
    assert forall k :: 0 <= k <= |html| ==> !LineMatchAt(html, k, "<!DOCTYPE", ">");
  }

  /** A document opening with a `<!DOCTYPE …>` line loses that line and nothing else,
      provided the rest holds no `<?xml` or `<!doctype` for the earlier passes. */
  lemma {:induction false} LeadingDoctypeRemoved(mid: string, rest: string)
    requires NoTerminator(mid) && '<' !in mid
    requires forall p :: 0 <= p <= |rest| ==> !HasPrefixAt(rest, p, "<?xml")
    requires forall p :: 0 <= p <= |rest| ==> !HasPrefixAt(rest, p, "<!doctype")
    ensures RemoveDoctype("<!DOCTYPE" + mid + ">\n" + rest) == rest
  {
    var line := "<!DOCTYPE" + mid + ">\n";
    var s := line + rest;
    EarlierPassesMiss(mid, rest, "<?xml", "?>");
    EarlierPassesMiss(mid, rest, "<!doctype", ">");
    var q := |line| - 1;
    assert s[q] == '\n';
    forall k | 9 <= k < q
      ensures !IsLineTerminator(s[k])
    {
      if k < 9 + |mid| {
        assert s[k] == mid[k - 9];
      }
    }
    LineEndAt(s, 9, q);
    assert HasPrefixAt(s, 0, "<!DOCTYPE");
    assert s[q - 1..q] == ">";
    assert LineMatchAt(s, 0, "<!DOCTYPE", ">");
    assert s[q + 1..] == rest;
  }

  /** The passes are not anchored to the start of a line: a `<!DOCTYPE …>` that ends
      a line is cut out together with its line feed wherever it starts, and the text
      before it on that line stays (`foo <!DOCTYPE html>` and a line feed become
      `foo `). */
  lemma {:induction false} MidLineDoctypeCut(before: string, mid: string, rest: string)
    requires '<' !in before && NoTerminator(mid)
    ensures ReplaceLine(before + "<!DOCTYPE" + mid + ">\n" + rest, "<!DOCTYPE", ">") == before + rest
  {
    var s := before + "<!DOCTYPE" + mid + ">\n" + rest;
    var b := |before|;
    var q := b + 9 + |mid| + 1;
    DeclarationMatch(before, mid, rest);
    NoOpenerBefore(s, b, "<!DOCTYPE", ">");
    FindLineFirst(s, b, "<!DOCTYPE", ">");
    assert s[..b] == before && s[q + 1..] == rest;
  }

  /** The declaration line matches where it starts, and its match ends at its line
      feed. */
  lemma {:induction false} DeclarationMatch(before: string, mid: string, rest: string)
    requires NoTerminator(mid)
    ensures var s := before + "<!DOCTYPE" + mid + ">\n" + rest;
      var q := |before| + 9 + |mid| + 1;
      LineMatchAt(s, |before|, "<!DOCTYPE", ">") && LineEnd(s, |before| + 9) == q
  {
    var s := before + "<!DOCTYPE" + mid + ">\n" + rest;
    var b := |before|;
    var q := b + 9 + |mid| + 1;
    assert s[b..b + 9] == "<!DOCTYPE";
    assert s[q] == '\n';
    forall k | b + 9 <= k < q
      ensures !IsLineTerminator(s[k])
    {
      if k < b + 9 + |mid| {
        assert s[k] == mid[k - b - 9];
      }
    }
    LineEndAt(s, b + 9, q);
    assert s[q - 1..q] == ">";
  }

  /** No match starts before `b` when no `<` does. */
  lemma {:induction false} NoOpenerBefore(s: string, b: nat, open: string, close: string)
    requires b <= |s| && '<' !in s[..b] && |open| > 0 && open[0] == '<'
    ensures forall k :: 0 <= k < b ==> !LineMatchAt(s, k, open, close)
  {
    forall k | 0 <= k < b
      ensures !HasPrefixAt(s, k, open)
    {
      assert s[k] == s[..b][k];
      if k + |open| <= |s| {
        assert s[k..k + |open|][0] == s[k];
      }
    }
  }

  /** A match with none before it is the one `FindLine` finds. */
  lemma {:induction false} FindLineFirst(s: string, b: nat, open: string, close: string)
    requires b <= |s| && LineMatchAt(s, b, open, close)
    requires forall k :: 0 <= k < b ==> !LineMatchAt(s, k, open, close)
    ensures FindLine(s, 0, open, close) == Some(b)
  {
  }

  /** The first two passes find nothing in such a document: its only `<` before `rest`
      opens `<!DOCTYPE`. */
  lemma {:induction false} EarlierPassesMiss(mid: string, rest: string, open: string, close: string)
    requires '<' !in mid
    requires open == "<?xml" || open == "<!doctype"
    requires forall p :: 0 <= p <= |rest| ==> !HasPrefixAt(rest, p, open)
    ensures ReplaceLine("<!DOCTYPE" + mid + ">\n" + rest, open, close) == "<!DOCTYPE" + mid + ">\n" + rest
  {
    var s := "<!DOCTYPE" + mid + ">\n" + rest;
    forall k | 0 <= k <= |s|
      ensures !LineMatchAt(s, k, open, close)
    {
      OpenerNotAt(mid, rest, open, k);
    }
  }

  lemma {:induction false} OpenerNotAt(mid: string, rest: string, open: string, k: nat)
    requires '<' !in mid
    requires open == "<?xml" || open == "<!doctype"
    requires forall p :: 0 <= p <= |rest| ==> !HasPrefixAt(rest, p, open)
    ensures !HasPrefixAt("<!DOCTYPE" + mid + ">\n" + rest, k, open)
  {
    var line := "<!DOCTYPE" + mid + ">\n";
    var s := line + rest;
    if k == 0 {
      if open == "<?xml" {
        assert s[1] == '!' != open[1];
      } else {
        assert s[2] == 'D' != open[2];
      }
    } else if k < |line| {
      LineOpensOnce(mid, k);
      assert s[k] == line[k] != open[0];
    } else if k + |open| <= |s| {
      assert s[k..k + |open|] == rest[k - |line|..k - |line| + |open|];
      assert !HasPrefixAt(rest, k - |line|, open);
    }
  }

  /** The only `<` in the declaration line is its first character. */
  lemma {:induction false} LineOpensOnce(mid: string, k: nat)
    requires '<' !in mid
    requires 0 < k < |"<!DOCTYPE" + mid + ">\n"|
    ensures ("<!DOCTYPE" + mid + ">\n")[k] != '<'
  {
    var line := "<!DOCTYPE" + mid + ">\n";
    if 9 <= k < 9 + |mid| {
      assert line[k] == mid[k - 9];
    }
  }

  // ---------------------------------------------------------------------------
  // Attributes
  // ---------------------------------------------------------------------------

  lemma {:induction false} ItemTextsOfStrs(parts: seq<string>)
    ensures ItemTexts(Strs(parts)) == parts
  {
    var r := ItemTexts(Strs(parts));
    assert |r| == |parts|;
    assert forall i :: 0 <= i < |parts| ==> r[i] == ItemText(Str(parts[i])) == parts[i];
  }

  /** Splitting a spaced value and joining the pieces with spaces gives the value back. */
  lemma {:induction false} ValueRoundTrip(v: string)
    ensures ValueText(ParseValue(v)) == v
  {
    if ' ' in v {
      ItemTextsOfStrs(Split(v, ' '));
      SplitJoin(v, ' ');
      assert [' '] == " ";
    }
  }

  /** The reduce's last step. */
  lemma {:induction false} AttrsOfSnoc(attrs: seq<Attribute>)
    requires attrs != []
    ensures var n := |attrs| - 1;
      AttrsOf(attrs) == Merge(AttrsOf(attrs[..n]), attrs[n].name, ParseValue(attrs[n].value))
  {
  }

  lemma {:induction false} AttrsOfOne(x: Attribute)
    ensures AttrsOf([x]) == [Entry(x.name, ParseValue(x.value))]
  {
    assert [x][..0] == [];
  }

  lemma {:induction false} MergeFresh(pre: seq<Entry>, name: string, value: AttrValue)
    requires DistinctKeys(pre) && name !in Keys(pre)
    ensures Merge(pre, name, value) == pre + [Entry(name, value)]
  {
    assert KeyIndex(pre, name) == -1;
  }

  /** With distinct keys, the index of an existing key is its position. */
  lemma {:induction false} KeyIndexAt(pre: seq<Entry>, i: nat)
    requires DistinctKeys(pre) && i < |pre|
    ensures KeyIndex(pre, pre[i].key) == i
  {
  }

  /** A repeated name whose value is already an array gets the new value pushed onto
      it, in place; every other key keeps its value and its position. */
  lemma {:induction false} MergeOntoArray(pre: seq<Entry>, i: nat, items: seq<AttrValue>, value: AttrValue)
    requires DistinctKeys(pre) && i < |pre| && pre[i].value == Arr(items)
    ensures var r := Merge(pre, pre[i].key, value);
      && |r| == |pre|
      && r[i] == Entry(pre[i].key, Arr(items + [value]))
      && forall j :: 0 <= j < |pre| && j != i ==> r[j] == pre[j]
  {
    KeyIndexAt(pre, i);
  }

  /** A repeated name holding a non-empty string becomes the pair of its old and its
      new value, in place; every other key keeps its value and its position. */
  lemma {:induction false} MergeOntoString(pre: seq<Entry>, i: nat, a: string, value: AttrValue)
    requires DistinctKeys(pre) && i < |pre| && pre[i].value == Str(a) && a != []
    ensures var r := Merge(pre, pre[i].key, value);
      && |r| == |pre|
      && r[i] == Entry(pre[i].key, Arr([Str(a), value]))
      && forall j :: 0 <= j < |pre| && j != i ==> r[j] == pre[j]
  {
    KeyIndexAt(pre, i);
  }

  /** A repeated name holding the empty string, which is falsy, is overwritten in
      place; every other key keeps its value and its position. */
  lemma {:induction false} MergeOntoEmpty(pre: seq<Entry>, i: nat, value: AttrValue)
    requires DistinctKeys(pre) && i < |pre| && pre[i].value == Str([])
    ensures var r := Merge(pre, pre[i].key, value);
      && |r| == |pre|
      && r[i] == Entry(pre[i].key, value)
      && forall j :: 0 <= j < |pre| && j != i ==> r[j] == pre[j]
  {
    KeyIndexAt(pre, i);
  }

  predicate DistinctNames(attrs: seq<Attribute>) {
    forall i, j :: 0 <= i < j < |attrs| ==> attrs[i].name != attrs[j].name
  }

  /** Each attribute as its own key, in order. */
  function PlainEntries(attrs: seq<Attribute>): (r: seq<Entry>)
    ensures |r| == |attrs|
    ensures forall i :: 0 <= i < |attrs| ==> r[i] == Entry(attrs[i].name, ParseValue(attrs[i].value))
  {
    seq(|attrs|, i requires 0 <= i < |attrs| => Entry(attrs[i].name, ParseValue(attrs[i].value)))
  }

  /** With no name repeated, the reduce keeps every attribute as its own key, in the
      order written. */
  lemma {:induction false} DistinctAttrs(attrs: seq<Attribute>)
    requires DistinctNames(attrs)
    ensures AttrsOf(attrs) == PlainEntries(attrs)
    decreases |attrs|
  {
    if attrs != [] {
      var init := attrs[..|attrs| - 1];
      assert DistinctNames(init);
      DistinctAttrs(init);
      DistinctStep(attrs);
    }
  }

  lemma {:induction false} DistinctStep(attrs: seq<Attribute>)
    requires attrs != [] && DistinctNames(attrs)
    requires AttrsOf(attrs[..|attrs| - 1]) == PlainEntries(attrs[..|attrs| - 1])
    ensures AttrsOf(attrs) == PlainEntries(attrs)
  {
    var n := |attrs| - 1;
    AttrsOfSnoc(attrs);
    FreshLastName(attrs);
    MergeFresh(PlainEntries(attrs[..n]), attrs[n].name, ParseValue(attrs[n].value));
    PlainSnoc(attrs);
  }

  lemma {:induction false} FreshLastName(attrs: seq<Attribute>)
    requires attrs != [] && DistinctNames(attrs)
    ensures var n := |attrs| - 1;
      DistinctKeys(PlainEntries(attrs[..n])) && attrs[n].name !in Keys(PlainEntries(attrs[..n]))
  {
    var n := |attrs| - 1;
    var pre := PlainEntries(attrs[..n]);
    assert forall i :: 0 <= i < n ==> Keys(pre)[i] == attrs[i].name != attrs[n].name;
  }

  lemma {:induction false} PlainSnoc(attrs: seq<Attribute>)
    requires attrs != []
    ensures var n := |attrs| - 1;
      PlainEntries(attrs) == PlainEntries(attrs[..n]) + [Entry(attrs[n].name, ParseValue(attrs[n].value))]
  {
  }

  /** The attributes as they were written: `name="value"` pairs after one space each. */
  function MarkupAttrs(attrs: seq<Attribute>): string {
    if attrs == [] then []
    else " " + Join(seq(|attrs|, i requires 0 <= i < |attrs| => attrs[i].name + "=" + Quote(attrs[i].value)), " ")
  }

  /** For distinct names, `json2html` writes back the attributes `start` was given. */
  lemma {:induction false} AttrRoundTrip(attrs: seq<Attribute>)
    requires DistinctNames(attrs)
    ensures AttrText(AttrsOf(attrs)) == MarkupAttrs(attrs)
  {
    DistinctAttrs(attrs);
    var m := PlainEntries(attrs);
    var raw := seq(|attrs|, i requires 0 <= i < |attrs| => attrs[i].name + "=" + Quote(attrs[i].value));
    forall i | 0 <= i < |attrs|
      ensures EntryTexts(m)[i] == raw[i]
    {
      ValueRoundTrip(attrs[i].value);
    }
    assert EntryTexts(m) == raw;
  }

  /** Every attribute has the name `name` and a non-empty value without a space. */
  predicate SamePlainName(attrs: seq<Attribute>, name: string) {
    forall i :: 0 <= i < |attrs| ==> attrs[i].name == name && attrs[i].value != [] && ' ' !in attrs[i].value
  }

  /** The values of a name repeated `|attrs|` times, each non-empty and without a space,
      accumulate into one array in the order written. */
  lemma {:induction false} RepeatedName(attrs: seq<Attribute>, name: string)
    requires |attrs| >= 2 && SamePlainName(attrs, name)
    ensures AttrsOf(attrs) == [Entry(name, Arr(Strs(Values(attrs))))]
    decreases |attrs|
  {
    if |attrs| == 2 {
      RepeatedPair(attrs, name);
    } else {
      var init := attrs[..|attrs| - 1];
      assert SamePlainName(init, name);
      RepeatedName(init, name);
      RepeatedStep(attrs, name);
    }
  }

  lemma {:induction false} RepeatedPair(attrs: seq<Attribute>, name: string)
    requires |attrs| == 2 && SamePlainName(attrs, name)
    ensures AttrsOf(attrs) == [Entry(name, Arr(Strs(Values(attrs))))]
  {
    var a := attrs[0].value;
    var v := attrs[1].value;
    AttrsOfSnoc(attrs);
    assert attrs[..1] == [attrs[0]];
    AttrsOfOne(attrs[0]);
    assert ParseValue(a) == Str(a) && ParseValue(v) == Str(v);
    MergeOntoString([Entry(name, Str(a))], 0, a, Str(v));
    assert Values(attrs) == [a, v];
    assert Strs(Values(attrs)) == [Str(a), Str(v)];
  }

  lemma {:induction false} RepeatedStep(attrs: seq<Attribute>, name: string)
    requires |attrs| >= 3 && SamePlainName(attrs, name)
    requires AttrsOf(attrs[..|attrs| - 1]) == [Entry(name, Arr(Strs(Values(attrs[..|attrs| - 1]))))]
    ensures AttrsOf(attrs) == [Entry(name, Arr(Strs(Values(attrs))))]
  {
    var n := |attrs| - 1;
    var v := attrs[n].value;
    AttrsOfSnoc(attrs);
    assert attrs[n].name == name && ParseValue(v) == Str(v);
    MergeOntoArray(AttrsOf(attrs[..n]), 0, Strs(Values(attrs[..n])), Str(v));
    StrsValuesSnoc(attrs);
  }

  lemma {:induction false} StrsValuesSnoc(attrs: seq<Attribute>)
    requires attrs != []
    ensures var n := |attrs| - 1;
      Strs(Values(attrs)) == Strs(Values(attrs[..n])) + [Str(attrs[n].value)]
  {
  }

  function Values(attrs: seq<Attribute>): (r: seq<string>)
    ensures |r| == |attrs|
    ensures forall i :: 0 <= i < |attrs| ==> r[i] == attrs[i].value
  {
    seq(|attrs|, i requires 0 <= i < |attrs| => attrs[i].value)
  }

  /** An empty first value is falsy, so a second value with the same name replaces it
      instead of joining it. */
  lemma {:induction false} EmptyValueReplaced(name: string, v: string)
    ensures AttrsOf([Attribute(name, ""), Attribute(name, v)]) == [Entry(name, ParseValue(v))]
  {
    var attrs := [Attribute(name, ""), Attribute(name, v)];
    AttrsOfSnoc(attrs);
    assert attrs[..1] == [Attribute(name, "")];
    AttrsOfOne(Attribute(name, ""));
    MergeOntoEmpty([Entry(name, Str(""))], 0, ParseValue(v));
  }

  /** A spaced value added to a name that already has a plain value is nested as an
      array, and `json2html` writes its pieces joined by commas. */
  lemma {:induction false} SpacedRepeatNested(name: string, a: string, b: string)
    requires a != [] && ' ' !in a && ' ' in b
    ensures AttrText(AttrsOf([Attribute(name, a), Attribute(name, b)])) ==
      " " + name + "=" + Quote(a + " " + Join(Split(b, ' '), ","))
  {
    var attrs := [Attribute(name, a), Attribute(name, b)];
    var nested := Arr(Strs(Split(b, ' ')));
    AttrsOfSnoc(attrs);
    assert attrs[..1] == [Attribute(name, a)];
    AttrsOfOne(Attribute(name, a));
    MergeOntoString([Entry(name, Str(a))], 0, a, nested);
    NestedText(a, b);
    OneEntryText(name, Arr([Str(a), nested]));
  }

  lemma {:induction false} OneEntryText(key: string, v: AttrValue)
    ensures AttrText([Entry(key, v)]) == " " + key + "=" + Quote(ValueText(v))
  {
    assert EntryTexts([Entry(key, v)]) == [key + "=" + Quote(ValueText(v))];
    JoinOne(key + "=" + Quote(ValueText(v)), " ");
  }

  lemma {:induction false} NestedText(a: string, b: string)
    ensures ValueText(Arr([Str(a), Arr(Strs(Split(b, ' ')))])) == a + " " + Join(Split(b, ' '), ",")
  {
    var nested := Arr(Strs(Split(b, ' ')));
    ItemTextsOfStrs(Split(b, ' '));
    assert ItemText(nested) == Join(Split(b, ' '), ",");
    assert ItemTexts([Str(a), nested]) == [a, Join(Split(b, ' '), ",")];
    JoinPair(a, Join(Split(b, ' '), ","), " ");
  }

  // ---------------------------------------------------------------------------
  // The handlers
  // ---------------------------------------------------------------------------

  /** The handlers never remove or change a finished top-level node; they only add
      new ones after it. */
  lemma {:induction false} ResultsOnlyGrow(b: Builder, events: seq<Event>)
    requires OpenElements(b.stack)
    ensures Run(b, events).Some? ==> b.results <= Run(b, events).value.results
    decreases |events|
  {
    if events != [] && Step(b, events[0]).Some? {
      var next := Step(b, events[0]).value;
      assert b.results <= next.results;
      ResultsOnlyGrow(next, events[1..]);
    }
  }

  // ---------------------------------------------------------------------------
  // json2html
  // ---------------------------------------------------------------------------

  /** `child.map(json2html).join("")` is the concatenation `ChildrenHtml` computes. */
  lemma {:induction false} ChildrenJoin(cs: seq<JsonNode>)
    ensures ChildrenHtml(cs) == Join(HtmlOf(cs), "")
    decreases |cs|
  {
    if |cs| == 1 {
      assert cs[..0] == [];
    } else if |cs| > 1 {
      var n := |cs| - 1;
      ChildrenJoin(cs[..n]);
      assert HtmlOf(cs)[..n] == HtmlOf(cs[..n]);
    }
  }

  function HtmlOf(cs: seq<JsonNode>): (r: seq<string>)
    ensures |r| == |cs|
    ensures forall i :: 0 <= i < |cs| ==> r[i] == Json2Html(cs[i])
  {
    seq(|cs|, i requires 0 <= i < |cs| => Json2Html(cs[i]))
  }

  /** An element whose tag is an empty element is written as `<tag attrs/>` whatever
      children it holds. */
  lemma {:induction false} EmptyTagIgnoresChildren(tag: string, attr: seq<Entry>, c1: ChildArray, c2: ChildArray)
    requires tag in EmptyTags
    ensures Json2Html(Element(tag, attr, c1)) == Json2Html(Element(tag, attr, c2)) == "<" + tag + AttrText(attr) + "/>"
  {
  }

  // ---------------------------------------------------------------------------
  // The round trip
  // ---------------------------------------------------------------------------

  /** Open elements are never empty elements (those come as unary start tags). */
  predicate Open(stack: seq<JsonNode>) {
    OpenElements(stack) && forall i :: 0 <= i < |stack| ==> stack[i].tag !in EmptyTags
  }

  /** An open element's start tag and the children it has so far. */
  function Partial(e: JsonNode): string
    requires e.Element?
  {
    "<" + e.tag + AttrText(e.attr) + ">" + ChildHtml(e.child)
  }

  /** The open elements written outermost first. */
  function OpenHtml(stack: seq<JsonNode>): string
    requires OpenElements(stack)
    decreases |stack|
  {
    if stack == [] then [] else OpenHtml(stack[1..]) + Partial(stack[0])
  }

  /** Everything the builder holds, as `json2html` would write it. */
  function Rendered(b: Builder): string
    requires OpenElements(b.stack)
  {
    ChildrenHtml(b.results) + OpenHtml(b.stack)
  }

  /** The markup the parser read to make one handler call. */
  function EventMarkup(ev: Event): string {
    match ev
    case StartEvent(tag, attrs, unary) =>
      if unary then "<" + tag + MarkupAttrs(attrs) + "/>" else "<" + tag + MarkupAttrs(attrs) + ">"
    case EndEvent(tag) => "</" + tag + ">"
    case CharsEvent(text) => text
    case CommentEvent(text) => "<!--" + text + "-->"
  }

  function Markup(events: seq<Event>): string
    decreases |events|
  {
    if events == [] then [] else EventMarkup(events[0]) + Markup(events[1..])
  }

  /** A handler call that fits the document: start tags are unary exactly for the
      empty elements and repeat no attribute name, an end tag closes the innermost
      open element, and a comment sits inside an element. */
  predicate Fits(b: Builder, ev: Event)
    requires OpenElements(b.stack)
  {
    match ev
    case StartEvent(tag, attrs, unary) => (unary <==> tag in EmptyTags) && DistinctNames(attrs)
    case EndEvent(tag) => b.stack != [] && b.stack[0].tag == tag
    case CharsEvent(_) => true
    case CommentEvent(_) => b.stack != []
  }

  /** Every call fits, and every element is closed by the end. */
  predicate WellNested(b: Builder, events: seq<Event>)
    requires OpenElements(b.stack)
    decreases |events|
  {
    if events == [] then b.stack == []
    else Fits(b, events[0]) && Step(b, events[0]).Some? && WellNested(Step(b, events[0]).value, events[1..])
  }

  lemma {:induction false} ChildrenSnoc(cs: seq<JsonNode>, node: JsonNode)
    ensures ChildrenHtml(cs + [node]) == ChildrenHtml(cs) + Json2Html(node)
  {
    assert (cs + [node])[..|cs|] == cs;
  }

  lemma {:induction false} ChildHtmlChildren(child: ChildArray)
    ensures ChildHtml(child) == ChildrenHtml(Children(child))
  {
  }

  lemma {:induction false} Regroup(a: string, o: string, p: string, j: string)
    ensures a + (o + (p + j)) == a + (o + p) + j
  {
  }

  /** A child added to an open element extends its markup so far. */
  lemma {:induction false} PartialAdd(e: JsonNode, node: JsonNode)
    requires e.Element?
    ensures Partial(AddChild(e, node)) == Partial(e) + Json2Html(node)
  {
    var head := "<" + e.tag + AttrText(e.attr) + ">";
    ChildHtmlChildren(e.child);
    ChildrenSnoc(Children(e.child), node);
    assert ChildHtml(AddChild(e, node).child) == ChildHtml(e.child) + Json2Html(node);
    AppendAssoc(head, ChildHtml(e.child), Json2Html(node));
  }

  /** Replacing the innermost open element changes only the last part of `OpenHtml`. */
  lemma {:induction false} OpenHtmlTop(stack: seq<JsonNode>, e: JsonNode)
    requires OpenElements(stack) && stack != [] && e.Element?
    ensures OpenElements(stack[0 := e])
    ensures OpenHtml(stack[0 := e]) == OpenHtml(stack[1..]) + Partial(e)
  {
    assert stack[0 := e][1..] == stack[1..];
  }

  /** Adding a node to the builder adds its markup at the end of what it holds. */
  lemma {:induction false} AttachRendered(b: Builder, node: JsonNode)
    requires OpenElements(b.stack)
    ensures Rendered(Attach(b, node)) == Rendered(b) + Json2Html(node)
  {
    var after := Attach(b, node);
    if b.stack == [] {
      ChildrenSnoc(b.results, node);
      AppendEmpty(ChildrenHtml(b.results));
      AppendEmpty(ChildrenHtml(b.results + [node]));
    } else {
      var e := b.stack[0];
      PartialAdd(e, node);
      OpenHtmlTop(b.stack, AddChild(e, node));
      Regroup(ChildrenHtml(b.results), OpenHtml(b.stack[1..]), Partial(e), Json2Html(node));
    }
  }

  lemma {:induction false} AttachOpen(b: Builder, node: JsonNode)
    requires Open(b.stack)
    ensures Open(Attach(b, node).stack)
  {
  }

  lemma {:induction false} StartRendered(b: Builder, tag: string, attrs: seq<Attribute>)
    requires Open(b.stack) && tag !in EmptyTags && DistinctNames(attrs)
    ensures var after := Step(b, StartEvent(tag, attrs, false)).value;
      Open(after.stack) && Rendered(after) == Rendered(b) + EventMarkup(StartEvent(tag, attrs, false))
  {
    var node := Element(tag, AttrsOf(attrs), Absent);
    var after := Builder([node] + b.stack, b.results);
    assert after.stack[1..] == b.stack;
    AttrRoundTrip(attrs);
    AppendEmpty("<" + tag + AttrText(node.attr) + ">");
    assert Partial(node) == EventMarkup(StartEvent(tag, attrs, false));
    AppendAssoc(ChildrenHtml(b.results), OpenHtml(b.stack), Partial(node));
  }

  lemma {:induction false} UnaryRendered(b: Builder, tag: string, attrs: seq<Attribute>)
    requires Open(b.stack) && tag in EmptyTags && DistinctNames(attrs)
    ensures var after := Step(b, StartEvent(tag, attrs, true)).value;
      Open(after.stack) && Rendered(after) == Rendered(b) + EventMarkup(StartEvent(tag, attrs, true))
  {
    var node := Element(tag, AttrsOf(attrs), Absent);
    AttrRoundTrip(attrs);
    assert Json2Html(node) == EventMarkup(StartEvent(tag, attrs, true));
    AttachRendered(b, node);
    AttachOpen(b, node);
  }

  /** A closed element is its markup so far followed by its end tag. */
  lemma {:induction false} ClosedElement(e: JsonNode)
    requires e.Element? && e.tag !in EmptyTags
    ensures Json2Html(e) == Partial(e) + ("</" + e.tag + ">")
  {
    var p := "<" + e.tag + AttrText(e.attr) + ">" + ChildHtml(e.child);
    assert Json2Html(e) == p + "</" + e.tag + ">";
    AppendAssoc(p, "</" + e.tag, ">");
    AppendAssoc(p, "</", e.tag);
  }

  /** Popping the innermost open element takes its part off the end. */
  lemma {:induction false} PopRendered(b: Builder)
    requires OpenElements(b.stack) && b.stack != []
    ensures Rendered(b) == Rendered(Builder(b.stack[1..], b.results)) + Partial(b.stack[0])
  {
    AppendAssoc(ChildrenHtml(b.results), OpenHtml(b.stack[1..]), Partial(b.stack[0]));
  }

  lemma {:induction false} EndRendered(b: Builder, tag: string)
    requires Open(b.stack) && b.stack != [] && b.stack[0].tag == tag
    ensures var after := Step(b, EndEvent(tag)).value;
      Open(after.stack) && Rendered(after) == Rendered(b) + EventMarkup(EndEvent(tag))
  {
    var e := b.stack[0];
    var popped := Builder(b.stack[1..], b.results);
    assert Step(b, EndEvent(tag)) == Some(Attach(popped, e));
    ClosedElement(e);
    PopRendered(b);
    AttachRendered(popped, e);
    AttachOpen(popped, e);
    AppendAssoc(Rendered(popped), Partial(e), "</" + tag + ">");
  }

  /** One fitting handler call adds exactly the markup it was made for. */
  lemma {:induction false} StepRendered(b: Builder, ev: Event)
    requires Open(b.stack) && Fits(b, ev)
    ensures Step(b, ev).Some?
    ensures Open(Step(b, ev).value.stack)
    ensures Rendered(Step(b, ev).value) == Rendered(b) + EventMarkup(ev)
  {
    match ev
    case StartEvent(tag, attrs, unary) =>
      if unary {
        UnaryRendered(b, tag, attrs);
      } else {
        StartRendered(b, tag, attrs);
      }
    case EndEvent(tag) =>
      EndRendered(b, tag);
    case CharsEvent(text) =>
      AttachRendered(b, TextNode(text));
      AttachOpen(b, TextNode(text));
    case CommentEvent(text) =>
      AttachRendered(b, CommentNode(text));
      AttachOpen(b, CommentNode(text));
  }

  lemma {:induction false} RunRendered(b: Builder, events: seq<Event>)
    requires Open(b.stack) && WellNested(b, events)
    ensures Run(b, events).Some? && Run(b, events).value.stack == []
    ensures Rendered(Run(b, events).value) == Rendered(b) + Markup(events)
    decreases |events|
  {
    if events == [] {
      AppendEmpty(Rendered(b));
    } else {
      StepRendered(b, events[0]);
      var next := Step(b, events[0]).value;
      RunRendered(next, events[1..]);
      AppendAssoc(Rendered(b), EventMarkup(events[0]), Markup(events[1..]));
    }
  }

  /** `json2html` of what `html2json` builds from a well-nested document writes that
      document again. */
  lemma {:induction false} RoundTrip(events: seq<Event>)
    requires WellNested(Builder([], []), events)
    ensures Html2JsonResult(events).Some?
    ensures Json2Html(Html2JsonResult(events).value) == Markup(events)
  {
    var start := Builder([], []);
    RunRendered(start, events);
    var done := Run(start, events).value;
    assert Html2JsonResult(events) == Some(Root(done.results));
    StartRenderedEmpty();
    ClosedRendered(done);
    EmptyAppend(Markup(events));
  }

  lemma {:induction false} StartRenderedEmpty()
    ensures Rendered(Builder([], [])) == []
  {
  }

  /** With no element open, the builder holds just the root's markup. */
  lemma {:induction false} ClosedRendered(b: Builder)
    requires b.stack == []
    ensures Rendered(b) == Json2Html(Root(b.results))
  {
    AppendEmpty(ChildrenHtml(b.results));
  }
}
