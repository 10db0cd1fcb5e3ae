/**
 * utils/html2json.ts: `removeDOCTYPE`, the `html2json` handlers that the HTML
 * parser calls while it scans the markup (`start`, `end`, `chars`, `comment`),
 * and `json2html`, which writes a tree back out as markup.
 *
 * The parser itself is not part of this model: `html2json` is modelled from the
 * sequence of handler calls the parser makes. The handlers keep the open
 * elements on the `bufArray` stack (innermost first, since they `unshift` and
 * `shift`) and the finished top-level nodes in `results.child`; the class
 * `TreeBuilder` keeps both as fields and its methods are proved against `Step`,
 * the effect of one handler call on the pair.
 */
module HtmlJson {
  import opened Text

  // ---------------------------------------------------------------------------
  // removeDOCTYPE
  // ---------------------------------------------------------------------------

  /** The first LineTerminator at or after `i`, or `|s|`: how far `.*` can reach. */
  function LineEnd(s: string, i: nat): (r: nat)
    requires i <= |s|
    ensures i <= r <= |s|
    ensures r < |s| ==> IsLineTerminator(s[r])
    ensures forall k :: i <= k < r ==> !IsLineTerminator(s[k])
    decreases |s| - i
  {
    if i == |s| || IsLineTerminator(s[i]) then i else LineEnd(s, i + 1)
  }

  /** The regular expression `open.*close\n` matches at `p`: `open` starts there and
      the rest of that line ends with `close` and a line feed. */
  predicate LineMatchAt(s: string, p: nat, open: string, close: string) {
    HasPrefixAt(s, p, open) &&
    var q := LineEnd(s, p + |open|);
    q < |s| && s[q] == '\n' && p + |open| + |close| <= q && s[q - |close|..q] == close
  }

  /** The leftmost position at or after `from` where `open.*close\n` matches. */
  function FindLine(s: string, from: nat, open: string, close: string): (r: Option<nat>)
    requires from <= |s|
    ensures r.Some? ==>
      && from <= r.value <= |s|
      && LineMatchAt(s, r.value, open, close)
      && forall k :: from <= k < r.value ==> !LineMatchAt(s, k, open, close)
    ensures r.None? ==> forall k :: from <= k <= |s| ==> !LineMatchAt(s, k, open, close)
    decreases |s| - from
  {
    if LineMatchAt(s, from, open, close) then Some(from)
    else if from == |s| then None
    else FindLine(s, from + 1, open, close)
  }

  /** `s.replace(/open.*close\n/, "")`: the first match, line feed included, is cut out. */
  function ReplaceLine(s: string, open: string, close: string): (r: string)
    ensures |r| <= |s|
    ensures r == s <==> forall k :: 0 <= k <= |s| ==> !LineMatchAt(s, k, open, close)
  {
    match FindLine(s, 0, open, close)
    case None => s
    case Some(p) => s[..p] + s[LineEnd(s, p + |open|) + 1..]
  }

  /** `removeDOCTYPE`: an XML declaration line, then a `<!doctype …>` line, then a
      `<!DOCTYPE …>` line, each only when it ends in a line feed. */
  function RemoveDoctype(html: string): string {
    ReplaceLine(ReplaceLine(ReplaceLine(html, "<?xml", "?>"), "<!doctype", ">"), "<!DOCTYPE", ">")
  }

  // ---------------------------------------------------------------------------
  // Attributes: the reduce in the `start` handler
  // ---------------------------------------------------------------------------

  /** `{name, value}` as the parser hands an attribute to `start`. */
  datatype Attribute = Attribute(name: string, value: string)

  /** An attribute value in the tree: a string, or an array of values (nested when a
      spaced value is added to a name that already has a value). */
  datatype AttrValue = Str(s: string) | Arr(items: seq<AttrValue>)

  /** One key of the `attr` object, which keeps its keys in insertion order. */
  datatype Entry = Entry(key: string, value: AttrValue)

  function Strs(parts: seq<string>): (r: seq<AttrValue>)
    ensures |r| == |parts|
    ensures forall i :: 0 <= i < |parts| ==> r[i] == Str(parts[i])
  {
    seq(|parts|, i requires 0 <= i < |parts| => Str(parts[i]))
  }

  /** A value holding a space becomes the array of its space-separated pieces. */
  function ParseValue(value: string): AttrValue {
    if ' ' in value then Arr(Strs(Split(value, ' '))) else Str(value)
  }

  /** JavaScript truthiness of `pre[name]`: only the empty string is falsy. */
  predicate Truthy(v: AttrValue) {
    !(v.Str? && v.s == [])
  }

  predicate DistinctKeys(m: seq<Entry>) {
    forall i, j :: 0 <= i < j < |m| ==> m[i].key != m[j].key
  }

  /** The index of `key` in `m`, or -1. */
  function KeyIndex(m: seq<Entry>, key: string): (r: int)
    ensures -1 <= r < |m|
    ensures r >= 0 ==> m[r].key == key
    ensures r == -1 <==> forall i :: 0 <= i < |m| ==> m[i].key != key
  {
    if m == [] then -1
    else if m[|m| - 1].key == key then |m| - 1
    else KeyIndex(m[..|m| - 1], key)
  }

  function Keys(m: seq<Entry>): (r: seq<string>)
    ensures |r| == |m|
    ensures forall i :: 0 <= i < |m| ==> r[i] == m[i].key
  {
    seq(|m|, i requires 0 <= i < |m| => m[i].key)
  }

  function Names(attrs: seq<Attribute>): (r: seq<string>)
    ensures |r| == |attrs|
    ensures forall i :: 0 <= i < |attrs| ==> r[i] == attrs[i].name
  {
    seq(|attrs|, i requires 0 <= i < |attrs| => attrs[i].name)
  }

  /** One step of the reduce: a new name is added at the end; a name holding an array
      gets the value pushed; a name holding a non-empty string becomes the pair of old
      and new value; a name holding `""` (falsy) is overwritten in place. */
  function Merge(pre: seq<Entry>, name: string, value: AttrValue): (r: seq<Entry>)
    requires DistinctKeys(pre)
    ensures DistinctKeys(r)
    ensures Keys(r) == if name in Keys(pre) then Keys(pre) else Keys(pre) + [name]
  {
    var i := KeyIndex(pre, name);
    if i == -1 then pre + [Entry(name, value)]
    else if !Truthy(pre[i].value) then pre[i := Entry(name, value)]
    else match pre[i].value
      case Arr(items) => pre[i := Entry(name, Arr(items + [value]))]
      case Str(s) => pre[i := Entry(name, Arr([Str(s), value]))]
  }

  /** The `attr` of a new element node: the reduce over the attributes in order (an
      empty list stays an empty `attr`). Its keys are the attribute names, each once. */
  function AttrsOf(attrs: seq<Attribute>): (r: seq<Entry>)
    ensures DistinctKeys(r)
    ensures |r| <= |attrs|
    ensures forall k :: k in Keys(r) <==> k in Names(attrs)
  {
    if attrs == [] then []
    else
      var n := |attrs| - 1;
      assert Names(attrs) == Names(attrs[..n]) + [attrs[n].name];
      Merge(AttrsOf(attrs[..n]), attrs[n].name, ParseValue(attrs[n].value))
  }

  // ---------------------------------------------------------------------------
  // The tree
  // ---------------------------------------------------------------------------

  /** The nodes `html2json` builds. An element that never received a child has no
      `child` array (`Absent`). */
  datatype JsonNode =
    | Element(tag: string, attr: seq<Entry>, child: ChildArray)
    | TextNode(text: string)
    | CommentNode(text: string)
    | Root(nodes: seq<JsonNode>)

  /** An element's `child` property: absent until a first child is pushed. */
  datatype ChildArray = Absent | Present(kids: seq<JsonNode>)

  /** The handler calls the parser makes. */
  datatype Event =
    | StartEvent(tag: string, attrs: seq<Attribute>, unary: bool)
    | EndEvent(tag: string)
    | CharsEvent(text: string)
    | CommentEvent(text: string)

  /** `bufArray` (innermost open element first) and `results.child`. */
  datatype Builder = Builder(stack: seq<JsonNode>, results: seq<JsonNode>)

  /** Only element nodes are ever pushed on `bufArray`. */
  predicate OpenElements(stack: seq<JsonNode>) {
    forall i :: 0 <= i < |stack| ==> stack[i].Element?
  }

  /** `child`, read as an empty list when it is missing. */
  function Children(child: ChildArray): seq<JsonNode> {
    match child
    case Absent => []
    case Present(cs) => cs
  }

  /** `if (parent.child === undefined) parent.child = []; parent.child.push(node)`. */
  function AddChild(e: JsonNode, node: JsonNode): (r: JsonNode)
    requires e.Element?
    ensures r.Element? && r.tag == e.tag && r.attr == e.attr
    ensures r.child == Present(Children(e.child) + [node])
  {
    Element(e.tag, e.attr, Present(Children(e.child) + [node]))
  }

  /** The node is added to the innermost open element, or to `results.child` when no
      element is open. */
  function Attach(b: Builder, node: JsonNode): (r: Builder)
    requires OpenElements(b.stack)
    ensures OpenElements(r.stack) && |r.stack| == |b.stack|
    ensures b.stack == [] ==> r.results == b.results + [node]
    ensures b.stack != [] ==> r.results == b.results && r.stack[1..] == b.stack[1..] && r.stack[0] == AddChild(b.stack[0], node)
  {
    if b.stack == [] then Builder([], b.results + [node])
    else Builder(b.stack[0 := AddChild(b.stack[0], node)], b.results)
  }

  /** How a handler call moves the depth of `bufArray`: a non-unary start tag pushes
      one element and an end tag pops one. */
  function Depth(ev: Event): int {
    match ev
    case StartEvent(_, _, unary) => if unary then 0 else 1
    case EndEvent(_) => -1
    case _ => 0
  }

  /** The effect of one handler call; `None` where the handler throws: `end` and
      `comment` read a field of `bufArray[0]`, which is undefined on an empty stack.
      `end` pops one element whatever its tag (a mismatch is only logged). */
  function Step(b: Builder, ev: Event): (r: Option<Builder>)
    requires OpenElements(b.stack)
    ensures r.None? <==> (ev.EndEvent? || ev.CommentEvent?) && b.stack == []
    ensures r.Some? ==> OpenElements(r.value.stack)
    ensures r.Some? ==> |r.value.stack| == |b.stack| + Depth(ev)
  {
    match ev
    case StartEvent(tag, attrs, unary) =>
      var node := Element(tag, AttrsOf(attrs), Absent);
      if unary then Some(Attach(b, node)) else Some(Builder([node] + b.stack, b.results))
    case EndEvent(_) =>
      if b.stack == [] then None else Some(Attach(Builder(b.stack[1..], b.results), b.stack[0]))
    case CharsEvent(text) => Some(Attach(b, TextNode(text)))
    case CommentEvent(text) =>
      if b.stack == [] then None else Some(Attach(b, CommentNode(text)))
  }

  /** The handler calls one after another; `None` once one of them throws. */
  function Run(b: Builder, events: seq<Event>): (r: Option<Builder>)
    requires OpenElements(b.stack)
    ensures r.Some? ==> OpenElements(r.value.stack)
    decreases |events|
  {
    if events == [] then Some(b)
    else match Step(b, events[0])
      case None => None
      case Some(next) => Run(next, events[1..])
  }

  /** What `html2json` returns: the root node over `results.child`. Elements still
      open after the last call are not part of it. */
  function Html2JsonResult(events: seq<Event>): Option<JsonNode> {
    match Run(Builder([], []), events)
    case None => None
    case Some(b) => Some(Root(b.results))
  }

  /** The `bufArray`/`results` pair and the four handlers. */
  class TreeBuilder {
    var stack: seq<JsonNode>
    var results: seq<JsonNode>

    ghost predicate Valid()
      reads this
    {
      OpenElements(stack)
    }

    function State(): Builder
      reads this
    {
      Builder(stack, results)
    }

    constructor ()
      ensures Valid() && stack == [] && results == []
    {
      stack := [];
      results := [];
    }

    /** `parent.child.push(node)` where `parent` is `bufArray[0] || results`. */
    method AppendToParent(node: JsonNode)
      modifies this
      requires Valid()
      ensures Valid() && State() == Attach(old(State()), node)
    {
      if stack == [] {
        results := results + [node];
      } else {
        var parent := stack[0];
        var kids := if parent.child.Absent? then [] else parent.child.kids;
        stack := stack[0 := Element(parent.tag, parent.attr, Present(kids + [node]))];
      }
    }

    method Start(tag: string, attrs: seq<Attribute>, unary: bool)
      modifies this
      requires Valid()
      ensures Valid() && State() == Step(old(State()), StartEvent(tag, attrs, unary)).value
    {
      var node := Element(tag, [], Absent);
      if |attrs| != 0 {
        node := node.(attr := AttrsOf(attrs));
      }
      if unary {
        AppendToParent(node);
      } else {
        stack := [node] + stack;
      }
    }

    /** `ok` is false where the handler throws. */
    method End(tag: string) returns (ok: bool)
      modifies this
      requires Valid()
      ensures Valid() && ok == (old(stack) != [])
      ensures ok ==> State() == Step(old(State()), EndEvent(tag)).value
      ensures !ok ==> State() == old(State())
    {
      if stack == [] {
        return false;
      }
      var node := stack[0];
      stack := stack[1..];
      AppendToParent(node);
      return true;
    }

    method Chars(text: string)
      modifies this
      requires Valid()
      ensures Valid() && State() == Step(old(State()), CharsEvent(text)).value
    {
      AppendToParent(TextNode(text));
    }

    /** `ok` is false where the handler throws. */
    method Comment(text: string) returns (ok: bool)
      modifies this
      requires Valid()
      ensures Valid() && ok == (old(stack) != [])
      ensures ok ==> State() == Step(old(State()), CommentEvent(text)).value
      ensures !ok ==> State() == old(State())
    {
      if stack == [] {
        return false;
      }
      var parent := stack[0];
      var kids := if parent.child.Absent? then [] else parent.child.kids;
      stack := stack[0 := Element(parent.tag, parent.attr, Present(kids + [CommentNode(text)]))];
      return true;
    }

    /** The parser's call of the handler for one event. */
    method Handle(ev: Event) returns (ok: bool)
      modifies this
      requires Valid()
      ensures Valid() && ok == Step(old(State()), ev).Some?
      ensures ok ==> State() == Step(old(State()), ev).value
    {
      match ev
      case StartEvent(tag, attrs, unary) =>
        Start(tag, attrs, unary);
        ok := true;
      case EndEvent(tag) =>
        ok := End(tag);
      case CharsEvent(text) =>
        Chars(text);
        ok := true;
      case CommentEvent(text) =>
        ok := Comment(text);
    }
  }

  /** `html2json` after `removeDOCTYPE` and parsing: a fresh builder fed every event
      in order; `None` when a handler throws. */
  method Html2Json(events: seq<Event>) returns (r: Option<JsonNode>)
    ensures r == Html2JsonResult(events)
  {
    var builder := new TreeBuilder();
    var i := 0;
    while i < |events|
      invariant 0 <= i <= |events|
      invariant builder.Valid()
      invariant Run(Builder([], []), events) == Run(builder.State(), events[i..])
    {
      var before := builder.State();
      assert events[i..][0] == events[i] && events[i..][1..] == events[i + 1..];
      var ok := builder.Handle(events[i]);
      if !ok {
        assert Run(before, events[i..]) == None;
        return None;
      }
      i := i + 1;
    }
    return Some(Root(builder.results));
  }

  // ---------------------------------------------------------------------------
  // json2html
  // ---------------------------------------------------------------------------

  /** The HTML 4.01 empty elements `json2html` writes as `<tag/>`. */
  const EmptyTags: seq<string> := ["area", "base", "basefont", "br", "col", "frame", "hr", "img",
    "input", "isindex", "link", "meta", "param", "embed"]

  /** `q`: the value in double quotes, unescaped. */
  function Quote(v: string): string {
    "\"" + v + "\""
  }

  /** `String(v)`, as `Array.prototype.join` applies it to an element: a nested array
      is joined with commas. */
  function ItemText(v: AttrValue): string
    decreases v
  {
    match v
    case Str(s) => s
    case Arr(items) => Join(ItemTexts(items), ",")
  }

  function ItemTexts(items: seq<AttrValue>): (r: seq<string>)
    ensures |r| == |items|
    ensures forall i :: 0 <= i < |items| ==> r[i] == ItemText(items[i])
    decreases items
  {
    if items == [] then [] else ItemTexts(items[..|items| - 1]) + [ItemText(items[|items| - 1])]
  }

  /** The attribute value as written: an array is joined with spaces. */
  function ValueText(v: AttrValue): string {
    match v
    case Str(s) => s
    case Arr(items) => Join(ItemTexts(items), " ")
  }

  function EntryText(e: Entry): string {
    e.key + "=" + Quote(ValueText(e.value))
  }

  function EntryTexts(m: seq<Entry>): (r: seq<string>)
    ensures |r| == |m|
    ensures forall i :: 0 <= i < |m| ==> r[i] == EntryText(m[i])
  {
    seq(|m|, i requires 0 <= i < |m| => EntryText(m[i]))
  }

  /** The attribute string: `key="value"` pairs joined by spaces, after one leading
      space when there is any. */
  function AttrText(attr: seq<Entry>): (r: string)
    ensures r == [] <==> attr == []
    ensures r != [] ==> r[0] == ' '
  {
    var pairs := Join(EntryTexts(attr), " ");
    JoinNonEmpty(EntryTexts(attr), " ");
    if pairs != [] then " " + pairs else []
  }

  /** Joining a list whose first part is non-empty gives a non-empty string. */
  lemma {:induction false} JoinNonEmpty(parts: seq<string>, sep: string)
    requires forall i :: 0 <= i < |parts| ==> parts[i] != []
    ensures Join(parts, sep) == [] <==> parts == []
    decreases |parts|
  {
    if |parts| > 1 {
      JoinNonEmpty(parts[..|parts| - 1], sep);
    }
  }

  /** `json2html`. */
  function Json2Html(n: JsonNode): string
    decreases n
  {
    match n
    case Element(tag, attr, child) =>
      if tag in EmptyTags then "<" + tag + AttrText(attr) + "/>"
      else "<" + tag + AttrText(attr) + ">" + ChildHtml(child) + "</" + tag + ">"
    case TextNode(text) => text
    case CommentNode(text) => "<!--" + text + "-->"
    case Root(nodes) => ChildrenHtml(nodes)
  }

  /** The children's markup, a missing `child` giving `""`. */
  function ChildHtml(child: ChildArray): string
    decreases child
  {
    match child
    case Absent => []
    case Present(cs) => ChildrenHtml(cs)
  }

  /** `child.map(json2html).join("")`. */
  function ChildrenHtml(cs: seq<JsonNode>): string
    decreases cs
  {
    if cs == [] then [] else ChildrenHtml(cs[..|cs| - 1]) + Json2Html(cs[|cs| - 1])
  }
}
