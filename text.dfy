/**
 * String operations the renderers rely on, written out with the semantics of
 * the JavaScript built-ins they stand for: `trim`, `\s`, `includes`,
 * `replace` with a string pattern, `replaceAll`, `repeat`, `join`,
 * `JSON.stringify` on a string, and the `startsWithCapital` helper that all
 * three renderers define identically.
 */
module Text {

  datatype Option<+T> = None | Some(value: T)

  /** The characters JavaScript's `\s` matches and `String.prototype.trim` strips:
      WhiteSpace and LineTerminator of ECMA-262. */
  predicate IsJsWhitespace(c: char) {
    c == '\t' || c == '\n' || c == '\U{000B}' || c == '\U{000C}' || c == '\r' || c == ' ' ||
    c == '\U{00A0}' || c == '\U{1680}' || ('\U{2000}' <= c <= '\U{200A}') || c == '\U{2028}' ||
    c == '\U{2029}' || c == '\U{202F}' || c == '\U{205F}' || c == '\U{3000}' || c == '\U{FEFF}'
  }

  /** The LineTerminator characters: where a multiline `^` may match, and what `.` never matches. */
  predicate IsLineTerminator(c: char) {
    c == '\n' || c == '\r' || c == '\U{2028}' || c == '\U{2029}'
  }

  /** Every character of `s` is whitespace (vacuously true of the empty string). */
  predicate IsBlank(s: string) {
    forall i :: 0 <= i < |s| ==> IsJsWhitespace(s[i])
  }

  function TrimStart(s: string): string
    decreases |s|
  {
    if s != [] && IsJsWhitespace(s[0]) then TrimStart(s[1..]) else s
  }

  function TrimEnd(s: string): string
    decreases |s|
  {
    if s != [] && IsJsWhitespace(s[|s| - 1]) then TrimEnd(s[..|s| - 1]) else s
  }

  /** `trimStart` keeps a suffix and drops only whitespace. */
  lemma {:induction false} TrimStartSpec(s: string)
    ensures var r := TrimStart(s);
      && |r| <= |s| && r == s[|s| - |r|..]
      && IsBlank(s[..|s| - |r|])
      && (r != [] ==> !IsJsWhitespace(r[0]))
    decreases |s|
  {
    if s != [] && IsJsWhitespace(s[0]) {
      TrimStartSpec(s[1..]);
      var r := TrimStart(s[1..]);
      assert s[1..][..|s[1..]| - |r|] == s[1..|s| - |r|];
    }
  }

  /** `trimEnd` keeps a prefix and drops only whitespace. */
  lemma {:induction false} TrimEndSpec(s: string)
    ensures var r := TrimEnd(s);
      && |r| <= |s| && r == s[..|r|]
      && IsBlank(s[|r|..])
      && (r != [] ==> !IsJsWhitespace(r[|r| - 1]))
    decreases |s|
  {
    if s != [] && IsJsWhitespace(s[|s| - 1]) {
      TrimEndSpec(s[..|s| - 1]);
      var r := TrimEnd(s[..|s| - 1]);
      assert s[..|s| - 1][|r|..] + [s[|s| - 1]] == s[|r|..];
    }
  }

  lemma {:induction false} BlankSplit(s: string, i: nat)
    requires i <= |s|
    ensures IsBlank(s) <==> IsBlank(s[..i]) && IsBlank(s[i..])
  {
    assert forall k :: 0 <= k < i ==> s[..i][k] == s[k];
    assert forall k :: i <= k < |s| ==> s[i..][k - i] == s[k];
  }

  /** `String.prototype.trim`. */
  function Trim(s: string): string {
    TrimEnd(TrimStart(s))
  }

  /** What `trim` leaves: the slice of `s` between two whitespace-only margins, empty
      exactly when `s` is whitespace only, and otherwise starting and ending with a
      non-whitespace character. */
  lemma {:induction false} TrimSpec(s: string)
    ensures var r := Trim(s);
      && (r == [] <==> IsBlank(s))
      && (r != [] ==> !IsJsWhitespace(r[0]) && !IsJsWhitespace(r[|r| - 1]))
      && (exists i :: 0 <= i <= |s| - |r| && r == s[i..i + |r|] && IsBlank(s[..i]) && IsBlank(s[i + |r|..]))
  {
    var t := TrimStart(s);
    var r := TrimEnd(t);
    TrimStartSpec(s);
    TrimEndSpec(t);
    var i := |s| - |t|;
    assert s[i..] == t;
    assert s[i..i + |r|] == r;
    assert s[i + |r|..] == t[|r|..];
    BlankSplit(s, i);
    BlankSplit(t, |r|);
    assert r != [] ==> !IsBlank(r) by {
      if r != [] { assert !IsJsWhitespace(r[0]); }
    }
  }

  /** ASCII upper-casing; every other character is its own upper case here. */
  function ToUpperAscii(c: char): char {
    if 'a' <= c <= 'z' then (c as int - 32) as char else c
  }

  /** `startsWithCapital`: the first character equals its upper-case form. The empty
      word is not capital, and neither is a lower-case letter; digits, `_`, `$` and
      every other non-letter count as capital. */
  function StartsWithCapital(word: string): (r: bool)
    ensures r <==> |word| > 0 && !('a' <= word[0] <= 'z')
  {
    if word == [] then false else word[0] == ToUpperAscii(word[0])
  }

  /** Regrouping a concatenation; calling it spares the solver the element-wise proof. */
  lemma {:induction false} AppendAssoc(a: string, b: string, c: string)
    ensures a + b + c == a + (b + c)
  {}

  lemma {:induction false} EmptyAppend(a: string)
    ensures [] + a == a
  {}

  lemma {:induction false} AppendEmpty(a: string)
    ensures a + [] == a
  {}

  /** `String.prototype.repeat`. */
  function Repeat(s: string, n: nat): string {
    if n == 0 then [] else Repeat(s, n - 1) + s
  }

  /** `Array.prototype.join` over strings. */
  function Join(parts: seq<string>, sep: string): string {
    if |parts| == 0 then []
    else if |parts| == 1 then parts[0]
    else Join(parts[..|parts| - 1], sep) + sep + parts[|parts| - 1]
  }

  lemma {:induction false} JoinPair(a: string, b: string, sep: string)
    ensures Join([a, b], sep) == a + sep + b
  {
    assert [a, b][..1] == [a];
  }

  lemma {:induction false} JoinTriple(a: string, b: string, c: string, sep: string)
    ensures Join([a, b, c], sep) == a + sep + b + sep + c
  {
    assert [a, b, c][..2] == [a, b];
    JoinPair(a, b, sep);
  }

  /** One more part: the join of `parts[..i + 1]` extends that of `parts[..i]`. */
  lemma {:induction false} JoinSnoc(parts: seq<string>, i: nat, sep: string)
    requires 1 <= i < |parts|
    ensures Join(parts[..i + 1], sep) == Join(parts[..i], sep) + sep + parts[i]
  {
    assert parts[..i + 1][..i] == parts[..i];
  }

  /** `String.prototype.split` with a one-character separator: the pieces between
      separators, in order, empty ones included. */
  function Split(s: string, c: char): (r: seq<string>)
    ensures |r| >= 1
    decreases |s|
  {
    if s == [] then [[]]
    else
      var init := Split(s[..|s| - 1], c);
      if s[|s| - 1] == c then init + [[]]
      else init[..|init| - 1] + [init[|init| - 1] + [s[|s| - 1]]]
  }

  /** Joining the pieces with the separator gives the string back. */
  lemma {:induction false} SplitJoin(s: string, c: char)
    ensures Join(Split(s, c), [c]) == s
    decreases |s|
  {
    if s != [] {
      var n := |s| - 1;
      SplitJoin(s[..n], c);
      if s[n] == c {
        SplitJoinAtSeparator(s, c);
      } else {
        SplitJoinExtend(s, c);
      }
    }
  }

  lemma {:induction false} SplitJoinAtSeparator(s: string, c: char)
    requires s != [] && s[|s| - 1] == c
    requires Join(Split(s[..|s| - 1], c), [c]) == s[..|s| - 1]
    ensures Join(Split(s, c), [c]) == s
  {
    LastApart(s);
    var init := Split(s[..|s| - 1], c);
    var r := init + [[]];
    assert r[..|r| - 1] == init;
    assert Join(r, [c]) == Join(init, [c]) + [c] + [];
  }

  /** A non-empty string is its front followed by its last character. */
  lemma {:induction false} LastApart(s: string)
    requires s != []
    ensures s == s[..|s| - 1] + [s[|s| - 1]]
  {
  }

  lemma {:induction false} SplitJoinExtend(s: string, c: char)
    requires s != [] && s[|s| - 1] != c
    requires Join(Split(s[..|s| - 1], c), [c]) == s[..|s| - 1]
    ensures Join(Split(s, c), [c]) == s
  {
    var init := Split(s[..|s| - 1], c);
    LastApart(s);
    SplitLastPiece(s, c);
    if |init| == 1 {
      JoinOne(init[0] + [s[|s| - 1]], [c]);
    } else {
      JoinExtendLast(init, [c], [s[|s| - 1]]);
    }
  }

  /** A character other than the separator lengthens the last piece. */
  lemma {:induction false} SplitLastPiece(s: string, c: char)
    requires s != [] && s[|s| - 1] != c
    ensures var init := Split(s[..|s| - 1], c);
      Split(s, c) == init[..|init| - 1] + [init[|init| - 1] + [s[|s| - 1]]]
  {
  }

  lemma {:induction false} JoinOne(part: string, sep: string)
    ensures Join([part], sep) == part
  {
  }

  /** Lengthening the last of several parts lengthens their join by the same. */
  lemma {:induction false} JoinExtendLast(parts: seq<string>, sep: string, more: string)
    requires |parts| >= 2
    ensures Join(parts[..|parts| - 1] + [parts[|parts| - 1] + more], sep) == Join(parts, sep) + more
  {
    var k := |parts| - 1;
    var r := parts[..k] + [parts[k] + more];
    var front := Join(parts[..k], sep);
    assert r[..k] == parts[..k];
    assert Join(r, sep) == front + sep + (parts[k] + more);
    assert Join(parts, sep) == front + sep + parts[k];
    AppendAssoc(front + sep, parts[k], more);
  }

  /** No piece holds the separator. */
  lemma {:induction false} SplitPieces(s: string, c: char)
    ensures forall i :: 0 <= i < |Split(s, c)| ==> c !in Split(s, c)[i]
    decreases |s|
  {
    if s != [] {
      var n := |s| - 1;
      var init := Split(s[..n], c);
      SplitPieces(s[..n], c);
      if s[n] != c {
        var k := |init| - 1;
        var r := init[..k] + [init[k] + [s[n]]];
        assert forall i :: 0 <= i < k ==> r[i] == init[i];
      }
    }
  }

  /** `trim` applied to every line. */
  function TrimAll(lines: seq<string>): (r: seq<string>)
    ensures |r| == |lines|
    ensures forall i :: 0 <= i < |lines| ==> r[i] == Trim(lines[i])
  {
    seq(|lines|, i requires 0 <= i < |lines| => Trim(lines[i]))
  }

  /** The strings of `parts` one after another. */
  function Concat(parts: seq<string>): string {
    if |parts| == 0 then [] else Concat(parts[..|parts| - 1]) + parts[|parts| - 1]
  }

  predicate HasPrefixAt(s: string, i: nat, pat: string) {
    i + |pat| <= |s| && s[i..i + |pat|] == pat
  }

  /** `String.prototype.includes`. */
  predicate Contains(s: string, pat: string) {
    exists i :: 0 <= i <= |s| && HasPrefixAt(s, i, pat)
  }

  /** `String.prototype.indexOf` from position `from`: the first occurrence, or -1. */
  function IndexFrom(s: string, pat: string, from: nat): (r: int)
    requires from <= |s|
    ensures r == -1 || (from <= r && r + |pat| <= |s|)
    decreases |s| - from
  {
    if HasPrefixAt(s, from, pat) then from
    else if from == |s| then -1
    else IndexFrom(s, pat, from + 1)
  }

  lemma {:induction false} IndexFromSpec(s: string, pat: string, from: nat)
    requires from <= |s|
    ensures var r := IndexFrom(s, pat, from);
      && (r == -1 || (from <= r <= |s| && HasPrefixAt(s, r, pat)))
      && (r == -1 ==> forall i :: from <= i <= |s| ==> !HasPrefixAt(s, i, pat))
      && (r != -1 ==> forall i :: from <= i < r ==> !HasPrefixAt(s, i, pat))
    decreases |s| - from
  {
    if !HasPrefixAt(s, from, pat) && from < |s| {
      IndexFromSpec(s, pat, from + 1);
    }
  }

  /** `String.prototype.replace` with a string pattern. */
  function ReplaceFirst(s: string, pat: string, rep: string): string {
    var i := IndexFrom(s, pat, 0);
    if i == -1 then s else s[..i] + rep + s[i + |pat|..]
  }

  /** Only the first occurrence is replaced; without one the string is unchanged. */
  lemma {:induction false} ReplaceFirstSpec(s: string, pat: string, rep: string)
    ensures !Contains(s, pat) ==> ReplaceFirst(s, pat, rep) == s
    ensures Contains(s, pat) ==>
      exists i :: 0 <= i <= |s| && HasPrefixAt(s, i, pat) &&
        (forall j :: 0 <= j < i ==> !HasPrefixAt(s, j, pat)) &&
        ReplaceFirst(s, pat, rep) == s[..i] + rep + s[i + |pat|..]
  {
    IndexFromSpec(s, pat, 0);
    var i := IndexFrom(s, pat, 0);
    if i == -1 {
      assert !Contains(s, pat);
    } else {
      var r := ReplaceFirst(s, pat, rep);
      assert r == s[..i] + rep + s[i + |pat|..];
      assert 0 <= i <= |s| && HasPrefixAt(s, i, pat);
      assert forall j :: 0 <= j < i ==> !HasPrefixAt(s, j, pat);
    }
  }

  /** `String.prototype.replaceAll` with a one-character pattern: every `c` becomes
      `rep`, every other character stays where it is. */
  function ReplaceAllChar(s: string, c: char, rep: string): (r: string)
    ensures c !in s ==> r == s
    ensures c !in rep ==> c !in r
    ensures |rep| == 1 ==> |r| == |s| && forall i :: 0 <= i < |s| ==> r[i] == (if s[i] == c then rep[0] else s[i])
  {
    if s == [] then []
    else (if s[0] == c then rep else [s[0]]) + ReplaceAllChar(s[1..], c, rep)
  }

  lemma {:induction false} ReplaceAllCharAppend(a: string, b: string, c: char, rep: string)
    ensures ReplaceAllChar(a + b, c, rep) == ReplaceAllChar(a, c, rep) + ReplaceAllChar(b, c, rep)
    decreases |a|
  {
    if a == [] {
      assert a + b == b;
    } else {
      assert (a + b)[0] == a[0] && (a + b)[1..] == a[1..] + b;
      ReplaceAllCharAppend(a[1..], b, c, rep);
    }
  }

  /** On one character: `rep` for a `c`, the character itself otherwise. With
      `ReplaceAllCharAppend` this fixes the result for every string. */
  lemma {:induction false} ReplaceAllCharUnit(x: char, c: char, rep: string)
    ensures ReplaceAllChar([x], c, rep) == if x == c then rep else [x]
  {
    assert [x][1..] == [];
    AppendEmpty(if x == c then rep else [x]);
  }

  function HexDigit(d: nat): char
    requires d < 16
  {
    if d < 10 then ('0' as int + d) as char else ('a' as int + d - 10) as char
  }

  /** How `JSON.stringify` writes one character inside a string literal. */
  function JsonEscapeChar(c: char): string {
    if c == '"' then ['\\', '"']
    else if c == '\\' then ['\\', '\\']
    else if c == '\U{0008}' then ['\\', 'b']
    else if c == '\U{000C}' then ['\\', 'f']
    else if c == '\n' then ['\\', 'n']
    else if c == '\r' then ['\\', 'r']
    else if c == '\t' then ['\\', 't']
    else if c < ' ' then ['\\', 'u', '0', '0', HexDigit(c as int / 16), HexDigit(c as int % 16)]
    else [c]
  }

  function JsonEscape(s: string): string {
    if s == [] then [] else JsonEscapeChar(s[0]) + JsonEscape(s[1..])
  }

  /** `JSON.stringify` applied to a string. */
  function JsonQuote(s: string): (r: string)
    ensures |r| >= 2 && r[0] == '"' && r[|r| - 1] == '"'
  {
    "\"" + JsonEscape(s) + "\""
  }

  /** `JSON.stringify(s).replaceAll('"', "'")`: a JSON string literal turned into a
      single-quoted one, escaped inner double quotes included. */
  function SingleQuoted(s: string): string {
    ReplaceAllChar(JsonQuote(s), '"', "'")
  }

  /** The result is delimited by single quotes and holds no double quote. */
  lemma {:induction false} SingleQuotedSpec(s: string)
    ensures var r := SingleQuoted(s);
      |r| >= 2 && r[0] == '\'' && r[|r| - 1] == '\'' && '"' !in r
  {
    var q := JsonEscape(s);
    ReplaceAllCharAppend(['"'] + q, ['"'], '"', "'");
    ReplaceAllCharAppend(['"'], q, '"', "'");
    assert JsonQuote(s) == ['"'] + q + ['"'];
  }
}
