/**
 * The three global regular-expression replacements of utils/jsx2overreact.ts,
 * each written as the left-to-right, non-overlapping scan JavaScript's
 * `String.prototype.replace` performs with a `g` flag:
 *
 *   /= {2,}/g            -> "= "            (CollapseAfterEquals)
 *   /\)( {2,})\)/g       -> ")\n$1)"        (BreakDoubleClose)
 *   /^,(\r\n|\n|\r)/gm   -> ""              (DropCommaLines)
 */
module Cleanup {
  import opened Text

  /** The length of the run of spaces starting at `i`. */
  function SpaceRun(s: string, i: nat): (r: nat)
    requires i <= |s|
    ensures i + r <= |s|
    ensures forall j :: i <= j < i + r ==> s[j] == ' '
    ensures i + r == |s| || s[i + r] != ' '
    decreases |s| - i
  {
    if i < |s| && s[i] == ' ' then 1 + SpaceRun(s, i + 1) else 0
  }

  // ---------------------------------------------------------------------------
  // /= {2,}/g -> "= "
  // ---------------------------------------------------------------------------

  function CollapseAfterEquals(s: string): string
    decreases |s|
  {
    if s == [] then []
    else if s[0] == '=' && SpaceRun(s, 1) >= 2 then "= " + CollapseAfterEquals(s[1 + SpaceRun(s, 1)..])
    else [s[0]] + CollapseAfterEquals(s[1..])
  }

  /** The replacement keeps the first character. */
  lemma {:induction false} CollapseHead(s: string)
    requires s != []
    ensures CollapseAfterEquals(s) != [] && CollapseAfterEquals(s)[0] == s[0]
  {
  }

  /** The replacement keeps a final character other than a space. */
  lemma {:induction false} CollapseLast(s: string)
    requires s != [] && s[|s| - 1] != ' '
    ensures var r := CollapseAfterEquals(s); r != [] && r[|r| - 1] == s[|s| - 1]
    decreases |s|
  {
    var j := CollapseSkip(s);
    if j < |s| {
      CollapseLast(s[j..]);
    }
    if s[0] == '=' && SpaceRun(s, 1) >= 2 {
      CollapseMatch(s);
    } else {
      CollapseKeep(s);
    }
  }

  /** No `=` of `r` is followed by two spaces. */
  predicate NoWideEquals(r: string)
  {
    forall i :: 0 <= i && i + 2 < |r| ==> !(r[i] == '=' && r[i + 1] == ' ' && r[i + 2] == ' ')
  }

  /** No `=` of the result is followed by two spaces. */
  lemma {:induction false} CollapseLeavesNoWideEquals(s: string)
    ensures NoWideEquals(CollapseAfterEquals(s))
    decreases |s|
  {
    if s != [] {
      CollapseLeavesNoWideEquals(s[CollapseSkip(s)..]);
      if s[0] == '=' && SpaceRun(s, 1) >= 2 {
        NoWideMatchStep(s);
      } else {
        NoWideKeepStep(s);
      }
    }
  }

  /** At a match the result is `"= "` before the replaced rest, which does not start
      with a space. */
  lemma {:induction false} NoWideMatchStep(s: string)
    requires s != [] && s[0] == '=' && SpaceRun(s, 1) >= 2
    requires NoWideEquals(CollapseAfterEquals(s[1 + SpaceRun(s, 1)..]))
    ensures NoWideEquals(CollapseAfterEquals(s))
  {
    var rest := s[1 + SpaceRun(s, 1)..];
    if rest != [] {
      CollapseHead(rest);
    }
    NoWideAfterEquals(CollapseAfterEquals(rest));
  }

  /** Outside a match the copied character starts no wide `=`. */
  lemma {:induction false} NoWideKeepStep(s: string)
    requires s != [] && !(s[0] == '=' && SpaceRun(s, 1) >= 2)
    requires NoWideEquals(CollapseAfterEquals(s[1..]))
    ensures NoWideEquals(CollapseAfterEquals(s))
  {
    CollapseKeep(s);
    var t := CollapseAfterEquals(s[1..]);
    if |s| > 1 {
      CollapseHead(s[1..]);
      if s[1] == ' ' && |s| > 2 {
        assert s[1..][1..] == s[2..];
        CollapseKeep(s[1..]);
        CollapseHead(s[2..]);
      }
    }
    NoWideCons(s[0], t);
  }

  /** `"= "` before a text that does not start with a space adds no wide `=`. */
  lemma {:induction false} NoWideAfterEquals(t: string)
    requires NoWideEquals(t) && (t == [] || t[0] != ' ')
    ensures NoWideEquals("= " + t)
  {
    var r := "= " + t;
    forall i | 0 <= i && i + 2 < |r|
      ensures !(r[i] == '=' && r[i + 1] == ' ' && r[i + 2] == ' ')
    {
      if i >= 2 {
        assert r[i] == t[i - 2] && r[i + 1] == t[i - 1] && r[i + 2] == t[i];
      }
    }
  }

  /** A character before a text adds no wide `=` unless it is `=` and the text starts
      with two spaces. */
  lemma {:induction false} NoWideCons(c: char, t: string)
    requires NoWideEquals(t)
    requires c == '=' ==> !(|t| >= 2 && t[0] == ' ' && t[1] == ' ')
    ensures NoWideEquals([c] + t)
  {
    var r := [c] + t;
    forall i | 0 <= i && i + 2 < |r|
      ensures !(r[i] == '=' && r[i + 1] == ' ' && r[i + 2] == ' ')
    {
      if i >= 1 {
        assert r[i] == t[i - 1] && r[i + 1] == t[i] && r[i + 2] == t[i + 1];
      }
    }
  }

  /** A prefix without `=` is left as it is. */
  lemma {:induction false} CollapseAfterPrefix(p: string, s: string)
    requires '=' !in p
    ensures CollapseAfterEquals(p + s) == p + CollapseAfterEquals(s)
    decreases |p|
  {
    if p == [] {
      assert p + s == s;
    } else {
      assert (p + s)[1..] == p[1..] + s;
      CollapseAfterPrefix(p[1..], s);
    }
  }

  /** `s` with every `c` removed; the other characters keep their order. */
  function Without(s: string, c: char): (r: string)
    ensures c !in r
  {
    if s == [] then [] else (if s[0] == c then [] else [s[0]]) + Without(s[1..], c)
  }

  lemma {:induction false} WithoutAppend(a: string, b: string, c: char)
    ensures Without(a + b, c) == Without(a, c) + Without(b, c)
    decreases |a|
  {
    if a == [] {
      assert a + b == b;
    } else {
      assert (a + b)[0] == a[0] && (a + b)[1..] == a[1..] + b;
      WithoutAppend(a[1..], b, c);
      WithoutConsStep(a, b, c, if a[0] == c then [] else [a[0]]);
    }
  }

  /** The inductive step of `WithoutAppend`, with the kept head named `h`. */
  lemma {:induction false} WithoutConsStep(a: string, b: string, c: char, h: string)
    requires a != [] && h == (if a[0] == c then [] else [a[0]])
    requires (a + b)[0] == a[0] && (a + b)[1..] == a[1..] + b
    requires Without(a[1..] + b, c) == Without(a[1..], c) + Without(b, c)
    ensures Without(a + b, c) == Without(a, c) + Without(b, c)
  {
    assert Without(a + b, c) == h + Without(a[1..] + b, c);
    assert Without(a, c) == h + Without(a[1..], c);
    Text.AppendAssoc(h, Without(a[1..], c), Without(b, c));
  }

  lemma {:induction false} WithoutSplit(s: string, c: char)
    requires s != []
    ensures Without(s, c) == Without([s[0]], c) + Without(s[1..], c)
  {
    var one := [s[0]];
    assert one[1..] == [];
    AppendEmpty(if s[0] == c then [] else one);
  }

  lemma {:induction false} NonSpaceOfSpaces(s: string)
    requires forall i :: 0 <= i < |s| ==> s[i] == ' '
    ensures Without(s, ' ') == []
    decreases |s|
  {
    if s != [] {
      NonSpaceOfSpaces(s[1..]);
    }
  }

  /** Leading spaces contribute nothing. */
  lemma {:induction false} NonSpaceSkip(s: string, i: nat)
    requires i <= |s|
    requires forall j :: 0 <= j < i ==> s[j] == ' '
    ensures Without(s, ' ') == Without(s[i..], ' ')
    decreases i
  {
    if i > 0 {
      NonSpaceSkip(s[1..], i - 1);
      assert s[1..][i - 1..] == s[i..];
    }
  }

  lemma {:induction false} NonSpaceCollapseMatch(s: string)
    requires s != [] && s[0] == '=' && SpaceRun(s, 1) >= 2
    ensures Without(CollapseAfterEquals(s), ' ') == "=" + Without(CollapseAfterEquals(s[1 + SpaceRun(s, 1)..]), ' ')
  {
    CollapseMatch(s);
    WithoutAppend("= ", CollapseAfterEquals(s[1 + SpaceRun(s, 1)..]), ' ');
    NonSpaceEqualsSpace();
  }

  /** A match becomes `= ` followed by the replacement of what follows its spaces. */
  lemma {:induction false} CollapseMatch(s: string)
    requires s != [] && s[0] == '=' && SpaceRun(s, 1) >= 2
    ensures CollapseAfterEquals(s) == "= " + CollapseAfterEquals(s[1 + SpaceRun(s, 1)..])
  {
  }

  lemma {:induction false} NonSpaceEqualsSpace()
    ensures Without("= ", ' ') == "="
  {
    assert "= "[1..] == " ";
    assert " "[1..] == [];
  }

  lemma {:induction false} NonSpaceMatch(s: string)
    requires s != [] && s[0] == '=' && SpaceRun(s, 1) >= 2
    ensures Without(s, ' ') == "=" + Without(s[1 + SpaceRun(s, 1)..], ' ')
  {
    var k := SpaceRun(s, 1);
    NonSpaceSkip(s[1..], k);
    assert s[1..][k..] == s[1 + k..];
  }

  /** Only spaces are removed: every other character survives, in order. */
  lemma {:induction false} CollapseRemovesOnlySpaces(s: string)
    ensures Without(CollapseAfterEquals(s), ' ') == Without(s, ' ')
    decreases |s|
  {
    if s != [] {
      CollapseRemovesOnlySpaces(s[CollapseSkip(s)..]);
      CollapseStep(s);
    }
  }

  /** How many characters one step of the replacement consumes. */
  function CollapseSkip(s: string): (r: nat)
    requires s != []
    ensures 1 <= r <= |s|
    ensures r > 1 <==> s[0] == '=' && SpaceRun(s, 1) >= 2
  {
    if s[0] == '=' && SpaceRun(s, 1) >= 2 then 1 + SpaceRun(s, 1) else 1
  }

  /** One step of the replacement keeps the non-space characters. */
  lemma {:induction false} CollapseStep(s: string)
    requires s != []
    requires Without(CollapseAfterEquals(s[CollapseSkip(s)..]), ' ') == Without(s[CollapseSkip(s)..], ' ')
    ensures Without(CollapseAfterEquals(s), ' ') == Without(s, ' ')
  {
    if s[0] == '=' && SpaceRun(s, 1) >= 2 {
      CollapseMatchStep(s);
    } else {
      CollapseKeepStep(s);
    }
  }

  /** At a match: both sides are `=` followed by what the rest gives. */
  lemma {:induction false} CollapseMatchStep(s: string)
    requires s != [] && s[0] == '=' && SpaceRun(s, 1) >= 2
    requires var rest := s[1 + SpaceRun(s, 1)..]; Without(CollapseAfterEquals(rest), ' ') == Without(rest, ' ')
    ensures Without(CollapseAfterEquals(s), ' ') == Without(s, ' ')
  {
    NonSpaceCollapseMatch(s);
    NonSpaceMatch(s);
  }

  /** Outside a match: the copied first character is kept by both sides. */
  lemma {:induction false} CollapseKeepStep(s: string)
    requires s != [] && !(s[0] == '=' && SpaceRun(s, 1) >= 2)
    requires Without(CollapseAfterEquals(s[1..]), ' ') == Without(s[1..], ' ')
    ensures Without(CollapseAfterEquals(s), ' ') == Without(s, ' ')
  {
    CollapseKeep(s);
    WithoutAppend([s[0]], CollapseAfterEquals(s[1..]), ' ');
    WithoutSplit(s, ' ');
  }

  /** Text in which no `=` is followed by two spaces is left as it is. */
  lemma {:induction false} CollapseIdentity(s: string)
    requires NoWideEquals(s)
    ensures CollapseAfterEquals(s) == s
    decreases |s|
  {
    if s != [] {
      assert !(s[0] == '=' && SpaceRun(s, 1) >= 2) by {
        if SpaceRun(s, 1) >= 2 {
          assert s[1] == ' ' && s[2] == ' ';
        }
      }
      assert NoWideEquals(s[1..]) by {
        forall i | 0 <= i && i + 2 < |s[1..]|
          ensures !(s[1..][i] == '=' && s[1..][i + 1] == ' ' && s[1..][i + 2] == ' ')
        {
          assert s[1..][i] == s[i + 1] && s[1..][i + 1] == s[i + 2] && s[1..][i + 2] == s[i + 3];
        }
      }
      CollapseIdentity(s[1..]);
      CollapseKeep(s);
      assert s == [s[0]] + s[1..];
    }
  }

  /** A match, `=` and its whole run of spaces, becomes exactly `= ` and is followed
      directly by the character that ended the run. */
  lemma {:induction false} CollapseMatchNext(s: string)
    requires s != [] && s[0] == '=' && SpaceRun(s, 1) >= 2 && 1 + SpaceRun(s, 1) < |s|
    ensures var r := CollapseAfterEquals(s);
      |r| >= 3 && r[..3] == "= " + [s[1 + SpaceRun(s, 1)]]
  {
    var rest := s[1 + SpaceRun(s, 1)..];
    CollapseMatch(s);
    CollapseHead(rest);
    var r := CollapseAfterEquals(s);
    assert r[2] == CollapseAfterEquals(rest)[0];
  }

  /** Outside a match the first character is copied. */
  lemma {:induction false} CollapseKeep(s: string)
    requires s != [] && !(s[0] == '=' && SpaceRun(s, 1) >= 2)
    ensures CollapseAfterEquals(s) == [s[0]] + CollapseAfterEquals(s[1..])
  {
  }

  // ---------------------------------------------------------------------------
  // /\)( {2,})\)/g -> ")\n$1)"
  // ---------------------------------------------------------------------------

  /** Whether `s` opens with `)`, at least two spaces and `)`; the spaces' count. */
  predicate DoubleCloseAt(s: string) {
    |s| > 0 && s[0] == ')' && SpaceRun(s, 1) >= 2 && 1 + SpaceRun(s, 1) < |s| && s[1 + SpaceRun(s, 1)] == ')'
  }

  function BreakDoubleClose(s: string): string
    decreases |s|
  {
    if s == [] then []
    else if DoubleCloseAt(s) then
      var k := SpaceRun(s, 1);
      ")" + LineEnd + s[1..1 + k] + ")" + BreakDoubleClose(s[2 + k..])
    else [s[0]] + BreakDoubleClose(s[1..])
  }

  const LineEnd: string := "\n"

  /** A text without `c` is its own `Without`. */
  lemma {:induction false} WithoutAbsent(s: string, c: char)
    requires forall i :: 0 <= i < |s| ==> s[i] != c
    ensures Without(s, c) == s
    decreases |s|
  {
    if s != [] {
      WithoutAbsent(s[1..], c);
      assert s == [s[0]] + s[1..];
    }
  }

  /** The replacement only inserts line feeds: every character of the input survives,
      in order, and nothing else is added. */
  lemma {:induction false} BreakOnlyInsertsLineFeeds(s: string)
    ensures Without(BreakDoubleClose(s), '\n') == Without(s, '\n')
    decreases |s|
  {
    if s != [] {
      BreakOnlyInsertsLineFeeds(s[BreakSkip(s)..]);
      BreakStep(s);
    }
  }

  /** One step of the replacement inserts line feeds only. */
  lemma {:induction false} BreakStep(s: string)
    requires s != []
    requires Without(BreakDoubleClose(s[BreakSkip(s)..]), '\n') == Without(s[BreakSkip(s)..], '\n')
    ensures Without(BreakDoubleClose(s), '\n') == Without(s, '\n')
  {
    if DoubleCloseAt(s) {
      BreakMatchStep(s);
    } else {
      BreakKeepStep(s);
    }
  }

  /** How many characters one step of the replacement consumes. */
  function BreakSkip(s: string): (r: nat)
    requires s != []
    ensures 1 <= r <= |s|
    ensures r > 1 <==> DoubleCloseAt(s)
  {
    if DoubleCloseAt(s) then 2 + SpaceRun(s, 1) else 1
  }

  /** Outside a match: the copied first character is kept by both sides. */
  lemma {:induction false} BreakKeepStep(s: string)
    requires s != [] && !DoubleCloseAt(s)
    requires Without(BreakDoubleClose(s[1..]), '\n') == Without(s[1..], '\n')
    ensures Without(BreakDoubleClose(s), '\n') == Without(s, '\n')
  {
    BreakKeep(s);
    WithoutAppend([s[0]], BreakDoubleClose(s[1..]), '\n');
    WithoutSplit(s, '\n');
  }

  /** At a match: the inserted line feed is the only difference. */
  lemma {:induction false} BreakMatchStep(s: string)
    requires DoubleCloseAt(s)
    requires var rest := s[2 + SpaceRun(s, 1)..]; Without(BreakDoubleClose(rest), '\n') == Without(rest, '\n')
    ensures Without(BreakDoubleClose(s), '\n') == Without(s, '\n')
  {
    var k := SpaceRun(s, 1);
    var rest := s[2 + k..];
    var spaces := s[1..1 + k];
    RunSpaces(s, spaces);
    BreakMatch(s);
    MatchPieces(s);
    MatchedText(spaces);
    WithoutAppend(")" + LineEnd + spaces + ")", BreakDoubleClose(rest), '\n');
    WithoutAppend(")" + spaces + ")", rest, '\n');
  }

  lemma {:induction false} BreakMatch(s: string)
    requires DoubleCloseAt(s)
    ensures var k := SpaceRun(s, 1);
      BreakDoubleClose(s) == ")" + LineEnd + s[1..1 + k] + ")" + BreakDoubleClose(s[2 + k..])
  {
  }

  /** A match is `)`, its spaces and `)`. */
  lemma {:induction false} MatchPieces(s: string)
    requires DoubleCloseAt(s)
    ensures var k := SpaceRun(s, 1); s == ")" + s[1..1 + k] + ")" + s[2 + k..]
  {
    var k := SpaceRun(s, 1);
    assert s == s[..1] + s[1..1 + k] + s[1 + k..2 + k] + s[2 + k..];
  }

  lemma {:induction false} RunSpaces(s: string, spaces: string)
    requires |s| >= 1 && spaces == s[1..1 + SpaceRun(s, 1)]
    ensures forall i :: 0 <= i < |spaces| ==> spaces[i] == ' '
  {
    forall i | 0 <= i < |spaces|
      ensures spaces[i] == ' '
    {
      assert spaces[i] == s[1 + i];
    }
  }

  /** Both the match and its replacement, without line feeds, are `)`, the spaces and
      `)`. */
  lemma {:induction false} MatchedText(spaces: string)
    requires forall i :: 0 <= i < |spaces| ==> spaces[i] == ' '
    ensures Without(")" + LineEnd + spaces + ")", '\n') == ")" + spaces + ")"
    ensures Without(")" + spaces + ")", '\n') == ")" + spaces + ")"
  {
    WithoutAbsent(spaces, '\n');
    WithoutAppend(")" + LineEnd + spaces, ")", '\n');
    WithoutAppend(")" + LineEnd, spaces, '\n');
    WithoutAppend(")", LineEnd, '\n');
    WithoutAppend(")" + spaces, ")", '\n');
    WithoutAppend(")", spaces, '\n');
    NoLineFeedsLiterals();
  }

  lemma {:induction false} NoLineFeedsLiterals()
    ensures Without(")", '\n') == ")" && Without(LineEnd, '\n') == []
  {
    assert ")"[1..] == [] && LineEnd[1..] == [];
    AppendEmpty(")");
  }

  /** Outside a match the first character is copied. */
  lemma {:induction false} BreakKeep(s: string)
    requires s != [] && !DoubleCloseAt(s)
    ensures BreakDoubleClose(s) == [s[0]] + BreakDoubleClose(s[1..])
  {
  }

  /** Without a `)` followed by two spaces there is nothing to replace. */
  lemma {:induction false} BreakIdentity(s: string)
    requires forall i :: 0 <= i && i + 2 < |s| ==> !(s[i] == ')' && s[i + 1] == ' ' && s[i + 2] == ' ')
    ensures BreakDoubleClose(s) == s
    decreases |s|
  {
    if s != [] {
      assert |s| >= 3 ==> !(s[0] == ')' && s[1] == ' ' && s[2] == ' ');
      assert !DoubleCloseAt(s);
      BreakIdentity(s[1..]);
    }
  }

  // ---------------------------------------------------------------------------
  // /^,(\r\n|\n|\r)/gm -> ""
  // ---------------------------------------------------------------------------

  predicate IsBreak(c: char) {
    c == '\n' || c == '\r'
  }

  /** The scan over `t`; `atLineStart` says whether the multiline `^` matches at its
      first character (the start of the input, or just after a LineTerminator). */
  function DropFrom(t: string, atLineStart: bool): string
    decreases |t|
  {
    if t == [] then []
    else if atLineStart && |t| >= 2 && t[0] == ',' && IsBreak(t[1]) then
      if |t| >= 3 && t[1] == '\r' && t[2] == '\n' then DropFrom(t[3..], true) else DropFrom(t[2..], true)
    else [t[0]] + DropFrom(t[1..], IsLineTerminator(t[0]))
  }

  function DropCommaLines(s: string): string {
    DropFrom(s, true)
  }

  /** No line of `r` opens with a comma and a line break; `atLineStart` says whether
      its first character starts a line. */
  predicate NoCommaLine(r: string, atLineStart: bool) {
    forall q {:trigger r[q]} :: 0 <= q && q + 1 < |r| && (if q == 0 then atLineStart else IsLineTerminator(r[q - 1])) ==>
      !(r[q] == ',' && IsBreak(r[q + 1]))
  }

  lemma {:induction false} DropHead(t: string, atLineStart: bool)
    requires t != [] && !atLineStart
    ensures DropFrom(t, atLineStart) != [] && DropFrom(t, atLineStart)[0] == t[0]
  {
  }

  /** Every comma line the scan meets is removed, and removing one never brings
      another to the start of a line unseen. */
  lemma {:induction false} DropLeavesNoCommaLine(t: string, atLineStart: bool)
    ensures NoCommaLine(DropFrom(t, atLineStart), atLineStart)
    decreases |t|
  {
    if t != [] {
      if atLineStart && |t| >= 2 && t[0] == ',' && IsBreak(t[1]) {
        if |t| >= 3 && t[1] == '\r' && t[2] == '\n' {
          DropLeavesNoCommaLine(t[3..], true);
        } else {
          DropLeavesNoCommaLine(t[2..], true);
        }
      } else {
        var flag := IsLineTerminator(t[0]);
        var rest := DropFrom(t[1..], flag);
        DropLeavesNoCommaLine(t[1..], flag);
        var r := [t[0]] + rest;
        assert DropFrom(t, atLineStart) == r;
        if t[0] == ',' && |t| >= 2 {
          DropHead(t[1..], flag);
        }
        assert |t| == 1 ==> rest == [];
        forall q | 0 <= q && q + 1 < |r| && (if q == 0 then atLineStart else IsLineTerminator(r[q - 1]))
          ensures !(r[q] == ',' && IsBreak(r[q + 1]))
        {
          if q == 0 {
            if t[0] == ',' {
              assert !flag;
              assert r[1] == rest[0] == t[1];
            }
          } else {
            assert r[q] == rest[q - 1] && r[q + 1] == rest[q];
            assert q > 1 ==> r[q - 1] == rest[q - 2];
            assert if q - 1 == 0 then flag else IsLineTerminator(rest[q - 2]);
            assert !(rest[q - 1] == ',' && IsBreak(rest[q]));
          }
        }
      }
    }
  }

  /** Without a comma before a line break there is nothing to remove. */
  lemma {:induction false} DropIdentity(t: string, atLineStart: bool)
    requires forall i :: 0 <= i && i + 1 < |t| ==> !(t[i] == ',' && IsBreak(t[i + 1]))
    ensures DropFrom(t, atLineStart) == t
    decreases |t|
  {
    if t != [] {
      DropIdentity(t[1..], IsLineTerminator(t[0]));
    }
  }

  /** The cleanup `convertJSXChild` applies to everything it returns. */
  function Tidy(s: string): (r: string)
    ensures NoCommaLine(r, true)
  {
    DropLeavesNoCommaLine(BreakDoubleClose(s), true);
    DropCommaLines(BreakDoubleClose(s))
  }

  /** The cleanups keep the first character unless it is a comma. */
  lemma {:induction false} TidyHead(s: string)
    requires s != [] && s[0] != ','
    ensures Tidy(s) != [] && Tidy(s)[0] == s[0]
  {
    var b := BreakDoubleClose(s);
    assert b != [] && b[0] == s[0];
  }

  /** Text in which neither rewrite finds a match: no `)` is followed by two spaces
      and no comma by a line break. */
  predicate NoRewrite(s: string) {
    && (forall i :: 0 <= i && i + 2 < |s| ==> !(s[i] == ')' && s[i + 1] == ' ' && s[i + 2] == ' '))
    && (forall i :: 0 <= i && i + 1 < |s| ==> !(s[i] == ',' && IsBreak(s[i + 1])))
  }

  /** Text with neither a `)` before two spaces nor a comma before a line break is
      left as it is. */
  lemma {:induction false} TidyIdentity(s: string)
    requires NoRewrite(s)
    ensures Tidy(s) == s
  {
    BreakIdentity(s);
    DropIdentity(s, true);
  }

  /** Text without `)` or `,` gives neither rewrite a match. */
  lemma {:induction false} NoRewritePlain(s: string)
    requires ')' !in s && ',' !in s
    ensures NoRewrite(s)
  {
    forall i | 0 <= i < |s|
      ensures s[i] != ')' && s[i] != ','
    {
      assert s[i] in s;
    }
  }

  /** Two texts can be joined without creating a match across the seam: either the
      first does not end in `)`, `,` or a space, or the second does not start with a
      space or a line break. */
  predicate Seamless(a: string, b: string) {
    || (a == [] || (a[|a| - 1] != ')' && a[|a| - 1] != ',' && a[|a| - 1] != ' '))
    || (b == [] || (b[0] != ' ' && !IsBreak(b[0])))
  }

  lemma {:induction false} NoRewriteAppend(a: string, b: string)
    requires NoRewrite(a) && NoRewrite(b) && Seamless(a, b)
    ensures NoRewrite(a + b)
  {
    var s := a + b;
    forall i | 0 <= i && i + 2 < |s|
      ensures !(s[i] == ')' && s[i + 1] == ' ' && s[i + 2] == ' ')
    {
      if i + 2 < |a| {
        assert s[i] == a[i] && s[i + 1] == a[i + 1] && s[i + 2] == a[i + 2];
      } else if i >= |a| {
        assert s[i] == b[i - |a|] && s[i + 1] == b[i + 1 - |a|] && s[i + 2] == b[i + 2 - |a|];
      } else if i + 1 == |a| {
        assert s[i] == a[|a| - 1] && s[i + 1] == b[0];
      } else {
        assert s[i] == a[|a| - 2] && s[i + 1] == a[|a| - 1] && s[i + 2] == b[0];
      }
    }
    forall i | 0 <= i && i + 1 < |s|
      ensures !(s[i] == ',' && IsBreak(s[i + 1]))
    {
      if i + 1 < |a| {
        assert s[i] == a[i] && s[i + 1] == a[i + 1];
      } else if i >= |a| {
        assert s[i] == b[i - |a|] && s[i + 1] == b[i + 1 - |a|];
      } else {
        assert s[i] == a[|a| - 1] && s[i + 1] == b[0];
      }
    }
  }

  // ---------------------------------------------------------------------------
  // What the cleanups keep at either end
  // ---------------------------------------------------------------------------

  /** A prefix without `)` holds no match of the first rewrite. */
  lemma {:induction false} BreakPrefix(p: string, s: string)
    requires ')' !in p
    ensures BreakDoubleClose(p + s) == p + BreakDoubleClose(s)
    decreases |p|
  {
    if p == [] {
      assert p + s == s;
    } else {
      assert (p + s)[0] == p[0] && (p + s)[1..] == p[1..] + s;
      BreakKeep(p + s);
      BreakPrefix(p[1..], s);
      AppendAssoc([p[0]], p[1..], BreakDoubleClose(s));
      assert [p[0]] + p[1..] == p;
    }
  }

  /** A prefix without `,` holds no match of the second rewrite. */
  lemma {:induction false} DropPrefix(p: string, u: string, atLineStart: bool)
    requires ',' !in p
    ensures var r := DropFrom(p + u, atLineStart); |r| >= |p| && r[..|p|] == p
    decreases |p|
  {
    if p != [] {
      assert (p + u)[0] == p[0] && (p + u)[1..] == p[1..] + u;
      DropPrefix(p[1..], u, IsLineTerminator(p[0]));
    }
  }

  /** Both cleanups keep a prefix that holds neither `)` nor `,`. */
  lemma {:induction false} TidyPrefix(p: string, s: string)
    requires ')' !in p && ',' !in p
    ensures |Tidy(p + s)| >= |p| && Tidy(p + s)[..|p|] == p
  {
    BreakPrefix(p, s);
    DropPrefix(p, BreakDoubleClose(s), true);
  }

  /** Extending a text does not shorten a run of spaces within it. */
  lemma {:induction false} SpaceRunAppend(s: string, t: string, i: nat)
    requires i <= |s|
    ensures SpaceRun(s + t, i) >= SpaceRun(s, i)
    ensures i + SpaceRun(s, i) < |s| ==> SpaceRun(s + t, i) == SpaceRun(s, i)
    decreases |s| - i
  {
    if i < |s| {
      assert (s + t)[i] == s[i];
      if s[i] == ' ' {
        SpaceRunAppend(s, t, i + 1);
      }
    }
  }

  /** With no `)` after it, a text starts a match exactly when it does on its own. */
  lemma {:induction false} DoubleCloseAppend(s: string, t: string)
    requires s != [] && ')' !in t
    ensures DoubleCloseAt(s + t) <==> DoubleCloseAt(s)
    ensures DoubleCloseAt(s) ==> SpaceRun(s + t, 1) == SpaceRun(s, 1)
  {
    SpaceRunAppend(s, t, 1);
    var k := SpaceRun(s + t, 1);
    assert (s + t)[0] == s[0];
    if 1 + k < |s + t| && (s + t)[1 + k] == ')' {
      assert (s + t)[1 + k] == s[1 + k];
    }
    if 1 + SpaceRun(s, 1) < |s| {
      assert (s + t)[1 + SpaceRun(s, 1)] == s[1 + SpaceRun(s, 1)];
    }
  }

  /** A suffix without `)` holds no match and ends none. */
  lemma {:induction false} BreakAppend(s: string, t: string)
    requires ')' !in t
    ensures BreakDoubleClose(s + t) == BreakDoubleClose(s) + t
    decreases |s|
  {
    if s == [] {
      assert s + t == t + [];
      BreakPrefix(t, []);
    } else {
      DoubleCloseAppend(s, t);
      var j := BreakSkip(s);
      assert (s + t)[j..] == s[j..] + t;
      BreakAppend(s[j..], t);
      if DoubleCloseAt(s) {
        var k := SpaceRun(s, 1);
        var head := ")" + LineEnd + s[1..1 + k] + ")";
        assert (s + t)[1..1 + k] == s[1..1 + k];
        BreakMatch(s);
        BreakMatch(s + t);
        AppendAssoc(head, BreakDoubleClose(s[j..]), t);
      } else {
        BreakKeep(s);
        BreakKeep(s + t);
        AppendAssoc([s[0]], BreakDoubleClose(s[1..]), t);
      }
    }
  }

  /** The first rewrite keeps a final `)`. */
  lemma {:induction false} BreakLastClose(s: string)
    requires s != [] && s[|s| - 1] == ')'
    ensures var r := BreakDoubleClose(s); r != [] && r[|r| - 1] == ')'
    decreases |s|
  {
    var j := BreakSkip(s);
    if j < |s| {
      BreakLastClose(s[j..]);
    }
    if DoubleCloseAt(s) {
      BreakMatch(s);
    } else {
      BreakKeep(s);
    }
  }

  /** The second rewrite keeps a final character that is neither a comma nor a line
      terminator. */
  lemma {:induction false} DropLast(t: string, atLineStart: bool)
    requires t != [] && t[|t| - 1] != ',' && !IsLineTerminator(t[|t| - 1])
    ensures var r := DropFrom(t, atLineStart); r != [] && r[|r| - 1] == t[|t| - 1]
    decreases |t|
  {
    if atLineStart && |t| >= 2 && t[0] == ',' && IsBreak(t[1]) {
      if |t| >= 3 && t[1] == '\r' && t[2] == '\n' {
        DropLast(t[3..], true);
      } else {
        DropLast(t[2..], true);
      }
    } else if |t| > 1 {
      DropLast(t[1..], IsLineTerminator(t[0]));
    }
  }

  /** After a character that is neither a comma nor a line terminator, the second
      rewrite treats what follows on its own, away from the start of a line. */
  lemma {:induction false} DropAppend(s: string, t: string, atLineStart: bool)
    requires s != [] && s[|s| - 1] != ',' && !IsLineTerminator(s[|s| - 1])
    ensures DropFrom(s + t, atLineStart) == DropFrom(s, atLineStart) + DropFrom(t, false)
    decreases |s|
  {
    var st := s + t;
    assert st[0] == s[0];
    if |s| == 1 {
      assert st[1..] == t;
    } else {
      assert st[1] == s[1];
      if atLineStart && s[0] == ',' && IsBreak(s[1]) {
        assert |s| >= 3;
        assert st[2] == s[2];
        var j := if s[1] == '\r' && s[2] == '\n' then 3 else 2;
        assert st[j..] == s[j..] + t;
        DropAppend(s[j..], t, true);
      } else {
        assert st[1..] == s[1..] + t;
        DropAppend(s[1..], t, IsLineTerminator(s[0]));
        AppendAssoc([s[0]], DropFrom(s[1..], IsLineTerminator(s[0])), DropFrom(t, false));
      }
    }
  }

  lemma {:induction false} DropCommaBreak()
    ensures DropFrom(",\n", false) == ",\n"
  {
    assert ",\n"[1..] == "\n";
    assert "\n"[1..] == [];
    assert DropFrom("\n", true) == "\n";
  }

  /** Both cleanups keep a final `)`, and keep a `,` and line feed written after it. */
  lemma {:induction false} TidyCloseTail(s: string)
    requires s != [] && s[|s| - 1] == ')'
    ensures var r := Tidy(s); r != [] && r[|r| - 1] == ')'
    ensures Tidy(s + ",\n") == Tidy(s) + ",\n"
  {
    var b := BreakDoubleClose(s);
    BreakLastClose(s);
    DropLast(b, true);
    BreakAppend(s, ",\n");
    DropAppend(b, ",\n", true);
    DropCommaBreak();
  }
}
