/**
 * formatMessageText: four global replaces applied in a fixed order,
 * `**x**` to strong, `*x*` to em, `` `x` `` to code, then newline to `<br>`.
 * Each of the first three is a regex `D(.*?)D`: matches are leftmost, do not
 * overlap, resume after the previous match, take the shortest group, and the
 * group never spans a line terminator because `.` does not match one.
 */
module Markup {
  import opened Strings

  /** One delimited replace: the delimiter on both sides of `(.*?)` and the tags the match becomes. */
  datatype Rule = Rule(delim: string, open: string, close: string)

  const Bold := Rule("**", "<strong>", "</strong>")
  const Italic := Rule("*", "<em>", "</em>")
  const Code := Rule("`", "<code>", "</code>")

  /** The shape of the three rules: a non-empty single-line delimiter and two distinct tags. */
  predicate WellFormed(r: Rule) {
    && r.delim != []
    && NoLineTerminator(r.delim) && NoLineTerminator(r.open) && NoLineTerminator(r.close)
    && '<' !in r.delim
    && |r.open| >= 2 && |r.close| >= 2
    && r.open[0] == '<' && r.close[0] == '<' && r.open[1] != r.close[1]
  }

  /**
   * Where the lazy group stops in `s`: the first index at which `d` occurs with no
   * line terminator before it; None when a line terminator or the end comes first.
   */
  function CloseAt(s: string, d: string): (j: Option<nat>)
    ensures j.Some? ==> j.value + |d| <= |s|
  {
    if StartsWith(s, d) then Some(0)
    else if s == [] || IsLineTerminator(s[0]) then None
    else
      match CloseAt(s[1..], d)
      case Some(j) => Some(j + 1)
      case None => None
  }

  /** When CloseAt finds a delimiter, it really is there, and no line terminator comes before it. */
  lemma {:induction false} CloseAtFound(s: string, d: string)
    requires CloseAt(s, d).Some?
    ensures OccursAt(s, d, CloseAt(s, d).value)
    ensures NoLineTerminator(s[..CloseAt(s, d).value])
  {
    if !StartsWith(s, d) {
      var v := CloseAt(s, d).value;
      CloseAtFound(s[1..], d);
      SliceOfSuffix(s, 1, v - 1, v - 1 + |d|);
      PrefixCons(s, v);
    }
  }

  /** Slicing facts, proved apart so that the recursive proofs that use them stay small. */
  lemma PrefixCons(s: string, v: nat)
    requires 1 <= v <= |s|
    ensures s[..v] == [s[0]] + s[1..][..v - 1]
  {
  }

  /** The delimiter CloseAt finds is the earliest one: the lazy group is as short as it can be. */
  lemma {:induction false} CloseAtEarliest(s: string, d: string, k: nat)
    requires CloseAt(s, d).Some? && k < CloseAt(s, d).value
    ensures !OccursAt(s, d, k)
  {
    if k > 0 {
      CloseAtEarliest(s[1..], d, k - 1);
      if k + |d| <= |s| {
        SliceOfSuffix(s, 1, k - 1, k - 1 + |d|);
      }
    }
  }

  /** CloseAt reports None only when no delimiter occurs before the end of the line. */
  lemma {:induction false} CloseAtMissing(s: string, d: string, k: nat)
    requires CloseAt(s, d).None? && k <= |s| && NoLineTerminator(s[..k])
    ensures !OccursAt(s, d, k)
  {
    if k > 0 {
      PrefixCons(s, k);
      CloseAtMissing(s[1..], d, k - 1);
      if k + |d| <= |s| {
        SliceOfSuffix(s, 1, k - 1, k - 1 + |d|);
      }
    }
  }

  /** The length of the group when a match starts at the front of `s`. */
  function Match(r: Rule, s: string): (j: Option<nat>)
    ensures j.Some? ==> |r.delim| + j.value + |r.delim| <= |s|
  {
    if StartsWith(s, r.delim) then CloseAt(s[|r.delim|..], r.delim) else None
  }

  /** The text between the delimiters of the match at the front of `s`. */
  function Group(r: Rule, s: string): string
    requires Match(r, s).Some?
  {
    s[|r.delim|..|r.delim| + Match(r, s).value]
  }

  /** What follows the match at the front of `s`. */
  function After(r: Rule, s: string): (t: string)
    requires r.delim != [] && Match(r, s).Some?
    ensures |t| < |s|
  {
    s[|r.delim| + Match(r, s).value + |r.delim|..]
  }

  /** One replace with the `g` flag: scan left to right, rewrite each match and resume after it. */
  function Pass(r: Rule, s: string): (t: string)
    requires r.delim != []
    decreases |s|
  {
    if s == [] then []
    else if Match(r, s).Some? then r.open + Group(r, s) + r.close + Pass(r, After(r, s))
    else [s[0]] + Pass(r, s[1..])
  }

  /** A match consists of the delimiter, the group, and the delimiter again. */
  lemma MatchShape(r: Rule, s: string)
    requires r.delim != [] && Match(r, s).Some?
    ensures s == r.delim + Group(r, s) + r.delim + After(r, s)
  {
    var d, j := |r.delim|, Match(r, s).value;
    CloseAtFound(s[d..], r.delim);
    SliceOfSuffix(s, d, j, j + d);
    SplitThree(s, d, d + j, d + j + d);
  }

  /** A slice of a suffix is a slice of the whole. */
  lemma SliceOfSuffix(s: string, d: nat, i: nat, k: nat)
    requires d <= |s| && i <= k <= |s| - d
    ensures s[d..][i..k] == s[d + i..d + k]
  {
  }

  /** Any three cut points split a string into four consecutive pieces. */
  lemma SplitThree(s: string, i: nat, j: nat, k: nat)
    requires i <= j <= k <= |s|
    ensures s == s[..i] + s[i..j] + s[j..k] + s[k..]
  {
    assert s[..j] == s[..i] + s[i..j];
    assert s[..k] == s[..j] + s[j..k];
    assert s == s[..k] + s[k..];
  }

  /** The last replace: every `\n` becomes `<br>`. */
  function Breaks(s: string): (t: string)
    ensures '\n' !in t
  {
    if s == [] then [] else (if s[0] == '\n' then "<br>" else [s[0]]) + Breaks(s[1..])
  }

  /** formatMessageText. */
  function Format(text: string): string {
    Breaks(Pass(Code, Pass(Italic, Pass(Bold, text))))
  }

  /** The lines of `s`: the pieces between line terminators. */
  function Lines(s: string): (ls: seq<string>)
    ensures |ls| >= 1
    ensures forall i :: 0 <= i < |ls| ==> NoLineTerminator(ls[i])
  {
    if s == [] then [[]]
    else
      var rest := Lines(s[1..]);
      if IsLineTerminator(s[0]) then [[]] + rest else [[s[0]] + rest[0]] + rest[1..]
  }

  lemma RulesWellFormed()
    ensures WellFormed(Bold) && WellFormed(Italic) && WellFormed(Code)
  {
  }

  // ---------------------------------------------------------------------------
  // A line terminator is a wall: nothing on one side affects the other

  lemma StartsWithBeforeTerminator(a: string, t: string, d: string)
    requires t != [] && IsLineTerminator(t[0]) && NoLineTerminator(d)
    ensures StartsWith(a + t, d) == StartsWith(a, d)
  {
    var s := a + t;
    if |d| <= |a| {
      assert s[..|d|] == a[..|d|];
    } else {
      assert |d| <= |s| ==> s[..|d|][|a|] == t[0];
    }
  }

  lemma {:induction false} CloseAtBeforeTerminator(a: string, t: string, d: string)
    requires t != [] && IsLineTerminator(t[0]) && NoLineTerminator(d) && d != []
    ensures CloseAt(a + t, d) == CloseAt(a, d)
  {
    var s := a + t;
    StartsWithBeforeTerminator(a, t, d);
    if a == [] {
      assert s == t;
    } else if !StartsWith(a, d) && !IsLineTerminator(a[0]) {
      assert s[0] == a[0];
      assert s[1..] == a[1..] + t;
      CloseAtBeforeTerminator(a[1..], t, d);
    }
  }

  /** What follows a line terminator cannot change the match at the front of `a`. */
  lemma MatchBeforeTerminator(r: Rule, a: string, t: string)
    requires WellFormed(r) && t != [] && IsLineTerminator(t[0])
    ensures Match(r, a + t) == Match(r, a)
  {
    var D := r.delim;
    StartsWithBeforeTerminator(a, t, D);
    if StartsWith(a, D) {
      assert (a + t)[|D|..] == a[|D|..] + t;
      CloseAtBeforeTerminator(a[|D|..], t, D);
    }
  }

  /** A pass over text that ends where `t` begins at a line terminator rewrites the two parts separately. */
  lemma {:induction false} PassBeforeTerminator(r: Rule, a: string, t: string)
    requires WellFormed(r) && t != [] && IsLineTerminator(t[0])
    ensures Pass(r, a + t) == Pass(r, a) + Pass(r, t)
    decreases |a|
  {
    MatchBeforeTerminator(r, a, t);
    if a == [] {
      assert a + t == t;
    } else if Match(r, a).Some? {
      MatchExtends(r, a, t);
      PassBeforeTerminator(r, After(r, a), t);
      PassMatchStep(r, a, t, Pass(r, t));
    } else {
      DropAppend(a, t);
      PassBeforeTerminator(r, a[1..], t);
      PassSkipStep(r, a, t, Pass(r, t));
    }
  }

  /** Dropping the first character of a concatenation drops it from the left part. */
  lemma DropAppend(a: string, t: string)
    requires a != []
    ensures (a + t)[1..] == a[1..] + t
  {
  }

  /** Text appended after a match that stays the same match leaves its group and extends what follows it. */
  lemma MatchExtends(r: Rule, a: string, t: string)
    requires r.delim != [] && Match(r, a).Some? && Match(r, a + t) == Match(r, a)
    ensures Group(r, a + t) == Group(r, a)
    ensures After(r, a + t) == After(r, a) + t
  {
    var d, j := |r.delim|, Match(r, a).value;
    assert (a + t)[d..d + j] == a[d..d + j];
    assert (a + t)[d + j + d..] == a[d + j + d..] + t;
  }

  /** The inductive step of PassBeforeTerminator when a match starts at the front of `a`. */
  lemma PassMatchStep(r: Rule, a: string, t: string, u: string)
    requires r.delim != [] && Match(r, a).Some? && Match(r, a + t) == Match(r, a)
    requires Group(r, a + t) == Group(r, a) && After(r, a + t) == After(r, a) + t
    requires Pass(r, After(r, a) + t) == Pass(r, After(r, a)) + u
    ensures Pass(r, a + t) == Pass(r, a) + u
  {
    var x := r.open + Group(r, a) + r.close;
    assert Pass(r, a + t) == x + (Pass(r, After(r, a)) + u);
  }

  /** The inductive step of PassBeforeTerminator when no match starts at the front of `a`. */
  lemma PassSkipStep(r: Rule, a: string, t: string, u: string)
    requires r.delim != [] && a != [] && Match(r, a).None? && Match(r, a + t).None?
    requires (a + t)[1..] == a[1..] + t
    requires Pass(r, a[1..] + t) == Pass(r, a[1..]) + u
    ensures Pass(r, a + t) == Pass(r, a) + u
  {
  }

  /** A match never crosses a line terminator, so a pass rewrites the two sides separately. */
  lemma PassAcrossTerminator(r: Rule, a: string, c: char, b: string)
    requires WellFormed(r) && IsLineTerminator(c)
    ensures Pass(r, a + [c] + b) == Pass(r, a) + [c] + Pass(r, b)
  {
    var t := [c] + b;
    PassBeforeTerminator(r, a, t);
    assert a + [c] + b == a + t;
    assert Pass(r, t) == [c] + Pass(r, b) by {
      assert !StartsWith(t, r.delim) by {
        assert r.delim[0] != c;
      }
      assert t[1..] == b;
    }
  }

  lemma {:induction false} PassKeepsLine(r: Rule, s: string)
    requires WellFormed(r) && NoLineTerminator(s)
    ensures NoLineTerminator(Pass(r, s))
    decreases |s|
  {
    if s != [] {
      if Match(r, s).Some? {
        PassKeepsLine(r, After(r, s));
      } else {
        PassKeepsLine(r, s[1..]);
      }
    }
  }

  lemma {:induction false} LinesAcrossTerminator(a: string, c: char, b: string)
    requires IsLineTerminator(c)
    ensures Lines(a + [c] + b) == Lines(a) + Lines(b)
  {
    if a == [] {
      assert a + [c] + b == [c] + b;
      assert ([c] + b)[1..] == b;
    } else {
      assert (a + [c] + b)[1..] == a[1..] + [c] + b;
      LinesAcrossTerminator(a[1..], c, b);
    }
  }

  lemma {:induction false} LinesOfOneLine(s: string)
    requires NoLineTerminator(s)
    ensures Lines(s) == [s]
  {
    if s != [] {
      LinesOfOneLine(s[1..]);
      assert [s[0]] + s[1..] == s;
    }
  }

  /** Each pass rewrites every line of its input on its own: the lines of the output are the rewritten lines. */
  lemma {:induction false} PassWorksLineByLine(r: Rule, s: string)
    requires WellFormed(r)
    ensures |Lines(Pass(r, s))| == |Lines(s)|
    ensures forall i :: 0 <= i < |Lines(s)| ==> Lines(Pass(r, s))[i] == Pass(r, Lines(s)[i])
    decreases |s|
  {
    if k :| 0 <= k < |s| && IsLineTerminator(s[k]) {
      var a, c, b := s[..k], s[k], s[k + 1..];
      assert s == a + [c] + b;
      PassAcrossTerminator(r, a, c, b);
      LinesAcrossTerminator(a, c, b);
      LinesAcrossTerminator(Pass(r, a), c, Pass(r, b));
      PassWorksLineByLine(r, a);
      PassWorksLineByLine(r, b);
    } else {
      assert NoLineTerminator(s);
      LinesOfOneLine(s);
      PassKeepsLine(r, s);
      LinesOfOneLine(Pass(r, s));
    }
  }

  // ---------------------------------------------------------------------------
  // What survives a pass

  /** Text without the delimiter's first character passes through unchanged. */
  lemma {:induction false} PassWithoutDelimiter(r: Rule, s: string)
    requires r.delim != [] && r.delim[0] !in s
    ensures Pass(r, s) == s
    decreases |s|
  {
    if s != [] {
      assert |r.delim| <= |s| ==> s[..|r.delim|][0] == s[0];
      PassWithoutDelimiter(r, s[1..]);
    }
  }

  /** A prefix without the delimiter's first character is copied and the pass resumes after it. */
  lemma {:induction false} PassPlainPrefix(r: Rule, p: string, t: string)
    requires r.delim != [] && r.delim[0] !in p
    ensures Pass(r, p + t) == p + Pass(r, t)
  {
    if p != [] {
      var s := p + t;
      assert |r.delim| <= |s| ==> s[..|r.delim|][0] == p[0];
      assert s[1..] == p[1..] + t;
      PassPlainPrefix(r, p[1..], t);
    } else {
      assert p + t == t;
    }
  }

  /** A star not followed by another star opens no bold match: the bold pass copies it and moves on. */
  lemma {:induction false} BoldSkipsLoneStar(t: string)
    requires t != [] && t[0] != '*'
    ensures Pass(Bold, "*" + t) == "*" + Pass(Bold, t)
  {
    var s := "*" + t;
    assert s[1] == t[0];
    assert s[1..] == t;
  }

  /** No group closes in text that lacks the delimiter's first character. */
  lemma {:induction false} CloseAtNoChar(s: string, d: string)
    requires d != [] && d[0] !in s
    ensures CloseAt(s, d).None?
  {
    if s != [] {
      assert |d| <= |s| ==> s[..|d|][0] == s[0];
      CloseAtNoChar(s[1..], d);
    }
  }

  /** A `**` with no other star after it has no closing pair: the bold pass copies it as it is. */
  lemma {:induction false} BoldCopiesDoubleStar(t: string)
    requires '*' !in t
    ensures Pass(Bold, "**" + t) == "**" + t
  {
    var s := "**" + t;
    assert s[..2] == "**" && s[2..] == t;
    CloseAtNoChar(t, "**");
    assert s[1..] == "*" + t;
    if t == [] {
      assert Pass(Bold, "*") == "*" by {
        assert "*"[1..] == [];
      }
    } else {
      BoldSkipsLoneStar(t);
      PassWithoutDelimiter(Bold, t);
    }
  }

  /** The group closes at the first delimiter when the text before it is single-line and delimiter-free. */
  lemma {:induction false} CloseAtAfterPlain(p: string, d: string, t: string)
    requires d != [] && d[0] !in p && NoLineTerminator(p)
    ensures CloseAt(p + d + t, d) == Some(|p|)
  {
    var s := p + d + t;
    if p == [] {
      assert s[..|d|] == d;
    } else {
      assert |d| <= |s| ==> s[..|d|][0] == p[0];
      assert s[0] == p[0];
      assert s[1..] == p[1..] + d + t;
      CloseAtAfterPlain(p[1..], d, t);
    }
  }

  /** A delimited span with no delimiter character inside becomes one tag pair. */
  lemma PassOnePair(r: Rule, p: string, t: string)
    requires r.delim != [] && r.delim[0] !in p && NoLineTerminator(p)
    ensures Pass(r, r.delim + p + r.delim + t) == r.open + p + r.close + Pass(r, t)
  {
    var s := r.delim + p + r.delim + t;
    var d := |r.delim|;
    assert s[..d] == r.delim;
    assert s[d..] == p + r.delim + t;
    CloseAtAfterPlain(p, r.delim, t);
    assert Group(r, s) == p;
    assert After(r, s) == t;
  }

  lemma CountCons(x: char, t: string, c: char)
    ensures Count([x] + t, c) == (if x == c then 1 else 0) + Count(t, c)
  {
    assert ([x] + t)[1..] == t;
  }

  lemma CountAround(p: string, mid: string, q: string, x: string, c: char)
    requires c !in p && c !in q
    ensures Count(p + mid + q + x, c) == Count(mid, c) + Count(x, c)
  {
    CountAppend(p + mid + q, x, c);
    CountAppend(p + mid, q, c);
    CountAppend(p, mid, c);
  }

  /** A pass neither adds nor removes a character that is not in its delimiter or tags. */
  lemma {:induction false} PassKeepsOtherCount(r: Rule, s: string, c: char)
    requires r.delim != [] && c !in r.delim && c !in r.open && c !in r.close
    ensures Count(Pass(r, s), c) == Count(s, c)
    decreases |s|
  {
    if s != [] {
      if Match(r, s).Some? {
        PassKeepsOtherCount(r, After(r, s), c);
        MatchShape(r, s);
        CountAround(r.delim, Group(r, s), r.delim, After(r, s), c);
        CountAround(r.open, Group(r, s), r.close, Pass(r, After(r, s)), c);
      } else {
        PassKeepsOtherCount(r, s[1..], c);
        CountCons(s[0], Pass(r, s[1..]), c);
      }
    }
  }

  /** On one line, a single-character pass leaves at most one delimiter: every other one was paired. */
  lemma {:induction false} SingleDelimiterLeftOnLine(r: Rule, line: string)
    requires WellFormed(r) && |r.delim| == 1 && r.delim[0] !in r.open && r.delim[0] !in r.close
    requires NoLineTerminator(line)
    ensures Count(Pass(r, line), r.delim[0]) <= 1
    decreases |line|
  {
    var D := r.delim;
    var c := D[0];
    if line != [] {
      var tail := line[1..];
      assert StartsWith(line, D) <==> line[0] == c;
      if Match(r, line).Some? {
        var mid := Group(r, line);
        assert c !in mid by {
          forall k | 0 <= k < |mid| ensures mid[k] != c {
            CloseAtEarliest(tail, D, k);
            assert tail[k..k + 1] == [mid[k]];
          }
        }
        SingleDelimiterLeftOnLine(r, After(r, line));
        CountAround(r.open, mid, r.close, Pass(r, After(r, line)), c);
      } else if line[0] == c {
        assert c !in tail by {
          forall k | 0 <= k < |tail| ensures tail[k] != c {
            assert tail[..k] == line[1..k + 1];
            CloseAtMissing(tail, D, k);
            assert tail[k..k + 1] == [tail[k]];
          }
        }
        PassWithoutDelimiter(r, tail);
        CountCons(line[0], tail, c);
      } else {
        SingleDelimiterLeftOnLine(r, tail);
        CountCons(line[0], Pass(r, tail), c);
      }
    }
  }

  /** After the italic pass, each line holds at most one `*`. */
  lemma ItalicLeavesOneStarPerLine(s: string)
    ensures forall i :: 0 <= i < |Lines(Pass(Italic, s))| ==> Count(Lines(Pass(Italic, s))[i], '*') <= 1
  {
    RulesWellFormed();
    PassWorksLineByLine(Italic, s);
    forall i | 0 <= i < |Lines(s)| ensures Count(Pass(Italic, Lines(s)[i]), '*') <= 1 {
      SingleDelimiterLeftOnLine(Italic, Lines(s)[i]);
    }
  }

  /** After the code pass, each line holds at most one `*` and at most one backtick. */
  lemma CodeLeavesOneDelimiterPerLine(s: string)
    ensures var t := Pass(Code, Pass(Italic, Pass(Bold, s)));
      forall i :: 0 <= i < |Lines(t)| ==> Count(Lines(t)[i], '*') <= 1 && Count(Lines(t)[i], '`') <= 1
  {
    RulesWellFormed();
    var u := Pass(Italic, Pass(Bold, s));
    ItalicLeavesOneStarPerLine(Pass(Bold, s));
    PassWorksLineByLine(Code, u);
    forall i | 0 <= i < |Lines(u)|
      ensures Count(Pass(Code, Lines(u)[i]), '*') <= 1 && Count(Pass(Code, Lines(u)[i]), '`') <= 1
    {
      PassKeepsOtherCount(Code, Lines(u)[i], '*');
      SingleDelimiterLeftOnLine(Code, Lines(u)[i]);
    }
  }

  // ---------------------------------------------------------------------------
  // formatMessageText as a whole

  lemma {:induction false} BreaksAppend(a: string, b: string)
    ensures Breaks(a + b) == Breaks(a) + Breaks(b)
  {
    if a == [] {
      assert a + b == b;
    } else {
      var head := if a[0] == '\n' then "<br>" else [a[0]];
      assert Breaks(a + b) == head + Breaks(a[1..] + b) by {
        assert (a + b)[0] == a[0];
        assert (a + b)[1..] == a[1..] + b;
      }
      BreaksAppend(a[1..], b);
      assert Breaks(a) == head + Breaks(a[1..]);
    }
  }

  lemma {:induction false} BreaksWithoutNewline(s: string)
    requires '\n' !in s
    ensures Breaks(s) == s
  {
    if s != [] {
      BreaksWithoutNewline(s[1..]);
      assert [s[0]] + s[1..] == s;
    }
  }

  /** Every input newline becomes exactly one `<br>`, and the text on either side is formatted on its own. */
  lemma FormatSplitsAtNewline(a: string, b: string)
    ensures Format(a + "\n" + b) == Format(a) + "<br>" + Format(b)
  {
    RulesWellFormed();
    var c := '\n';
    assert a + "\n" + b == a + [c] + b;
    PassAcrossTerminator(Bold, a, c, b);
    PassAcrossTerminator(Italic, Pass(Bold, a), c, Pass(Bold, b));
    PassAcrossTerminator(Code, Pass(Italic, Pass(Bold, a)), c, Pass(Italic, Pass(Bold, b)));
    var x, y := Pass(Code, Pass(Italic, Pass(Bold, a))), Pass(Code, Pass(Italic, Pass(Bold, b)));
    BreaksAppend(x + [c], y);
    BreaksAppend(x, [c]);
    assert Breaks([c]) == "<br>";
  }

  /** Text with no `*`, no backtick and no newline is returned unchanged. */
  lemma FormatPlainText(s: string)
    requires '*' !in s && '`' !in s && '\n' !in s
    ensures Format(s) == s
  {
    PassWithoutDelimiter(Bold, s);
    PassWithoutDelimiter(Italic, s);
    PassWithoutDelimiter(Code, s);
    BreaksWithoutNewline(s);
  }

  // ---------------------------------------------------------------------------
  // A pass loses nothing: erasing its tags gives back its input

  /** Turns each of the rule's tags back into its delimiter. */
  function Unpass(r: Rule, t: string): string
    requires |r.open| > 0 && |r.close| > 0
    decreases |t|
  {
    if t == [] then []
    else if StartsWith(t, r.open) then r.delim + Unpass(r, t[|r.open|..])
    else if StartsWith(t, r.close) then r.delim + Unpass(r, t[|r.close|..])
    else [t[0]] + Unpass(r, t[1..])
  }

  lemma UnpassOpen(r: Rule, x: string)
    requires WellFormed(r)
    ensures Unpass(r, r.open + x) == r.delim + Unpass(r, x)
  {
    assert (r.open + x)[..|r.open|] == r.open;
    assert (r.open + x)[|r.open|..] == x;
  }

  lemma UnpassClose(r: Rule, x: string)
    requires WellFormed(r)
    ensures Unpass(r, r.close + x) == r.delim + Unpass(r, x)
  {
    var t := r.close + x;
    assert |r.open| <= |t| ==> t[..|r.open|][1] == r.close[1];
    assert t[..|r.close|] == r.close;
    assert t[|r.close|..] == x;
  }

  lemma UnpassCons(r: Rule, ch: char, x: string)
    requires WellFormed(r) && ch != '<'
    ensures Unpass(r, [ch] + x) == [ch] + Unpass(r, x)
  {
    var t := [ch] + x;
    assert |r.open| <= |t| ==> t[..|r.open|][0] == ch;
    assert |r.close| <= |t| ==> t[..|r.close|][0] == ch;
    assert t[1..] == x;
  }

  lemma {:induction false} UnpassPlain(r: Rule, x: string, t: string)
    requires WellFormed(r) && '<' !in x
    ensures Unpass(r, x + t) == x + Unpass(r, t)
  {
    if x != [] {
      assert x + t == [x[0]] + (x[1..] + t);
      UnpassCons(r, x[0], x[1..] + t);
      UnpassPlain(r, x[1..], t);
    } else {
      assert x + t == t;
    }
  }

  /** Erasing the tags of one rewritten match gives back the delimiters. */
  lemma UnpassTagged(r: Rule, mid: string, t: string)
    requires WellFormed(r) && '<' !in mid
    ensures Unpass(r, r.open + mid + r.close + t) == r.delim + mid + r.delim + Unpass(r, t)
  {
    assert r.open + mid + r.close + t == r.open + (mid + (r.close + t));
    UnpassOpen(r, mid + (r.close + t));
    UnpassPlain(r, mid, r.close + t);
    UnpassClose(r, t);
    assert r.delim + (mid + (r.delim + Unpass(r, t))) == r.delim + mid + r.delim + Unpass(r, t);
  }

  /** For text without `<`, a pass can be undone: the tags mark exactly the delimiters it consumed. */
  lemma {:induction false} PassRoundTrip(r: Rule, s: string)
    requires WellFormed(r) && '<' !in s
    ensures Unpass(r, Pass(r, s)) == s
    decreases |s|
  {
    if s != [] {
      if Match(r, s).Some? {
        var mid := Group(r, s);
        MatchShape(r, s);
        assert '<' !in mid by {
          forall k | 0 <= k < |mid| ensures mid[k] != '<' { assert mid[k] == s[|r.delim| + k]; }
        }
        PassRoundTrip(r, After(r, s));
        UnpassTagged(r, mid, Pass(r, After(r, s)));
      } else {
        PassRoundTrip(r, s[1..]);
        UnpassCons(r, s[0], Pass(r, s[1..]));
      }
    }
  }
}
