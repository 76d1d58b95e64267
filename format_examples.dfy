/**
 * Worked examples of formatMessageText, stated for every plain filler text
 * rather than for one literal string.
 */
module FormatExamples {
  import opened Strings
  import opened Markup

  /** Text that none of the four replaces touches: no star, no backtick, no line terminator. */
  predicate Plain(s: string) {
    '*' !in s && '`' !in s && NoLineTerminator(s)
  }

  lemma PlainAppend(a: string, b: string)
    requires Plain(a) && Plain(b)
    ensures Plain(a + b)
  {
  }

  lemma TagsPlain()
    ensures Plain(Bold.open) && Plain(Bold.close)
    ensures Plain(Italic.open) && Plain(Italic.close)
    ensures Plain(Code.open) && Plain(Code.close)
  {
    RulesWellFormed();
  }

  /** Plain text wrapped in one rule's tags is still plain. */
  lemma TaggedPlain(r: Rule, x: string)
    requires r == Bold || r == Italic || r == Code
    requires Plain(x)
    ensures Plain(r.open + x + r.close)
  {
    TagsPlain();
    PlainAppend(r.open, x);
    PlainAppend(r.open + x, r.close);
  }

  lemma BreaksOnPlain(s: string)
    requires Plain(s)
    ensures Breaks(s) == s
  {
    assert '\n' !in s by {
      assert IsLineTerminator('\n');
    }
    BreaksWithoutNewline(s);
  }

  /** Four stars with nothing between them are an empty bold match. */
  lemma EmptyBold()
    ensures Pass(Bold, "****") == "<strong></strong>"
  {
    assert CloseAt("**", "**") == Some(0);
  }

  lemma BoldPassInsideCode(x: string)
    requires Plain(x)
    ensures Pass(Bold, Code.delim + Bold.delim + x + Bold.delim + Code.delim)
         == Code.delim + (Bold.open + x + Bold.close) + Code.delim
  {
    var s := Code.delim + Bold.delim + x + Bold.delim + Code.delim;
    assert s == Code.delim + (Bold.delim + x + Bold.delim + Code.delim);
    PassPlainPrefix(Bold, Code.delim, Bold.delim + x + Bold.delim + Code.delim);
    PassOnePair(Bold, x, Code.delim);
    PassWithoutDelimiter(Bold, Code.delim);
  }

  /** `` `**x**` ``: the bold pass runs first, and the code pass then wraps its output. */
  lemma BoldInsideCode(x: string)
    requires Plain(x)
    ensures Format(Code.delim + Bold.delim + x + Bold.delim + Code.delim)
         == Code.open + (Bold.open + x + Bold.close) + Code.close
  {
    var g := Bold.open + x + Bold.close;
    var s1 := Code.delim + g + Code.delim;
    var s3 := Code.open + g + Code.close;
    TaggedPlain(Bold, x);
    assert Pass(Bold, Code.delim + Bold.delim + x + Bold.delim + Code.delim) == s1 by {
      BoldPassInsideCode(x);
    }
    assert Pass(Italic, s1) == s1 by {
      PassWithoutDelimiter(Italic, s1);
    }
    assert Pass(Code, s1) == s3 by {
      assert s1 == Code.delim + g + Code.delim + [];
      PassOnePair(Code, g, []);
    }
    assert Breaks(s3) == s3 by {
      TaggedPlain(Code, g);
      BreaksOnPlain(s3);
    }
  }

  // ---------------------------------------------------------------------------
  // A line with all three kinds of markup, then a second line

  /** The bold pass copies an italic pair `*b*` around non-empty star-free text. */
  lemma {:induction false} BoldCopiesStarPair(b: string, t: string)
    requires b != [] && '*' !in b && t != [] && t[0] != '*'
    ensures Pass(Bold, Italic.delim + b + Italic.delim + t) == Italic.delim + b + Italic.delim + Pass(Bold, t)
  {
    var u := "*" + t;
    calc {
      Pass(Bold, Italic.delim + b + Italic.delim + t);
      { assert Italic.delim + b + Italic.delim + t == "*" + (b + u); }
      Pass(Bold, "*" + (b + u));
      { assert (b + u)[0] == b[0]; BoldSkipsLoneStar(b + u); }
      "*" + Pass(Bold, b + u);
      { PassPlainPrefix(Bold, b, u); }
      "*" + (b + Pass(Bold, u));
      { BoldSkipsLoneStar(t); }
      "*" + (b + ("*" + Pass(Bold, t)));
      Italic.delim + b + Italic.delim + Pass(Bold, t);
    }
  }

  /** The bold pass rewrites the leading pair and copies the italic pair and the backticks after it. */
  lemma MixedBold(a: string, b: string, c: string)
    requires Plain(a) && Plain(b) && Plain(c)
    ensures Pass(Bold, Bold.delim + a + Bold.delim + (" " + (Italic.delim + b + Italic.delim + (" " + (Code.delim + c + Code.delim)))))
         == Bold.open + a + Bold.close + (" " + (Italic.delim + b + Italic.delim + (" " + (Code.delim + c + Code.delim))))
  {
    var v := " " + (Code.delim + c + Code.delim);
    PassOnePair(Bold, a, " " + (Italic.delim + b + Italic.delim + v));
    PassPlainPrefix(Bold, " ", Italic.delim + b + Italic.delim + v);
    if b == [] {
      assert Italic.delim + b + Italic.delim + v == "**" + v;
      BoldCopiesDoubleStar(v);
    } else {
      BoldCopiesStarPair(b, v);
      PassWithoutDelimiter(Bold, v);
    }
  }

  /** The italic pass then pairs the two stars around `b`. */
  lemma MixedItalic(a: string, b: string, c: string)
    requires Plain(a) && Plain(b) && Plain(c)
    ensures Pass(Italic, Bold.open + a + Bold.close + (" " + (Italic.delim + b + Italic.delim + (" " + (Code.delim + c + Code.delim)))))
         == Bold.open + a + Bold.close + (" " + (Italic.open + b + Italic.close + (" " + (Code.delim + c + Code.delim))))
  {
    var v := " " + (Code.delim + c + Code.delim);
    TaggedPlain(Bold, a);
    PassPlainPrefix(Italic, Bold.open + a + Bold.close, " " + (Italic.delim + b + Italic.delim + v));
    PassPlainPrefix(Italic, " ", Italic.delim + b + Italic.delim + v);
    PassOnePair(Italic, b, v);
    PassWithoutDelimiter(Italic, v);
  }

  /** The code pass finally pairs the two backticks around `c`. */
  lemma MixedCode(a: string, b: string, c: string)
    requires Plain(a) && Plain(b) && Plain(c)
    ensures Pass(Code, Bold.open + a + Bold.close + (" " + (Italic.open + b + Italic.close + (" " + (Code.delim + c + Code.delim)))))
         == Bold.open + a + Bold.close + (" " + (Italic.open + b + Italic.close + (" " + (Code.open + c + Code.close))))
  {
    TaggedPlain(Bold, a);
    TaggedPlain(Italic, b);
    PassPlainPrefix(Code, Bold.open + a + Bold.close, " " + (Italic.open + b + Italic.close + (" " + (Code.delim + c + Code.delim))));
    PassPlainPrefix(Code, " ", Italic.open + b + Italic.close + (" " + (Code.delim + c + Code.delim)));
    PassPlainPrefix(Code, Italic.open + b + Italic.close, " " + (Code.delim + c + Code.delim));
    PassPlainPrefix(Code, " ", Code.delim + c + Code.delim);
    assert Code.delim + c + Code.delim == Code.delim + c + Code.delim + [];
    PassOnePair(Code, c, []);
  }

  /**
   * `**a** *b* `c`` and a second line `d`: each kind of markup gets its own tag
   * pair, the spaces between them stay, and the newline becomes `<br>`.
   */
  lemma MixedLine(a: string, b: string, c: string, d: string)
    requires Plain(a) && Plain(b) && Plain(c) && Plain(d)
    ensures Format(Bold.delim + a + Bold.delim + (" " + (Italic.delim + b + Italic.delim + (" " + (Code.delim + c + Code.delim)))) + "\n" + d)
         == Bold.open + a + Bold.close + (" " + (Italic.open + b + Italic.close + (" " + (Code.open + c + Code.close)))) + "<br>" + d
  {
    var line := Bold.delim + a + Bold.delim + (" " + (Italic.delim + b + Italic.delim + (" " + (Code.delim + c + Code.delim))));
    var out := Bold.open + a + Bold.close + (" " + (Italic.open + b + Italic.close + (" " + (Code.open + c + Code.close))));
    FormatSplitsAtNewline(line, d);
    MixedBold(a, b, c);
    MixedItalic(a, b, c);
    MixedCode(a, b, c);
    assert Breaks(out) == out by {
      TaggedPlain(Bold, a);
      TaggedPlain(Italic, b);
      TaggedPlain(Code, c);
      PlainAppend(" ", Code.open + c + Code.close);
      PlainAppend(Italic.open + b + Italic.close, " " + (Code.open + c + Code.close));
      PlainAppend(" ", Italic.open + b + Italic.close + (" " + (Code.open + c + Code.close)));
      PlainAppend(Bold.open + a + Bold.close, " " + (Italic.open + b + Italic.close + (" " + (Code.open + c + Code.close))));
      BreaksOnPlain(out);
    }
    BreaksOnPlain(d);
    FormatPlainText(d);
  }
}
