/** The line-ending normalisation applied to the bundled merge script before
    it is staged: `replace("\r\n", "\n")`, one left-to-right pass that
    replaces non-overlapping occurrences. */
module LineEndings {

  /** Number of positions at which a carriage return is directly followed by a line feed. */
  function CrlfCount(s: string): nat
  {
    if |s| < 2 then 0
    else (if s[0] == '\r' && s[1] == '\n' then 1 else 0) + CrlfCount(s[1..])
  }

  /** Number of positions at which "\r\r\n" starts. */
  function CrCrlfCount(s: string): nat
  {
    if |s| < 3 then 0
    else (if s[0] == '\r' && s[1] == '\r' && s[2] == '\n' then 1 else 0) + CrCrlfCount(s[1..])
  }

  lemma CrlfCountAfterLineFeed(s: string)
    requires |s| >= 1 && s[0] == '\n'
    ensures CrlfCount(s) == CrlfCount(s[1..])
  {
  }

  /** The result is one character shorter for every replaced pair, and is the
      input itself exactly when there is no pair to replace. */
  function NormaliseLineEndings(s: string): (r: string)
    ensures |r| + CrlfCount(s) == |s|
    ensures r == s <==> CrlfCount(s) == 0
  {
    if |s| < 2 then s
    else if s[0] == '\r' && s[1] == '\n' then
      CrlfCountAfterLineFeed(s[1..]);
      assert s[1..][1..] == s[2..];
      "\n" + NormaliseLineEndings(s[2..])
    else
      assert s == [s[0]] + s[1..];
      [s[0]] + NormaliseLineEndings(s[1..])
  }

  /** The result is the input with exactly one carriage return taken out per
      replaced pair: every character but the carriage return keeps its count. */
  lemma {:induction false} CountsPerCharacter(s: string, c: char)
    ensures multiset(NormaliseLineEndings(s))[c] + (if c == '\r' then CrlfCount(s) else 0) == multiset(s)[c]
  {
    if |s| < 2 {
    } else if s[0] == '\r' && s[1] == '\n' {
      CountsPerCharacter(s[2..], c);
      PairAtFront(s);
      ConsCount('\n', NormaliseLineEndings(s[2..]), c);
    } else {
      CountsPerCharacter(s[1..], c);
      OtherAtFront(s);
      ConsCount(s[0], NormaliseLineEndings(s[1..]), c);
    }
  }

  /** What one replaced pair at the front contributes. */
  lemma PairAtFront(s: string)
    requires |s| >= 2 && s[0] == '\r' && s[1] == '\n'
    ensures CrlfCount(s) == CrlfCount(s[2..]) + 1
    ensures NormaliseLineEndings(s) == ['\n'] + NormaliseLineEndings(s[2..])
    ensures multiset(s) == multiset{'\r'} + multiset{'\n'} + multiset(s[2..])
  {
    CrlfCountAfterLineFeed(s[1..]);
    assert s[1..][1..] == s[2..];
    assert s == ['\r'] + ['\n'] + s[2..];
  }

  /** What one kept character at the front contributes. */
  lemma OtherAtFront(s: string)
    requires |s| >= 2 && !(s[0] == '\r' && s[1] == '\n')
    ensures CrlfCount(s) == CrlfCount(s[1..])
    ensures NormaliseLineEndings(s) == [s[0]] + NormaliseLineEndings(s[1..])
    ensures multiset(s) == multiset{s[0]} + multiset(s[1..])
  {
    assert s == [s[0]] + s[1..];
  }

  lemma ConsCount(x: char, t: string, c: char)
    ensures multiset([x] + t)[c] == (if x == c then 1 else 0) + multiset(t)[c]
  {
    assert multiset([x] + t) == multiset{x} + multiset(t);
  }

  /** Character counts: line feeds are all kept, carriage returns drop by the
      number of replaced pairs, every other character is untouched. */
  lemma CharacterCounts(s: string, c: char)
    ensures multiset(NormaliseLineEndings(s))['\n'] == multiset(s)['\n']
    ensures multiset(NormaliseLineEndings(s))['\r'] + CrlfCount(s) == multiset(s)['\r']
    ensures c != '\r' ==> multiset(NormaliseLineEndings(s))[c] == multiset(s)[c]
  {
    CountsPerCharacter(s, '\n');
    CountsPerCharacter(s, '\r');
    CountsPerCharacter(s, c);
  }

  /** The first character of the normalised text is a line feed exactly when
      the text starts with a line feed or with a carriage return and line feed. */
  lemma {:induction false} LeadingLineFeed(s: string)
    requires |s| >= 1
    ensures |NormaliseLineEndings(s)| >= 1
    ensures NormaliseLineEndings(s)[0] == '\n' <==> s[0] == '\n' || (|s| >= 2 && s[0] == '\r' && s[1] == '\n')
  {
  }

  /** A carriage-return/line-feed pair survives normalisation once for every
      "\r\r\n" in the input, and for nothing else. */
  lemma {:induction false} SurvivingPairs(s: string)
    ensures CrlfCount(NormaliseLineEndings(s)) == CrCrlfCount(s)
  {
    if |s| < 2 {
    } else if s[0] == '\r' && s[1] == '\n' {
      var rest := NormaliseLineEndings(s[2..]);
      SurvivingPairs(s[2..]);
      CrlfCountAfterLineFeed("\n" + rest);
      assert ("\n" + rest)[1..] == rest;
      assert s[1..][1..] == s[2..];
    } else {
      var rest := NormaliseLineEndings(s[1..]);
      SurvivingPairs(s[1..]);
      var r := [s[0]] + rest;
      if |rest| == 0 {
      } else {
        LeadingLineFeed(s[1..]);
        assert r[1..] == rest;
      }
    }
  }

  /** Normalising twice gives the same text as normalising once exactly when
      the input has no "\r\r\n". */
  lemma NormaliseIdempotentIff(s: string)
    ensures NormaliseLineEndings(NormaliseLineEndings(s)) == NormaliseLineEndings(s) <==> CrCrlfCount(s) == 0
  {
    SurvivingPairs(s);
  }

  /** The smallest input on which a second pass changes the text. */
  lemma CrlfReplaceNotIdempotent()
    ensures NormaliseLineEndings("\r\r\n") == "\r\n"
    ensures NormaliseLineEndings(NormaliseLineEndings("\r\r\n")) == "\n"
  {
    assert "\r\r\n"[1..] == "\r\n";
    assert "\r\n"[2..] == "";
  }
}
