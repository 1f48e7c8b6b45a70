/** The trailing-newline trim of examples/t-paste.rs:33-34:
    `Regex::new(r"\r?\n?$").replace(&output, "")`. The pattern is modelled
    by its own matching rules (each `?` may take its character or not, `$`
    without the multi-line flag matches only at the end of the text) and
    `replace` by the leftmost match; the result is then proved equal to a
    plain "strip one line terminator" definition. */
module TrailingTerminator {

  /** `$`: only the end of the text. */
  predicate EndAnchor(s: string, k: nat) {
    k == |s|
  }

  /** `\n?$`, tried at position `j`. */
  predicate LfThenEnd(s: string, j: nat) {
    (j < |s| && s[j] == '\n' && EndAnchor(s, j + 1)) || EndAnchor(s, j)
  }

  /** `\r?\n?$`, tried at position `i`. */
  predicate PatternAt(s: string, i: nat) {
    (i < |s| && s[i] == '\r' && LfThenEnd(s, i + 1)) || LfThenEnd(s, i)
  }

  /** The leftmost position at or after `i` where the pattern matches. The
      search always succeeds, at the latest with the empty match at the end. */
  function LeftmostFrom(s: string, i: nat): (k: nat)
    requires i <= |s|
    ensures i <= k <= |s| && PatternAt(s, k)
    ensures forall j :: i <= j < k ==> !PatternAt(s, j)
    decreases |s| - i
  {
    if PatternAt(s, i) then i else LeftmostFrom(s, i + 1)
  }

  /** The text matched by the pattern wherever it matches: one of the four
      possible line-terminator tails. */
  lemma PatternAtMeans(s: string, i: nat)
    requires i <= |s|
    ensures PatternAt(s, i) <==> s[i..] in {"", "\r", "\n", "\r\n"}
  {
    if i + 2 == |s| {
      assert s[i..] == [s[i], s[i + 1]];
    } else if i + 1 == |s| {
      assert s[i..] == [s[i]];
    } else if i + 2 < |s| {
      var tail := s[i..];
      assert |tail| > 2;
      assert tail != "" && tail != "\r" && tail != "\n" && tail != "\r\n";
    } else {
      assert s[i..] == "";
    }
  }

  /** `rx.replace(&output, "")`: the leftmost match runs to the end of the
      text, so replacing it by nothing keeps what comes before it. The
      result is a prefix of the input, at most two characters shorter, and
      what it drops is a single line terminator or nothing. */
  function Trim(s: string): (r: string)
    ensures r <= s && |s| <= |r| + 2
    ensures s[|r|..] in {"", "\r", "\n", "\r\n"}
  {
    var k := LeftmostFrom(s, 0);
    PatternAtMeans(s, k);
    s[..k]
  }

  /** Reference definition: drop a trailing "\r\n", otherwise one trailing
      "\n" or "\r", otherwise nothing. */
  function StripOneTerminator(s: string): string {
    if |s| >= 2 && s[|s| - 2] == '\r' && s[|s| - 1] == '\n' then s[..|s| - 2]
    else if |s| >= 1 && (s[|s| - 1] == '\n' || s[|s| - 1] == '\r') then s[..|s| - 1]
    else s
  }

  /** The regex replacement and the reference definition agree on every
      text. */
  lemma {:induction false} TrimIsStrip(s: string)
    ensures Trim(s) == StripOneTerminator(s)
  {
    var k := LeftmostFrom(s, 0);
    var n := |s|;
    var e := if n >= 2 && s[n - 2] == '\r' && s[n - 1] == '\n' then n - 2
             else if n >= 1 && (s[n - 1] == '\n' || s[n - 1] == '\r') then n - 1
             else n;
    assert PatternAt(s, e);
    PatternAtMeans(s, k);
    PatternAtMeans(s, e);
  }

  /** The trim removes something exactly when the text ends in a carriage
      return or a line feed. */
  lemma {:induction false} TrimUnchangedIff(s: string)
    ensures Trim(s) == s <==> (s == [] || (s[|s| - 1] != '\r' && s[|s| - 1] != '\n'))
  {
    TrimIsStrip(s);
  }

  /** The terminator PowerShell appends to its output is removed, and only
      it: whatever line breaks the clipboard text itself ends with survive. */
  lemma {:induction false} ShellTerminatorRoundTrip(x: string)
    ensures Trim(x + "\r\n") == x
    ensures Trim(x + "\r") == x
    ensures Trim(x + "\n\n") == x + "\n"
  {
    TrimIsStrip(x + "\r\n");
    assert (x + "\r\n")[..|x|] == x;
    TrimIsStrip(x + "\r");
    assert (x + "\r")[..|x|] == x;
    TrimIsStrip(x + "\n\n");
    assert (x + "\n\n")[..|x| + 1] == x + "\n";
  }

  /** A lone trailing "\n" is removed without loss unless the text before
      it ends in "\r", which the same match then takes as well. */
  lemma {:induction false} LfRoundTripIff(x: string)
    ensures Trim(x + "\n") == x <==> (x == [] || x[|x| - 1] != '\r')
  {
    TrimIsStrip(x + "\n");
    assert (x + "\n")[..|x|] == x;
    if x != [] && x[|x| - 1] == '\r' {
      assert |Trim(x + "\n")| == |x| - 1;
    }
  }

  /** Three sample texts. */
  lemma TrimExamples()
    ensures Trim("hello\r\n") == "hello"
    ensures Trim("hello\n\n") == "hello\n"
    ensures Trim("hello") == "hello"
  {
  }
}
