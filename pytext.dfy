/**
 * The Python 2 `str` operations the mapper relies on: `rstrip()`,
 * `split(sep)` and `split(sep, 1)` unpacked into two names.
 */
module PyText {
  import opened Results

  /** `ch.isspace()` for one character of a byte string. */
  predicate IsSpace(ch: char) {
    ch == ' ' || ch == '\t' || ch == '\n' || ch == '\r' || ch == '\U{000B}' || ch == '\U{000C}'
  }

  /** `s.rstrip()`: `s` without its trailing whitespace. */
  function RStrip(s: string): (r: string)
    ensures |r| <= |s|
    decreases |s|
  {
    if |s| > 0 && IsSpace(s[|s| - 1]) then RStrip(s[..|s| - 1]) else s
  }

  /**
   * RStrip keeps a prefix of `s` that is empty or ends in a non-whitespace
   * character, and removes only whitespace.
   */
  lemma {:induction false} RStripSpec(s: string)
    ensures RStrip(s) == s[..|RStrip(s)|]
    ensures RStrip(s) == [] || !IsSpace(RStrip(s)[|RStrip(s)| - 1])
    ensures forall i :: |RStrip(s)| <= i < |s| ==> IsSpace(s[i])
    decreases |s|
  {
    if |s| > 0 && IsSpace(s[|s| - 1]) {
      var s' := s[..|s| - 1];
      RStripSpec(s');
      assert RStrip(s) == RStrip(s');
      assert s'[..|RStrip(s')|] == s[..|RStrip(s')|];
      assert forall i :: |RStrip(s')| <= i < |s'| ==> s'[i] == s[i];
    }
  }

  /** RStrip is the only split of `s` into a prefix not ending in whitespace and a whitespace tail. */
  lemma RStripUnique(s: string, t: string, w: string)
    requires s == t + w
    requires t == [] || !IsSpace(t[|t| - 1])
    requires forall i :: 0 <= i < |w| ==> IsSpace(w[i])
    ensures RStrip(s) == t
  {
    RStripSpec(s);
    assert t == s[..|t|];
  }

  /** Stripping twice strips nothing more. */
  lemma RStripIdempotent(s: string)
    ensures RStrip(RStrip(s)) == RStrip(s)
  {
    RStripSpec(s);
    RStripUnique(RStrip(s), RStrip(s), "");
  }

  /** Trailing whitespace, such as a line break, makes no difference to RStrip. */
  lemma RStripAppendSpace(s: string, w: string)
    requires forall i :: 0 <= i < |w| ==> IsSpace(w[i])
    ensures RStrip(s + w) == RStrip(s)
  {
    RStripSpec(s);
    var t := RStrip(s);
    var w1 := s[|t|..];
    assert s == t + w1;
    assert s + w == t + (w1 + w);
    RStripUnique(s + w, t, w1 + w);
  }

  /** Index of the first occurrence of `c` in `s`. */
  function IndexOf(s: string, c: char): (r: Option<nat>)
    ensures r.None? <==> c !in s
    ensures r.Some? ==> r.value < |s| && s[r.value] == c && c !in s[..r.value]
  {
    if |s| == 0 then None
    else if s[0] == c then Some(0)
    else match IndexOf(s[1..], c)
      case None => None
      case Some(i) =>
        assert s[..i + 1] == [s[0]] + s[1..][..i];
        Some(i + 1)
  }

  /**
   * `a, b = s.split(c, 1)`: the text before the first `c` and the text after it;
   * None where Python raises ValueError because `s` holds no `c`.
   */
  function SplitOnce(s: string, c: char): (r: Option<(string, string)>)
    ensures r.None? <==> c !in s
    ensures r.Some? ==> c !in r.value.0
  {
    match IndexOf(s, c)
    case None => None
    case Some(i) => Some((s[..i], s[i + 1..]))
  }

  /** The two parts rejoined by `c` give back `s`. */
  lemma SplitOnceSpec(s: string, c: char)
    requires c in s
    ensures SplitOnce(s, c).value.0 + [c] + SplitOnce(s, c).value.1 == s
  {
    var i := IndexOf(s, c).value;
    assert s[..i] + [c] + s[i + 1..] == s;
  }

  /** The pair SplitOnce returns is the only one with a `c`-free first part. */
  lemma SplitOnceUnique(s: string, c: char, a: string, b: string)
    requires c !in a && s == a + [c] + b
    ensures SplitOnce(s, c) == Some((a, b))
  {
    assert s[|a|] == c;
    var i := IndexOf(s, c).value;
    assert s[..i] == a;
    assert s[i + 1..] == b;
  }

  /** Text before the first `c`, or all of `s` when it holds none: `s.split(c)[0]`. */
  function Before(s: string, c: char): string {
    match SplitOnce(s, c)
    case None => s
    case Some(p) => p.0
  }

  /** Text after the first `c`. */
  function After(s: string, c: char): string
    requires c in s
  {
    SplitOnce(s, c).value.1
  }

  /** `s.split(c)`: the pieces of `s` between the occurrences of `c`; never empty. */
  function Split(s: string, c: char): (r: seq<string>)
    ensures |r| >= 1
  {
    if |s| == 0 then [""]
    else
      var rest := Split(s[1..], c);
      if s[0] == c then [""] + rest
      else [[s[0]] + rest[0]] + rest[1..]
  }

  /** `c.join(pieces)` */
  function Join(pieces: seq<string>, c: char): string {
    if |pieces| == 0 then ""
    else if |pieces| == 1 then pieces[0]
    else pieces[0] + [c] + Join(pieces[1..], c)
  }

  /** A string with no `c` splits into itself alone. */
  lemma {:induction false} SplitAbsent(s: string, c: char)
    requires c !in s
    ensures Split(s, c) == [s]
  {
    if |s| > 0 {
      SplitAbsent(s[1..], c);
      assert [s[0]] + s[1..] == s;
    }
  }

  /** Splitting peels off the text before the first `c`, then splits what follows it. */
  lemma {:induction false} SplitFirst(s: string, c: char)
    requires c in s
    ensures Split(s, c) == [SplitOnce(s, c).value.0] + Split(SplitOnce(s, c).value.1, c)
  {
    var (a, b) := SplitOnce(s, c).value;
    if s[0] == c {
      SplitOnceUnique(s, c, "", s[1..]);
    } else {
      assert c in s[1..] by {
        var i :| 0 <= i < |s| && s[i] == c;
        assert s[1..][i - 1] == c;
      }
      SplitFirst(s[1..], c);
      var (a', b') := SplitOnce(s[1..], c).value;
      assert s == [s[0]] + a' + [c] + b';
      SplitOnceUnique(s, c, [s[0]] + a', b');
    }
  }

  /** No piece of a split holds the separator. */
  lemma {:induction false} SplitPiecesFree(s: string, c: char)
    ensures forall k :: 0 <= k < |Split(s, c)| ==> c !in Split(s, c)[k]
    decreases |s|
  {
    if c !in s {
      SplitAbsent(s, c);
    } else {
      SplitFirst(s, c);
      var b := SplitOnce(s, c).value.1;
      SplitPiecesFree(b, c);
    }
  }

  /** Joining the pieces with the separator gives back the string. */
  lemma {:induction false} SplitJoin(s: string, c: char)
    ensures Join(Split(s, c), c) == s
    decreases |s|
  {
    if c !in s {
      SplitAbsent(s, c);
    } else {
      SplitFirst(s, c);
      var b := SplitOnce(s, c).value.1;
      SplitJoin(b, c);
      var pieces := Split(s, c);
      assert pieces[1..] == Split(b, c);
    }
  }

  /** The first piece is the text before the first `c`; a second piece exists exactly when `c` occurs. */
  lemma SplitHead(s: string, c: char)
    ensures Split(s, c)[0] == Before(s, c)
    ensures |Split(s, c)| >= 2 <==> c in s
  {
    if c in s {
      SplitFirst(s, c);
    } else {
      SplitAbsent(s, c);
    }
  }

  /** The second piece is the text between the first and the second `c`, or up to the end. */
  lemma SplitSecond(s: string, c: char)
    requires c in s
    ensures |Split(s, c)| >= 2 && Split(s, c)[1] == Before(After(s, c), c)
  {
    SplitFirst(s, c);
    SplitHead(After(s, c), c);
  }

  /** A piece of a split holds no character its whole did not hold. */
  lemma {:induction false} SplitPieceWithin(s: string, c: char, d: char, k: nat)
    requires d !in s
    requires k < |Split(s, c)|
    ensures d !in Split(s, c)[k]
    decreases |s|
  {
    if c !in s {
      SplitAbsent(s, c);
    } else {
      SplitFirst(s, c);
      var (a, b) := SplitOnce(s, c).value;
      if k > 0 {
        assert d !in b by {
          assert s == a + [c] + b;
          assert forall i :: 0 <= i < |b| ==> b[i] == s[|a| + 1 + i];
        }
        SplitPieceWithin(b, c, d, k - 1);
      } else {
        assert forall i :: 0 <= i < |a| ==> a[i] == s[i];
      }
    }
  }
}
