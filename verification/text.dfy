/**
 * The string operations of Python that the core relies on, over `seq<char>`:
 * `lower`, `in` (substring), `find`, `split(sep)`, `split()`, `strip`,
 * `endswith` and `str(n)` for a natural number. Case folding and white space
 * are those of ASCII.
 */
module Text {
  import opened Wrappers

  /** Python's `str.isspace` restricted to ASCII: space, \t \n \v \f \r and \x1c..\x1f. */
  predicate IsSpace(c: char) {
    c == ' ' || (9 <= c as int <= 13) || (28 <= c as int <= 31)
  }

  function LowerChar(c: char): char {
    if 'A' <= c <= 'Z' then (c as int + 32) as char else c
  }

  /** `s.lower()`: every upper-case ASCII letter replaced by its lower-case form. */
  function Lower(s: string): (r: string)
    ensures |r| == |s|
    ensures forall i :: 0 <= i < |s| ==> r[i] == LowerChar(s[i])
  {
    seq(|s|, i requires 0 <= i < |s| => LowerChar(s[i]))
  }

  lemma LowerIdempotent(s: string)
    ensures Lower(Lower(s)) == Lower(s)
  {
    assert forall i :: 0 <= i < |s| ==> Lower(Lower(s))[i] == Lower(s)[i];
  }

  // ---------------------------------------------------------------------
  // Substring search
  // ---------------------------------------------------------------------

  /** `n` occurs in `h` starting at index `i`. */
  predicate Occurs(h: string, n: string, i: int) {
    0 <= i && i + |n| <= |h| && h[i..i + |n|] == n
  }

  lemma OccursShift(h: string, n: string, j: int)
    requires h != [] && 0 <= j
    ensures Occurs(h, n, j + 1) <==> Occurs(h[1..], n, j)
  {
    if 0 <= j && j + 1 + |n| <= |h| {
      assert h[1..][j..j + |n|] == h[j + 1..j + 1 + |n|];
    }
  }

  /** `h.find(n)`: the first index at which `n` occurs, or None where Python gives -1. */
  function Find(h: string, n: string): (r: Option<nat>)
    ensures r.Some? ==> Occurs(h, n, r.value)
    ensures r.Some? ==> forall j :: 0 <= j < r.value ==> !Occurs(h, n, j)
    ensures r.None? ==> forall j :: !Occurs(h, n, j)
    decreases |h|
  {
    if n <= h then
      assert h[..|n|] == n;
      Some(0)
    else if h == [] then
      None
    else
      var rest := Find(h[1..], n);
      assert !Occurs(h, n, 0);
      match rest
      case Some(j) =>
        OccursShift(h, n, j);
        assert forall k :: 0 <= k < j + 1 ==> !Occurs(h, n, k) by {
          forall k | 0 <= k < j + 1 ensures !Occurs(h, n, k) {
            if k > 0 { OccursShift(h, n, k - 1); }
          }
        }
        Some(j + 1)
      case None =>
        assert forall k :: !Occurs(h, n, k) by {
          forall k ensures !Occurs(h, n, k) {
            if k > 0 { OccursShift(h, n, k - 1); }
          }
        }
        None
  }

  /** Python's `n in h` on strings. */
  predicate Contains(h: string, n: string) {
    Find(h, n).Some?
  }

  lemma ContainsIff(h: string, n: string)
    ensures Contains(h, n) <==> exists j :: Occurs(h, n, j)
  {
    if !Contains(h, n) {
      assert forall j :: !Occurs(h, n, j);
    }
  }

  /** An occurrence inside a prefix of `s` is an occurrence in `s`. */
  lemma OccursInPrefix(s: string, n: string, p: nat, j: int)
    requires p <= |s| && Occurs(s[..p], n, j)
    ensures Occurs(s, n, j) && j + |n| <= p
  {
    assert s[..p][j..j + |n|] == s[j..j + |n|];
  }

  /** The text before the first occurrence of `n` holds no occurrence of `n`. */
  lemma PrefixBeforeFirstFree(s: string, n: string)
    requires |n| > 0 && Find(s, n).Some?
    ensures !Contains(s[..Find(s, n).value], n)
  {
    var p := Find(s, n).value;
    if Contains(s[..p], n) {
      var j := Find(s[..p], n).value;
      OccursInPrefix(s, n, p, j);
      assert false;
    }
  }

  /** `s.endswith(suffix)`. */
  predicate EndsWith(s: string, suffix: string) {
    |suffix| <= |s| && s[|s| - |suffix|..] == suffix
  }

  // ---------------------------------------------------------------------
  // Splitting and joining
  // ---------------------------------------------------------------------

  /** `s.split(sep)` for a non-empty separator: non-overlapping matches, left to right. */
  function SplitOn(s: string, sep: string): (parts: seq<string>)
    requires |sep| > 0
    ensures |parts| >= 1
    ensures |parts| == 1 <==> !Contains(s, sep)
    ensures forall k :: 0 <= k < |parts| ==> !Contains(parts[k], sep)
    decreases |s|
  {
    match Find(s, sep)
    case None => [s]
    case Some(i) =>
      PrefixBeforeFirstFree(s, sep);
      [s[..i]] + SplitOn(s[i + |sep|..], sep)
  }

  /** `sep.join(parts)`. */
  function Join(parts: seq<string>, sep: string): string
    requires |parts| >= 1
  {
    if |parts| == 1 then parts[0] else parts[0] + sep + Join(parts[1..], sep)
  }

  lemma JoinPrepend(head: string, tail: seq<string>, sep: string)
    requires |tail| >= 1
    ensures Join([head] + tail, sep) == head + sep + Join(tail, sep)
  {
    assert ([head] + tail)[1..] == tail;
  }

  lemma Reassemble(s: string, n: string, i: int)
    requires Occurs(s, n, i)
    ensures s == s[..i] + n + s[i + |n|..]
  {
    assert s[i..] == s[i..i + |n|] + s[i + |n|..];
    assert s == s[..i] + s[i..];
  }

  /** Splitting loses nothing: joining the pieces with the separator gives the text back. */
  lemma {:induction false} JoinSplit(s: string, sep: string)
    requires |sep| > 0
    ensures Join(SplitOn(s, sep), sep) == s
    decreases |s|
  {
    var f := Find(s, sep);
    if f.Some? {
      var i := f.value;
      var rest := s[i + |sep|..];
      var tail := SplitOn(rest, sep);
      var parts := SplitOn(s, sep);
      assert parts == [s[..i]] + tail;
      JoinPrepend(s[..i], tail, sep);
      JoinSplit(rest, sep);
      Reassemble(s, sep, i);
    }
  }

  /** `s.split(sep)[-1]`: the text after the last separator, or all of `s`. */
  function LastPiece(s: string, sep: string): string
    requires |sep| > 0
    decreases |s|
  {
    match Find(s, sep)
    case None => s
    case Some(i) => LastPiece(s[i + |sep|..], sep)
  }

  /** The last piece holds no separator. */
  lemma {:induction false} LastPieceFree(s: string, sep: string)
    requires |sep| > 0
    ensures !Contains(LastPiece(s, sep), sep)
    decreases |s|
  {
    if Contains(s, sep) {
      var i := Find(s, sep).value;
      LastPieceFree(s[i + |sep|..], sep);
    }
  }

  /** When `sep` occurs, the last piece is what follows its last occurrence. */
  lemma {:induction false} LastPieceSuffix(s: string, sep: string)
    requires |sep| > 0 && Contains(s, sep)
    ensures EndsWith(s, sep + LastPiece(s, sep))
    decreases |s|
  {
    var i := Find(s, sep).value;
    var rest := s[i + |sep|..];
    var last := LastPiece(s, sep);
    assert last == LastPiece(rest, sep);
    if Contains(rest, sep) {
      LastPieceSuffix(rest, sep);
      var n := |last| + |sep|;
      assert rest[|rest| - n..] == sep + last;
      assert s[|s| - n..] == rest[|rest| - n..];
    } else {
      assert last == rest;
      assert s[i..i + |sep|] == sep;
      assert s[i..] == sep + last;
      assert |s| - |sep + last| == i;
    }
  }

  // ---------------------------------------------------------------------
  // White space
  // ---------------------------------------------------------------------

  /** The number of white-space characters at the start of `s`. */
  function LeadingSpace(s: string): (n: nat)
    ensures n <= |s|
  {
    if s != [] && IsSpace(s[0]) then 1 + LeadingSpace(s[1..]) else 0
  }

  /** The number of white-space characters at the end of `s`. */
  function TrailingSpace(s: string): (n: nat)
    ensures n <= |s|
  {
    if s != [] && IsSpace(s[|s| - 1]) then 1 + TrailingSpace(s[..|s| - 1]) else 0
  }

  /** The leading run is all white space and is followed by a character that is not. */
  lemma {:induction false} LeadingSpaceRun(s: string)
    ensures forall i :: 0 <= i < LeadingSpace(s) ==> IsSpace(s[i])
    ensures LeadingSpace(s) == |s| || !IsSpace(s[LeadingSpace(s)])
  {
    if s != [] && IsSpace(s[0]) {
      LeadingSpaceRun(s[1..]);
      forall i | 1 <= i < LeadingSpace(s) ensures IsSpace(s[i]) {
        assert s[i] == s[1..][i - 1];
      }
    }
  }

  /** The trailing run is all white space and is preceded by a character that is not. */
  lemma {:induction false} TrailingSpaceRun(s: string)
    ensures forall i :: |s| - TrailingSpace(s) <= i < |s| ==> IsSpace(s[i])
    ensures TrailingSpace(s) == |s| || !IsSpace(s[|s| - TrailingSpace(s) - 1])
  {
    if s != [] && IsSpace(s[|s| - 1]) {
      var init := s[..|s| - 1];
      TrailingSpaceRun(init);
      forall i | |s| - TrailingSpace(s) <= i < |s| - 1 ensures IsSpace(s[i]) {
        assert s[i] == init[i];
      }
      if TrailingSpace(s) < |s| {
        assert s[|s| - TrailingSpace(s) - 1] == init[|init| - TrailingSpace(init) - 1];
      }
    }
  }

  /** `s.lstrip()`. */
  function TrimStart(s: string): string {
    s[LeadingSpace(s)..]
  }

  /** `s.rstrip()`. */
  function TrimEnd(s: string): string {
    s[..|s| - TrailingSpace(s)]
  }

  /** `s.strip()`: white space removed from both ends. */
  function Strip(s: string): string {
    TrimEnd(TrimStart(s))
  }

  /** No white space is left at either end. */
  lemma StripEnds(s: string)
    ensures var r := Strip(s); r == [] || (!IsSpace(r[0]) && !IsSpace(r[|r| - 1]))
  {
    var t := TrimStart(s);
    var r := TrimEnd(t);
    LeadingSpaceRun(s);
    TrailingSpaceRun(t);
    if r != [] {
      assert r[0] == t[0] == s[LeadingSpace(s)];
      assert r[|r| - 1] == t[|t| - TrailingSpace(t) - 1];
    }
  }

  /** What `Strip` keeps is one contiguous piece of the text. */
  lemma StripSlice(s: string)
    ensures |s| - |TrimStart(s)| + |Strip(s)| <= |s|
    ensures Strip(s) == s[|s| - |TrimStart(s)|..|s| - |TrimStart(s)| + |Strip(s)|]
  {
    var a := LeadingSpace(s);
    var r := Strip(s);
    assert s[a..][..|r|] == s[a..a + |r|];
  }

  /** Stripping leaves nothing exactly when the text is all white space. */
  lemma StripEmpty(s: string)
    ensures Strip(s) == [] <==> forall i :: 0 <= i < |s| ==> IsSpace(s[i])
  {
    var a := LeadingSpace(s);
    var t := TrimStart(s);
    LeadingSpaceRun(s);
    TrailingSpaceRun(t);
    if Strip(s) != [] {
      StripEnds(s);
      assert Strip(s)[0] == s[a];
    }
  }

  /** A substring of a text free of `n` is free of `n` too. */
  lemma ContainsInSlice(s: string, n: string, a: nat, b: nat, t: string)
    requires a <= b <= |s| && t == s[a..b] && Contains(t, n)
    ensures Contains(s, n)
  {
    var j := Find(t, n).value;
    assert t[j..j + |n|] == n;
    forall k | 0 <= k < |n|
      ensures s[a + j..a + j + |n|][k] == n[k]
    {
      assert t[j..j + |n|][k] == t[j + k] == s[a + j + k];
    }
    assert s[a + j..a + j + |n|] == n;
    assert Occurs(s, n, a + j);
    ContainsIff(s, n);
  }

  lemma StripKeepsAbsence(s: string, n: string)
    requires !Contains(s, n)
    ensures !Contains(Strip(s), n)
  {
    StripSlice(s);
    var a := |s| - |TrimStart(s)|;
    if Contains(Strip(s), n) {
      ContainsInSlice(s, n, a, a + |Strip(s)|, Strip(s));
    }
  }

  /** `len(s.split())`: the number of maximal runs of non-space characters. */
  function WordCount(s: string): (r: nat)
    ensures r <= |s|
    ensures r == 0 <==> forall i :: 0 <= i < |s| ==> IsSpace(s[i])
  {
    if s == [] then 0
    else
      var init := s[..|s| - 1];
      var c := WordCount(init);
      var starts := !IsSpace(s[|s| - 1]) && (|s| == 1 || IsSpace(s[|s| - 2]));
      assert forall i :: 0 <= i < |init| ==> init[i] == s[i];
      c + (if starts then 1 else 0)
  }

  // ---------------------------------------------------------------------
  // Decimal rendering of counts
  // ---------------------------------------------------------------------

  predicate IsDigit(c: char) { '0' as int <= c as int <= '9' as int }

  /** `str(n)` for a natural number: its decimal digits. */
  function NatToString(n: nat): (s: string)
    ensures |s| >= 1
    ensures forall i :: 0 <= i < |s| ==> IsDigit(s[i])
  {
    if n < 10 then [('0' as int + n) as char]
    else NatToString(n / 10) + [('0' as int + n % 10) as char]
  }

  /** The number a string of decimal digits denotes. */
  function DecimalValue(s: string): nat
    requires forall i :: 0 <= i < |s| ==> IsDigit(s[i])
  {
    if s == [] then 0
    else
      assert IsDigit(s[|s| - 1]);
      var d: nat := s[|s| - 1] as int - '0' as int;
      DecimalValue(s[..|s| - 1]) * 10 + d
  }

  /** The longest run of decimal digits at the start of `s`. */
  function DigitPrefix(s: string): (r: string)
    ensures r <= s
    ensures forall i :: 0 <= i < |r| ==> IsDigit(r[i])
  {
    if s != [] && IsDigit(s[0]) then [s[0]] + DigitPrefix(s[1..]) else []
  }

  /** A digit string followed by a non-digit (or nothing) is exactly the digit run at the start. */
  lemma {:induction false} DigitPrefixOf(d: string, t: string)
    requires forall i :: 0 <= i < |d| ==> IsDigit(d[i])
    requires t == [] || !IsDigit(t[0])
    ensures DigitPrefix(d + t) == d
  {
    if d != [] {
      assert (d + t)[0] == d[0] && (d + t)[1..] == d[1..] + t;
      DigitPrefixOf(d[1..], t);
    } else {
      assert d + t == t;
    }
  }

  /** What follows `p` when `s` starts with it. */
  function AfterPrefix(s: string, p: string): (r: Option<string>)
    ensures r.Some? ==> s == p + r.value
  {
    if |s| >= |p| && s[..|p|] == p then Some(s[|p|..]) else None
  }

  lemma AfterPrefixOf(p: string, t: string)
    ensures AfterPrefix(p + t, p) == Some(t)
  {
    assert (p + t)[..|p|] == p && (p + t)[|p|..] == t;
  }

  /** The number written at the start of `s` and the text after its digits. */
  function ReadNumber(s: string): (nat, string) {
    var d := DigitPrefix(s);
    (DecimalValue(d), s[|d|..])
  }

  /** Reading back the rendered digits gives the number: the rendering is faithful. */
  lemma {:induction false} DecimalRoundTrip(n: nat)
    ensures DecimalValue(NatToString(n)) == n
  {
    if n >= 10 {
      DecimalRoundTrip(n / 10);
      var s := NatToString(n);
      assert s[..|s| - 1] == NatToString(n / 10);
    }
  }

  /** A number written before a non-digit (or nothing) is read back, with the rest of the text. */
  lemma ReadNumberOf(n: nat, t: string)
    requires t == [] || !IsDigit(t[0])
    ensures ReadNumber(NatToString(n) + t) == (n, t)
  {
    var d := NatToString(n);
    DigitPrefixOf(d, t);
    assert (d + t)[|d|..] == t;
    DecimalRoundTrip(n);
  }
}
