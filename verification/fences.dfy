/**
 * The clean-up applied to every language-model reply before it is decoded
 * as JSON: keep only the first fenced block. The same routine appears in the
 * content analyzer, the strategy generator and the persona manager; it is
 * defined once here.
 */
module Fences {
  import opened Wrappers
  import opened Text

  const Fence: string := "```"
  const JsonFence: string := "```json"

  /** The text before the first `sep`, or all of `s` when there is none: `s.split(sep)[0]`. */
  function Before(s: string, sep: string): (r: string)
    requires |sep| > 0
    ensures !Contains(r, sep)
    ensures r <= s
  {
    match Find(s, sep)
    case None => s
    case Some(i) =>
      PrefixBeforeFirstFree(s, sep);
      s[..i]
  }

  /** The text after the first `sep`. */
  function After(s: string, sep: string): (r: string)
    requires |sep| > 0 && Contains(s, sep)
    ensures |r| < |s|
  {
    var i := Find(s, sep).value;
    s[i + |sep|..]
  }

  /** The first piece of a split is the text before the first separator. */
  lemma SplitHead(s: string, sep: string)
    requires |sep| > 0
    ensures SplitOn(s, sep)[0] == Before(s, sep)
  {
  }

  /** The second piece of a split is what lies between the first and the second separator. */
  lemma SplitSecond(s: string, sep: string)
    requires |sep| > 0 && Contains(s, sep)
    ensures |SplitOn(s, sep)| >= 2
    ensures SplitOn(s, sep)[1] == Before(After(s, sep), sep)
  {
    var rest := After(s, sep);
    assert SplitOn(s, sep) == [s[..Find(s, sep).value]] + SplitOn(rest, sep);
    SplitHead(rest, sep);
  }

  /** A "```json" marker begins with a fence. */
  lemma JsonFenceHasFence(t: string)
    requires Contains(t, JsonFence)
    ensures Contains(t, Fence)
  {
    var j := Find(t, JsonFence).value;
    assert t[j..j + 7] == JsonFence;
    assert t[j..j + 3] == t[j..j + 7][..3] == Fence;
    assert Occurs(t, Fence, j);
    ContainsIff(t, Fence);
  }

  /**
   * `if "```json" in t: t.split("```json")[1].split("```")[0]`
   * `elif "```" in t: t.split("```")[1].split("```")[0]`.
   */
  function CleanFences(t: string): (r: string)
    ensures !Contains(r, Fence)
    ensures !Contains(t, Fence) ==> r == t
  {
    if Contains(t, JsonFence) then
      JsonFenceHasFence(t);
      var parts := SplitOn(t, JsonFence);
      SplitOn(parts[1], Fence)[0]
    else if Contains(t, Fence) then
      var parts := SplitOn(t, Fence);
      SplitOn(parts[1], Fence)[0]
    else
      t
  }

  /** A marker run into a preceding backtick, as in "`````json". */
  const LongJsonFence: string := "````json"

  /** An occurrence with none before it is the one `Find` reports. */
  lemma FindFirst(s: string, n: string, k: nat)
    requires Occurs(s, n, k)
    requires forall j :: 0 <= j < k ==> !Occurs(s, n, j)
    ensures Find(s, n) == Some(k)
  {
  }

  /** The prefix of `a` before its first fence holds no fence. */
  lemma NoFenceBefore(a: string, p: nat)
    requires Find(a, Fence).Some? && p <= Find(a, Fence).value
    ensures Find(a[..p], Fence).None?
  {
    if Find(a[..p], Fence).Some? {
      OccursInPrefix(a, Fence, p, Find(a[..p], Fence).value);
      assert false;
    }
  }

  /** A marker is a fence followed by "json". */
  lemma MarkerStartsFence(a: string, i: nat)
    requires Occurs(a, JsonFence, i)
    ensures Occurs(a, Fence, i)
  {
    assert a[i..i + 3] == a[i..i + 7][..3];
  }

  /** A fence ending just inside a marker makes a marker with a backtick before it. */
  lemma OverlapIsLong(a: string, f: nat, i: nat)
    requires Occurs(a, Fence, f) && Occurs(a, JsonFence, i) && f < i < f + 3
    ensures Occurs(a, LongJsonFence, i - 1)
  {
    assert a[i - 1] == a[f..f + 3][i - 1 - f];
    assert a[i - 1..i + 7] == [a[i - 1]] + a[i..i + 7];
  }

  /**
   * Cutting at the first marker and then at the first fence is cutting at
   * the first fence, unless a fence overlaps the marker from the left: every
   * marker begins with a fence, so the fence comes no later.
   */
  lemma BeforeMarkerThenFence(a: string)
    requires !Contains(a, LongJsonFence)
    ensures Before(Before(a, JsonFence), Fence) == Before(a, Fence)
  {
    if Find(a, JsonFence).Some? {
      var i := Find(a, JsonFence).value;
      MarkerStartsFence(a, i);
      var f := Find(a, Fence).value;
      if f + 3 <= i {
        assert a[..i][f..f + 3] == a[f..f + 3];
        forall j | 0 <= j < f ensures !Occurs(a[..i], Fence, j) {
          if Occurs(a[..i], Fence, j) {
            OccursInPrefix(a, Fence, i, j);
          }
        }
        FindFirst(a[..i], Fence, f);
      } else if f == i {
        NoFenceBefore(a, i);
      } else {
        OverlapIsLong(a, f, i);
        ContainsIff(a, LongJsonFence);
        assert false;
      }
    }
  }

  /**
   * With a "```json" marker, the clean-up keeps the text between it and the
   * next fence, a later marker included, unless a backtick runs into a
   * later marker ("`````json"): the text is split on the marker first.
   */
  lemma CleanFencesJson(t: string)
    requires Contains(t, JsonFence) && !Contains(After(t, JsonFence), LongJsonFence)
    ensures CleanFences(t) == Before(After(t, JsonFence), Fence)
  {
    SplitSecond(t, JsonFence);
    SplitHead(SplitOn(t, JsonFence)[1], Fence);
    BeforeMarkerThenFence(After(t, JsonFence));
  }

  /** The reply in which a backtick runs into a later marker. */
  function OverlapReply(): string {
    JsonFence + ("``" + JsonFence)
  }

  lemma OverlapFirstMarker()
    ensures Find(OverlapReply(), JsonFence) == Some(0)
    ensures After(OverlapReply(), JsonFence) == "``" + JsonFence
  {
    var t := OverlapReply();
    assert t[0..7] == JsonFence;
    FindFirst(t, JsonFence, 0);
  }

  lemma OverlapSecondMarker()
    ensures Before("``" + JsonFence, JsonFence) == "``"
  {
    var a := "``" + JsonFence;
    assert a[2..9] == JsonFence;
    assert a[0..7][3] == a[3] == '`' && a[1..8][3] == a[4] == '`';
    FindFirst(a, JsonFence, 2);
  }

  lemma OverlapFirstFence()
    ensures Before("``" + JsonFence, Fence) == ""
  {
    var a := "``" + JsonFence;
    assert a[0..3] == Fence;
    FindFirst(a, Fence, 0);
  }

  /**
   * The overlap the condition above excludes: after "```json", the text
   * "`````json" is split on the later marker first, leaving "``" where the
   * first fence would leave nothing.
   */
  lemma CleanFencesOverlap()
    ensures OverlapReply() == "```json`````json"
    ensures CleanFences(OverlapReply()) == "``"
    ensures Before(After(OverlapReply(), JsonFence), Fence) == ""
  {
    var t := OverlapReply();
    OverlapFirstMarker();
    OverlapSecondMarker();
    OverlapFirstFence();
    SplitSecond(t, JsonFence);
    SplitHead("``", Fence);
  }

  /** Without one, it keeps the text between the first two fences. */
  lemma CleanFencesPlain(t: string)
    requires !Contains(t, JsonFence) && Contains(t, Fence)
    ensures CleanFences(t) == Before(After(t, Fence), Fence)
  {
    SplitSecond(t, Fence);
    var piece := SplitOn(t, Fence)[1];
    SplitHead(piece, Fence);
  }

  /** Cleaning an already clean reply changes nothing. */
  lemma CleanFencesIdempotent(t: string)
    ensures CleanFences(CleanFences(t)) == CleanFences(t)
  {
    var r := CleanFences(t);
    assert !Contains(r, Fence);
  }

  /** The text handed to the decoder: the cleaned reply, stripped. */
  function Prepared(t: string): (r: string)
    ensures !Contains(r, Fence)
  {
    StripKeepsAbsence(CleanFences(t), Fence);
    Strip(CleanFences(t))
  }
}
