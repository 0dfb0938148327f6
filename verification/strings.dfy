/** String helpers with the semantics of the JavaScript built-ins the storefront
    uses: an unanchored substring test (what a regular expression without
    anchors does for a literal pattern), `String.prototype.split` with a
    string separator, and the decimal rendering of a non-negative integer. */
module Strings {
  import opened Common

  /** `sep` occurs in `s` starting at position `i`. */
  ghost predicate OccursAt(s: string, sep: string, i: int) {
    0 <= i && i + |sep| <= |s| && s[i..i + |sep|] == sep
  }

  /** Reference definition of "s contains t". */
  ghost predicate Contains(s: string, t: string) {
    exists i :: OccursAt(s, t, i)
  }

  lemma OccursShift(s: string, sep: string, k: int)
    requires |s| > 0 && 0 <= k
    ensures OccursAt(s[1..], sep, k) <==> OccursAt(s, sep, k + 1)
  {
    if 0 <= k && k + |sep| <= |s[1..]| {
      assert s[1..][k..k + |sep|] == s[k + 1..k + 1 + |sep|];
    }
  }

  /** The first position at which `sep` occurs in `s` (`indexOf`). */
  function Find(s: string, sep: string): (r: Option<nat>)
    ensures r.Some? ==> OccursAt(s, sep, r.value)
    ensures r.Some? ==> forall j :: 0 <= j < r.value ==> !OccursAt(s, sep, j)
    ensures r.None? <==> !Contains(s, sep)
    decreases |s|
  {
    if |s| < |sep| then None
    else if s[..|sep|] == sep then
      assert OccursAt(s, sep, 0);
      Some(0)
    else
      match Find(s[1..], sep)
      case None =>
        forall j | OccursAt(s, sep, j) ensures false {
          if j > 0 { OccursShift(s, sep, j - 1); }
        }
        None
      case Some(k) =>
        OccursShift(s, sep, k);
        forall j | 0 <= j < k + 1 ensures !OccursAt(s, sep, j) {
          if j > 0 { OccursShift(s, sep, j - 1); }
        }
        Some(k + 1)
  }

  /** `s.includes(t)`, computed by search. */
  function Includes(s: string, t: string): (b: bool)
    ensures b <==> Contains(s, t)
  {
    Find(s, t).Some?
  }

  /** `s.split(sep)` for a non-empty string separator: the pieces between
      successive non-overlapping occurrences, scanning left to right. */
  function Split(s: string, sep: string): (pieces: seq<string>)
    requires |sep| > 0
    ensures |pieces| >= 1
    decreases |s|
  {
    match Find(s, sep)
    case None => [s]
    case Some(i) => [s[..i]] + Split(s[i + |sep|..], sep)
  }

  /** `pieces.join(sep)`. */
  function Join(pieces: seq<string>, sep: string): string
    requires |pieces| >= 1
    decreases |pieces|
  {
    if |pieces| == 1 then pieces[0] else pieces[0] + sep + Join(pieces[1..], sep)
  }

  lemma SplitStep(s: string, sep: string, i: nat)
    requires |sep| > 0 && Find(s, sep) == Some(i)
    ensures Split(s, sep) == [s[..i]] + Split(s[i + |sep|..], sep)
  {
  }

  lemma SplitHead(s: string, sep: string)
    requires |sep| > 0
    ensures Split(s, sep)[0] == (match Find(s, sep) case None => s case Some(j) => s[..j])
  {
  }

  lemma JoinStep(head: string, tail: seq<string>, sep: string)
    requires |tail| >= 1
    ensures Join([head] + tail, sep) == head + sep + Join(tail, sep)
  {
    assert ([head] + tail)[1..] == tail;
  }

  /** Splitting loses nothing: joining the pieces with the separator gives
      back the original string. */
  lemma {:induction false} SplitJoin(s: string, sep: string)
    requires |sep| > 0
    ensures Join(Split(s, sep), sep) == s
    decreases |s|
  {
    var f := Find(s, sep);
    if f.Some? {
      var i := f.value;
      var rest := s[i + |sep|..];
      SplitStep(s, sep, i);
      SplitJoin(rest, sep);
      JoinStep(s[..i], Split(rest, sep), sep);
      assert s[i..i + |sep|] == sep;
      assert s == s[..i] + s[i..i + |sep|] + rest;
    }
  }

  /** No piece of a split contains the separator. */
  lemma {:induction false} SplitPiecesClean(s: string, sep: string)
    requires |sep| > 0
    ensures forall k :: 0 <= k < |Split(s, sep)| ==> !Contains(Split(s, sep)[k], sep)
    decreases |s|
  {
    var f := Find(s, sep);
    if f.Some? {
      var i := f.value;
      var rest := s[i + |sep|..];
      var pieces := Split(s, sep);
      SplitStep(s, sep, i);
      SplitPiecesClean(rest, sep);
      PrefixBeforeFirst(s, sep, i);
      forall k | 0 <= k < |pieces| ensures !Contains(pieces[k], sep) {
        if k > 0 { assert pieces[k] == Split(rest, sep)[k - 1]; }
      }
    }
  }

  /** The text before the first occurrence of a separator does not contain it. */
  lemma PrefixBeforeFirst(s: string, sep: string, i: nat)
    requires |sep| > 0 && Find(s, sep) == Some(i)
    ensures !Contains(s[..i], sep)
  {
    forall j | OccursAt(s[..i], sep, j) ensures false {
      assert s[..i][j..j + |sep|] == s[j..j + |sep|];
      assert OccursAt(s, sep, j);
    }
  }

  /** The second piece of a split, when there is one: the text after the
      first separator and before the next one (or the end). */
  lemma SecondPiece(s: string, sep: string, i: nat)
    requires |sep| > 0
    requires Find(s, sep) == Some(i)
    ensures |Split(s, sep)| >= 2
    ensures var rest := s[i + |sep|..];
            Split(s, sep)[1] == (match Find(rest, sep) case None => rest case Some(j) => rest[..j])
  {
    var rest := s[i + |sep|..];
    SplitStep(s, sep, i);
    SplitHead(rest, sep);
  }

  /** A piece that contains no separator is a split with one piece. */
  lemma SplitNoSeparator(s: string, sep: string)
    requires |sep| > 0 && !Contains(s, sep)
    ensures Split(s, sep) == [s]
  {
  }

  predicate IsDigit(c: char) {
    '0' <= c <= '9'
  }

  predicate AllDigits(s: string) {
    forall k :: 0 <= k < |s| ==> IsDigit(s[k])
  }

  function DigitChar(d: nat): (c: char)
    requires d < 10
    ensures IsDigit(c)
  {
    "0123456789"[d]
  }

  function DigitValue(c: char): nat
    requires IsDigit(c)
  {
    (c as int - '0' as int) as nat
  }

  /** The decimal rendering of `n`, as `n.toString()` prints a non-negative integer. */
  function NatToString(n: nat): (s: string)
    ensures |s| >= 1 && AllDigits(s)
    ensures n > 0 ==> s[0] != '0'
    decreases n
  {
    if n < 10 then [DigitChar(n)] else NatToString(n / 10) + [DigitChar(n % 10)]
  }

  /** The value of a string of decimal digits. */
  function DigitsValue(s: string): nat
    requires AllDigits(s)
    decreases |s|
  {
    if |s| == 0 then 0 else 10 * DigitsValue(s[..|s| - 1]) + DigitValue(s[|s| - 1])
  }

  lemma DigitRoundTrip(d: nat)
    requires d < 10
    ensures DigitValue(DigitChar(d)) == d
  {
  }

  /** Reading back a rendered number gives the number. */
  lemma {:induction false} NatToStringRoundTrip(n: nat)
    ensures DigitsValue(NatToString(n)) == n
    decreases n
  {
    var s := NatToString(n);
    if n < 10 {
      DigitRoundTrip(n);
    } else {
      NatToStringRoundTrip(n / 10);
      assert s[..|s| - 1] == NatToString(n / 10);
      DigitRoundTrip(n % 10);
    }
  }
}
