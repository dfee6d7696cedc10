/**
 * String operations the blackjack code relies on from its runtime libraries:
 * JavaScript's `String.prototype.split` and `includes`, Go's `strconv.Atoi` and
 * JavaScript's `parseInt(s, 10)`, all on strings modelled as `seq<char>`.
 */
module Text {
  import opened Options

  /** `sep` occurs in `s` starting at index `i`. */
  predicate OccursAt(s: string, sep: string, i: nat) {
    i + |sep| <= |s| && s[i..i + |sep|] == sep
  }

  /** `ch` does not appear anywhere in `s`. */
  predicate Avoids(s: string, ch: char) {
    forall k :: 0 <= k < |s| ==> s[k] != ch
  }

  /** The leftmost occurrence of `sep` in `s`, if any. */
  function IndexOf(s: string, sep: string): (r: Option<nat>)
    requires |sep| > 0
    ensures r.Some? ==> OccursAt(s, sep, r.value)
    ensures r.Some? ==> forall i: nat :: i < r.value ==> !OccursAt(s, sep, i)
    ensures r.None? ==> forall i: nat :: !OccursAt(s, sep, i)
    decreases |s|
  {
    if |s| < |sep| then None
    else if s[..|sep|] == sep then Some(0)
    else
      OccursShift(s, sep);
      match IndexOf(s[1..], sep)
      case None => None
      case Some(j) => Some(j + 1)
  }

  /** An occurrence past the first character of `s` is an occurrence in `s[1..]`, one place earlier. */
  lemma OccursShift(s: string, sep: string)
    requires |s| > 0
    ensures forall i: nat :: OccursAt(s, sep, i + 1) <==> OccursAt(s[1..], sep, i)
    ensures forall i: nat :: i > 0 ==> (OccursAt(s, sep, i) <==> OccursAt(s[1..], sep, i - 1))
  {
    forall i: nat ensures OccursAt(s, sep, i + 1) <==> OccursAt(s[1..], sep, i) {
      if i + 1 + |sep| <= |s| {
        assert s[1..][i..i + |sep|] == s[i + 1..i + 1 + |sep|];
      }
    }
    forall i: nat | i > 0 ensures OccursAt(s, sep, i) <==> OccursAt(s[1..], sep, i - 1) {
      assert OccursAt(s, sep, (i - 1) + 1) <==> OccursAt(s[1..], sep, i - 1);
    }
  }

  /** JavaScript's `s.includes(sub)` for a non-empty `sub`. */
  function Includes(s: string, sub: string): (r: bool)
    requires |sub| > 0
    ensures r <==> exists i: nat :: OccursAt(s, sub, i)
  {
    IndexOf(s, sub).Some?
  }

  /** JavaScript's `s.split(sep)`: the pieces between the non-overlapping occurrences of `sep`, left to right. */
  function Split(s: string, sep: string): (pieces: seq<string>)
    requires |sep| > 0
    ensures |pieces| >= 1
    decreases |s|
  {
    match IndexOf(s, sep)
    case None => [s]
    case Some(i) => [s[..i]] + Split(s[i + |sep|..], sep)
  }

  /** The pieces glued back together with `sep` between neighbours (`Array.prototype.join`). */
  function Join(pieces: seq<string>, sep: string): string {
    if pieces == [] then ""
    else if |pieces| == 1 then pieces[0]
    else pieces[0] + sep + Join(pieces[1..], sep)
  }

  /** Splitting never loses text: joining the pieces with the separator gives the string back. */
  lemma {:induction false} JoinSplit(s: string, sep: string)
    requires |sep| > 0
    ensures Join(Split(s, sep), sep) == s
    decreases |s|
  {
    match IndexOf(s, sep)
    case None =>
      assert Split(s, sep) == [s];
    case Some(i) =>
      SplitAt(s, sep, i);
      JoinSplit(s[i + |sep|..], sep);
      JoinSplitStep(s, sep, i);
  }

  /** The inductive step of `JoinSplit`: the text before the leftmost separator, the separator, and the rest rejoined. */
  lemma JoinSplitStep(s: string, sep: string, i: nat)
    requires |sep| > 0 && IndexOf(s, sep) == Some(i)
    requires Join(Split(s[i + |sep|..], sep), sep) == s[i + |sep|..]
    ensures Join(Split(s, sep), sep) == s
  {
    SplitAt(s, sep, i);
    var head, rest := s[..i], s[i + |sep|..];
    JoinCons(head, Split(rest, sep), sep);
    assert Join(Split(s, sep), sep) == head + sep + rest;
    assert s[i..i + |sep|] == sep by {
      assert OccursAt(s, sep, i);
    }
    assert s == head + s[i..i + |sep|] + rest;
  }

  /** Joining a piece in front of a non-empty list puts one separator between them. */
  lemma JoinCons(head: string, tail: seq<string>, sep: string)
    requires |tail| >= 1
    ensures Join([head] + tail, sep) == head + sep + Join(tail, sep)
  {
    assert ([head] + tail)[1..] == tail;
  }

  /** The leftmost occurrence of `sep` in `a + sep + b` is the one right after `a` when `a` lacks `sep`'s first character. */
  lemma IndexOfAfter(a: string, sep: string, b: string)
    requires |sep| > 0 && Avoids(a, sep[0])
    ensures IndexOf(a + sep + b, sep) == Some(|a|)
  {
    var s := a + sep + b;
    assert s[|a|..|a| + |sep|] == sep;
    assert OccursAt(s, sep, |a|);
    forall i: nat | i < |a| ensures !OccursAt(s, sep, i) {
      assert s[i] == a[i];
    }
  }

  /** A string without `sep`'s first character holds no occurrence of `sep`. */
  lemma IndexOfNone(a: string, sep: string)
    requires |sep| > 0 && Avoids(a, sep[0])
    ensures IndexOf(a, sep) == None
  {
    forall i: nat ensures !OccursAt(a, sep, i) {
      if i + |sep| <= |a| {
        assert a[i..i + |sep|][0] == a[i];
      }
    }
  }

  /** Splitting a join gives the pieces back when no piece holds the separator's first character. */
  lemma {:induction false} SplitJoin(pieces: seq<string>, sep: string)
    requires |sep| > 0 && |pieces| >= 1
    requires forall k :: 0 <= k < |pieces| ==> Avoids(pieces[k], sep[0])
    ensures Split(Join(pieces, sep), sep) == pieces
    decreases |pieces|
  {
    if |pieces| == 1 {
      IndexOfNone(pieces[0], sep);
    } else {
      var head, tail := pieces[0], pieces[1..];
      forall k | 0 <= k < |tail| ensures Avoids(tail[k], sep[0]) {
        assert tail[k] == pieces[k + 1];
      }
      SplitJoin(tail, sep);
      SplitJoinStep(head, tail, sep);
      assert pieces == [head] + tail;
    }
  }

  /** The inductive step of `SplitJoin`: a piece free of the separator's first character, put in front. */
  lemma SplitJoinStep(head: string, tail: seq<string>, sep: string)
    requires |sep| > 0 && |tail| >= 1 && Avoids(head, sep[0])
    requires Split(Join(tail, sep), sep) == tail
    ensures Split(Join([head] + tail, sep), sep) == [head] + tail
  {
    var rest := Join(tail, sep);
    var s := head + sep + rest;
    JoinCons(head, tail, sep);
    IndexOfAfter(head, sep, rest);
    SplitAt(s, sep, |head|);
    assert s[..|head|] == head;
    assert s[|head| + |sep|..] == rest;
  }

  /** One step of `Split`: the piece before the leftmost separator, then the split of what follows it. */
  lemma SplitAt(s: string, sep: string, i: nat)
    requires |sep| > 0 && IndexOf(s, sep) == Some(i)
    ensures i + |sep| <= |s|
    ensures Split(s, sep) == [s[..i]] + Split(s[i + |sep|..], sep)
  {
    assert OccursAt(s, sep, i);
  }

  predicate IsDigit(ch: char) { '0' <= ch <= '9' }

  /** A non-empty string of decimal digits only. */
  predicate IsNumeral(s: string) {
    |s| > 0 && forall k :: 0 <= k < |s| ==> IsDigit(s[k])
  }

  /** The number written by a string of decimal digits. */
  function DecimalValue(s: string): nat
    requires forall k :: 0 <= k < |s| ==> IsDigit(s[k])
  {
    if s == [] then 0
    else
      assert IsDigit(s[|s| - 1]);
      10 * DecimalValue(s[..|s| - 1]) + (s[|s| - 1] as int - '0' as int) as nat
  }

  /** Go's `val, _ := strconv.Atoi(s)`: the error is ignored, so a string that is not a numeral reads as 0. */
  function Atoi(s: string): nat {
    if IsNumeral(s) then DecimalValue(s) else 0
  }

  /** The length of the run of digits that starts `s`. */
  function DigitPrefix(s: string): (n: nat)
    ensures n <= |s|
    ensures forall k :: 0 <= k < n ==> IsDigit(s[k])
    ensures n < |s| ==> !IsDigit(s[n])
  {
    if s == [] || !IsDigit(s[0]) then 0 else 1 + DigitPrefix(s[1..])
  }

  /** JavaScript's `parseInt(s, 10)`: the leading digits, or `NaN` (None) when there are none. */
  function ParseInt(s: string): (r: Option<nat>)
    ensures r.None? <==> (s == [] || !IsDigit(s[0]))
    ensures IsNumeral(s) ==> r == Some(DecimalValue(s))
  {
    var n := DigitPrefix(s);
    if n == 0 then None
    else
      assert IsNumeral(s) ==> n == |s| && s[..n] == s;
      Some(DecimalValue(s[..n]))
  }
}
