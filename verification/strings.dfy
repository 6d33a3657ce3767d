/**
 Python string operations the plugin relies on: `str.split` with a
 one-character separator, `sep.join`, `str(n)` for a natural number, and
 index searches used by the regular-expression model.
 */
module Strings {
  import opened Wrappers

  /** The plugin's line break in replies: six spaces and a newline (a Markdown hard break). */
  const NL := "      \n"

  /** The first index at or after `from` holding `c`, if any. */
  function IndexOf(s: string, c: char, from: nat): (r: Option<nat>)
    requires from <= |s|
    ensures r.Some? ==> from <= r.value < |s| && s[r.value] == c
    ensures r.Some? ==> forall k :: from <= k < r.value ==> s[k] != c
    ensures r.None? ==> forall k :: from <= k < |s| ==> s[k] != c
    decreases |s| - from
  {
    if from == |s| then None
    else if s[from] == c then Some(from)
    else IndexOf(s, c, from + 1)
  }

  /** The last index in `[lo, hi)` holding `c`, if any. */
  function LastIndexIn(s: string, c: char, lo: nat, hi: nat): (r: Option<nat>)
    requires lo <= hi <= |s|
    ensures r.Some? ==> lo <= r.value < hi && s[r.value] == c
    ensures r.Some? ==> forall k :: r.value < k < hi ==> s[k] != c
    ensures r.None? ==> forall k :: lo <= k < hi ==> s[k] != c
    decreases hi - lo
  {
    if lo == hi then None
    else if s[hi - 1] == c then Some(hi - 1)
    else LastIndexIn(s, c, lo, hi - 1)
  }

  /** Python's `sep.join(pieces)`. */
  function Join(pieces: seq<string>, sep: string): string
  {
    if |pieces| == 0 then ""
    else if |pieces| == 1 then pieces[0]
    else pieces[0] + sep + Join(pieces[1..], sep)
  }

  /**
   Python's `s.split(sep)` for a one-character separator: every occurrence
   cuts, so doubled or trailing separators give empty pieces, and the empty
   string gives one empty piece.
   */
  function Split(s: string, sep: char): (r: seq<string>)
    ensures |r| >= 1
    ensures |r| == 1 <==> sep !in s
    ensures forall i :: 0 <= i < |r| ==> sep !in r[i]
    decreases |s|
  {
    match IndexOf(s, sep, 0)
    case None =>
      assert forall k :: 0 <= k < |s| ==> s[k] != sep;
      [s]
    case Some(i) =>
      assert s[i] == sep;
      assert forall k :: 0 <= k < i ==> s[..i][k] != sep;
      [s[..i]] + Split(s[i + 1..], sep)
  }

  /** A split cuts at the first separator. */
  lemma SplitFirst(s: string, sep: char, i: nat)
    requires IndexOf(s, sep, 0) == Some(i)
    ensures Split(s, sep) == [s[..i]] + Split(s[i + 1..], sep)
  {
  }

  /** A join of two or more pieces starts with the first piece and a separator. */
  lemma JoinCons(head: string, rest: seq<string>, sep: string)
    requires |rest| >= 1
    ensures Join([head] + rest, sep) == head + sep + Join(rest, sep)
  {
    assert ([head] + rest)[1..] == rest;
  }

  /** Joining the pieces of a split with the same separator gives the string back. */
  lemma {:induction false} JoinSplit(s: string, sep: char)
    ensures Join(Split(s, sep), [sep]) == s
    decreases |s|
  {
    if sep !in s {
      SplitWithoutSeparator(s, sep);
    } else {
      var i := IndexOf(s, sep, 0).value;
      var head, tail := s[..i], s[i + 1..];
      SplitFirst(s, sep, i);
      JoinCons(head, Split(tail, sep), [sep]);
      JoinSplit(tail, sep);
      CutAt(s, i);
    }
  }

  /** A string is the part before a position, the character there, and the part after. */
  lemma CutAt(s: string, i: nat)
    requires i < |s|
    ensures s == s[..i] + [s[i]] + s[i + 1..]
  {
  }

  /** A string without the separator does not split. */
  lemma SplitWithoutSeparator(s: string, sep: char)
    requires sep !in s
    ensures Split(s, sep) == [s]
  {
  }

  /** The first separator of `p + [sep] + rest` sits right after `p` when `p` has none. */
  lemma IndexOfAfterPrefix(p: string, sep: char, rest: string)
    requires sep !in p
    ensures IndexOf(p + [sep] + rest, sep, 0) == Some(|p|)
  {
    var s := p + [sep] + rest;
    assert s[|p|] == sep;
    assert forall k :: 0 <= k < |p| ==> s[k] == p[k];
  }

  /** Splitting a join gives the pieces back, provided no piece holds the separator. */
  lemma {:induction false} SplitJoin(pieces: seq<string>, sep: char)
    requires |pieces| >= 1
    requires forall i :: 0 <= i < |pieces| ==> sep !in pieces[i]
    ensures Split(Join(pieces, [sep]), sep) == pieces
    decreases |pieces|
  {
    if |pieces| == 1 {
      SplitWithoutSeparator(pieces[0], sep);
    } else {
      var head, tail := pieces[0], pieces[1..];
      var rest := Join(tail, [sep]);
      JoinCons(head, tail, [sep]);
      assert [head] + tail == pieces;
      SplitAfterPrefix(head, sep, rest);
      SplitJoin(tail, sep);
    }
  }

  /** Splitting `p + [sep] + rest`, where `p` has no separator, gives `p` and then the pieces of `rest`. */
  lemma SplitAfterPrefix(p: string, sep: char, rest: string)
    requires sep !in p
    ensures Split(p + [sep] + rest, sep) == [p] + Split(rest, sep)
  {
    var s := p + [sep] + rest;
    IndexOfAfterPrefix(p, sep, rest);
    assert s[..|p|] == p;
    assert s[|p| + 1..] == rest;
    SplitFirst(s, sep, |p|);
  }

  /** A join with a non-empty separator is empty exactly when there is nothing to join or one empty piece. */
  lemma JoinEmpty(pieces: seq<string>, sep: string)
    requires sep != ""
    ensures Join(pieces, sep) == "" <==> pieces == [] || pieces == [""]
  {
    if |pieces| >= 2 {
      assert |Join(pieces, sep)| >= |sep|;
    }
  }

  /** Appending one piece to a non-empty join adds the separator and the piece. */
  lemma {:induction false} JoinSnoc(pieces: seq<string>, p: string, sep: string)
    requires |pieces| >= 1
    ensures Join(pieces + [p], sep) == Join(pieces, sep) + sep + p
    decreases |pieces|
  {
    if |pieces| == 1 {
      assert (pieces + [p])[1..] == [p];
    } else {
      assert (pieces + [p])[1..] == pieces[1..] + [p];
      JoinSnoc(pieces[1..], p, sep);
    }
  }

  /** `part` occurs inside `whole` starting at position `i`. */
  predicate OccursAt(part: string, whole: string, i: int)
  {
    0 <= i <= |whole| - |part| && whole[i..i + |part|] == part
  }

  /** `part` occurs somewhere inside `whole`. */
  ghost predicate IsInfix(part: string, whole: string)
  {
    exists i :: OccursAt(part, whole, i)
  }

  /** Every piece of a join occurs in the joined string. */
  lemma {:induction false} JoinContainsPieces(pieces: seq<string>, sep: string, k: nat)
    requires k < |pieces|
    ensures IsInfix(pieces[k], Join(pieces, sep))
    decreases |pieces|
  {
    var whole := Join(pieces, sep);
    if |pieces| == 1 {
      assert OccursAt(pieces[0], whole, 0);
    } else if k == 0 {
      assert whole == pieces[0] + sep + Join(pieces[1..], sep);
      assert whole[0..|pieces[0]|] == pieces[0];
      assert OccursAt(pieces[0], whole, 0);
    } else {
      var rest := Join(pieces[1..], sep);
      var offset := |pieces[0]| + |sep|;
      assert whole == pieces[0] + sep + rest;
      JoinContainsPieces(pieces[1..], sep, k - 1);
      assert pieces[1..][k - 1] == pieces[k];
      var i :| OccursAt(pieces[k], rest, i);
      assert whole[offset + i..offset + i + |pieces[k]|] == rest[i..i + |pieces[k]|];
      assert OccursAt(pieces[k], whole, offset + i);
    }
  }

  /** An occurrence survives putting text in front of and behind the whole. */
  lemma InfixWithin(part: string, pre: string, whole: string, post: string)
    requires IsInfix(part, whole)
    ensures IsInfix(part, pre + whole + post)
  {
    var i :| OccursAt(part, whole, i);
    var w := pre + whole + post;
    assert w[|pre| + i..|pre| + i + |part|] == whole[i..i + |part|];
    assert OccursAt(part, w, |pre| + i);
  }

  predicate IsDigit(c: char)
  {
    '0' <= c <= '9'
  }

  function DigitChar(d: nat): (c: char)
    requires d < 10
    ensures IsDigit(c) && c as int - '0' as int == d
  {
    ('0' as int + d) as char
  }

  /** Python's `str(n)` for a natural number: decimal digits without leading zeros. */
  function NatToString(n: nat): (r: string)
    ensures |r| >= 1
    ensures forall i :: 0 <= i < |r| ==> IsDigit(r[i])
    ensures r[0] == '0' ==> n == 0
    decreases n
  {
    if n < 10 then [DigitChar(n)] else NatToString(n / 10) + [DigitChar(n % 10)]
  }

  /** The number a string of decimal digits denotes. */
  function DigitsValue(s: string): nat
    requires forall i :: 0 <= i < |s| ==> IsDigit(s[i])
  {
    if s == "" then 0
    else
      var last := s[|s| - 1];
      assert IsDigit(last);
      10 * DigitsValue(s[..|s| - 1]) + (last as int - '0' as int)
  }

  /** Reading back the decimal rendering of `n` gives `n`. */
  lemma {:induction false} NatToStringRoundTrip(n: nat)
    ensures DigitsValue(NatToString(n)) == n
    decreases n
  {
    var r := NatToString(n);
    if n >= 10 {
      NatToStringRoundTrip(n / 10);
      assert r[..|r| - 1] == NatToString(n / 10);
    }
  }
}
