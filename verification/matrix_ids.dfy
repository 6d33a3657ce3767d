/**
 The plugin's two regular expressions over a Matrix user id: `re.search(r"@.*:.*", s)`
 decides whether a token is routed to the Matrix lookup (fedora/__init__.py:118),
 and `re.findall(r"@(.*):(.*)", s)[0]` splits it into local part and server
 (fedora/__init__.py:72). In Python's `re`, `.` matches every character except a
 newline, so both patterns work within one line.
 */
module MatrixIds {
  import opened Wrappers
  import opened Strings

  datatype MatrixId = MatrixId(localpart: string, server: string)

  /** No newline in `s[lo..hi]`. */
  predicate NoNewline(s: string, lo: nat, hi: nat)
    requires lo <= hi <= |s|
  {
    forall k :: lo <= k < hi ==> s[k] != '\n'
  }

  /**
   What `re.search(r"@.*:.*", s)` accepts: an `@` followed, later on the same
   line, by a `:`.
   */
  predicate HasMatrixShape(s: string)
  {
    exists i, j :: 0 <= i < j < |s| && s[i] == '@' && s[j] == ':' && NoNewline(s, i + 1, j)
  }

  /** The end of the line that position `i` is on: the next newline, or the end of `s`. */
  function LineEnd(s: string, i: nat): (e: nat)
    requires i <= |s|
    ensures i <= e <= |s|
    ensures e == |s| || s[e] == '\n'
    ensures NoNewline(s, i, e)
  {
    match IndexOf(s, '\n', i)
    case None => |s|
    case Some(e) => e
  }

  /** `@(.*):(.*)` matches at position `i`. */
  predicate MatchesAt(s: string, i: nat)
  {
    i < |s| && s[i] == '@' && LastIndexIn(s, ':', i + 1, LineEnd(s, i + 1)).Some?
  }

  /** The leftmost position at or after `from` where `@(.*):(.*)` matches. */
  function FirstMatch(s: string, from: nat): (r: Option<nat>)
    requires from <= |s|
    ensures r.Some? ==> from <= r.value < |s| && MatchesAt(s, r.value)
    ensures r.Some? ==> forall k :: from <= k < r.value ==> !MatchesAt(s, k)
    ensures r.None? ==> forall k :: from <= k < |s| ==> !MatchesAt(s, k)
    decreases |s| - from
  {
    if from == |s| then None
    else if MatchesAt(s, from) then Some(from)
    else FirstMatch(s, from + 1)
  }

  /**
   `s` holds `"@" + id.localpart + ":" + id.server` from position `i`, the
   server runs to the end of the line and holds no colon, and neither part
   crosses a newline: the split the greedy groups of `@(.*):(.*)` make.
   */
  predicate SplitsAs(s: string, i: nat, id: MatrixId)
  {
    var c := i + 1 + |id.localpart|;
    var e := c + 1 + |id.server|;
    && e <= |s|
    && s[i] == '@'
    && s[i + 1..c] == id.localpart
    && s[c] == ':'
    && s[c + 1..e] == id.server
    && (e == |s| || s[e] == '\n')
    && '\n' !in id.localpart
    && '\n' !in id.server
    && ':' !in id.server
  }

  /** The two groups `@(.*):(.*)` captures when it matches at position `i`. */
  function SplitAt(s: string, i: nat): (id: MatrixId)
    requires MatchesAt(s, i)
    ensures SplitsAs(s, i, id)
  {
    var e := LineEnd(s, i + 1);
    var c := LastIndexIn(s, ':', i + 1, e).value;
    var id := MatrixId(s[i + 1..c], s[c + 1..e]);
    assert |id.localpart| == c - i - 1 && |id.server| == e - c - 1;
    assert forall k :: 0 <= k < |id.localpart| ==> id.localpart[k] == s[i + 1 + k];
    assert forall k :: 0 <= k < |id.server| ==> id.server[k] == s[c + 1 + k];
    assert '\n' !in id.localpart && '\n' !in id.server && ':' !in id.server;
    id
  }

  /**
   The first match of `re.findall(r"@(.*):(.*)", s)`, or `None` when the list
   is empty (where the source's `[0]` raises IndexError).
   */
  function ParseMatrixId(s: string): (r: Option<MatrixId>)
    ensures r.Some? <==> FirstMatch(s, 0).Some?
    ensures r.Some? ==> SplitsAs(s, FirstMatch(s, 0).value, r.value)
  {
    match FirstMatch(s, 0)
    case None => None
    case Some(i) => Some(SplitAt(s, i))
  }

  /** The split at a given position is unique: greedy matching leaves no choice. */
  lemma SplitsAsUnique(s: string, i: nat, a: MatrixId, b: MatrixId)
    requires SplitsAs(s, i, a) && SplitsAs(s, i, b)
    ensures a == b
  {
    var ca, cb := i + 1 + |a.localpart|, i + 1 + |b.localpart|;
    var ea, eb := ca + 1 + |a.server|, cb + 1 + |b.server|;
    assert forall k :: i + 1 <= k < ca ==> s[k] == a.localpart[k - i - 1];
    assert forall k :: ca < k < ea ==> s[k] == a.server[k - ca - 1];
    assert forall k :: i + 1 <= k < cb ==> s[k] == b.localpart[k - i - 1];
    assert forall k :: cb < k < eb ==> s[k] == b.server[k - cb - 1];
    assert ea == eb;
    assert ca == cb;
  }

  /** The routing test and the split agree: a token is routed to the Matrix lookup exactly when it can be split. */
  lemma ShapeIffParses(s: string)
    ensures HasMatrixShape(s) <==> ParseMatrixId(s).Some?
  {
    if HasMatrixShape(s) {
      var i, j :| 0 <= i < j < |s| && s[i] == '@' && s[j] == ':' && NoNewline(s, i + 1, j);
      var e := LineEnd(s, i + 1);
      assert j < e;
      assert MatchesAt(s, i);
    }
    if ParseMatrixId(s).Some? {
      var i := FirstMatch(s, 0).value;
      var e := LineEnd(s, i + 1);
      var c := LastIndexIn(s, ':', i + 1, e).value;
      assert NoNewline(s, i + 1, c);
    }
  }

  /** The first index of `c` in `s` is the first index from 0. */
  function FirstIndex(s: string, c: char): Option<nat>
  {
    IndexOf(s, c, 0)
  }

  /** The last index of `c` in `s`. */
  function LastIndex(s: string, c: char): Option<nat>
  {
    LastIndexIn(s, c, 0, |s|)
  }

  /** Narrowing the range from below keeps the last occurrence as long as it stays inside. */
  lemma LastIndexInNarrow(s: string, c: char, lo: nat, lo': nat, hi: nat)
    requires lo <= lo' <= hi <= |s|
    requires LastIndexIn(s, c, lo, hi).Some?
    requires lo' <= LastIndexIn(s, c, lo, hi).value
    ensures LastIndexIn(s, c, lo', hi) == LastIndexIn(s, c, lo, hi)
  {
    var v := LastIndexIn(s, c, lo, hi).value;
    assert s[v] == c;
  }

  /** On a one-line string the first `@` that has a `:` after it is where the match starts. */
  lemma FirstMatchOneLine(s: string, f: nat)
    requires '\n' !in s
    requires FirstIndex(s, '@') == Some(f)
    requires MatchesAt(s, f)
    ensures FirstMatch(s, 0) == Some(f)
  {
    var r := FirstMatch(s, 0);
    assert r.Some?;
    assert s[r.value] == '@';
  }

  /** The split read off the match position, the line end and the last colon before it. */
  lemma ParseAt(s: string, f: nat, e: nat, l: nat)
    requires FirstMatch(s, 0) == Some(f)
    requires f + 1 <= |s| && LineEnd(s, f + 1) == e
    requires LastIndexIn(s, ':', f + 1, e) == Some(l)
    ensures ParseMatrixId(s) == Some(MatrixId(s[f + 1..l], s[l + 1..e]))
  {
  }

  /** A string without newlines has its line end at the end. */
  lemma OneLineEnd(s: string, i: nat)
    requires '\n' !in s
    requires i <= |s|
    ensures LineEnd(s, i) == |s|
  {
    var e := LineEnd(s, i);
    if e < |s| {
      assert s[e] in s;
    }
  }

  /** A routed token has an `@` before its last `:`, and on one line the match starts at its first `@`. */
  lemma ShapeBounds(s: string)
    requires '\n' !in s
    requires HasMatrixShape(s)
    ensures FirstIndex(s, '@').Some? && LastIndex(s, ':').Some?
    ensures FirstIndex(s, '@').value < LastIndex(s, ':').value
    ensures MatchesAt(s, FirstIndex(s, '@').value)
  {
    var i, j :| 0 <= i < j < |s| && s[i] == '@' && s[j] == ':' && NoNewline(s, i + 1, j);
    assert s[i] == '@' && s[j] == ':';
    var f := FirstIndex(s, '@').value;
    var l := LastIndex(s, ':').value;
    OneLineEnd(s, f + 1);
    LastIndexInNarrow(s, ':', 0, f + 1, |s|);
  }

  /**
   On a one-line token routed to the Matrix lookup, the split always succeeds:
   the local part is the text between the first `@` and the last `:`, the
   server is the text after the last `:`.
   */
  lemma RoutedTokenSplit(s: string)
    requires '\n' !in s
    requires HasMatrixShape(s)
    ensures FirstIndex(s, '@').Some? && LastIndex(s, ':').Some?
    ensures FirstIndex(s, '@').value < LastIndex(s, ':').value
    ensures ParseMatrixId(s)
      == Some(MatrixId(s[FirstIndex(s, '@').value + 1..LastIndex(s, ':').value], s[LastIndex(s, ':').value + 1..]))
  {
    ShapeBounds(s);
    var f := FirstIndex(s, '@').value;
    var l := LastIndex(s, ':').value;
    OneLineEnd(s, f + 1);
    LastIndexInNarrow(s, ':', 0, f + 1, |s|);
    FirstMatchOneLine(s, f);
    ParseAt(s, f, |s|, l);
    assert s[l + 1..|s|] == s[l + 1..];
  }
}
