/**
 * The `std::string` searches the parsers are built from: `find` of a
 * character from a position, and the split of a string at every
 * occurrence of a separator, with the facts the parsers' proofs use.
 */
module StringSearch {
  /** `std::string::find(c, from)`: the first index at or after `from` holding `c`, or -1 for `npos`. */
  function FindFrom(s: string, c: char, from: nat): (k: int)
    requires from <= |s|
    ensures -1 <= k < |s|
    ensures k >= 0 ==> from <= k && s[k] == c
    decreases |s| - from
  {
    if from == |s| then -1 else if s[from] == c then from else FindFrom(s, c, from + 1)
  }

  /** `find` answers with the first occurrence, and with `npos` only when there is none. */
  lemma {:induction false} FindFromFirst(s: string, c: char, from: nat)
    requires from <= |s|
    ensures FindFrom(s, c, from) >= 0 ==> forall j :: from <= j < FindFrom(s, c, from) ==> s[j] != c
    ensures FindFrom(s, c, from) < 0 <==> forall j :: from <= j < |s| ==> s[j] != c
    decreases |s| - from
  {
    if from < |s| && s[from] != c {
      FindFromFirst(s, c, from + 1);
    }
  }

  /** Searching a suffix is searching the string from where the suffix starts. */
  lemma {:induction false} FindFromShift(s: string, c: char, a: nat, i: nat)
    requires a + i <= |s|
    ensures FindFrom(s[a..], c, i) == (if FindFrom(s, c, a + i) < 0 then -1 else FindFrom(s, c, a + i) - a)
    decreases |s| - a - i
  {
    if a + i < |s| {
      assert s[a..][i] == s[a + i];
      if s[a + i] != c {
        FindFromShift(s, c, a, i + 1);
      }
    }
  }

  /** The pieces of `s` between separators, as a separator-free reference definition. */
  function SplitOn(s: string, sep: char): (parts: seq<string>)
    ensures |parts| >= 1
    decreases |s|
  {
    var k := FindFrom(s, sep, 0);
    if k < 0 then [s] else [s[..k]] + SplitOn(s[k + 1..], sep)
  }

  /** Splitting at the first separator, at index `k`, gives the piece before it and then the pieces after it. */
  lemma SplitFirst(s: string, sep: char, k: nat, tail: seq<string>)
    requires k < |s| && s[k] == sep && (forall j :: 0 <= j < k ==> s[j] != sep)
    requires SplitOn(s[k + 1..], sep) == tail
    ensures SplitOn(s, sep) == [s[..k]] + tail
  {
    FindFromIs(s, sep, 0, k);
  }

  /** Splitting where `FindFrom` found the first separator. */
  lemma SplitAtFound(s: string, sep: char, k: nat)
    requires FindFrom(s, sep, 0) == k
    ensures k < |s| && SplitOn(s, sep) == [s[..k]] + SplitOn(s[k + 1..], sep)
  {
    var tail := SplitOn(s[k + 1..], sep);
    assert SplitOn(s, sep) == [s[..k]] + tail;
  }

  /** A string without the separator is one piece. */
  lemma SplitNone(s: string, sep: char)
    requires forall j :: 0 <= j < |s| ==> s[j] != sep
    ensures SplitOn(s, sep) == [s]
  {
    FindFromFirst(s, sep, 0);
  }

  /** The pieces joined back with the separator. */
  function Join(parts: seq<string>, sep: char): string
    requires |parts| >= 1
  {
    if |parts| == 1 then parts[0] else parts[0] + [sep] + Join(parts[1..], sep)
  }

  /** Splitting loses nothing: the pieces join back to the string. */
  lemma {:induction false} SplitOnJoins(s: string, sep: char)
    ensures Join(SplitOn(s, sep), sep) == s
    decreases |s|
  {
    var k := FindFrom(s, sep, 0);
    if k >= 0 {
      SplitOnJoins(s[k + 1..], sep);
      JoinAtSeparator(s, sep, k, SplitOn(s[k + 1..], sep));
    }
  }

  /** The piece before a separator, the separator and the rest's pieces joined give the string back. */
  lemma JoinAtSeparator(s: string, sep: char, k: nat, tail: seq<string>)
    requires k < |s| && s[k] == sep && |tail| >= 1 && Join(tail, sep) == s[k + 1..]
    ensures Join([s[..k]] + tail, sep) == s
  {
    var parts := [s[..k]] + tail;
    assert parts[0] == s[..k] && parts[1..] == tail;
    assert s == s[..k] + [sep] + s[k + 1..];
  }

  /** No piece of a split holds the separator. */
  lemma {:induction false} SplitOnPiecesClean(s: string, sep: char)
    ensures forall i, j :: 0 <= i < |SplitOn(s, sep)| && 0 <= j < |SplitOn(s, sep)[i]| ==> SplitOn(s, sep)[i][j] != sep
    decreases |s|
  {
    var k := FindFrom(s, sep, 0);
    FindFromFirst(s, sep, 0);
    if k >= 0 {
      var tail := SplitOn(s[k + 1..], sep);
      SplitOnPiecesClean(s[k + 1..], sep);
      var parts := SplitOn(s, sep);
      assert parts == [s[..k]] + tail;
      forall i, j | 0 <= i < |parts| && 0 <= j < |parts[i]|
        ensures parts[i][j] != sep
      {
        if i > 0 {
          assert parts[i] == tail[i - 1];
        } else {
          assert parts[0][j] == s[j];
        }
      }
    }
  }

  /** The last of the pieces. */
  function LastPiece(parts: seq<string>): string
    requires |parts| >= 1
  {
    parts[|parts| - 1]
  }

  /** The last piece is empty exactly when the string is empty or ends with the separator. */
  lemma {:induction false} LastPieceEmpty(s: string, sep: char)
    ensures |LastPiece(SplitOn(s, sep))| == 0 <==> |s| == 0 || s[|s| - 1] == sep
    decreases |s|
  {
    var k := FindFrom(s, sep, 0);
    if k < 0 {
      LastPieceWhole(s, sep);
    } else {
      LastPieceEmpty(s[k + 1..], sep);
      LastPieceAfter(s, sep, k);
    }
  }

  /** Without a separator the string is its own last piece. */
  lemma LastPieceWhole(s: string, sep: char)
    requires FindFrom(s, sep, 0) < 0
    ensures LastPiece(SplitOn(s, sep)) == s
    ensures |s| > 0 ==> s[|s| - 1] != sep
  {
    assert SplitOn(s, sep) == [s];
    if |s| > 0 {
      FindFromFirst(s, sep, 0);
    }
  }

  /** The last piece lies after the first separator, which ends the string only when nothing follows. */
  lemma LastPieceAfter(s: string, sep: char, k: nat)
    requires FindFrom(s, sep, 0) == k
    ensures var rest := s[k + 1..];
            LastPiece(SplitOn(s, sep)) == LastPiece(SplitOn(rest, sep))
            && (|rest| > 0 ==> rest[|rest| - 1] == s[|s| - 1])
            && (|rest| == 0 ==> s[|s| - 1] == sep)
  {
    var rest := s[k + 1..];
    var parts := SplitOn(s, sep);
    assert parts == [s[..k]] + SplitOn(rest, sep);
    assert LastPiece(parts) == LastPiece(SplitOn(rest, sep));
  }

  /** `find` stops at the first occurrence. */
  lemma {:induction false} FindFromIs(s: string, c: char, from: nat, k: nat)
    requires from <= k < |s| && s[k] == c
    requires forall j :: from <= j < k ==> s[j] != c
    ensures FindFrom(s, c, from) == k
    decreases k - from
  {
    if from < k {
      FindFromIs(s, c, from + 1, k);
    }
  }

  /**
   * The pieces a `find`-and-`substr` loop reads from `start` on: up to the
   * next separator, then the pieces after it, or the rest of the string
   * when no separator follows.
   */
  function PiecesFrom(s: string, sep: char, start: nat): (parts: seq<string>)
    requires start <= |s|
    ensures |parts| >= 1
    decreases |s| - start
  {
    var end := FindFrom(s, sep, start);
    if end < 0 then [s[start..]] else [s[start..end]] + PiecesFrom(s, sep, end + 1)
  }

  /** The loop reads exactly the pieces the split of the rest of the string gives. */
  lemma {:induction false} PiecesFromSplits(s: string, sep: char, start: nat)
    requires start <= |s|
    ensures PiecesFrom(s, sep, start) == SplitOn(s[start..], sep)
    decreases |s| - start
  {
    var end := FindFrom(s, sep, start);
    FindFromShift(s, sep, start, 0);
    var rest := s[start..];
    if end >= 0 {
      PiecesFromSplits(s, sep, end + 1);
      assert rest[..end - start] == s[start..end];
      assert rest[end - start + 1..] == s[end + 1..];
    }
  }
}
