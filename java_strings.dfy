/**
 * The java.lang.String operations the include resolver relies on, over `seq<char>`:
 * `trim`, `isEmpty` after trim, `split(",")`, `lastIndexOf`, `startsWith`, `substring` and `compareTo`.
 */
module JavaStrings {

  /** `String.trim` removes every character whose code is at most U+0020. */
  predicate IsTrimmed(c: char)
  {
    c <= ' '
  }

  /** `trim`'s first loop: from `st`, the index of the first character it keeps (or `|s|`). */
  function SkipTrimmed(s: string, st: nat): (r: nat)
    requires st <= |s|
    ensures st <= r <= |s|
    ensures forall k :: st <= k < r ==> IsTrimmed(s[k])
    ensures r < |s| ==> !IsTrimmed(s[r])
    decreases |s| - st
  {
    if st < |s| && IsTrimmed(s[st]) then SkipTrimmed(s, st + 1) else st
  }

  /** `trim`'s second loop: from `len`, the end of the kept part, never moving below `st`. */
  function DropTrimmed(s: string, st: nat, len: nat): (r: nat)
    requires st <= len <= |s|
    ensures st <= r <= len
    ensures forall k :: r <= k < len ==> IsTrimmed(s[k])
    ensures r > st ==> !IsTrimmed(s[r - 1])
    decreases len
  {
    if st < len && IsTrimmed(s[len - 1]) then DropTrimmed(s, st, len - 1) else len
  }

  /** `s.trim()`: the characters from the first kept one up to the last kept one. */
  function Trim(s: string): (r: string)
  {
    var st := SkipTrimmed(s, 0);
    s[st..DropTrimmed(s, st, |s|)]
  }

  /** `s.trim().isEmpty()`. */
  predicate IsBlank(s: string)
  {
    Trim(s) == []
  }

  /**
   * `trim` cuts only characters at most U+0020 off both ends, and what remains starts and ends with a
   * character above U+0020.
   */
  lemma TrimIsInfix(s: string)
    ensures exists i, j ::
      && 0 <= i <= j <= |s| && Trim(s) == s[i..j]
      && (forall k :: 0 <= k < i ==> IsTrimmed(s[k]))
      && (forall k :: j <= k < |s| ==> IsTrimmed(s[k]))
    ensures Trim(s) != [] ==> !IsTrimmed(Trim(s)[0]) && !IsTrimmed(Trim(s)[|Trim(s)| - 1])
  {
    var i := SkipTrimmed(s, 0);
    var j := DropTrimmed(s, i, |s|);
    assert Trim(s) == s[i..j];
    if i < j {
      assert Trim(s)[0] == s[i] && Trim(s)[|Trim(s)| - 1] == s[j - 1];
    }
  }

  /** A string is blank exactly when every character in it is at most U+0020. */
  lemma BlankIffAllTrimmed(s: string)
    ensures IsBlank(s) <==> forall k :: 0 <= k < |s| ==> IsTrimmed(s[k])
  {
    var i := SkipTrimmed(s, 0);
    var j := DropTrimmed(s, i, |s|);
    if forall k :: 0 <= k < |s| ==> IsTrimmed(s[k]) {
      assert i == |s|;
    } else {
      var k :| 0 <= k < |s| && !IsTrimmed(s[k]);
      assert i <= k < j;
      assert |s[i..j]| > 0;
    }
  }

  /** Position of the first `c` in `s`. */
  function FirstIndex(s: string, c: char): (r: nat)
    requires c in s
    ensures r < |s| && s[r] == c && c !in s[..r]
  {
    if s[0] == c then 0
    else
      assert s == [s[0]] + s[1..];
      var i := FirstIndex(s[1..], c);
      assert s[..i + 1] == [s[0]] + s[1..][..i];
      i + 1
  }

  /** The first occurrence is the only occurrence with none before it. */
  lemma FirstIndexAt(s: string, c: char, i: nat)
    requires i < |s| && s[i] == c && c !in s[..i]
    ensures FirstIndex(s, c) == i
  {
  }

  /** Every piece of `s` between occurrences of `c`, empty pieces included. */
  function Pieces(s: string, c: char): (r: seq<string>)
    ensures |r| >= 1
    ensures forall p :: p in r ==> c !in p
    decreases |s|
  {
    if c !in s then [s]
    else
      var i := FirstIndex(s, c);
      [s[..i]] + Pieces(s[i + 1..], c)
  }

  /** `String.join(c, ps)`. */
  function Join(ps: seq<string>, c: char): string
  {
    if ps == [] then []
    else if |ps| == 1 then ps[0]
    else ps[0] + [c] + Join(ps[1..], c)
  }

  /** Cutting at every `c` and joining the pieces back with `c` gives back the string. */
  lemma {:induction false} JoinPieces(s: string, c: char)
    ensures Join(Pieces(s, c), c) == s
    decreases |s|
  {
    if c in s {
      var i := FirstIndex(s, c);
      var ps, rest := Pieces(s, c), Pieces(s[i + 1..], c);
      assert ps == [s[..i]] + rest;
      assert |ps| > 1 && ps[0] == s[..i] && ps[1..] == rest;
      JoinPieces(s[i + 1..], c);
      assert Join(ps, c) == s[..i] + [c] + s[i + 1..];
      assert s == s[..i] + [c] + s[i + 1..];
    }
  }

  /** Joining pieces free of `c` and cutting again gives back the pieces. */
  lemma {:induction false} PiecesJoin(ps: seq<string>, c: char)
    requires |ps| >= 1 && forall p :: p in ps ==> c !in p
    ensures Pieces(Join(ps, c), c) == ps
    decreases |ps|
  {
    if |ps| > 1 {
      var a, rest := ps[0], Join(ps[1..], c);
      var s := a + [c] + rest;
      assert Join(ps, c) == s;
      assert s[..|a|] == a && s[|a|] == c && s[|a| + 1..] == rest;
      assert c !in a by { assert a in ps; }
      FirstIndexAt(s, c, |a|);
      assert Pieces(s, c) == [a] + Pieces(rest, c);
      assert forall p :: p in ps[1..] ==> p in ps;
      PiecesJoin(ps[1..], c);
      assert ps == [a] + ps[1..];
    }
  }

  /** Drops the empty strings at the end of `ps`. */
  function DropTrailingEmpty(ps: seq<string>): (r: seq<string>)
    ensures |r| <= |ps| && r == ps[..|r|]
    ensures r == [] || r[|r| - 1] != []
    ensures forall k :: |r| <= k < |ps| ==> ps[k] == []
  {
    if ps != [] && ps[|ps| - 1] == [] then DropTrailingEmpty(ps[..|ps| - 1]) else ps
  }

  /**
   * `s.split(",")` for a one-character separator: the whole string when the separator does not occur,
   * otherwise every piece with the trailing empty pieces removed.
   */
  function Split(s: string, c: char): (r: seq<string>)
    ensures forall p :: p in r ==> c !in p
  {
    if c !in s then [s] else DropTrailingEmpty(Pieces(s, c))
  }

  /** Two pieces joined by one separator split back into those two pieces. */
  lemma SplitTwo(a: string, b: string, c: char)
    requires c !in a && c !in b && b != []
    ensures Split(a + [c] + b, c) == [a, b]
  {
    var s := a + [c] + b;
    assert s[|a|] == c && s[..|a|] == a && s[|a| + 1..] == b;
    FirstIndexAt(s, c, |a|);
    assert Pieces(b, c) == [b];
    assert Pieces(s, c) == [a, b];
    assert DropTrailingEmpty([a, b]) == [a, b];
  }

  /** A string that starts and ends with a character above U+0020 is its own trim. */
  lemma TrimKeeps(s: string)
    requires s != [] && !IsTrimmed(s[0]) && !IsTrimmed(s[|s| - 1])
    ensures Trim(s) == s
  {
    assert SkipTrimmed(s, 0) == 0 && DropTrimmed(s, 0, |s|) == |s|;
    assert s[0..|s|] == s;
  }

  /** The last separator of `a + [c] + b`, where `b` holds none, is the one between them. */
  lemma {:induction false} LastIndexOfJoin(a: string, b: string, c: char)
    requires c !in b
    ensures LastIndexOf(a + [c] + b, c) == |a|
    decreases |b|
  {
    var s := a + [c] + b;
    if b != [] {
      assert s[|s| - 1] == b[|b| - 1];
      assert s[..|s| - 1] == a + [c] + b[..|b| - 1];
      LastIndexOfJoin(a, b[..|b| - 1], c);
    }
  }

  /** `s.lastIndexOf(c)`: -1 when absent. */
  function LastIndexOf(s: string, c: char): (r: int)
    ensures -1 <= r < |s|
    ensures r == -1 <==> c !in s
    ensures r >= 0 ==> s[r] == c && c !in s[r + 1..]
    ensures forall k :: r < k < |s| ==> s[k] != c
  {
    if s == [] then -1
    else if s[|s| - 1] == c then |s| - 1
    else
      assert s == s[..|s| - 1] + [s[|s| - 1]];
      LastIndexOf(s[..|s| - 1], c)
  }

  /** `s.startsWith(p)`. */
  predicate StartsWith(s: string, p: string)
  {
    |p| <= |s| && s[..|p|] == p
  }

  /** A string that starts with `p` is `p` followed by the rest. */
  lemma StartsWithRest(s: string, p: string)
    requires StartsWith(s, p)
    ensures p + s[|p|..] == s
  {
    assert s == s[..|p|] + s[|p|..];
  }

  /** `a.compareTo(b) < 0`: lexicographic by character, a proper prefix comes first. */
  predicate LexLess(a: string, b: string)
  {
    if a == [] then b != []
    else if b == [] then false
    else if a[0] != b[0] then a[0] < b[0]
    else LexLess(a[1..], b[1..])
  }

  /** A proper prefix comes first. */
  lemma {:induction false} LexLessProperPrefix(a: string, b: string)
    requires |a| < |b| && b[..|a|] == a
    ensures LexLess(a, b)
  {
    if a != [] {
      assert a[0] == b[0];
      assert b[1..][..|a| - 1] == a[1..];
      LexLessProperPrefix(a[1..], b[1..]);
    }
  }

  lemma {:induction false} LexLessIrreflexive(a: string)
    ensures !LexLess(a, a)
  {
    if a != [] {
      LexLessIrreflexive(a[1..]);
    }
  }

  lemma {:induction false} LexLessTransitive(a: string, b: string, c: string)
    requires LexLess(a, b) && LexLess(b, c)
    ensures LexLess(a, c)
  {
    if a != [] && a[0] == b[0] && b[0] == c[0] {
      LexLessTransitive(a[1..], b[1..], c[1..]);
    }
  }

  /** `compareTo` is a total order: two different strings are ordered one way. */
  lemma {:induction false} LexLessTotal(a: string, b: string)
    requires a != b
    ensures LexLess(a, b) || LexLess(b, a)
  {
    if a != [] && b != [] && a[0] == b[0] {
      assert a == [a[0]] + a[1..] && b == [b[0]] + b[1..];
      LexLessTotal(a[1..], b[1..]);
    }
  }

  lemma {:induction false} LexLessAsymmetric(a: string, b: string)
    requires LexLess(a, b)
    ensures !LexLess(b, a)
  {
    if a != [] && b != [] && a[0] == b[0] {
      LexLessAsymmetric(a[1..], b[1..]);
    }
  }
}
