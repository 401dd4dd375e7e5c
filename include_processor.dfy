/**
 * The `include` query parameter of JSON:API ("Inclusion of Related Resources"): validation of the raw value
 * against the supported relationship paths, and the level-by-level walk that fetches the related resources
 * for the `included` member of a response.
 */
module IncludeProcessor {
  import opened Wrappers
  import opened OrderedMaps
  import opened JavaStrings
  import opened Documents
  import opened Model
  import opened Identifiable

  /**
   * A supported include path, such as "author.address", and the caller's function that turns the ids found
   * under that relationship into resources (the entities it finds, already turned into resources).
   */
  datatype RelationshipRetriever = RelationshipRetriever(includePath: string, idsToResources: seq<string> -> seq<Resource>)

  const UnsupportedIncludes := "Found 'include' value(s), but none are supported"

  function UnsupportedValue(path: string): string
  {
    "unsupported 'include' value: [" + path + "]"
  }

  /** The include paths of a retriever list, in order. */
  function Paths(xs: seq<RelationshipRetriever>): (r: seq<string>)
    ensures |r| == |xs| && forall k :: 0 <= k < |xs| ==> r[k] == xs[k].includePath
  {
    seq(|xs|, k requires 0 <= k < |xs| => xs[k].includePath)
  }

  /** Every path strictly before the next one by `compareTo`: sorted and without duplicates. */
  predicate StrictlySorted(ps: seq<string>)
  {
    forall i, j :: 0 <= i < j < |ps| ==> LexLess(ps[i], ps[j])
  }

  /* ---------- Validation ---------- */

  /** The position of the first supported retriever with exactly this path (`stream().filter(...).findFirst()`). */
  function FirstWithPath(supported: seq<RelationshipRetriever>, path: string): (r: Option<nat>)
    ensures r.None? <==> forall k :: 0 <= k < |supported| ==> supported[k].includePath != path
    ensures r.Some? ==> r.value < |supported| && supported[r.value].includePath == path
    ensures r.Some? ==> forall k :: 0 <= k < r.value ==> supported[k].includePath != path
  {
    if supported == [] then None
    else if supported[0].includePath == path then Some(0)
    else
      match FirstWithPath(supported[1..], path)
      case None => None
      case Some(k) => Some(k + 1)
  }

  /** `rr` is the first supported retriever for `path`. */
  ghost predicate IsFirstFor(supported: seq<RelationshipRetriever>, path: string, rr: RelationshipRetriever)
  {
    FirstWithPath(supported, path).Some? && rr == supported[FirstWithPath(supported, path).value]
  }

  /**
   * A path and every prefix of it cut at a '.', shortest first: "a.b.c" gives "a", "a.b", "a.b.c"
   * (the prefixes `findParentPaths` visits).
   */
  function Ancestors(path: string): (r: seq<string>)
    ensures |r| >= 1 && r[|r| - 1] == path
    decreases |path|
  {
    var idx := LastIndexOf(path, '.');
    if idx >= 0 then Ancestors(path[..idx]) + [path] else [path]
  }

  /** Each visited prefix starts the path, and each is longer than the one before, so the first is the shortest. */
  lemma {:induction false} AncestorsArePrefixes(path: string)
    ensures forall i :: 0 <= i < |Ancestors(path)| ==> StartsWith(path, Ancestors(path)[i])
    ensures forall i, j :: 0 <= i < j < |Ancestors(path)| ==> |Ancestors(path)[i]| < |Ancestors(path)[j]|
    decreases |path|
  {
    var idx := LastIndexOf(path, '.');
    if idx >= 0 {
      var parent := path[..idx];
      AncestorsArePrefixes(parent);
      var pa := Ancestors(parent);
      assert Ancestors(path) == pa + [path];
      forall i | 0 <= i < |pa| ensures StartsWith(path, pa[i]) && |pa[i]| <= |parent| {
        assert StartsWith(parent, pa[i]);
        assert path[..|pa[i]|] == parent[..|pa[i]|];
      }
    }
  }

  /** The prefixes visited are exactly the path itself and its prefixes ending just before a '.'. */
  lemma AncestorsAreDotPrefixes(path: string, p: string)
    ensures p in Ancestors(path) <==> p == path || exists i :: 0 <= i < |path| && path[i] == '.' && p == path[..i]
  {
    if p in Ancestors(path) && p != path {
      AncestorIsDotPrefix(path, p);
    }
    if exists i :: 0 <= i < |path| && path[i] == '.' && p == path[..i] {
      var i :| 0 <= i < |path| && path[i] == '.' && p == path[..i];
      DotPrefixIsAncestor(path, i);
    }
  }

  lemma {:induction false} AncestorIsDotPrefix(path: string, p: string)
    requires p in Ancestors(path) && p != path
    ensures exists i :: 0 <= i < |path| && path[i] == '.' && p == path[..i]
    decreases |path|
  {
    var idx := LastIndexOf(path, '.');
    var parent := path[..idx];
    assert Ancestors(path) == Ancestors(parent) + [path];
    if p == parent {
      assert path[idx] == '.';
    } else {
      AncestorIsDotPrefix(parent, p);
      var i :| 0 <= i < |parent| && parent[i] == '.' && p == parent[..i];
      assert path[i] == '.' && p == path[..i];
    }
  }

  lemma {:induction false} DotPrefixIsAncestor(path: string, i: nat)
    requires i < |path| && path[i] == '.'
    ensures path[..i] in Ancestors(path)
    decreases |path|
  {
    var idx := LastIndexOf(path, '.');
    var parent := path[..idx];
    assert Ancestors(path) == Ancestors(parent) + [path];
    if i < idx {
      assert parent[i] == '.';
      DotPrefixIsAncestor(parent, i);
      assert parent[..i] == path[..i];
    }
  }

  /** The visited prefixes are closed under taking the parent: the part before the last '.' of each is also visited. */
  lemma {:induction false} AncestorsParentClosed(path: string, q: string)
    requires q in Ancestors(path) && LastIndexOf(q, '.') >= 0
    ensures q[..LastIndexOf(q, '.')] in Ancestors(path)
    decreases |path|
  {
    var idx := LastIndexOf(path, '.');
    if q != path {
      AncestorsParentClosed(path[..idx], q);
    }
  }

  /** Entry `j` of the prefixes is the first one no supported retriever carries: the shortest missing prefix. */
  predicate FirstMissing(ps: seq<string>, supported: seq<RelationshipRetriever>, j: int)
  {
    0 <= j < |ps| && FirstWithPath(supported, ps[j]).None? &&
    forall i :: 0 <= i < j ==> FirstWithPath(supported, ps[i]).Some?
  }

  /** `findParentPaths`: the parent's retrievers first, then the first supported retriever of the path itself. */
  function FindParentPaths(path: string, supported: seq<RelationshipRetriever>): Result<seq<RelationshipRetriever>>
    decreases |path|
  {
    var idx := LastIndexOf(path, '.');
    var parents :- if idx >= 0 then FindParentPaths(path[..idx], supported) else Ok([]);
    match FirstWithPath(supported, path)
    case None => Err(BadRequest(UnsupportedValue(path)))
    case Some(k) => Ok(parents + [supported[k]])
  }

  /** What `findParentPaths` answers for a path whose visited prefixes are `anc`. */
  ghost predicate ParentPathsFor(anc: seq<string>, supported: seq<RelationshipRetriever>, r: Result<seq<RelationshipRetriever>>)
  {
    && (r.Ok? <==> forall i :: 0 <= i < |anc| ==> FirstWithPath(supported, anc[i]).Some?)
    && (r.Ok? ==> |r.value| == |anc| && forall i :: 0 <= i < |anc| ==> IsFirstFor(supported, anc[i], r.value[i]))
    && (r.Err? ==> exists j :: FirstMissing(anc, supported, j) && r.error == BadRequest(UnsupportedValue(anc[j])))
  }

  /**
   * `findParentPaths` gives the first supported retriever of every prefix of the path, shortest first, and
   * fails exactly when one prefix is not supported. The parent is looked up before the path itself, so the
   * failure names the shortest prefix that is not supported.
   */
  lemma {:induction false} FindParentPathsSpec(path: string, supported: seq<RelationshipRetriever>)
    ensures ParentPathsFor(Ancestors(path), supported, FindParentPaths(path, supported))
    decreases |path|
  {
    var idx := LastIndexOf(path, '.');
    var pa := if idx >= 0 then Ancestors(path[..idx]) else [];
    var pr := if idx >= 0 then FindParentPaths(path[..idx], supported) else Ok([]);
    if idx >= 0 {
      FindParentPathsSpec(path[..idx], supported);
    }
    assert Ancestors(path) == pa + [path];
    ParentPathsStep(pa, path, supported, pr, FindParentPaths(path, supported));
  }

  /** One step of `findParentPaths`: the parent's answer, then the path's own lookup. */
  lemma ParentPathsStep(pa: seq<string>, path: string, supported: seq<RelationshipRetriever>,
                        pr: Result<seq<RelationshipRetriever>>, r: Result<seq<RelationshipRetriever>>)
    requires ParentPathsFor(pa, supported, pr)
    requires r == if pr.Err? then Err(pr.error)
                  else match FirstWithPath(supported, path)
                    case None => Err(BadRequest(UnsupportedValue(path)))
                    case Some(k) => Ok(pr.value + [supported[k]])
    ensures ParentPathsFor(pa + [path], supported, r)
  {
    var anc := pa + [path];
    if pr.Err? {
      var j :| FirstMissing(pa, supported, j) && pr.error == BadRequest(UnsupportedValue(pa[j]));
      assert FirstMissing(anc, supported, j);
    } else if FirstWithPath(supported, path).None? {
      assert FirstMissing(anc, supported, |anc| - 1);
    } else {
      assert forall i :: 0 <= i < |pa| ==> anc[i] == pa[i];
    }
  }

  /** The comma-separated segments of the raw value, each trimmed, as the validation loop looks them up. */
  function Segments(rawInclude: string): (r: seq<string>)
    ensures |r| == |Split(rawInclude, ',')|
    ensures forall k :: 0 <= k < |r| ==> r[k] == Trim(Split(rawInclude, ',')[k])
  {
    var parts := Split(rawInclude, ',');
    seq(|parts|, k requires 0 <= k < |parts| => Trim(parts[k]))
  }

  function Elements(s: seq<string>): (r: set<string>)
    ensures forall x :: x in r <==> x in s
  {
    set x | x in s
  }

  /** All prefixes of all segments. */
  function AncestorSet(segs: seq<string>): set<string>
  {
    if segs == [] then {} else AncestorSet(segs[..|segs| - 1]) + Elements(Ancestors(segs[|segs| - 1]))
  }

  /** A path is among the prefixes of the segments exactly when it is a prefix of one of them. */
  lemma {:induction false} AncestorSetMembers(segs: seq<string>, p: string)
    ensures p in AncestorSet(segs) <==> exists k :: 0 <= k < |segs| && p in Ancestors(segs[k])
  {
    if segs != [] {
      var init := segs[..|segs| - 1];
      AncestorSetMembers(init, p);
      assert forall k :: 0 <= k < |init| ==> init[k] == segs[k];
    }
  }

  /** Segment `k` is the first segment whose prefixes are not all supported. */
  predicate FirstFailingSegment(segs: seq<string>, supported: seq<RelationshipRetriever>, k: int)
  {
    0 <= k < |segs| && FindParentPaths(segs[k], supported).Err? &&
    forall i :: 0 <= i < k ==> FindParentPaths(segs[i], supported).Ok?
  }

  /**
   * An active include list for a set of paths: sorted by path with no duplicates, holding exactly those paths,
   * each carried by the first supported retriever with that path.
   */
  ghost predicate ActiveList(xs: seq<RelationshipRetriever>, supported: seq<RelationshipRetriever>, paths: set<string>)
  {
    StrictlySorted(Paths(xs)) &&
    (forall p :: p in Paths(xs) <==> p in paths) &&
    forall k :: 0 <= k < |xs| ==> IsFirstFor(supported, xs[k].includePath, xs[k])
  }

  /** `m` is in `s` and sorts before every other member of `s`. */
  predicate IsLeast(m: string, s: set<string>)
  {
    m in s && forall o :: o in s && o != m ==> LexLess(m, o)
  }

  /** Among strings ordered by `compareTo`, a finite non-empty set has a least element. */
  lemma {:induction false} LeastExists(s: set<string>)
    requires s != {}
    ensures exists m :: IsLeast(m, s)
    decreases |s|
  {
    var x :| x in s;
    if s != {x} {
      var rest := s - {x};
      LeastExists(rest);
      var m :| IsLeast(m, rest);
      LeastOfAdded(s, x, m);
      var least := if LexLess(x, m) then x else m;
      assert IsLeast(least, s);
    } else {
      assert IsLeast(x, s);
    }
  }

  /** Putting `x` back into `s - {x}` leaves its least element least, unless `x` sorts before it. */
  lemma LeastOfAdded(s: set<string>, x: string, m: string)
    requires x in s && IsLeast(m, s - {x})
    ensures IsLeast(if LexLess(x, m) then x else m, s)
  {
    if LexLess(x, m) {
      forall o | o in s && o != x ensures LexLess(x, o) {
        if o != m {
          LexLessTransitive(x, m, o);
        }
      }
    } else {
      LexLessTotal(x, m);
    }
  }

  /** Two strictly sorted lists with the same elements are the same list. */
  lemma {:induction false} StrictlySortedUnique(xs: seq<string>, ys: seq<string>)
    requires StrictlySorted(xs) && StrictlySorted(ys)
    requires forall p :: p in xs <==> p in ys
    ensures xs == ys
    decreases |xs|
  {
    if xs != [] {
      assert xs[0] in ys;
    }
    if ys != [] {
      assert ys[0] in xs;
    }
    if xs != [] {
      if xs[0] != ys[0] {
        var i :| 0 <= i < |xs| && xs[i] == ys[0];
        var j :| 0 <= j < |ys| && ys[j] == xs[0];
        LexLessAsymmetric(xs[0], xs[i]);
      }
      forall p ensures p in xs[1..] <==> p in ys[1..] {
        if p in xs[1..] {
          var i :| 1 <= i < |xs| && xs[i] == p;
          LexLessIrreflexive(xs[0]);
          assert p in ys;
        }
        if p in ys[1..] {
          var j :| 1 <= j < |ys| && ys[j] == p;
          LexLessIrreflexive(ys[0]);
          assert p in xs;
        }
      }
      StrictlySortedUnique(xs[1..], ys[1..]);
      assert xs == [xs[0]] + xs[1..] && ys == [ys[0]] + ys[1..];
    }
  }

  /** The active list for a set of paths is unique: validation has exactly one possible outcome. */
  lemma ActiveListUnique(xs: seq<RelationshipRetriever>, ys: seq<RelationshipRetriever>,
                         supported: seq<RelationshipRetriever>, paths: set<string>)
    requires ActiveList(xs, supported, paths) && ActiveList(ys, supported, paths)
    ensures xs == ys
  {
    StrictlySortedUnique(Paths(xs), Paths(ys));
    assert forall k :: 0 <= k < |xs| ==> xs[k].includePath == ys[k].includePath;
  }

  /** The active list is closed under parents: each entry's part before its last '.' is an entry too. */
  lemma ActiveListParentClosed(xs: seq<RelationshipRetriever>, supported: seq<RelationshipRetriever>,
                               segs: seq<string>, k: nat)
    requires ActiveList(xs, supported, AncestorSet(segs))
    requires k < |xs| && LastIndexOf(xs[k].includePath, '.') >= 0
    ensures xs[k].includePath[..LastIndexOf(xs[k].includePath, '.')] in Paths(xs)
  {
    var q := xs[k].includePath;
    assert Paths(xs)[k] == q;
    AncestorSetMembers(segs, q);
    var s :| 0 <= s < |segs| && q in Ancestors(segs[s]);
    AncestorsParentClosed(segs[s], q);
    var parent := q[..LastIndexOf(q, '.')];
    AncestorSetMembers(segs, parent);
    assert parent in AncestorSet(segs);
  }

  /** Entry `k` of `rrs` is `rr`, stored under its own path `p`. */
  ghost predicate PutAt(rrs: seq<RelationshipRetriever>, k: int, p: string, rr: RelationshipRetriever)
  {
    0 <= k < |rrs| && rrs[k].includePath == p && rr == rrs[k]
  }

  /**
   * After the first `j` puts, `v` is what the map holds under `p`: the last of those puts under `p`, or the
   * map's old entry when none of them was under `p`.
   */
  ghost predicate LastPutFor(m: map<string, RelationshipRetriever>, rrs: seq<RelationshipRetriever>, j: int, p: string,
                             v: RelationshipRetriever)
    requires 0 <= j <= |rrs|
  {
    ((forall k :: 0 <= k < j ==> rrs[k].includePath != p) && p in m && v == m[p]) ||
    exists k :: 0 <= k < j && rrs[k].includePath == p && v == rrs[k] &&
      forall k' :: k < k' < j ==> rrs[k'].includePath != p
  }

  /** Every path of `r` holds what the first `j` puts left under it (`LastPutFor`). */
  ghost predicate AllLastPut(m: map<string, RelationshipRetriever>, rrs: seq<RelationshipRetriever>, j: int,
                             r: map<string, RelationshipRetriever>)
    requires 0 <= j <= |rrs|
  {
    forall p :: p in r ==> LastPutFor(m, rrs, j, p, r[p])
  }

  /** The map after putting each retriever of `rrs` under its path, one after the other. */
  function PutAll(m: map<string, RelationshipRetriever>, rrs: seq<RelationshipRetriever>): map<string, RelationshipRetriever>
    decreases |rrs|
  {
    if rrs == [] then m
    else PutAll(m, rrs[..|rrs| - 1])[rrs[|rrs| - 1].includePath := rrs[|rrs| - 1]]
  }

  /** The first `j + 1` puts are the first `j` followed by put `j`. */
  lemma PutAllSnoc(m: map<string, RelationshipRetriever>, rrs: seq<RelationshipRetriever>, j: nat)
    requires j < |rrs|
    ensures PutAll(m, rrs[..j + 1]) == PutAll(m, rrs[..j])[rrs[j].includePath := rrs[j]]
  {
    assert rrs[..j + 1][..j] == rrs[..j];
  }

  /** After the first `j` puts, every path holds the last of them under it, or its old entry when there was none. */
  lemma {:induction false} PutAllLastWins(m: map<string, RelationshipRetriever>, rrs: seq<RelationshipRetriever>, j: nat)
    requires j <= |rrs|
    ensures AllLastPut(m, rrs, j, PutAll(m, rrs[..j]))
  {
    if j > 0 {
      PutAllLastWins(m, rrs, j - 1);
      assert rrs[..j][..j - 1] == rrs[..j - 1];
      PutStep(m, rrs, j - 1, PutAll(m, rrs[..j - 1]), PutAll(m, rrs[..j]));
    }
  }

  /** Puts the retrievers of one segment into the map under their paths (`forEach(rr -> map.put(...))`). */
  method PutAllByPath(m: map<string, RelationshipRetriever>, rrs: seq<RelationshipRetriever>)
    returns (r: map<string, RelationshipRetriever>)
    ensures r.Keys == m.Keys + set k | 0 <= k < |rrs| :: rrs[k].includePath
    ensures forall p :: p in r ==> (p in m && r[p] == m[p]) || exists k :: 0 <= k < |rrs| && PutAt(rrs, k, p, r[p])
    ensures r == PutAll(m, rrs)
    ensures AllLastPut(m, rrs, |rrs|, r)
  {
    r := m;
    for j := 0 to |rrs|
      invariant r.Keys == m.Keys + set k | 0 <= k < j :: rrs[k].includePath
      invariant forall p :: p in r ==> (p in m && r[p] == m[p]) || exists k :: 0 <= k < j && PutAt(rrs, k, p, r[p])
      invariant r == PutAll(m, rrs[..j])
    {
      ghost var prev := r;
      r := r[rrs[j].includePath := rrs[j]];
      assert PutAt(rrs, j, rrs[j].includePath, r[rrs[j].includePath]);
      assert forall p :: p in prev && p != rrs[j].includePath ==> r[p] == prev[p];
      PutAllSnoc(m, rrs, j);
    }
    assert rrs[..|rrs|] == rrs;
    PutAllLastWins(m, rrs, |rrs|);
  }

  /** One put keeps "the last put wins": the put path now holds the new entry, every other path what it held. */
  lemma PutStep(m: map<string, RelationshipRetriever>, rrs: seq<RelationshipRetriever>, j: nat,
                prev: map<string, RelationshipRetriever>, r: map<string, RelationshipRetriever>)
    requires j < |rrs|
    requires AllLastPut(m, rrs, j, prev)
    requires r == prev[rrs[j].includePath := rrs[j]]
    ensures AllLastPut(m, rrs, j + 1, r)
  {
    forall p | p in r
      ensures LastPutFor(m, rrs, j + 1, p, r[p])
    {
      if p == rrs[j].includePath {
        assert 0 <= j < j + 1 && rrs[j].includePath == p && r[p] == rrs[j];
      } else {
        assert r[p] == prev[p] && LastPutFor(m, rrs, j, p, prev[p]);
        if !(forall k :: 0 <= k < j ==> rrs[k].includePath != p) || p !in m || prev[p] != m[p] {
          var k :| 0 <= k < j && rrs[k].includePath == p && prev[p] == rrs[k] &&
            forall k' :: k < k' < j ==> rrs[k'].includePath != p;
          assert 0 <= k < j + 1 && rrs[k].includePath == p && r[p] == rrs[k] &&
            forall k' :: k < k' < j + 1 ==> rrs[k'].includePath != p;
        }
      }
    }
  }

  /** Lists the map's retrievers sorted by path (`new LinkedList<>(map.values())` then `sort`). */
  method SortByPath(m: map<string, RelationshipRetriever>) returns (xs: seq<RelationshipRetriever>)
    requires forall p :: p in m ==> m[p].includePath == p
    ensures StrictlySorted(Paths(xs))
    ensures forall p :: p in Paths(xs) <==> p in m
    ensures forall k :: 0 <= k < |xs| ==> xs[k] == m[xs[k].includePath]
  {
    xs := [];
    var remaining := m.Keys;
    while remaining != {}
      invariant remaining <= m.Keys
      invariant SortedSoFar(m, xs, remaining)
      decreases |remaining|
    {
      LeastExists(remaining);
      var least :| IsLeast(least, remaining);
      SortStep(m, xs, remaining, least);
      xs := xs + [m[least]];
      remaining := remaining - {least};
    }
  }

  /**
   * The loop invariant of the sort by least extraction: the listed paths are strictly sorted, they are the keys
   * already taken out of `remaining`, each sorts before every key still remaining, and each entry is the map's.
   */
  ghost predicate SortedSoFar(m: map<string, RelationshipRetriever>, xs: seq<RelationshipRetriever>, remaining: set<string>)
  {
    && StrictlySorted(Paths(xs))
    && (forall p :: p in Paths(xs) <==> p in m && p !in remaining)
    && (forall a, b :: a in Paths(xs) && b in remaining ==> LexLess(a, b))
    && (forall k :: 0 <= k < |xs| ==> xs[k] == m[xs[k].includePath])
  }

  /** Appending the map's entry for the least remaining key keeps the invariant. */
  lemma SortStep(m: map<string, RelationshipRetriever>, xs: seq<RelationshipRetriever>, remaining: set<string>, least: string)
    requires forall p :: p in m ==> m[p].includePath == p
    requires remaining <= m.Keys && IsLeast(least, remaining)
    requires SortedSoFar(m, xs, remaining)
    ensures SortedSoFar(m, xs + [m[least]], remaining - {least})
  {
    var xs' := xs + [m[least]];
    var ps, ps' := Paths(xs), Paths(xs');
    assert ps' == ps + [least];
    forall i, j | 0 <= i < j < |ps'| ensures LexLess(ps'[i], ps'[j]) {
      if j == |ps| {
        assert ps[i] in ps;
      }
    }
    forall k | 0 <= k < |xs'| ensures xs'[k] == m[xs'[k].includePath] {
      if k < |xs| {
        assert xs'[k] == xs[k];
      }
    }
  }

  /** The prefixes of one more segment. */
  lemma AncestorSetSnoc(segs: seq<string>, i: nat)
    requires i < |segs|
    ensures AncestorSet(segs[..i + 1]) == AncestorSet(segs[..i]) + Elements(Ancestors(segs[i]))
  {
    assert segs[..i + 1][..i] == segs[..i];
    assert segs[..i + 1][i] == segs[i];
  }

  /** One more segment's retrievers in the map: the map now holds the prefixes of one more segment. */
  lemma SegmentAdded(m: map<string, RelationshipRetriever>, m': map<string, RelationshipRetriever>,
                     supported: seq<RelationshipRetriever>, segs: seq<string>, i: nat, found: seq<RelationshipRetriever>)
    requires i < |segs| && FindParentPaths(segs[i], supported) == Ok(found)
    requires m.Keys == AncestorSet(segs[..i])
    requires forall p :: p in m ==> m[p].includePath == p && IsFirstFor(supported, p, m[p])
    requires m'.Keys == m.Keys + (set k | 0 <= k < |found| :: found[k].includePath)
    requires forall p :: p in m' ==> (p in m && m'[p] == m[p]) || exists k :: PutAt(found, k, p, m'[p])
    ensures m'.Keys == AncestorSet(segs[..i + 1])
    ensures forall p :: p in m' ==> m'[p].includePath == p && IsFirstFor(supported, p, m'[p])
  {
    FoundPaths(segs[i], supported, found);
    AncestorSetSnoc(segs, i);
    forall p | p in m' ensures m'[p].includePath == p && IsFirstFor(supported, p, m'[p]) {
      if !(p in m && m'[p] == m[p]) {
        var k :| PutAt(found, k, p, m'[p]);
      }
    }
  }

  /** The retrievers `findParentPaths` finds carry exactly the prefixes of the path, each its first supported one. */
  lemma FoundPaths(path: string, supported: seq<RelationshipRetriever>, found: seq<RelationshipRetriever>)
    requires FindParentPaths(path, supported) == Ok(found)
    ensures (set k | 0 <= k < |found| :: found[k].includePath) == Elements(Ancestors(path))
    ensures forall k :: 0 <= k < |found| ==> IsFirstFor(supported, found[k].includePath, found[k])
  {
    FindParentPathsSpec(path, supported);
    FoundFor(Ancestors(path), supported, found);
  }

  lemma FoundFor(anc: seq<string>, supported: seq<RelationshipRetriever>, found: seq<RelationshipRetriever>)
    requires |found| == |anc| && forall i :: 0 <= i < |anc| ==> IsFirstFor(supported, anc[i], found[i])
    ensures (set k | 0 <= k < |found| :: found[k].includePath) == Elements(anc)
    ensures forall k :: 0 <= k < |found| ==> IsFirstFor(supported, found[k].includePath, found[k])
  {
    assert forall k :: 0 <= k < |found| ==> found[k].includePath == anc[k];
    var added := set k | 0 <= k < |found| :: found[k].includePath;
    forall x ensures x in added <==> x in Elements(anc) {
      if x in Elements(anc) {
        var j :| 0 <= j < |anc| && anc[j] == x;
        assert found[j].includePath == x;
      }
    }
  }

  /**
   * The loop of `validateIncludes`: each trimmed comma segment's retrievers put into a map by path. Every
   * segment must be supported with all its prefixes; the first one that is not decides the error.
   */
  method MapSegments(rawInclude: string, supported: seq<RelationshipRetriever>)
    returns (r: Result<map<string, RelationshipRetriever>>)
    ensures r.Ok? <==> forall k :: 0 <= k < |Segments(rawInclude)| ==> FindParentPaths(Segments(rawInclude)[k], supported).Ok?
    ensures r.Err? ==>
      exists k :: FirstFailingSegment(Segments(rawInclude), supported, k) &&
        r.error == FindParentPaths(Segments(rawInclude)[k], supported).error
    ensures r.Ok? ==> r.value.Keys == AncestorSet(Segments(rawInclude))
    ensures r.Ok? ==> forall p :: p in r.value ==> r.value[p].includePath == p && IsFirstFor(supported, p, r.value[p])
  {
    var paths := Split(rawInclude, ',');
    ghost var segs := Segments(rawInclude);
    var m: map<string, RelationshipRetriever> := map[];
    for i := 0 to |paths|
      invariant AllSegmentsFound(segs, supported, i)
      invariant m.Keys == AncestorSet(segs[..i])
      invariant forall p :: p in m ==> m[p].includePath == p && IsFirstFor(supported, p, m[p])
    {
      var segment := Trim(paths[i]);
      assert segment == segs[i];
      var found := FindParentPaths(segment, supported);
      if found.Err? {
        SegmentFails(segs, supported, i);
        return Err(found.error);
      }
      assert AllSegmentsFound(segs, supported, i + 1);
      ghost var before := m;
      m := PutAllByPath(m, found.value);
      SegmentAdded(before, m, supported, segs, i, found.value);
    }
    assert segs[..|paths|] == segs;
    r := Ok(m);
  }

  /** A segment that fails after supported ones is the first failing one, so not every segment is supported. */
  lemma SegmentFails(segs: seq<string>, supported: seq<RelationshipRetriever>, i: nat)
    requires i < |segs| && AllSegmentsFound(segs, supported, i) && FindParentPaths(segs[i], supported).Err?
    ensures FirstFailingSegment(segs, supported, i)
    ensures !(forall k :: 0 <= k < |segs| ==> FindParentPaths(segs[k], supported).Ok?)
  {
  }

  /** The first `n` segments are all supported with all their prefixes. */
  ghost predicate AllSegmentsFound(segs: seq<string>, supported: seq<RelationshipRetriever>, n: int)
  {
    forall k :: 0 <= k < n && k < |segs| ==> FindParentPaths(segs[k], supported).Ok?
  }

  /**
   * `validateIncludes`: no include (null or blank) gives no active list; an include when nothing is supported is
   * refused; otherwise every trimmed comma segment and each of its prefixes must be supported, and the active
   * list holds all those prefixes sorted by path, each with its first supported retriever. The first segment
   * that fails decides the error.
   */
  method ValidateIncludes(rawInclude: Option<string>, supported: Option<seq<RelationshipRetriever>>)
    returns (r: Result<Option<seq<RelationshipRetriever>>>)
    ensures rawInclude.None? || IsBlank(rawInclude.value) ==> r == Ok(None)
    ensures rawInclude.Some? && !IsBlank(rawInclude.value) && supported.None? ==> r == Err(BadRequest(UnsupportedIncludes))
    ensures rawInclude.Some? && !IsBlank(rawInclude.value) && supported.Some? ==>
      (r.Ok? <==> forall k :: 0 <= k < |Segments(rawInclude.value)| ==>
        FindParentPaths(Segments(rawInclude.value)[k], supported.value).Ok?)
    ensures rawInclude.Some? && !IsBlank(rawInclude.value) && supported.Some? && r.Err? ==>
      exists k :: FirstFailingSegment(Segments(rawInclude.value), supported.value, k) &&
        r.error == FindParentPaths(Segments(rawInclude.value)[k], supported.value).error
    ensures rawInclude.Some? && !IsBlank(rawInclude.value) && supported.Some? && r.Ok? ==>
      r.value.Some? && ActiveList(r.value.value, supported.value, AncestorSet(Segments(rawInclude.value)))
  {
    if rawInclude.None? || IsBlank(rawInclude.value) {
      return Ok(None);
    } else if supported.None? {
      return Err(BadRequest(UnsupportedIncludes));
    }
    var m := MapSegments(rawInclude.value, supported.value);
    if m.Err? {
      return Err(m.error);
    }
    var includes := SortByPath(m.value);
    r := Ok(Some(includes));
  }

  /* ---------- The walk ---------- */

  /**
   * The data of the relationship stored under exactly `path`, if the resource has one with non-null data:
   * a missing name, a name mapped to null and a null `data` member all give none.
   */
  function RelationshipDataAt(res: Resource, path: string): (r: Option<DataValue>)
    ensures r.Some? <==>
      res.relationships.Some? && Get(res.relationships.value, path).Some? &&
      DataOf(Get(res.relationships.value, path).value).Some?
    ensures r.Some? ==> r == DataOf(Get(res.relationships.value, path).value)
  {
    if res.relationships.None? then None
    else
      match Get(res.relationships.value, path)
      case None => None
      case Some(rel) => if rel.None? then None else rel.value.data
  }

  /**
   * The id `findRelationshipIds` takes from one element: the id of single-resource (or identifier) data under
   * `path`; a null element, array data, a missing or null relationship, null data and a null id give none.
   */
  function RelationshipIdOf(res: Option<Resource>, path: string): (r: Option<string>)
    ensures r.Some? <==> res.Some? && var d := RelationshipDataAt(res.value, path);
      d.Some? && !d.value.Array? && SingleId(d.value).Some?
    ensures r.Some? ==> r == SingleId(RelationshipDataAt(res.value, path).value)
  {
    if res.None? then None
    else
      match RelationshipDataAt(res.value, path)
      case Some(Ident(identifier)) => identifier.id
      case Some(Single(resource)) => resource.id
      case _ => None
  }

  /** `findRelationshipIds`: the ids of the resources' relationships under `path`, in resource order. */
  function RelationshipIds(resources: ResourceArray, path: string): seq<string>
    decreases |resources|
  {
    if resources == [] then []
    else
      var last := RelationshipIdOf(resources[|resources| - 1], path);
      RelationshipIds(resources[..|resources| - 1], path) + (if last.Some? then [last.value] else [])
  }

  /**
   * The ids of a concatenation are the ids of each part, one after the other: the ids come in resource order
   * and repeated ids are kept.
   */
  lemma {:induction false} RelationshipIdsAppend(xs: ResourceArray, ys: ResourceArray, path: string)
    ensures RelationshipIds(xs + ys, path) == RelationshipIds(xs, path) + RelationshipIds(ys, path)
    decreases |ys|
  {
    if ys != [] {
      var init := ys[..|ys| - 1];
      assert (xs + ys)[..|xs + ys| - 1] == xs + init;
      RelationshipIdsAppend(xs, init, path);
    } else {
      assert xs + ys == xs;
    }
  }

  /** An id is passed to the fetch exactly when some resource holds it under `path`. */
  lemma {:induction false} RelationshipIdsMembers(resources: ResourceArray, path: string, id: string)
    ensures id in RelationshipIds(resources, path) <==>
      exists k :: 0 <= k < |resources| && RelationshipIdOf(resources[k], path) == Some(id)
    decreases |resources|
  {
    if resources != [] {
      var init := resources[..|resources| - 1];
      RelationshipIdsMembers(init, path, id);
      assert forall k :: 0 <= k < |init| ==> init[k] == resources[k];
    }
  }

  /** A null element in the list gives no id: the ids are those of the list without it. */
  lemma RelationshipIdsSkipNull(xs: ResourceArray, ys: ResourceArray, path: string)
    ensures RelationshipIds(xs + [None] + ys, path) == RelationshipIds(xs + ys, path)
  {
    RelationshipIdsAppend(xs + [None], ys, path);
    RelationshipIdsAppend(xs, [None], path);
    RelationshipIdsAppend(xs, ys, path);
    var one: ResourceArray := [None];
    assert one[..0] == [];
  }

  /** The number of entries after the current one that lie under `path + "."`, up to the first that does not. */
  function ChildRunLength(path: string, rest: seq<RelationshipRetriever>): (r: nat)
    ensures r <= |rest|
    ensures forall k :: 0 <= k < r ==> StartsWith(rest[k].includePath, path + ".")
    ensures r < |rest| ==> !StartsWith(rest[r].includePath, path + ".")
  {
    if rest == [] || !StartsWith(rest[0].includePath, path + ".") then 0
    else 1 + ChildRunLength(path, rest[1..])
  }

  /** The run's entries with the parent's `path + "."` stripped off, each keeping its fetch function. */
  function ChildrenOf(path: string, run: seq<RelationshipRetriever>): (r: seq<RelationshipRetriever>)
    requires forall k :: 0 <= k < |run| ==> StartsWith(run[k].includePath, path + ".")
    ensures |r| == |run|
    ensures forall k :: 0 <= k < |run| ==>
      (path + ".") + r[k].includePath == run[k].includePath && r[k].idsToResources == run[k].idsToResources
  {
    var prefix := path + ".";
    assert forall k :: 0 <= k < |run| ==> prefix + run[k].includePath[|prefix|..] == run[k].includePath by {
      forall k | 0 <= k < |run| {
        StartsWithRest(run[k].includePath, prefix);
      }
    }
    seq(|run|, k requires 0 <= k < |run| =>
      RelationshipRetriever(run[k].includePath[|prefix|..], run[k].idsToResources))
  }

  /**
   * The included resources an active list gives for `resources`: for each entry in order, what that entry
   * contributes, followed by the rest of the list after the entry's children.
   */
  function Walk(resources: ResourceArray, includes: seq<RelationshipRetriever>): seq<Resource>
    decreases |includes|, 0
  {
    if includes == [] then []
    else
      var path := includes[0].includePath;
      var n := ChildRunLength(path, includes[1..]);
      EntryOutput(resources, includes[0], ChildrenOf(path, includes[1..][..n])) + Walk(resources, includes[1 + n..])
  }

  /**
   * What one entry contributes: the resources its fetch returns for the ids found (no fetch when there are
   * none), then the walk of its children over those resources; nothing at all when the fetch gives nothing.
   */
  function EntryOutput(resources: ResourceArray, rr: RelationshipRetriever, children: seq<RelationshipRetriever>): seq<Resource>
    decreases |children|, 1
  {
    var ids := RelationshipIds(resources, rr.includePath);
    var fetched := if ids == [] then [] else rr.idsToResources(ids);
    if fetched == [] then [] else fetched + (if children == [] then [] else Walk(AsArray(fetched), children))
  }

  /** What an entry contributes, by whether its fetch runs and what it returns. */
  lemma EntryOutputFetched(resources: ResourceArray, rr: RelationshipRetriever, children: seq<RelationshipRetriever>)
    ensures var ids := RelationshipIds(resources, rr.includePath);
      EntryOutput(resources, rr, children) ==
        if ids == [] || rr.idsToResources(ids) == [] then []
        else if children == [] then rr.idsToResources(ids)
        else rr.idsToResources(ids) + Walk(AsArray(rr.idsToResources(ids)), children)
  {
  }

  lemma AppendAssoc<T>(a: seq<T>, b: seq<T>, c: seq<T>)
    ensures (a + b) + c == a + (b + c)
  {
  }

  /** The walk over the entries from `start`: the entry's contribution, then the walk from the end of its child run. */
  lemma WalkUnfold(resources: ResourceArray, includes: seq<RelationshipRetriever>, start: nat, i: nat)
    requires start < i <= |includes|
    requires forall k :: start < k < i ==> StartsWith(includes[k].includePath, includes[start].includePath + ".")
    requires i < |includes| ==> !StartsWith(includes[i].includePath, includes[start].includePath + ".")
    ensures Walk(resources, includes[start..]) ==
      EntryOutput(resources, includes[start], ChildrenOf(includes[start].includePath, includes[start + 1..i])) +
      Walk(resources, includes[i..])
  {
    var xs := includes[start..];
    var path := includes[start].includePath;
    assert xs[1..] == includes[start + 1..];
    ChildRunLengthIs(path, includes[start + 1..], i - start - 1);
    var n := i - start - 1;
    assert xs[1..][..n] == includes[start + 1..i];
    assert xs[1 + n..] == includes[i..];
  }

  /** The child run is the longest prefix of entries under `path + "."`, so any such prefix followed by an entry outside it is the run. */
  lemma ChildRunLengthIs(path: string, rest: seq<RelationshipRetriever>, n: nat)
    requires n <= |rest|
    requires forall k :: 0 <= k < n ==> StartsWith(rest[k].includePath, path + ".")
    requires n < |rest| ==> !StartsWith(rest[n].includePath, path + ".")
    ensures ChildRunLength(path, rest) == n
  {
  }

  /**
   * One step of the index loop: after the output so far, the entry's contribution and then the walk from the
   * end of its child run give the whole walk.
   */
  lemma WalkStep(resources: ResourceArray, includes: seq<RelationshipRetriever>, start: nat, i: nat, before: seq<Resource>)
    requires start < i <= |includes|
    requires forall k :: start < k < i ==> StartsWith(includes[k].includePath, includes[start].includePath + ".")
    requires i < |includes| ==> !StartsWith(includes[i].includePath, includes[start].includePath + ".")
    requires before + Walk(resources, includes[start..]) == Walk(resources, includes)
    ensures (before + EntryOutput(resources, includes[start], ChildrenOf(includes[start].includePath, includes[start + 1..i]))) +
      Walk(resources, includes[i..]) == Walk(resources, includes)
  {
    WalkUnfold(resources, includes, start, i);
    var entry := EntryOutput(resources, includes[start], ChildrenOf(includes[start].includePath, includes[start + 1..i]));
    var rest := Walk(resources, includes[i..]);
    assert (before + entry) + rest == before + (entry + rest);
  }

  /**
   * The do-while of `processRelationshipIncludes`: from the entry at `start`, collects the contiguous run of
   * following entries whose path starts with the entry's path and a '.', with that prefix stripped, and gives
   * the index of the first entry after the run.
   */
  method CollectChildren(includes: seq<RelationshipRetriever>, start: nat)
    returns (childrenIncludes: seq<RelationshipRetriever>, i: nat)
    requires start < |includes|
    ensures start < i <= |includes|
    ensures forall k :: start < k < i ==> StartsWith(includes[k].includePath, includes[start].includePath + ".")
    ensures i < |includes| ==> !StartsWith(includes[i].includePath, includes[start].includePath + ".")
    ensures childrenIncludes == ChildrenOf(includes[start].includePath, includes[start + 1..i])
  {
    var relationshipInclude := includes[start];
    var startsWith := relationshipInclude.includePath + ".";
    childrenIncludes := [];
    i := start + 1;
    while i < |includes| && StartsWith(includes[i].includePath, startsWith)
      invariant start < i <= |includes|
      invariant forall k :: start < k < i ==> StartsWith(includes[k].includePath, startsWith)
      invariant childrenIncludes == ChildrenOf(relationshipInclude.includePath, includes[start + 1..i])
    {
      childrenIncludes := childrenIncludes +
        [RelationshipRetriever(includes[i].includePath[|startsWith|..], includes[i].idsToResources)];
      i := i + 1;
    }
  }

  /**
   * `processRelationshipIncludes`: walks the active list with an index; each entry collects the contiguous run
   * of following entries under its path as its children, fetches the related resources when there are ids,
   * and appends them followed by the recursive result for the children.
   */
  method ProcessRelationshipIncludes(resources: ResourceArray, includes: seq<RelationshipRetriever>)
    returns (result: seq<Resource>)
    ensures result == Walk(resources, includes)
    decreases |includes|
  {
    result := [];
    var size := |includes|;
    var i := 0;
    while i < size
      invariant 0 <= i <= size
      invariant result + Walk(resources, includes[i..]) == Walk(resources, includes)
    {
      var relationshipInclude := includes[i];
      ghost var start := i;
      ghost var before := result;
      var childrenIncludes;
      childrenIncludes, i := CollectChildren(includes, i);
      var relationshipIds := RelationshipIds(resources, relationshipInclude.includePath);
      var relationships: Option<seq<Resource>> := None;
      if relationshipIds != [] {
        relationships := Some(relationshipInclude.idsToResources(relationshipIds));
      }
      ghost var childResult: seq<Resource> := [];
      if relationships.Some? && relationships.value != [] {
        result := result + relationships.value;
        if childrenIncludes != [] {
          assert |childrenIncludes| == i - start - 1;
          var sub := ProcessRelationshipIncludes(AsArray(relationships.value), childrenIncludes);
          childResult := sub;
          result := result + sub;
        }
      }
      EntryAppended(resources, relationshipInclude, childrenIncludes, relationships, before, childResult, result);
      WalkStep(resources, includes, start, i, before);
    }
  }

  /**
   * One turn of the index loop appends exactly the entry's contribution: the fetched resources when there
   * were ids and the fetch gave some, followed by the children's result when there are children.
   */
  lemma EntryAppended(resources: ResourceArray, rr: RelationshipRetriever, children: seq<RelationshipRetriever>,
                      relationships: Option<seq<Resource>>, before: seq<Resource>, sub: seq<Resource>, result: seq<Resource>)
    requires var ids := RelationshipIds(resources, rr.includePath);
      relationships == if ids == [] then None else Some(rr.idsToResources(ids))
    requires relationships.Some? && relationships.value != [] && children != [] ==>
      sub == Walk(AsArray(relationships.value), children)
    requires result == if relationships.None? || relationships.value == [] then before
      else if children == [] then before + relationships.value
      else (before + relationships.value) + sub
    ensures result == before + EntryOutput(resources, rr, children)
  {
    EntryOutputFetched(resources, rr, children);
    if relationships.None? || relationships.value == [] {
      assert before + [] == before;
    } else if children != [] {
      AppendAssoc(before, relationships.value, sub);
    }
  }

  /** Two comma-separated segments without spaces at their ends are the segments of the raw value. */
  lemma SegmentsOfTwo(a: string, b: string)
    requires ',' !in a && ',' !in b && a != [] && b != []
    requires !IsTrimmed(a[0]) && !IsTrimmed(a[|a| - 1]) && !IsTrimmed(b[0]) && !IsTrimmed(b[|b| - 1])
    ensures Segments(a + [','] + b) == [a, b]
  {
    SplitTwo(a, b, ',');
    TrimKeeps(a);
    TrimKeeps(b);
  }

  /** A path without a '.' has no parent: only its own first supported retriever is looked up. */
  lemma FindTopLevelPath(path: string, supported: seq<RelationshipRetriever>)
    requires '.' !in path
    ensures FindParentPaths(path, supported) ==
      if FirstWithPath(supported, path).None? then Err(BadRequest(UnsupportedValue(path)))
      else Ok([supported[FirstWithPath(supported, path).value]])
  {
    assert LastIndexOf(path, '.') == -1;
    var none: seq<RelationshipRetriever> := [];
    match FirstWithPath(supported, path)
    case None =>
    case Some(k) =>
      assert none + [supported[k]] == [supported[k]];
  }

  /** A path without a '.' is its own only prefix. */
  lemma AncestorsNoDot(path: string)
    requires '.' !in path
    ensures Ancestors(path) == [path]
  {
    assert LastIndexOf(path, '.') == -1;
  }

  /** The prefixes of `parent.child`, where the child holds no '.', are those of the parent and then the path. */
  lemma AncestorsOfChild(parent: string, child: string)
    requires '.' !in child
    ensures Ancestors(parent + ['.'] + child) == Ancestors(parent) + [parent + ['.'] + child]
  {
    var path := parent + ['.'] + child;
    LastIndexOfJoin(parent, child, '.');
    assert path[..|parent|] == parent;
  }

  /**
   * A raw value of two segments whose first segment is a top-level path no retriever supports is refused on
   * that segment, with the message naming it.
   */
  lemma UnsupportedFirstSegment(a: string, b: string, supported: seq<RelationshipRetriever>)
    requires ',' !in a && ',' !in b && '.' !in a && a != [] && b != []
    requires !IsTrimmed(a[0]) && !IsTrimmed(a[|a| - 1]) && !IsTrimmed(b[0]) && !IsTrimmed(b[|b| - 1])
    requires FirstWithPath(supported, a).None?
    ensures Segments(a + [','] + b) == [a, b]
    ensures FirstFailingSegment(Segments(a + [','] + b), supported, 0)
    ensures FindParentPaths(a, supported) == Err(BadRequest(UnsupportedValue(a)))
  {
    SegmentsOfTwo(a, b);
    FindTopLevelPath(a, supported);
  }

  /**
   * A raw value that is one two-level path whose parent and whole path are both supported activates the
   * parent and then the path, each with its first supported retriever.
   */
  lemma SupportedChildPath(parent: string, child: string, supported: seq<RelationshipRetriever>)
    requires ',' !in parent && ',' !in child && '.' !in parent && '.' !in child && parent != [] && child != []
    requires !IsTrimmed(parent[0]) && !IsTrimmed(child[|child| - 1])
    requires FirstWithPath(supported, parent).Some? && FirstWithPath(supported, parent + ['.'] + child).Some?
    ensures var path := parent + ['.'] + child;
      ActiveList([supported[FirstWithPath(supported, parent).value], supported[FirstWithPath(supported, path).value]],
                 supported, AncestorSet(Segments(path)))
  {
    var path := parent + ['.'] + child;
    var xs := [supported[FirstWithPath(supported, parent).value], supported[FirstWithPath(supported, path).value]];
    ChildPathPrefixes(parent, child);
    assert path[..|parent|] == parent;
    LexLessProperPrefix(parent, path);
    ActiveListOfTwo(xs, supported, parent, path);
  }

  /** Two retrievers in path order, each the first supported one for its path, are the active list of their paths. */
  lemma ActiveListOfTwo(xs: seq<RelationshipRetriever>, supported: seq<RelationshipRetriever>, p: string, q: string)
    requires |xs| == 2 && xs[0].includePath == p && xs[1].includePath == q && LexLess(p, q)
    requires IsFirstFor(supported, p, xs[0]) && IsFirstFor(supported, q, xs[1])
    ensures ActiveList(xs, supported, {p, q})
  {
    assert Paths(xs) == [p, q];
  }

  /** The prefixes of the one segment `parent.child` are the parent and the path. */
  lemma ChildPathPrefixes(parent: string, child: string)
    requires ',' !in parent && ',' !in child && '.' !in parent && '.' !in child && parent != [] && child != []
    requires !IsTrimmed(parent[0]) && !IsTrimmed(child[|child| - 1])
    ensures AncestorSet(Segments(parent + ['.'] + child)) == {parent, parent + ['.'] + child}
  {
    var path := parent + ['.'] + child;
    assert ',' !in path;
    TrimKeeps(path);
    assert Segments(path) == [path];
    AncestorsOfChild(parent, child);
    AncestorsNoDot(parent);
    var none: seq<string> := [];
    assert [path][..0] == none;
  }

  /**
   * With "author", "author.address" and "publishingCompany" supported, the include "blamo,author" is refused
   * on its first segment, which names the unsupported path.
   */
  lemma UnsupportedSegmentExample(f: seq<string> -> seq<Resource>)
    ensures var supported := [RelationshipRetriever("author", f), RelationshipRetriever("author.address", f),
                              RelationshipRetriever("publishingCompany", f)];
      FirstFailingSegment(Segments("blamo,author"), supported, 0) &&
      FindParentPaths("blamo", supported) == Err(BadRequest(UnsupportedValue("blamo")))
  {
    var supported := [RelationshipRetriever("author", f), RelationshipRetriever("author.address", f),
                      RelationshipRetriever("publishingCompany", f)];
    assert "blamo,author" == "blamo" + [','] + "author";
    UnsupportedFirstSegment("blamo", "author", supported);
  }

  /* ---------- Properties of the walk ---------- */

  /** Without resources there is nothing to look up: no id is found, no fetch runs and nothing is included. */
  lemma {:induction false} WalkNoResources(includes: seq<RelationshipRetriever>)
    ensures Walk([], includes) == []
    decreases |includes|
  {
    if includes != [] {
      var path := includes[0].includePath;
      var n := ChildRunLength(path, includes[1..]);
      WalkHead([], includes);
      assert EntryOutput([], includes[0], ChildrenOf(path, includes[1..][..n])) == [];
      WalkNoResources(includes[1 + n..]);
    }
  }

  /** The walk of a non-empty list: its first entry with that entry's child run, then the rest. */
  lemma WalkHead(resources: ResourceArray, includes: seq<RelationshipRetriever>)
    requires includes != []
    ensures var path := includes[0].includePath;
      var n := ChildRunLength(path, includes[1..]);
      Walk(resources, includes) ==
        EntryOutput(resources, includes[0], ChildrenOf(path, includes[1..][..n])) + Walk(resources, includes[1 + n..])
  {
  }

  /** `x` is among the resources `fetch` returns for some non-empty list of ids. */
  ghost predicate FetchedBy(fetch: seq<string> -> seq<Resource>, x: Resource)
  {
    exists ids :: ids != [] && x in fetch(ids)
  }

  /**
   * Every included resource was returned by the fetch function of an entry of the active list, called with a
   * non-empty list of ids: the walk invents nothing, and children keep their entry's fetch function.
   */
  lemma {:induction false} WalkFromFetches(resources: ResourceArray, includes: seq<RelationshipRetriever>, x: Resource)
    requires x in Walk(resources, includes)
    ensures exists k :: 0 <= k < |includes| && FetchedBy(includes[k].idsToResources, x)
    decreases |includes|, 0
  {
    assert includes != [];
    var path := includes[0].includePath;
    var n := ChildRunLength(path, includes[1..]);
    var children := ChildrenOf(path, includes[1..][..n]);
    var rest := includes[1 + n..];
    WalkHead(resources, includes);
    if x in EntryOutput(resources, includes[0], children) {
      EntryFromFetches(resources, includes[0], children, x);
      if !FetchedBy(includes[0].idsToResources, x) {
        var j :| 0 <= j < |children| && FetchedBy(children[j].idsToResources, x);
        assert children[j].idsToResources == includes[1..][..n][j].idsToResources == includes[1 + j].idsToResources;
        assert 0 <= 1 + j < |includes| && FetchedBy(includes[1 + j].idsToResources, x);
      }
    } else {
      assert x in Walk(resources, rest);
      WalkFromFetches(resources, rest, x);
      var k :| 0 <= k < |rest| && FetchedBy(rest[k].idsToResources, x);
      assert rest[k] == includes[1 + n + k];
      assert 0 <= 1 + n + k < |includes| && FetchedBy(includes[1 + n + k].idsToResources, x);
    }
  }

  lemma {:induction false} EntryFromFetches(resources: ResourceArray, rr: RelationshipRetriever,
                                            children: seq<RelationshipRetriever>, x: Resource)
    requires x in EntryOutput(resources, rr, children)
    ensures FetchedBy(rr.idsToResources, x) || exists k :: 0 <= k < |children| && FetchedBy(children[k].idsToResources, x)
    decreases |children|, 1
  {
    var ids := RelationshipIds(resources, rr.includePath);
    var fetched := rr.idsToResources(ids);
    if x !in fetched {
      WalkFromFetches(AsArray(fetched), children, x);
    }
  }

  /** Two active lists with the same paths whose fetch functions agree on every non-empty list of ids. */
  ghost predicate AgreeOnNonEmpty(xs: seq<RelationshipRetriever>, ys: seq<RelationshipRetriever>)
  {
    |xs| == |ys| &&
    forall k :: 0 <= k < |xs| ==>
      xs[k].includePath == ys[k].includePath &&
      forall ids :: ids != [] ==> xs[k].idsToResources(ids) == ys[k].idsToResources(ids)
  }

  /**
   * A fetch function is never called with an empty list of ids: what it would answer for one cannot change
   * the included resources.
   */
  lemma {:induction false} WalkIgnoresEmptyFetch(resources: ResourceArray, xs: seq<RelationshipRetriever>,
                                                 ys: seq<RelationshipRetriever>)
    requires AgreeOnNonEmpty(xs, ys)
    ensures Walk(resources, xs) == Walk(resources, ys)
    decreases |xs|, 0
  {
    if xs != [] {
      var path := xs[0].includePath;
      var n := ChildRunLength(path, xs[1..]);
      AgreeOnNonEmptyParts(xs, ys);
      EntryIgnoresEmptyFetch(resources, xs[0], ys[0], ChildrenOf(path, xs[1..][..n]), ChildrenOf(path, ys[1..][..n]));
      WalkIgnoresEmptyFetch(resources, xs[1 + n..], ys[1 + n..]);
      WalkHead(resources, xs);
      WalkHead(resources, ys);
    }
  }

  /** The parts the walk splits two agreeing lists into agree as well. */
  lemma AgreeOnNonEmptyParts(xs: seq<RelationshipRetriever>, ys: seq<RelationshipRetriever>)
    requires AgreeOnNonEmpty(xs, ys) && xs != []
    ensures var path := xs[0].includePath;
      var n := ChildRunLength(path, xs[1..]);
      ys[0].includePath == path && ChildRunLength(path, ys[1..]) == n &&
      AgreeOnNonEmpty(ChildrenOf(path, xs[1..][..n]), ChildrenOf(path, ys[1..][..n])) &&
      AgreeOnNonEmpty(xs[1 + n..], ys[1 + n..])
  {
    var path := xs[0].includePath;
    var n := ChildRunLength(path, xs[1..]);
    AgreeOnNonEmptySlice(xs, ys, 1, |xs|);
    AgreeOnNonEmptySlice(xs, ys, 1 + n, |xs|);
    assert Paths(xs[1..]) == Paths(ys[1..]);
    ChildRunLengthPaths(path, xs[1..], ys[1..]);
    AgreeOnNonEmptySlice(xs[1..], ys[1..], 0, n);
    ChildrenAgree(path, xs[1..][..n], ys[1..][..n]);
  }

  lemma AgreeOnNonEmptySlice(xs: seq<RelationshipRetriever>, ys: seq<RelationshipRetriever>, lo: nat, hi: nat)
    requires AgreeOnNonEmpty(xs, ys) && lo <= hi <= |xs|
    ensures AgreeOnNonEmpty(xs[lo..hi], ys[lo..hi])
  {
    forall k | 0 <= k < hi - lo
      ensures xs[lo..hi][k] == xs[lo + k] && ys[lo..hi][k] == ys[lo + k]
    {
    }
  }

  lemma ChildrenAgree(path: string, xs: seq<RelationshipRetriever>, ys: seq<RelationshipRetriever>)
    requires AgreeOnNonEmpty(xs, ys)
    requires forall k :: 0 <= k < |xs| ==> StartsWith(xs[k].includePath, path + ".")
    ensures AgreeOnNonEmpty(ChildrenOf(path, xs), ChildrenOf(path, ys))
  {
    var cx, cy := ChildrenOf(path, xs), ChildrenOf(path, ys);
    forall k | 0 <= k < |cx|
      ensures cx[k].includePath == cy[k].includePath
    {
      assert (path + ".") + cx[k].includePath == (path + ".") + cy[k].includePath;
      assert cx[k].includePath == ((path + ".") + cx[k].includePath)[|path| + 1..];
      assert cy[k].includePath == ((path + ".") + cy[k].includePath)[|path| + 1..];
    }
  }

  lemma {:induction false} EntryIgnoresEmptyFetch(resources: ResourceArray, x: RelationshipRetriever, y: RelationshipRetriever,
                                                  cx: seq<RelationshipRetriever>, cy: seq<RelationshipRetriever>)
    requires x.includePath == y.includePath
    requires forall ids :: ids != [] ==> x.idsToResources(ids) == y.idsToResources(ids)
    requires AgreeOnNonEmpty(cx, cy)
    ensures EntryOutput(resources, x, cx) == EntryOutput(resources, y, cy)
    decreases |cx|, 1
  {
    var ids := RelationshipIds(resources, x.includePath);
    if ids != [] {
      assert x.idsToResources(ids) == y.idsToResources(ids);
      WalkIgnoresEmptyFetch(AsArray(x.idsToResources(ids)), cx, cy);
    }
  }

  /** The length of the child run depends on the paths only. */
  lemma {:induction false} ChildRunLengthPaths(path: string, xs: seq<RelationshipRetriever>, ys: seq<RelationshipRetriever>)
    requires Paths(xs) == Paths(ys)
    ensures ChildRunLength(path, xs) == ChildRunLength(path, ys)
    decreases |xs|
  {
    if xs != [] {
      assert xs[0].includePath == Paths(xs)[0] == Paths(ys)[0] == ys[0].includePath;
      assert Paths(xs[1..]) == Paths(xs)[1..];
      assert Paths(ys[1..]) == Paths(ys)[1..];
      ChildRunLengthPaths(path, xs[1..], ys[1..]);
    }
  }

  /**
   * The contiguous-run rule as written: '-' sorts before '.', so in the sorted list "a", "a-x", "a.x" the entry
   * "a-x" ends the run of "a" at once, and "a.x" is walked as an entry of the current level, its ids looked up
   * under "a.x" in the current resources instead of under "x" in the resources fetched for "a".
   */
  lemma ContiguousRunQuirk(fa: seq<string> -> seq<Resource>, fb: seq<string> -> seq<Resource>,
                           fc: seq<string> -> seq<Resource>, resources: ResourceArray)
    ensures var includes := [RelationshipRetriever("a", fa), RelationshipRetriever("a-x", fb), RelationshipRetriever("a.x", fc)];
      StrictlySorted(Paths(includes)) &&
      Walk(resources, includes) ==
        EntryOutput(resources, includes[0], []) + (EntryOutput(resources, includes[1], []) + EntryOutput(resources, includes[2], []))
  {
    var includes := [RelationshipRetriever("a", fa), RelationshipRetriever("a-x", fb), RelationshipRetriever("a.x", fc)];
    assert Paths(includes) == ["a", "a-x", "a.x"];
    QuirkPathsSorted();
    assert "a" + "." == "a." && "a-x" + "." == "a-x.";
    DiffersAt("a-x", "a.", 1);
    DiffersAt("a.x", "a-x.", 1);
    ThreeTopLevel(resources, includes);
  }

  lemma DiffersAt(s: string, p: string, i: nat)
    requires i < |p| && i < |s| && s[i] != p[i]
    ensures !StartsWith(s, p)
  {
    if |p| <= |s| {
      assert s[..|p|][i] == s[i];
    }
  }

  lemma QuirkPathsSorted()
    ensures StrictlySorted(["a", "a-x", "a.x"])
  {
    assert LexLess("a", "a-x") && LexLess("a-x", "a.x") && LexLess("a", "a.x");
  }

  /** Three entries none of which starts a run for the next are each walked at the top level. */
  lemma ThreeTopLevel(resources: ResourceArray, includes: seq<RelationshipRetriever>)
    requires |includes| == 3
    requires !StartsWith(includes[1].includePath, includes[0].includePath + ".")
    requires !StartsWith(includes[2].includePath, includes[1].includePath + ".")
    ensures Walk(resources, includes) ==
      EntryOutput(resources, includes[0], []) + (EntryOutput(resources, includes[1], []) + EntryOutput(resources, includes[2], []))
  {
    WalkLoneHead(resources, includes);
    assert includes[1..][0] == includes[1] && includes[1..][1] == includes[2];
    WalkLoneHead(resources, includes[1..]);
    assert includes[1..][1..] == includes[2..];
    WalkLoneHead(resources, includes[2..]);
    assert includes[2..][1..] == [];
  }

  /** An entry with no child run right after it contributes its output with no children, then the walk of the rest. */
  lemma WalkLoneHead(resources: ResourceArray, includes: seq<RelationshipRetriever>)
    requires |includes| >= 1
    requires |includes| > 1 ==> !StartsWith(includes[1].includePath, includes[0].includePath + ".")
    ensures Walk(resources, includes) == EntryOutput(resources, includes[0], []) + Walk(resources, includes[1..])
  {
    WalkUnfold(resources, includes, 0, 1);
    assert includes[1..1] == [] && includes[0..] == includes;
  }

  /**
   * One resource, a parent entry and its one child entry: the parent's fetch for the resource's id, then the
   * child's fetch for the id the fetched resource holds under the child's own path.
   */
  lemma ParentChildWalk(res: Resource, top: string, sub: string, fetchTop: seq<string> -> seq<Resource>,
                        fetchSub: seq<string> -> seq<Resource>, topId: string, fetched: Resource, subId: string)
    requires RelationshipIdOf(Some(res), top) == Some(topId) && fetchTop([topId]) == [fetched]
    requires RelationshipIdOf(Some(fetched), sub) == Some(subId)
    ensures Walk([Some(res)], [RelationshipRetriever(top, fetchTop), RelationshipRetriever(top + "." + sub, fetchSub)]) ==
      [fetched] + fetchSub([subId])
  {
    var includes := [RelationshipRetriever(top, fetchTop), RelationshipRetriever(top + "." + sub, fetchSub)];
    ChildrenOfOne(top, sub, fetchSub);
    WalkUnfold([Some(res)], includes, 0, 2);
    assert includes[0..] == includes && includes[2..] == [];
    assert includes[1..2] == [includes[1]];
    ChildrenOfOne(top, sub, fetchSub);
    var children := [RelationshipRetriever(sub, fetchSub)];
    EntryOutputFetched([Some(res)], includes[0], children);
    assert [Some(res)][..0] == [];
    assert RelationshipIds([Some(res)], top) == [topId];
    assert AsArray([fetched]) == [Some(fetched)];
    SingleIdWalk(fetched, children[0], subId);
  }

  /** The one child `top.sub` of `top` is `sub`, with its fetch. */
  lemma ChildrenOfOne(top: string, sub: string, fetch: seq<string> -> seq<Resource>)
    ensures StartsWith(top + "." + sub, top + ".")
    ensures ChildrenOf(top, [RelationshipRetriever(top + "." + sub, fetch)]) == [RelationshipRetriever(sub, fetch)]
  {
    var path := top + "." + sub;
    assert path == (top + ".") + sub;
    assert StartsWith(path, top + ".");
    var children := ChildrenOf(top, [RelationshipRetriever(path, fetch)]);
    assert (top + ".") + children[0].includePath == (top + ".") + sub;
    assert children[0].includePath == ((top + ".") + sub)[|top + "."|..];
  }

  /** One resource whose relationship under the one entry's path has id `id`: the walk is that id's fetch. */
  lemma SingleIdWalk(res: Resource, rr: RelationshipRetriever, id: string)
    requires RelationshipIdOf(Some(res), rr.includePath) == Some(id)
    ensures Walk([Some(res)], [rr]) == rr.idsToResources([id])
  {
    WalkLoneHead([Some(res)], [rr]);
    EntryOutputFetched([Some(res)], rr, []);
    assert [Some(res)][..0] == [] && [rr][1..] == [];
    assert RelationshipIds([Some(res)], rr.includePath) == [id];
    assert rr.idsToResources([id]) + [] == rr.idsToResources([id]);
  }

  /**
   * The two-level example: a resource whose "familyGrantingToken" relationship holds token 777, with
   * "familyGrantingToken" fetching token 444 (whose "user" relationship holds user 555) and
   * "familyGrantingToken.user" fetching user 555, includes the token and then the user.
   */
  lemma TwoLevelExample()
    ensures var user := Resource("user", Some("555"), None, None, None);
      var userRef := RelationshipObject(None, None, Some(Single(Resource("user", Some("555"), None, None, None))));
      var token := Resource("grantingToken", Some("444"), None, Some([("user", Some(userRef))]), None);
      var tokenRef := RelationshipObject(None, None, Some(Single(Resource("grantingToken", Some("777"), None, None, None))));
      var primary := Resource("tokenReferencingEntity", Some("fake-id"), Some([]), Some([("familyGrantingToken", Some(tokenRef))]), None);
      var includes := [RelationshipRetriever("familyGrantingToken", ids => [token]),
                       RelationshipRetriever("familyGrantingToken.user", ids => [user])];
      Walk([Some(primary)], includes) == [token, user]
  {
    var user := Resource("user", Some("555"), None, None, None);
    var userRef := RelationshipObject(None, None, Some(Single(Resource("user", Some("555"), None, None, None))));
    var token := Resource("grantingToken", Some("444"), None, Some([("user", Some(userRef))]), None);
    var tokenRef := RelationshipObject(None, None, Some(Single(Resource("grantingToken", Some("777"), None, None, None))));
    var primary := Resource("tokenReferencingEntity", Some("fake-id"), Some([]), Some([("familyGrantingToken", Some(tokenRef))]), None);
    var includes := [RelationshipRetriever("familyGrantingToken", ids => [token]),
                     RelationshipRetriever("familyGrantingToken.user", ids => [user])];
    assert Get([("familyGrantingToken", Some(tokenRef))], "familyGrantingToken") == Some(Some(tokenRef)) by {
      GetAt([("familyGrantingToken", Some(tokenRef))], 0);
    }
    assert RelationshipIdOf(Some(primary), "familyGrantingToken") == Some("777");
    assert Get([("user", Some(userRef))], "user") == Some(Some(userRef)) by {
      GetAt([("user", Some(userRef))], 0);
    }
    assert RelationshipIdOf(Some(token), "user") == Some("555");
    assert "familyGrantingToken.user" == "familyGrantingToken" + "." + "user";
    ParentChildWalk(primary, "familyGrantingToken", "user", ids => [token], ids => [user], "777", token, "555");
  }

  /* ---------- The processor ---------- */

  /**
   * A JsonApiIncludeProcessor: the active include list built once from the request's raw `include` value
   * (null when there is no include), then used for every lookup.
   */
  class IncludeProcessorObject {
    const validIncludes: Option<seq<RelationshipRetriever>>

    constructor(validIncludes: Option<seq<RelationshipRetriever>>)
      ensures this.validIncludes == validIncludes
    {
      this.validIncludes := validIncludes;
    }

    /**
     * `findIncluded`: null when no include is active; with an active list, an empty array for null resources
     * and otherwise the walk of the active list over the resources.
     */
    method FindIncluded(resources: Option<ResourceArray>) returns (r: Option<ResourceArray>)
      ensures validIncludes.None? ==> r.None?
      ensures validIncludes.Some? && resources.None? ==> r == Some([])
      ensures validIncludes.Some? && resources.Some? ==> r == Some(AsArray(Walk(resources.value, validIncludes.value)))
    {
      if validIncludes.None? {
        return None;
      }
      var included: ResourceArray := [];
      if resources.Some? {
        var found := ProcessRelationshipIncludes(resources.value, validIncludes.value);
        included := included + AsArray(found);
        assert included == AsArray(found);
      }
      r := Some(included);
    }

    /** `asTopLevelObject(JsonApiResource)`: the resource as data, with what it includes. */
    method AsTopLevelResource(data: Option<Resource>) returns (doc: TopLevelDocument)
      ensures fresh(doc)
      ensures doc.data == if data.None? then None else Some(Single(data.value))
      ensures validIncludes.None? ==> doc.included.None?
      ensures validIncludes.Some? ==> doc.included == Some(if data.None? then [] else AsArray(Walk([data], validIncludes.value)))
      ensures doc.meta.None? && doc.links.None? && doc.errors.None?
    {
      var included := FindIncluded(if data.None? then None else Some([data]));
      doc := new TopLevelDocument(None, if data.None? then None else Some(Single(data.value)), None, included);
    }

    /** `asTopLevelObject(JsonApiArray)`: the array as data, with what its resources include. */
    method AsTopLevelArray(arr: Option<ResourceArray>) returns (doc: TopLevelDocument)
      ensures fresh(doc)
      ensures doc.data == if arr.None? then None else Some(Array(arr.value))
      ensures validIncludes.None? ==> doc.included.None?
      ensures validIncludes.Some? ==> doc.included == Some(if arr.None? then [] else AsArray(Walk(arr.value, validIncludes.value)))
      ensures doc.meta.None? && doc.links.None? && doc.errors.None?
    {
      var included := FindIncluded(arr);
      doc := new TopLevelDocument(None, if arr.None? then None else Some(Array(arr.value)), None, included);
    }

    /** `asTopLevelObject(JsonApiResourceable)`: the entity's resource as data; fails when `toResource` fails. */
    method AsTopLevelEntity(entity: Option<Entity>) returns (r: Result<TopLevelDocument>)
      ensures entity.None? ==> r.Ok? && r.value.data.None?
      ensures entity.Some? ==> (r.Ok? <==> ResourceOf(entity.value).Ok?)
      ensures entity.Some? && r.Ok? ==> r.value.data == Some(Single(ResourceOf(entity.value).value))
      ensures r.Ok? && validIncludes.Some? ==> r.value.included == Some(
        if entity.None? then [] else AsArray(Walk([Some(ResourceOf(entity.value).value)], validIncludes.value)))
      ensures r.Ok? && validIncludes.None? ==> r.value.included.None?
      ensures r.Ok? ==> r.value.meta.None? && r.value.links.None? && r.value.errors.None?
      ensures r.Ok? ==> fresh(r.value)
    {
      var data: Option<Resource> := None;
      if entity.Some? {
        var res := ToResource(entity.value);
        if res.Err? {
          return Err(res.error);
        }
        data := Some(res.value);
      }
      var doc := AsTopLevelResource(data);
      r := Ok(doc);
    }

    /** `asTopLevelObject(Collection<JsonApiResourceable>)`: the entities' resources as array data. */
    method AsTopLevelEntities(entities: Option<seq<Option<Entity>>>) returns (r: Result<TopLevelDocument>)
      ensures entities.None? ==> r.Ok? && r.value.data.None?
      ensures entities.Some? ==> (r.Ok? <==> ResourcesOf(entities.value).Ok?)
      ensures entities.Some? && r.Ok? ==> r.value.data == Some(Array(AsArray(ResourcesOf(entities.value).value)))
      ensures r.Ok? && validIncludes.Some? ==> r.value.included == Some(
        if entities.None? then [] else AsArray(Walk(AsArray(ResourcesOf(entities.value).value), validIncludes.value)))
      ensures r.Ok? && validIncludes.None? ==> r.value.included.None?
      ensures r.Ok? ==> r.value.meta.None? && r.value.links.None? && r.value.errors.None?
      ensures r.Ok? ==> fresh(r.value)
    {
      var data: Option<ResourceArray> := None;
      if entities.Some? {
        var arr := ArrayOfEntities(entities);
        if arr.Err? {
          return Err(arr.error);
        }
        data := Some(AsArray(arr.value));
      }
      var doc := AsTopLevelArray(data);
      r := Ok(doc);
    }
  }

  /**
   * The JsonApiIncludeProcessor constructor: validates the raw include against the supported paths and keeps
   * the active list; the refusals of validation become a failed construction.
   */
  method NewIncludeProcessor(rawInclude: Option<string>, supported: Option<seq<RelationshipRetriever>>)
    returns (r: Result<IncludeProcessorObject>)
    ensures r.Ok? ==> fresh(r.value)
    ensures rawInclude.None? || IsBlank(rawInclude.value) ==> r.Ok? && r.value.validIncludes.None?
    ensures rawInclude.Some? && !IsBlank(rawInclude.value) && supported.None? ==> r == Err(BadRequest(UnsupportedIncludes))
    ensures rawInclude.Some? && !IsBlank(rawInclude.value) && supported.Some? ==>
      (r.Ok? <==> forall k :: 0 <= k < |Segments(rawInclude.value)| ==>
        FindParentPaths(Segments(rawInclude.value)[k], supported.value).Ok?)
    ensures rawInclude.Some? && !IsBlank(rawInclude.value) && supported.Some? && r.Ok? ==>
      r.value.validIncludes.Some? &&
      ActiveList(r.value.validIncludes.value, supported.value, AncestorSet(Segments(rawInclude.value)))
  {
    var validIncludes := ValidateIncludes(rawInclude, supported);
    if validIncludes.Err? {
      return Err(validIncludes.error);
    }
    var processor := new IncludeProcessorObject(validIncludes.value);
    r := Ok(processor);
  }
}
