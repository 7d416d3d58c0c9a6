/** Merging evidence from two runtimes, and the lineage check across runtimes. */
module EvidenceMerge {
  /** `content` stands for everything but the identifier. */
  datatype Evidence = Evidence(id: string, content: string)

  /** What is kept of a chain, given the identifiers already seen. */
  function Fresh(xs: seq<Evidence>, seen: set<string>): seq<Evidence> {
    if xs == [] then []
    else if xs[0].id in seen then Fresh(xs[1..], seen)
    else [xs[0]] + Fresh(xs[1..], seen + {xs[0].id})
  }

  function Merge(local: seq<Evidence>, remote: seq<Evidence>): seq<Evidence> {
    Fresh(local + remote, {})
  }

  method MergeEvidenceChains(local: seq<Evidence>, remote: seq<Evidence>) returns (merged: seq<Evidence>)
    ensures merged == Merge(local, remote)
  {
    var seen: set<string> := {};
    merged := [];
    var all := local + remote;
    for k := 0 to |all|
      invariant merged + Fresh(all[k..], seen) == Fresh(all, {})
    {
      var ev := all[k];
      assert all[k..][0] == ev && all[k..][1..] == all[k + 1..];
      if ev.id !in seen {
        seen := seen + {ev.id};
        merged := merged + [ev];
      }
    }
    assert all[|all|..] == [];
  }

  function Ids(xs: seq<Evidence>): set<string> {
    set x | x in xs :: x.id
  }

  predicate DuplicateFree(xs: seq<Evidence>) {
    forall j, k | 0 <= j < k < |xs| :: xs[j].id != xs[k].id
  }

  lemma IdsOfFirst(xs: seq<Evidence>)
    requires xs != []
    ensures Ids(xs) == {xs[0].id} + Ids(xs[1..])
  {
    assert xs == [xs[0]] + xs[1..];
  }

  lemma IdsOfBoth(a: seq<Evidence>, b: seq<Evidence>)
    ensures Ids(a + b) == Ids(a) + Ids(b)
  {
  }

  lemma {:induction false} FreshIds(xs: seq<Evidence>, seen: set<string>)
    ensures Ids(Fresh(xs, seen)) == Ids(xs) - seen
    ensures DuplicateFree(Fresh(xs, seen))
  {
    if xs != [] {
      IdsOfFirst(xs);
      if xs[0].id in seen {
        FreshIds(xs[1..], seen);
      } else {
        var rest := Fresh(xs[1..], seen + {xs[0].id});
        FreshIds(xs[1..], seen + {xs[0].id});
        IdsOfBoth([xs[0]], rest);
        assert forall k | 0 <= k < |rest| :: rest[k].id in Ids(rest);
      }
    }
  }

  /** The merged identifiers are pairwise distinct and are those of both inputs. */
  lemma MergeIds(local: seq<Evidence>, remote: seq<Evidence>)
    ensures DuplicateFree(Merge(local, remote))
    ensures Ids(Merge(local, remote)) == Ids(local) + Ids(remote)
  {
    FreshIds(local + remote, {});
    IdsOfBoth(local, remote);
  }

  predicate FirstAt(xs: seq<Evidence>, p: nat) {
    p < |xs| && forall j: nat | j < p :: xs[j].id != xs[p].id
  }

  /** The places ascend, and what is kept stands at them. */
  predicate Listed(xs: seq<Evidence>, kept: seq<Evidence>, places: seq<nat>) {
    && |places| == |kept|
    && (forall j, k | 0 <= j < k < |places| :: places[j] < places[k])
    && (forall k | 0 <= k < |places| :: places[k] < |xs| && kept[k] == xs[places[k]])
  }

  /** The places are those of the first occurrences of identifiers not seen before. */
  predicate Firsts(xs: seq<Evidence>, seen: set<string>, places: seq<nat>) {
    forall p: nat | p < |xs| :: p in places <==> FirstAt(xs, p) && xs[p].id !in seen
  }

  predicate FreshPlaces(xs: seq<Evidence>, seen: set<string>, places: seq<nat>) {
    Listed(xs, Fresh(xs, seen), places) && Firsts(xs, seen, places)
  }

  lemma {:induction false} FreshPlacesOf(xs: seq<Evidence>, seen: set<string>) returns (places: seq<nat>)
    ensures FreshPlaces(xs, seen, places)
  {
    if xs == [] {
      places := [];
    } else {
      var keep := xs[0].id !in seen;
      var inner := if keep then seen + {xs[0].id} else seen;
      var rest := FreshPlacesOf(xs[1..], inner);
      places := Shifted(keep, rest);
      ShiftedPlaces(xs, seen, keep, inner, rest);
    }
  }

  /** The places of a tail, as places of the whole, after the first place where it is kept. */
  function Shifted(keep: bool, rest: seq<nat>): seq<nat> {
    (if keep then [0] else []) + seq(|rest|, k requires 0 <= k < |rest| => rest[k] + 1)
  }

  lemma ShiftedIn(keep: bool, rest: seq<nat>, p: nat)
    ensures p in Shifted(keep, rest) <==> if p == 0 then keep else p - 1 in rest
  {
    var moved := seq(|rest|, k requires 0 <= k < |rest| => rest[k] + 1);
    if p > 0 && p - 1 in rest {
      var k :| 0 <= k < |rest| && rest[k] == p - 1;
      assert moved[k] == p;
    }
    assert p in Shifted(keep, rest) <==> (p == 0 && keep) || p in moved;
  }

  lemma FirstAtTail(xs: seq<Evidence>, p: nat)
    requires 0 < p < |xs|
    ensures FirstAt(xs, p) <==> FirstAt(xs[1..], p - 1) && xs[p].id != xs[0].id
  {
    if FirstAt(xs[1..], p - 1) && xs[p].id != xs[0].id {
      forall j: nat | j < p
        ensures xs[j].id != xs[p].id
      {
        if j > 0 { assert xs[1..][j - 1] == xs[j]; }
      }
    }
    if FirstAt(xs, p) {
      forall j: nat | j < p - 1
        ensures xs[1..][j].id != xs[1..][p - 1].id
      {
        assert xs[1..][j] == xs[j + 1];
      }
    }
  }

  lemma ShiftedPlaces(xs: seq<Evidence>, seen: set<string>, keep: bool, inner: set<string>, rest: seq<nat>)
    requires xs != [] && (keep <==> xs[0].id !in seen) && inner == (if keep then seen + {xs[0].id} else seen)
    requires FreshPlaces(xs[1..], inner, rest)
    ensures FreshPlaces(xs, seen, Shifted(keep, rest))
  {
    assert Fresh(xs, seen) == (if keep then [xs[0]] else []) + Fresh(xs[1..], inner);
    ShiftedListed(xs, Fresh(xs[1..], inner), keep, rest);
    forall p: nat | p < |xs|
      ensures p in Shifted(keep, rest) <==> FirstAt(xs, p) && xs[p].id !in seen
    {
      ShiftedFirst(xs, seen, keep, inner, rest, p);
    }
  }

  lemma ShiftedListed(xs: seq<Evidence>, kept: seq<Evidence>, keep: bool, rest: seq<nat>)
    requires xs != [] && Listed(xs[1..], kept, rest)
    ensures Listed(xs, (if keep then [xs[0]] else []) + kept, Shifted(keep, rest))
  {
    var places, all := Shifted(keep, rest), (if keep then [xs[0]] else []) + kept;
    forall j, k | 0 <= j < k < |places|
      ensures places[j] < places[k]
    {
      ShiftedAt(keep, rest, j);
      ShiftedAt(keep, rest, k);
    }
    forall k | 0 <= k < |places|
      ensures places[k] < |xs| && all[k] == xs[places[k]]
    {
      ShiftedAt(keep, rest, k);
    }
  }

  lemma ShiftedAt(keep: bool, rest: seq<nat>, k: nat)
    requires k < |Shifted(keep, rest)|
    ensures Shifted(keep, rest)[k] == if !keep then rest[k] + 1 else if k == 0 then 0 else rest[k - 1] + 1
  {
  }

  lemma ShiftedFirst(xs: seq<Evidence>, seen: set<string>, keep: bool, inner: set<string>, rest: seq<nat>, p: nat)
    requires p < |xs| && (keep <==> xs[0].id !in seen) && inner == (if keep then seen + {xs[0].id} else seen)
    requires Firsts(xs[1..], inner, rest)
    ensures p in Shifted(keep, rest) <==> FirstAt(xs, p) && xs[p].id !in seen
  {
    ShiftedIn(keep, rest, p);
    if p > 0 {
      FirstAtTail(xs, p);
      assert xs[1..][p - 1] == xs[p];
    }
  }

  /** The merged chain lists, in order, exactly the first occurrences of each identifier in local then remote; so
      where both have one, the local piece is kept. */
  lemma MergeOrder(local: seq<Evidence>, remote: seq<Evidence>) returns (places: seq<nat>)
    ensures FreshPlaces(local + remote, {}, places)
    ensures forall x | x in Merge(local, remote) :: x.id in Ids(local) ==> x in local
  {
    places := FreshPlacesOf(local + remote, {});
    forall x | x in Merge(local, remote) && x.id in Ids(local)
      ensures x in local
    {
      var all := local + remote;
      var k :| 0 <= k < |places| && Merge(local, remote)[k] == x;
      var y :| y in local && y.id == x.id;
      var q :| 0 <= q < |local| && local[q] == y;
      assert places[k] in places && all[q] == y && all[places[k]] == x;
      assert FirstAt(all, places[k]);
      assert places[k] <= q;
    }
  }

  lemma {:induction false} FreshAppend(a: seq<Evidence>, b: seq<Evidence>, seen: set<string>)
    ensures Fresh(a + b, seen) == Fresh(a, seen) + Fresh(b, seen + Ids(a))
  {
    if a == [] {
      assert a + b == b && seen + Ids(a) == seen;
    } else {
      assert (a + b)[0] == a[0] && (a + b)[1..] == a[1..] + b;
      IdsOfFirst(a);
      if a[0].id in seen {
        FreshAppend(a[1..], b, seen);
        assert seen + Ids(a[1..]) == seen + Ids(a);
      } else {
        FreshAppend(a[1..], b, seen + {a[0].id});
        assert seen + {a[0].id} + Ids(a[1..]) == seen + Ids(a);
      }
    }
  }

  /** Filtering twice is filtering by both. */
  lemma {:induction false} FreshTwice(xs: seq<Evidence>, first: set<string>, second: set<string>)
    ensures Fresh(Fresh(xs, first), second) == Fresh(xs, first + second)
  {
    if xs != [] {
      var id := xs[0].id;
      if id in first {
        FreshTwice(xs[1..], first, second);
      } else {
        FreshTwice(xs[1..], first + {id}, second);
        var rest := Fresh(xs[1..], first + {id});
        assert ([xs[0]] + rest)[1..] == rest;
        if id in second {
          assert first + {id} + second == first + second;
        } else {
          FreshTwice(xs[1..], first + {id}, second + {id});
          assert first + {id} + (second + {id}) == first + second + {id};
        }
      }
    }
  }

  /** The local chain first, then what of the remote one is new. */
  lemma MergeIs(a: seq<Evidence>, b: seq<Evidence>)
    ensures Merge(a, b) == Fresh(a, {}) + Fresh(b, Ids(a))
  {
    FreshAppend(a, b, {});
    assert {} + Ids(a) == Ids(a);
  }

  lemma MergeAssociative(a: seq<Evidence>, b: seq<Evidence>, c: seq<Evidence>)
    ensures Merge(Merge(a, b), c) == Merge(a, Merge(b, c))
  {
    MergeLeft(a, b, c);
    MergeIs(a, Merge(b, c));
    FreshTwice(b + c, {}, Ids(a));
    FreshAppend(b, c, Ids(a));
    MergeIs(a, b);
    var none: set<string> := {};
    assert none + Ids(a) == Ids(a);
  }

  lemma MergeLeft(a: seq<Evidence>, b: seq<Evidence>, c: seq<Evidence>)
    ensures Merge(Merge(a, b), c) == Merge(a, b) + Fresh(c, Ids(a) + Ids(b))
  {
    MergeIs(Merge(a, b), c);
    MergeIds(a, b);
    var none: set<string> := {};
    assert none + none == none;
    FreshTwice(a + b, none, none);
  }

  lemma {:induction false} FreshAll(xs: seq<Evidence>, seen: set<string>)
    requires DuplicateFree(xs) && forall k | 0 <= k < |xs| :: xs[k].id !in seen
    ensures Fresh(xs, seen) == xs
  {
    if xs != [] {
      var rest := xs[1..];
      assert forall k | 0 <= k < |rest| :: rest[k] == xs[k + 1];
      FreshAll(rest, seen + {xs[0].id});
    }
  }

  lemma {:induction false} FreshNone(xs: seq<Evidence>, seen: set<string>)
    requires Ids(xs) <= seen
    ensures Fresh(xs, seen) == []
  {
    if xs != [] {
      IdsOfFirst(xs);
      FreshNone(xs[1..], seen);
    }
  }

  /** Merging a chain with itself gives it back exactly when it repeats no identifier. */
  lemma MergeIdempotentIff(a: seq<Evidence>)
    ensures Merge(a, a) == a <==> DuplicateFree(a)
  {
    MergeIds(a, a);
    if DuplicateFree(a) {
      FreshAppend(a, a, {});
      FreshAll(a, {});
      FreshNone(a, {} + Ids(a));
    }
  }

  // ---- lineage across runtimes ----

  /** `previousHash` is empty where the record names none. */
  datatype Csr = Csr(id: string, hash: string, previousHash: string)

  datatype Gap = Gap(previousId: string, id: string)

  predicate Broken(previous: Csr, current: Csr) {
    current.previousHash != "" && previous.hash != current.previousHash
  }

  function Gaps(csrs: seq<Csr>): seq<Gap> {
    if |csrs| < 2 then []
    else
      var n := |csrs| - 1;
      Gaps(csrs[..n]) + if Broken(csrs[n - 1], csrs[n]) then [Gap(csrs[n - 1].id, csrs[n].id)] else []
  }

  method VerifyCrossRuntimeLineage(csrs: seq<Csr>) returns (valid: bool, gaps: seq<Gap>)
    ensures gaps == Gaps(csrs) && valid == (gaps == [])
  {
    gaps := [];
    var i := 1;
    while i < |csrs|
      invariant 1 <= i && (i <= |csrs| || |csrs| == 0)
      invariant gaps == Gaps(if i <= |csrs| then csrs[..i] else csrs)
    {
      assert csrs[..i + 1][..i] == csrs[..i];
      if Broken(csrs[i - 1], csrs[i]) { gaps := gaps + [Gap(csrs[i - 1].id, csrs[i].id)]; }
      i := i + 1;
    }
    assert csrs[..|csrs|] == csrs;
    valid := gaps == [];
  }

  /** The record names a previous hash that is not its neighbour's. */
  predicate GapAt(csrs: seq<Csr>, k: nat) {
    1 <= k < |csrs| && csrs[k].previousHash != "" && csrs[k].previousHash != csrs[k - 1].hash
  }

  /** The places ascend, are all those of a gap, and each gap names the record there and the one before it. */
  predicate GapsAt(csrs: seq<Csr>, gaps: seq<Gap>, places: seq<nat>) {
    && |gaps| == |places|
    && (forall j, k | 0 <= j < k < |places| :: places[j] < places[k])
    && (forall k | 0 <= k < |places| ::
          GapAt(csrs, places[k]) && gaps[k] == Gap(csrs[places[k] - 1].id, csrs[places[k]].id))
    && forall p: nat | p < |csrs| && GapAt(csrs, p) :: p in places
  }

  lemma GapsNext(csrs: seq<Csr>, front: seq<Csr>, n: nat, gaps: seq<Gap>, places: seq<nat>)
    requires |csrs| == n + 1 >= 2 && front == csrs[..n] && GapsAt(front, gaps, places)
    ensures !GapAt(csrs, n) ==> GapsAt(csrs, gaps, places)
    ensures GapAt(csrs, n) ==> GapsAt(csrs, gaps + [Gap(csrs[n - 1].id, csrs[n].id)], places + [n])
  {
    var more := places + [n];
    forall p: nat | p < n
      ensures GapAt(csrs, p) <==> GapAt(front, p)
    {
    }
    if GapAt(csrs, n) {
      forall p: nat | p < |csrs| && GapAt(csrs, p)
        ensures p in more
      {
        if p < n { assert p in places; }
      }
    }
  }

  /** Every gap is listed once, in order. */
  lemma {:induction false} GapsListed(csrs: seq<Csr>) returns (places: seq<nat>)
    ensures GapsAt(csrs, Gaps(csrs), places)
  {
    places := [];
    if |csrs| >= 2 {
      var n := |csrs| - 1;
      var front := csrs[..n];
      places := GapsListed(front);
      GapsStep(csrs, front, n);
      GapsNext(csrs, front, n, Gaps(front), places);
      if GapAt(csrs, n) { places := places + [n]; }
    } else {
      NoneAt(csrs);
    }
  }

  lemma NoneAt(csrs: seq<Csr>)
    requires |csrs| < 2
    ensures GapsAt(csrs, [], [])
  {
  }

  lemma GapsStep(csrs: seq<Csr>, front: seq<Csr>, n: nat)
    requires |csrs| == n + 1 >= 2 && front == csrs[..n]
    ensures Gaps(csrs) == Gaps(front) + if GapAt(csrs, n) then [Gap(csrs[n - 1].id, csrs[n].id)] else []
  {
  }

  /** The gaps of two lists joined are those of each and, between them, the one at the seam. */
  lemma {:induction false} GapsJoin(a: seq<Csr>, b: seq<Csr>)
    requires a != [] && b != []
    ensures var last, first := a[|a| - 1], b[0];
            Gaps(a + b) ==
              Gaps(a)
              + (if first.previousHash != "" && first.previousHash != last.hash then [Gap(last.id, first.id)] else [])
              + Gaps(b)
  {
    var n := |b| - 1;
    assert (a + b)[..|a| + n] == a + b[..n];
    if n == 0 {
      assert a + b[..0] == a;
    } else {
      GapsJoin(a, b[..n]);
    }
  }

  lemma {:induction false} NoGapsIff(csrs: seq<Csr>)
    ensures Gaps(csrs) == [] <==>
              forall k | 1 <= k < |csrs| :: csrs[k].previousHash == "" || csrs[k].previousHash == csrs[k - 1].hash
  {
    var places := GapsListed(csrs);
    if k :| 1 <= k < |csrs| && csrs[k].previousHash != "" && csrs[k].previousHash != csrs[k - 1].hash {
      assert GapAt(csrs, k);
    }
    if places != [] { assert GapAt(csrs, places[0]); }
  }
}
