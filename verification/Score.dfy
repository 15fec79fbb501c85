/** getBalanceScore: the sum of the load differences over all ordered pairs of members. */
module Score {
  import opened Order
  import opened Movements
  import opened Assignment

  function Gap(a: int, b: int): nat { if a < b then b - a else a - b }

  /** Sum of the gaps between k and the loads of the members in `ms`. */
  ghost function Gaps(current: Assignments, ms: set<MemberId>, k: int): int {
    if ms == {} then 0
    else
      var m :| m in ms;
      Gap(Load(current, m), k) + Gaps(current, ms - {m}, k)
  }

  lemma {:induction false} GapsSplit(current: Assignments, ms: set<MemberId>, k: int, m: MemberId)
    requires m in ms
    ensures Gaps(current, ms, k) == Gap(Load(current, m), k) + Gaps(current, ms - {m}, k)
  {
    var n :| n in ms && Gaps(current, ms, k) == Gap(Load(current, n), k) + Gaps(current, ms - {n}, k);
    if n != m {
      GapsSplit(current, ms - {n}, k, m);
      GapsSplit(current, ms - {m}, k, n);
      assert ms - {n} - {m} == ms - {m} - {n};
    }
  }

  /** Sum over the ordered pairs of `ms` and `ns`. */
  ghost function PairGaps(current: Assignments, ms: set<MemberId>, ns: set<MemberId>): int {
    if ms == {} then 0
    else
      var m :| m in ms;
      Gaps(current, ns, Load(current, m)) + PairGaps(current, ms - {m}, ns)
  }

  ghost function BalanceScore(current: Assignments): int {
    PairGaps(current, current.Keys, current.Keys)
  }

  lemma {:induction false} PairGapsSplit(current: Assignments, ms: set<MemberId>, ns: set<MemberId>, m: MemberId)
    requires m in ms
    ensures PairGaps(current, ms, ns) == Gaps(current, ns, Load(current, m)) + PairGaps(current, ms - {m}, ns)
  {
    hide Gaps;
    var n :|
      n in ms && PairGaps(current, ms, ns) == Gaps(current, ns, Load(current, n)) + PairGaps(current, ms - {n}, ns);
    if n != m {
      PairGapsSplit(current, ms - {n}, ns, m);
      PairGapsSplit(current, ms - {m}, ns, n);
      assert ms - {n} - {m} == ms - {m} - {n};
    }
  }

  /** The same sum, one member taken out of the second set. */
  lemma {:induction false} PairGapsSplitInner(current: Assignments, ms: set<MemberId>, ns: set<MemberId>, n: MemberId)
    requires n in ns
    ensures PairGaps(current, ms, ns) == Gaps(current, ms, Load(current, n)) + PairGaps(current, ms, ns - {n})
  {
    hide Gaps, PairGaps;
    NoGaps(current, ns, Load(current, n));
    NoGaps(current, ns - {n}, Load(current, n));
    if ms != {} {
      var m :| m in ms;
      PairGapsSplit(current, ms, ns, m);
      PairGapsSplit(current, ms, ns - {n}, m);
      GapsSplit(current, ns, Load(current, m), n);
      GapsSplit(current, ms, Load(current, n), m);
      PairGapsSplitInner(current, ms - {m}, ns, n);
    }
  }

  lemma NoGaps(current: Assignments, ns: set<MemberId>, k: int)
    ensures Gaps(current, {}, k) == 0 && PairGaps(current, {}, ns) == 0
  {
  }

  lemma {:induction false} GapsFrame(a: Assignments, b: Assignments, ms: set<MemberId>, k: int)
    requires forall m :: m in ms ==> Load(a, m) == Load(b, m)
    ensures Gaps(a, ms, k) == Gaps(b, ms, k)
  {
    if ms != {} {
      var m :| m in ms;
      GapsSplit(a, ms, k, m);
      GapsSplit(b, ms, k, m);
      GapsFrame(a, b, ms - {m}, k);
    }
  }

  lemma {:induction false} PairGapsFrame(a: Assignments, b: Assignments, ms: set<MemberId>, ns: set<MemberId>)
    requires forall m :: m in ms + ns ==> Load(a, m) == Load(b, m)
    ensures PairGaps(a, ms, ns) == PairGaps(b, ms, ns)
  {
    hide Gaps;
    if ms != {} {
      var m :| m in ms;
      PairGapsSplit(a, ms, ns, m);
      PairGapsSplit(b, ms, ns, m);
      GapsFrame(a, b, ns, Load(a, m));
      PairGapsFrame(a, b, ms - {m}, ns);
    }
  }

  /** Bringing two loads one step closer brings nobody further from the pair. */
  lemma {:induction false} CloserGaps(current: Assignments, ms: set<MemberId>, x: int, y: int)
    requires x > y + 1
    ensures Gaps(current, ms, x - 1) + Gaps(current, ms, y + 1) <= Gaps(current, ms, x) + Gaps(current, ms, y)
  {
    if ms != {} {
      var m :| m in ms;
      GapsSplit(current, ms, x - 1, m);
      GapsSplit(current, ms, y + 1, m);
      GapsSplit(current, ms, x, m);
      GapsSplit(current, ms, y, m);
      CloserGaps(current, ms - {m}, x, y);
    }
  }

  /** The score in terms of two members and the rest. */
  lemma ScoreOfTwo(current: Assignments, g: MemberId, t: MemberId)
    requires g in current && t in current && g != t
    ensures var rest := current.Keys - {g} - {t};
            BalanceScore(current) == PairGaps(current, rest, rest)
              + 2 * (Gaps(current, rest, Load(current, g)) + Gaps(current, rest, Load(current, t)))
              + 2 * Gap(Load(current, g), Load(current, t))
  {
    hide Gaps, PairGaps, Load;
    var all, x, y := current.Keys, Load(current, g), Load(current, t);
    var rest := all - {g} - {t};
    PairGapsSplit(current, all, all, g);
    PairGapsSplit(current, all - {g}, all, t);
    PairGapsSplitInner(current, rest, all, g);
    PairGapsSplitInner(current, rest, all - {g}, t);
    GapsSplit(current, all, x, g);
    GapsSplit(current, all - {g}, x, t);
    GapsSplit(current, all, y, g);
    GapsSplit(current, all - {g}, y, t);
  }

  /** Handing one partition to a member lighter by two or more lowers the score by at least four. */
  lemma HandedLowersScore(current: Assignments, p: TopicPartition, giver: MemberId, taker: MemberId)
    requires giver in current && taker in current && giver != taker && p in current[giver]
    requires Load(current, giver) > Load(current, taker) + 1
    ensures BalanceScore(Handed(current, p, giver, taker)) <= BalanceScore(current) - 4
  {
    var after := Handed(current, p, giver, taker);
    var rest := current.Keys - {giver} - {taker};
    var x, y := Load(current, giver), Load(current, taker);
    assert Load(after, giver) == x - 1 && Load(after, taker) == y + 1;
    assert after.Keys == current.Keys;
    assert forall m :: m in rest ==> Load(after, m) == Load(current, m);
    hide Gaps, PairGaps, Load, Handed, BalanceScore;
    ScoreOfTwo(current, giver, taker);
    ScoreOfTwo(after, giver, taker);
    PairGapsFrame(after, current, rest, rest);
    GapsFrame(after, current, rest, x - 1);
    GapsFrame(after, current, rest, y + 1);
    CloserGaps(current, rest, x, y);
  }

  /** A hand-over between two loads, the taker's not above the giver's, spreads the gaps by at most this. */
  lemma {:induction false} SpreadGaps(current: Assignments, ms: set<MemberId>, x: int, y: int)
    requires x >= y
    ensures Gaps(current, ms, x - 1) + Gaps(current, ms, y + 1)
         <= Gaps(current, ms, x) + Gaps(current, ms, y) + 2 * |ms|
  {
    if ms != {} {
      var m :| m in ms;
      GapsSplit(current, ms, x - 1, m);
      GapsSplit(current, ms, y + 1, m);
      GapsSplit(current, ms, x, m);
      GapsSplit(current, ms, y, m);
      SpreadGaps(current, ms - {m}, x, y);
    }
  }

  lemma RestSize(current: Assignments, giver: MemberId, taker: MemberId)
    requires giver in current && taker in current && giver != taker
    ensures |current.Keys - {giver} - {taker}| == |current| - 2
  {
    assert current.Keys == (current.Keys - {giver} - {taker}) + {giver} + {taker};
    assert |current| == |current.Keys|;
  }

  lemma HandedLoads(current: Assignments, p: TopicPartition, giver: MemberId, taker: MemberId)
    requires giver in current && taker in current && giver != taker && p in current[giver]
    ensures var after := Handed(current, p, giver, taker);
            && after.Keys == current.Keys
            && Load(after, giver) == Load(current, giver) - 1 && Load(after, taker) == Load(current, taker) + 1
            && forall m :: m in current.Keys - {giver} - {taker} ==> Load(after, m) == Load(current, m)
  {
  }

  lemma HandedScoreBound(current: Assignments, p: TopicPartition, giver: MemberId, taker: MemberId)
    requires giver in current && taker in current && giver != taker && p in current[giver]
    requires Load(current, giver) >= Load(current, taker)
    ensures BalanceScore(Handed(current, p, giver, taker)) <= BalanceScore(current) + 4 * (|current| - 1)
  {
    hide Gaps, PairGaps, Load, Handed, BalanceScore;
    var after := Handed(current, p, giver, taker);
    var rest := current.Keys - {giver} - {taker};
    var x, y := Load(current, giver), Load(current, taker);
    HandedLoads(current, p, giver, taker);
    RestSize(current, giver, taker);
    ScoreOfTwo(current, giver, taker);
    ScoreOfTwo(after, giver, taker);
    PairGapsFrame(after, current, rest, rest);
    GapsFrame(after, current, rest, x - 1);
    GapsFrame(after, current, rest, y + 1);
    SpreadGaps(current, rest, x, y);
  }

  /** The members of `ms` with load x. */
  function Same(current: Assignments, ms: set<MemberId>, x: int): set<MemberId> {
    set m | m in ms && Load(current, m) == x
  }

  lemma SameSplit(current: Assignments, ms: set<MemberId>, x: int, m: MemberId)
    requires m in ms
    ensures |Same(current, ms, x)| == |Same(current, ms - {m}, x)| + if Load(current, m) == x then 1 else 0
  {
    var rest := Same(current, ms - {m}, x);
    assert Same(current, ms, x) == if Load(current, m) == x then rest + {m} else rest;
  }

  /** Two equal loads parted by a hand-over spread the gaps by two for every member with that load. */
  lemma {:induction false} PartedGaps(current: Assignments, ms: set<MemberId>, x: int)
    ensures Gaps(current, ms, x - 1) + Gaps(current, ms, x + 1)
         == 2 * Gaps(current, ms, x) + 2 * |Same(current, ms, x)|
  {
    if ms == {} {
      assert Same(current, ms, x) == {};
    } else {
      hide Same;
      var m :| m in ms;
      GapsSplit(current, ms, x - 1, m);
      GapsSplit(current, ms, x + 1, m);
      GapsSplit(current, ms, x, m);
      SameSplit(current, ms, x, m);
      PartedGaps(current, ms - {m}, x);
    }
  }

  /** The other members with the load of giver and taker. */
  function Peers(current: Assignments, giver: MemberId, taker: MemberId): set<MemberId> {
    Same(current, current.Keys - {giver} - {taker}, Load(current, giver))
  }

  /** What a hand-over does to the score when the taker is not the heavier one. */
  ghost predicate ScoreMoves(before: Assignments, after: Assignments, giver: MemberId, taker: MemberId) {
    var x, y := Load(before, giver), Load(before, taker);
    && (x == y ==> BalanceScore(after) == BalanceScore(before) + 4 + 4 * |Peers(before, giver, taker)|)
    && (x == y + 1 ==> BalanceScore(after) == BalanceScore(before))
    && (x > y + 1 ==> BalanceScore(after) <= BalanceScore(before) - 4)
  }

  lemma HandedScore(current: Assignments, p: TopicPartition, giver: MemberId, taker: MemberId)
    requires giver in current && taker in current && giver != taker && p in current[giver]
    requires Load(current, giver) >= Load(current, taker)
    ensures ScoreMoves(current, Handed(current, p, giver, taker), giver, taker)
  {
    hide Gaps, PairGaps, Load, Handed, BalanceScore, Same;
    var after := Handed(current, p, giver, taker);
    var rest := current.Keys - {giver} - {taker};
    var x, y := Load(current, giver), Load(current, taker);
    HandedLoads(current, p, giver, taker);
    ScoreOfTwo(current, giver, taker);
    ScoreOfTwo(after, giver, taker);
    PairGapsFrame(after, current, rest, rest);
    GapsFrame(after, current, rest, x - 1);
    GapsFrame(after, current, rest, y + 1);
    if x == y {
      PartedGaps(current, rest, x);
    } else if x > y + 1 {
      CloserGaps(current, rest, x, y);
    }
  }

  /** Exactly when a reassignment makes the score worse, and by how much: when the partition it really
      moves goes between two members with equal loads. It then adds four, and four for every other active
      member with that load. A difference of one leaves the score alone, a larger one improves it. */
  lemma ReassignScore(subs: Subscriptions, start: Owners, b: Ledger, p: TopicPartition, taker: MemberId)
    requires Inv(subs, start, b) && GoodTaker(subs, b, p, taker)
    ensures var q := Chosen(b, p, taker);
            var after := Reassign(subs, start, b, p, taker).current;
            && q in b.owner && Load(b.current, b.owner[q]) >= Load(b.current, taker)
            && ScoreMoves(b.current, after, b.owner[q], taker)
            && (BalanceScore(after) > BalanceScore(b.current) <==>
                Load(b.current, b.owner[q]) == Load(b.current, taker))
  {
    var q := Chosen(b, p, taker);
    ChosenIsMovable(subs, start, b, p, taker);
    assert q in b.current[b.owner[q]];
    if q != p {
      assert subs.Allows(start[p], p);
    }
    hide BalanceScore, Peers;
    HandedScore(b.current, q, b.owner[q], taker);
  }

  /** A redirected reassignment can raise the score, but by no more than four for every other member. */
  lemma ReassignScoreBound(subs: Subscriptions, start: Owners, b: Ledger, p: TopicPartition, taker: MemberId)
    requires Inv(subs, start, b) && GoodTaker(subs, b, p, taker)
    ensures BalanceScore(Reassign(subs, start, b, p, taker).current) <= BalanceScore(b.current) + 4 * (|b.current| - 1)
  {
    var q := Chosen(b, p, taker);
    ChosenIsMovable(subs, start, b, p, taker);
    assert q in b.current[b.owner[q]];
    if q != p {
      assert subs.Allows(start[p], p);
    }
    HandedScoreBound(b.current, q, b.owner[q], taker);
  }

  /** Every reassignment the record does not redirect improves the score. */
  lemma DirectMoveLowersScore(subs: Subscriptions, start: Owners, b: Ledger, p: TopicPartition, taker: MemberId)
    requires Inv(subs, start, b) && GoodTaker(subs, b, p, taker) && Chosen(b, p, taker) == p
    ensures BalanceScore(Reassign(subs, start, b, p, taker).current) <= BalanceScore(b.current) - 4
  {
    ChosenIsMovable(subs, start, b, p, taker);
    assert p in b.current[b.owner[p]];
    HandedLowersScore(b.current, p, b.owner[p], taker);
  }

  lemma {:induction false} GapsPositive(current: Assignments, ms: set<MemberId>, k: int)
    ensures Gaps(current, ms, k) >= 0
    ensures Gaps(current, ms, k) == 0 <==> forall m :: m in ms ==> Load(current, m) == k
  {
    if ms != {} {
      var m :| m in ms;
      GapsSplit(current, ms, k, m);
      GapsPositive(current, ms - {m}, k);
    }
  }

  lemma {:induction false} PairGapsPositive(current: Assignments, ms: set<MemberId>, ns: set<MemberId>)
    ensures PairGaps(current, ms, ns) >= 0
    ensures PairGaps(current, ms, ns) == 0 <==>
            forall m, n :: m in ms && n in ns ==> Load(current, m) == Load(current, n)
  {
    hide Gaps;
    if ms != {} {
      var m :| m in ms;
      PairGapsSplit(current, ms, ns, m);
      GapsPositive(current, ns, Load(current, m));
      PairGapsPositive(current, ms - {m}, ns);
    }
  }

  /** The score is zero exactly when all loads are equal. */
  lemma ZeroMeansEven(current: Assignments)
    ensures BalanceScore(current) >= 0
    ensures BalanceScore(current) == 0 <==>
            forall m, n :: m in current && n in current ==> Load(current, m) == Load(current, n)
  {
    PairGapsPositive(current, current.Keys, current.Keys);
  }

  lemma PrefixGrows(ids: seq<MemberId>, j: nat)
    requires NoDup(ids) && j < |ids|
    ensures Elems(ids[..j + 1]) == Elems(ids[..j]) + {ids[j]} && ids[j] !in Elems(ids[..j])
  {
    assert ids[..j + 1] == ids[..j] + [ids[j]];
  }

  lemma Prefixes(ids: seq<MemberId>, s: set<MemberId>)
    requires forall m :: m in ids <==> m in s
    ensures Elems(ids[..0]) == {} && Elems(ids[..|ids|]) == s
  {
    assert ids[..|ids|] == ids;
  }

  lemma GapsStep(current: Assignments, ids: seq<MemberId>, k: int, j: nat)
    requires NoDup(ids) && j < |ids|
    ensures Gaps(current, Elems(ids[..j + 1]), k) == Gaps(current, Elems(ids[..j]), k) + Gap(k, Load(current, ids[j]))
  {
    hide Gaps, Load, NoDup, Elems;
    PrefixGrows(ids, j);
    GapsSplit(current, Elems(ids[..j + 1]), k, ids[j]);
    assert Elems(ids[..j + 1]) - {ids[j]} == Elems(ids[..j]);
  }

  lemma PairGapsStep(current: Assignments, ids: seq<MemberId>, ns: set<MemberId>, j: nat)
    requires NoDup(ids) && j < |ids| && ids[j] in ns
    ensures PairGaps(current, Elems(ids[..j + 1]), ns)
         == PairGaps(current, Elems(ids[..j]), ns) + Gaps(current, ns - {ids[j]}, Load(current, ids[j]))
  {
    hide Gaps, PairGaps, Load, NoDup, Elems;
    PrefixGrows(ids, j);
    PairGapsSplit(current, Elems(ids[..j + 1]), ns, ids[j]);
    GapsSplit(current, ns, Load(current, ids[j]), ids[j]);
    assert Elems(ids[..j + 1]) - {ids[j]} == Elems(ids[..j]);
  }

  /** The table of list lengths the source builds first. */
  ghost predicate Counts(sizes: map<MemberId, nat>, current: Assignments) {
    forall m :: m in sizes ==> sizes[m] == Load(current, m)
  }

  lemma CountsWithout(sizes: map<MemberId, nat>, current: Assignments, m: MemberId)
    requires Counts(sizes, current)
    ensures Counts(sizes - {m}, current) && (sizes - {m}).Keys == sizes.Keys - {m}
    ensures m in sizes ==> sizes[m] == Load(current, m)
  {
  }

  /** The inner loop: adds up the gaps to everybody else. */
  method SumGaps(sizes: map<MemberId, nat>, ghost current: Assignments, k: nat) returns (sum: int)
    requires Counts(sizes, current)
    ensures sum == Gaps(current, sizes.Keys, k)
  {
    var ids := SortedIds(sizes.Keys);
    sum := 0;
    hide *;
    Prefixes(ids, sizes.Keys);
    NoGaps(current, {}, k);
    for j := 0 to |ids|
      invariant sum == Gaps(current, Elems(ids[..j]), k)
    {
      GapsStep(current, ids, k, j);
      CountsWithout(sizes, current, ids[j]);
      sum := sum + Gap(k, sizes[ids[j]]);
    }
  }

  method GetBalanceScore(assignment: Assignments) returns (score: int)
    ensures score == BalanceScore(assignment)
  {
    var sizes: map<MemberId, nat> := map m | m in assignment :: |assignment[m]|;
    assert Counts(sizes, assignment);
    score := SumPairs(sizes, assignment);
    assert sizes.Keys == assignment.Keys;
  }

  /** The outer loop: each member in turn is taken out of a copy of the table. */
  method SumPairs(sizes: map<MemberId, nat>, ghost current: Assignments) returns (score: int)
    requires Counts(sizes, current)
    ensures score == PairGaps(current, sizes.Keys, sizes.Keys)
  {
    var ids := SortedIds(sizes.Keys);
    score := 0;
    hide *;
    Prefixes(ids, sizes.Keys);
    NoGaps(current, sizes.Keys, 0);
    for i := 0 to |ids|
      invariant score == PairGaps(current, Elems(ids[..i]), sizes.Keys)
    {
      PairGapsStep(current, ids, sizes.Keys, i);
      CountsWithout(sizes, current, ids[i]);
      var others := SumGaps(sizes - {ids[i]}, current, sizes[ids[i]]);
      score := score + others;
    }
  }
}
