/** When the passes of a sticky plan come to an end. */
module Settling {
  import opened Order
  import opened Movements
  import opened Assignment
  import opened Score
  import opened Passes

  /** Ownership is over the right partitions, and every owner, first or present, is allowed. */
  ghost predicate Sound(e: Setting, now: Owners) {
    && e.subs.Valid() && e.start.Keys == now.Keys
    && (forall p :: p in now ==> e.subs.Allows(e.start[p], p) && e.subs.Allows(now[p], p))
  }

  /** The partition a visit really moves. */
  function Moving(e: Setting, now: Owners, p: TopicPartition, taker: MemberId): TopicPartition
    requires e.start.Keys == now.Keys && p in now
  {
    ActualPartition(Difference(e.start, now), p, now[p], taker)
  }

  /** A redirected partition goes home to the taker, from the first owner of the wanted one. */
  lemma MovingGoesHome(e: Setting, now: Owners, p: TopicPartition, taker: MemberId)
    requires Sound(e, now) && p in now && now[p] != taker && e.subs.Allows(taker, p)
    ensures var q := Moving(e, now, p, taker);
            && q in now && q.topic == p.topic && now[q] != taker && e.subs.Allows(taker, q)
            && (q != p ==> e.start[q] == taker && now[q] == e.start[p])
  {
  }

  lemma VisitIs(e: Setting, now: Owners, p: TopicPartition)
    requires Sound(e, now) && Wanted(e.subs, now, p)
    ensures var taker := Pick(e.subs, now, p);
            && e.subs.Allows(taker, p) && Count(now, now[p]) > Count(now, taker) + 1
            && Visit(e, now, p) == now[Moving(e, now, p, taker) := taker]
  {
    hide Count;
    var m :| e.subs.Allows(m, p) && Count(now, now[p]) > Count(now, m) + 1;
    assert Lighter(now)(Pick(e.subs, now, p), m);
  }

  lemma VisitSound(e: Setting, now: Owners, p: TopicPartition)
    requires Sound(e, now)
    ensures Sound(e, Visit(e, now, p))
  {
    if Wanted(e.subs, now, p) {
      VisitIs(e, now, p);
      MovingGoesHome(e, now, p, Pick(e.subs, now, p));
    }
  }

  /** q of p's topic went from `to` to the first owner of p. */
  ghost predicate WentAgainst(e: Setting, now: Owners, p: TopicPartition, to: MemberId, q: TopicPartition)
    requires e.start.Keys == now.Keys && p in now
  {
    q in now && q.topic == p.topic && e.start[q] == to && now[q] == e.start[p] && to != e.start[p]
  }

  /** What a wanted visit to p may do: `to` is one of those that may own p with the fewest partitions, the
      first by name of these, and q is what moves to it: the lowest partition of the topic that went the
      opposite way, or p itself when there is none. */
  ghost predicate GoesTo(e: Setting, now: Owners, p: TopicPartition, to: MemberId, q: TopicPartition)
    requires e.start.Keys == now.Keys && p in now
  {
    && e.subs.Allows(to, p)
    && (forall n :: e.subs.Allows(n, p) && n != to ==>
          |Held(now, to)| < |Held(now, n)| || (|Held(now, to)| == |Held(now, n)| && ComesBefore(to.id, n.id)))
    && (if q == p then forall r :: !WentAgainst(e, now, p, to, r)
        else
          && WentAgainst(e, now, p, to, q)
          && forall r :: WentAgainst(e, now, p, to, r) ==> q.partition <= r.partition)
  }

  /** Exactly when a visit moves something: at least two members may own the partition, its owner has a
      name, and owns at least two partitions more than some member that may own it. */
  lemma VisitMovesExactly(e: Setting, now: Owners, p: TopicPartition)
    requires Sound(e, now)
    ensures Visit(e, now, p) != now <==>
            && p in e.subs.ofPartition && |e.subs.ofPartition[p]| >= 2 && p in now && now[p].id != ""
            && exists m :: m in e.subs.ofPartition[p] && |Held(now, now[p])| > |Held(now, m)| + 1
  {
    hide Held, Pick, Lighter;
    assert p in now && now[p].id == "" ==> now[p] == MemberId("");
    if Wanted(e.subs, now, p) {
      var m :| e.subs.Allows(m, p) && Count(now, now[p]) > Count(now, m) + 1;
      assert m in e.subs.ofPartition[p] && |Held(now, now[p])| > |Held(now, m)| + 1;
      VisitIs(e, now, p);
      MovingGoesHome(e, now, p, Pick(e.subs, now, p));
    } else if p in e.subs.ofPartition && p in now {
      forall m | m in e.subs.ofPartition[p] && |Held(now, now[p])| > |Held(now, m)| + 1
        ensures |e.subs.ofPartition[p]| < 2 || now[p].id == ""
      {
        assert e.subs.Allows(m, p) && Count(now, now[p]) > Count(now, m) + 1;
      }
    }
  }

  /** And what it then does. */
  lemma VisitGoes(e: Setting, now: Owners, p: TopicPartition) returns (to: MemberId, q: TopicPartition)
    requires Sound(e, now) && Visit(e, now, p) != now
    ensures p in now && GoesTo(e, now, p, to, q) && Visit(e, now, p) == now[q := to]
  {
    hide Held, Lighter, Count;
    VisitIs(e, now, p);
    to := Pick(e.subs, now, p);
    q := Moving(e, now, p, to);
    forall n | e.subs.Allows(n, p) && n != to
      ensures |Held(now, to)| < |Held(now, n)| || (|Held(now, to)| == |Held(now, n)| && ComesBefore(to.id, n.id))
    {
      PickMeans(e.subs, now, p, n);
    }
    OwnerDiffers(now, p, to);
    MovesLowest(e, now, p, to);
  }

  lemma OwnerDiffers(now: Owners, p: TopicPartition, to: MemberId)
    requires p in now && Count(now, now[p]) > Count(now, to) + 1
    ensures now[p] != to
  {
  }

  lemma MovesLowest(e: Setting, now: Owners, p: TopicPartition, to: MemberId)
    requires e.start.Keys == now.Keys && p in now && now[p] != to
    ensures var q := Moving(e, now, p, to);
            if q == p then forall r :: !WentAgainst(e, now, p, to, r)
            else
              && WentAgainst(e, now, p, to, q)
              && forall r :: WentAgainst(e, now, p, to, r) ==> q.partition <= r.partition
  {
    var record := Difference(e.start, now);
    var q := Moving(e, now, p, to);
    forall r ensures r in Reversals(record, p, now[p], to) <==> WentAgainst(e, now, p, to, r) {
    }
    forall r | WentAgainst(e, now, p, to, r) ensures q != p && q.partition <= r.partition {
      ActualIsLowest(record, p, now[p], to, r);
    }
  }

  // ---------------------------------------------------------------- squared loads

  function ListsOf(now: Owners, ms: set<MemberId>): Assignments {
    map m | m in ms :: SortedPartitions(Held(now, m))
  }

  lemma ListSize(now: Owners, ms: set<MemberId>, m: MemberId)
    requires m in ms
    ensures Load(ListsOf(now, ms), m) == Count(now, m)
    ensures forall p :: p in ListsOf(now, ms)[m] <==> p in now && now[p] == m
  {
    NoDupSize(SortedPartitions(Held(now, m)));
    assert Elems(SortedPartitions(Held(now, m))) == Held(now, m);
  }

  /** The sum of the squared loads of the members in `ms`. */
  ghost function Spread(now: Owners, ms: set<MemberId>): int {
    SumSquares(ListsOf(now, ms), ms)
  }

  lemma HandedLoad(lists: Assignments, q: TopicPartition, giver: MemberId, taker: MemberId, m: MemberId)
    requires giver in lists && taker in lists && giver != taker && q in lists[giver]
    ensures Load(Handed(lists, q, giver, taker), m)
         == Load(lists, m) + (if m == taker then 1 else 0) - if m == giver then 1 else 0
  {
  }

  /** The lists after a move have the lengths of the lists with one partition handed over. */
  lemma MovedLists(now: Owners, q: TopicPartition, taker: MemberId, ms: set<MemberId>)
    requires q in now && now[q] in ms && taker in ms && now[q] != taker
    ensures var lists := ListsOf(now, ms);
            q in lists[now[q]] &&
            forall m :: m in ms ==> Load(ListsOf(now[q := taker], ms), m) == Load(Handed(lists, q, now[q], taker), m)
  {
    ListSize(now, ms, now[q]);
    ListKeys(now, ms);
    hide *;
    forall m | m in ms
      ensures Load(ListsOf(now[q := taker], ms), m) == Load(Handed(ListsOf(now, ms), q, now[q], taker), m)
    {
      ListSize(now, ms, m);
      ListSize(now[q := taker], ms, m);
      CountMoved(now, q, taker, m);
      HandedLoad(ListsOf(now, ms), q, now[q], taker, m);
    }
  }

  lemma ListKeys(now: Owners, ms: set<MemberId>)
    ensures ListsOf(now, ms).Keys == ms
  {
  }

  lemma MoveSpread(now: Owners, q: TopicPartition, taker: MemberId, ms: set<MemberId>)
    requires q in now && now[q] in ms && taker in ms && now[q] != taker
    ensures Spread(now[q := taker], ms) == Spread(now, ms) + 2 * (Count(now, taker) - Count(now, now[q])) + 2
  {
    var lists := ListsOf(now, ms);
    MovedLists(now, q, taker, ms);
    ListKeys(now, ms);
    ListSize(now, ms, taker);
    ListSize(now, ms, now[q]);
    LoadIsLength(lists, taker);
    LoadIsLength(lists, now[q]);
    assert Spread(now, ms) == SumSquares(lists, ms);
    assert Spread(now[q := taker], ms) == SumSquares(ListsOf(now[q := taker], ms), ms);
    hide *;
    HandedSquares(lists, q, now[q], taker);
    SumSquaresFrame(ListsOf(now[q := taker], ms), Handed(lists, q, now[q], taker), ms);
  }

  lemma LoadIsLength(lists: Assignments, m: MemberId)
    requires m in lists
    ensures Load(lists, m) == |lists[m]|
  {
  }

  lemma {:induction false} SquaresNotNegative(lists: Assignments, ms: set<MemberId>)
    ensures SumSquares(lists, ms) >= 0
  {
    if ms != {} {
      var m :| m in ms;
      SumSquaresSplit(lists, ms, m);
      SquaresNotNegative(lists, ms - {m});
    }
  }

  // ---------------------------------------------------------------- narrow topics

  /** No partition that has siblings in its topic has more than two potential owners. */
  ghost predicate Narrow(subs: Subscriptions) {
    forall p, q :: p in subs.ofPartition && q in subs.ofPartition && p != q && p.topic == q.topic ==>
      |Elems(subs.ofPartition[p])| <= 2
  }

  lemma TwoAtMost(s: set<MemberId>, a: MemberId, b: MemberId, c: MemberId)
    requires |s| <= 2 && a in s && b in s && c in s && a != b && a != c
    ensures b == c
  {
    SubsetSize({a, b, c}, s);
  }

  /** With narrow topics a redirected move takes from the same member as the wanted one would have. */
  lemma NarrowKeepsGiver(e: Setting, now: Owners, p: TopicPartition, taker: MemberId)
    requires Sound(e, now) && Narrow(e.subs) && p in now && now[p] != taker && e.subs.Allows(taker, p)
    ensures now[p] == now[Moving(e, now, p, taker)]
  {
    MovingGoesHome(e, now, p, taker);
    var q := Moving(e, now, p, taker);
    if q != p {
      assert q in e.subs.ofPartition;
      TwoAtMost(Elems(e.subs.ofPartition[p]), taker, now[p], e.start[p]);
    }
  }

  lemma OwnersAreMembers(e: Setting, now: Owners, p: TopicPartition, taker: MemberId)
    requires Sound(e, now) && p in now && e.subs.Allows(taker, p)
    ensures now[p] in e.subs.ofMember && taker in e.subs.ofMember
  {
  }

  lemma NarrowVisit(e: Setting, now: Owners, p: TopicPartition)
    requires Sound(e, now) && Narrow(e.subs) && Wanted(e.subs, now, p)
    ensures Spread(Visit(e, now, p), e.subs.ofMember.Keys) <= Spread(now, e.subs.ofMember.Keys) - 2
  {
    var taker := Pick(e.subs, now, p);
    VisitIs(e, now, p);
    NarrowKeepsGiver(e, now, p, taker);
    MovingGoesHome(e, now, p, taker);
    OwnersAreMembers(e, now, p, taker);
    hide *;
    MoveSpread(now, Moving(e, now, p, taker), taker, e.subs.ofMember.Keys);
  }

  /** With narrow topics every move of a pass takes at least 2 off the squares. */
  lemma {:induction false} NarrowPass(e: Setting, now: Owners, ps: seq<TopicPartition>)
    requires Sound(e, now) && Narrow(e.subs)
    ensures Sound(e, Pass(e, now, ps).0)
    ensures Spread(Pass(e, now, ps).0, e.subs.ofMember.Keys)
         <= Spread(now, e.subs.ofMember.Keys) - 2 * Pass(e, now, ps).1
    decreases |ps|
  {
    hide Spread, Narrow, Sound, Even, Wanted;
    assert e.start.Keys == now.Keys by { SoundKeys(e, now); }
    if ps != [] && !Even(e, now) {
      VisitSound(e, now, ps[0]);
      if Wanted(e.subs, now, ps[0]) {
        NarrowVisit(e, now, ps[0]);
      }
      NarrowPass(e, Visit(e, now, ps[0]), ps[1..]);
    }
  }

  lemma SoundKeys(e: Setting, now: Owners)
    requires Sound(e, now)
    ensures e.start.Keys == now.Keys && e.subs.Valid()
  {
  }

  lemma {:induction false} NarrowAfter(e: Setting, now: Owners, n: nat)
    requires Sound(e, now) && Narrow(e.subs) && !Settles(e, now, n)
    ensures Sound(e, After(e, now, n))
    ensures Spread(After(e, now, n), e.subs.ofMember.Keys) <= Spread(now, e.subs.ofMember.Keys) - 2 * n
  {
    hide Spread, Narrow, Sound, Pass;
    assert e.start.Keys == now.Keys by { SoundKeys(e, now); }
    if n > 0 {
      assert MovesAt(e, now, n - 1) > 0;
      NarrowAfter(e, now, n - 1);
      NarrowPass(e, After(e, now, n - 1), e.order);
    }
  }

  /** With narrow topics more passes than half the squares are never needed. */
  lemma NarrowSettles(e: Setting, now: Owners, n: nat)
    requires Sound(e, now) && Narrow(e.subs) && 2 * n > Spread(now, e.subs.ofMember.Keys)
    ensures Settles(e, now, n)
  {
    if !Settles(e, now, n) {
      NarrowAfter(e, now, n);
      SquaresNotNegative(ListsOf(After(e, now, n), e.subs.ofMember.Keys), e.subs.ofMember.Keys);
    }
  }

  // ---------------------------------------------------------------- the balance score

  /** The score of the active members. */
  ghost function ScoreOf(e: Setting, now: Owners): int {
    BalanceScore(ListsOf(now, e.active))
  }

  /** Whoever may own a shared partition is active. */
  ghost predicate Closed(e: Setting) {
    forall m, p :: e.subs.Shared(p) && e.subs.Allows(m, p) ==> m in e.active
  }

  lemma ScoreFrame(a: Assignments, b: Assignments, ms: set<MemberId>)
    requires a.Keys == ms && b.Keys == ms && forall m :: m in ms ==> Load(a, m) == Load(b, m)
    ensures BalanceScore(a) == BalanceScore(b)
  {
    hide Load, PairGaps;
    PairGapsFrame(a, b, ms, ms);
  }

  lemma MoveScore(e: Setting, now: Owners, q: TopicPartition, taker: MemberId)
    requires q in now && now[q] in e.active && taker in e.active && Count(now, now[q]) > Count(now, taker) + 1
    ensures ScoreOf(e, now[q := taker]) <= ScoreOf(e, now) - 4
  {
    hide Count, BalanceScore, SortedPartitions;
    var lists := ListsOf(now, e.active);
    ListKeys(now, e.active);
    ListKeys(now[q := taker], e.active);
    MovedLists(now, q, taker, e.active);
    ListSize(now, e.active, taker);
    ListSize(now, e.active, now[q]);
    hide ListsOf, Load;
    HandedLowersScore(lists, q, now[q], taker);
    HandedKeys(lists, q, now[q], taker);
    ScoreFrame(ListsOf(now[q := taker], e.active), Handed(lists, q, now[q], taker), e.active);
  }

  /** A move between two active members with equal loads raises the score, by exactly this much. */
  lemma EqualMoveScore(e: Setting, now: Owners, q: TopicPartition, taker: MemberId)
    requires q in now && now[q] in e.active && taker in e.active && now[q] != taker
    requires Count(now, now[q]) == Count(now, taker)
    ensures ScoreOf(e, now[q := taker]) == ScoreOf(e, now) + 4 + 4 * |AsHeavy(e, now, now[q], taker)|
  {
    hide Count, BalanceScore, SortedPartitions, Same;
    var lists := ListsOf(now, e.active);
    ListKeys(now, e.active);
    ListKeys(now[q := taker], e.active);
    MovedLists(now, q, taker, e.active);
    ListSize(now, e.active, taker);
    ListSize(now, e.active, now[q]);
    AsHeavyIs(e, now, now[q], taker);
    hide ListsOf, Load, AsHeavy;
    HandedScore(lists, q, now[q], taker);
    HandedKeys(lists, q, now[q], taker);
    ScoreFrame(ListsOf(now[q := taker], e.active), Handed(lists, q, now[q], taker), e.active);
  }

  /** The other active members with the load of giver and taker. */
  function AsHeavy(e: Setting, now: Owners, giver: MemberId, taker: MemberId): set<MemberId> {
    set m | m in e.active && m != giver && m != taker && Count(now, m) == Count(now, giver)
  }

  lemma AsHeavyIs(e: Setting, now: Owners, giver: MemberId, taker: MemberId)
    requires giver in e.active
    ensures AsHeavy(e, now, giver, taker) == Peers(ListsOf(now, e.active), giver, taker)
  {
    ListKeys(now, e.active);
    hide Count, ListsOf, Load;
    forall m | m in e.active ensures Load(ListsOf(now, e.active), m) == Count(now, m) {
      ListSize(now, e.active, m);
    }
  }

  lemma NarrowVisitScore(e: Setting, now: Owners, p: TopicPartition)
    requires Sound(e, now) && Narrow(e.subs) && Closed(e) && Wanted(e.subs, now, p)
    ensures ScoreOf(e, Visit(e, now, p)) <= ScoreOf(e, now) - 4
  {
    var taker := Pick(e.subs, now, p);
    VisitIs(e, now, p);
    NarrowKeepsGiver(e, now, p, taker);
    MovingGoesHome(e, now, p, taker);
    assert e.subs.Allows(now[p], p) && e.subs.Shared(p);
    hide Count, ScoreOf, Visit;
    MoveScore(e, now, Moving(e, now, p, taker), taker);
  }

  lemma {:induction false} NarrowPassScore(e: Setting, now: Owners, ps: seq<TopicPartition>)
    requires Sound(e, now) && Narrow(e.subs) && Closed(e)
    ensures Sound(e, Pass(e, now, ps).0)
    ensures ScoreOf(e, Pass(e, now, ps).0) <= ScoreOf(e, now) - 4 * Pass(e, now, ps).1
    decreases |ps|
  {
    hide ScoreOf, Narrow, Sound, Even, Wanted, Closed, Visit;
    SoundKeys(e, now);
    if ps != [] && !Even(e, now) {
      VisitSound(e, now, ps[0]);
      if Wanted(e.subs, now, ps[0]) {
        NarrowVisitScore(e, now, ps[0]);
      } else {
        UnwantedStays(e, now, ps[0]);
      }
      NarrowPassScore(e, Visit(e, now, ps[0]), ps[1..]);
    }
  }

  lemma UnwantedStays(e: Setting, now: Owners, p: TopicPartition)
    requires e.start.Keys == now.Keys && !Wanted(e.subs, now, p)
    ensures Visit(e, now, p) == now
  {
  }

  /** All moves of the first n passes. */
  ghost function MovesUpTo(e: Setting, now: Owners, n: nat): nat
    requires e.start.Keys == now.Keys
  {
    if n == 0 then 0 else MovesUpTo(e, now, n - 1) + MovesAt(e, now, n - 1)
  }

  /** With narrow topics a whole run of passes lowers the score by at least four for every move, so
      the comparison of scores at the end of balance would never undo it. */
  lemma {:induction false} NarrowRunScore(e: Setting, now: Owners, n: nat)
    requires Sound(e, now) && Narrow(e.subs) && Closed(e)
    ensures Sound(e, After(e, now, n))
    ensures ScoreOf(e, After(e, now, n)) <= ScoreOf(e, now) - 4 * MovesUpTo(e, now, n)
  {
    hide ScoreOf, Narrow, Sound, Pass, Closed;
    SoundKeys(e, now);
    if n > 0 {
      NarrowRunScore(e, now, n - 1);
      NarrowPassScore(e, After(e, now, n - 1), e.order);
    }
  }

  // ---------------------------------------------------------------- from the greedy assignment on

  lemma {:induction false} GreedyOwns(subs: Subscriptions, now: Owners, ps: seq<TopicPartition>)
    requires forall p :: p in now ==> subs.Allows(now[p], p)
    ensures forall p :: p in Greedy(subs, now, ps) ==> subs.Allows(Greedy(subs, now, ps)[p], p)
    decreases |ps|
  {
    hide Pick;
    if ps != [] {
      var next := Give(subs, now, ps[0]);
      assert forall p :: p in next ==> subs.Allows(next[p], p);
      GreedyOwns(subs, next, ps[1..]);
    }
  }

  lemma OpeningSound(subs: Subscriptions)
    requires subs.Valid()
    ensures Sound(Opening(subs), FirstOwners(subs))
  {
    hide Greedy;
    GreedyOwns(subs, map[], SortedPartitions(subs.ofPartition.Keys));
  }

  /** Nobody who may own something shared is set aside. */
  lemma OpeningClosed(subs: Subscriptions)
    requires subs.Valid()
    ensures Closed(Opening(subs))
  {
    hide FirstOwners, Reassignables, Subscriptions.Valid, Subscriptions.Shared, Subscriptions.Allows, TakesPart;
    forall m, p | subs.Shared(p) && subs.Allows(m, p) ensures m in Active(subs, FirstOwners(subs)) {
      SharerTakesPart(subs, m, p);
    }
  }

  lemma SharerTakesPart(subs: Subscriptions, m: MemberId, p: TopicPartition)
    requires subs.Valid() && subs.Shared(p) && subs.Allows(m, p)
    ensures m in subs.ofMember && TakesPart(subs, FirstOwners(subs), m)
  {
    var now := FirstOwners(subs);
    FirstOwnersAllowed(subs);
    hide FirstOwners, Count;
    if Count(now, m) >= |subs.ofMember[m]| {
      FullHoldsAll(subs, now, m);
      assert p in Held(now, m);
    }
  }

  lemma FirstOwnersAllowed(subs: Subscriptions)
    ensures forall p :: p in FirstOwners(subs) ==> subs.Allows(FirstOwners(subs)[p], p)
  {
    hide Greedy;
    GreedyOwns(subs, map[], SortedPartitions(subs.ofPartition.Keys));
  }

  lemma FullHoldsAll(subs: Subscriptions, now: Owners, m: MemberId)
    requires subs.Valid() && m in subs.ofMember && Count(now, m) >= |subs.ofMember[m]|
    requires forall p :: p in now ==> subs.Allows(now[p], p)
    ensures forall p :: p in subs.ofMember[m] ==> p in Held(now, m)
  {
    var held, potential := Held(now, m), Elems(subs.ofMember[m]);
    forall p | p in held ensures p in potential {
      assert subs.Allows(m, p);
    }
    ElemsSize(subs.ofMember[m]);
    SubsetSize(held, potential);
    forall p | p in subs.ofMember[m] ensures p in held {
      assert p in potential;
    }
  }

  /** A plan with narrow topics that moves anything ends with a better score than it had before. */
  lemma NarrowPlanImproves(subs: Subscriptions, n: nat)
    requires subs.Valid() && Narrow(subs)
    ensures var e := Opening(subs);
            ScoreOf(e, Outcome(subs, n)) <= ScoreOf(e, FirstOwners(subs)) - 4 * MovesUpTo(e, FirstOwners(subs), n)
  {
    OpeningSound(subs);
    OpeningClosed(subs);
    hide Narrow, Closed, Sound, ScoreOf, FirstOwners;
    NarrowRunScore(Opening(subs), FirstOwners(subs), n);
  }

  ghost function Owned(now: Owners, ms: set<MemberId>): set<TopicPartition> {
    set p | p in now && now[p] in ms
  }

  lemma OwnedSplit(now: Owners, ms: set<MemberId>, m: MemberId)
    requires m in ms
    ensures |Owned(now, ms)| == |Owned(now, ms - {m})| + Count(now, m)
  {
    assert Owned(now, ms) == Owned(now, ms - {m}) + Held(now, m);
    assert Owned(now, ms - {m}) !! Held(now, m);
  }

  /** The squares never exceed the square of what is owned. */
  lemma {:induction false} SpreadBound(now: Owners, lists: Assignments, ms: set<MemberId>)
    requires forall m :: m in ms ==> Load(lists, m) == Count(now, m)
    ensures SumSquares(lists, ms) <= Square(|Owned(now, ms)|)
  {
    hide Count, Load, Square, Owned;
    SquareNotNegative(|Owned(now, ms)|);
    if ms != {} {
      var m :| m in ms;
      SumSquaresSplit(lists, ms, m);
      SpreadBound(now, lists, ms - {m});
      OwnedSplit(now, ms, m);
      SquareOfSum(Count(now, m), |Owned(now, ms - {m})|);
    }
  }

  lemma SquareNotNegative(n: int)
    ensures Square(n) >= 0
  {
  }

  lemma SquareOfSum(a: nat, b: nat)
    ensures Square(a) + Square(b) <= Square(a + b)
  {
  }

  /** An input with narrow topics settles, within half the square of the number of its partitions. */
  lemma NarrowPlanSettles(subs: Subscriptions, n: nat)
    requires subs.Valid() && Narrow(subs) && 2 * n > Square(|subs.ofPartition|)
    ensures PlanSettles(subs, n)
  {
    var now, ms := FirstOwners(subs), subs.ofMember.Keys;
    OpeningSound(subs);
    forall m | m in ms ensures Load(ListsOf(now, ms), m) == Count(now, m) {
      ListSize(now, ms, m);
    }
    SpreadBound(now, ListsOf(now, ms), ms);
    assert Owned(now, ms) <= subs.ofPartition.Keys;
    SubsetSize(Owned(now, ms), subs.ofPartition.Keys);
    SquareMonotone(|Owned(now, ms)|, |subs.ofPartition|);
    hide Narrow, Sound, Settles, FirstOwners;
    NarrowSettles(Opening(subs), now, n);
  }

  lemma SquareMonotone(a: nat, b: nat)
    requires a <= b
    ensures Square(a) <= Square(b)
  {
  }

  // ---------------------------------------------------------------- identical subscriptions

  /** All members may own the same partitions. */
  ghost predicate Alike(subs: Subscriptions) {
    forall m, n, p :: m in subs.ofMember && n in subs.ofMember && subs.Allows(m, p) ==> subs.Allows(n, p)
  }

  ghost predicate Level(now: Owners, ms: set<MemberId>) {
    forall m, n :: m in ms && n in ms ==> Count(now, m) <= Count(now, n) + 1
  }

  lemma GiveKeepsLevel(subs: Subscriptions, now: Owners, p: TopicPartition)
    requires subs.Valid() && Alike(subs) && Level(now, subs.ofMember.Keys) && p !in now
    ensures Level(Give(subs, now, p), subs.ofMember.Keys)
  {
    hide Count;
    if p in subs.ofPartition && subs.ofPartition[p] != [] {
      var taker := Pick(subs, now, p);
      assert taker in subs.ofMember;
      forall n | n in subs.ofMember ensures Count(now, taker) <= Count(now, n) {
        assert subs.Allows(n, p);
        assert Lighter(now)(taker, n);
      }
      forall m: MemberId ensures Count(now[p := taker], m) == Count(now, m) + if m == taker then 1 else 0 {
        CountGiven(now, p, taker, m);
      }
    }
  }

  lemma {:induction false} GreedyIsLevel(subs: Subscriptions, now: Owners, ps: seq<TopicPartition>)
    requires subs.Valid() && Alike(subs) && Level(now, subs.ofMember.Keys)
    requires NoDup(ps) && forall p :: p in ps ==> p !in now
    ensures Level(Greedy(subs, now, ps), subs.ofMember.Keys)
    decreases |ps|
  {
    hide Alike, Level, Subscriptions.Valid, Pick;
    if ps != [] {
      GiveKeepsLevel(subs, now, ps[0]);
      assert forall k :: 0 <= k < |ps[1..]| ==> ps[1..][k] == ps[k + 1];
      GreedyIsLevel(subs, Give(subs, now, ps[0]), ps[1..]);
    }
  }

  /** With identical subscriptions the greedy assignment is already even: no pass moves anything, the
      first pass is the last, and the loads differ by at most one. */
  lemma AlikeNeverMoves(subs: Subscriptions, n: nat)
    requires subs.Valid() && Alike(subs)
    ensures Outcome(subs, n) == FirstOwners(subs) && Level(Outcome(subs, n), subs.ofMember.Keys)
    ensures n > 0 ==> PlanSettles(subs, n)
  {
    var e, now := Opening(subs), FirstOwners(subs);
    assert Level(map[], subs.ofMember.Keys);
    GreedyIsLevel(subs, map[], SortedPartitions(subs.ofPartition.Keys));
    assert Even(e, now);
    hide Even, Greedy, FirstOwners, Level, Active;
    assert MovesAt(e, now, 0) == 0;
    StaysSettled(e, now, 0, n);
  }

  // ---------------------------------------------------------------- a bound for every input

  function Power(a: nat, n: nat): nat {
    if n == 0 then 1 else a * Power(a, n - 1)
  }

  function Images(before: set<Owners>, p: TopicPartition, ms: set<MemberId>): set<Owners> {
    set now, m | now in before && m in ms :: now[p := m]
  }

  /** Every way to give the partitions `ps` to the members `ms`. */
  ghost function AllOwners(ps: set<TopicPartition>, ms: set<MemberId>): set<Owners> {
    if ps == {} then {map[]}
    else
      var p :| p in ps;
      Images(AllOwners(ps - {p}, ms), p, ms)
  }

  lemma {:induction false} AllOwnersHas(now: Owners, ms: set<MemberId>)
    requires now.Values <= ms
    ensures now in AllOwners(now.Keys, ms)
    decreases |now.Keys|
  {
    var ps := now.Keys;
    if ps == {} {
      assert now == map[];
    } else {
      var p :| p in ps && AllOwners(ps, ms) == Images(AllOwners(ps - {p}, ms), p, ms);
      var before := now - {p};
      assert before.Keys == ps - {p};
      AllOwnersHas(before, ms);
      assert before in AllOwners(ps - {p}, ms) && now[p] in ms;
      assert before[p := now[p]] in Images(AllOwners(ps - {p}, ms), p, ms);
      assert now == before[p := now[p]];
    }
  }

  lemma ImagesSplit(before: set<Owners>, b: Owners, p: TopicPartition, ms: set<MemberId>)
    requires b in before
    ensures |Images(before, p, ms)| <= |Images(before - {b}, p, ms)| + |Images({b}, p, ms)|
  {
    forall x | x in Images(before, p, ms) ensures x in Images(before - {b}, p, ms) + Images({b}, p, ms) {
      var now, m :| now in before && m in ms && x == now[p := m];
      assert now in before - {b} || now in {b};
    }
    SubsetSize(Images(before, p, ms), Images(before - {b}, p, ms) + Images({b}, p, ms));
  }

  lemma {:induction false} ImagesSize(before: set<Owners>, p: TopicPartition, ms: set<MemberId>)
    ensures |Images(before, p, ms)| <= |ms| * |before|
  {
    if before == {} {
      assert Images(before, p, ms) == {};
    } else {
      hide Images;
      var b :| b in before;
      ImagesSize(before - {b}, p, ms);
      OwnImages(b, p, ms);
      ImagesSplit(before, b, p, ms);
      OneMore(|ms|, |before - {b}|);
    }
  }

  lemma OneMore(a: nat, n: nat)
    ensures a * (n + 1) == a * n + a
  {
  }

  lemma {:induction false} OwnImages(b: Owners, p: TopicPartition, ms: set<MemberId>)
    ensures |Images({b}, p, ms)| <= |ms|
  {
    if ms == {} {
      assert Images({b}, p, ms) == {};
    } else {
      var m :| m in ms;
      OwnImages(b, p, ms - {m});
      forall x | x in Images({b}, p, ms) ensures x in Images({b}, p, ms - {m}) + {b[p := m]} {
        var now, n :| now in {b} && n in ms && x == now[p := n];
        assert n == m || n in ms - {m};
      }
      SubsetSize(Images({b}, p, ms), Images({b}, p, ms - {m}) + {b[p := m]});
    }
  }

  lemma {:induction false} AllOwnersSize(ps: set<TopicPartition>, ms: set<MemberId>)
    ensures |AllOwners(ps, ms)| <= Power(|ms|, |ps|)
  {
    if ps != {} {
      var p :| p in ps && AllOwners(ps, ms) == Images(AllOwners(ps - {p}, ms), p, ms);
      AllOwnersSize(ps - {p}, ms);
      ImagesSize(AllOwners(ps - {p}, ms), p, ms);
      Grows(|ms|, |AllOwners(ps - {p}, ms)|, Power(|ms|, |ps| - 1));
    }
  }

  lemma Grows(a: nat, x: nat, y: nat)
    requires x <= y
    ensures a * x <= a * y
  {
  }

  /** Equal ownership before two passes means equal ownership the same number of passes later. */
  lemma {:induction false} Periodic(e: Setting, now: Owners, i: nat, j: nat, d: nat)
    requires e.start.Keys == now.Keys && After(e, now, i) == After(e, now, j)
    ensures After(e, now, i + d) == After(e, now, j + d)
    decreases d
  {
    hide Pass;
    if d > 0 {
      Periodic(e, now, i, j, d - 1);
    }
  }

  /** Pass k is the first without moves. */
  ghost predicate FirstQuiet(e: Setting, now: Owners, k: nat)
    requires e.start.Keys == now.Keys
  {
    MovesAt(e, now, k) == 0 && forall x: nat :: x < k ==> MovesAt(e, now, x) != 0
  }

  lemma {:induction false} QuietHasFirst(e: Setting, now: Owners, k: nat) returns (j: nat)
    requires e.start.Keys == now.Keys && MovesAt(e, now, k) == 0
    ensures FirstQuiet(e, now, j)
    decreases k
  {
    hide MovesAt;
    if x: nat :| x < k && MovesAt(e, now, x) == 0 {
      j := QuietHasFirst(e, now, x);
    } else {
      j := k;
    }
  }

  lemma SameMoves(e: Setting, now: Owners, i: nat, j: nat)
    requires e.start.Keys == now.Keys && After(e, now, i) == After(e, now, j)
    ensures MovesAt(e, now, i) == MovesAt(e, now, j)
  {
  }

  /** Up to the first pass without moves the ownerships are all different. */
  lemma AllDifferent(e: Setting, now: Owners, k: nat, i: nat, j: nat)
    requires e.start.Keys == now.Keys && FirstQuiet(e, now, k) && i < j <= k
    ensures After(e, now, i) != After(e, now, j)
  {
    hide After, MovesAt;
    if After(e, now, i) == After(e, now, j) {
      Periodic(e, now, i, j, k - j);
      SameMoves(e, now, i + (k - j), j + (k - j));
    }
  }

  lemma {:induction false} AfterSound(e: Setting, now: Owners, ps: seq<TopicPartition>)
    requires Sound(e, now)
    ensures Sound(e, Pass(e, now, ps).0)
    decreases |ps|
  {
    hide Sound, Wanted, Even, Visit;
    SoundKeys(e, now);
    if ps != [] && !Even(e, now) {
      VisitSound(e, now, ps[0]);
      AfterSound(e, Visit(e, now, ps[0]), ps[1..]);
    }
  }

  lemma {:induction false} EveryAfterSound(e: Setting, now: Owners, k: nat)
    requires Sound(e, now)
    ensures Sound(e, After(e, now, k))
  {
    hide Sound, Pass;
    SoundKeys(e, now);
    if k > 0 {
      EveryAfterSound(e, now, k - 1);
      AfterSound(e, After(e, now, k - 1), e.order);
    }
  }

  lemma SoundIsOne(e: Setting, now: Owners)
    requires Sound(e, now)
    ensures now in AllOwners(e.start.Keys, e.subs.ofMember.Keys)
  {
    forall m | m in now.Values ensures m in e.subs.ofMember {
      var p :| p in now && now[p] == m;
      assert e.subs.Allows(m, p);
    }
    AllOwnersHas(now, e.subs.ofMember.Keys);
  }

  /** The ownerships before the first n passes. */
  ghost function States(e: Setting, now: Owners, n: nat): (s: seq<Owners>)
    requires e.start.Keys == now.Keys
    ensures |s| == n && forall i :: 0 <= i < n ==> s[i] == After(e, now, i)
  {
    seq(n, i requires 0 <= i => After(e, now, i))
  }

  /** Finitely many ownerships: a loop that ends at all ends within their number of passes. */
  lemma SettlesInTime(e: Setting, now: Owners, n: nat)
    requires Sound(e, now) && Settles(e, now, n)
    ensures Settles(e, now, Power(|e.subs.ofMember|, |now|))
  {
    SoundKeys(e, now);
    var x: nat :| x < n && MovesAt(e, now, x) == 0;
    var k := QuietHasFirst(e, now, x);
    var states := States(e, now, k + 1);
    var all := AllOwners(now.Keys, e.subs.ofMember.Keys);
    hide Sound, After, MovesAt, Power, AllOwners;
    forall i, j | 0 <= i < j < |states| ensures states[i] != states[j] {
      AllDifferent(e, now, k, i, j);
    }
    NoDupSize(states);
    forall s | s in Elems(states) ensures s in all {
      var i :| 0 <= i < |states| && states[i] == s;
      EveryAfterSound(e, now, i);
      SoundIsOne(e, After(e, now, i));
    }
    SubsetSize(Elems(states), all);
    AllOwnersSize(now.Keys, e.subs.ofMember.Keys);
    assert |now.Keys| == |now| && |e.subs.ofMember.Keys| == |e.subs.ofMember|;
  }

  /** The exact condition, for every input: the loop of passes ends if and only if it ends within as
      many passes as there are ways to give the partitions to the members. */
  lemma SettlesIffInTime(subs: Subscriptions)
    requires subs.Valid()
    ensures (exists n :: PlanSettles(subs, n)) <==> PlanSettles(subs, Power(|subs.ofMember|, |FirstOwners(subs)|))
  {
    OpeningSound(subs);
    hide Power, Settles, FirstOwners;
    if n :| PlanSettles(subs, n) {
      SettlesInTime(Opening(subs), FirstOwners(subs), n);
    }
  }
}
