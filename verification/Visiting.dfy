/** An input whose plan shows the order in which a pass visits partitions: four partitions, three members. */
module Visiting {
  import opened Order
  import opened Movements
  import opened Assignment
  import opened Plans
  import opened Subscribing
  import opened Passes
  import opened Settling
  import opened Sticky
  import Endless

  const A := MemberId("a")
  const B := MemberId("b")
  const C := MemberId("c")

  const P := TopicPartition("P", 0)
  const Q := TopicPartition("Q", 0)
  const R := TopicPartition("R", 0)
  const S := TopicPartition("R", 1)

  const MEMBERS: Members := map[A := ["P", "R"], B := ["P", "Q", "R"], C := ["P", "Q"]]
  const TOPICS: Topics := map["P" := [0], "Q" := [0], "R" := [0, 1]]

  // ---------------------------------------------------------------- the input

  lemma Distinct()
    ensures A != B && A != C && B != C && A != MemberId("") && B != MemberId("") && C != MemberId("")
    ensures P != Q && P != R && P != S && Q != R && Q != S && R != S
    ensures P.topic != Q.topic && P.topic != R.topic && Q.topic != R.topic && R.topic == S.topic
  {
  }

  lemma InOrder()
    ensures MemberLe(A, B) && MemberLe(A, C) && MemberLe(B, C) && MemberLe(A, A) && MemberLe(B, B) && MemberLe(C, C)
    ensures PartitionLe(P, Q) && PartitionLe(P, R) && PartitionLe(P, S)
    ensures PartitionLe(Q, R) && PartitionLe(Q, S) && PartitionLe(R, S)
  {
  }

  /** Who may own what. */
  function Who(p: TopicPartition): set<MemberId> {
    if p == P then {A, B, C} else if p == Q then {B, C} else if p == R || p == S then {A, B} else {}
  }

  lemma KnownAre(p: TopicPartition)
    ensures Known(TOPICS, p) <==> p == P || p == Q || p == R || p == S
  {
  }

  lemma SubscribedAre(m: MemberId, p: TopicPartition)
    requires p == P || p == Q || p == R || p == S
    ensures Subscribed(MEMBERS, m, p.topic) <==> m in Who(p)
  {
  }

  lemma ListedOnce()
    ensures WellFormed(MEMBERS, TOPICS)
  {
  }

  /** The maps that are built from this input. */
  ghost predicate Given(subs: Subscriptions) {
    Reads(subs, MEMBERS, TOPICS)
  }

  lemma Allowed(subs: Subscriptions, p: TopicPartition)
    requires Given(subs)
    ensures p in subs.ofPartition <==> p == P || p == Q || p == R || p == S
    ensures forall m :: subs.Allows(m, p) <==> m in Who(p)
    ensures p in subs.ofPartition ==> |subs.ofPartition[p]| == |Who(p)|
  {
    hide Known, Subscribed, MEMBERS, TOPICS, Subscriptions.Valid;
    KnownAre(p);
    ListedOnce();
    forall m ensures subs.Allows(m, p) <==> m in Who(p) {
      if Known(TOPICS, p) {
        SubscribedAre(m, p);
      } else {
        Nobody(p);
      }
    }
    if p in subs.ofPartition {
      SameSize(subs.ofPartition[p], Who(p));
    }
  }

  lemma Nobody(p: TopicPartition)
    requires p != P && p != Q && p != R && p != S
    ensures Who(p) == {}
  {
  }

  lemma SameSize(s: seq<MemberId>, ms: set<MemberId>)
    requires NoDup(s) && forall m :: m in s <==> m in ms
    ensures |s| == |ms|
  {
    NoDupSize(s);
    assert Elems(s) == ms;
  }

  lemma Sizes()
    ensures |Who(P)| == 3 && |Who(Q)| == 2 && |Who(R)| == 2 && |Who(S)| == 2
  {
  }

  lemma WhoAre()
    ensures Who(P) == {A, B, C} && Who(Q) == {B, C} && Who(R) == {A, B} && Who(S) == {A, B}
  {
  }

  // ---------------------------------------------------------------- the two orders

  /** Four different partitions in a given order. */
  ghost predicate Chain(le: (TopicPartition, TopicPartition) -> bool, p: TopicPartition, q: TopicPartition,
                        r: TopicPartition, s: TopicPartition)
  {
    && p != q && p != r && p != s && q != r && q != s && r != s
    && le(p, q) && le(p, r) && le(p, s) && le(q, r) && le(q, s) && le(r, s)
  }

  lemma OnlySorted(found: seq<TopicPartition>, le: (TopicPartition, TopicPartition) -> bool, p: TopicPartition,
                   q: TopicPartition, r: TopicPartition, s: TopicPartition)
    requires TotalOrder(le) && NoDup(found) && SortedBy(found, le) && Chain(le, p, q, r, s)
    requires forall x :: x in found <==> x == p || x == q || x == r || x == s
    ensures found == [p, q, r, s]
  {
    hide TotalOrder;
    SortedUnique(found, [p, q, r, s], le);
  }

  lemma DealtChain()
    ensures Chain(PartitionLe, P, Q, R, S)
  {
    hide *;
    Distinct();
    InOrder();
    ChainOf(PartitionLe, P, Q, R, S);
  }

  lemma ChainOf(le: (TopicPartition, TopicPartition) -> bool, p: TopicPartition, q: TopicPartition,
                r: TopicPartition, s: TopicPartition)
    requires p != q && p != r && p != s && q != r && q != s && r != s
    requires le(p, q) && le(p, r) && le(p, s) && le(q, r) && le(q, s) && le(r, s)
    ensures Chain(le, p, q, r, s)
  {
  }

  /** The greedy assignment deals them out by topic and number. */
  lemma Dealt(subs: Subscriptions)
    requires Given(subs)
    ensures SortedPartitions(subs.ofPartition.Keys) == [P, Q, R, S]
  {
    hide *;
    PartitionOrder();
    DealtChain();
    Endless.SortedPartitionsSorted(subs.ofPartition.Keys);
    forall p ensures p in SortedPartitions(subs.ofPartition.Keys) <==> p == P || p == Q || p == R || p == S {
      Allowed(subs, p);
    }
    OnlySorted(SortedPartitions(subs.ofPartition.Keys), PartitionLe, P, Q, R, S);
  }

  lemma ByConsumersIs(subs: Subscriptions, p: TopicPartition, q: TopicPartition)
    requires p in subs.ofPartition && q in subs.ofPartition
    ensures ByConsumers(subs.ofPartition)(p, q) ==
            if |subs.ofPartition[p]| == |subs.ofPartition[q]| then PartitionLe(p, q)
            else |subs.ofPartition[p]| < |subs.ofPartition[q]|
  {
    var before := ByConsumers(subs.ofPartition);
    assert before(p, q) == if Consumers(subs.ofPartition, p) == Consumers(subs.ofPartition, q) then PartitionLe(p, q)
                           else Consumers(subs.ofPartition, p) < Consumers(subs.ofPartition, q);
    hide PartitionLe;
  }

  lemma VisitedFirst(subs: Subscriptions, p: TopicPartition, q: TopicPartition)
    requires p in subs.ofPartition && q in subs.ofPartition
    requires |subs.ofPartition[p]| < |subs.ofPartition[q]| ||
             (|subs.ofPartition[p]| == |subs.ofPartition[q]| && PartitionLe(p, q))
    ensures ByConsumers(subs.ofPartition)(p, q)
  {
    ByConsumersIs(subs, p, q);
    hide ByConsumers, PartitionLe;
  }

  lemma VisitedChain(subs: Subscriptions)
    requires Given(subs)
    ensures Chain(ByConsumers(subs.ofPartition), Q, R, S, P)
  {
    hide *;
    Distinct();
    InOrder();
    Sizes();
    Allowed(subs, P);
    Allowed(subs, Q);
    Allowed(subs, R);
    Allowed(subs, S);
    VisitedFirst(subs, Q, R);
    VisitedFirst(subs, Q, S);
    VisitedFirst(subs, R, S);
    VisitedFirst(subs, Q, P);
    VisitedFirst(subs, R, P);
    VisitedFirst(subs, S, P);
    ChainOf(ByConsumers(subs.ofPartition), Q, R, S, P);
  }

  lemma SharedAre(subs: Subscriptions, p: TopicPartition)
    requires Given(subs)
    ensures subs.Shared(p) <==> p == P || p == Q || p == R || p == S
  {
    hide Given, Who, P, Q, R, S;
    Sizes();
    Allowed(subs, p);
  }

  /** P, with three potential consumers, is visited last. */
  lemma VisitedOrder(subs: Subscriptions)
    requires Given(subs)
    ensures Reassignables(subs) == [Q, R, S, P]
  {
    hide *;
    ByConsumersOrder(subs.ofPartition);
    VisitedChain(subs);
    forall p ensures p in Reassignables(subs) <==> p == P || p == Q || p == R || p == S {
      SharedAre(subs, p);
    }
    OnlySorted(Reassignables(subs), ByConsumers(subs.ofPartition), Q, R, S, P);
  }

  // ---------------------------------------------------------------- the greedy assignment

  ghost predicate Loads(now: Owners, a: int, b: int, c: int) {
    Count(now, A) == a && Count(now, B) == b && Count(now, C) == c
  }

  lemma Give(subs: Subscriptions, now: Owners, p: TopicPartition, m: MemberId, rest: seq<TopicPartition>,
             a: int, b: int, c: int)
    requires Given(subs) && p !in now && Lightest(now, p, m) && Loads(now, a, b, c)
    ensures Greedy(subs, now, [p] + rest) == Greedy(subs, now[p := m], rest)
    ensures Loads(now[p := m], if m == A then a + 1 else a, if m == B then b + 1 else b, if m == C then c + 1 else c)
  {
    Allowed(subs, p);
    hide Given, Who, Count, Lighter, Greedy, Passes.Give;
    Endless.GreedyOne(subs, now, p, rest);
    Endless.GiveTo(subs, now, p, m);
  }

  lemma LightestOf(now: Owners, a: int, b: int, c: int)
    requires Loads(now, a, b, c)
    ensures a <= b ==> Lighter(now)(A, B)
    ensures a <= c ==> Lighter(now)(A, C)
    ensures b < a ==> Lighter(now)(B, A)
    ensures b <= c ==> Lighter(now)(B, C)
    ensures c < a ==> Lighter(now)(C, A)
    ensures c < b ==> Lighter(now)(C, B)
    ensures Lighter(now)(A, A) && Lighter(now)(B, B) && Lighter(now)(C, C)
  {
    InOrder();
    hide Count, MemberLe;
  }

  function FirstOnes(): Owners {
    map[][P := A][Q := B][R := A][S := B]
  }

  lemma FirstGiven(subs: Subscriptions)
    requires Given(subs)
    ensures FirstOwners(subs) == FirstOnes() && Loads(FirstOnes(), 2, 2, 0)
  {
    hide *;
    Dealt(subs);
    Distinct();
    Endless.FirstOwnersFrom(subs);
    NothingHeld();
    Tails(P, Q, R, S);
    var none: Owners := map[];
    LightestIn(none, 0, 0, 0);
    Give(subs, none, P, A, [Q, R, S], 0, 0, 0);
    var one := none[P := A];
    LightestIn(one, 1, 0, 0);
    Give(subs, one, Q, B, [R, S], 1, 0, 0);
    var two := one[Q := B];
    LightestIn(two, 1, 1, 0);
    Give(subs, two, R, A, [S], 1, 1, 0);
    var three := two[R := A];
    LightestIn(three, 2, 1, 0);
    Give(subs, three, S, B, [], 2, 1, 0);
    FirstOnesAre();
    GreedyEnds(subs, three[S := B]);
  }

  lemma FirstOnesAre()
    ensures FirstOnes() == map[][P := A][Q := B][R := A][S := B]
  {
  }

  lemma Tails(p: TopicPartition, q: TopicPartition, r: TopicPartition, s: TopicPartition)
    ensures [p, q, r, s] == [p] + [q, r, s] && [q, r, s] == [q] + [r, s] && [r, s] == [r] + [s] && [s] == [s] + []
  {
  }

  /** m is the lightest of those that may own p. */
  ghost predicate Lightest(now: Owners, p: TopicPartition, m: MemberId) {
    m in Who(p) && forall n :: n in Who(p) ==> Lighter(now)(m, n)
  }

  lemma LightestIn(now: Owners, a: int, b: int, c: int)
    requires Loads(now, a, b, c)
    ensures a <= b && a <= c ==> Lightest(now, P, A)
    ensures b <= c ==> Lightest(now, Q, B)
    ensures c < b ==> Lightest(now, Q, C)
    ensures a <= b ==> Lightest(now, R, A) && Lightest(now, S, A)
    ensures b < a ==> Lightest(now, R, B) && Lightest(now, S, B)
  {
    LightestOf(now, a, b, c);
    WhoAre();
    hide Who, Lighter;
  }

  lemma GreedyEnds(subs: Subscriptions, now: Owners)
    ensures Greedy(subs, now, []) == now
  {
  }

  lemma NothingHeld()
    ensures Loads(map[], 0, 0, 0)
  {
    forall m ensures Count(map[], m) == 0 {
      assert Held(map[], m) == {};
    }
  }

  // ---------------------------------------------------------------- the passes

  lemma MemberOf(subs: Subscriptions, m: MemberId)
    requires Given(subs)
    ensures m in subs.ofMember <==> m == A || m == B || m == C
  {
  }

  lemma FirstOwnersOf()
    ensures var now := FirstOnes();
            && P in now && Q in now && R in now && S in now
            && now[P] == A && now[Q] == B && now[R] == A && now[S] == B
  {
    Distinct();
    hide P, Q, R, S, A, B, C;
  }

  lemma Takes(subs: Subscriptions, now: Owners, m: MemberId, p: TopicPartition)
    requires subs.Valid() && subs.Allows(m, p)
    ensures Count(now, m) == 0 ==> m in Active(subs, now)
    ensures p in now && now[p] == m && subs.Shared(p) ==> m in Active(subs, now)
  {
    assert p in subs.ofMember[m];
    hide Count;
  }

  lemma OnlyMembers(subs: Subscriptions, now: Owners, m: MemberId)
    requires Given(subs) && m in Active(subs, now)
    ensures m == A || m == B || m == C
  {
    MemberOf(subs, m);
    hide Given, A, B, C, TakesPart;
  }

  lemma ValidGiven(subs: Subscriptions)
    requires Given(subs)
    ensures subs.Valid()
  {
  }

  lemma LoadsOf(now: Owners, a: int, b: int, c: int)
    requires Loads(now, a, b, c)
    ensures Count(now, A) == a && Count(now, B) == b && Count(now, C) == c
  {
  }

  /** What the passes start from. */
  ghost predicate Starts(e: Setting) {
    && Given(e.subs) && e.start == FirstOnes() && e.order == [Q, R, S, P]
    && B in e.active && C in e.active && (forall m :: m in e.active ==> m == A || m == B || m == C)
    && Sound(e, e.start)
  }

  lemma OpeningStarts(subs: Subscriptions)
    requires Given(subs)
    ensures Starts(Opening(subs))
  {
    hide *;
    FirstGiven(subs);
    VisitedOrder(subs);
    ValidGiven(subs);
    OpeningSound(subs);
    FirstOwnersOf();
    LoadsOf(FirstOnes(), 2, 2, 0);
    WhoAre();
    Distinct();
    Allowed(subs, Q);
    SharedAre(subs, Q);
    Takes(subs, FirstOnes(), B, Q);
    Takes(subs, FirstOnes(), C, Q);
    forall m | m in Active(subs, FirstOnes()) ensures m == A || m == B || m == C {
      OnlyMembers(subs, FirstOnes(), m);
    }
    StartsFrom(Opening(subs), subs);
  }

  lemma StartsFrom(e: Setting, subs: Subscriptions)
    requires e == Opening(subs) && Given(subs)
    requires FirstOwners(subs) == FirstOnes() && Reassignables(subs) == [Q, R, S, P]
    requires B in Active(subs, FirstOnes()) && C in Active(subs, FirstOnes()) && Sound(Opening(subs), FirstOwners(subs))
    requires forall m :: m in Active(subs, FirstOnes()) ==> m == A || m == B || m == C
    ensures Starts(e)
  {
    hide Given, FirstOwners, Active, Reassignables, FirstOnes, Sound, A, B, C, P, Q, R, S;
  }

  /** After Q has gone from b to c. */
  function LastOnes(): Owners {
    FirstOnes()[Q := C]
  }

  lemma StartsParts(e: Setting)
    requires Starts(e)
    ensures Given(e.subs) && e.start == FirstOnes() && e.order == [Q, R, S, P] && B in e.active && C in e.active
    ensures Sound(e, FirstOnes()) && e.start.Keys == FirstOnes().Keys && Q in FirstOnes()
    ensures LastOnes().Keys == FirstOnes().Keys
  {
    hide Given, Sound, A, B, C;
  }

  lemma LastLoads()
    requires Loads(FirstOnes(), 2, 2, 0)
    ensures Loads(LastOnes(), 2, 1, 1)
  {
    FirstOwnersOf();
    Distinct();
    hide FirstOnes, A, B, C, P, Q, R, S;
    CountMoved(FirstOnes(), Q, C, A);
    CountMoved(FirstOnes(), Q, C, B);
    CountMoved(FirstOnes(), Q, C, C);
    hide Count;
  }

  lemma NothingMoved(e: Setting, now: Owners, p: TopicPartition, to: MemberId)
    requires e.start == now && p in now
    ensures Moving(e, now, p, to) == p
  {
    assert Difference(now, now) == map[];
  }

  /** The first visit is to Q, which goes to c. */
  lemma FirstVisit(e: Setting)
    requires Starts(e)
    ensures Wanted(e.subs, FirstOnes(), Q) && e.start.Keys == FirstOnes().Keys
    ensures Visit(e, FirstOnes(), Q) == LastOnes() && Loads(FirstOnes(), 2, 2, 0)
    ensures !Even(e, FirstOnes())
  {
    hide *;
    StartsParts(e);
    FirstGiven(e.subs);
    FirstOwnersOf();
    LoadsOf(FirstOnes(), 2, 2, 0);
    WhoAre();
    Distinct();
    Allowed(e.subs, Q);
    SharedAre(e.subs, Q);
    LightestIn(FirstOnes(), 2, 2, 0);
    WantedBy(e.subs, FirstOnes(), Q, C);
    PickedIs(e.subs, FirstOnes(), Q, C);
    NothingMoved(e, FirstOnes(), Q, C);
    VisitIs(e, FirstOnes(), Q);
    LastOnesAre();
    Endless.UnevenBy(e, FirstOnes(), B, C, Q);
  }

  lemma LastOnesAre()
    ensures LastOnes() == FirstOnes()[Q := C]
  {
  }

  lemma WantedBy(subs: Subscriptions, now: Owners, p: TopicPartition, m: MemberId)
    requires subs.Shared(p) && p in now && now[p] != MemberId("") && subs.Allows(m, p)
    requires Count(now, now[p]) > Count(now, m) + 1
    ensures Wanted(subs, now, p)
  {
    hide Count;
  }

  lemma PickedIs(subs: Subscriptions, now: Owners, p: TopicPartition, m: MemberId)
    requires (forall n :: subs.Allows(n, p) <==> n in Who(p)) && Lightest(now, p, m)
    ensures p in subs.ofPartition && subs.ofPartition[p] != [] && Pick(subs, now, p) == m
  {
    hide Who, Lighter;
    assert subs.Allows(m, p);
    PickIs(subs, now, p, m);
  }

  lemma EvenThen(e: Setting)
    requires Starts(e) && Loads(LastOnes(), 2, 1, 1)
    ensures Even(e, LastOnes())
  {
    Distinct();
    hide Given, Sound, Count, FirstOnes, LastOnes, A, B, C, P, Q, R, S;
  }

  lemma EvenPass(e: Setting, now: Owners, ps: seq<TopicPartition>)
    requires e.start.Keys == now.Keys && Even(e, now)
    ensures Pass(e, now, ps) == (now, 0)
  {
    hide Even;
  }

  /** The first pass moves Q and nothing else. */
  lemma FirstPass(e: Setting)
    requires Starts(e)
    ensures e.start.Keys == FirstOnes().Keys == LastOnes().Keys
    ensures Pass(e, FirstOnes(), e.order) == (LastOnes(), 1) && Pass(e, LastOnes(), e.order) == (LastOnes(), 0)
  {
    hide *;
    StartsParts(e);
    FirstVisit(e);
    LastLoads();
    EvenThen(e);
    Tails(Q, R, S, P);
    EvenPass(e, LastOnes(), [R, S, P]);
    EvenPass(e, LastOnes(), e.order);
    Endless.PassOn(e, FirstOnes(), Q, [R, S, P]);
  }

  lemma {:induction false} AfterPasses(e: Setting, n: nat)
    requires Starts(e) && n > 0
    ensures e.start.Keys == FirstOnes().Keys && After(e, FirstOnes(), n) == LastOnes()
  {
    hide Starts, Pass, FirstOnes, LastOnes;
    FirstPass(e);
    if n > 1 {
      AfterPasses(e, n - 1);
    }
  }

  /** Every plan from this input with at least one pass: P and R to a, S to b, and Q, the only partition
      moved, to c. Had P been visited before Q, it would have gone to c instead. */
  lemma PlanIs(plan: Plan, subs: Subscriptions, n: nat, m: MemberId, p: TopicPartition)
    requires Reads(subs, MEMBERS, TOPICS) && n > 0 && Follows(plan, Outcome(subs, n))
    ensures Gives(plan, m, p) <==> (m == A && (p == P || p == R)) || (m == B && p == S) || (m == C && p == Q)
  {
    hide *;
    GivenIs(subs);
    OpeningStarts(subs);
    FirstGiven(subs);
    AfterPasses(Opening(subs), n);
    OutcomeIs(subs, n);
    Gone(m, p);
    FollowsOwners(plan, LastOnes());
  }

  lemma GivenIs(subs: Subscriptions)
    ensures Given(subs) <==> Reads(subs, MEMBERS, TOPICS)
  {
  }

  lemma OutcomeIs(subs: Subscriptions, n: nat)
    requires Opening(subs).start.Keys == FirstOwners(subs).Keys
    ensures Outcome(subs, n) == After(Opening(subs), FirstOwners(subs), n)
  {
  }

  lemma Gone(m: MemberId, p: TopicPartition)
    ensures p in LastOnes() && LastOnes()[p] == m <==>
            (m == A && (p == P || p == R)) || (m == B && p == S) || (m == C && p == Q)
  {
    Distinct();
    hide A, B, C, P, Q, R, S;
  }

  lemma FollowsOwners(plan: Plan, owner: Owners)
    requires Follows(plan, owner)
    ensures forall m, p :: Gives(plan, m, p) <==> p in owner && owner[p] == m
  {
  }

  /** Its loop ends with the second pass. */
  lemma SettlesInTwo(subs: Subscriptions)
    requires Reads(subs, MEMBERS, TOPICS)
    ensures PlanSettles(subs, 2)
  {
    hide *;
    GivenIs(subs);
    OpeningStarts(subs);
    FirstGiven(subs);
    FirstPass(Opening(subs));
    AfterPasses(Opening(subs), 1);
    MovesThen(subs);
    QuietPass(subs);
  }

  lemma MovesThen(subs: Subscriptions)
    requires Opening(subs).start.Keys == FirstOwners(subs).Keys
    ensures var e := Opening(subs);
            MovesAt(e, FirstOwners(subs), 1) == Pass(e, After(e, FirstOwners(subs), 1), e.order).1
  {
  }

  lemma QuietPass(subs: Subscriptions)
    requires Opening(subs).start.Keys == FirstOwners(subs).Keys && MovesAt(Opening(subs), FirstOwners(subs), 1) == 0
    ensures PlanSettles(subs, 2)
  {
    hide MovesAt, FirstOwners, Active, Reassignables;
  }
}
