/** An input on which the sticky assignor's loop of passes never ends. Sixteen topics of one or two
    partitions, five members; every topic but C has one subscriber or one partition. */
module Endless {
  import opened Order
  import opened Movements
  import opened Assignment
  import opened Plans
  import opened Subscribing
  import opened Passes
  import opened Settling

  const A := MemberId("a")
  const B := MemberId("b")
  const C := MemberId("c")
  const D := MemberId("d")
  const E := MemberId("e")

  const MEMBERS: Members := map[
    A := ["A", "C", "G", "H"],
    B := ["C", "I", "J"],
    C := ["B", "C", "D", "E", "F"],
    D := ["D", "E", "F", "K", "L", "M"],
    E := ["D", "E", "F", "N", "O", "P"]]

  const TOPICS: Topics := map[
    "A" := [0], "B" := [0, 1], "C" := [0, 1], "D" := [0], "E" := [0], "F" := [0],
    "G" := [0, 1], "H" := [0], "I" := [0, 1], "J" := [0],
    "K" := [0, 1], "L" := [0, 1], "M" := [0, 1], "N" := [0, 1], "O" := [0, 1], "P" := [0]]

  /** The maps built from this input. */
  ghost predicate Given(subs: Subscriptions) {
    Reads(subs, MEMBERS, TOPICS)
  }

  // ---------------------------------------------------------------- the partitions in order

  /** Partitions i to n - 1 of a topic. */
  function Block(topic: string, i: nat, n: nat): (r: seq<TopicPartition>)
    requires i <= n
    ensures |r| == n - i && forall k :: 0 <= k < n - i ==> r[k] == TopicPartition(topic, i + k)
    ensures forall p :: p in r <==> p.topic == topic && i <= p.partition < n
  {
    var r := seq(n - i, k requires 0 <= k < n - i => TopicPartition(topic, i + k));
    assert forall p: TopicPartition :: p.topic == topic && i <= p.partition < n ==> r[p.partition - i] == p;
    r
  }

  /** How many partitions the topic of the k-th letter has. */
  function Size(k: nat): nat {
    if k == 1 || k == 2 || k == 6 || k == 8 || 10 <= k < 15 then 2 else 1
  }

  function Letter(k: nat): (c: char)
    requires k <= 16
    ensures c as int == 65 + k
  {
    (65 + k) as char
  }

  /** The topic of the k-th letter. */
  function Topic(k: nat): string
    requires k <= 16
  {
    [Letter(k)]
  }

  /** Its i-th partition. */
  function At(k: nat, i: nat): TopicPartition
    requires k <= 16
  {
    TopicPartition(Topic(k), i)
  }

  /** The partitions of the topics from the k-th letter on. */
  function Tail(k: nat): seq<TopicPartition>
    requires k <= 16
    decreases 16 - k
  {
    if k == 16 then [] else Block([Letter(k)], 0, Size(k)) + Tail(k + 1)
  }

  predicate InTail(p: TopicPartition, k: nat) {
    && |p.topic| == 1 && 65 + k <= p.topic[0] as int < 81
    && 0 <= p.partition < Size(p.topic[0] as int - 65)
  }

  lemma {:induction false} TailHas(k: nat, p: TopicPartition)
    requires k <= 16
    ensures p in Tail(k) <==> InTail(p, k)
    decreases 16 - k
  {
    if k < 16 {
      TailHas(k + 1, p);
      if p in Block([Letter(k)], 0, Size(k)) {
        assert p.topic == [Letter(k)];
      }
      if InTail(p, k) && !InTail(p, k + 1) {
        assert p.topic == [Letter(k)];
      }
    }
  }

  lemma {:induction false} TailSorted(k: nat)
    requires k <= 16
    ensures NoDup(Tail(k)) && SortedBy(Tail(k), PartitionLe)
    decreases 16 - k
  {
    if k < 16 {
      var n, rest, s := Size(k), Tail(k + 1), Tail(k);
      TailSorted(k + 1);
      forall i, j | 0 <= i < j < |s| ensures s[i] != s[j] && PartitionLe(s[i], s[j]) {
        assert i >= n ==> s[i] == rest[i - n];
        assert j >= n ==> s[j] == rest[j - n];
        if i < n <= j {
          TailHas(k + 1, rest[j - n]);
          assert rest[j - n] in rest;
          LetterBefore(s[i], s[j]);
        }
      }
    }
  }

  lemma LetterBefore(p: TopicPartition, q: TopicPartition)
    requires |p.topic| == |q.topic| == 1 && p.topic[0] < q.topic[0]
    ensures p != q && PartitionLe(p, q)
  {
  }

  lemma KnownIsInTail(p: TopicPartition)
    ensures Known(TOPICS, p) <==> InTail(p, 0)
  {
    if InTail(p, 0) {
      var k := p.topic[0] as int - 65;
      assert p.topic == [p.topic[0]];
      assert k == 0 || k == 1 || k == 2 || k == 3 || k == 4 || k == 5 || k == 6 || k == 7 ||
             k == 8 || k == 9 || k == 10 || k == 11 || k == 12 || k == 13 || k == 14 || k == 15;
      assert p.topic == "A" || p.topic == "B" || p.topic == "C" || p.topic == "D" || p.topic == "E" ||
             p.topic == "F" || p.topic == "G" || p.topic == "H" || p.topic == "I" || p.topic == "J" ||
             p.topic == "K" || p.topic == "L" || p.topic == "M" || p.topic == "N" || p.topic == "O" || p.topic == "P";
    }
  }

  lemma AllInOrder(subs: Subscriptions)
    requires Given(subs)
    ensures SortedPartitions(subs.ofPartition.Keys) == Tail(0)
  {
    hide Tail, InTail, Known;
    var s := SortedPartitions(subs.ofPartition.Keys);
    TailSorted(0);
    PartitionOrder();
    SortedPartitionsSorted(subs.ofPartition.Keys);
    forall p ensures p in s <==> p in Tail(0) {
      TailHas(0, p);
      KnownIsInTail(p);
      assert p in subs.ofPartition <==> Known(TOPICS, p);
    }
    SortedUnique(s, Tail(0), PartitionLe);
  }

  lemma SortedPartitionsSorted(s: set<TopicPartition>)
    ensures SortedBy(SortedPartitions(s), PartitionLe)
  {
    PartitionOrder();
  }

  // ---------------------------------------------------------------- who may own what

  /** Exactly the members of `ms` may own the first n partitions of a topic. */
  ghost predicate Only(subs: Subscriptions, topic: string, n: nat, ms: set<MemberId>) {
    forall i :: 0 <= i < n ==> OnlyThese(subs, TopicPartition(topic, i), ms)
  }

  ghost predicate OnlyThese(subs: Subscriptions, p: TopicPartition, ms: set<MemberId>) {
    forall m :: subs.Allows(m, p) <==> m in ms
  }

  /** The subscribers of the topic of the k-th letter. */
  function Who(k: nat): set<MemberId> {
    if k == 0 || k == 6 || k == 7 then {A}
    else if k == 1 then {C}
    else if k == 2 then {A, B, C}
    else if 3 <= k < 6 then {C, D, E}
    else if k == 8 || k == 9 then {B}
    else if k < 13 then {D}
    else {E}
  }

  lemma SubscriberBeforeI(k: nat, m: MemberId)
    requires k < 8
    ensures Subscribed(MEMBERS, m, Topic(k)) <==> m in Who(k)
  {
    assert k == 0 || k == 1 || k == 2 || k == 3 || k == 4 || k == 5 || k == 6 || k == 7;
  }

  lemma SubscriberFromI(k: nat, m: MemberId)
    requires 8 <= k < 16
    ensures Subscribed(MEMBERS, m, Topic(k)) <==> m in Who(k)
  {
    assert k == 8 || k == 9 || k == 10 || k == 11 || k == 12 || k == 13 || k == 14 || k == 15;
  }

  lemma Subscriber(k: nat, m: MemberId)
    requires k < 16
    ensures Subscribed(MEMBERS, m, Topic(k)) <==> m in Who(k)
  {
    hide *;
    if k < 8 {
      SubscriberBeforeI(k, m);
    } else {
      SubscriberFromI(k, m);
    }
  }

  lemma Numbered(k: nat, i: nat)
    requires k < 16 && i < Size(k)
    ensures Known(TOPICS, At(k, i))
  {
    assert InTail(At(k, i), 0);
    hide InTail, Known;
    KnownIsInTail(At(k, i));
  }

  lemma Allowance(subs: Subscriptions, k: nat)
    requires Given(subs) && k < 16
    ensures Only(subs, Topic(k), Size(k), Who(k))
  {
    hide Known, Subscribed, Subscriptions.Allows, Subscriptions.Valid, Topic, Who, Size;
    forall i, m | 0 <= i < Size(k) ensures subs.Allows(m, TopicPartition(Topic(k), i)) <==> m in Who(k) {
      Numbered(k, i);
      Subscriber(k, m);
      assert At(k, i) == TopicPartition(Topic(k), i);
    }
  }

  // ---------------------------------------------------------------- the greedy assignment

  ghost predicate Loads(now: Owners, a: int, b: int, c: int, d: int, e: int) {
    Count(now, A) == a && Count(now, B) == b && Count(now, C) == c && Count(now, D) == d && Count(now, E) == e
  }

  /** Everything owned is of a topic before the k-th letter. */
  ghost predicate Below(now: Owners, k: nat) {
    forall p :: p in now ==> |p.topic| == 1 && p.topic[0] as int < 65 + k
  }

  lemma GiveTo(subs: Subscriptions, now: Owners, p: TopicPartition, m: MemberId)
    requires subs.Allows(m, p) && p !in now && forall n :: subs.Allows(n, p) ==> Lighter(now)(m, n)
    ensures Give(subs, now, p) == now[p := m]
    ensures forall n :: Count(now[p := m], n) == Count(now, n) + if n == m then 1 else 0
  {
    PickIs(subs, now, p, m);
    hide Count;
    forall n: MemberId ensures Count(now[p := m], n) == Count(now, n) + if n == m then 1 else 0 {
      CountGiven(now, p, m, n);
    }
  }

  /** What giving a whole private topic to its subscriber does. */
  ghost predicate Gave(now: Owners, r: Owners, topic: string, m: MemberId, n: nat) {
    && (forall q :: q in now ==> q in r && r[q] == now[q])
    && (forall q :: q in r && q !in now ==> q.topic == topic)
    && Gains(now, r, m, n)
  }

  /** m has n partitions more, everybody else as many. */
  ghost predicate Gains(now: Owners, next: Owners, m: MemberId, n: int) {
    forall x :: Count(next, x) == Count(now, x) + if x == m then n else 0
  }

  lemma GaveMore(now: Owners, next: Owners, r: Owners, p: TopicPartition, m: MemberId, n: nat)
    requires p !in now && next == now[p := m] && Gave(next, r, p.topic, m, n)
    requires Gains(now, next, m, 1)
    ensures Gave(now, r, p.topic, m, n + 1)
  {
    hide Count;
  }

  lemma BlockStep(topic: string, i: nat, n: nat)
    requires i < n
    ensures Block(topic, i, n) == [TopicPartition(topic, i)] + Block(topic, i + 1, n)
  {
  }

  lemma GreedyOne(subs: Subscriptions, now: Owners, p: TopicPartition, rest: seq<TopicPartition>)
    ensures Greedy(subs, now, [p] + rest) == Greedy(subs, Give(subs, now, p), rest)
  {
    assert ([p] + rest)[1..] == rest;
    hide Give;
  }

  lemma PrivateStep(subs: Subscriptions, now: Owners, topic: string, m: MemberId, i: nat, n: nat)
    requires i < n && Only(subs, topic, n, {m}) && TopicPartition(topic, i) !in now
    ensures var next := now[TopicPartition(topic, i) := m];
            && Greedy(subs, now, Block(topic, i, n)) == Greedy(subs, next, Block(topic, i + 1, n))
            && Gains(now, next, m, 1)
  {
    var p := TopicPartition(topic, i);
    assert OnlyThese(subs, p, {m});
    LighterOrder(now);
    GiveTo(subs, now, p, m);
    assert Gains(now, now[p := m], m, 1);
    hide *;
    BlockStep(topic, i, n);
    GreedyOne(subs, now, p, Block(topic, i + 1, n));
  }

  lemma GaveNothing(subs: Subscriptions, now: Owners, topic: string, m: MemberId, n: nat)
    ensures Gave(now, Greedy(subs, now, Block(topic, n, n)), topic, m, 0)
  {
    hide Count;
  }

  /** A topic with one subscriber goes to that subscriber. */
  lemma {:induction false} PrivateBlock(subs: Subscriptions, now: Owners, topic: string, m: MemberId, i: nat, n: nat)
    requires i <= n && Only(subs, topic, n, {m})
    requires forall k :: i <= k < n ==> TopicPartition(topic, k) !in now
    ensures Gave(now, Greedy(subs, now, Block(topic, i, n)), topic, m, n - i)
    decreases n - i
  {
    hide *;
    if i == n {
      GaveNothing(subs, now, topic, m, n);
    } else {
      var p := TopicPartition(topic, i);
      PrivateStep(subs, now, topic, m, i, n);
      PrivateBlock(subs, now[p := m], topic, m, i + 1, n);
      GaveMore(now, now[p := m], Greedy(subs, now[p := m], Block(topic, i + 1, n)), p, m, n - i - 1);
    }
  }

  /** The greedy assignment before the topic of the k-th letter. */
  ghost predicate Reached(subs: Subscriptions, now: Owners, k: nat)
    requires k <= 16
  {
    Below(now, k) && FirstOwners(subs) == Greedy(subs, now, Tail(k))
  }

  ghost predicate Keeps(now: Owners, next: Owners) {
    forall q :: q in now ==> q in next && next[q] == now[q]
  }

  lemma LoadsGain(now: Owners, next: Owners, m: MemberId, n: nat, a: nat, b: nat, c: nat, d: nat, e: nat)
    requires Loads(now, a, b, c, d, e) && Gains(now, next, m, n)
    ensures Loads(next, if m == A then a + n else a, if m == B then b + n else b, if m == C then c + n else c,
                  if m == D then d + n else d, if m == E then e + n else e)
  {
    hide Count;
  }

  lemma ReachedStart(subs: Subscriptions)
    requires Given(subs)
    ensures Reached(subs, map[], 0) && Loads(map[], 0, 0, 0, 0, 0)
  {
    hide *;
    AllInOrder(subs);
    FirstOwnersFrom(subs);
    NothingHeld();
    BelowNothing();
    ReachedFrom(subs, map[], 0);
  }

  lemma FirstOwnersFrom(subs: Subscriptions)
    ensures FirstOwners(subs) == Greedy(subs, map[], SortedPartitions(subs.ofPartition.Keys))
  {
  }

  lemma BelowNothing()
    ensures Below(map[], 0)
  {
  }

  lemma NothingHeld()
    ensures Loads(map[], 0, 0, 0, 0, 0)
  {
    forall m ensures Count(map[], m) == 0 {
      assert Held(map[], m) == {};
    }
  }

  /** A private topic, as Below and Keeps see it. */
  lemma GaveBelow(now: Owners, next: Owners, k: nat, m: MemberId, n: nat)
    requires k < 16 && Below(now, k) && Gave(now, next, Topic(k), m, n)
    ensures Below(next, k + 1) && Keeps(now, next) && Gains(now, next, m, n)
  {
    hide Count;
  }

  lemma TailStep(k: nat)
    requires k < 16
    ensures Tail(k) == Block(Topic(k), 0, Size(k)) + Tail(k + 1)
  {
  }

  lemma ReachedParts(subs: Subscriptions, now: Owners, k: nat)
    requires k < 16 && Reached(subs, now, k)
    ensures Below(now, k) && FirstOwners(subs) == Greedy(subs, now, Tail(k))
    ensures forall i :: TopicPartition(Topic(k), i) !in now
  {
    hide Tail, Greedy, FirstOwners;
  }

  lemma ReachedFrom(subs: Subscriptions, now: Owners, k: nat)
    requires k <= 16 && Below(now, k) && FirstOwners(subs) == Greedy(subs, now, Tail(k))
    ensures Reached(subs, now, k)
  {
  }

  lemma PrivateTopic(subs: Subscriptions, now: Owners, k: nat, m: MemberId) returns (next: Owners)
    requires Given(subs) && k < 16 && Reached(subs, now, k) && Who(k) == {m}
    ensures Reached(subs, next, k + 1) && Keeps(now, next) && Gains(now, next, m, Size(k))
  {
    hide *;
    Allowance(subs, k);
    var block := Block(Topic(k), 0, Size(k));
    next := Greedy(subs, now, block);
    TailStep(k);
    ReachedParts(subs, now, k);
    PrivateBlock(subs, now, Topic(k), m, 0, Size(k));
    GaveBelow(now, next, k, m, Size(k));
    GreedyAppend(subs, now, block, Tail(k + 1));
    ReachedFrom(subs, next, k + 1);
  }

  lemma NamesInOrder()
    ensures MemberLe(A, A) && MemberLe(A, B) && MemberLe(A, C) && MemberLe(B, B) && MemberLe(B, C) && MemberLe(C, C)
    ensures MemberLe(C, D) && MemberLe(C, E) && MemberLe(D, D) && MemberLe(D, E) && MemberLe(E, E)
  {
  }

  ghost predicate Lightest(now: Owners, ms: set<MemberId>, m: MemberId) {
    m in ms && forall x :: x in ms ==> Lighter(now)(m, x)
  }

  lemma LightestABC(now: Owners, a: nat, b: nat, c: nat, d: nat, e: nat)
    requires Loads(now, a, b, c, d, e)
    ensures a <= b && a <= c ==> Lightest(now, Who(2), A)
    ensures b < a && b <= c ==> Lightest(now, Who(2), B)
    ensures c < a && c < b ==> Lightest(now, Who(2), C)
  {
    hide Count;
    NamesInOrder();
  }

  lemma LightestCDE(now: Owners, k: nat, a: nat, b: nat, c: nat, d: nat, e: nat)
    requires Loads(now, a, b, c, d, e) && 3 <= k < 6
    ensures c <= d && c <= e ==> Lightest(now, Who(k), C)
    ensures d < c && d <= e ==> Lightest(now, Who(k), D)
    ensures e < c && e < d ==> Lightest(now, Who(k), E)
  {
    hide Count;
    NamesInOrder();
  }

  /** The topics with one subscriber. */
  lemma Private()
    ensures Who(0) == {A} && Who(1) == {C} && Size(0) == 1 && Size(1) == 2
    ensures Who(6) == {A} && Who(7) == {A} && Size(6) == 2 && Size(7) == 1
    ensures Who(8) == {B} && Who(9) == {B} && Size(8) == 2 && Size(9) == 1
    ensures Who(10) == {D} && Who(11) == {D} && Who(12) == {D} && Size(10) == 2 && Size(11) == 2 && Size(12) == 2
    ensures Who(13) == {E} && Who(14) == {E} && Who(15) == {E} && Size(13) == 2 && Size(14) == 2 && Size(15) == 1
  {
  }

  lemma Sizes()
    ensures Size(2) == 2 && Size(3) == 1 && Size(4) == 1 && Size(5) == 1
  {
  }

  lemma Distinct()
    ensures A != B && A != C && A != D && A != E && B != C && B != D && B != E && C != D && C != E && D != E
  {
  }

  /** The partitions of the k-th topic join those before. */
  lemma BelowGrows(now: Owners, k: nat, i: nat, m: MemberId)
    requires k < 16 && (Below(now, k) || Below(now, k + 1))
    ensures Below(now[At(k, i) := m], k + 1)
  {
  }

  lemma FreshBelow(now: Owners, k: nat, i: nat)
    requires k < 16 && Below(now, k)
    ensures At(k, i) !in now
  {
  }

  /** Given to m, the lightest of those who may own it. */
  lemma GiveLightest(subs: Subscriptions, now: Owners, k: nat, i: nat, m: MemberId, rest: seq<TopicPartition>)
    requires Given(subs) && k < 16 && i < Size(k) && At(k, i) !in now && Lightest(now, Who(k), m)
    ensures Greedy(subs, now, [At(k, i)] + rest) == Greedy(subs, now[At(k, i) := m], rest)
    ensures Gains(now, now[At(k, i) := m], m, 1)
  {
    var p := At(k, i);
    AllowanceAt(subs, k, i);
    assert forall x :: subs.Allows(x, p) ==> Lighter(now)(m, x);
    hide Greedy, Give, Lighter, Count, At;
    GreedyOne(subs, now, p, rest);
    GiveTo(subs, now, p, m);
  }

  lemma AllowanceAt(subs: Subscriptions, k: nat, i: nat)
    requires Given(subs) && k < 16 && i < Size(k)
    ensures OnlyThese(subs, At(k, i), Who(k))
  {
    hide OnlyThese, Reads, Topic;
    Allowance(subs, k);
  }

  /** Topics A and B. */
  lemma GreedyToB(subs: Subscriptions) returns (now: Owners)
    requires Given(subs)
    ensures Reached(subs, now, 2) && Loads(now, 1, 0, 2, 0, 0)
  {
    hide *;
    Distinct();
    Private();
    ReachedStart(subs);
    var one := PrivateTopic(subs, map[], 0, A);
    LoadsGain(map[], one, A, 1, 0, 0, 0, 0, 0);
    now := PrivateTopic(subs, one, 1, C);
    LoadsGain(one, now, C, 2, 1, 0, 0, 0, 0);
  }

  lemma TailOfC()
    ensures Tail(2) == [At(2, 0)] + ([At(2, 1)] + Tail(3))
  {
    hide *;
    Sizes();
    TailStep(2);
    BlockStep(Topic(2), 0, 2);
    BlockStep(Topic(2), 1, 2);
    BlockEnd(Topic(2), 2);
    AtIs(2, 0);
    AtIs(2, 1);
  }

  lemma BlockEnd(topic: string, n: nat)
    ensures Block(topic, n, n) == []
  {
  }

  lemma AtIs(k: nat, i: nat)
    requires k <= 16
    ensures At(k, i) == TopicPartition(Topic(k), i)
  {
  }

  lemma DifferentAt(k: nat)
    requires k < 16
    ensures At(k, 0) != At(k, 1)
  {
  }

  /** Topic C. */
  lemma GreedyToC(subs: Subscriptions, before: Owners) returns (now: Owners)
    requires Given(subs) && Reached(subs, before, 2) && Loads(before, 1, 0, 2, 0, 0)
    ensures Reached(subs, now, 3) && Loads(now, 2, 1, 2, 0, 0) && now == before[At(2, 0) := B][At(2, 1) := A]
  {
    hide *;
    Distinct();
    Sizes();
    ReachedParts(subs, before, 2);
    FreshBelow(before, 2, 0);
    FreshBelow(before, 2, 1);
    DifferentAt(2);
    TailOfC();
    LightestABC(before, 1, 0, 2, 0, 0);
    GiveLightest(subs, before, 2, 0, B, [At(2, 1)] + Tail(3));
    var one := before[At(2, 0) := B];
    LoadsGain(before, one, B, 1, 1, 0, 2, 0, 0);
    BelowGrows(before, 2, 0, B);
    LightestABC(one, 1, 1, 2, 0, 0);
    GiveLightest(subs, one, 2, 1, A, Tail(3));
    now := one[At(2, 1) := A];
    LoadsGain(one, now, A, 1, 1, 1, 2, 0, 0);
    BelowGrows(one, 2, 1, A);
    ReachedFrom(subs, now, 3);
  }

  /** A topic with one partition, given to m. */
  lemma SingleTopic(subs: Subscriptions, now: Owners, k: nat, m: MemberId) returns (next: Owners)
    requires Given(subs) && 3 <= k < 6 && Reached(subs, now, k) && Lightest(now, Who(k), m)
    ensures next == now[At(k, 0) := m] && Reached(subs, next, k + 1) && Gains(now, next, m, 1)
  {
    hide *;
    Sizes();
    TailOfOne(k);
    next := now[At(k, 0) := m];
    ReachedParts(subs, now, k);
    FreshBelow(now, k, 0);
    GiveLightest(subs, now, k, 0, m, Tail(k + 1));
    BelowGrows(now, k, 0, m);
    ReachedFrom(subs, next, k + 1);
  }

  lemma TailOfOne(k: nat)
    requires 3 <= k < 6
    ensures Tail(k) == [At(k, 0)] + Tail(k + 1)
  {
    hide *;
    Sizes();
    TailStep(k);
    BlockStep(Topic(k), 0, 1);
    BlockEnd(Topic(k), 1);
    AtIs(k, 0);
  }

  /** Topics D to F. */
  lemma GreedyToF(subs: Subscriptions, before: Owners) returns (now: Owners)
    requires Given(subs) && Reached(subs, before, 3) && Loads(before, 2, 1, 2, 0, 0)
    ensures Reached(subs, now, 6) && Loads(now, 2, 1, 2, 2, 1)
    ensures now == before[At(3, 0) := D][At(4, 0) := E][At(5, 0) := D]
  {
    hide *;
    Distinct();
    LightestCDE(before, 3, 2, 1, 2, 0, 0);
    var one := SingleTopic(subs, before, 3, D);
    LoadsGain(before, one, D, 1, 2, 1, 2, 0, 0);
    LightestCDE(one, 4, 2, 1, 2, 1, 0);
    var two := SingleTopic(subs, one, 4, E);
    LoadsGain(one, two, E, 1, 2, 1, 2, 1, 0);
    LightestCDE(two, 5, 2, 1, 2, 1, 1);
    now := SingleTopic(subs, two, 5, D);
    LoadsGain(two, now, D, 1, 2, 1, 2, 1, 1);
  }

  /** Who owns the contested partitions: the two of topic C and those of D, E and F. */
  ghost predicate Contested(now: Owners, c0: MemberId, c1: MemberId, d0: MemberId, e0: MemberId, f0: MemberId) {
    && At(2, 0) in now && now[At(2, 0)] == c0 && At(2, 1) in now && now[At(2, 1)] == c1
    && At(3, 0) in now && now[At(3, 0)] == d0 && At(4, 0) in now && now[At(4, 0)] == e0
    && At(5, 0) in now && now[At(5, 0)] == f0
  }

  lemma ContestedKept(now: Owners, next: Owners, c0: MemberId, c1: MemberId, d0: MemberId, e0: MemberId, f0: MemberId)
    requires Contested(now, c0, c1, d0, e0, f0) && Keeps(now, next)
    ensures Contested(next, c0, c1, d0, e0, f0)
  {
    hide At;
  }

  lemma ContestedFrom(before: Owners)
    ensures Contested(before[At(2, 0) := B][At(2, 1) := A][At(3, 0) := D][At(4, 0) := E][At(5, 0) := D], B, A, D, E, D)
  {
    AllDifferentAt();
    hide At;
  }

  lemma AllDifferentAt()
    ensures At(2, 0) != At(2, 1)
    ensures forall i, j :: 0 <= i < 2 && 3 <= j < 6 ==> At(2, i) != At(j, 0)
    ensures At(3, 0) != At(4, 0) && At(3, 0) != At(5, 0) && At(4, 0) != At(5, 0)
  {
  }

  /** A private topic after the contested ones. */
  lemma PrivateAfter(subs: Subscriptions, now: Owners, k: nat, m: MemberId, a: nat, b: nat, c: nat, d: nat, e: nat)
    returns (next: Owners)
    requires Given(subs) && k < 16 && Reached(subs, now, k) && Who(k) == {m}
    requires Loads(now, a, b, c, d, e) && Contested(now, B, A, D, E, D)
    ensures Reached(subs, next, k + 1) && Contested(next, B, A, D, E, D)
    ensures Loads(next, if m == A then a + Size(k) else a, if m == B then b + Size(k) else b,
                  if m == C then c + Size(k) else c, if m == D then d + Size(k) else d,
                  if m == E then e + Size(k) else e)
  {
    hide *;
    next := PrivateTopic(subs, now, k, m);
    LoadsGain(now, next, m, Size(k), a, b, c, d, e);
    ContestedKept(now, next, B, A, D, E, D);
  }

  /** The greedy assignment. */
  lemma GreedyEnds(subs: Subscriptions)
    requires Given(subs)
    ensures Loads(FirstOwners(subs), 5, 4, 2, 8, 6) && Contested(FirstOwners(subs), B, A, D, E, D)
  {
    hide *;
    Distinct();
    Private();
    var before := GreedyToB(subs);
    var now := GreedyToC(subs, before);
    now := GreedyToF(subs, now);
    ContestedFrom(before);
    now := PrivateAfter(subs, now, 6, A, 2, 1, 2, 2, 1);
    now := PrivateAfter(subs, now, 7, A, 4, 1, 2, 2, 1);
    now := PrivateAfter(subs, now, 8, B, 5, 1, 2, 2, 1);
    now := PrivateAfter(subs, now, 9, B, 5, 3, 2, 2, 1);
    now := PrivateAfter(subs, now, 10, D, 5, 4, 2, 2, 1);
    now := PrivateAfter(subs, now, 11, D, 5, 4, 2, 4, 1);
    now := PrivateAfter(subs, now, 12, D, 5, 4, 2, 6, 1);
    now := PrivateAfter(subs, now, 13, E, 5, 4, 2, 8, 1);
    now := PrivateAfter(subs, now, 14, E, 5, 4, 2, 8, 3);
    now := PrivateAfter(subs, now, 15, E, 5, 4, 2, 8, 5);
    ReachedEnd(subs, now);
  }

  lemma ReachedEnd(subs: Subscriptions, now: Owners)
    requires Reached(subs, now, 16)
    ensures FirstOwners(subs) == now
  {
  }

  // ---------------------------------------------------------------- one visit

  /** The setting of this input's passes. */
  ghost predicate Ours(e: Setting) {
    Given(e.subs) && e == Opening(e.subs)
  }

  lemma OursParts(e: Setting)
    requires Ours(e)
    ensures Given(e.subs) && e.start == FirstOwners(e.subs) && Sound(e, e.start)
    ensures Loads(e.start, 5, 4, 2, 8, 6) && Contested(e.start, B, A, D, E, D)
  {
    hide Greedy, Sound, Loads, Contested, FirstOwners;
    assert e.subs.Valid();
    OpeningSound(e.subs);
    GreedyEnds(e.subs);
  }

  lemma WantedPick(e: Setting, now: Owners, k: nat, i: nat, to: MemberId)
    requires Given(e.subs) && Sound(e, now) && k < 16 && i < Size(k) && At(k, i) in now
    requires now[At(k, i)] != MemberId("") && Lightest(now, Who(k), to)
    requires Count(now, now[At(k, i)]) > Count(now, to) + 1
    ensures Wanted(e.subs, now, At(k, i)) && Pick(e.subs, now, At(k, i)) == to
  {
    var p := At(k, i);
    AllowanceAt(e.subs, k, i);
    hide Count, At, Given, Who;
    assert e.subs.Allows(to, p) && e.subs.Allows(now[p], p);
    TwoOwnersShared(e.subs, p, to, now[p]);
    PickIs(e.subs, now, p, to);
  }

  /** The record redirects nothing when no sibling went from the taker to p's first owner. */
  lemma NotRedirected(e: Setting, now: Owners, p: TopicPartition, to: MemberId)
    requires e.start.Keys == now.Keys && p in now && now[p] != to
    requires forall q :: q in now && q != p && q.topic == p.topic ==> !(e.start[q] == to && now[q] == e.start[p])
    ensures Moving(e, now, p, to) == p
  {
  }

  lemma RedirectedTo(e: Setting, now: Owners, p: TopicPartition, to: MemberId, q: TopicPartition)
    requires e.start.Keys == now.Keys && p in now && now[p] != to && to != e.start[p]
    requires q in now && q != p && q.topic == p.topic && e.start[q] == to && now[q] == e.start[p]
    requires forall x :: x in now && x != p && x.topic == p.topic ==> x == q
    ensures Moving(e, now, p, to) == q
  {
    assert q in Reversals(Difference(e.start, now), p, now[p], to);
  }

  /** The partitions of the k-th topic are the ones its size says. */
  lemma Mates(e: Setting, now: Owners, k: nat, q: TopicPartition)
    requires Given(e.subs) && Sound(e, now) && k < 16 && q in now && q.topic == Topic(k)
    ensures 0 <= q.partition < Size(k) && q == At(k, q.partition)
  {
    assert e.subs.Allows(now[q], q);
    assert Known(TOPICS, q);
    hide Known, Given, Sound;
    KnownIsInTail(q);
  }

  lemma VisitTo(e: Setting, now: Owners, p: TopicPartition, to: MemberId, q: TopicPartition)
    requires Sound(e, now) && Wanted(e.subs, now, p) && Pick(e.subs, now, p) == to && Moving(e, now, p, to) == q
    ensures Visit(e, now, p) == now[q := to] && Sound(e, now[q := to]) && q in now && now[q] != to
  {
    hide Wanted, Sound, Pick, Visit;
    VisitIs(e, now, p);
    VisitSound(e, now, p);
    PickDiffers(e, now, p, to);
    MovingGoesHome(e, now, p, to);
  }

  lemma PickDiffers(e: Setting, now: Owners, p: TopicPartition, to: MemberId)
    requires Sound(e, now) && Wanted(e.subs, now, p) && Pick(e.subs, now, p) == to
    ensures p in now && now[p] != to && e.subs.Allows(to, p)
  {
    hide Count;
    VisitIs(e, now, p);
  }

  lemma LoadsMoved(now: Owners, q: TopicPartition, to: MemberId, a: int, b: int, c: int, d: int, e: int)
    requires Loads(now, a, b, c, d, e) && q in now && now[q] != to
    ensures Loads(now[q := to], a + Step(A, now[q], to), b + Step(B, now[q], to), c + Step(C, now[q], to),
                  d + Step(D, now[q], to), e + Step(E, now[q], to))
  {
    hide Count;
    CountMoved(now, q, to, A);
    CountMoved(now, q, to, B);
    CountMoved(now, q, to, C);
    CountMoved(now, q, to, D);
    CountMoved(now, q, to, E);
  }

  function Step(x: MemberId, from: MemberId, to: MemberId): int {
    (if x == to then 1 else 0) - if x == from then 1 else 0
  }

  /** A direct move of a partition without siblings. */
  lemma MoveSingle(e: Setting, now: Owners, k: nat, to: MemberId)
    requires Given(e.subs) && Sound(e, now) && 3 <= k < 6 && At(k, 0) in now
    requires now[At(k, 0)] != MemberId("") && Lightest(now, Who(k), to)
    requires Count(now, now[At(k, 0)]) > Count(now, to) + 1
    ensures Wanted(e.subs, now, At(k, 0)) && Visit(e, now, At(k, 0)) == now[At(k, 0) := to]
    ensures Sound(e, now[At(k, 0) := to]) && now[At(k, 0)] != to
  {
    hide *;
    Sizes();
    var p := At(k, 0);
    WantedPick(e, now, k, 0, to);
    PickDiffers(e, now, p, to);
    AtIs(k, 0);
    forall q | q in now && q.topic == p.topic ensures q == p {
      Mates(e, now, k, q);
    }
    SoundKeys(e, now);
    NotRedirected(e, now, p, to);
    VisitTo(e, now, p, to, p);
  }

  /** A wanted partition of topic C, 0 or 1, whose sibling does not go home. */
  lemma MovePair(e: Setting, now: Owners, i: nat, to: MemberId)
    requires Given(e.subs) && Sound(e, now) && i < 2 && At(2, i) in now && At(2, 1 - i) in now
    requires now[At(2, i)] != MemberId("") && Lightest(now, Who(2), to)
    requires Count(now, now[At(2, i)]) > Count(now, to) + 1
    requires At(2, 1 - i) in e.start && At(2, i) in e.start
    requires !(e.start[At(2, 1 - i)] == to && now[At(2, 1 - i)] == e.start[At(2, i)])
    ensures Wanted(e.subs, now, At(2, i)) && Visit(e, now, At(2, i)) == now[At(2, i) := to]
    ensures Sound(e, now[At(2, i) := to]) && now[At(2, i)] != to
  {
    hide *;
    Sizes();
    var p := At(2, i);
    WantedPick(e, now, 2, i, to);
    PickDiffers(e, now, p, to);
    AtIs(2, i);
    forall q | q in now && q.topic == p.topic && q != p ensures q == At(2, 1 - i) {
      Mates(e, now, 2, q);
    }
    SoundKeys(e, now);
    NotRedirected(e, now, p, to);
    VisitTo(e, now, p, to, p);
  }

  /** A wanted partition of topic C whose sibling goes home instead. */
  lemma MoveSibling(e: Setting, now: Owners, i: nat, to: MemberId)
    requires Given(e.subs) && Sound(e, now) && i < 2 && At(2, i) in now && At(2, 1 - i) in now
    requires now[At(2, i)] != MemberId("") && Lightest(now, Who(2), to)
    requires Count(now, now[At(2, i)]) > Count(now, to) + 1
    requires At(2, 1 - i) in e.start && At(2, i) in e.start && to != e.start[At(2, i)]
    requires e.start[At(2, 1 - i)] == to && now[At(2, 1 - i)] == e.start[At(2, i)]
    ensures Wanted(e.subs, now, At(2, i)) && Visit(e, now, At(2, i)) == now[At(2, 1 - i) := to]
    ensures Sound(e, now[At(2, 1 - i) := to]) && now[At(2, 1 - i)] != to
  {
    hide *;
    Sizes();
    var p, q := At(2, i), At(2, 1 - i);
    WantedPick(e, now, 2, i, to);
    PickDiffers(e, now, p, to);
    AtIs(2, i);
    AtIs(2, 1 - i);
    DifferentAt(2);
    forall x | x in now && x.topic == p.topic && x != p ensures x == q {
      Mates(e, now, 2, x);
    }
    SoundKeys(e, now);
    RedirectedTo(e, now, p, to, q);
    VisitTo(e, now, p, to, q);
  }

  // ---------------------------------------------------------------- who is active, what is visited

  lemma HoldsShared(e: Setting, k: nat, i: nat, m: MemberId, n: MemberId)
    requires Ours(e) && k < 16 && i < Size(k) && At(k, i) in e.start && e.start[At(k, i)] == m
    requires m in Who(k) && n in Who(k) && m != n
    ensures m in e.active
  {
    hide Given, At, Who, Count, FirstOwners, Greedy;
    OursParts(e);
    AllowanceAt(e.subs, k, i);
    TwoOwnersShared(e.subs, At(k, i), m, n);
    assert e.subs.Allows(m, At(k, i));
    MemberOf(e, At(k, i), m);
  }

  lemma MemberOf(e: Setting, p: TopicPartition, m: MemberId)
    requires Given(e.subs) && e.subs.Allows(m, p)
    ensures m in e.subs.ofMember && p in e.subs.ofMember[m]
  {
  }

  lemma MayHold(e: Setting, k: nat, i: nat, m: MemberId)
    requires Given(e.subs) && k < 16 && i < Size(k) && m in Who(k)
    ensures m in e.subs.ofMember && At(k, i) in e.subs.ofMember[m]
  {
    AllowanceAt(e.subs, k, i);
    hide Given, At, Who;
    MemberOf(e, At(k, i), m);
  }

  lemma ActiveByCount(e: Setting, m: MemberId)
    requires Ours(e) && m in e.subs.ofMember && Count(e.start, m) < |e.subs.ofMember[m]|
    ensures m in e.active
  {
    hide Count, Given, Greedy;
  }

  lemma LoadOfC(now: Owners, a: int, b: int, c: int, d: int, e: int)
    requires Loads(now, a, b, c, d, e)
    ensures Count(now, C) == c
  {
  }

  lemma HoldsLess(e: Setting)
    requires Ours(e)
    ensures C in e.active
  {
    hide *;
    OursParts(e);
    Sizes();
    Private();
    Whose();
    MayHold(e, 1, 0, C);
    MayHold(e, 1, 1, C);
    MayHold(e, 2, 0, C);
    DifferentAt(1);
    DifferentTopics();
    ThreeAtLeast(e.subs.ofMember[C], At(1, 0), At(1, 1), At(2, 0));
    LoadOfC(e.start, 5, 4, 2, 8, 6);
    ActiveByCount(e, C);
  }

  lemma DifferentTopics()
    ensures At(1, 0) != At(2, 0) && At(1, 1) != At(2, 0)
  {
  }

  lemma ThreeAtLeast(s: seq<TopicPartition>, p: TopicPartition, q: TopicPartition, x: TopicPartition)
    requires p in s && q in s && x in s
    ensures p != q && p != x && q != x ==> |s| > 2
  {
  }

  lemma AllActive(e: Setting)
    requires Ours(e)
    ensures A in e.active && B in e.active && C in e.active && D in e.active
  {
    hide *;
    OursParts(e);
    Distinct();
    Sizes();
    HoldsLess(e);
    Whose();
    StartOwners(e);
    HoldsShared(e, 2, 0, B, A);
    HoldsShared(e, 2, 1, A, B);
    HoldsShared(e, 3, 0, D, C);
  }

  lemma Whose()
    ensures Who(2) == {A, B, C} && Who(3) == {C, D, E} && Who(4) == {C, D, E} && Who(5) == {C, D, E}
  {
  }

  lemma StartOwners(e: Setting)
    requires Contested(e.start, B, A, D, E, D)
    ensures At(2, 0) in e.start && e.start[At(2, 0)] == B && At(2, 1) in e.start && e.start[At(2, 1)] == A
    ensures At(3, 0) in e.start && e.start[At(3, 0)] == D
  {
  }

  /** The contested partitions are the shared ones. */
  function Visited(): seq<TopicPartition> {
    [At(2, 0), At(2, 1), At(3, 0), At(4, 0), At(5, 0)]
  }

  lemma KnownListed(subs: Subscriptions, p: TopicPartition)
    requires Given(subs)
    ensures p in subs.ofPartition <==> Known(TOPICS, p)
    ensures p in subs.ofPartition ==> NoDup(subs.ofPartition[p])
  {
    InputWellFormed();
  }

  lemma ConsumersOf(subs: Subscriptions, k: nat, i: nat)
    requires Given(subs) && k < 16 && i < Size(k)
    ensures At(k, i) in subs.ofPartition && |subs.ofPartition[At(k, i)]| == |Who(k)|
  {
    hide Given, Who, At, Known;
    var p := At(k, i);
    Numbered(k, i);
    KnownListed(subs, p);
    AllowanceAt(subs, k, i);
    forall m ensures m in Elems(subs.ofPartition[p]) <==> m in Who(k) {
      assert subs.Allows(m, p) <==> m in Who(k);
    }
    assert Elems(subs.ofPartition[p]) == Who(k);
    NoDupSize(subs.ofPartition[p]);
  }

  lemma WhoSize(k: nat)
    requires k < 16
    ensures |Who(k)| == if 2 <= k < 6 then 3 else 1
  {
  }

  lemma PlaceOf(p: TopicPartition) returns (k: nat, i: nat)
    requires Known(TOPICS, p)
    ensures k < 16 && i < Size(k) && p == At(k, i)
  {
    hide Known;
    KnownIsInTail(p);
    k, i := p.topic[0] as int - 65, p.partition;
    assert p.topic == [p.topic[0]];
  }

  lemma VisitedAt(k: nat, i: nat)
    requires k < 16 && i < Size(k)
    ensures At(k, i) in Visited() <==> 2 <= k < 6
  {
  }

  lemma SharedAre(subs: Subscriptions, p: TopicPartition)
    requires Given(subs)
    ensures subs.Shared(p) <==> p in Visited()
  {
    hide Given, At, Known, Visited, Size, Who;
    KnownListed(subs, p);
    if p in subs.ofPartition {
      var k, i := PlaceOf(p);
      ConsumersOf(subs, k, i);
      WhoSize(k);
      VisitedAt(k, i);
    } else if p in Visited() {
      VisitedKnown(p);
    }
  }

  lemma VisitedKnown(p: TopicPartition)
    requires p in Visited()
    ensures Known(TOPICS, p)
  {
    hide Known;
    Numbered(2, 0);
    Numbered(2, 1);
    Numbered(3, 0);
    Numbered(4, 0);
    Numbered(5, 0);
  }

  lemma VisitedInOrder(subs: Subscriptions)
    requires Given(subs)
    ensures NoDup(Visited()) && SortedBy(Visited(), ByConsumers(subs.ofPartition))
  {
    AtSorted();
    hide Given, At, PartitionLe, Who, Size;
    forall p | p in Visited() ensures Consumers(subs.ofPartition, p) == 3 {
      ThreeConsumers(subs, p);
    }
    forall i | 0 <= i < 5 ensures Visited()[i] in Visited() {
    }
  }

  lemma ThreeConsumers(subs: Subscriptions, p: TopicPartition)
    requires Given(subs) && p in Visited()
    ensures Consumers(subs.ofPartition, p) == 3
  {
    hide Given, Who, Known, Size;
    VisitedKnown(p);
    var k, i := PlaceOf(p);
    VisitedAt(k, i);
    ConsumersOf(subs, k, i);
    WhoSize(k);
  }

  lemma AtSorted()
    ensures var s := Visited(); forall i, j :: 0 <= i < j < 5 ==> s[i] != s[j] && PartitionLe(s[i], s[j])
  {
  }

  lemma OrderIs(e: Setting)
    requires Ours(e)
    ensures e.order == Visited()
  {
    forall p ensures p in e.order <==> p in Visited() {
      SharedAre(e.subs, p);
    }
    VisitedInOrder(e.subs);
    ByConsumersOrder(e.subs.ofPartition);
    hide Given, ByConsumers, Visited, Subscriptions.Shared, Greedy, Active;
    SortedUnique(e.order, Visited(), ByConsumers(e.subs.ofPartition));
  }

  // ---------------------------------------------------------------- the passes

  lemma UnevenBy(e: Setting, now: Owners, m: MemberId, n: MemberId, p: TopicPartition)
    requires m in e.active && n in e.active && Count(now, m) > Count(now, n) + 1
    requires p in now && e.subs.Allows(n, p) && Count(now, now[p]) > Count(now, n)
    ensures !Even(e, now)
  {
    hide Count;
  }

  lemma PassOn(e: Setting, now: Owners, p: TopicPartition, rest: seq<TopicPartition>)
    requires e.start.Keys == now.Keys && !Even(e, now) && Wanted(e.subs, now, p)
    ensures Pass(e, now, [p] + rest).0 == Pass(e, Visit(e, now, p), rest).0
    ensures Pass(e, now, [p] + rest).1 == Pass(e, Visit(e, now, p), rest).1 + 1
  {
    assert ([p] + rest)[1..] == rest;
    hide Even, Wanted, Visit;
  }

  lemma {:induction false} PassIdle(e: Setting, now: Owners, ps: seq<TopicPartition>)
    requires e.start.Keys == now.Keys && forall p :: p in ps ==> !Wanted(e.subs, now, p)
    ensures Pass(e, now, ps) == (now, 0)
    decreases |ps|
  {
    hide Wanted, Even;
    if ps != [] && !Even(e, now) {
      PassIdle(e, now, ps[1..]);
    }
  }

  /** Owners of the contested partitions and everybody's load. */
  datatype Place = Place(c0: MemberId, c1: MemberId, d0: MemberId, e0: MemberId, f0: MemberId,
                         a: int, b: int, c: int, d: int, e: int)

  ghost predicate Stands(e: Setting, now: Owners, s: Place) {
    && Sound(e, now) && Contested(now, s.c0, s.c1, s.d0, s.e0, s.f0) && Loads(now, s.a, s.b, s.c, s.d, s.e)
  }

  lemma StandsParts(e: Setting, now: Owners, s: Place)
    requires Stands(e, now, s)
    ensures Sound(e, now) && Loads(now, s.a, s.b, s.c, s.d, s.e)
    ensures e.start.Keys == now.Keys
    ensures At(2, 0) in now && now[At(2, 0)] == s.c0 && At(2, 1) in now && now[At(2, 1)] == s.c1
    ensures At(3, 0) in now && now[At(3, 0)] == s.d0 && At(4, 0) in now && now[At(4, 0)] == s.e0
    ensures At(5, 0) in now && now[At(5, 0)] == s.f0
    ensures Count(now, A) == s.a && Count(now, B) == s.b && Count(now, C) == s.c && Count(now, D) == s.d
    ensures Count(now, E) == s.e
  {
    hide Count, At;
    SoundKeys(e, now);
  }

  lemma ContestedMoved(now: Owners, s: Place, m: MemberId)
    requires Contested(now, s.c0, s.c1, s.d0, s.e0, s.f0)
    ensures Contested(now[At(2, 0) := m], m, s.c1, s.d0, s.e0, s.f0)
    ensures Contested(now[At(2, 1) := m], s.c0, m, s.d0, s.e0, s.f0)
    ensures Contested(now[At(3, 0) := m], s.c0, s.c1, m, s.e0, s.f0)
    ensures Contested(now[At(4, 0) := m], s.c0, s.c1, s.d0, m, s.f0)
    ensures Contested(now[At(5, 0) := m], s.c0, s.c1, s.d0, s.e0, m)
  {
    AllDifferentAt();
    hide At;
  }

  /** The place after q, owned by `from`, has gone to `to`. */
  function LoadsTo(s: Place, from: MemberId, to: MemberId): Place {
    s.(a := s.a + Step(A, from, to), b := s.b + Step(B, from, to), c := s.c + Step(C, from, to),
       d := s.d + Step(D, from, to), e := s.e + Step(E, from, to))
  }

  lemma StandsAfter(e: Setting, now: Owners, q: TopicPartition, m: MemberId, s: Place, t: Place)
    requires Stands(e, now, s) && q in now && now[q] != m && Sound(e, now[q := m])
    requires t == LoadsTo(s, now[q], m).(c0 := t.c0, c1 := t.c1, d0 := t.d0, e0 := t.e0, f0 := t.f0)
    requires Contested(now[q := m], t.c0, t.c1, t.d0, t.e0, t.f0)
    ensures Stands(e, now[q := m], t)
  {
    hide Count, Sound, Contested, Loads, Step;
    LoadsMoved(now, q, m, s.a, s.b, s.c, s.d, s.e);
  }

  lemma StandsMoved(e: Setting, now: Owners, s: Place, m: MemberId)
    requires Stands(e, now, s)
    ensures s.c0 != m && Sound(e, now[At(2, 0) := m]) ==> Stands(e, now[At(2, 0) := m], LoadsTo(s, s.c0, m).(c0 := m))
    ensures s.c1 != m && Sound(e, now[At(2, 1) := m]) ==> Stands(e, now[At(2, 1) := m], LoadsTo(s, s.c1, m).(c1 := m))
    ensures s.d0 != m && Sound(e, now[At(3, 0) := m]) ==> Stands(e, now[At(3, 0) := m], LoadsTo(s, s.d0, m).(d0 := m))
    ensures s.e0 != m && Sound(e, now[At(4, 0) := m]) ==> Stands(e, now[At(4, 0) := m], LoadsTo(s, s.e0, m).(e0 := m))
    ensures s.f0 != m && Sound(e, now[At(5, 0) := m]) ==> Stands(e, now[At(5, 0) := m], LoadsTo(s, s.f0, m).(f0 := m))
  {
    StandsParts(e, now, s);
    StandsContested(e, now, s);
    hide Count, At, Sound, Contested, Loads, Step, Stands;
    ContestedMoved(now, s, m);
    if s.c0 != m && Sound(e, now[At(2, 0) := m]) {
      StandsAfter(e, now, At(2, 0), m, s, LoadsTo(s, s.c0, m).(c0 := m));
    }
    if s.c1 != m && Sound(e, now[At(2, 1) := m]) {
      StandsAfter(e, now, At(2, 1), m, s, LoadsTo(s, s.c1, m).(c1 := m));
    }
    if s.d0 != m && Sound(e, now[At(3, 0) := m]) {
      StandsAfter(e, now, At(3, 0), m, s, LoadsTo(s, s.d0, m).(d0 := m));
    }
    if s.e0 != m && Sound(e, now[At(4, 0) := m]) {
      StandsAfter(e, now, At(4, 0), m, s, LoadsTo(s, s.e0, m).(e0 := m));
    }
    if s.f0 != m && Sound(e, now[At(5, 0) := m]) {
      StandsAfter(e, now, At(5, 0), m, s, LoadsTo(s, s.f0, m).(f0 := m));
    }
  }

  lemma StandsContested(e: Setting, now: Owners, s: Place)
    requires Stands(e, now, s)
    ensures Contested(now, s.c0, s.c1, s.d0, s.e0, s.f0)
  {
  }

  lemma Named()
    ensures A != MemberId("") && B != MemberId("") && C != MemberId("") && D != MemberId("") && E != MemberId("")
  {
  }

  /** C may own the partitions of topics D, E and F, and A that of topic C. */
  lemma MayOwn(e: Setting)
    requires Given(e.subs)
    ensures e.subs.Allows(C, At(3, 0)) && e.subs.Allows(C, At(4, 0)) && e.subs.Allows(C, At(5, 0))
    ensures e.subs.Allows(A, At(2, 0)) && e.subs.Allows(B, At(2, 0))
  {
    hide *;
    Sizes();
    Whose();
    AllowedOne(e.subs, 2, A);
    AllowedOne(e.subs, 2, B);
    AllowedOne(e.subs, 3, C);
    AllowedOne(e.subs, 4, C);
    AllowedOne(e.subs, 5, C);
  }

  lemma AllowedOne(subs: Subscriptions, k: nat, m: MemberId)
    requires Given(subs) && k < 16 && 0 < Size(k) && m in Who(k)
    ensures subs.Allows(m, At(k, 0))
  {
    hide Given, At, Who;
    AllowanceAt(subs, k, 0);
  }

  /** A visit that moves something and leads on to `next`. */
  ghost predicate Moves(e: Setting, now: Owners, p: TopicPartition, next: Owners)
    requires e.start.Keys == now.Keys
  {
    !Even(e, now) && Wanted(e.subs, now, p) && Visit(e, now, p) == next
  }

  lemma Place0(e: Setting, now: Owners)
    requires Ours(e) && Stands(e, now, Place(B, A, D, E, D, 5, 4, 2, 8, 6))
    ensures var next := now[At(2, 0) := C];
            && e.start.Keys == now.Keys && Moves(e, now, At(2, 0), next)
            && Stands(e, next, Place(C, A, D, E, D, 5, 3, 3, 8, 6))
  {
    hide *;
    var s := Place(B, A, D, E, D, 5, 4, 2, 8, 6);
    StandsParts(e, now, s);
    Ready(e);
    UnevenBy(e, now, D, C, At(3, 0));
    LightestABC(now, 5, 4, 2, 8, 6);
    MovePair(e, now, 0, C);
    StandsMoved(e, now, s, C);
    StepsAre();
    MovesIs(e, now, At(2, 0), now[At(2, 0) := C]);
  }

  lemma Place1(e: Setting, now: Owners)
    requires Ours(e) && Stands(e, now, Place(C, A, D, E, D, 5, 3, 3, 8, 6))
    ensures var next := now[At(2, 1) := B];
            && e.start.Keys == now.Keys && Moves(e, now, At(2, 1), next)
            && Stands(e, next, Place(C, B, D, E, D, 4, 4, 3, 8, 6))
  {
    hide *;
    var s := Place(C, A, D, E, D, 5, 3, 3, 8, 6);
    StandsParts(e, now, s);
    Ready(e);
    UnevenBy(e, now, D, C, At(3, 0));
    LightestABC(now, 5, 3, 3, 8, 6);
    MovePair(e, now, 1, B);
    StandsMoved(e, now, s, B);
    StepsAre();
    MovesIs(e, now, At(2, 1), now[At(2, 1) := B]);
  }

  lemma Place2(e: Setting, now: Owners)
    requires Ours(e) && Stands(e, now, Place(C, B, D, E, D, 4, 4, 3, 8, 6))
    ensures var next := now[At(3, 0) := C];
            && e.start.Keys == now.Keys && Moves(e, now, At(3, 0), next)
            && Stands(e, next, Place(C, B, C, E, D, 4, 4, 4, 7, 6))
  {
    hide *;
    var s := Place(C, B, D, E, D, 4, 4, 3, 8, 6);
    StandsParts(e, now, s);
    Ready(e);
    UnevenBy(e, now, D, C, At(3, 0));
    LightestCDE(now, 3, 4, 4, 3, 8, 6);
    MoveSingle(e, now, 3, C);
    StandsMoved(e, now, s, C);
    StepsAre();
    MovesIs(e, now, At(3, 0), now[At(3, 0) := C]);
  }

  lemma Place3(e: Setting, now: Owners)
    requires Ours(e) && Stands(e, now, Place(C, B, C, E, D, 4, 4, 4, 7, 6))
    ensures var next := now[At(4, 0) := C];
            && e.start.Keys == now.Keys && Moves(e, now, At(4, 0), next)
            && Stands(e, next, Place(C, B, C, C, D, 4, 4, 5, 7, 5))
  {
    hide *;
    var s := Place(C, B, C, E, D, 4, 4, 4, 7, 6);
    StandsParts(e, now, s);
    Ready(e);
    UnevenBy(e, now, D, C, At(4, 0));
    LightestCDE(now, 4, 4, 4, 4, 7, 6);
    MoveSingle(e, now, 4, C);
    StandsMoved(e, now, s, C);
    StepsAre();
    MovesIs(e, now, At(4, 0), now[At(4, 0) := C]);
  }

  lemma Place4(e: Setting, now: Owners)
    requires Ours(e) && Stands(e, now, Place(C, B, C, C, D, 4, 4, 5, 7, 5))
    ensures var next := now[At(5, 0) := C];
            && e.start.Keys == now.Keys && Moves(e, now, At(5, 0), next)
            && Stands(e, next, Place(C, B, C, C, C, 4, 4, 6, 6, 5))
  {
    hide *;
    var s := Place(C, B, C, C, D, 4, 4, 5, 7, 5);
    StandsParts(e, now, s);
    Ready(e);
    UnevenBy(e, now, D, C, At(5, 0));
    LightestCDE(now, 5, 4, 4, 5, 7, 5);
    MoveSingle(e, now, 5, C);
    StandsMoved(e, now, s, C);
    StepsAre();
    MovesIs(e, now, At(5, 0), now[At(5, 0) := C]);
  }

  /** From here on the passes go in a circle: the first visit sends C's other partition home ... */
  lemma Place5(e: Setting, now: Owners)
    requires Ours(e) && Stands(e, now, Place(C, B, C, C, C, 4, 4, 6, 6, 5))
    ensures var next := now[At(2, 1) := A];
            && e.start.Keys == now.Keys && Moves(e, now, At(2, 0), next)
            && Stands(e, next, Place(C, A, C, C, C, 5, 3, 6, 6, 5))
  {
    hide *;
    var s := Place(C, B, C, C, C, 4, 4, 6, 6, 5);
    StandsParts(e, now, s);
    Ready(e);
    UnevenBy(e, now, C, A, At(2, 0));
    LightestABC(now, 4, 4, 6, 6, 5);
    MoveSibling(e, now, 0, A);
    StandsMoved(e, now, s, A);
    StepsAre();
    MovesIs(e, now, At(2, 0), now[At(2, 1) := A]);
  }

  /** ... and the second takes it back. */
  lemma Place6(e: Setting, now: Owners)
    requires Ours(e) && Stands(e, now, Place(C, A, C, C, C, 5, 3, 6, 6, 5))
    ensures var next := now[At(2, 1) := B];
            && e.start.Keys == now.Keys && Moves(e, now, At(2, 1), next)
            && Stands(e, next, Place(C, B, C, C, C, 4, 4, 6, 6, 5))
  {
    hide *;
    var s := Place(C, A, C, C, C, 5, 3, 6, 6, 5);
    StandsParts(e, now, s);
    Ready(e);
    UnevenBy(e, now, C, B, At(2, 0));
    LightestABC(now, 5, 3, 6, 6, 5);
    MovePair(e, now, 1, B);
    StandsMoved(e, now, s, B);
    StepsAre();
    MovesIs(e, now, At(2, 1), now[At(2, 1) := B]);
  }

  lemma MovesIs(e: Setting, now: Owners, p: TopicPartition, next: Owners)
    requires e.start.Keys == now.Keys && !Even(e, now) && Wanted(e.subs, now, p) && Visit(e, now, p) == next
    ensures Moves(e, now, p, next)
  {
  }

  /** What every visit needs to know. */
  lemma Ready(e: Setting)
    requires Ours(e)
    ensures Given(e.subs) && A in e.active && B in e.active && C in e.active && D in e.active
    ensures At(2, 0) in e.start && e.start[At(2, 0)] == B && At(2, 1) in e.start && e.start[At(2, 1)] == A
    ensures A != B && A != C && A != D && A != E && B != C && B != D && B != E && C != D && C != E && D != E
    ensures A != MemberId("") && B != MemberId("") && C != MemberId("") && D != MemberId("") && E != MemberId("")
    ensures e.subs.Allows(C, At(3, 0)) && e.subs.Allows(C, At(4, 0)) && e.subs.Allows(C, At(5, 0))
    ensures e.subs.Allows(A, At(2, 0)) && e.subs.Allows(B, At(2, 0))
  {
    hide *;
    OursParts(e);
    AllActive(e);
    StartOwners(e);
    Distinct();
    Named();
    MayOwn(e);
  }

  lemma StepsAre()
    ensures forall s: Place, x, y :: LoadsTo(s, x, y) == s.(a := s.a + Step(A, x, y), b := s.b + Step(B, x, y),
              c := s.c + Step(C, x, y), d := s.d + Step(D, x, y), e := s.e + Step(E, x, y))
    ensures forall m, x, y :: Step(m, x, y) == (if m == y then 1 else 0) - if m == x then 1 else 0
  {
  }

  lemma PassMoves(e: Setting, now: Owners, p: TopicPartition, rest: seq<TopicPartition>, next: Owners)
    requires e.start.Keys == now.Keys && Moves(e, now, p, next)
    ensures e.start.Keys == next.Keys
    ensures Pass(e, now, [p] + rest) == (Pass(e, next, rest).0, Pass(e, next, rest).1 + 1)
  {
    hide Even, Wanted, Visit, Pass;
    PassOn(e, now, p, rest);
  }

  lemma VisitedIs()
    ensures Visited() == [At(2, 0)] + ([At(2, 1)] + ([At(3, 0)] + ([At(4, 0)] + ([At(5, 0)] + []))))
    ensures Visited() == [At(2, 0)] + ([At(2, 1)] + [At(3, 0), At(4, 0), At(5, 0)])
  {
    hide At;
  }

  lemma PassNothing(e: Setting, now: Owners)
    requires e.start.Keys == now.Keys
    ensures Pass(e, now, []) == (now, 0)
  {
  }

  /** The first pass moves five partitions. */
  lemma FirstPass(e: Setting)
    requires Ours(e)
    ensures Stands(e, Pass(e, e.start, Visited()).0, Place(C, B, C, C, C, 4, 4, 6, 6, 5))
    ensures Pass(e, e.start, Visited()).1 == 5
  {
    hide *;
    OursParts(e);
    StandsAtStart(e);
    VisitedIs();
    var s0 := e.start;
    Place0(e, s0);
    var s1 := s0[At(2, 0) := C];
    PassMoves(e, s0, At(2, 0), [At(2, 1)] + ([At(3, 0)] + ([At(4, 0)] + ([At(5, 0)] + []))), s1);
    Place1(e, s1);
    var s2 := s1[At(2, 1) := B];
    PassMoves(e, s1, At(2, 1), [At(3, 0)] + ([At(4, 0)] + ([At(5, 0)] + [])), s2);
    Place2(e, s2);
    var s3 := s2[At(3, 0) := C];
    PassMoves(e, s2, At(3, 0), [At(4, 0)] + ([At(5, 0)] + []), s3);
    Place3(e, s3);
    var s4 := s3[At(4, 0) := C];
    PassMoves(e, s3, At(4, 0), [At(5, 0)] + [], s4);
    Place4(e, s4);
    var s5 := s4[At(5, 0) := C];
    PassMoves(e, s4, At(5, 0), [], s5);
    PassNothing(e, s5);
  }

  lemma StandsAtStart(e: Setting)
    requires Ours(e)
    ensures Stands(e, e.start, Place(B, A, D, E, D, 5, 4, 2, 8, 6))
  {
    hide Given, Contested, Loads, Sound;
    OursParts(e);
  }

  /** C has six and nobody who may own its partitions of topics D, E and F has fewer than five. */
  lemma RestIdle(e: Setting, now: Owners)
    requires Ours(e) && Stands(e, now, Place(C, B, C, C, C, 4, 4, 6, 6, 5))
    ensures e.start.Keys == now.Keys && Pass(e, now, [At(3, 0), At(4, 0), At(5, 0)]) == (now, 0)
  {
    hide *;
    StandsParts(e, now, Place(C, B, C, C, C, 4, 4, 6, 6, 5));
    Ready(e);
    Sizes();
    Whose();
    forall k | k == 3 || k == 4 || k == 5 ensures !Wanted(e.subs, now, At(k, 0)) {
      AllowanceAt(e.subs, k, 0);
      NotWantedAt(e, now, k);
    }
    PassIdle(e, now, [At(3, 0), At(4, 0), At(5, 0)]);
  }

  lemma NotWantedAt(e: Setting, now: Owners, k: nat)
    requires k <= 16 && OnlyThese(e.subs, At(k, 0), {C, D, E}) && At(k, 0) in now && now[At(k, 0)] == C
    requires Count(now, C) == 6 && Count(now, D) == 6 && Count(now, E) == 5
    ensures !Wanted(e.subs, now, At(k, 0))
  {
    hide Count, At;
  }

  /** Every later pass moves two partitions and ends where it began. */
  lemma LaterPass(e: Setting, now: Owners)
    requires Ours(e) && Stands(e, now, Place(C, B, C, C, C, 4, 4, 6, 6, 5))
    ensures e.start.Keys == now.Keys && Pass(e, now, Visited()) == (now, 2)
  {
    hide *;
    var rest := [At(3, 0), At(4, 0), At(5, 0)];
    VisitedIs();
    StandsParts(e, now, Place(C, B, C, C, C, 4, 4, 6, 6, 5));
    Place5(e, now);
    var away := now[At(2, 1) := A];
    PassMoves(e, now, At(2, 0), [At(2, 1)] + rest, away);
    Place6(e, away);
    assert away[At(2, 1) := B] == now;
    PassMoves(e, away, At(2, 1), rest, now);
    RestIdle(e, now);
  }

  lemma {:induction false} EveryPassMoves(e: Setting, k: nat)
    requires Ours(e)
    ensures MovesAt(e, e.start, k) > 0
    ensures k > 0 ==> Stands(e, After(e, e.start, k), Place(C, B, C, C, C, 4, 4, 6, 6, 5))
  {
    hide Ours, Stands, Pass, Visited;
    OrderIs(e);
    FirstPass(e);
    if k > 0 {
      EveryPassMoves(e, k - 1);
      if k > 1 {
        LaterPass(e, After(e, e.start, k - 1));
      }
      LaterPass(e, After(e, e.start, k));
    }
  }

  /** The first visit of every later pass makes the balance score worse: it moves a partition from b to
      a, both with load four and nobody else with that load. */
  lemma LaterVisitRaisesScore(e: Setting, now: Owners)
    requires Ours(e) && Stands(e, now, Place(C, B, C, C, C, 4, 4, 6, 6, 5))
    ensures e.start.Keys == now.Keys && ScoreOf(e, Visit(e, now, At(2, 0))) == ScoreOf(e, now) + 4
  {
    hide *;
    StandsParts(e, now, Place(C, B, C, C, C, 4, 4, 6, 6, 5));
    Ready(e);
    Place5(e, now);
    MovesVisit(e, now, At(2, 0), now[At(2, 1) := A]);
    EqualMoveScore(e, now, At(2, 1), A);
    forall m | m in AsHeavy(e, now, B, A) ensures false {
      HeavyParts(e, now, B, A, m);
      ActiveNamed(e, m);
    }
    assert AsHeavy(e, now, B, A) == {};
  }

  lemma MovesVisit(e: Setting, now: Owners, p: TopicPartition, next: Owners)
    requires e.start.Keys == now.Keys && Moves(e, now, p, next)
    ensures Visit(e, now, p) == next
  {
  }

  lemma HeavyParts(e: Setting, now: Owners, giver: MemberId, taker: MemberId, m: MemberId)
    requires m in AsHeavy(e, now, giver, taker)
    ensures m in e.active && m != giver && m != taker && Count(now, m) == Count(now, giver)
  {
  }

  lemma ActiveNamed(e: Setting, m: MemberId)
    requires Ours(e) && m in e.active
    ensures m == A || m == B || m == C || m == D || m == E
  {
    assert m in MEMBERS;
  }

  /** In a plan for this input the first reassignment of every pass after the first raises the score. */
  lemma EveryPassRaisesScore(subs: Subscriptions, k: nat)
    requires Reads(subs, MEMBERS, TOPICS) && k > 0
    ensures var e := Opening(subs);
            var now := After(e, e.start, k);
            && e.start.Keys == now.Keys && e.order != []
            && ScoreOf(e, Visit(e, now, e.order[0])) == ScoreOf(e, now) + 4
  {
    var e := Opening(subs);
    hide FirstOwners, MovesAt, Active, Visit, ScoreOf, Stands;
    assert Given(subs) && Ours(e);
    EveryPassMoves(e, k);
    OrderIs(e);
    LaterVisitRaisesScore(e, After(e, e.start, k));
  }

  /** However many passes are allowed, a plan for this input never settles. */
  lemma NeverSettles(subs: Subscriptions, n: nat)
    requires Reads(subs, MEMBERS, TOPICS)
    ensures !PlanSettles(subs, n)
  {
    var e := Opening(subs);
    hide FirstOwners, MovesAt, Active;
    assert Given(subs) && Ours(e);
    forall k | 0 <= k < n ensures MovesAt(e, e.start, k) > 0 {
      EveryPassMoves(e, k);
    }
  }

  lemma MembersListOnce()
    ensures forall m :: m in MEMBERS ==> NoDup(MEMBERS[m])
  {
  }

  lemma TopicsListOnce()
    ensures forall t :: t in TOPICS ==> NoDup(TOPICS[t])
  {
  }

  lemma InputWellFormed()
    ensures WellFormed(MEMBERS, TOPICS)
  {
    hide MEMBERS, TOPICS, NoDup;
    MembersListOnce();
    TopicsListOnce();
  }
}
