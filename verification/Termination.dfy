/** For which inputs the sticky assignor's loop of passes ends, in terms of the input. */
module Termination {
  import opened Order
  import opened Movements
  import opened Assignment
  import opened Plans
  import opened Subscribing
  import opened Passes
  import opened Settling
  import opened Endless

  /** Every topic with more than s subscribers has at most k partitions. */
  ghost predicate Limited(members: Members, topics: Topics, s: nat, k: nat) {
    forall t :: t in topics && |Subscribers(members, t)| > s ==> |topics[t]| <= k
  }

  lemma ConsumersAreSubscribers(subs: Subscriptions, members: Members, topics: Topics, p: TopicPartition)
    requires Reads(subs, members, topics) && p in subs.ofPartition
    ensures Elems(subs.ofPartition[p]) == Subscribers(members, p.topic)
  {
    forall m ensures m in Elems(subs.ofPartition[p]) <==> m in Subscribers(members, p.topic) {
      assert subs.Allows(m, p) <==> Subscribed(members, m, p.topic);
    }
  }

  lemma TwoOrMore(s: seq<int>, i: int, j: int)
    requires i in s && j in s && i != j
    ensures |s| > 1
  {
  }

  lemma LimitedIsNarrow(subs: Subscriptions, members: Members, topics: Topics)
    requires Reads(subs, members, topics) && Limited(members, topics, 2, 1)
    ensures Narrow(subs)
  {
    hide Subscribers;
    forall p, q | p in subs.ofPartition && q in subs.ofPartition && p != q && p.topic == q.topic
      ensures |Elems(subs.ofPartition[p])| <= 2
    {
      TwoOrMore(topics[p.topic], p.partition, q.partition);
      ConsumersAreSubscribers(subs, members, topics, p);
    }
  }

  /** When every topic with three or more subscribers has at most one partition, the loop ends, within
      half the square of the number of partitions. */
  lemma LimitedSettles(subs: Subscriptions, members: Members, topics: Topics, n: nat)
    requires Reads(subs, members, topics) && Limited(members, topics, 2, 1) && 2 * n > Square(|subs.ofPartition|)
    ensures PlanSettles(subs, n)
  {
    LimitedIsNarrow(subs, members, topics);
    hide Narrow, Limited;
    NarrowPlanSettles(subs, n);
  }

  /** No topic of the input that never settles has more than three subscribers or two partitions. */
  lemma EndlessIsLimited(s: nat, k: nat)
    requires s >= 3 || k >= 2
    ensures Limited(MEMBERS, TOPICS, s, k)
  {
    forall t | t in TOPICS ensures |Subscribers(MEMBERS, t)| <= s || |TOPICS[t]| <= k {
      var i := LetterOf(t);
      SubscribersOf(i);
      WhoSize(i);
      PartitionsOfLetter(i);
    }
  }

  lemma LetterOf(t: string) returns (k: nat)
    requires t in TOPICS
    ensures k < 16 && t == Topic(k)
  {
    k := t[0] as int - 65;
  }

  lemma SubscribersOf(k: nat)
    requires k < 16
    ensures Subscribers(MEMBERS, Topic(k)) == Who(k)
  {
    forall m ensures m in Subscribers(MEMBERS, Topic(k)) <==> m in Who(k) {
      Subscriber(k, m);
    }
  }

  lemma PartitionsOfLetter(k: nat)
    requires k < 16
    ensures Topic(k) in TOPICS && |TOPICS[Topic(k)]| == Size(k)
  {
    assert k == 0 || k == 1 || k == 2 || k == 3 || k == 4 || k == 5 || k == 6 || k == 7 ||
           k == 8 || k == 9 || k == 10 || k == 11 || k == 12 || k == 13 || k == 14 || k == 15;
  }

  // ---------------------------------------------------------------- every input has its two maps

  function KnownPartitions(topics: Topics): set<TopicPartition> {
    set t, i | t in topics && i in topics[t] :: TopicPartition(t, i)
  }

  function MapsOf(members: Members, topics: Topics): Subscriptions {
    Subscriptions(
      map m | m in members :: SortedPartitions(set p | p in KnownPartitions(topics) && p.topic in members[m]),
      map p | p in KnownPartitions(topics) :: SortedIds(Subscribers(members, p.topic)))
  }

  lemma KnownAre(topics: Topics, p: TopicPartition)
    ensures p in KnownPartitions(topics) <==> Known(topics, p)
  {
  }

  lemma MapsAllow(members: Members, topics: Topics, m: MemberId, p: TopicPartition)
    ensures MapsOf(members, topics).Allows(m, p) <==> Known(topics, p) && Subscribed(members, m, p.topic)
    ensures m in members ==> (p in MapsOf(members, topics).ofMember[m] <==> Known(topics, p) && p.topic in members[m])
  {
    KnownAre(topics, p);
    hide Known, KnownPartitions;
  }

  lemma MapsLists(members: Members, topics: Topics)
    ensures var subs := MapsOf(members, topics);
            && subs.ofMember.Keys == members.Keys && subs.ofPartition.Keys == KnownPartitions(topics)
            && (forall m :: m in subs.ofMember ==> NoDup(subs.ofMember[m]))
            && (forall p :: p in subs.ofPartition ==> NoDup(subs.ofPartition[p]))
  {
    hide NoDup, KnownPartitions;
  }

  lemma MapsRead(members: Members, topics: Topics)
    ensures Reads(MapsOf(members, topics), members, topics)
  {
    var subs := MapsOf(members, topics);
    MapsLists(members, topics);
    hide MapsOf, KnownPartitions, NoDup, Known, Subscribed;
    forall p ensures p in subs.ofPartition <==> Known(topics, p) {
      KnownAre(topics, p);
    }
    forall m, p ensures subs.Allows(m, p) <==> Known(topics, p) && Subscribed(members, m, p.topic) {
      MapsAllow(members, topics, m, p);
    }
    ValidMaps(subs, members, topics);
  }

  lemma ValidMaps(subs: Subscriptions, members: Members, topics: Topics)
    requires subs == MapsOf(members, topics)
    ensures subs.Valid()
  {
    MapsLists(members, topics);
    hide MapsOf, KnownPartitions, NoDup, Known;
    forall m, p
      ensures m in subs.ofMember && p in subs.ofMember[m] <==> p in subs.ofPartition && m in subs.ofPartition[p]
    {
      MapsAllow(members, topics, m, p);
    }
  }

  // ---------------------------------------------------------------- the exact limits

  /** Every input within the limits settles. */
  ghost predicate AlwaysSettles(s: nat, k: nat) {
    forall members, topics, subs ::
      Limited(members, topics, s, k) && Reads(subs, members, topics) ==> Ends(subs)
  }

  ghost predicate Ends(subs: Subscriptions) {
    exists n :: PlanSettles(subs, n)
  }

  /** Limits on the shape of topics guarantee an end exactly when they allow no topic with three
      subscribers and two partitions. */
  lemma LimitsThatSettle(s: nat, k: nat)
    ensures AlwaysSettles(s, k) <==> s <= 2 && k <= 1
  {
    hide Reads, PlanSettles, Subscribers;
    if s <= 2 && k <= 1 {
      forall members, topics, subs |
        Limited(members, topics, s, k) && Reads(subs, members, topics)
        ensures Ends(subs)
      {
        LimitedSettles(subs, members, topics, Square(|subs.ofPartition|) + 1);
      }
    } else {
      EndlessIsLimited(s, k);
      MapsRead(MEMBERS, TOPICS);
      var subs := MapsOf(MEMBERS, TOPICS);
      forall n ensures !PlanSettles(subs, n) {
        NeverSettles(subs, n);
      }
      assert !Ends(subs);
    }
  }

  // ---------------------------------------------------------------- identical subscriptions

  /** Every two members subscribe to the same known topics. */
  ghost predicate SameTopics(members: Members, topics: Topics) {
    forall m, n, t :: m in members && n in members && t in topics && t in members[m] ==> t in members[n]
  }

  lemma SameTopicsAlike(subs: Subscriptions, members: Members, topics: Topics)
    requires Reads(subs, members, topics) && SameTopics(members, topics)
    ensures Alike(subs)
  {
    forall m, n, p | m in subs.ofMember && n in subs.ofMember && subs.Allows(m, p) ensures subs.Allows(n, p) {
      assert n in members && Known(topics, p) && Subscribed(members, m, p.topic);
    }
  }
}
