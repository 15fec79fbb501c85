/** Assignment plans: for each member, for each topic, a list of partitions. */
module Plans {
  import opened Order
  import opened Movements

  type Plan = map<MemberId, map<string, seq<int>>>
  type Topics = map<string, seq<int>>
  type Members = map<MemberId, seq<string>>

  /** plan[member][topic] as operator[] reads it. */
  function Listed(plan: Plan, m: MemberId, topic: string): seq<int> {
    if m in plan && topic in plan[m] then plan[m][topic] else []
  }

  function AddToPlan(plan: Plan, m: MemberId, topic: string, partitions: seq<int>): (r: Plan)
    ensures forall n, t :: Listed(r, n, t) == Listed(plan, n, t) + if n == m && t == topic then partitions else []
    ensures r.Keys == plan.Keys + if partitions == [] then {} else {m}
  {
    if partitions == [] then
      assert forall n, t :: Listed(plan, n, t) == Listed(plan, n, t) + [];
      plan
    else
      var topics := if m in plan then plan[m] else map[];
      plan[m := topics[topic := Listed(plan, m, topic) + partitions]]
  }

  predicate Known(topics: Topics, p: TopicPartition) {
    p.topic in topics && p.partition in topics[p.topic]
  }

  predicate Subscribed(members: Members, m: MemberId, topic: string) {
    m in members && topic in members[m]
  }

  function Subscribers(members: Members, topic: string): set<MemberId> {
    set m | m in members && topic in members[m]
  }

  /** The plan gives p to m. */
  predicate Gives(plan: Plan, m: MemberId, p: TopicPartition) {
    p.partition in Listed(plan, m, p.topic)
  }

  /** Every known partition with a subscriber goes to exactly one member, once, and that member
      subscribes to its topic; nothing else is given out. */
  ghost predicate ExactlyOnce(plan: Plan, members: Members, topics: Topics) {
    && (forall m, p :: Gives(plan, m, p) ==> Known(topics, p) && Subscribed(members, m, p.topic))
    && (forall m, n, p :: Gives(plan, m, p) && Gives(plan, n, p) ==> m == n)
    && (forall m, p :: Known(topics, p) && Subscribed(members, m, p.topic) ==> exists n :: Gives(plan, n, p))
    && (forall m, t :: NoDup(Listed(plan, m, t)))
  }
}
