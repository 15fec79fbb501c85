/** How a sticky Plan reads the members' topic lists into the two potential-ownership maps, and how
    it writes the final assignment out. */
module Subscribing {
  import opened Order
  import opened Movements
  import opened Assignment
  import opened Plans

  /** No member lists a topic twice and no topic lists a partition twice. */
  ghost predicate WellFormed(members: Members, topics: Topics) {
    && (forall m :: m in members ==> NoDup(members[m]))
    && (forall t :: t in topics ==> NoDup(topics[t]))
  }

  /** The maps allow exactly the known partitions of subscribed topics. A topic or partition listed twice
      is entered twice; in a well-formed input nobody is. */
  ghost predicate Reads(subs: Subscriptions, members: Members, topics: Topics) {
    && subs.Valid()
    && subs.ofMember.Keys == members.Keys
    && (forall p :: p in subs.ofPartition <==> Known(topics, p))
    && (forall m, p :: subs.Allows(m, p) <==> Known(topics, p) && Subscribed(members, m, p.topic))
    && (WellFormed(members, topics) ==> forall p :: p in subs.ofPartition ==> NoDup(subs.ofPartition[p]))
  }

  /** The known partitions of one topic, in the order listed. */
  function PartitionsOf(topics: Topics, topic: string): (r: seq<TopicPartition>)
    ensures forall p :: p in r <==> p.topic == topic && Known(topics, p)
    ensures topic in topics && NoDup(topics[topic]) ==> NoDup(r)
  {
    if topic !in topics then []
    else
      var listed := topics[topic];
      var r := seq(|listed|, i requires 0 <= i < |listed| => TopicPartition(topic, listed[i]));
      assert forall p: TopicPartition :: p.topic == topic && Known(topics, p) ==> p in r by {
        forall p: TopicPartition | p.topic == topic && Known(topics, p) ensures p in r {
          var k :| 0 <= k < |listed| && listed[k] == p.partition;
          assert r[k] == p;
        }
      }
      r
  }

  /** Enters every known partition with no consumers yet. */
  method AllPartitions(topics: Topics) returns (r: map<TopicPartition, seq<MemberId>>)
    ensures forall p :: p in r <==> Known(topics, p)
    ensures forall p :: p in r ==> r[p] == []
  {
    hide *;
    var names := SortedStrings(topics.Keys);
    r := map[];
    NoneEntered(topics);
    for i := 0 to |names|
      invariant EnteredEmpty(r, topics, names[..i])
    {
      var after := EnterEmpty(r, PartitionsOf(topics, names[i]));
      EnteredStep(r, after, topics, names, i);
      r := after;
    }
    assert names[..|names|] == names;
    AllEntered(r, topics, names);
  }

  /** The table holds, empty, the known partitions of the topics in `done`. */
  ghost predicate EnteredEmpty(r: map<TopicPartition, seq<MemberId>>, topics: Topics, done: seq<string>) {
    && (forall p :: p in r <==> Known(topics, p) && p.topic in done)
    && (forall p :: p in r ==> r[p] == [])
  }

  lemma NoneEntered(topics: Topics)
    ensures EnteredEmpty(map[], topics, [])
  {
  }

  lemma EnteredStep(r: map<TopicPartition, seq<MemberId>>, after: map<TopicPartition, seq<MemberId>>, topics: Topics,
                    names: seq<string>, i: nat)
    requires i < |names| && EnteredEmpty(r, topics, names[..i])
    requires forall p :: p in after <==> p in r || p in PartitionsOf(topics, names[i])
    requires forall p :: p in after ==> after[p] == if p in PartitionsOf(topics, names[i]) then [] else r[p]
    ensures EnteredEmpty(after, topics, names[..i + 1])
  {
    assert names[..i + 1] == names[..i] + [names[i]];
    hide Known, PartitionsOf;
  }

  lemma AllEntered(r: map<TopicPartition, seq<MemberId>>, topics: Topics, names: seq<string>)
    requires EnteredEmpty(r, topics, names) && forall t :: t in names <==> t in topics
    ensures forall p :: p in r <==> Known(topics, p)
    ensures forall p :: p in r ==> r[p] == []
  {
  }

  method EnterEmpty(table: map<TopicPartition, seq<MemberId>>, added: seq<TopicPartition>)
    returns (r: map<TopicPartition, seq<MemberId>>)
    ensures forall p :: p in r <==> p in table || p in added
    ensures forall p :: p in r ==> r[p] == if p in added then [] else table[p]
  {
    r := table;
    for j := 0 to |added|
      invariant forall p :: p in r <==> p in table || p in added[..j]
      invariant forall p :: p in r ==> r[p] == if p in added[..j] then [] else table[p]
    {
      assert added[..j + 1] == added[..j] + [added[j]];
      r := r[added[j] := []];
    }
    assert added[..|added|] == added;
  }

  /** Reads one member's topics: lists what it may own and enters it with each of those partitions, once
      for every time they are listed. */
  method AddMember(table: map<TopicPartition, seq<MemberId>>, m: MemberId, memberTopics: seq<string>, topics: Topics)
    returns (list: seq<TopicPartition>, after: map<TopicPartition, seq<MemberId>>)
    requires forall p :: p in table <==> Known(topics, p)
    ensures forall p :: p in list <==> Known(topics, p) && p.topic in memberTopics
    ensures Entered(table, after, m, list)
    ensures NoDup(memberTopics) && (forall t :: t in topics ==> NoDup(topics[t])) ==> EnteredOnce(table, after, m, list)
  {
    list, after := [], table;
    ghost var clean := NoDup(memberTopics) && forall t :: t in topics ==> NoDup(topics[t]);
    for i := 0 to |memberTopics|
      invariant forall p :: p in list <==> Known(topics, p) && p.topic in memberTopics[..i]
      invariant Entered(table, after, m, list)
      invariant clean ==> EnteredOnce(table, after, m, list)
    {
      assert memberTopics[..i + 1] == memberTopics[..i] + [memberTopics[i]];
      hide NoDup, Entered, EnteredOnce;
      var added := PartitionsOf(topics, memberTopics[i]);
      assert forall p :: p in added ==> p in table;
      EnteredKeys(table, after, m, list);
      var next := EnterAll(after, added, m);
      EnteredMore(table, after, next, m, list, added);
      if clean {
        NotYet(memberTopics, i);
        EnteredOnceMore(table, after, next, m, list, added);
      }
      list, after := list + added, next;
    }
    assert memberTopics[..|memberTopics|] == memberTopics;
  }

  /** Exactly m has joined the entries of the listed partitions. */
  ghost predicate Entered(table: map<TopicPartition, seq<MemberId>>, after: map<TopicPartition, seq<MemberId>>,
                          m: MemberId, list: seq<TopicPartition>) {
    && after.Keys == table.Keys
    && forall p, n :: p in table ==> (n in after[p] <==> n in table[p] || (n == m && p in list))
  }

  /** Without repetitions: m has been appended once. */
  ghost predicate EnteredOnce(table: map<TopicPartition, seq<MemberId>>, after: map<TopicPartition, seq<MemberId>>,
                              m: MemberId, list: seq<TopicPartition>) {
    && after.Keys == table.Keys
    && forall p :: p in table ==> after[p] == if p in list then table[p] + [m] else table[p]
  }

  lemma EnteredKeys(table: map<TopicPartition, seq<MemberId>>, after: map<TopicPartition, seq<MemberId>>,
                    m: MemberId, list: seq<TopicPartition>)
    requires Entered(table, after, m, list)
    ensures after.Keys == table.Keys
  {
  }

  lemma EnteredMore(table: map<TopicPartition, seq<MemberId>>, after: map<TopicPartition, seq<MemberId>>,
                    next: map<TopicPartition, seq<MemberId>>, m: MemberId, list: seq<TopicPartition>,
                    added: seq<TopicPartition>)
    requires Entered(table, after, m, list) && Entered(after, next, m, added)
    ensures Entered(table, next, m, list + added)
  {
  }

  lemma EnteredOnceMore(table: map<TopicPartition, seq<MemberId>>, after: map<TopicPartition, seq<MemberId>>,
                        next: map<TopicPartition, seq<MemberId>>, m: MemberId, list: seq<TopicPartition>,
                        added: seq<TopicPartition>)
    requires EnteredOnce(table, after, m, list) && EnteredOnce(after, next, m, added)
    requires forall p :: p in added ==> p !in list
    ensures EnteredOnce(table, next, m, list + added)
  {
  }

  lemma OthersDiffer<T>(s: seq<T>, i: nat)
    requires i < |s| && NoDup(s)
    ensures forall k :: 0 <= k < |s| && k != i ==> s[k] != s[i]
  {
  }

  lemma NotYet<T>(s: seq<T>, i: nat)
    requires i < |s| && NoDup(s)
    ensures s[i] !in s[..i]
  {
  }

  /** Appends the member to the entry of each of a topic's partitions. */
  method EnterAll(table: map<TopicPartition, seq<MemberId>>, added: seq<TopicPartition>, m: MemberId)
    returns (after: map<TopicPartition, seq<MemberId>>)
    requires forall p :: p in added ==> p in table
    ensures Entered(table, after, m, added)
    ensures NoDup(added) ==> EnteredOnce(table, after, m, added)
  {
    after := table;
    for j := 0 to |added|
      invariant Entered(table, after, m, added[..j])
      invariant NoDup(added) ==> EnteredOnce(table, after, m, added[..j])
    {
      assert added[..j + 1] == added[..j] + [added[j]];
      assert added[j] in added;
      if NoDup(added) {
        NotYet(added, j);
      }
      after := after[added[j] := after[added[j]] + [m]];
    }
    assert added[..|added|] == added;
  }

  lemma NoDupAppend<T>(s: seq<T>, x: T)
    requires NoDup(s) && x !in s
    ensures NoDup(s + [x])
  {
    assert forall k :: 0 <= k < |s| ==> s[k] in s;
  }

  /** One entry of the table is in step with the lists of the members read so far. */
  ghost predicate Tabled(lists: Assignments, p: TopicPartition, consumers: seq<MemberId>) {
    forall m :: m in consumers <==> m in lists && p in lists[m]
  }

  /** The lists and the table after some members have been read. */
  ghost predicate ReadSoFar(subs: Subscriptions, members: Members, topics: Topics) {
    && (forall p :: p in subs.ofPartition <==> Known(topics, p))
    && (forall m :: m in subs.ofMember ==> m in members)
    && (forall m, p :: m in subs.ofMember ==> (p in subs.ofMember[m] <==> Known(topics, p) && p.topic in members[m]))
    && (forall p :: p in subs.ofPartition ==> Tabled(subs.ofMember, p, subs.ofPartition[p]))
    && (WellFormed(members, topics) ==> forall p :: p in subs.ofPartition ==> NoDup(subs.ofPartition[p]))
  }

  lemma ReadStart(table: map<TopicPartition, seq<MemberId>>, members: Members, topics: Topics)
    requires forall p :: p in table <==> Known(topics, p)
    requires forall p :: p in table ==> table[p] == []
    ensures ReadSoFar(Subscriptions(map[], table), members, topics)
  {
  }

  lemma TableKeys(subs: Subscriptions, members: Members, topics: Topics)
    requires ReadSoFar(subs, members, topics)
    ensures forall p :: p in subs.ofPartition <==> Known(topics, p)
  {
  }

  lemma ReadStep(subs: Subscriptions, after: Subscriptions, members: Members, topics: Topics, m: MemberId)
    requires ReadSoFar(subs, members, topics) && m in members && m !in subs.ofMember
    requires m in after.ofMember && after.ofMember == subs.ofMember[m := after.ofMember[m]]
    requires forall p :: p in after.ofMember[m] <==> Known(topics, p) && p.topic in members[m]
    requires Entered(subs.ofPartition, after.ofPartition, m, after.ofMember[m])
    requires WellFormed(members, topics) ==> EnteredOnce(subs.ofPartition, after.ofPartition, m, after.ofMember[m])
    ensures ReadSoFar(after, members, topics)
  {
    hide NoDup, Known;
    if WellFormed(members, topics) {
      forall p | p in after.ofPartition ensures NoDup(after.ofPartition[p]) {
        assert Tabled(subs.ofMember, p, subs.ofPartition[p]);
        if p in after.ofMember[m] {
          NoDupAppend(subs.ofPartition[p], m);
        }
      }
    }
  }

  lemma AllRead(subs: Subscriptions, members: Members, topics: Topics)
    requires ReadSoFar(subs, members, topics) && subs.ofMember.Keys == members.Keys
    ensures Reads(subs, members, topics)
  {
    hide WellFormed, NoDup;
  }

  method BuildSubscriptions(members: Members, topics: Topics) returns (subs: Subscriptions)
    ensures Reads(subs, members, topics)
  {
    hide ReadSoFar, Reads, NoDup, Entered, EnteredOnce;
    var table := AllPartitions(topics);
    var ids := SortedIds(members.Keys);
    subs := Subscriptions(map[], table);
    ReadStart(table, members, topics);
    for i := 0 to |ids|
      invariant ReadSoFar(subs, members, topics) && subs.ofMember.Keys <= members.Keys
      invariant forall k :: 0 <= k < |ids| ==> (ids[k] in subs.ofMember <==> k < i)
    {
      TableKeys(subs, members, topics);
      var list, after := AddMember(subs.ofPartition, ids[i], members[ids[i]], topics);
      var next := Subscriptions(subs.ofMember[ids[i] := list], after);
      ReadStep(subs, next, members, topics, ids[i]);
      OthersDiffer(ids, i);
      subs := next;
    }
    assert subs.ofMember.Keys == members.Keys;
    AllRead(subs, members, topics);
  }

  // ------------------------------------------------------------------ writing the plan

  /** The plan lists, for every member, exactly the partitions assigned to it. */
  ghost predicate Writes(plan: Plan, current: Assignments) {
    && plan.Keys == current.Keys
    && (forall m, p :: Gives(plan, m, p) <==> m in current && p in current[m])
    && (forall m, t :: NoDup(Listed(plan, m, t)))
  }

  function Numbers(s: seq<TopicPartition>, topic: string): (r: seq<int>)
    ensures forall i :: i in r <==> TopicPartition(topic, i) in s
    ensures NoDup(s) ==> NoDup(r)
  {
    if s == [] then []
    else
      var n := |s| - 1;
      assert s == s[..n] + [s[n]];
      var rest := Numbers(s[..n], topic);
      if s[n].topic == topic then
        assert NoDup(s) ==> s[n].partition !in rest;
        assert NoDup(s) ==> NoDup(rest + [s[n].partition]) by { if NoDup(s) { NoDupAppend(rest, s[n].partition); } }
        rest + [s[n].partition]
      else rest
  }

  method WriteMember(plan: Plan, m: MemberId, list: seq<TopicPartition>) returns (r: Plan)
    requires m !in plan
    ensures r.Keys == plan.Keys + {m}
    ensures forall n, t :: Listed(r, n, t) == if n == m then Numbers(list, t) else Listed(plan, n, t)
  {
    if list == [] {
      r := plan[m := map[]];
      return;
    }
    r := plan;
    for j := 0 to |list|
      invariant r.Keys == plan.Keys + if j == 0 then {} else {m}
      invariant forall n, t :: Listed(r, n, t) == if n == m then Numbers(list[..j], t) else Listed(plan, n, t)
    {
      assert list[..j + 1][..j] == list[..j];
      r := AddToPlan(r, m, list[j].topic, [list[j].partition]);
    }
    assert list[..|list|] == list;
  }

  /** The plan after some members have been written. */
  ghost predicate WrittenSoFar(plan: Plan, current: Assignments) {
    plan.Keys <= current.Keys && forall m, t :: Listed(plan, m, t) == if m in plan then Numbers(current[m], t) else []
  }

  lemma WrittenStep(plan: Plan, after: Plan, current: Assignments, m: MemberId)
    requires WrittenSoFar(plan, current) && m in current && m !in plan && after.Keys == plan.Keys + {m}
    requires forall n, t :: Listed(after, n, t) == if n == m then Numbers(current[m], t) else Listed(plan, n, t)
    ensures WrittenSoFar(after, current)
  {
  }

  lemma AllWritten(plan: Plan, current: Assignments)
    requires WrittenSoFar(plan, current) && plan.Keys == current.Keys
    requires forall m :: m in current ==> NoDup(current[m])
    ensures Writes(plan, current)
  {
    hide Numbers, Listed;
    forall m, p ensures Gives(plan, m, p) <==> m in current && p in current[m] {
      assert Listed(plan, m, p.topic) == if m in plan then Numbers(current[m], p.topic) else [];
    }
  }

  method WritePlan(current: Assignments) returns (plan: Plan)
    requires forall m :: m in current ==> NoDup(current[m])
    ensures Writes(plan, current)
  {
    var ids := SortedIds(current.Keys);
    plan := map[];
    for i := 0 to |ids|
      invariant WrittenSoFar(plan, current)
      invariant forall k :: 0 <= k < |ids| ==> (ids[k] in plan <==> k < i)
      invariant plan.Keys <= current.Keys
    {
      hide *;
      OthersDiffer(ids, i);
      var after := WriteMember(plan, ids[i], current[ids[i]]);
      WrittenStep(plan, after, current, ids[i]);
      plan := after;
    }
    assert plan.Keys == current.Keys;
    AllWritten(plan, current);
  }

  /** Reading, assigning completely and writing make an exactly-once plan. */
  lemma WrittenExactlyOnce(plan: Plan, current: Assignments, owner: Owners, subs: Subscriptions, members: Members,
                           topics: Topics)
    requires Reads(subs, members, topics) && Writes(plan, current)
    requires Agree(subs, current, owner) && Complete(subs, owner) && current.Keys == subs.ofMember.Keys
    ensures ExactlyOnce(plan, members, topics) && plan.Keys == members.Keys
  {
    forall m, p | Known(topics, p) && Subscribed(members, m, p.topic) ensures exists n :: Gives(plan, n, p) {
      assert subs.Allows(m, p) && p in owner;
      assert subs.Allows(owner[p], p);
      assert Gives(plan, owner[p], p);
    }
    forall m, p | Gives(plan, m, p) ensures Known(topics, p) && Subscribed(members, m, p.topic) {
      assert p in owner && owner[p] == m;
      assert subs.Allows(m, p);
    }
  }
}
