/** The range assignor: each topic's partitions are cut into consecutive slices, one per subscriber. */
module Range {
  import opened Order
  import opened Movements
  import opened Plans

  function Min(a: nat, b: nat): nat { if a < b then a else b }

  /** Where the slice of the i-th of n members starts. */
  function Cut(total: nat, n: nat, i: nat): nat
    requires n > 0
  {
    i * (total / n) + Min(total % n, i)
  }

  lemma CutStep(total: nat, n: nat, i: nat)
    requires n > 0
    ensures Cut(total, n, i + 1) == Cut(total, n, i) + total / n + if i < total % n then 1 else 0
  {
    assert (i + 1) * (total / n) == i * (total / n) + total / n;
  }

  lemma CutEnds(total: nat, n: nat)
    requires n > 0
    ensures Cut(total, n, 0) == 0 && Cut(total, n, n) == total
  {
    assert n * (total / n) + total % n == total;
  }

  lemma {:induction false} CutMonotone(total: nat, n: nat, i: nat, j: nat)
    requires n > 0 && i <= j
    ensures Cut(total, n, i) <= Cut(total, n, j)
    decreases j - i
  {
    if i < j {
      CutStep(total, n, j - 1);
      CutMonotone(total, n, i, j - 1);
    }
  }

  /** The members' lists for one topic, in member order, put end to end. */
  function Concat(plan: Plan, ids: seq<MemberId>, topic: string): seq<int> {
    if ids == [] then []
    else Concat(plan, ids[..|ids| - 1], topic) + Listed(plan, ids[|ids| - 1], topic)
  }

  /** The i-th member holds the i-th slice. */
  ghost predicate SliceAt(plan: Plan, ids: seq<MemberId>, topic: string, partitions: seq<int>, i: nat)
    requires i < |ids|
  {
    var from, to := Cut(|partitions|, |ids|, i), Cut(|partitions|, |ids|, i + 1);
    from <= to <= |partitions| && Listed(plan, ids[i], topic) == partitions[from..to]
  }

  /** The first k slices are placed and nothing else of the topic is. */
  ghost predicate Sliced(plan: Plan, ids: seq<MemberId>, topic: string, partitions: seq<int>, k: nat)
    requires ids != [] && k <= |ids|
  {
    && (forall i :: 0 <= i < k ==> SliceAt(plan, ids, topic, partitions, i))
    && (forall m :: m !in ids[..k] ==> Listed(plan, m, topic) == [])
  }

  lemma SliceStep(plan: Plan, after: Plan, ids: seq<MemberId>, topic: string, partitions: seq<int>, k: nat)
    requires NoDup(ids) && k < |ids| && Sliced(plan, ids, topic, partitions, k)
    requires Cut(|partitions|, |ids|, k) <= Cut(|partitions|, |ids|, k + 1) <= |partitions|
    requires forall m :: m != ids[k] ==> Listed(after, m, topic) == Listed(plan, m, topic)
    requires Listed(after, ids[k], topic) == Listed(plan, ids[k], topic)
                                             + partitions[Cut(|partitions|, |ids|, k)..Cut(|partitions|, |ids|, k + 1)]
    ensures Sliced(after, ids, topic, partitions, k + 1)
  {
    hide Cut, Listed;
    assert ids[k] !in ids[..k];
    assert ids[..k + 1] == ids[..k] + [ids[k]];
    forall i | 0 <= i < k + 1 ensures SliceAt(after, ids, topic, partitions, i) {
      if i < k {
        assert SliceAt(plan, ids, topic, partitions, i);
      }
    }
  }

  lemma {:induction false} SlicesConcat(plan: Plan, ids: seq<MemberId>, topic: string, partitions: seq<int>, k: nat)
    requires ids != [] && k <= |ids| && forall i :: 0 <= i < k ==> SliceAt(plan, ids, topic, partitions, i)
    ensures Cut(|partitions|, |ids|, k) <= |partitions|
    ensures Concat(plan, ids[..k], topic) == partitions[..Cut(|partitions|, |ids|, k)]
  {
    CutEnds(|partitions|, |ids|);
    CutMonotone(|partitions|, |ids|, k, |ids|);
    if k > 0 {
      assert SliceAt(plan, ids, topic, partitions, k - 1);
      SlicesConcat(plan, ids, topic, partitions, k - 1);
      assert ids[..k][..k - 1] == ids[..k - 1];
    }
  }

  /** The slices of one topic: together, in member order, they are the whole list; each has the common
      length or one more, longer ones first; and nobody else is given anything of the topic. */
  ghost predicate Split(plan: Plan, ids: seq<MemberId>, topic: string, partitions: seq<int>) {
    && ids != []
    && Concat(plan, ids, topic) == partitions
    && (forall i :: 0 <= i < |ids| ==>
          |Listed(plan, ids[i], topic)| == |partitions| / |ids| + if i < |partitions| % |ids| then 1 else 0)
    && (forall m :: m !in ids ==> Listed(plan, m, topic) == [])
  }

  /** The slice as the code computes it. */
  function SliceFor(partitions: seq<int>, n: nat, i: nat): (r: seq<int>)
    requires i < n
    ensures Cut(|partitions|, n, i) <= Cut(|partitions|, n, i + 1) <= |partitions|
    ensures r == partitions[Cut(|partitions|, n, i)..Cut(|partitions|, n, i + 1)]
  {
    var partitionsPerConsumer := |partitions| / n;
    var consumersWithExtraPartition := |partitions| % n;
    var min := i * partitionsPerConsumer + Min(consumersWithExtraPartition, i);
    var extra := if i < consumersWithExtraPartition then 1 else 0;
    var max := min + partitionsPerConsumer + extra;
    SliceBounds(|partitions|, n, i);
    partitions[min..max]
  }

  lemma SliceBounds(total: nat, n: nat, i: nat)
    requires i < n
    ensures Cut(total, n, i) == i * (total / n) + Min(total % n, i)
    ensures Cut(total, n, i + 1) == Cut(total, n, i) + total / n + if i < total % n then 1 else 0
    ensures Cut(total, n, i) <= Cut(total, n, i + 1) <= total
  {
    CutStep(total, n, i);
    hide Cut;
    CutMonotone(total, n, i, i + 1);
    CutMonotone(total, n, i + 1, n);
    CutEnds(total, n);
  }

  method Core(plan: Plan, ids: seq<MemberId>, topic: string, partitions: seq<int>) returns (r: Plan)
    requires ids != [] && NoDup(ids)
    requires forall m :: Listed(plan, m, topic) == []
    ensures Split(r, ids, topic, partitions)
    ensures forall m, t :: t != topic ==> Listed(r, m, t) == Listed(plan, m, t)
  {
    hide Cut, NoDup;
    r := plan;
    for i := 0 to |ids|
      invariant Sliced(r, ids, topic, partitions, i)
      invariant forall m, t :: t != topic ==> Listed(r, m, t) == Listed(plan, m, t)
    {
      hide Sliced, Listed;
      var after := AddToPlan(r, ids[i], topic, SliceFor(partitions, |ids|, i));
      SliceStep(r, after, ids, topic, partitions, i);
      r := after;
    }
    SlicedIsSplit(r, ids, topic, partitions);
  }

  lemma SlicedIsSplit(plan: Plan, ids: seq<MemberId>, topic: string, partitions: seq<int>)
    requires ids != [] && Sliced(plan, ids, topic, partitions, |ids|)
    ensures Split(plan, ids, topic, partitions)
  {
    CutEnds(|partitions|, |ids|);
    SlicesConcat(plan, ids, topic, partitions, |ids|);
    assert ids[..|ids|] == ids;
    SliceLengths(plan, ids, topic, partitions);
  }

  lemma SliceLengths(plan: Plan, ids: seq<MemberId>, topic: string, partitions: seq<int>)
    requires ids != [] && Sliced(plan, ids, topic, partitions, |ids|)
    ensures forall i :: 0 <= i < |ids| ==>
      |Listed(plan, ids[i], topic)| == |partitions| / |ids| + if i < |partitions| % |ids| then 1 else 0
  {
    forall i | 0 <= i < |ids|
      ensures |Listed(plan, ids[i], topic)| == |partitions| / |ids| + if i < |partitions| % |ids| then 1 else 0
    {
      assert SliceAt(plan, ids, topic, partitions, i);
      CutStep(|partitions|, |ids|, i);
    }
  }

  // -------------------------------------------------------------------- the whole plan

  predicate Entered(mbt: map<string, seq<MemberId>>, topic: string, m: MemberId) {
    topic in mbt && m in mbt[topic]
  }

  /** Enters one member under each of its topics; a topic listed twice enters it twice. */
  method EnterMember(mbt: map<string, seq<MemberId>>, m: MemberId, topics: seq<string>)
    returns (r: map<string, seq<MemberId>>)
    requires forall t :: t in mbt ==> mbt[t] != []
    ensures forall t :: t in r ==> r[t] != []
    ensures forall t, n :: Entered(r, t, n) <==> Entered(mbt, t, n) || (n == m && t in topics)
  {
    r := mbt;
    for j := 0 to |topics|
      invariant forall t :: t in r ==> r[t] != []
      invariant forall t, n :: Entered(r, t, n) <==> Entered(mbt, t, n) || (n == m && t in topics[..j])
    {
      assert topics[..j + 1] == topics[..j] + [topics[j]];
      r := r[topics[j] := (if topics[j] in r then r[topics[j]] else []) + [m]];
    }
    assert topics[..|topics|] == topics;
  }

  /** The members of each topic, in member order. */
  method MembersByTopic(members: Members) returns (mbt: map<string, seq<MemberId>>)
    ensures forall t :: t in mbt <==> Subscribers(members, t) != {}
    ensures forall t :: t in mbt ==> Elems(mbt[t]) == Subscribers(members, t)
  {
    var ids := SortedIds(members.Keys);
    mbt := map[];
    hide NoDup;
    for i := 0 to |ids|
      invariant forall t :: t in mbt ==> mbt[t] != []
      invariant EnteredSoFar(mbt, members, ids[..i])
    {
      var after := EnterMember(mbt, ids[i], members[ids[i]]);
      EnteredStep(mbt, after, members, ids, i);
      mbt := after;
    }
    assert ids[..|ids|] == ids;
    EnteredAll(mbt, members, ids);
  }

  ghost predicate EnteredSoFar(mbt: map<string, seq<MemberId>>, members: Members, done: seq<MemberId>) {
    forall t, m :: Entered(mbt, t, m) <==> m in done && m in members && t in members[m]
  }

  lemma EnteredStep(mbt: map<string, seq<MemberId>>, after: map<string, seq<MemberId>>, members: Members,
                    ids: seq<MemberId>, i: nat)
    requires i < |ids| && ids[i] in members && EnteredSoFar(mbt, members, ids[..i])
    requires forall t, n :: Entered(after, t, n) <==> Entered(mbt, t, n) || (n == ids[i] && t in members[ids[i]])
    ensures EnteredSoFar(after, members, ids[..i + 1])
  {
    hide Entered;
    assert ids[..i + 1] == ids[..i] + [ids[i]];
  }

  lemma EnteredAll(mbt: map<string, seq<MemberId>>, members: Members, ids: seq<MemberId>)
    requires forall t :: t in mbt ==> mbt[t] != []
    requires EnteredSoFar(mbt, members, ids) && forall m :: m in ids <==> m in members
    ensures forall t :: t in mbt <==> Subscribers(members, t) != {}
    ensures forall t :: t in mbt ==> Elems(mbt[t]) == Subscribers(members, t)
  {
    forall t | t in mbt ensures Elems(mbt[t]) == Subscribers(members, t) && Subscribers(members, t) != {} {
      assert Entered(mbt, t, mbt[t][0]);
      assert mbt[t][0] in Subscribers(members, t);
      forall m ensures m in Elems(mbt[t]) <==> m in Subscribers(members, t) {
        assert Entered(mbt, t, m) <==> m in mbt[t];
      }
    }
    forall t | Subscribers(members, t) != {} ensures t in mbt {
      var m :| m in Subscribers(members, t);
      assert Entered(mbt, t, m);
    }
  }

  /** Sorts and drops repetitions. */
  function Uniq(ids: seq<MemberId>): (r: seq<MemberId>)
    ensures r == SortedIds(Elems(ids))
  {
    if |ids| < 2 then
      assert ids == SortedIds(Elems(ids)) by { SingleSorted(ids); }
      ids
    else SortedIds(Elems(ids))
  }

  lemma SingleSorted(ids: seq<MemberId>)
    requires |ids| < 2
    ensures ids == SortedIds(Elems(ids))
  {
    if |ids| == 1 {
      assert Elems(ids) == {ids[0]};
      assert SortedIds({ids[0]})[0] in {ids[0]};
    } else {
      assert Elems(ids) == {};
    }
  }

  /** t is split among exactly its subscribers, in member order. */
  ghost predicate SplitAmongSubscribers(plan: Plan, members: Members, topics: Topics, t: string) {
    t in topics && Split(plan, SortedIds(Subscribers(members, t)), t, topics[t])
  }

  /** m's slice of the partitions lies before n's, and is not shorter. */
  ghost predicate SlicedBefore(plan: Plan, m: MemberId, n: MemberId, topic: string, partitions: seq<int>) {
    exists a: nat, b: nat, c: nat, d: nat {:trigger partitions[a..b], partitions[c..d]} ::
      && a <= b <= c <= d <= |partitions|
      && Listed(plan, m, topic) == partitions[a..b] && Listed(plan, n, topic) == partitions[c..d]
      && b - a >= d - c
  }

  lemma ConcatStep(plan: Plan, ids: seq<MemberId>, topic: string, i: nat)
    requires i < |ids|
    ensures Concat(plan, ids[..i + 1], topic) == Concat(plan, ids[..i], topic) + Listed(plan, ids[i], topic)
  {
    assert ids[..i + 1][..i] == ids[..i];
    hide Listed;
  }

  lemma SliceOfFront(a: seq<int>, b: seq<int>, from: nat, to: nat)
    requires from <= to <= |a|
    ensures (a + b)[from..to] == a[from..to]
  {
  }

  lemma SliceOfLast(a: seq<int>, b: seq<int>)
    ensures (a + b)[|a|..|a| + |b|] == b
  {
  }

  /** The place of the i-th list in the whole. */
  lemma {:induction false} ConcatPlaces(plan: Plan, ids: seq<MemberId>, topic: string, i: nat, n: nat)
    requires i < n <= |ids|
    ensures var from := |Concat(plan, ids[..i], topic)|;
            var to := from + |Listed(plan, ids[i], topic)|;
            to <= |Concat(plan, ids[..n], topic)| &&
            Concat(plan, ids[..n], topic)[from..to] == Listed(plan, ids[i], topic)
    decreases n
  {
    hide *;
    ConcatStep(plan, ids, topic, n - 1);
    var front, last := Concat(plan, ids[..n - 1], topic), Listed(plan, ids[n - 1], topic);
    if i == n - 1 {
      SliceOfLast(front, last);
    } else {
      ConcatPlaces(plan, ids, topic, i, n - 1);
      var from := |Concat(plan, ids[..i], topic)|;
      SliceOfFront(front, last, from, from + |Listed(plan, ids[i], topic)|);
    }
  }

  lemma {:induction false} ConcatGrows(plan: Plan, ids: seq<MemberId>, topic: string, i: nat, j: nat)
    requires i <= j <= |ids|
    ensures |Concat(plan, ids[..i], topic)| <= |Concat(plan, ids[..j], topic)|
    decreases j - i
  {
    hide Concat, Listed;
    if i < j {
      ConcatStep(plan, ids, topic, i);
      ConcatGrows(plan, ids, topic, i + 1, j);
    }
  }

  lemma SplitInOrder(plan: Plan, ids: seq<MemberId>, topic: string, partitions: seq<int>, i: nat, j: nat)
    requires Split(plan, ids, topic, partitions) && i < j < |ids|
    ensures SlicedBefore(plan, ids[i], ids[j], topic, partitions)
  {
    hide Concat, Listed;
    assert ids[..|ids|] == ids;
    ConcatPlaces(plan, ids, topic, i, |ids|);
    ConcatPlaces(plan, ids, topic, j, |ids|);
    ConcatStep(plan, ids, topic, i);
    ConcatGrows(plan, ids, topic, i + 1, j);
    var a, c := |Concat(plan, ids[..i], topic)|, |Concat(plan, ids[..j], topic)|;
    var b, d := a + |Listed(plan, ids[i], topic)|, c + |Listed(plan, ids[j], topic)|;
    assert partitions[a..b] == Listed(plan, ids[i], topic) && partitions[c..d] == Listed(plan, ids[j], topic);
  }

  /** Of two subscribers the one whose name comes first holds the earlier slice. */
  lemma SubscribersInOrder(plan: Plan, members: Members, topics: Topics, t: string, m: MemberId, n: MemberId)
    requires SplitAmongSubscribers(plan, members, topics, t)
    requires m in Subscribers(members, t) && n in Subscribers(members, t) && ComesBefore(m.id, n.id)
    ensures SlicedBefore(plan, m, n, t, topics[t])
  {
    var ids := SortedIds(Subscribers(members, t));
    IdsInOrder(Subscribers(members, t));
    var i :| 0 <= i < |ids| && ids[i] == m;
    var j :| 0 <= j < |ids| && ids[j] == n;
    OneComesBefore(m.id, n.id);
    EarlierName(ids, i, j);
    SplitInOrder(plan, ids, t, topics[t], i, j);
  }

  lemma EarlierName(ids: seq<MemberId>, i: nat, j: nat)
    requires i < |ids| && j < |ids| && i != j && !ComesBefore(ids[j].id, ids[i].id)
    requires forall a, b :: 0 <= a < b < |ids| ==> ComesBefore(ids[a].id, ids[b].id)
    ensures i < j
  {
  }

  /** Each known topic with a subscriber is split among exactly its subscribers, and no other topic is
      given out. Slices follow the names of the subscribers, longer ones first. Partition lists and topic
      lists may repeat entries. */
  method RangePlan(members: Members, topics: Topics) returns (plan: Plan)
    ensures forall t :: t in topics && Subscribers(members, t) != {} ==> SplitAmongSubscribers(plan, members, topics, t)
    ensures forall m, t :: t !in topics || m !in Subscribers(members, t) ==> Listed(plan, m, t) == []
    ensures forall m, n, t ::
              t in topics && m in Subscribers(members, t) && n in Subscribers(members, t) && ComesBefore(m.id, n.id) ==>
                SlicedBefore(plan, m, n, t, topics[t])
  {
    hide *;
    var mbt := MembersByTopic(members);
    var names := SortedStrings(mbt.Keys);
    plan := map[];
    NothingPlanned(members, topics);
    for i := 0 to |names|
      invariant PlannedSoFar(plan, members, topics, names[..i])
    {
      Extends(names, i);
      var topic := names[i];
      if topic in topics {
        NothingYet(plan, members, topics, names[..i], topic);
        SubscribersListed(members, topic, mbt[topic]);
        var after := Core(plan, Uniq(mbt[topic]), topic, topics[topic]);
        PlannedStep(plan, after, members, topics, names[..i], topic);
        plan := after;
      } else {
        PlannedSkip(plan, members, topics, names[..i], topic);
      }
    }
    assert names[..|names|] == names;
    AllPlanned(plan, members, topics, names);
    forall m, n, t | t in topics && m in Subscribers(members, t) && n in Subscribers(members, t) &&
                     ComesBefore(m.id, n.id)
      ensures SlicedBefore(plan, m, n, t, topics[t])
    {
      SubscribersInOrder(plan, members, topics, t, m, n);
    }
  }

  /** The plan after the topics in `done`. */
  ghost predicate PlannedSoFar(plan: Plan, members: Members, topics: Topics, done: seq<string>) {
    && (forall m, t :: t !in done || t !in topics ==> Listed(plan, m, t) == [])
    && (forall t :: t in done && t in topics ==> SplitAmongSubscribers(plan, members, topics, t))
  }

  lemma NothingPlanned(members: Members, topics: Topics)
    ensures PlannedSoFar(map[], members, topics, [])
  {
  }

  lemma Extends(names: seq<string>, i: nat)
    requires i < |names| && NoDup(names)
    ensures names[..i + 1] == names[..i] + [names[i]] && names[i] !in names[..i]
  {
  }

  lemma SubscribersListed(members: Members, topic: string, ids: seq<MemberId>)
    requires Elems(ids) == Subscribers(members, topic) && Subscribers(members, topic) != {}
    ensures Uniq(ids) == SortedIds(Subscribers(members, topic)) != []
  {
  }

  lemma NothingYet(plan: Plan, members: Members, topics: Topics, done: seq<string>, t: string)
    requires PlannedSoFar(plan, members, topics, done) && t !in done
    ensures forall m :: Listed(plan, m, t) == []
  {
  }

  lemma PlannedStep(plan: Plan, after: Plan, members: Members, topics: Topics, done: seq<string>, topic: string)
    requires PlannedSoFar(plan, members, topics, done) && topic !in done && topic in topics
    requires Split(after, SortedIds(Subscribers(members, topic)), topic, topics[topic])
    requires forall m, t :: t != topic ==> Listed(after, m, t) == Listed(plan, m, t)
    ensures PlannedSoFar(after, members, topics, done + [topic])
  {
    hide Split, Listed;
    forall t | t in done && t in topics ensures SplitAmongSubscribers(after, members, topics, t) {
      SplitFrame(plan, after, members, topics, t);
    }
    forall t | t in done + [topic] && t in topics ensures SplitAmongSubscribers(after, members, topics, t) {
      assert t in done || t == topic;
    }
    forall m, t | t !in done + [topic] || t !in topics ensures Listed(after, m, t) == [] {
      assert t != topic && (t !in done || t !in topics);
    }
  }

  lemma PlannedSkip(plan: Plan, members: Members, topics: Topics, done: seq<string>, topic: string)
    requires PlannedSoFar(plan, members, topics, done) && topic !in topics
    ensures PlannedSoFar(plan, members, topics, done + [topic])
  {
  }

  lemma AllPlanned(plan: Plan, members: Members, topics: Topics, names: seq<string>)
    requires PlannedSoFar(plan, members, topics, names)
    requires forall t :: t in names <==> Subscribers(members, t) != {}
    ensures forall t :: t in topics && Subscribers(members, t) != {} ==> SplitAmongSubscribers(plan, members, topics, t)
    ensures forall m, t :: t !in topics || m !in Subscribers(members, t) ==> Listed(plan, m, t) == []
  {
    forall m, t | t !in topics || m !in Subscribers(members, t) ensures Listed(plan, m, t) == [] {
      if t in topics && t in names {
        assert SplitAmongSubscribers(plan, members, topics, t);
        assert m !in SortedIds(Subscribers(members, t));
      }
    }
  }

  lemma {:induction false} ConcatFrame(a: Plan, b: Plan, ids: seq<MemberId>, topic: string)
    requires forall m :: Listed(a, m, topic) == Listed(b, m, topic)
    ensures Concat(a, ids, topic) == Concat(b, ids, topic)
  {
    if ids != [] {
      ConcatFrame(a, b, ids[..|ids| - 1], topic);
    }
  }

  lemma SplitFrame(a: Plan, b: Plan, members: Members, topics: Topics, t: string)
    requires SplitAmongSubscribers(a, members, topics, t)
    requires forall m :: Listed(a, m, t) == Listed(b, m, t)
    ensures SplitAmongSubscribers(b, members, topics, t)
  {
    ConcatFrame(a, b, SortedIds(Subscribers(members, t)), t);
  }

  // -------------------------------------------------------------------- exactly once

  /** In lists put end to end without repetition every entry is in exactly one of them, once. */
  lemma {:induction false} InOneList(plan: Plan, ids: seq<MemberId>, topic: string)
    requires NoDup(Concat(plan, ids, topic)) && NoDup(ids)
    ensures forall x :: x in Concat(plan, ids, topic) <==> exists m :: m in ids && x in Listed(plan, m, topic)
    ensures forall m, n, x ::
      (m in ids && n in ids && x in Listed(plan, m, topic) && x in Listed(plan, n, topic)) ==> m == n
    ensures forall m :: m in ids ==> NoDup(Listed(plan, m, topic))
  {
    if ids != [] {
      var front, last := ids[..|ids| - 1], ids[|ids| - 1];
      var a, b := Concat(plan, front, topic), Listed(plan, last, topic);
      assert ids == front + [last];
      NoDupParts(a, b);
      InOneList(plan, front, topic);
      hide Concat, Listed, NoDup;
      assert Concat(plan, ids, topic) == a + b by { ConcatLast(plan, ids, topic); }
      forall x ensures x in a + b <==> exists m :: m in ids && x in Listed(plan, m, topic) {
        if x in a {
          var m :| m in front && x in Listed(plan, m, topic);
          assert m in ids;
        }
      }
    }
  }

  lemma ConcatLast(plan: Plan, ids: seq<MemberId>, topic: string)
    requires ids != []
    ensures Concat(plan, ids, topic) == Concat(plan, ids[..|ids| - 1], topic) + Listed(plan, ids[|ids| - 1], topic)
  {
  }

  lemma NoDupParts<T>(a: seq<T>, b: seq<T>)
    requires NoDup(a + b)
    ensures NoDup(a) && NoDup(b) && forall x :: x in a ==> x !in b
  {
    var s := a + b;
    assert forall i :: 0 <= i < |a| ==> s[i] == a[i];
    assert forall j :: 0 <= j < |b| ==> s[|a| + j] == b[j];
  }

  lemma NobodyOnce(plan: Plan, members: Members, topics: Topics, t: string)
    requires forall m :: Listed(plan, m, t) == [] && !(t in topics && Subscribed(members, m, t))
    ensures TopicOnce(plan, members, topics, t)
  {
    hide Listed;
    EmptyNoDup();
  }

  lemma SubscribersOnce(plan: Plan, members: Members, topics: Topics, t: string, ids: seq<MemberId>)
    requires t in topics && NoDup(topics[t]) && NoDup(ids) && Concat(plan, ids, t) == topics[t]
    requires forall m :: m in ids <==> Subscribed(members, m, t)
    requires forall m :: m !in ids ==> Listed(plan, m, t) == []
    ensures TopicOnce(plan, members, topics, t)
  {
    hide Listed, Concat, NoDup, Subscribed;
    InOneList(plan, ids, t);
    EmptyNoDup();
    forall m, i | i in Listed(plan, m, t) ensures m in ids && i in topics[t] {
    }
    forall m ensures NoDup(Listed(plan, m, t)) {
      assert m in ids || Listed(plan, m, t) == [];
    }
  }

  lemma OneTopicOnce(plan: Plan, members: Members, topics: Topics, t: string)
    requires t in topics ==> NoDup(topics[t])
    requires t in topics && Subscribers(members, t) != {} ==> SplitAmongSubscribers(plan, members, topics, t)
    requires forall m :: t !in topics || m !in Subscribers(members, t) ==> Listed(plan, m, t) == []
    ensures TopicOnce(plan, members, topics, t)
  {
    hide Listed, Concat, NoDup, TopicOnce;
    if t in topics && Subscribers(members, t) != {} {
      SubscribersOnce(plan, members, topics, t, SortedIds(Subscribers(members, t)));
    } else {
      forall m ensures Listed(plan, m, t) == [] && !(t in topics && Subscribed(members, m, t)) {
        assert Subscribed(members, m, t) ==> m in Subscribers(members, t);
      }
      NobodyOnce(plan, members, topics, t);
    }
  }

  lemma EmptyNoDup()
    ensures NoDup<int>([])
  {
  }

  /** A range plan gives every known partition with a subscriber to exactly one member, a subscriber,
      when no topic lists a partition twice: the same guarantee as the sticky plan's. */
  lemma RangeExactlyOnce(plan: Plan, members: Members, topics: Topics)
    requires forall t :: t in topics ==> NoDup(topics[t])
    requires forall t ::
      (t in topics && Subscribers(members, t) != {}) ==> SplitAmongSubscribers(plan, members, topics, t)
    requires forall m, t :: t !in topics || m !in Subscribers(members, t) ==> Listed(plan, m, t) == []
    ensures ExactlyOnce(plan, members, topics)
  {
    hide SplitAmongSubscribers, Listed, NoDup, Subscribers, TopicOnce;
    forall t ensures TopicOnce(plan, members, topics, t) {
      OneTopicOnce(plan, members, topics, t);
    }
    OnceEverywhere(plan, members, topics);
  }

  lemma OnceEverywhere(plan: Plan, members: Members, topics: Topics)
    requires forall t :: TopicOnce(plan, members, topics, t)
    ensures ExactlyOnce(plan, members, topics)
  {
    hide Listed, NoDup;
    forall m, p | Gives(plan, m, p) ensures Known(topics, p) && Subscribed(members, m, p.topic) {
      var t, i := p.topic, p.partition;
      assert TopicOnce(plan, members, topics, t) && i in Listed(plan, m, t);
      assert p == TopicPartition(t, i);
    }
    forall m, n, p | Gives(plan, m, p) && Gives(plan, n, p) ensures m == n {
      assert TopicOnce(plan, members, topics, p.topic);
    }
    forall m, p | Known(topics, p) && Subscribed(members, m, p.topic) ensures exists n :: Gives(plan, n, p) {
      assert TopicOnce(plan, members, topics, p.topic);
      var n :| p.partition in Listed(plan, n, p.topic);
      assert Gives(plan, n, p);
    }
    forall m, t ensures NoDup(Listed(plan, m, t)) {
      assert TopicOnce(plan, members, topics, t);
    }
  }

  /** One topic's share of an exactly-once plan. */
  ghost predicate TopicOnce(plan: Plan, members: Members, topics: Topics, t: string) {
    && (forall m, i :: i in Listed(plan, m, t) ==> Known(topics, TopicPartition(t, i)) && Subscribed(members, m, t))
    && (forall m, n, i :: i in Listed(plan, m, t) && i in Listed(plan, n, t) ==> m == n)
    && (forall m, i ::
          (t in topics && i in topics[t] && Subscribed(members, m, t)) ==> exists n :: i in Listed(plan, n, t))
    && (forall m :: NoDup(Listed(plan, m, t)))
  }
}
