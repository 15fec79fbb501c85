/** The movement record of the sticky assignor: who first owned each moved partition and who owns
    it now, indexed by partition and, inversely, by topic and by movement. */
module Movements {
  import opened Order

  datatype MemberId = MemberId(id: string)

  /** The order of a std::map keyed by member. */
  predicate MemberLe(a: MemberId, b: MemberId) {
    StringLe(a.id, b.id)
  }

  function SortedIds(s: set<MemberId>): (r: seq<MemberId>)
    ensures forall m :: m in r <==> m in s
    ensures NoDup(r) && |r| == |s|
  {
    StringOrder();
    Sorted(s, MemberLe)
  }

  datatype TopicPartition = TopicPartition(topic: string, partition: int)

  datatype Pair = Pair(src: MemberId, dst: MemberId) {
    function Reverse(): Pair { Pair(dst, src) }
  }

  type Record = map<TopicPartition, Pair>
  type ByTopic = map<string, map<Pair, set<TopicPartition>>>
  type Owners = map<TopicPartition, MemberId>

  /** topic_t::operator< (or equal): by topic, then by partition number. */
  predicate PartitionLe(a: TopicPartition, b: TopicPartition) {
    if a.topic == b.topic then a.partition <= b.partition else StringLe(a.topic, b.topic)
  }

  lemma PartitionOrder()
    ensures TotalOrder(PartitionLe)
  {
    StringOrder();
  }

  /** p comes before q: by topic, then by partition number. */
  ghost predicate Before(p: TopicPartition, q: TopicPartition) {
    if p.topic == q.topic then p.partition < q.partition else ComesBefore(p.topic, q.topic)
  }

  lemma PartitionLeMeans(p: TopicPartition, q: TopicPartition)
    ensures PartitionLe(p, q) <==> p == q || Before(p, q)
  {
    StringLeMeans(p.topic, q.topic);
    hide StringLe, ComesBefore;
  }

  /** A map's members are visited by name, a shorter name before its extensions. */
  lemma IdsInOrder(s: set<MemberId>)
    ensures var r := SortedIds(s); forall i, j :: 0 <= i < j < |r| ==> ComesBefore(r[i].id, r[j].id)
  {
    StringOrder();
    var r := SortedIds(s);
    forall i, j | 0 <= i < j < |r| ensures ComesBefore(r[i].id, r[j].id) {
      assert MemberLe(r[i], r[j]);
      StringLeMeans(r[i].id, r[j].id);
    }
  }

  // ---------------------------------------------------------------- the index

  /** The partitions filed under a topic and a movement. */
  function Bucket(b: ByTopic, topic: string, pair: Pair): set<TopicPartition> {
    if topic in b && pair in b[topic] then b[topic][pair] else {}
  }

  /** The partitions of a topic that the record says made this movement. */
  function Movers(record: Record, topic: string, pair: Pair): set<TopicPartition> {
    set p | p in record && p.topic == topic && record[p] == pair
  }

  ghost predicate NoEmptyBucket(b: ByTopic) {
    forall t :: t in b ==> b[t] != map[] && forall pair :: pair in b[t] ==> b[t][pair] != {}
  }

  /** `b` is the exact inverse of `record`, and it keeps no empty bucket. */
  ghost predicate Indexes(b: ByTopic, record: Record) {
    && NoEmptyBucket(b)
    && forall t, pair :: Bucket(b, t, pair) == Movers(record, t, pair)
  }

  /** A record has only one index. */
  lemma IndexUnique(b: ByTopic, c: ByTopic, record: Record)
    requires Indexes(b, record) && Indexes(c, record)
    ensures b == c
  {
    IndexKeys(b, c, record);
    IndexKeys(c, b, record);
    forall t | t in b ensures b[t] == c[t] {
      assert b[t].Keys == c[t].Keys;
      forall pair | pair in b[t] ensures b[t][pair] == c[t][pair] {
        assert Bucket(b, t, pair) == Bucket(c, t, pair);
      }
    }
  }

  lemma IndexKeys(b: ByTopic, c: ByTopic, record: Record)
    requires Indexes(b, record) && Indexes(c, record)
    ensures forall t :: t in b ==> t in c && b[t].Keys <= c[t].Keys
  {
    forall t, pair | t in b && pair in b[t] ensures t in c && pair in c[t] {
      assert Bucket(b, t, pair) == Bucket(c, t, pair) != {};
    }
    forall t | t in b ensures t in c {
      var pair :| pair in b[t];
    }
  }

  /** `c` is `b` with one bucket replaced and emptied containers dropped. */
  ghost predicate Refiled(b: ByTopic, c: ByTopic, topic: string, pair: Pair, bucket: set<TopicPartition>) {
    && NoEmptyBucket(c)
    && forall t, q :: Bucket(c, t, q) == if t == topic && q == pair then bucket else Bucket(b, t, q)
  }

  /** Changing one partition's movement changes exactly its own bucket. */
  lemma RefiledIndexes(b: ByTopic, c: ByTopic, before: Record, after: Record, p: TopicPartition, pair: Pair)
    requires Indexes(b, before)
    requires Refiled(b, c, p.topic, pair, Movers(after, p.topic, pair))
    requires forall q :: q != p ==> (q in before <==> q in after) && (q in before ==> before[q] == after[q])
    requires p in before ==> before[p] == pair
    requires p in after ==> after[p] == pair
    ensures Indexes(c, after)
  {
    forall t, q | !(t == p.topic && q == pair) ensures Bucket(c, t, q) == Movers(after, t, q) {
      assert Bucket(c, t, q) == Bucket(b, t, q) == Movers(before, t, q);
    }
  }

  lemma AddedIndexes(b: ByTopic, c: ByTopic, record: Record, p: TopicPartition, pair: Pair)
    requires Indexes(b, record) && p !in record
    requires c == b[p.topic := (if p.topic in b then b[p.topic] else map[])[pair := Bucket(b, p.topic, pair) + {p}]]
    ensures Indexes(c, record[p := pair])
  {
    var after := record[p := pair];
    assert Bucket(b, p.topic, pair) == Movers(record, p.topic, pair);
    assert Movers(after, p.topic, pair) == Movers(record, p.topic, pair) + {p};
    assert pair in c[p.topic];
    forall t | t in c ensures c[t] != map[] && forall q :: q in c[t] ==> c[t][q] != {} {
      assert t != p.topic ==> c[t] == b[t];
    }
    RefiledIndexes(b, c, record, after, p, pair);
  }

  lemma RemovedIndexes(b: ByTopic, c: ByTopic, record: Record, p: TopicPartition)
    requires Indexes(b, record) && p in record && p.topic in b && record[p] in b[p.topic]
    requires var rest := b[p.topic][record[p]] - {p};
             var topicMap := if rest == {} then b[p.topic] - {record[p]} else b[p.topic][record[p] := rest];
             c == if topicMap == map[] then b - {p.topic} else b[p.topic := topicMap]
    ensures Indexes(c, record - {p})
  {
    var pair, after := record[p], record - {p};
    var rest := b[p.topic][pair] - {p};
    var topicMap := if rest == {} then b[p.topic] - {pair} else b[p.topic][pair := rest];
    assert forall q :: q in b[p.topic] && q != pair ==> q in topicMap;
    assert Bucket(b, p.topic, pair) == Movers(record, p.topic, pair);
    assert Movers(after, p.topic, pair) == Movers(record, p.topic, pair) - {p};
    forall t, q | !(t == p.topic && q == pair) ensures Bucket(c, t, q) == Bucket(b, t, q) {
      assert t == p.topic && q in b[t] ==> q in topicMap;
    }
    RefiledIndexes(b, c, record, after, p, pair);
  }

  lemma FiledUnder(b: ByTopic, record: Record, p: TopicPartition)
    requires Indexes(b, record) && p in record
    ensures p.topic in b && record[p] in b[p.topic]
  {
    assert Bucket(b, p.topic, record[p]) == Movers(record, p.topic, record[p]);
    assert p in Movers(record, p.topic, record[p]);
  }

  // ------------------------------------------------ what one movement does to the record

  /** The recorded origin of p, or its present owner when p has not moved. */
  function Origin(record: Record, p: TopicPartition, owner: MemberId): MemberId {
    if p in record then record[p].src else owner
  }

  function Moved(record: Record, p: TopicPartition, owner: MemberId, target: MemberId): Record {
    if Origin(record, p, owner) == target && p in record then record - {p}
    else record[p := Pair(Origin(record, p, owner), target)]
  }

  /** The partitions of p's topic whose recorded movement is the reverse of the one wanted for p. */
  function Reversals(record: Record, p: TopicPartition, owner: MemberId, target: MemberId): set<TopicPartition> {
    Movers(record, p.topic, Pair(target, Origin(record, p, owner)))
  }

  /** The partition actually moved: p itself, or the least one whose movement would be reversed. */
  function ActualPartition(record: Record, p: TopicPartition, owner: MemberId, target: MemberId): (q: TopicPartition)
    ensures q.topic == p.topic
    ensures Reversals(record, p, owner, target) == {} ==> q == p
    ensures Reversals(record, p, owner, target) != {} ==> q in Reversals(record, p, owner, target)
  {
    PartitionOrder();
    var candidates := Reversals(record, p, owner, target);
    if candidates == {} then p else Least(candidates, PartitionLe)
  }

  /** A redirection picks, of the partitions of the topic that went the opposite way, the one with the
      lowest number, and nothing else redirects. */
  lemma ActualIsLowest(record: Record, p: TopicPartition, owner: MemberId, target: MemberId, q: TopicPartition)
    requires q.topic == p.topic && q in record
    requires record[q] == Pair(target, if p in record then record[p].src else owner)
    ensures var a := ActualPartition(record, p, owner, target);
            && a in record && a.topic == p.topic && record[a] == record[q] && a.partition <= q.partition
  {
    PartitionOrder();
    assert q in Reversals(record, p, owner, target);
  }

  /** p and q, of one topic, are recorded as moved between the same two members in opposite directions. */
  ghost predicate Opposed(record: Record, p: TopicPartition, q: TopicPartition) {
    && p in record && q in record && p.topic == q.topic
    && record[p].src != record[p].dst && record[q] == record[p].Reverse()
  }

  ghost predicate NoOpposites(record: Record) {
    forall p, q :: !Opposed(record, p, q)
  }

  /** The ownership difference between the start and now: p maps to (start owner, present owner)
      exactly when the two differ. */
  function Difference(start: Owners, now: Owners): Record
    requires start.Keys == now.Keys
  {
    map p | p in start && start[p] != now[p] :: Pair(start[p], now[p])
  }

  lemma MovedIsDifference(start: Owners, now: Owners, p: TopicPartition, target: MemberId)
    requires start.Keys == now.Keys && p in now && now[p] != target
    ensures Moved(Difference(start, now), p, now[p], target) == Difference(start, now[p := target])
  {
  }

  /** Moving the partition chosen by the record creates no pair of opposite movements. */
  lemma MovedKeepsNoOpposites(start: Owners, now: Owners, p: TopicPartition, target: MemberId)
    requires start.Keys == now.Keys && p in now && now[p] != target
    requires NoOpposites(Difference(start, now))
    ensures var record := Difference(start, now);
            var q := ActualPartition(record, p, now[p], target);
            q in now && now[q] != target && NoOpposites(Moved(record, q, now[q], target))
  {
    var record := Difference(start, now);
    var q := ActualPartition(record, p, now[p], target);
    var after := Moved(record, q, now[q], target);
    if q in Reversals(record, p, now[p], target) {
      forall x, y ensures !Opposed(after, x, y) {
        assert !Opposed(record, x, y);
      }
    } else {
      assert q == p;
      forall x, y ensures !Opposed(after, x, y) {
        assert !Opposed(record, x, y);
        assert x !in Reversals(record, p, now[p], target) && y !in Reversals(record, p, now[p], target);
      }
    }
  }

  // ------------------------------------------------------------------ whole runs

  datatype Request = Request(partition: TopicPartition, newOwner: MemberId)

  /** Ownership after serving one request through the record. */
  function Serve(start: Owners, now: Owners, r: Request): (after: Owners)
    requires start.Keys == now.Keys && r.partition in now
    ensures after.Keys == now.Keys
  {
    var q := ActualPartition(Difference(start, now), r.partition, now[r.partition], r.newOwner);
    now[q := r.newOwner]
  }

  /** Every request names a known partition and a member that does not own it at that moment. */
  ghost predicate Servable(start: Owners, now: Owners, requests: seq<Request>)
    requires start.Keys == now.Keys
    decreases |requests|
  {
    requests == [] ||
    (requests[0].partition in now && now[requests[0].partition] != requests[0].newOwner &&
     Servable(start, Serve(start, now, requests[0]), requests[1..]))
  }

  function ServeAll(start: Owners, now: Owners, requests: seq<Request>): (after: Owners)
    requires start.Keys == now.Keys && Servable(start, now, requests)
    ensures after.Keys == now.Keys
    decreases |requests|
  {
    if requests == [] then now else ServeAll(start, Serve(start, now, requests[0]), requests[1..])
  }

  /** After any run of reassignments the record is free of opposite movements. */
  lemma {:induction false} EveryRunIsSticky(start: Owners, now: Owners, requests: seq<Request>)
    requires start.Keys == now.Keys && Servable(start, now, requests)
    requires NoOpposites(Difference(start, now))
    ensures NoOpposites(Difference(start, ServeAll(start, now, requests)))
    decreases |requests|
  {
    if requests != [] {
      var r := requests[0];
      MovedKeepsNoOpposites(start, now, r.partition, r.newOwner);
      var q := ActualPartition(Difference(start, now), r.partition, now[r.partition], r.newOwner);
      MovedIsDifference(start, now, q, r.newOwner);
      EveryRunIsSticky(start, Serve(start, now, r), requests[1..]);
    }
  }

  // ------------------------------------------------------------- the cycle detector

  /** Two members of the list are opposite movements between distinct members. */
  ghost predicate HasOpposites(pairs: seq<Pair>) {
    exists i, j ::
      0 <= i < |pairs| && 0 <= j < |pairs| && pairs[i].src != pairs[i].dst && pairs[j] == pairs[i].Reverse()
  }

  function Without<T>(s: seq<T>, i: nat): seq<T>
    requires i < |s|
  {
    s[..i] + s[i + 1..]
  }

  /** `walk` leads from src to dst along listed pairs. */
  ghost predicate Walk(walk: seq<MemberId>, src: MemberId, dst: MemberId, pairs: seq<Pair>) {
    && |walk| >= 2 && walk[0] == src && walk[|walk| - 1] == dst
    && forall k :: 0 <= k < |walk| - 1 ==> Pair(walk[k], walk[k + 1]) in pairs
  }

  /** The first listed pair that leaves src, or the length of the list. */
  function FirstFrom(pairs: seq<Pair>, src: MemberId): (i: nat)
    ensures i <= |pairs| && (i < |pairs| ==> pairs[i].src == src)
    ensures forall j :: 0 <= j < i ==> pairs[j].src != src
  {
    if pairs == [] then 0
    else if pairs[0].src == src then 0
    else
      var rest := FirstFrom(pairs[1..], src);
      assert forall j :: 0 < j < |pairs| ==> pairs[j] == pairs[1..][j - 1];
      1 + rest
  }

  /** The members visited from src by stepping straight to dst where that pair is listed, and along
      the first outgoing pair where it is not, and whether dst is reached. No pair is used twice. */
  function Follow(src: MemberId, dst: MemberId, pairs: seq<Pair>): (seq<MemberId>, bool)
    decreases |pairs|
  {
    if src == dst then ([], false)
    else if Pair(src, dst) in pairs then ([src, dst], true)
    else
      var i := FirstFrom(pairs, src);
      if i == |pairs| then ([], false)
      else
        var (walk, linked) := Follow(pairs[i].dst, dst, Without(pairs, i));
        ([src] + walk, linked)
  }

  /** A found path is a real walk, and it is a single step exactly when the direct pair is listed. */
  lemma {:induction false} FollowWalks(src: MemberId, dst: MemberId, pairs: seq<Pair>)
    ensures var (walk, linked) := Follow(src, dst, pairs);
            && (linked ==> Walk(walk, src, dst, pairs))
            && (linked && |walk| == 2 <==> src != dst && Pair(src, dst) in pairs)
    decreases |pairs|
  {
    var i := FirstFrom(pairs, src);
    if src != dst && Pair(src, dst) !in pairs && i < |pairs| {
      FollowWalks(pairs[i].dst, dst, Without(pairs, i));
      var (walk, linked) := Follow(pairs[i].dst, dst, Without(pairs, i));
      assert forall x :: x in Without(pairs, i) ==> x in pairs;
      if linked {
        assert pairs[i] == Pair(src, walk[0]);
      }
    }
  }

  /** The walk and the pairs not used yet at each of its steps: while the direct pair to dst is not among
      them, the walk takes the first that leaves where it is; then it steps to dst. */
  ghost predicate Trail(walk: seq<MemberId>, lists: seq<seq<Pair>>, dst: MemberId) {
    && |walk| >= 2 && |lists| == |walk| - 1 && walk[|walk| - 1] == dst
    && (forall k :: 0 <= k < |walk| - 1 ==> walk[k] != dst)
    && (forall k :: 0 <= k < |walk| - 1 ==> (Pair(walk[k], dst) in lists[k] <==> k == |walk| - 2))
    && (forall k :: 0 <= k < |walk| - 2 ==> TakesFirst(lists[k], lists[k + 1], walk[k], walk[k + 1]))
  }

  /** The first pair that leaves src leads to next, and is used up. */
  ghost predicate TakesFirst(pairs: seq<Pair>, rest: seq<Pair>, src: MemberId, next: MemberId) {
    exists i :: FirstLeaving(pairs, src, next, i) && rest == Without(pairs, i)
  }

  ghost predicate FirstLeaving(pairs: seq<Pair>, src: MemberId, next: MemberId, i: nat) {
    i < |pairs| && pairs[i] == Pair(src, next) && forall j :: 0 <= j < i ==> pairs[j].src != src
  }

  lemma TrailTail(walk: seq<MemberId>, lists: seq<seq<Pair>>, dst: MemberId)
    requires Trail(walk, lists, dst) && |walk| > 2
    ensures Trail(walk[1..], lists[1..], dst) && TakesFirst(lists[0], lists[1], walk[0], walk[1])
  {
    hide TakesFirst;
  }

  lemma TrailFront(walk: seq<MemberId>, lists: seq<seq<Pair>>, dst: MemberId, src: MemberId, pairs: seq<Pair>)
    requires Trail(walk, lists, dst) && src != dst && Pair(src, dst) !in pairs
    requires TakesFirst(pairs, lists[0], src, walk[0])
    ensures Trail([src] + walk, [pairs] + lists, dst)
  {
    var w, l := [src] + walk, [pairs] + lists;
    hide TakesFirst;
    forall k | 0 <= k < |w| - 2 ensures TakesFirst(l[k], l[k + 1], w[k], w[k + 1]) {
      if k > 0 {
        assert TakesFirst(lists[k - 1], lists[k], walk[k - 1], walk[k]);
      }
    }
    forall k | 0 <= k < |w| - 1 ensures w[k] != dst && (Pair(w[k], dst) in l[k] <==> k == |w| - 2) {
      if k > 0 {
        assert w[k] == walk[k - 1] && l[k] == lists[k - 1];
      }
    }
  }

  /** Following from src reaches dst whenever such a trail leads there, and takes exactly that trail. */
  lemma {:induction false} FollowFinds(walk: seq<MemberId>, lists: seq<seq<Pair>>, dst: MemberId)
    requires Trail(walk, lists, dst)
    ensures Follow(walk[0], dst, lists[0]) == (walk, true)
    decreases |walk|
  {
    if |walk| == 2 {
      assert walk == [walk[0], dst];
    } else {
      TrailTail(walk, lists, dst);
      var i :| FirstLeaving(lists[0], walk[0], walk[1], i) && lists[1] == Without(lists[0], i);
      assert FirstFrom(lists[0], walk[0]) == i;
      FollowFinds(walk[1..], lists[1..], dst);
      assert walk == [walk[0]] + walk[1..];
    }
  }

  /** And a path it reports is such a trail. */
  lemma {:induction false} FollowTrails(src: MemberId, dst: MemberId, pairs: seq<Pair>) returns (lists: seq<seq<Pair>>)
    requires Follow(src, dst, pairs).1
    ensures Trail(Follow(src, dst, pairs).0, lists, dst) && lists[0] == pairs && Follow(src, dst, pairs).0[0] == src
    decreases |pairs|
  {
    if Pair(src, dst) in pairs {
      lists := [pairs];
    } else {
      var i := FirstFrom(pairs, src);
      lists := FollowTrails(pairs[i].dst, dst, Without(pairs, i));
      assert FirstLeaving(pairs, src, pairs[i].dst, i);
      TrailFront(Follow(pairs[i].dst, dst, Without(pairs, i)).0, lists, dst, src, pairs);
      lists := [pairs] + lists;
    }
  }

  /** Appends to the given path what following from src visits. */
  method IsLinked(src: MemberId, dst: MemberId, pairs: seq<Pair>, currentPath: seq<MemberId>)
    returns (path: seq<MemberId>, linked: bool)
    ensures path == currentPath + Follow(src, dst, pairs).0 && linked == Follow(src, dst, pairs).1
    decreases |pairs|
  {
    if src == dst {
      return currentPath, false;
    }
    if pairs == [] {
      return currentPath, false;
    }
    for k := 0 to |pairs|
      invariant forall j :: 0 <= j < k ==> pairs[j] != Pair(src, dst)
    {
      if pairs[k].src == src && pairs[k].dst == dst {
        return currentPath + [src] + [dst], true;
      }
    }
    for i := 0 to |pairs|
      invariant forall j :: 0 <= j < i ==> pairs[j].src != src
    {
      if pairs[i].src != src {
        continue;
      }
      assert i == FirstFrom(pairs, src);
      path, linked := IsLinked(pairs[i].dst, dst, Without(pairs, i), currentPath + [src]);
      return;
    }
    return currentPath, false;
  }

  /** `c` is the window of s that begins at i. */
  predicate WindowAt<T(==)>(c: seq<T>, s: seq<T>, i: int) {
    0 <= i <= |s| - |c| && s[i..i + |c|] == c
  }

  function Unrolled(cycle: seq<MemberId>): seq<MemberId>
    requires cycle != []
  {
    cycle[..|cycle| - 1] + cycle
  }

  /** A window of the cycle gone round twice, entry by entry. */
  lemma WindowMeans(c: seq<MemberId>, cycle: seq<MemberId>, i: int)
    requires |c| == |cycle| > 0
    ensures WindowAt(c, Unrolled(cycle), i) <==>
            && 0 <= i < |cycle|
            && forall k :: 0 <= k < |c| ==> c[k] == cycle[if i + k < |cycle| - 1 then i + k else i + k - (|cycle| - 1)]
  {
    var s, n := Unrolled(cycle), |cycle| - 1;
    assert |s| == 2 * |cycle| - 1;
    forall j | 0 <= j < |s| ensures s[j] == cycle[if j < n then j else j - n] {
    }
    if 0 <= i < |cycle| {
      if forall k :: 0 <= k < |c| ==> c[k] == cycle[if i + k < n then i + k else i + k - n] {
        assert s[i..i + |c|] == c;
      }
    }
  }

  /** Whether some found cycle of the same length is a rotation of this one. */
  method In(cycle: seq<MemberId>, cycles: seq<seq<MemberId>>) returns (found: bool)
    ensures found <==> (|cycle| >= 2 &&
                        exists c, i :: c in cycles && |c| == |cycle| && WindowAt(c, Unrolled(cycle), i))
  {
    if |cycle| < 2 {
      return false;
    }
    var superCycle := Unrolled(cycle);
    for k := 0 to |cycles|
      invariant forall j, i :: 0 <= j < k && |cycles[j]| == |cycle| ==> !WindowAt(cycles[j], superCycle, i)
    {
      var foundCycle := cycles[k];
      if |foundCycle| != |cycle| {
        continue;
      }
      var matched := false;
      for i := 0 to |superCycle| - |foundCycle| + 1
        invariant !matched
        invariant forall j :: 0 <= j < i ==> !WindowAt(foundCycle, superCycle, j)
      {
        if WindowAt(foundCycle, superCycle, i) {
          matched := true;
          break;
        }
      }
      if matched {
        return true;
      }
    }
    return false;
  }

  /** The detector answers true exactly when the list holds two opposite movements: longer walks are
      found and remembered, and they never hide or fake one. */
  method HasCycles(pairs: seq<Pair>) returns (r: bool)
    ensures r <==> HasOpposites(pairs)
  {
    var cycles: seq<seq<MemberId>> := [];
    for i := 0 to |pairs|
      invariant forall c :: c in cycles ==> |c| != 3
      invariant forall k, j :: 0 <= k < i && 0 <= j < |pairs| && pairs[k].src != pairs[k].dst ==>
        pairs[j] != pairs[k].Reverse()
    {
      var reducedPairs := Without(pairs, i);
      var path, linked := IsLinked(pairs[i].dst, pairs[i].src, reducedPairs, [pairs[i].src]);
      FollowWalks(pairs[i].dst, pairs[i].src, reducedPairs);
      assert forall j :: 0 <= j < |pairs| && j != i ==> pairs[j] in reducedPairs by {
        forall j | 0 <= j < |pairs| && j != i ensures pairs[j] in reducedPairs {
          assert pairs[j] == reducedPairs[if j < i then j else j - 1];
        }
      }
      if linked {
        var seen := In(path, cycles);
        if !seen {
          cycles := cycles + [path];
          if |path| == 3 {
            assert pairs[i].Reverse() in pairs;
            return true;
          }
        }
      }
    }
    return false;
  }

  // ------------------------------------------------------------------- the record itself

  class PartitionMovements {
    var byTopic: ByTopic
    var movements: Record

    ghost predicate Valid()
      reads this
    {
      Indexes(byTopic, movements)
    }

    constructor ()
      ensures Valid() && movements == map[]
    {
      byTopic := map[];
      movements := map[];
    }

    method RemoveMovementRecordOfPartition(p: TopicPartition) returns (pair: Pair)
      requires Valid() && p in movements
      modifies this
      ensures Valid()
      ensures pair == old(movements)[p] && movements == old(movements) - {p}
    {
      hide Indexes;
      FiledUnder(byTopic, movements, p);
      pair := movements[p];
      movements := movements - {p};
      var topicMap := byTopic[p.topic];
      topicMap := topicMap[pair := topicMap[pair] - {p}];
      if topicMap[pair] == {} {
        topicMap := topicMap - {pair};
        assert topicMap == old(byTopic)[p.topic] - {pair};
      }
      byTopic := byTopic[p.topic := topicMap];
      if byTopic[p.topic] == map[] {
        byTopic := byTopic - {p.topic};
        assert byTopic == old(byTopic) - {p.topic};
      }
      RemovedIndexes(old(byTopic), byTopic, old(movements), p);
    }

    method AddPartitionMovementRecord(p: TopicPartition, pair: Pair)
      requires Valid() && p !in movements
      modifies this
      ensures Valid()
      ensures movements == old(movements)[p := pair]
    {
      hide Indexes;
      movements := movements[p := pair];
      if p.topic !in byTopic {
        byTopic := byTopic[p.topic := map[]];
      }
      var topicMap := byTopic[p.topic];
      if pair !in topicMap {
        topicMap := topicMap[pair := {}];
      }
      topicMap := topicMap[pair := topicMap[pair] + {p}];
      byTopic := byTopic[p.topic := topicMap];
      ghost var b := old(byTopic);
      ghost var filed := (if p.topic in b then b[p.topic] else map[])[pair := Bucket(b, p.topic, pair) + {p}];
      assert topicMap == filed;
      assert byTopic == b[p.topic := filed];
      AddedIndexes(old(byTopic), byTopic, old(movements), p, pair);
    }

    method MovePartition(p: TopicPartition, oldConsumer: MemberId, newConsumer: MemberId)
      requires Valid()
      modifies this
      ensures Valid()
      ensures movements == Moved(old(movements), p, oldConsumer, newConsumer)
    {
      if p in movements {
        var existing := RemoveMovementRecordOfPartition(p);
        if existing.src != newConsumer {
          AddPartitionMovementRecord(p, Pair(existing.src, newConsumer));
          assert movements == old(movements)[p := Pair(existing.src, newConsumer)];
        }
      } else {
        AddPartitionMovementRecord(p, Pair(oldConsumer, newConsumer));
      }
    }

    /** The look-up through the index finds what a scan of the whole record would. */
    method GetTheActualPartitionToBeMoved(p: TopicPartition, oldConsumer: MemberId, newConsumer: MemberId)
      returns (q: TopicPartition)
      requires Valid()
      ensures q == ActualPartition(movements, p, oldConsumer, newConsumer)
    {
      PartitionOrder();
      assert Bucket(byTopic, p.topic, Pair(newConsumer, Origin(movements, p, oldConsumer)))
          == Reversals(movements, p, oldConsumer, newConsumer);
      if p.topic !in byTopic {
        return p;
      }
      var actualOld := oldConsumer;
      if p in movements {
        actualOld := movements[p].src;
      }
      var reversePair := Pair(newConsumer, actualOld);
      if reversePair !in byTopic[p.topic] {
        return p;
      }
      var bucket := byTopic[p.topic][reversePair];
      q := Least(bucket, PartitionLe);
    }

    /** The verdict computed through the index and the cycle search is exactly that no topic holds
        a movement and its reverse. */
    method IsSticky() returns (sticky: bool)
      requires Valid()
      ensures sticky <==> NoOpposites(movements)
    {
      var index := byTopic;
      ghost var record := movements;
      assert Indexes(index, record);
      hide *;
      var topics := SortedStrings(index.Keys);
      for i := 0 to |topics|
        invariant forall k :: 0 <= k < i ==> !TopicOpposed(record, topics[k])
      {
        var cyclic := TopicHasCycles(index, record, topics[i]);
        if cyclic {
          TopicBreaks(record, topics[i]);
          return false;
        }
      }
      AllTopics(index, record, topics);
      return true;
    }
  }

  method TopicHasCycles(b: ByTopic, ghost record: Record, topic: string) returns (cyclic: bool)
    requires Indexes(b, record) && topic in b
    ensures cyclic <==> TopicOpposed(record, topic)
  {
    hide Indexes, TopicOpposed, HasOpposites;
    var movementPairs := SortedPairs(b[topic].Keys);
    cyclic := HasCycles(movementPairs);
    TopicCycles(b, record, topic, movementPairs);
  }

  ghost predicate TopicOpposed(record: Record, topic: string) {
    exists p, q :: Opposed(record, p, q) && p.topic == topic
  }

  /** The pairs filed under a topic are opposed exactly when two of its recorded movements are. */
  lemma TopicCycles(b: ByTopic, record: Record, topic: string, pairs: seq<Pair>)
    requires Indexes(b, record) && topic in b
    requires forall pair :: pair in pairs <==> pair in b[topic]
    ensures HasOpposites(pairs) <==> TopicOpposed(record, topic)
  {
    if HasOpposites(pairs) {
      var i, j :|
        0 <= i < |pairs| && 0 <= j < |pairs| && pairs[i].src != pairs[i].dst && pairs[j] == pairs[i].Reverse();
      var p := BucketMember(b, record, topic, pairs[i]);
      var q := BucketMember(b, record, topic, pairs[j]);
      assert Opposed(record, p, q);
    }
    if TopicOpposed(record, topic) {
      var p, q :| Opposed(record, p, q) && p.topic == topic;
      FiledUnder(b, record, p);
      FiledUnder(b, record, q);
      assert record[p] in pairs && record[q] in pairs;
    }
  }

  lemma TopicBreaks(record: Record, topic: string)
    requires TopicOpposed(record, topic)
    ensures !NoOpposites(record)
  {
  }

  lemma AllTopics(b: ByTopic, record: Record, topics: seq<string>)
    requires Indexes(b, record)
    requires forall t :: t in topics <==> t in b
    requires forall k :: 0 <= k < |topics| ==> !TopicOpposed(record, topics[k])
    ensures NoOpposites(record)
  {
    forall p, q ensures !Opposed(record, p, q) {
      if p in record {
        FiledUnder(b, record, p);
        var k :| 0 <= k < |topics| && topics[k] == p.topic;
      }
    }
  }

  lemma BucketMember(b: ByTopic, record: Record, topic: string, pair: Pair) returns (p: TopicPartition)
    requires Indexes(b, record) && topic in b && pair in b[topic]
    ensures p in record && p.topic == topic && record[p] == pair
  {
    assert Bucket(b, topic, pair) == Movers(record, topic, pair);
    p :| p in b[topic][pair];
  }

  predicate PairLe(a: Pair, b: Pair) {
    if a.src == b.src then MemberLe(a.dst, b.dst) else MemberLe(a.src, b.src)
  }

  function SortedPairs(s: set<Pair>): (r: seq<Pair>)
    ensures forall x :: x in r <==> x in s
  {
    StringOrder();
    Sorted(s, PairLe)
  }
}
