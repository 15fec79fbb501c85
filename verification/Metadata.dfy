/** The client's topic metadata and the per-topic partition lists it caches beside it. */
module Metadata {
  import opened Order

  const NO_ERROR := 0
  const UNKNOWN_TOPIC_OR_PARTITION := 3
  const LEADER_NOT_AVAILABLE := 5

  datatype Partition = Partition(id: int, err: int, leader: int, leaderEpoch: int, replicas: seq<int>, isr: seq<int>)

  datatype Topic = Topic(name: string, err: int, partitions: seq<Partition>)

  datatype Kind = All | Writable

  /** The two cached lists of a topic, an array indexed by kind in the source. */
  datatype Lists = Lists(all: seq<int>, writable: seq<int>)

  type Table = map<int, Partition>

  /** The three maps the client keeps. */
  datatype State = State(metadata: map<string, Table>, topics: set<string>, cached: map<string, Lists>)

  const EMPTY := State(map[], {}, map[])

  // ---------------------------------------------------------------- what the lists should be

  function SortedInts(s: set<int>): (r: seq<int>)
    ensures forall x :: x in r <==> x in s
    ensures NoDup(r) && SortedBy(r, IntLe) && |r| == |s|
  {
    Sorted(s, IntLe)
  }

  predicate Listed(kind: Kind, p: Partition) {
    kind == Writable ==> p.err != LEADER_NOT_AVAILABLE
  }

  function Wanted(m: Table, kind: Kind): set<int> {
    set id | id in m && Listed(kind, m[id])
  }

  /** The ids of a table that belong in a list, ascending. */
  function IdsOf(m: Table, kind: Kind): seq<int> {
    SortedInts(Wanted(m, kind))
  }

  function ListsOf(m: Table): Lists {
    Lists(IdsOf(m, All), IdsOf(m, Writable))
  }

  function TableOf(c: State, topic: string): Table {
    if topic in c.metadata then c.metadata[topic] else map[]
  }

  function Lookup(c: State, topic: string, kind: Kind): seq<int> {
    if topic !in c.cached then []
    else match kind case All => c.cached[topic].all case Writable => c.cached[topic].writable
  }

  /** The cache agrees with the metadata, and no topic with metadata is missing from it. */
  ghost predicate Agrees(c: State) {
    && (forall topic :: topic in c.cached ==> c.cached[topic] == ListsOf(TableOf(c, topic)))
    && c.metadata.Keys <= c.cached.Keys <= c.topics
    && (forall topic :: topic in c.metadata ==> c.metadata[topic] != map[])
  }

  lemma IdsOfNothing(kind: Kind)
    ensures IdsOf(map[], kind) == []
  {
    assert Wanted(map[], kind) == {};
  }

  /** Whatever is looked up, cached or not, is what recomputing from the metadata gives: exactly the
      ids of the right kind, each once, ascending. */
  lemma LookupIsExact(c: State, topic: string, kind: Kind)
    requires Agrees(c)
    ensures Lookup(c, topic, kind) == IdsOf(TableOf(c, topic), kind)
    ensures NoDup(Lookup(c, topic, kind)) && SortedBy(Lookup(c, topic, kind), IntLe)
    ensures forall id :: id in Lookup(c, topic, kind)
                <==> topic in c.metadata && id in c.metadata[topic] && Listed(kind, c.metadata[topic][id])
  {
    IdsOfNothing(kind);
  }

  // ---------------------------------------------------------------- what a response does

  /** Later entries with the same id overwrite earlier ones. */
  function ById(s: seq<Partition>): Table {
    if s == [] then map[]
    else
      var last := s[|s| - 1];
      ById(s[..|s| - 1])[last.id := last]
  }

  lemma ByIdEmpty(s: seq<Partition>)
    ensures ById(s) == map[] <==> s == []
  {
    if s != [] {
      assert s[|s| - 1].id in ById(s);
    }
  }

  predicate LastWithId(s: seq<Partition>, i: nat) {
    i < |s| && forall j :: i < j < |s| ==> s[j].id != s[i].id
  }

  lemma {:induction false} LastPartitionWins(s: seq<Partition>, i: nat)
    requires LastWithId(s, i)
    ensures s[i].id in ById(s) && ById(s)[s[i].id] == s[i]
  {
    var n := |s| - 1;
    if i < n {
      assert s[n].id != s[i].id;
      LastPartitionWins(s[..n], i);
    }
  }

  lemma {:induction false} OnlyItsPartitions(s: seq<Partition>, id: int)
    requires id in ById(s)
    ensures exists i: nat :: LastWithId(s, i) && s[i].id == id
  {
    var n := |s| - 1;
    if s[n].id == id {
      assert LastWithId(s, n);
    } else {
      OnlyItsPartitions(s[..n], id);
      var i: nat :| LastWithId(s[..n], i) && s[..n][i].id == id;
      assert forall j :: i < j < n ==> s[..n][j] == s[j];
      assert LastWithId(s, i);
    }
  }

  /** The error codes after which the source goes on to the partitions. */
  predicate Accepted(err: int) {
    err == NO_ERROR || err == LEADER_NOT_AVAILABLE
  }

  function Enter(c: State, t: Topic): State {
    var metadata, topics, cached := c.metadata - {t.name}, c.topics + {t.name}, c.cached - {t.name};
    if !Accepted(t.err) then State(metadata, topics, cached)
    else
      State(if t.partitions == [] then metadata else metadata[t.name := ById(t.partitions)], topics,
            cached[t.name := ListsOf(ById(t.partitions))])
  }

  function EnterAll(c: State, ts: seq<Topic>): State {
    if ts == [] then c else Enter(EnterAll(c, ts[..|ts| - 1]), ts[|ts| - 1])
  }

  function Update(c: State, ts: seq<Topic>, all: bool): State {
    EnterAll(if all then EMPTY else c, ts)
  }

  predicate LeaderMissing(s: seq<Partition>) {
    exists i :: 0 <= i < |s| && s[i].err == LEADER_NOT_AVAILABLE
  }

  /** The topics that make the caller ask again. */
  predicate Retries(t: Topic) {
    || t.err == UNKNOWN_TOPIC_OR_PARTITION || t.err == LEADER_NOT_AVAILABLE
    || (t.err == NO_ERROR && LeaderMissing(t.partitions))
  }

  lemma EnterAgrees(c: State, t: Topic)
    requires Agrees(c)
    ensures Agrees(Enter(c, t))
  {
    var d := Enter(c, t);
    ByIdEmpty(t.partitions);
    hide ListsOf, ById;
    assert TableOf(d, t.name) == if Accepted(t.err) then ById(t.partitions) else map[];
    forall topic | topic in d.cached ensures d.cached[topic] == ListsOf(TableOf(d, topic)) {
      if topic != t.name {
        assert topic in c.cached && TableOf(c, topic) == TableOf(d, topic);
      }
    }
    assert d.metadata.Keys <= d.cached.Keys <= d.topics;
  }

  lemma {:induction false} EnterAllAgrees(c: State, ts: seq<Topic>)
    requires Agrees(c)
    ensures Agrees(EnterAll(c, ts))
  {
    if ts != [] {
      EnterAllAgrees(c, ts[..|ts| - 1]);
      EnterAgrees(EnterAll(c, ts[..|ts| - 1]), ts[|ts| - 1]);
    }
  }

  datatype Response = Response(topics: seq<Topic>, all: bool)

  function Updates(c: State, run: seq<Response>): State {
    if run == [] then c
    else Update(Updates(c, run[..|run| - 1]), run[|run| - 1].topics, run[|run| - 1].all)
  }

  /** Whatever responses arrive, faulty, repeating or complete, the cache agrees with the metadata. */
  lemma {:induction false} EveryRunAgrees(run: seq<Response>)
    ensures Agrees(Updates(EMPTY, run))
  {
    if run != [] {
      EveryRunAgrees(run[..|run| - 1]);
      var last := run[|run| - 1];
      EnterAllAgrees(if last.all then EMPTY else Updates(EMPTY, run[..|run| - 1]), last.topics);
    }
  }

  predicate LastWithName(ts: seq<Topic>, i: nat) {
    i < |ts| && forall j :: i < j < |ts| ==> ts[j].name != ts[i].name
  }

  /** A topic's last entry alone decides it, whatever the earlier entries and the old state said. */
  lemma {:induction false} LastTopicWins(c: State, ts: seq<Topic>, i: nat)
    requires LastWithName(ts, i)
    ensures var d, t := EnterAll(c, ts), ts[i];
            && t.name in d.topics
            && (t.name in d.cached <==> Accepted(t.err))
            && (t.name in d.metadata <==> Accepted(t.err) && t.partitions != [])
            && TableOf(d, t.name) == (if Accepted(t.err) then ById(t.partitions) else map[])
  {
    var n := |ts| - 1;
    if i < n {
      assert ts[n].name != ts[i].name;
      LastTopicWins(c, ts[..n], i);
    }
  }

  predicate Mentions(ts: seq<Topic>, topic: string) {
    exists i :: 0 <= i < |ts| && ts[i].name == topic
  }

  /** A topic of which the three maps know nothing. */
  predicate Forgotten(c: State, topic: string) {
    topic !in c.metadata && topic !in c.cached && topic !in c.topics
  }

  /** The three maps say the same about a topic. */
  predicate SameAbout(c: State, d: State, topic: string) {
    && (topic in c.metadata <==> topic in d.metadata) && TableOf(c, topic) == TableOf(d, topic)
    && (topic in c.cached <==> topic in d.cached) && (topic in c.cached ==> c.cached[topic] == d.cached[topic])
    && (topic in c.topics <==> topic in d.topics)
  }

  /** A topic the response does not mention is left alone. */
  lemma {:induction false} OthersStay(c: State, ts: seq<Topic>, topic: string)
    requires !Mentions(ts, topic)
    ensures SameAbout(c, EnterAll(c, ts), topic)
  {
    var n := |ts| - 1;
    if ts != [] {
      assert ts[n].name != topic;
      OthersStay(c, ts[..n], topic);
    }
  }

  // ---------------------------------------------------------------- full and partial refreshes

  /** A full refresh forgets every topic the response does not mention, a partial one keeps it as it was. */
  lemma RefreshOthers(c: State, ts: seq<Topic>, all: bool, topic: string)
    requires !Mentions(ts, topic)
    ensures if all then Forgotten(Update(c, ts, all), topic) else SameAbout(c, Update(c, ts, all), topic)
  {
    OthersStay(if all then EMPTY else c, ts, topic);
  }

  lemma RefreshAllOthers(c: State, ts: seq<Topic>, all: bool)
    ensures all ==> forall t :: !Mentions(ts, t) ==> Forgotten(Update(c, ts, all), t)
    ensures !all ==> forall t :: !Mentions(ts, t) ==> SameAbout(c, Update(c, ts, all), t)
  {
    hide Forgotten, SameAbout, Mentions;
    forall t | !Mentions(ts, t)
      ensures if all then Forgotten(Update(c, ts, all), t) else SameAbout(c, Update(c, ts, all), t)
    {
      RefreshOthers(c, ts, all, t);
    }
  }

  /** What a full refresh leaves depends on the response alone. */
  lemma FullRefreshIsFresh(c: State, d: State, ts: seq<Topic>)
    ensures Update(c, ts, true) == Update(d, ts, true) == Update(EMPTY, ts, false)
  {
  }

  /** What either kind of refresh leaves of a topic that the response mentions depends on its last entry
      alone. */
  lemma RefreshMentioned(c: State, ts: seq<Topic>, all: bool, i: nat)
    requires LastWithName(ts, i)
    ensures var d, t := Update(c, ts, all), ts[i];
            && t.name in d.topics
            && (t.name in d.cached <==> Accepted(t.err))
            && (t.name in d.metadata <==> Accepted(t.err) && t.partitions != [])
            && TableOf(d, t.name) == (if Accepted(t.err) then ById(t.partitions) else map[])
  {
    LastTopicWins(if all then EMPTY else c, ts, i);
  }

  /** Some last entry for this id carries the topic, and for the writable list an error code other than 5. */
  ghost predicate Carried(t: Topic, kind: Kind, id: int) {
    exists k: nat :: LastWithId(t.partitions, k) && t.partitions[k].id == id &&
                     (kind == Writable ==> t.partitions[k].err != 5)
  }

  /** What is looked up after a refresh, for a topic that the response mentions: when its last entry has
      error code 0 or 5, exactly the ids carried there, in ascending order, and nothing otherwise. */
  lemma AnswersAre(c: State, ts: seq<Topic>, all: bool, i: nat, kind: Kind)
    requires Agrees(c) && LastWithName(ts, i)
    ensures var r := Lookup(Update(c, ts, all), ts[i].name, kind);
            && (forall id :: id in r <==> (ts[i].err == 0 || ts[i].err == 5) && Carried(ts[i], kind, id))
            && (forall k, l :: 0 <= k < l < |r| ==> r[k] < r[l])
  {
    var d, t := Update(c, ts, all), ts[i];
    var r := Lookup(d, t.name, kind);
    EnterAllAgrees(if all then EMPTY else c, ts);
    RefreshMentioned(c, ts, all, i);
    LookupIsExact(d, t.name, kind);
    hide Update, Lookup, LastWithId, LastWithName, Agrees;
    forall id ensures id in r <==> (t.err == 0 || t.err == 5) && Carried(t, kind, id) {
      CarriedIsListed(t, kind, id);
    }
    Ascending(r);
  }

  lemma CarriedIsListed(t: Topic, kind: Kind, id: int)
    ensures Carried(t, kind, id) <==> id in ById(t.partitions) && Listed(kind, ById(t.partitions)[id])
  {
    if id in ById(t.partitions) {
      OnlyItsPartitions(t.partitions, id);
      var k: nat :| LastWithId(t.partitions, k) && t.partitions[k].id == id;
      LastPartitionWins(t.partitions, k);
    }
    if k: nat :| LastWithId(t.partitions, k) && t.partitions[k].id == id {
      LastPartitionWins(t.partitions, k);
      forall l: nat | LastWithId(t.partitions, l) && t.partitions[l].id == id ensures l == k {
      }
    }
  }

  lemma Ascending(r: seq<int>)
    requires NoDup(r) && SortedBy(r, IntLe)
    ensures forall k, l :: 0 <= k < l < |r| ==> r[k] < r[l]
  {
    forall k, l | 0 <= k < l < |r| ensures r[k] < r[l] {
      assert IntLe(r[k], r[l]) && r[k] != r[l];
    }
  }

  /** A retry is asked for by error codes 3 and 5 of a topic, and by 5 of a partition in a topic without
      error. */
  lemma RetriesExactly(t: Topic)
    ensures Retries(t) <==>
            t.err == 3 || t.err == 5 || (t.err == 0 && exists p :: p in t.partitions && p.err == 5)
  {
    if p :| p in t.partitions && p.err == 5 {
      var i :| 0 <= i < |t.partitions| && t.partitions[i] == p;
      assert t.partitions[i].err == LEADER_NOT_AVAILABLE;
    }
    if i :| 0 <= i < |t.partitions| && t.partitions[i].err == LEADER_NOT_AVAILABLE {
      assert t.partitions[i] in t.partitions;
    }
  }

  // ---------------------------------------------------------------- the client

  /** Those of the given ids that belong in a list, in the given order. */
  function Kept(m: Table, kind: Kind, ids: seq<int>): seq<int>
    requires forall k :: 0 <= k < |ids| ==> ids[k] in m
  {
    if ids == [] then []
    else
      var id := ids[|ids| - 1];
      Kept(m, kind, ids[..|ids| - 1]) + if Listed(kind, m[id]) then [id] else []
  }

  lemma {:induction false} KeptAre(m: Table, kind: Kind, ids: seq<int>, id: int)
    requires forall k :: 0 <= k < |ids| ==> ids[k] in m
    ensures id in Kept(m, kind, ids) <==> id in ids && Listed(kind, m[id])
  {
    if ids != [] {
      KeptAre(m, kind, ids[..|ids| - 1], id);
      assert ids == ids[..|ids| - 1] + [ids[|ids| - 1]];
    }
  }

  lemma KeptAreWanted(m: Table, kind: Kind, ids: seq<int>)
    requires forall id :: id in ids <==> id in m.Keys
    ensures forall k :: 0 <= k < |ids| ==> ids[k] in m
    ensures Elems(Kept(m, kind, ids)) == Wanted(m, kind)
  {
    forall k | 0 <= k < |ids| ensures ids[k] in m {
      var id := ids[k];
      assert id in ids;
    }
    forall id ensures id in Kept(m, kind, ids) <==> id in Wanted(m, kind) {
      KeptAre(m, kind, ids, id);
    }
  }

  lemma KeptStep(m: Table, kind: Kind, ids: seq<int>, i: nat)
    requires i < |ids| && forall k :: 0 <= k < |ids| ==> ids[k] in m
    ensures Kept(m, kind, ids[..i + 1]) == Kept(m, kind, ids[..i]) + if Listed(kind, m[ids[i]]) then [ids[i]] else []
  {
    assert ids[..i + 1][..i] == ids[..i];
  }

  /** Collects the ids of one kind in map order. */
  method Collect(table: Table, kind: Kind) returns (ret: seq<int>)
    ensures Elems(ret) == Wanted(table, kind)
  {
    var keys := SortedInts(table.Keys);
    KeptAreWanted(table, kind, keys);
    ret := CollectFrom(table, kind, keys);
  }

  /** The loop itself, over keys in any order. */
  method CollectFrom(table: Table, kind: Kind, keys: seq<int>) returns (ret: seq<int>)
    requires forall k :: 0 <= k < |keys| ==> keys[k] in table
    ensures ret == Kept(table, kind, keys)
  {
    ret := [];
    assert Kept(table, kind, keys[..0]) == [];
    hide Kept;
    for i := 0 to |keys|
      invariant ret == Kept(table, kind, keys[..i])
    {
      KeptStep(table, kind, keys, i);
      if kind == Writable && table[keys[i]].err == LEADER_NOT_AVAILABLE {
        continue;
      }
      ret := ret + [keys[i]];
    }
    assert keys[..|keys|] == keys;
  }

  class Client {
    var closed: bool
    var metadata: map<string, Table>
    var metadataTopics: set<string>
    var cachedPartitions: map<string, Lists>

    ghost function Contents(): State
      reads this
    {
      State(metadata, metadataTopics, cachedPartitions)
    }

    ghost predicate Valid()
      reads this
    {
      Agrees(Contents())
    }

    constructor ()
      ensures Valid() && !closed && Contents() == EMPTY
    {
      closed, metadata, metadataTopics, cachedPartitions := false, map[], {}, map[];
    }

    method CachedPartitions(topic: string, kind: Kind) returns (r: seq<int>)
      requires Valid()
      ensures r == Lookup(Contents(), topic, kind)
      ensures forall id :: id in r <==> topic in metadata && id in metadata[topic] && Listed(kind, metadata[topic][id])
      ensures forall k, l :: 0 <= k < l < |r| ==> r[k] < r[l]
    {
      LookupIsExact(Contents(), topic, kind);
      Ascending(Lookup(Contents(), topic, kind));
      if topic !in cachedPartitions {
        return [];
      }
      r := match kind case All => cachedPartitions[topic].all case Writable => cachedPartitions[topic].writable;
    }

    /** Recomputes one list from the metadata. */
    method SetPartitionCache(topic: string, kind: Kind) returns (r: seq<int>)
      ensures r == IdsOf(TableOf(Contents(), topic), kind)
    {
      var ret: seq<int> := [];
      if topic in metadata {
        ret := Collect(metadata[topic], kind);
      } else {
        assert Elems(ret) == Wanted(map[], kind);
      }
      r := SortedInts(Elems(ret));
    }

    method UpdateMetadata(topics: seq<Topic>, all: bool) returns (retry: bool)
      requires Valid()
      modifies `metadata, `metadataTopics, `cachedPartitions
      ensures Valid()
      ensures closed ==> !retry && Contents() == old(Contents())
      ensures !closed ==> Contents() == Update(old(Contents()), topics, all)
      ensures !closed && all ==>
                forall t :: !Mentions(topics, t) ==> t !in metadata && t !in metadataTopics && t !in cachedPartitions
      ensures !closed && !all ==> forall t :: !Mentions(topics, t) ==> SameAbout(old(Contents()), Contents(), t)
      ensures !closed ==> (retry <==> exists i :: 0 <= i < |topics| && Retries(topics[i]))
    {
      if closed {
        return false;
      }
      if all {
        metadata, metadataTopics, cachedPartitions := map[], {}, map[];
      }
      ghost var base := Contents();
      retry := false;
      for i := 0 to |topics|
        invariant Contents() == EnterAll(base, topics[..i])
        invariant retry <==> exists k :: 0 <= k < i && Retries(topics[k])
      {
        var again := UpdateTopic(topics[i]);
        retry := retry || again;
        assert topics[..i + 1][..i] == topics[..i];
      }
      assert topics[..|topics|] == topics;
      EnterAllAgrees(base, topics);
      RefreshAllOthers(old(Contents()), topics, all);
    }

    /** One turn of the loop over topics: what it does to the maps, and whether it asks for a retry. */
    method UpdateTopic(t: Topic) returns (retry: bool)
      modifies `metadata, `metadataTopics, `cachedPartitions
      ensures Contents() == Enter(old(Contents()), t)
      ensures retry <==> Retries(t)
    {
      retry := false;
      metadataTopics := metadataTopics + {t.name};
      metadata := metadata - {t.name};
      cachedPartitions := cachedPartitions - {t.name};
      if t.err == UNKNOWN_TOPIC_OR_PARTITION {
        retry := true;
        return;
      } else if t.err == LEADER_NOT_AVAILABLE {
        retry := true;
      } else if t.err != NO_ERROR {
        // an invalid topic, a failed authorisation and every unexpected code
        return;
      }
      ghost var before := metadata;
      for i := 0 to |t.partitions|
        invariant metadata == if i == 0 then before else before[t.name := ById(t.partitions[..i])]
        invariant retry <==> t.err == LEADER_NOT_AVAILABLE || LeaderMissing(t.partitions[..i])
        invariant metadataTopics == old(metadataTopics) + {t.name}
        invariant cachedPartitions == old(cachedPartitions) - {t.name}
      {
        var p := t.partitions[i];
        var table := if t.name in metadata then metadata[t.name] else map[];
        metadata := metadata[t.name := table[p.id := p]];
        if p.err == LEADER_NOT_AVAILABLE {
          retry := true;
        }
        LeaderMissingGrows(t.partitions, i);
        assert t.partitions[..i + 1][..i] == t.partitions[..i];
      }
      assert t.partitions[..|t.partitions|] == t.partitions;
      var allPartitions := SetPartitionCache(t.name, All);
      var writablePartitions := SetPartitionCache(t.name, Writable);
      cachedPartitions := cachedPartitions[t.name := Lists(allPartitions, writablePartitions)];
    }
  }

  lemma LeaderMissingGrows(s: seq<Partition>, i: nat)
    requires i < |s|
    ensures LeaderMissing(s[..i + 1]) <==> LeaderMissing(s[..i]) || s[i].err == LEADER_NOT_AVAILABLE
  {
    if LeaderMissing(s[..i]) {
      var j :| 0 <= j < i && s[..i][j].err == LEADER_NOT_AVAILABLE;
      assert s[..i + 1][j].err == LEADER_NOT_AVAILABLE;
    }
    if s[i].err == LEADER_NOT_AVAILABLE {
      assert s[..i + 1][i].err == LEADER_NOT_AVAILABLE;
    }
    if LeaderMissing(s[..i + 1]) {
      var j :| 0 <= j <= i && s[..i + 1][j].err == LEADER_NOT_AVAILABLE;
      assert j < i ==> s[..i][j].err == LEADER_NOT_AVAILABLE;
    }
  }
}
