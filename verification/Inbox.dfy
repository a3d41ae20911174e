/** The durable inbox of generation messages (node/swarm.py:37-63 and 71-91), as a value: what filing
    and popping leave in it, and what a bucket holds after any history of both. */
module Inbox {
  import opened Prelude
  import opened Consensus
  import opened Protocol

  datatype Kind = CommitKind | ScoreKind

  datatype Key = Key(kind: Kind, roundId: string, syncSeq: nat)

  type Bucket = map<NodeId, Body>
  type Store = map<Key, Bucket>

  /** The bucket a message belongs to; membership and round messages have none. */
  function KeyOf(body: Body): Option<Key> {
    match body
    case Commit(r, n, _, _, _) => Some(Key(CommitKind, r, n))
    case DisputeScore(r, n, _) => Some(Key(ScoreKind, r, n))
    case _ => None
  }

  function BucketOf(store: Store, key: Key): Bucket {
    if key in store then store[key] else map[]
  }

  /** `_gen_inbox.setdefault(key, {})[node_id] = payload` */
  function File(store: Store, env: Envelope): Store {
    match KeyOf(env.body)
    case None => store
    case Some(key) => store[key := BucketOf(store, key)[env.nodeId := env.body]]
  }

  function FileAll(store: Store, envs: seq<Envelope>): Store {
    if envs == [] then store else File(FileAll(store, envs[..|envs| - 1]), envs[|envs| - 1])
  }

  function Pop(store: Store, key: Key): Store {
    map k | k in store && k != key :: store[k]
  }

  /** `{k: v for k, v in bucket.items() if k in expected_from}` */
  function From(bucket: Bucket, expected: set<NodeId>): Bucket {
    map n | n in bucket && n in expected :: bucket[n]
  }

  // ---------------------------------------------------------------- histories

  datatype Event = Filed(env: Envelope) | Popped(key: Key)

  function Replay(events: seq<Event>): Store {
    if events == [] then map[] else
      var before := Replay(events[..|events| - 1]);
      match events[|events| - 1]
      case Filed(env) => File(before, env)
      case Popped(key) => Pop(before, key)
  }

  predicate Files(e: Event, key: Key, sender: NodeId) {
    e.Filed? && e.env.nodeId == sender && KeyOf(e.env.body) == Some(key)
  }

  /** Event i is the latest message of this key and sender, and the key was not popped since. */
  ghost predicate LatestAt(events: seq<Event>, key: Key, sender: NodeId, i: int) {
    && 0 <= i < |events| && Files(events[i], key, sender)
    && forall j :: i < j < |events| ==> events[j] != Popped(key) && !Files(events[j], key, sender)
  }

  /** A bucket holds, for each sender, its latest message since the key was last popped: nothing that
      was dispatched early is lost, nothing else is there, and duplicates do not matter. */
  lemma {:induction false} BucketIsLatest(events: seq<Event>, key: Key, sender: NodeId)
    ensures sender in BucketOf(Replay(events), key) <==> exists i :: LatestAt(events, key, sender, i)
    ensures forall i :: LatestAt(events, key, sender, i) ==>
              sender in BucketOf(Replay(events), key) && BucketOf(Replay(events), key)[sender] == events[i].env.body
  {
    if events != [] {
      var before, last := events[..|events| - 1], events[|events| - 1];
      BucketIsLatest(before, key, sender);
      if last == Popped(key) {
        assert forall i :: !LatestAt(events, key, sender, i);
      } else if Files(last, key, sender) {
        assert LatestAt(events, key, sender, |events| - 1);
        assert forall i :: LatestAt(events, key, sender, i) ==> i == |events| - 1;
      } else {
        assert BucketOf(Replay(events), key) == BucketOf(Replay(before), key) || last.Filed?;
        forall i
          ensures LatestAt(events, key, sender, i) <==> LatestAt(before, key, sender, i)
        {
          assert forall j :: 0 <= j < |before| ==> events[j] == before[j];
        }
      }
    }
  }

  /** A message delivered again while its bucket is open changes nothing. */
  lemma DuplicateIsIdle(store: Store, env: Envelope, between: seq<Envelope>)
    requires forall e :: e in between && e.nodeId == env.nodeId ==> KeyOf(e.body) != KeyOf(env.body)
    ensures File(FileAll(File(store, env), between), env) == FileAll(File(store, env), between)
  {
    if KeyOf(env.body).Some? {
      StaysFiled(store, env, between);
      var s := FileAll(File(store, env), between);
      var key := KeyOf(env.body).value;
      assert BucketOf(s, key)[env.nodeId := env.body] == BucketOf(s, key);
    }
  }

  lemma {:induction false} StaysFiled(store: Store, env: Envelope, between: seq<Envelope>)
    requires KeyOf(env.body).Some?
    requires forall e :: e in between && e.nodeId == env.nodeId ==> KeyOf(e.body) != KeyOf(env.body)
    ensures var s := FileAll(File(store, env), between);
            KeyOf(env.body).value in s && env.nodeId in s[KeyOf(env.body).value]
                && s[KeyOf(env.body).value][env.nodeId] == env.body
  {
    if between != [] {
      StaysFiled(store, env, between[..|between| - 1]);
      assert between[|between| - 1] in between;
    }
  }

  function Filings(envs: seq<Envelope>): (events: seq<Event>)
    ensures |events| == |envs|
  {
    if envs == [] then [] else Filings(envs[..|envs| - 1]) + [Filed(envs[|envs| - 1])]
  }

  lemma {:induction false} ReplayFilings(events: seq<Event>, envs: seq<Envelope>)
    ensures Replay(events + Filings(envs)) == FileAll(Replay(events), envs)
  {
    if envs == [] {
      assert events + Filings(envs) == events;
    } else {
      var last := |envs| - 1;
      ReplayFilings(events, envs[..last]);
      var all := events + Filings(envs);
      assert all[..|all| - 1] == events + Filings(envs[..last]);
    }
  }

  lemma {:induction false} FilingsConcat(store: Store, a: seq<Envelope>, b: seq<Envelope>)
    ensures Filings(a + b) == Filings(a) + Filings(b)
    ensures FileAll(store, a + b) == FileAll(FileAll(store, a), b)
    decreases |b|
  {
    if b == [] {
      assert a + b == a;
    } else {
      FilingsConcat(store, a, b[..|b| - 1]);
      assert (a + b)[..|a + b| - 1] == a + b[..|b| - 1];
    }
  }

  lemma NothingFiled(store: Store)
    ensures Filings([]) == [] && FileAll(store, []) == store
  {
  }

  lemma FileSingle(store: Store, env: Envelope)
    ensures FileAll(store, [env]) == File(store, env)
  {
    assert [env][..0] == [];
    hide File;
    assert FileAll(store, []) == store;
  }

  /** What filing one message does to what is collected: nothing, unless it has the key collected and an
      expected sender; then it is that sender's payload. */
  lemma FileCollected(store: Store, env: Envelope, key: Key, expected: set<NodeId>)
    ensures var before, after := From(BucketOf(store, key), expected), From(BucketOf(File(store, env), key), expected);
            after == if KeyOf(env.body) == Some(key) && env.nodeId in expected then before[env.nodeId := env.body]
                else before
  {
  }

  /** The meaning of what a node collects: from each expected sender the latest payload under the key
      that it dispatched since the key was last popped, be it before the collecting began or during it,
      and nothing else. */
  lemma CollectedIsLatest(events: seq<Event>, polled: seq<Envelope>, key: Key, expected: set<NodeId>, sender: NodeId)
    ensures var got := From(BucketOf(FileAll(Replay(events), polled), key), expected);
            var all := events + Filings(polled);
            && (sender in got <==> sender in expected && exists i :: LatestAt(all, key, sender, i))
            && forall i :: sender in expected && LatestAt(all, key, sender, i) ==>
                 sender in got && got[sender] == all[i].env.body
  {
    hide Replay, FileAll, Filings, BucketOf;
    ReplayFilings(events, polled);
    BucketIsLatest(events + Filings(polled), key, sender);
  }

  /** Whatever was filed and popped, a bucket holds messages of its own key only. */
  ghost predicate Typed(store: Store) {
    forall key, j :: key in store && j in store[key] ==> KeyOf(store[key][j]) == Some(key)
  }

  lemma {:induction false} ReplayTyped(events: seq<Event>)
    ensures Typed(Replay(events))
  {
    if events != [] {
      ReplayTyped(events[..|events| - 1]);
    }
  }

  lemma OfKey(store: Store, key: Key, expected: set<NodeId>)
    requires Typed(store)
    ensures From(BucketOf(store, key), expected).Keys <= expected
    ensures forall j :: j in From(BucketOf(store, key), expected) ==>
        KeyOf(From(BucketOf(store, key), expected)[j]) == Some(key)
  {
  }

  /** In the history from `before` to `after` a collecting ended: what it got is what the bucket held of
      the expected senders at the moment it was popped. */
  ghost predicate Collects(before: seq<Event>, after: seq<Event>, key: Key, expected: set<NodeId>, got: Bucket) {
    before <= after && exists k :: |before| <= k < |after| && Collecting(after, k, key, expected, got)
  }

  ghost predicate Collecting(events: seq<Event>, k: int, key: Key, expected: set<NodeId>, got: Bucket) {
    0 <= k < |events| && events[k] == Popped(key) && got == From(BucketOf(Replay(events[..k]), key), expected)
  }

  lemma CollectsLater(before: seq<Event>, after: seq<Event>, later: seq<Event>, key: Key, expected: set<NodeId>,
      got: Bucket)
    requires Collects(before, after, key, expected, got) && after <= later
    ensures Collects(before, later, key, expected, got)
  {
    hide Replay, BucketOf, From;
    var k :| |before| <= k < |after| && Collecting(after, k, key, expected, got);
    assert later[..k] == after[..k];
    assert Collecting(later, k, key, expected, got);
  }

  lemma CollectsEarlier(earlier: seq<Event>, before: seq<Event>, after: seq<Event>, key: Key, expected: set<NodeId>,
      got: Bucket)
    requires Collects(before, after, key, expected, got) && earlier <= before
    ensures Collects(earlier, after, key, expected, got)
  {
    hide Replay, BucketOf, From;
  }

  lemma CollectsNow(events: seq<Event>, polled: seq<Envelope>, key: Key, expected: set<NodeId>)
    ensures Collects(events, events + Filings(polled) + [Popped(key)], key, expected,
        From(BucketOf(FileAll(Replay(events), polled), key), expected))
  {
    hide Replay, BucketOf, From, Filings, FileAll;
    ReplayFilings(events, polled);
    var after := events + Filings(polled) + [Popped(key)];
    var k := |after| - 1;
    assert after[..k] == events + Filings(polled);
    assert Collecting(after, k, key, expected, From(BucketOf(FileAll(Replay(events), polled), key), expected));
  }

  /** Nothing is collected that was not dispatched. */
  lemma CollectedWasFiled(before: seq<Event>, after: seq<Event>, key: Key, expected: set<NodeId>, got: Bucket,
      j: NodeId)
    requires Collects(before, after, key, expected, got) && j in got
    ensures exists e :: e in after && e.Filed? && e.env == Envelope(j, got[j])
  {
    hide Replay;
    var k :| |before| <= k < |after| && Collecting(after, k, key, expected, got);
    BucketIsLatest(after[..k], key, j);
    var i :| LatestAt(after[..k], key, j, i);
    assert after[i] in after;
  }

  lemma CollectedTyped(before: seq<Event>, after: seq<Event>, key: Key, expected: set<NodeId>, got: Bucket)
    requires Collects(before, after, key, expected, got)
    ensures got.Keys <= expected && forall j :: j in got ==> KeyOf(got[j]) == Some(key)
  {
    hide Replay, BucketOf, From, KeyOf;
    var k :| |before| <= k < |after| && Collecting(after, k, key, expected, got);
    ReplayTyped(after[..k]);
    OfKey(Replay(after[..k]), key, expected);
  }
}
