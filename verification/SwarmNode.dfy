/** A node's single poller and its durable inbox (node/swarm.py). */
module SwarmNode {
  import opened Prelude
  import opened Consensus
  import opened Protocol
  import opened Inbox
  import Round
  import Names
  import Peers
  import Transport

  /** `config.PEER_TIMEOUT`, in seconds. */
  const PEER_TIMEOUT: real := 6.0

  /** The calls that dispatching one message makes on the round manager: word of its sender first, then
      what the message says about a round. */
  function RoundCalls(self: NodeId, env: Envelope, at: real): seq<Round.Event> {
    SenderCalls(self, env, at) + BodyCalls(env, at)
  }

  function SenderCalls(self: NodeId, env: Envelope, at: real): seq<Round.Event> {
    if env.nodeId != self then [Round.Heard(env.nodeId, at)] else []
  }

  function BodyCalls(env: Envelope, at: real): seq<Round.Event> {
    match env.body
    case GenStart(roundId, participants, prompt, genConfig) =>
      [Round.StartHeard(env.nodeId, roundId, participants, prompt, genConfig, at)]
    case GenDone(roundId) => [Round.DoneHeard(roundId)]
    case _ => []
  }

  lemma CallsUnchecked(self: NodeId, env: Envelope, at: real)
    ensures forall e :: e in RoundCalls(self, env, at) ==> !e.Checked?
  {
  }

  /** What dispatching one message makes of the peers last seen. */
  function SeenAfter(self: NodeId, lastSeen: map<NodeId, real>, env: Envelope, at: real): map<NodeId, real> {
    if env.nodeId == self then lastSeen
    else if env.body.Heartbeat? || env.body.Hello? then lastSeen[env.nodeId := at]
    else if env.body.Bye? then lastSeen - {env.nodeId}
    else lastSeen
  }

  /** A message and when it was dispatched. */
  datatype Dispatched = Dispatched(env: Envelope, at: real)

  class SwarmNode {
    const id: NodeId
    const transport: Transport.Socket
    const peers: Peers.PeerTable
    const roundMgr: Round.RoundManager
    var inbox: Store
    ghost var events: seq<Event>
    ghost var dispatched: seq<Dispatched>

    ghost predicate Valid()
      reads this, transport`script, transport`clock, peers, roundMgr, roundMgr.activeRound
    {
      transport.Valid() && peers.selfId == id && inbox == Replay(events) && RoundsInOrder() && Attentive()
    }

    /** The clock of a round led by another node stands at the last message dispatched from that leader, or at
        the start of the round if none has been since. */
    ghost predicate Attentive()
      reads this, transport`clock, roundMgr, roundMgr.activeRound
    {
      && (forall d :: d in dispatched ==> d.at <= transport.clock)
      && (roundMgr.activeRound != null ==>
            && roundMgr.activeRound.startedAt <= roundMgr.activeRound.lastLeaderSeen <= transport.clock
            && (roundMgr.activeRound.leaderId != id ==>
                  && (forall d :: d in dispatched && d.env.nodeId == roundMgr.activeRound.leaderId ==>
                        d.at <= roundMgr.activeRound.lastLeaderSeen)
                  && (roundMgr.activeRound.lastLeaderSeen == roundMgr.activeRound.startedAt
                      || exists d :: d in dispatched && d.env.nodeId == roundMgr.activeRound.leaderId
                                     && d.at == roundMgr.activeRound.lastLeaderSeen)))
    }

    /** The start of this round and everything dispatched from its leader are more than ROUND_LEADER_TIMEOUT old. */
    ghost predicate Forsaken(st: Round.Standing)
      requires st.Active?
      reads this`dispatched, transport`clock
    {
      && transport.clock - st.startedAt > Round.ROUND_LEADER_TIMEOUT
      && forall d :: d in dispatched && d.env.nodeId == st.leaderId ==>
           transport.clock - d.at > Round.ROUND_LEADER_TIMEOUT
    }

    constructor (selfId: NodeId, socket: Transport.Socket)
      requires socket.Valid()
      ensures Valid() && id == selfId && transport == socket && fresh(peers) && fresh(roundMgr)
      ensures peers.timeout == PEER_TIMEOUT && peers.lastSeen == map[] && roundMgr.selfId == selfId
      ensures inbox == map[] && events == [] && dispatched == [] && roundMgr.activeRound == null
    {
      id, transport, inbox, events, dispatched := selfId, socket, map[], [], [];
      peers := new Peers.PeerTable(selfId, PEER_TIMEOUT);
      roundMgr := new Round.RoundManager(selfId);
    }

    /** Only polling happened: what was dispatched is filed, the clock and the round manager's calls went
        on, nothing was published. */
    twostate predicate Pumped(envs: seq<Envelope>)
      reads this, transport, roundMgr, roundMgr.activeRound
    {
      && events == old(events) + Filings(envs) && old(dispatched) <= dispatched
      && Follows(old(dispatched), envs, old(transport.clock), dispatched)
      && old(transport.clock) <= transport.clock && |transport.script| <= |old(transport.script)|
      && transport.sent == old(transport.sent)
      && Round.Goes(id, old(roundMgr.events), roundMgr.events)
      && (roundMgr.activeRound != null ==>
            roundMgr.activeRound == old(roundMgr.activeRound) || fresh(roundMgr.activeRound))
    }

    ghost predicate RoundsInOrder()
      reads this, transport`clock, roundMgr, roundMgr.activeRound
    {
      && roundMgr.Valid() && roundMgr.selfId == id
      && Round.Guarded(id, roundMgr.events) && Round.Clocked(roundMgr.events)
      && Round.By(roundMgr.events, transport.clock)
    }

    /** The round manager was called, and what it holds is what it held or new. */
    twostate predicate Called(calls: seq<Round.Event>)
      reads this, roundMgr, roundMgr.activeRound
    {
      && roundMgr.events == old(roundMgr.events) + calls
      && (roundMgr.activeRound != null ==>
            roundMgr.activeRound == old(roundMgr.activeRound) || fresh(roundMgr.activeRound))
    }

    /** These messages were dispatched one after the other, since then. */
    static ghost predicate Follows(before: seq<Dispatched>, envs: seq<Envelope>, since: real, after: seq<Dispatched>) {
      && |after| == |before| + |envs| && before <= after
      && forall k :: 0 <= k < |envs| ==> after[|before| + k].env == envs[k] && since <= after[|before| + k].at
    }

    static lemma FollowsNone(before: seq<Dispatched>, since: real)
      ensures Follows(before, [], since, before)
    {
    }

    static lemma FollowsOn(a: seq<Dispatched>, envs: seq<Envelope>, t: real, b: seq<Dispatched>, more: seq<Envelope>,
                           u: real, c: seq<Dispatched>)
      requires Follows(a, envs, t, b) && Follows(b, more, u, c) && t <= u
      ensures Follows(a, envs + more, t, c)
    {
      forall k | 0 <= k < |envs + more|
        ensures c[|a| + k].env == (envs + more)[k] && t <= c[|a| + k].at
      {
        if k < |envs| {
          assert c[|a| + k] == b[|a| + k];
        } else {
          assert c[|a| + k] == c[|b| + (k - |envs|)];
        }
      }
    }

    /** Every message but the last came before the deadline, and if nobody is missing now nothing has been waited for
        since the last one, or at all if there was none. */
    static ghost predicate OnTime(before: seq<Dispatched>, after: seq<Dispatched>, since: real, now: real,
                                  deadline: real, complete: bool) {
      && before <= after
      && (forall k :: |before| <= k < |after| ==> after[k].at <= now)
      && (forall k :: |before| <= k < |after| - 1 ==> after[k].at < deadline)
      && (complete ==> now == if |after| == |before| then since else after[|after| - 1].at)
    }

    static lemma OnTimeAtFirst(before: seq<Dispatched>, now: real, deadline: real, complete: bool)
      ensures OnTime(before, before, now, now, deadline, complete)
    {
    }

    static lemma StillOnTime(before: seq<Dispatched>, seen: seq<Dispatched>, since: real, at: real, deadline: real,
                             after: seq<Dispatched>, now: real, complete: bool)
      requires OnTime(before, seen, since, at, deadline, false) && at < deadline && at <= now
      requires after == seen ==> !complete
      requires after == seen || (|after| == |seen| + 1 && seen <= after && after[|seen|].at == now)
      ensures OnTime(before, after, since, now, deadline, complete)
    {
    }

    method NoteSender(env: Envelope, receiveTs: real)
      requires RoundsInOrder() && receiveTs == transport.clock && peers.selfId == id
      modifies peers, roundMgr`events, roundMgr.activeRound
      ensures RoundsInOrder() && Called(SenderCalls(id, env, receiveTs))
      ensures peers.lastSeen == SeenAfter(id, old(peers.lastSeen), env, receiveTs)
      ensures roundMgr.activeRound == old(roundMgr.activeRound)
      ensures roundMgr.activeRound != null ==>
                roundMgr.activeRound.lastLeaderSeen
                == if env.nodeId == roundMgr.activeRound.leaderId && env.nodeId != id then receiveTs
                   else old(roundMgr.activeRound.lastLeaderSeen)
    {
      hide Round.Run, Round.Next, Round.Guarded, Round.Clocked, Round.By;
      if env.nodeId != id {
        Round.OneMoreCall(id, roundMgr.events, Round.Heard(env.nodeId, receiveTs), receiveTs);
        roundMgr.NoteLeaderActivity(env.nodeId, receiveTs);
        if env.body.Heartbeat? || env.body.Hello? {
          peers.MarkAlive(env.nodeId, receiveTs);
        } else if env.body.Bye? {
          peers.MarkGone(env.nodeId);
        }
      }
    }

    method TakeRoundMessage(env: Envelope, receiveTs: real)
      requires RoundsInOrder() && receiveTs == transport.clock
      modifies roundMgr, roundMgr.activeRound
      ensures RoundsInOrder() && Called(BodyCalls(env, receiveTs))
      ensures TakesRound(env, receiveTs)
    {
      hide Round.Run, Round.Next, Round.Guarded, Round.Clocked, Round.By;
      match env.body
      case GenStart(roundId, participants, prompt, genConfig) =>
        Round.OneMoreCall(id, roundMgr.events, Round.StartHeard(env.nodeId, roundId, participants, prompt, genConfig,
            receiveTs), receiveTs);
        roundMgr.OnGenStart(env.nodeId, roundId, participants, prompt, genConfig, receiveTs);
      case GenDone(roundId) =>
        Round.OneMoreCall(id, roundMgr.events, Round.DoneHeard(roundId), receiveTs);
        roundMgr.OnGenDone(roundId);
      case _ =>
    }

    /** GEN_DONE ends the round it names; GEN_START begins one, led by its sender, if there is none. */
    twostate predicate TakesRound(env: Envelope, at: real)
      reads roundMgr, roundMgr.activeRound
    {
      var before, now := old(roundMgr.activeRound), roundMgr.activeRound;
      if before != null then
        && now == (if env.body.GenDone? && env.body.roundId == before.roundId then null else before)
        && (now != null ==> now.lastLeaderSeen == old(before.lastLeaderSeen))
      else
        && (now != null <==> env.body.GenStart?)
        && (now != null ==>
              && fresh(now) && now.roundId == env.body.roundId && now.leaderId == env.nodeId
              && Names.Sorted(now.participants) && multiset(now.participants) == multiset(env.body.participants)
              && now.prompt == env.body.prompt && now.genConfig == env.body.genConfig
              && now.startedAt == now.lastLeaderSeen == at)
    }

    method FileMessage(env: Envelope)
      modifies this`inbox, this`events
      ensures inbox == File(old(inbox), env) && events == old(events) + Filings([env])
      ensures old(inbox == Replay(events)) ==> inbox == Replay(events)
    {
      match env.body {
        case Commit(roundId, syncSeq, _, _, _) =>
          var key := Key(CommitKind, roundId, syncSeq);
          inbox := inbox[key := BucketOf(inbox, key)[env.nodeId := env.body]];
        case DisputeScore(roundId, syncSeq, _) =>
          var key := Key(ScoreKind, roundId, syncSeq);
          inbox := inbox[key := BucketOf(inbox, key)[env.nodeId := env.body]];
        case _ =>
      }
      events := events + [Filed(env)];
      assert events[..|events| - 1] == old(events);
      assert Filings([env]) == [Filed(env)];
    }

    /** The sender's word is in the clock of its round before it is remembered here. */
    ghost method Remember(env: Envelope)
      requires forall d :: d in dispatched ==> d.at <= transport.clock
      requires roundMgr.activeRound != null ==>
                 && roundMgr.activeRound.startedAt <= roundMgr.activeRound.lastLeaderSeen <= transport.clock
                 && (roundMgr.activeRound.leaderId != id ==>
                       if env.nodeId == roundMgr.activeRound.leaderId
                       then roundMgr.activeRound.lastLeaderSeen == transport.clock else Attentive())
      modifies this`dispatched
      ensures Attentive() && dispatched == old(dispatched) + [Dispatched(env, transport.clock)]
    {
      ghost var before := dispatched;
      dispatched := dispatched + [Dispatched(env, transport.clock)];
      assert dispatched[|dispatched| - 1] in dispatched;
      assert forall d :: d in before ==> d in dispatched;
    }

    /** Every message read off the socket reaches all three: peers, round manager and inbox. */
    method Dispatch(env: Envelope)
      requires Valid()
      modifies this, peers, roundMgr, roundMgr.activeRound
      ensures Valid() && Pumped([env]) && transport.clock == old(transport.clock)
          && transport.script == old(transport.script)
      ensures inbox == File(old(inbox), env)
      ensures Called(RoundCalls(id, env, transport.clock))
      ensures peers.lastSeen == SeenAfter(id, old(peers.lastSeen), env, transport.clock)
      ensures dispatched == old(dispatched) + [Dispatched(env, transport.clock)]
      ensures var before, now := old(roundMgr.activeRound), roundMgr.activeRound;
              if before != null then
                && now == (if env.body.GenDone? && env.body.roundId == before.roundId then null else before)
                && (now != null ==>
                      now.lastLeaderSeen == if env.nodeId == before.leaderId && env.nodeId != id then transport.clock
                                            else old(before.lastLeaderSeen))
              else
                && (now != null <==> env.body.GenStart?)
                && (now != null ==>
                      && now.roundId == env.body.roundId && now.leaderId == env.nodeId
                      && Names.Sorted(now.participants)
                      && multiset(now.participants) == multiset(env.body.participants)
                      && now.startedAt == now.lastLeaderSeen == transport.clock)
      ensures peers.lastSeen ==
              if env.nodeId != id && (env.body.Heartbeat? || env.body.Hello?)
              then old(peers.lastSeen)[env.nodeId := transport.clock]
              else if env.nodeId != id && env.body.Bye? then old(peers.lastSeen) - {env.nodeId}
              else old(peers.lastSeen)
    {
      hide Round.Run, Round.Guarded, Round.Clocked, Round.By, Round.Goes, File, Replay, BodyCalls, SenderCalls;
      var receiveTs := transport.clock;
      NoteSender(env, receiveTs);
      TakeRoundMessage(env, receiveTs);
      FileMessage(env);
      Remember(env);
      CallsUnchecked(id, env, receiveTs);
      Round.GoesUnchecked(id, old(roundMgr.events), RoundCalls(id, env, receiveTs));
      assert old(roundMgr.events) + SenderCalls(id, env, receiveTs) + BodyCalls(env, receiveTs)
          == old(roundMgr.events) + RoundCalls(id, env, receiveTs);
    }

    method PumpOnce(timeout: real) returns (env: Option<Envelope>)
      requires Valid() && timeout > 0.0
      modifies this, transport`clock, transport`script, transport`acts, peers, roundMgr, roundMgr.activeRound
      ensures Valid() && Pumped(if env.Some? then [env.value] else [])
      ensures transport.acts == old(transport.acts) + [Transport.Polled]
      ensures inbox == if env.Some? then File(old(inbox), env.value) else old(inbox)
      ensures dispatched ==
              if env.Some? then old(dispatched) + [Dispatched(env.value, transport.clock)] else old(dispatched)
      ensures if old(transport.script) == [] then env == None && transport.script == []
          && transport.clock == old(transport.clock) + timeout
              else transport.script == old(transport.script)[1..]
    {
      hide Round.Run, Round.Guarded, Round.Clocked, File, Replay, RoundCalls;
      env := transport.PollRecv(timeout);
      if env.Some? {
        Dispatch(env.value);
      } else {
        assert Filings([]) == [];
        Round.GoesUnchecked(id, roundMgr.events, []);
        assert roundMgr.events + [] == roundMgr.events;
      }
    }

    /** `_gen_inbox.pop(key, None)` */
    method PopBucket(key: Key)
      requires Valid()
      modifies this`inbox, this`events
      ensures Valid() && inbox == Pop(old(inbox), key) && events == old(events) + [Popped(key)]
    {
      inbox := Pop(inbox, key);
      events := events + [Popped(key)];
      assert events[..|events| - 1] == old(events);
      hide Round.Run, Round.Guarded, Round.Clocked, Round.By;
    }

    twostate lemma InboxIsReplay()
      requires old(Valid())
      ensures old(inbox) == Replay(old(events))
    {
    }

    lemma InboxTyped()
      requires Valid()
      ensures Typed(inbox)
    {
      ReplayTyped(events);
    }

    /** One turn of the collecting loop: poll, and count the message in if it is one waited for. */
    method AwaitOne(key: Key, expectedFrom: set<NodeId>, soFar: Bucket, missing: set<NodeId>)
      returns (received: Bucket, remaining: set<NodeId>, ghost polled: seq<Envelope>)
      requires Valid() && soFar == From(BucketOf(inbox, key), expectedFrom) && missing == expectedFrom - soFar.Keys
      modifies this, transport`clock, transport`script, transport`acts, peers, roundMgr, roundMgr.activeRound
      ensures Valid() && Pumped(polled) && inbox == FileAll(old(inbox), polled)
      ensures transport.acts == old(transport.acts) + [Transport.Polled]
      ensures received == From(BucketOf(inbox, key), expectedFrom) && remaining == expectedFrom - received.Keys
      ensures if old(transport.script) == [] then
                polled == [] && transport.script == [] && transport.clock == old(transport.clock) + 0.1
              else |transport.script| < |old(transport.script)|
      ensures if polled == [] then received == soFar && dispatched == old(dispatched)
              else |polled| == 1 && dispatched == old(dispatched) + [Dispatched(polled[0], transport.clock)]
    {
      hide Round.Run, Round.Guarded, Round.Clocked, Round.By, File, Replay, RoundsInOrder;
      received, remaining, polled := soFar, missing, [];
      var env := PumpOnce(0.1);
      if env.Some? {
        polled := [env.value];
        FileSingle(old(inbox), env.value);
        FileCollected(old(inbox), env.value, key, expectedFrom);
        if KeyOf(env.value.body) == Some(key) && (env.value.nodeId in missing || env.value.nodeId in soFar) {
          received := soFar[env.value.nodeId := env.value.body];
          remaining := missing - {env.value.nodeId};
        }
      }
    }

    /** collect_until: what the key's bucket holds of the expected senders, after polling until nobody
        expected is missing or the time is up, and no longer; the bucket is gone afterwards. */
    method CollectUntil(kind: Kind, roundId: string, syncSeq: nat, expectedFrom: set<NodeId>, timeout: real)
      returns (received: Bucket, ghost polled: seq<Envelope>)
      requires Valid()
      modifies this, transport`clock, transport`script, transport`acts, peers, roundMgr, roundMgr.activeRound
      ensures Valid() && transport.sent == old(transport.sent) && old(transport.acts) <= transport.acts
      ensures forall k :: |old(transport.acts)| <= k < |transport.acts| ==> transport.acts[k].Polled?
      ensures var key := Key(kind, roundId, syncSeq);
              && events == old(events) + Filings(polled) + [Popped(key)]
              && received == From(BucketOf(FileAll(old(inbox), polled), key), expectedFrom)
              && inbox == Pop(FileAll(old(inbox), polled), key)
              && (expectedFrom <= From(old(BucketOf(inbox, key)), expectedFrom).Keys ==> polled == [])
      ensures Collects(old(events), events, Key(kind, roundId, syncSeq), expectedFrom, received)
      ensures received.Keys <= expectedFrom && forall j :: j in received ==>
          KeyOf(received[j]) == Some(Key(kind, roundId, syncSeq))
      ensures expectedFrom <= received.Keys || transport.clock >= old(transport.clock) + timeout
      ensures OnTime(old(dispatched), dispatched, old(transport.clock), transport.clock,
                     old(transport.clock) + timeout, expectedFrom <= received.Keys)
      ensures old(transport.script) == [] && timeout > 0.0 ==>
                transport.clock < old(transport.clock) + timeout + 0.1
      ensures Round.Goes(id, old(roundMgr.events), roundMgr.events) && old(transport.clock) <= transport.clock
      ensures roundMgr.activeRound != null ==>
                roundMgr.activeRound == old(roundMgr.activeRound) || fresh(roundMgr.activeRound)
      ensures old(dispatched) <= dispatched && Follows(old(dispatched), polled, old(transport.clock), dispatched)
      ensures |transport.script| <= |old(transport.script)|
    {
      hide Round.Run, Round.Guarded, Round.Clocked, Round.By, File, FileAll, Replay, Filings, From, BucketOf, Pop,
           Valid, Round.Goes, Follows, OnTime;
      var key := Key(kind, roundId, syncSeq);
      received := From(BucketOf(inbox, key), expectedFrom);
      var remaining := expectedFrom - received.Keys;
      var deadline := transport.clock + timeout;
      polled := [];
      NothingFiled(inbox);
      Round.GoesUnchecked(id, roundMgr.events, []);
      assert roundMgr.events + [] == roundMgr.events;
      FollowsNone(dispatched, transport.clock);
      OnTimeAtFirst(dispatched, transport.clock, deadline, remaining == {});
      while remaining != {} && transport.clock < deadline
        invariant Valid() && Pumped(polled) && old(transport.acts) <= transport.acts
        invariant forall k :: |old(transport.acts)| <= k < |transport.acts| ==> transport.acts[k].Polled?
        invariant inbox == FileAll(old(inbox), polled)
        invariant received == From(BucketOf(inbox, key), expectedFrom)
        invariant remaining == expectedFrom - received.Keys
        invariant expectedFrom <= From(old(BucketOf(inbox, key)), expectedFrom).Keys ==> polled == [] && remaining == {}
        invariant OnTime(old(dispatched), dispatched, old(transport.clock), transport.clock, deadline, remaining == {})
        invariant old(transport.script) == [] && timeout > 0.0 ==>
                    transport.script == [] && transport.clock < deadline + 0.1
        decreases |transport.script|, (deadline - transport.clock) * 10.0
      {
        ghost var more, heard, seen, since := [], roundMgr.events, dispatched, transport.clock;
        received, remaining, more := AwaitOne(key, expectedFrom, received, remaining);
        StillOnTime(old(dispatched), seen, old(transport.clock), since, deadline, dispatched, transport.clock,
            remaining == {});
        FollowsOn(old(dispatched), polled, old(transport.clock), seen, more, since, dispatched);
        Round.GoesOn(id, old(roundMgr.events), heard, roundMgr.events);
        FilingsConcat(old(inbox), polled, more);
        polled := polled + more;
      }
      assert expectedFrom <= received.Keys + remaining;
      InboxTyped();
      InboxIsReplay();
      CollectsNow(old(events), polled, key, expectedFrom);
      OfKey(inbox, key, expectedFrom);
      PopBucket(key);
    }

    /** start_round_as_leader, which raises while a round is active; the suffix is the fresh part of the
        round's name. */
    method StartRoundAsLeader(participants: seq<NodeId>, prompt: string, genConfig: Round.GenSettings, suffix: string)
      returns (r: Result<Round.RoundState>)
      requires Valid()
      modifies roundMgr, transport`sent, transport`acts
      ensures Valid()
      ensures r.Raised? <==> old(roundMgr.activeRound) != null
      ensures r.Raised? ==> transport.sent == old(transport.sent) && roundMgr.activeRound == old(roundMgr.activeRound)
      ensures r.Ok? ==>
                && roundMgr.activeRound == r.value && r.value.leaderId == id && roundMgr.IsRoundLeader()
                && r.value.roundId == id + ":" + suffix && Names.Sorted(r.value.participants)
                && multiset(r.value.participants) == multiset(participants)
                && roundMgr.events == old(roundMgr.events) + [Round.Started(participants, prompt, genConfig, suffix,
                    transport.clock)]
                && transport.sent == old(transport.sent) + [Envelope(id,
                    GenStart(r.value.roundId, r.value.participants, prompt, genConfig))]
    {
      if roundMgr.activeRound != null {
        return Raised;
      }
      Round.OneMoreCall(id, roundMgr.events, Round.Started(participants, prompt, genConfig, suffix, transport.clock),
          transport.clock);
      hide Round.Run, Round.Guarded, Round.Clocked, Round.By;
      var state := roundMgr.StartRound(participants, prompt, genConfig, suffix, transport.clock);
      transport.Publish(id, GenStart(state.roundId, state.participants, prompt, genConfig));
      r := Ok(state);
    }

    /** The runner's check between steps: it gives the round up exactly when another node leads it and the start of
        the round and every message dispatched from that node are more than ROUND_LEADER_TIMEOUT old. */
    method CheckLeaderTimeout() returns (failed: bool)
      requires Valid()
      modifies roundMgr, roundMgr.activeRound
      ensures Valid() && Called([Round.Checked(transport.clock)])
      ensures failed <==> Round.TimedOut(id, old(roundMgr.State()), transport.clock)
      ensures failed <==>
                && old(roundMgr.activeRound) != null && old(roundMgr.activeRound).leaderId != id
                && transport.clock - old(roundMgr.activeRound).startedAt > Round.ROUND_LEADER_TIMEOUT
                && forall d :: d in dispatched && d.env.nodeId == old(roundMgr.activeRound).leaderId ==>
                     transport.clock - d.at > Round.ROUND_LEADER_TIMEOUT
      ensures failed ==>
                && roundMgr.activeRound == null && Round.JustTimedOut(id, roundMgr.events)
                && Forsaken(Round.Run(id, old(roundMgr.events)))
      ensures !failed ==>
                roundMgr.activeRound == old(roundMgr.activeRound)
                && Round.Goes(id, old(roundMgr.events), roundMgr.events)
    {
      ghost var before := roundMgr.events;
      Round.OneMoreCall(id, roundMgr.events, Round.Checked(transport.clock), transport.clock);
      hide Round.Run, Round.Guarded, Round.Clocked, Round.By;
      failed := roundMgr.CheckLeaderTimeout(transport.clock);
      assert roundMgr.events[..|roundMgr.events| - 1] == before;
      if !failed {
        Round.GoesChecked(id, before, transport.clock);
      }
    }
  }
}
