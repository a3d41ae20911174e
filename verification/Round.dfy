/** The round lock (node/round.py): which round a node is in, who leads it, and when it is over. */
module Round {
  import opened Consensus
  import opened Names

  /** `config.ROUND_LEADER_TIMEOUT`, in seconds. */
  const ROUND_LEADER_TIMEOUT: real := 8.0

  type GenSettings = map<string, int>

  // ---------------------------------------------------------------- the lock as a state machine

  datatype Standing =
    | Idle
    | Active(roundId: string, leaderId: NodeId, participants: seq<NodeId>, prompt: string, genConfig: GenSettings,
             startedAt: real, lastLeaderSeen: real)

  /** The calls a round manager receives. */
  datatype Event =
    | Started(participants: seq<NodeId>, prompt: string, genConfig: GenSettings, suffix: string, at: real)
    | Heard(nodeId: NodeId, at: real)
    | StartHeard(nodeId: NodeId, roundId: string, participants: seq<NodeId>, prompt: string, genConfig: GenSettings,
        at: real)
    | DoneHeard(roundId: string)
    | Checked(at: real)

  predicate TimedOut(self: NodeId, st: Standing, at: real) {
    st.Active? && st.leaderId != self && at - st.lastLeaderSeen > ROUND_LEADER_TIMEOUT
  }

  function Next(self: NodeId, st: Standing, e: Event): Standing {
    match e
    case Started(participants, prompt, genConfig, suffix, at) =>
      Active(self + ":" + suffix, self, Sort(participants), prompt, genConfig, at, at)
    case Heard(nodeId, at) =>
      if st.Active? && nodeId == st.leaderId then st.(lastLeaderSeen := at) else st
    case StartHeard(nodeId, roundId, participants, prompt, genConfig, at) =>
      if st.Active? then st else Active(roundId, nodeId, Sort(participants), prompt, genConfig, at, at)
    case DoneHeard(roundId) =>
      if st.Active? && roundId == st.roundId then Idle else st
    case Checked(at) =>
      if TimedOut(self, st, at) then Idle else st
  }

  ghost function Run(self: NodeId, events: seq<Event>): Standing {
    if events == [] then Idle else Next(self, Run(self, events[..|events| - 1]), events[|events| - 1])
  }

  // ---------------------------------------------------------------- the lock holds

  /** What stays fixed for the life of a round. */
  predicate SameRound(a: Standing, b: Standing) {
    a.Active? && b.Active? && b == a.(lastLeaderSeen := b.lastLeaderSeen)
  }

  /** No round is started over an active one: `start_round_as_leader` asserts it. */
  ghost predicate Guarded(self: NodeId, events: seq<Event>) {
    forall k: nat :: k < |events| && events[k].Started? ==> Run(self, events[..k]).Idle?
  }

  /** Time does not run backwards. */
  ghost predicate Clocked(events: seq<Event>) {
    forall i, j :: 0 <= i < j < |events| && !events[i].DoneHeard? && !events[j].DoneHeard? ==>
        events[i].at <= events[j].at
  }

  /** The round is active before event a and stays so up to event b. */
  ghost predicate Throughout(self: NodeId, events: seq<Event>, a: nat, b: nat) {
    a <= b <= |events| && forall k: nat :: a <= k <= b ==> Run(self, events[..k]).Active?
  }

  lemma RunOne(self: NodeId, events: seq<Event>, k: nat)
    requires k < |events|
    ensures Run(self, events[..k + 1]) == Next(self, Run(self, events[..k]), events[k])
  {
    assert events[..k + 1][..k] == events[..k];
  }

  /** Leader and participants never change while a round is active, whatever is heard or who rejoins;
      it ends only by a GEN_DONE naming it, or by a check that finds another node leading it silent. */
  lemma RoundLock(self: NodeId, events: seq<Event>, k: nat)
    requires Guarded(self, events) && k < |events| && Run(self, events[..k]).Active?
    ensures var before, after := Run(self, events[..k]), Run(self, events[..k + 1]);
            && (after.Idle? <==>
                  || events[k] == DoneHeard(before.roundId)
                  || (events[k].Checked? && TimedOut(self, before, events[k].at)))
            && (after.Active? ==> SameRound(before, after))
  {
    RunOne(self, events, k);
  }

  lemma {:induction false} Tenure(self: NodeId, events: seq<Event>, a: nat, b: nat)
    requires Guarded(self, events) && Throughout(self, events, a, b)
    ensures SameRound(Run(self, events[..a]), Run(self, events[..b]))
    decreases b
  {
    hide Run, Next, Guarded;
    if a < b {
      Tenure(self, events, a, b - 1);
      RoundLock(self, events, b - 1);
    }
  }

  // ---------------------------------------------------------------- when a leader counts as silent

  /** Event m is word from the leader of the round that event a began: its start, or anything later. */
  ghost predicate Word(self: NodeId, events: seq<Event>, a: nat, m: nat, leader: NodeId) {
    m < |events| && (m == a || (events[m].Heard? && events[m].nodeId == leader))
  }

  /** Event a begins a round that is still active after k events. */
  ghost predicate Reign(self: NodeId, events: seq<Event>, a: nat, k: nat) {
    && a < k <= |events| && Run(self, events[..a]).Idle? && Throughout(self, events, a + 1, k)
  }

  /** One event of an active round moves its clock exactly when it is word from the leader. */
  lemma ClockMoves(self: NodeId, events: seq<Event>, k: nat)
    requires Guarded(self, events) && k < |events|
    requires Run(self, events[..k]).Active? && Run(self, events[..k + 1]).Active?
    ensures var before, after := Run(self, events[..k]), Run(self, events[..k + 1]);
            && after.leaderId == before.leaderId
            && after.lastLeaderSeen == if events[k].Heard? && events[k].nodeId == before.leaderId then events[k].at
                else before.lastLeaderSeen
  {
    RunOne(self, events, k);
    hide Run;
  }

  lemma BeginsAt(self: NodeId, events: seq<Event>, a: nat)
    requires a < |events| && Run(self, events[..a]).Idle? && Run(self, events[..a + 1]).Active?
    ensures !events[a].DoneHeard? && Run(self, events[..a + 1]).lastLeaderSeen == events[a].at
  {
    RunOne(self, events, a);
    hide Run;
  }

  lemma {:induction false} LastWord(self: NodeId, events: seq<Event>, a: nat, k: nat) returns (m: nat)
    requires Guarded(self, events) && Reign(self, events, a, k)
    ensures a <= m < k && Word(self, events, a, m, Run(self, events[..k]).leaderId) && !events[m].DoneHeard?
    ensures Run(self, events[..k]).lastLeaderSeen == events[m].at
    ensures forall n :: m < n < k ==> !Word(self, events, a, n, Run(self, events[..k]).leaderId)
    decreases k
  {
    hide Run, Guarded;
    if k == a + 1 {
      m := a;
      BeginsAt(self, events, a);
    } else {
      m := LastWord(self, events, a, k - 1);
      ClockMoves(self, events, k - 1);
      if Word(self, events, a, k - 1, Run(self, events[..k]).leaderId) {
        m := k - 1;
      }
    }
  }

  /** A check ends a round exactly when another node leads it and everything heard from that leader, the
      start of the round included, is more than ROUND_LEADER_TIMEOUT old. Its own leader never ends it. */
  lemma TimeoutIsSilence(self: NodeId, events: seq<Event>, a: nat, k: nat)
    requires Guarded(self, events) && Clocked(events) && Reign(self, events, a, k) && k < |events| && events[k].Checked?
    ensures var leader := Run(self, events[..k]).leaderId;
            Run(self, events[..k + 1]).Idle? <==>
              && leader != self
              && forall m: nat :: a <= m < k && Word(self, events, a, m, leader) && !events[m].DoneHeard? ==>
                   events[k].at - events[m].at > ROUND_LEADER_TIMEOUT
  {
    RoundLock(self, events, k);
    var m := LastWord(self, events, a, k);
    hide Run, Guarded;
    var leader := Run(self, events[..k]).leaderId;
    if leader != self && Run(self, events[..k + 1]).Idle? {
      forall n: nat | a <= n < k && Word(self, events, a, n, leader) && !events[n].DoneHeard?
        ensures events[k].at - events[n].at > ROUND_LEADER_TIMEOUT
      {
        assert n <= m;
      }
    }
  }

  /** Every active round began with some event. */
  lemma {:induction false} ReignExists(self: NodeId, events: seq<Event>, k: nat) returns (a: nat)
    requires k <= |events| && Run(self, events[..k]).Active?
    ensures Reign(self, events, a, k)
    decreases k
  {
    assert events[..0] == [];
    assert Run(self, events[..0]).Idle?;
    if Run(self, events[..k - 1]).Idle? {
      a := k - 1;
    } else {
      a := ReignExists(self, events, k - 1);
    }
  }

  /** The last call was a check that ended the round. */
  ghost predicate JustTimedOut(self: NodeId, events: seq<Event>) {
    && events != [] && events[|events| - 1].Checked?
    && TimedOut(self, Run(self, events[..|events| - 1]), events[|events| - 1].at)
  }

  /** So whoever gives a round up has had no word from its leader, another node, for longer than
      ROUND_LEADER_TIMEOUT. */
  lemma TimedOutIsSilence(self: NodeId, events: seq<Event>) returns (a: nat)
    requires Guarded(self, events) && Clocked(events) && JustTimedOut(self, events)
    ensures var k := |events| - 1;
            && Reign(self, events, a, k) && Run(self, events[..k]).leaderId != self
            && var leader := Run(self, events[..k]).leaderId;
               forall m: nat :: a <= m < k && Word(self, events, a, m, leader) && !events[m].DoneHeard? ==>
                 events[k].at - events[m].at > ROUND_LEADER_TIMEOUT
  {
    var k := |events| - 1;
    a := ReignExists(self, events, k);
    RunOne(self, events, k);
    hide Run, Guarded;
    TimeoutIsSilence(self, events, a, k);
  }

  /** How often the leader was checked. */
  ghost function Checks(events: seq<Event>): nat {
    if events == [] then 0
    else Checks(events[..|events| - 1]) + if events[|events| - 1].Checked? then 1 else 0
  }

  lemma {:induction false} ChecksGrow(before: seq<Event>, after: seq<Event>)
    requires before <= after
    ensures Checks(before) <= Checks(after)
    decreases |after|
  {
    if |before| < |after| {
      ChecksGrow(before, after[..|after| - 1]);
    } else {
      assert before == after;
    }
  }

  // ---------------------------------------------------------------- one round among others

  /** Event k is a check that ends a round. */
  ghost predicate Ends(self: NodeId, events: seq<Event>, k: nat)
    requires k < |events|
  {
    events[k].Checked? && TimedOut(self, Run(self, events[..k]), events[k].at)
  }

  /** The history went on without a check that ended a round. */
  ghost predicate Goes(self: NodeId, before: seq<Event>, after: seq<Event>) {
    before <= after && forall k: nat :: |before| <= k < |after| ==> !Ends(self, after, k)
  }

  lemma EndsSame(self: NodeId, events: seq<Event>, later: seq<Event>, k: nat)
    requires events <= later && k < |events|
    ensures Ends(self, events, k) <==> Ends(self, later, k)
  {
    assert later[..k] == events[..k] && later[k] == events[k];
  }

  lemma GoesOn(self: NodeId, a: seq<Event>, b: seq<Event>, c: seq<Event>)
    requires Goes(self, a, b) && Goes(self, b, c)
    ensures Goes(self, a, c)
  {
    hide Ends;
    forall k: nat | |a| <= k < |c|
      ensures !Ends(self, c, k)
    {
      if k < |b| {
        EndsSame(self, b, c, k);
      }
    }
  }

  lemma BeforeLast(events: seq<Event>, e: Event)
    ensures (events + [e])[..|events + [e]| - 1] == events
  {
  }

  lemma GoesUnchecked(self: NodeId, before: seq<Event>, calls: seq<Event>)
    requires forall e :: e in calls ==> !e.Checked?
    ensures Goes(self, before, before + calls)
  {
    forall k: nat | |before| <= k < |before + calls|
      ensures !Ends(self, before + calls, k)
    {
      assert (before + calls)[k] in calls;
    }
  }

  lemma GoesChecked(self: NodeId, before: seq<Event>, at: real)
    requires !TimedOut(self, Run(self, before), at)
    ensures Goes(self, before, before + [Checked(at)])
  {
    assert (before + [Checked(at)])[..|before|] == before;
  }

  /** Nobody said that this round is done. */
  ghost predicate NotDone(events: seq<Event>, a: nat, roundId: string) {
    forall k: nat :: a <= k < |events| ==> events[k] != DoneHeard(roundId)
  }

  lemma {:induction false} StaysIn(self: NodeId, events: seq<Event>, a: nat, b: nat)
    requires Guarded(self, events) && a <= b <= |events| && Run(self, events[..a]).Active?
    requires forall k: nat :: a <= k < b ==>
               !Ends(self, events, k) && events[k] != DoneHeard(Run(self, events[..a]).roundId)
    ensures Throughout(self, events, a, b) && SameRound(Run(self, events[..a]), Run(self, events[..b]))
    decreases b
  {
    hide Run, Next, Guarded, TimedOut;
    if a < b {
      StaysIn(self, events, a, b - 1);
      RoundLock(self, events, b - 1);
    }
  }

  /** As long as no GEN_DONE names it and no check ends it, the round held at first is the round held later. */
  lemma StillHeld(self: NodeId, before: seq<Event>, after: seq<Event>)
    requires Guarded(self, after) && Goes(self, before, after) && Run(self, before).Active?
    requires NotDone(after, |before|, Run(self, before).roundId)
    ensures SameRound(Run(self, before), Run(self, after))
  {
    hide Run, Guarded, Ends;
    assert after[..|before|] == before && after[..|after|] == after;
    StaysIn(self, after, |before|, |after|);
  }

  /** The last call was a check, and then all word from this leader, the start of the round included, was more
      than ROUND_LEADER_TIMEOUT old. */
  ghost predicate Silent(self: NodeId, events: seq<Event>, leader: NodeId) {
    events != [] && events[|events| - 1].Checked? && exists a: nat :: SilentFrom(self, events, a, leader)
  }

  ghost predicate SilentFrom(self: NodeId, events: seq<Event>, a: nat, leader: NodeId)
    requires events != [] && events[|events| - 1].Checked?
  {
    var k := |events| - 1;
    && Reign(self, events, a, k)
    && forall m: nat :: a <= m < k && Word(self, events, a, m, leader) && !events[m].DoneHeard? ==>
         events[k].at - events[m].at > ROUND_LEADER_TIMEOUT
  }

  /** And if it is given up without such a GEN_DONE, its leader is another node and has been silent. */
  lemma SilentSince(self: NodeId, before: seq<Event>, after: seq<Event>)
    requires Guarded(self, after) && Clocked(after) && JustTimedOut(self, after) && Run(self, before).Active?
    requires Goes(self, before, after[..|after| - 1]) && NotDone(after, |before|, Run(self, before).roundId)
    ensures Run(self, before).leaderId != self && Silent(self, after, Run(self, before).leaderId)
    ensures SameRound(Run(self, before), Run(self, after[..|after| - 1]))
  {
    hide Run, Guarded, Ends, Clocked, Reign, Word;
    var k := |after| - 1;
    forall n: nat | |before| <= n < k
      ensures !Ends(self, after, n)
    {
      EndsSame(self, after[..k], after, n);
    }
    assert after[..|before|] == before;
    StaysIn(self, after, |before|, k);
    var a := TimedOutIsSilence(self, after);
    assert SilentFrom(self, after, a, Run(self, before).leaderId);
  }

  lemma RunThree(self: NodeId, a: Event, b: Event, c: Event)
    ensures Run(self, [a]) == Next(self, Idle, a)
    ensures Run(self, [a, b]) == Next(self, Next(self, Idle, a), b)
    ensures Run(self, [a, b, c]) == Next(self, Next(self, Next(self, Idle, a), b), c)
  {
    assert [a][..0] == [] && [a, b][..1] == [a] && [a, b, c][..2] == [a, b];
  }

  /** The condition cannot be dropped. Once GEN_DONE has ended the round, an announcement the node hears makes it
      hold another one: it may be one the node leads, though it did not lead the first. */
  lemma MayLeadAnother(self: NodeId, leader: NodeId, own: string)
    requires leader != self
    ensures var first := StartHeard(leader, "r1", [], "", map[], 0.0);
            var events := [first, DoneHeard("r1"), StartHeard(self, own, [], "", map[], 1.0)];
            Run(self, [first]).leaderId == leader && Run(self, events).Active? && Run(self, events).leaderId == self
  {
    var first, last := StartHeard(leader, "r1", [], "", map[], 0.0), StartHeard(self, own, [], "", map[], 1.0);
    RunThree(self, first, DoneHeard("r1"), last);
  }

  /** Or one that its own leader lets die, so that the first is given up although its leader was heard just then. */
  lemma MayGiveUpAnother(self: NodeId, leader: NodeId, other: NodeId)
    requires leader != self && other != self && other != leader
    ensures var first := StartHeard(leader, "r1", [], "", map[], 0.0);
            var next := StartHeard(other, "r2", [], "", map[], 1.0);
            var events := [first, DoneHeard("r1"), next, Heard(leader, 10.0), Checked(10.0)];
            Run(self, [first]).leaderId == leader && JustTimedOut(self, events)
  {
    var a, b := StartHeard(leader, "r1", [], "", map[], 0.0), DoneHeard("r1");
    var c := StartHeard(other, "r2", [], "", map[], 1.0);
    RunThree(self, a, b, c);
    assert [a, b, c, Heard(leader, 10.0)][..3] == [a, b, c];
    assert [a, b, c, Heard(leader, 10.0), Checked(10.0)][..4] == [a, b, c, Heard(leader, 10.0)];
  }

  /** And a leader whose round somebody else's GEN_DONE has ended leads none. */
  lemma MayLeadNone(self: NodeId, suffix: string)
    ensures var first := Started([], "", map[], suffix, 0.0);
            Run(self, [first]).leaderId == self && Run(self, [first, DoneHeard(self + ":" + suffix)]).Idle?
  {
    RunThree(self, Started([], "", map[], suffix, 0.0), DoneHeard(self + ":" + suffix), DoneHeard(""));
  }

  /** A duplicate GEN_START is harmless while its round is active, and re-adopted once it is over. */
  lemma DuplicateStart(self: NodeId, st: Standing, start: Event)
    requires start.StartHeard?
    ensures Next(self, st, start) == st <==> st.Active?
    ensures st.Active? ==> Next(self, Next(self, st, DoneHeard(st.roundId)), start) ==
                           Active(start.roundId, start.nodeId, Sort(start.participants), start.prompt, start.genConfig,
                               start.at, start.at)
  {
  }

  /** Every call so far was made by this time. */
  ghost predicate By(events: seq<Event>, clock: real) {
    forall e :: e in events && !e.DoneHeard? ==> e.at <= clock
  }

  lemma OneMoreCall(self: NodeId, events: seq<Event>, e: Event, clock: real)
    requires Guarded(self, events) && Clocked(events) && By(events, clock)
    requires e.Started? ==> Run(self, events).Idle?
    requires !e.DoneHeard? ==> e.at == clock
    ensures Guarded(self, events + [e]) && Clocked(events + [e]) && By(events + [e], clock)
  {
    hide Run, Next;
    var all := events + [e];
    assert all[..|events|] == events;
    forall k: nat | k < |all| && all[k].Started?
      ensures Run(self, all[..k]).Idle?
    {
      assert all[..k] == events[..k];
    }
    forall i, j | 0 <= i < j < |all| && !all[i].DoneHeard? && !all[j].DoneHeard?
      ensures all[i].at <= all[j].at
    {
      assert all[i] in events;
    }
  }

  // ---------------------------------------------------------------- the manager

  datatype Status = IsActive | IsDone | IsFailed

  class RoundState {
    const roundId: string
    const leaderId: NodeId
    const participants: seq<NodeId>
    const prompt: string
    const genConfig: GenSettings
    const startedAt: real
    var lastLeaderSeen: real
    var status: Status

    constructor (roundId: string, leaderId: NodeId, participants: seq<NodeId>, prompt: string, genConfig: GenSettings,
                 startedAt: real, lastLeaderSeen: real)
      ensures Value() == Active(roundId, leaderId, participants, prompt, genConfig, startedAt, lastLeaderSeen)
      ensures status == IsActive
    {
      this.roundId, this.leaderId, this.participants := roundId, leaderId, participants;
      this.prompt, this.genConfig := prompt, genConfig;
      this.startedAt, this.lastLeaderSeen, this.status := startedAt, lastLeaderSeen, IsActive;
    }

    ghost function Value(): (st: Standing)
      reads this
      ensures st.Active?
    {
      Active(roundId, leaderId, participants, prompt, genConfig, startedAt, lastLeaderSeen)
    }
  }

  class RoundManager {
    const selfId: NodeId
    var activeRound: RoundState?
    ghost var events: seq<Event>

    ghost function State(): Standing
      reads this, activeRound
    {
      if activeRound == null then Idle else activeRound.Value()
    }

    /** A round held is an active one, and it is what the calls so far make it. */
    ghost predicate Valid()
      reads this, activeRound
    {
      (activeRound != null ==> activeRound.status.IsActive?) && State() == Run(selfId, events)
    }

    /** One more call: the new standing is the old one's next. */
    twostate predicate Took(e: Event)
      reads this, activeRound
    {
      && events == old(events) + [e]
      && State() == Next(selfId, old(State()), e)
      && (activeRound != null ==> activeRound == old(activeRound) || fresh(activeRound))
    }

    constructor (selfId: NodeId)
      ensures this.selfId == selfId && activeRound == null && events == [] && Valid()
    {
      this.selfId, activeRound, events := selfId, null, [];
    }

    method StartRound(participants: seq<NodeId>, prompt: string, genConfig: GenSettings, suffix: string, now: real)
      returns (state: RoundState)
      requires Valid()
      modifies this
      ensures Valid() && fresh(state) && activeRound == state
      ensures Took(Started(participants, prompt, genConfig, suffix, now))
      ensures state.roundId == selfId + ":" + suffix && state.leaderId == selfId
      ensures Sorted(state.participants) && multiset(state.participants) == multiset(participants)
      ensures state.prompt == prompt && state.genConfig == genConfig && state.startedAt == state.lastLeaderSeen == now
    {
      SortFacts(participants);
      var roundId := selfId + ":" + suffix;
      state := new RoundState(roundId, selfId, Sort(participants), prompt, genConfig, now, now);
      activeRound := state;
      Record(Started(participants, prompt, genConfig, suffix, now));
    }

    ghost method Record(e: Event)
      modifies this`events
      ensures events == old(events) + [e]
      ensures Run(selfId, events) == Next(selfId, Run(selfId, old(events)), e)
    {
      events := events + [e];
      assert events[..|events| - 1] == old(events);
    }

    method OnGenStart(nodeId: NodeId, roundId: string, participants: seq<NodeId>, prompt: string,
        genConfig: GenSettings, adoptedAt: real)
      requires Valid()
      modifies this
      ensures Valid() && Took(StartHeard(nodeId, roundId, participants, prompt, genConfig, adoptedAt))
      ensures old(activeRound) != null ==>
                activeRound == old(activeRound) && activeRound.lastLeaderSeen == old(activeRound.lastLeaderSeen)
      ensures old(activeRound) == null ==>
                && activeRound != null && fresh(activeRound)
                && activeRound.roundId == roundId && activeRound.leaderId == nodeId
                && Sorted(activeRound.participants) && multiset(activeRound.participants) == multiset(participants)
                && activeRound.prompt == prompt && activeRound.genConfig == genConfig
                && activeRound.startedAt == activeRound.lastLeaderSeen == adoptedAt
    {
      SortFacts(participants);
      Record(StartHeard(nodeId, roundId, participants, prompt, genConfig, adoptedAt));
      if activeRound != null && activeRound.status.IsActive? {
        return;
      }
      activeRound := new RoundState(roundId, nodeId, Sort(participants), prompt, genConfig, adoptedAt, adoptedAt);
    }

    method OnGenDone(roundId: string)
      requires Valid()
      modifies this, activeRound
      ensures Valid() && Took(DoneHeard(roundId))
      ensures old(activeRound) != null && activeRound == null ==> old(activeRound).status.IsDone?
      ensures activeRound == if old(activeRound) != null && old(activeRound).roundId == roundId then null
                             else old(activeRound)
      ensures activeRound != null ==> activeRound.lastLeaderSeen == old(activeRound.lastLeaderSeen)
    {
      Record(DoneHeard(roundId));
      if activeRound != null && roundId == activeRound.roundId {
        activeRound.status := IsDone;
        activeRound := null;
      }
    }

    method NoteLeaderActivity(nodeId: NodeId, ts: real)
      requires Valid()
      modifies this`events, activeRound
      ensures Valid() && Took(Heard(nodeId, ts)) && activeRound == old(activeRound)
      ensures activeRound != null ==>
                activeRound.lastLeaderSeen
                == if nodeId == activeRound.leaderId then ts else old(activeRound.lastLeaderSeen)
    {
      Record(Heard(nodeId, ts));
      if activeRound != null && activeRound.status.IsActive? && nodeId == activeRound.leaderId {
        activeRound.lastLeaderSeen := ts;
      }
    }

    method CheckLeaderTimeout(now: real) returns (failed: bool)
      requires Valid()
      modifies this, activeRound
      ensures Valid() && Took(Checked(now))
      ensures failed <==> TimedOut(selfId, old(State()), now)
      ensures failed <==>
                && old(activeRound) != null && old(activeRound).leaderId != selfId
                && now - old(activeRound.lastLeaderSeen) > ROUND_LEADER_TIMEOUT
      ensures failed ==> activeRound == null && old(activeRound).status.IsFailed?
      ensures !failed ==> activeRound == old(activeRound)
      ensures activeRound != null ==> activeRound.lastLeaderSeen == old(activeRound.lastLeaderSeen)
    {
      Record(Checked(now));
      if activeRound == null || !activeRound.status.IsActive? {
        return false;
      }
      if activeRound.leaderId == selfId {
        return false;
      }
      if now - activeRound.lastLeaderSeen > ROUND_LEADER_TIMEOUT {
        activeRound.status := IsFailed;
        activeRound := null;
        return true;
      }
      return false;
    }

    predicate IsRoundLeader()
      reads this, activeRound
    {
      activeRound != null && activeRound.leaderId == selfId
    }

    predicate IsParticipant(nodeId: NodeId)
      reads this, activeRound
    {
      activeRound != null && nodeId in activeRound.participants
    }
  }
}
