/** The generation runner (node/generation.py:90-250, without the printing): the block, step and sync
    loops over arrays and dictionaries, proved to follow the node machine. */
module Generation {
  import opened Prelude
  import opened Arith
  import opened Consensus
  import opened LocalStep
  import opened NodeMachine
  import opened Protocol
  import opened Inbox
  import opened Exchange
  import opened Grounding
  import opened NodeRuns
  import Facts = NodeFacts
  import Invariant = NodeInvariant
  import opened SwarmSystem
  import opened Usability
  import Safety = SwarmSafety
  import Verdicts
  import Round
  import SwarmNode
  import Transport
  import Stop = StopDetection

  /** `config.SYNC_BARRIER_TIMEOUT`, in seconds. */
  const SYNC_BARRIER_TIMEOUT: real := 45.0

  datatype GenConfig = GenConfig(genLength: nat, blockLength: nat, steps: nat, syncEvery: nat, stepCfg: StepConfig,
      stopCfg: Stop.StopConfig)
  {
    /** What the runner needs: some block, and a step for each. */
    predicate Valid() {
      && blockLength >= 1 && genLength >= blockLength && steps >= genLength / blockLength
      && syncEvery >= 1 && stopCfg.stopRunMin >= 1 && stopCfg.stopConfirmations >= 1
    }
  }

  /** The sizes that run_round derives from the prompt and the configuration. */
  function Sizes(gen: GenConfig, promptLength: nat, vocab: nat, exp: real -> real): Config
    requires gen.blockLength >= 1 && gen.genLength >= gen.blockLength
  {
    BlocksPositive(gen.genLength, gen.blockLength);
    var numBlocks := gen.genLength / gen.blockLength;
    Config(promptLength, promptLength + gen.genLength, gen.blockLength, numBlocks, gen.steps / numBlocks, gen.syncEvery,
           vocab, gen.stepCfg, gen.stopCfg, exp)
  }

  lemma BlocksPositive(a: nat, b: nat)
    requires b >= 1 && a >= b
    ensures a / b >= 1 && (a / b) * b <= a < (a / b + 1) * b
  {
    var q := a / b;
    assert a == q * b + a % b && 0 <= a % b < b;
    MulSucc(q, b);
    if q < 1 {
      MulMono(q, 0, b);
    }
  }

  lemma SizesValid(gen: GenConfig, promptLength: nat, vocab: nat, exp: real -> real)
    requires gen.Valid() && gen.stepCfg.maskId < vocab
    ensures Sizes(gen, promptLength, vocab, exp).Valid()
  {
    BlocksPositive(gen.genLength, gen.blockLength);
    BlocksPositive(gen.steps, gen.genLength / gen.blockLength);
  }

  // ---------------------------------------------------------------- one sync

  ghost predicate PublishesCommit(roundId: string, syncSeq: nat, id: NodeId, own: CommitMap, sent: seq<Envelope>) {
    && |sent| == 1 && sent[0].nodeId == id && sent[0].body.Commit? && sent[0].body.roundId == roundId
    && sent[0].body.syncSeq == syncSeq
    && IsFlattening(own, sent[0].body.positions, sent[0].body.tokens, sent[0].body.confidences)
  }

  /** The messages one sync publishes: the commits, and a report if the view shows a dispute. */
  ghost predicate Publishes(roundId: string, syncSeq: nat, id: NodeId, own: CommitMap, report: ScoreMap, view: Commits,
      sent: seq<Envelope>) {
    && sent != [] && PublishesCommit(roundId, syncSeq, id, own, sent[..1])
    && sent[1..] == if Disputes(view) == map[] then []
        else [Envelope(id, DisputeScore(roundId, syncSeq, EncodeScores(report)))]
  }

  lemma SyncedOutcome(cfg: Config, st: Node, view: Commits, scores: Scores)
    requires cfg.Valid()
    ensures var st' := Synced(cfg, st, view, scores);
            && st'.shared == SyncShared(st.shared, view, scores, cfg.exp)
            && st'.det == Stop.Step(cfg.stop, st.det, Stop.Read(cfg.stop, st'.shared, cfg.genStart, cfg.genEnd))
  {
    hide SyncShared, Stop.Read, Overlaid, OverlaidAge;
  }

  /** Nothing but what the swarm system's participant in that state has said. */
  ghost predicate Speaks(su: Setup, st: Node, sent: seq<Envelope>) {
    forall e :: e in sent ==> e.nodeId == st.id && Genuine(su, st, e.body)
  }

  /** What one sync publishes is what the participant of the swarm system says in it. */
  lemma SyncSays(su: Setup, st: Node, view: Commits, scores: Scores, sent: seq<Envelope>)
    requires su.Valid() && st.phase.Publishing? && st.id in view && view[st.id] == st.pending
    requires Disputes(view) != map[] ==> st.id in scores && scores[st.id] == OwnReport(su.log, st.p, Disputes(view))
    requires Publishes(su.roundId, st.SyncSeq(), st.id, st.pending, OwnReport(su.log, st.p, Disputes(view)), view, sent)
    ensures var st' := Synced(su.cfg, st, view, scores);
            Steady(su, st, st') && Speaks(su, st', sent)
  {
    hide Outcome, Overlaid, OverlaidAge, Disputes, OwnReport, EncodeScores, IsFlattening;
    var st' := Synced(su.cfg, st, view, scores);
    assert forall n :: 0 <= n < |st.log| ==> st'.log[n] == st.log[n];
    assert st'.log[|st.log|].view == view && st'.log[|st.log|].scores == scores;
    forall e | e in sent
      ensures e.nodeId == st.id && Genuine(su, st', e.body)
    {
      if e != sent[0] {
        assert e in sent[1..];
      }
    }
  }

  /** The scores of a sync: none without a dispute, else the own ones and what the reports say. */
  ghost predicate Reported(log: real -> real, st: Node, view: Commits, reports: Bucket, scores: Scores) {
    if Disputes(view) == map[] then scores == map[]
        else ReportsFrom(st.id, OwnReport(log, st.p, Disputes(view)), reports, scores)
  }

  lemma SyncViewOwn(st: Node, log: real -> real, got: Bucket, view: Commits, scores: Scores, reports: Bucket)
    requires CommitsFrom(st.id, st.pending, got, view)
    requires Reported(log, st, view, reports, scores)
    ensures OwnView(st, view, scores) && st.id in view && view[st.id] == st.pending
    ensures Disputes(view) != map[] ==> st.id in scores && scores[st.id] == OwnReport(log, st.p, Disputes(view))
  {
    OwnReportFits(log, st.p, view);
    hide Disputes, OwnReport, DecodesScores, Unflattened, ScoresFor;
  }

  lemma ReportedIsScored(log: real -> real, st: Node, roundId: string, others: set<NodeId>, view: Commits,
                         reports: Bucket, scores: Scores, events: seq<Inbox.Event>)
    requires Reported(log, st, view, reports, scores)
    requires Disputes(view) != map[] ==> Collects([], events, Key(ScoreKind, roundId, st.SyncSeq()), others, reports)
    ensures Scored(roundId, st.id, others, st.SyncSeq(), view, OwnReport(log, st.p, Disputes(view)), reports, scores,
                   events)
  {
    OwnReportFits(log, st.p, view);
    hide Disputes, OwnReport, ScoresFor, ReportsFrom, Collects;
  }

  lemma OwnViewCovers(st: Node, view: Commits, scores: Scores, exp: real -> real)
    requires OwnView(st, view, scores)
    ensures Covered(view, Resolved(view, scores, exp))
  {
    hide Disputes, ScoresFor, Covered, Resolved;
    OwnScoresCover(view, scores, exp, st.id);
  }

  lemma SpeaksOn(su: Setup, st: Node, st': Node, sent: seq<Envelope>)
    requires Steady(su, st, st') && Speaks(su, st, sent)
    ensures Speaks(su, st', sent)
  {
    hide Steady, Genuine;
    forall e | e in sent
      ensures e.nodeId == st'.id && Genuine(su, st', e.body)
    {
      Safety.GenuineStable(su, st, st', e.body);
      SteadyId(su, st, st');
    }
  }

  lemma SteadyId(su: Setup, st: Node, st': Node)
    requires Steady(su, st, st')
    ensures st'.id == st.id
  {
  }

  lemma SpeaksMore(su: Setup, st: Node, sent: seq<Envelope>, base: nat, more: seq<Envelope>)
    requires base <= |sent| <= |more| && sent <= more && Speaks(su, st, sent[base..]) && Speaks(su, st, more[|sent|..])
    ensures Speaks(su, st, more[base..])
  {
    hide Genuine;
    assert more[base..] == sent[base..] + more[|sent|..];
  }

  lemma UsableMore(cfg: Config, sent: seq<Envelope>, base: nat, more: seq<Envelope>)
    requires base <= |sent| <= |more| && sent <= more
    requires AllUsable(cfg, sent[base..]) && AllUsable(cfg, more[|sent|..])
    ensures AllUsable(cfg, more[base..])
  {
    hide Usable;
    assert more[base..] == sent[base..] + more[|sent|..];
  }

  // ---------------------------------------------------------------- what ties the loops to the machine

  /** The locals of run_round besides its arrays. */
  datatype Locals = Locals(shared: map<nat, nat>, pending: CommitMap, frozen: Option<nat>, syncSeq: nat)

  /** The machine holds what the locals and the detector hold. */
  ghost predicate Holds(st: Node, l: Locals, det: Stop.StopState) {
    st.shared == l.shared && st.pending == l.pending && st.det == det && det.stop == l.frozen
        && st.SyncSeq() == l.syncSeq
  }

  /** Before a step: the machine stands at this block and step with these arrays. */
  ghost predicate AtStep(st: Node, block: nat, step: nat, x: seq<nat>, age: seq<nat>, l: Locals, det: Stop.StopState) {
    st.phase.Stepping? && st.block == block && st.step == step && st.x == x && st.age == age && Holds(st, l, det)
  }

  /** Between blocks: the machine is about to begin this block, or done. */
  ghost predicate AtBlock(cfg: Config, st: Node, block: nat, x: seq<nat>, l: Locals, det: Stop.StopState) {
    && st.phase == (if RoundOver(cfg, block, l.frozen) then Done else Stepping) && st.block == block && st.step == 0
    && st.x == x && |st.age| == |x| && (forall i :: 0 <= i < |x| ==> st.age[i] == 0) && l.pending == map[]
        && Holds(st, l, det)
  }

  ghost predicate AfterStep(cfg: Config, st: Node, block: nat, step: nat, x: seq<nat>, age: seq<nat>, l: Locals,
      det: Stop.StopState) {
    if step < cfg.stepsPerBlock then AtStep(st, block, step, x, age, l, det) else AtBlock(cfg, st, block + 1, x, l, det)
  }

  /** Between a step and the sync that is due. */
  ghost predicate AtSync(cfg: Config, st: Node, block: nat, step: nat, x: seq<nat>, age: seq<nat>,
      p: (nat, nat) -> real, l: Locals, det: Stop.StopState) {
    && st.phase.Publishing? && st.block == block && st.step == step && st.x == x && st.age == age && st.p == p
    && Holds(st, l, det)
    && |x| == |age| == cfg.genEnd
  }

  lemma WorkedFields(cfg: Config, st: Node, fwd: Forward, transfer: set<nat>, remask: set<nat>, st': Node)
    requires cfg.Valid() && LocalWork(cfg, st, fwd, transfer, remask, st')
    ensures st'.phase == (if cfg.SyncDue(st.step) then Publishing else Stepping)
    ensures st'.step == (if cfg.SyncDue(st.step) then st.step else st.step + 1)
    ensures st'.block == st.block && st'.id == st.id && st'.log == st.log && st'.shared == st.shared
        && st'.det == st.det && st'.p == fwd.p
    ensures st'.pending == st.pending + Settled(fwd, transfer)
    ensures st'.x == Input(cfg, st, fwd).NextX(transfer, remask)
        && st'.age == Input(cfg, st, fwd).NextAge(transfer, remask)
  {
  }

  ghost predicate OverlaidBy(cfg: Config, block: nat, shared: map<nat, nat>, before: seq<nat>, after: seq<nat>) {
    |after| == |before| && forall i :: 0 <= i < |after| ==> after[i] == Overlaid(cfg, block, shared, before, i)
  }

  ghost predicate AgedBy(cfg: Config, block: nat, shared: map<nat, nat>, before: seq<nat>, after: seq<nat>) {
    |after| == |before| && forall i :: 0 <= i < |after| ==> after[i] == OverlaidAge(cfg, block, shared, before, i)
  }

  lemma SyncedFields(cfg: Config, st: Node, view: Commits, scores: Scores, x: seq<nat>, age: seq<nat>)
    requires cfg.Valid() && st.step < cfg.stepsPerBlock && |st.x| == |st.age|
    requires OverlaidBy(cfg, st.block, Synced(cfg, st, view, scores).shared, st.x, x)
    requires AgedBy(cfg, st.block, Synced(cfg, st, view, scores).shared, st.age, age)
    ensures var st' := Synced(cfg, st, view, scores);
            AfterStep(cfg, st', st.block, st.step + 1, x, age,
                Locals(st'.shared, map[], st'.det.stop, st.SyncSeq() + 1), st'.det)
  {
    hide SyncShared, Overlaid, OverlaidAge, Stop.Read, Stop.Step, RoundOver;
    var st' := Synced(cfg, st, view, scores);
    assert st'.x == x;
    if st.step + 1 < cfg.stepsPerBlock {
      assert st'.age == age;
    }
  }

  datatype LoopStatus = Going | Aborted | Raising

  /** What the round manager was called with, up to the check that ended the round if one did. */
  function Until(events: seq<Round.Event>, status: LoopStatus): seq<Round.Event>
    requires status.Aborted? ==> events != []
  {
    if status.Aborted? then events[..|events| - 1] else events
  }

  function Named(participants: seq<NodeId>): set<NodeId> {
    set n | n in participants
  }

  /** The round as the runner takes part in it. */
  function SetupOf(gen: GenConfig, roundId: string, members: set<NodeId>, prompt: seq<nat>, vocab: nat,
      log: real -> real, exp: real -> real): (su: Setup)
    requires gen.Valid() && gen.stepCfg.maskId < vocab
    ensures su.Valid()
  {
    SizesValid(gen, |prompt|, vocab, exp);
    Setup(Sizes(gen, |prompt|, vocab, exp), roundId, members, prompt, log)
  }

  /** The sizes of the round: as many whole blocks as the length has room for, and as many steps for each as there
      are for all; its participants are those that the round names. */
  lemma SetupIs(gen: GenConfig, roundId: string, participants: seq<NodeId>, prompt: seq<nat>, vocab: nat,
                log: real -> real, exp: real -> real)
    requires gen.Valid() && gen.stepCfg.maskId < vocab
    ensures var su := SetupOf(gen, roundId, Named(participants), prompt, vocab, log, exp);
            && su.cfg.genStart == |prompt| && su.cfg.genEnd == |prompt| + gen.genLength
            && su.cfg.blockLength == gen.blockLength && su.cfg.syncEvery == gen.syncEvery
            && su.cfg.numBlocks * gen.blockLength <= gen.genLength < (su.cfg.numBlocks + 1) * gen.blockLength
            && su.cfg.stepsPerBlock * su.cfg.numBlocks <= gen.steps < (su.cfg.stepsPerBlock + 1) * su.cfg.numBlocks
            && su.cfg.vocab == vocab && su.cfg.step == gen.stepCfg && su.cfg.stop == gen.stopCfg && su.cfg.exp == exp
            && su.roundId == roundId && su.prompt == prompt && su.log == log
            && (forall n :: n in su.members <==> n in participants)
  {
    BlocksPositive(gen.genLength, gen.blockLength);
    BlocksPositive(gen.steps, gen.genLength / gen.blockLength);
  }

  /** All that was published in between is what the machine has said, and then the closing message. */
  ghost predicate PublishedSince(t: Trail, before: seq<Envelope>, after: seq<Envelope>, closing: seq<Envelope>)
    requires t.path != []
  {
    && |before| + |closing| <= |after| && before <= after && after[|after| - |closing|..] == closing
    && Speaks(t.su, t.Now(), after[|before|..|after| - |closing|])
  }

  /** The machine run that the runner has followed so far; it began when `base` messages had been sent. */
  datatype Trail = Trail(su: Setup, path: seq<Node>, base: nat)
  {
    ghost function Now(): Node
      requires path != []
    {
      path[|path| - 1]
    }

    ghost function On(st: Node): Trail {
      this.(path := path + [st])
    }
  }

  /** The trail is a run of the machine whose last state is in order, every forward pass of it was the model's on
      the sequence it then had, and every sync of it came out of this inbox and scored with the model's own
      distribution. */
  ghost predicate Followed(t: Trail, id: NodeId, model: (nat, seq<nat>) -> Forward, events: seq<Inbox.Event>) {
    && t.path != [] && t.su.Valid() && IsNodeRun(t.su.cfg, id, t.su.prompt, t.path) && NodeOk(t.su, id, t.Now())
    && Modelled(t.su.cfg, model, t.path) && OwnReported(t.su, t.Now())
    && Grounded(t.su.cfg, t.su.roundId, t.su.members - {id}, t.su.prompt, t.Now(), events)
  }

  class GenerationRunner {
    const swarm: SwarmNode.SwarmNode
    /** The model: what its n-th forward pass of the round makes of a sequence, over this many tokens. */
    const model: (nat, seq<nat>) -> Forward
    const vocab: nat
    const log: real -> real
    const exp: real -> real

    constructor (swarm: SwarmNode.SwarmNode, model: (nat, seq<nat>) -> Forward, vocab: nat, log: real -> real,
                 exp: real -> real)
      requires forall n: nat, xs: seq<nat>, i: nat :: model(n, xs).x0(i) < vocab
      ensures this.swarm == swarm && this.model == model && this.vocab == vocab && this.log == log && this.exp == exp
      ensures Predicting()
    {
      this.swarm, this.model, this.vocab, this.log, this.exp := swarm, model, vocab, log, exp;
    }

    /** What the model predicts is an argmax over its vocabulary. */
    ghost predicate Predicting() {
      forall n: nat, xs: seq<nat>, i: nat :: model(n, xs).x0(i) < vocab
    }

    /** What every part of the round leaves in order. */
    twostate predicate Kept()
      reads swarm, swarm.transport, swarm.peers, swarm.roundMgr, swarm.roundMgr.activeRound
    {
      && swarm.Valid() && old(swarm.transport.sent) <= swarm.transport.sent && old(swarm.events) <= swarm.events
      && old(swarm.dispatched) <= swarm.dispatched
      && old(swarm.transport.clock) <= swarm.transport.clock && old(swarm.roundMgr.events) <= swarm.roundMgr.events
      && |swarm.transport.script| <= |old(swarm.transport.script)|
      && (swarm.roundMgr.activeRound != null ==>
            swarm.roundMgr.activeRound == old(swarm.roundMgr.activeRound) || fresh(swarm.roundMgr.activeRound))
    }

    /** And no check has ended a round meanwhile. */
    twostate predicate Attended()
      reads swarm, swarm.transport, swarm.peers, swarm.roundMgr, swarm.roundMgr.activeRound
    {
      Kept() && Round.Goes(swarm.id, old(swarm.roundMgr.events), swarm.roundMgr.events)
    }

    /** At least so many checks of the leader, and as many polls: either so many arrivals were read or there is none
        left to read. */
    twostate predicate Watched(n: nat)
      reads swarm, swarm.transport, swarm.roundMgr
    {
      && Round.Checks(swarm.roundMgr.events) >= Round.Checks(old(swarm.roundMgr.events)) + n
      && (swarm.transport.script == [] || |swarm.transport.script| + n <= |old(swarm.transport.script)|)
    }

    /** The last check, and no earlier one, has ended the round then held: its leader timed out. */
    twostate predicate GivenUp()
      reads swarm, swarm.transport, swarm.peers, swarm.roundMgr, swarm.roundMgr.activeRound
    {
      && Kept() && swarm.roundMgr.activeRound == null && Round.JustTimedOut(swarm.id, swarm.roundMgr.events)
      && swarm.Forsaken(Round.Run(swarm.id, swarm.roundMgr.events[..|swarm.roundMgr.events| - 1]))
      && Round.Goes(swarm.id, old(swarm.roundMgr.events), swarm.roundMgr.events[..|swarm.roundMgr.events| - 1])
    }

    /** This was published, and only then was anything polled. */
    twostate predicate PublishedFirst(env: Envelope)
      reads swarm.transport
    {
      var before, now := old(swarm.transport.acts), swarm.transport.acts;
      && before < now && now[|before|] == Transport.Sent(env)
      && forall k :: |before| < k < |now| ==> now[k].Polled?
    }

    /** The first half of phase one: all that is pending, sent to all. */
    method PublishCommits(roundId: string, syncSeq: nat, myCommits: CommitMap)
      modifies swarm.transport`sent, swarm.transport`acts
      ensures |swarm.transport.sent| == |old(swarm.transport.sent)| + 1
      ensures old(swarm.transport.sent) <= swarm.transport.sent
      ensures PublishesCommit(roundId, syncSeq, swarm.id, myCommits,
          swarm.transport.sent[|old(swarm.transport.sent)|..])
      ensures swarm.transport.acts
              == old(swarm.transport.acts) + [Transport.Sent(swarm.transport.sent[|old(swarm.transport.sent)|])]
    {
      var positions, tokens, confidences := Flatten(myCommits);
      hide IsFlattening;
      swarm.transport.Publish(swarm.id, Commit(roundId, syncSeq, positions, tokens, confidences));
    }

    /** Phase one: publish the own commits, collect the others' until all are there or the barrier times
        out. */
    method CommitPhase(roundId: string, syncSeq: nat, others: set<NodeId>, myCommits: CommitMap)
      returns (view: Commits, ghost got: Bucket)
      requires swarm.Valid() && swarm.id !in others
      modifies swarm, swarm.transport, swarm.peers, swarm.roundMgr, swarm.roundMgr.activeRound
      ensures Attended() && got.Keys <= others && CommitsFrom(swarm.id, myCommits, got, view)
      ensures Collects(old(swarm.events), swarm.events, Key(CommitKind, roundId, syncSeq), others, got)
      ensures got.Keys == others || swarm.transport.clock >= old(swarm.transport.clock) + SYNC_BARRIER_TIMEOUT
      ensures |swarm.transport.sent| == |old(swarm.transport.sent)| + 1
      ensures PublishesCommit(roundId, syncSeq, swarm.id, myCommits,
          swarm.transport.sent[|old(swarm.transport.sent)|..])
      ensures PublishedFirst(swarm.transport.sent[|old(swarm.transport.sent)|])
    {
      hide SwarmNode.SwarmNode.Valid, SwarmNode.SwarmNode.Follows, Collecting, Collects, CommitsFrom, IsFlattening,
           From, BucketOf, FileAll, Filings, Pop, Unflattened, Round.Ends, PublishesCommit;
      PublishCommits(roundId, syncSeq, myCommits);
      var othersRaw, polled := swarm.CollectUntil(CommitKind, roundId, syncSeq, others, SYNC_BARRIER_TIMEOUT);
      got := othersRaw;
      view := ReadCommits(swarm.id, myCommits, othersRaw);
    }

    /** The first half of phase two: the own score of every disputed token, sent to all. */
    method PublishScores(roundId: string, syncSeq: nat, p: (nat, nat) -> real, length: nat,
        disputes: map<nat, set<nat>>)
      returns (r: Result<ScoreMap>)
      modifies swarm.transport`sent, swarm.transport`acts
      ensures r == if InDomain(disputes, length, vocab) then Ok(OwnReport(log, p, disputes)) else Raised
      ensures r.Raised? ==>
                swarm.transport.sent == old(swarm.transport.sent) && swarm.transport.acts == old(swarm.transport.acts)
      ensures r.Ok? ==>
                && swarm.transport.sent == old(swarm.transport.sent) +
                     [Envelope(swarm.id, DisputeScore(roundId, syncSeq, EncodeScores(OwnReport(log, p, disputes))))]
                && swarm.transport.acts
                   == old(swarm.transport.acts) + [Transport.Sent(swarm.transport.sent[|old(swarm.transport.sent)|])]
                && var wire := EncodeScores(OwnReport(log, p, disputes));
                   forall pos :: pos in disputes ==>
                     && Str(pos) in wire
                     && forall t :: t in disputes[pos] ==>
                          && Str(t) in wire[Str(pos)]
                          && wire[Str(pos)][Str(t)]
                             == log(if p(pos, t) < 0.000000000001 then 0.000000000001 else p(pos, t))
    {
      hide EncodeScores, OwnReport, Str;
      r := ScoreDisputes(log, p, length, vocab, disputes);
      if r.Ok? {
        OwnReportOnWire(log, p, disputes);
        swarm.transport.Publish(swarm.id, DisputeScore(roundId, syncSeq, EncodeScores(r.value)));
      }
    }

    /** The second half: what the reports that arrived and the own scores resolve. */
    method ResolveReports(ghost view: Commits, myScores: ScoreMap, othersRaw: Bucket)
      returns (r: Result<map<nat, nat>>, ghost scores: Scores)
      requires swarm.id !in othersRaw && forall j :: j in othersRaw ==> othersRaw[j].DisputeScore?
      requires ScoresFor(myScores, view)
      ensures r.Raised? ==> exists j :: j in othersRaw && Malformed(othersRaw[j])
      ensures r.Ok? ==> ReportsFrom(swarm.id, myScores, othersRaw, scores) && r.value == Winners(scores, exp)
    {
      hide DecodesScores, Disputes, WellFormed, Winners, ScoredPositions, ScoredTokens, ScoresFor, ReportsFrom;
      scores := map[];
      var allScores := ReadReports(swarm.id, myScores, othersRaw);
      if allScores.Raised? {
        return Raised, scores;
      }
      scores := allScores.value;
      if forall j :: j in othersRaw ==> WellFormed(othersRaw[j].scores) {
        UsableReports(swarm.id, myScores, othersRaw, view, scores);
      }
      r := ResolveDisputes(allScores.value, exp);
    }

    /** Phase two: publish the own scores of every disputed token, collect the others' as long as the
        barrier allows, and resolve with whatever arrived. A position or token that the own distribution
        does not have raises before anything is published. */
    method ScorePhase(roundId: string, syncSeq: nat, others: set<NodeId>, p: (nat, nat) -> real, length: nat,
        disputes: map<nat, set<nat>>, ghost view: Commits)
      returns (r: Result<map<nat, nat>>, ghost got: Bucket, ghost scores: Scores)
      requires swarm.Valid() && swarm.id !in others && disputes == Disputes(view)
      modifies swarm, swarm.transport, swarm.peers, swarm.roundMgr, swarm.roundMgr.activeRound
      ensures Attended() && got.Keys <= others
      ensures !InDomain(disputes, length, vocab) ==> r.Raised? && swarm.transport.sent == old(swarm.transport.sent)
      ensures InDomain(disputes, length, vocab) ==>
                && Collects(old(swarm.events), swarm.events, Key(ScoreKind, roundId, syncSeq), others, got)
                && (got.Keys == others || swarm.transport.clock >= old(swarm.transport.clock) + SYNC_BARRIER_TIMEOUT)
                && swarm.transport.sent == old(swarm.transport.sent) +
                     [Envelope(swarm.id, DisputeScore(roundId, syncSeq, EncodeScores(OwnReport(log, p, disputes))))]
                && PublishedFirst(swarm.transport.sent[|old(swarm.transport.sent)|])
                && (var wire := swarm.transport.sent[|old(swarm.transport.sent)|].body.scores;
                    forall pos :: pos in disputes ==>
                      && Str(pos) in wire
                      && forall t :: t in disputes[pos] ==>
                           && Str(t) in wire[Str(pos)]
                           && wire[Str(pos)][Str(t)]
                              == log(if p(pos, t) < 0.000000000001 then 0.000000000001 else p(pos, t)))
                && (r.Raised? ==> exists j :: j in got && Malformed(got[j]))
      ensures r.Ok? ==>
                ReportsFrom(swarm.id, OwnReport(log, p, disputes), got, scores) && r.value == Winners(scores, exp)
    {
      hide SwarmNode.SwarmNode.Valid, Collecting, From, BucketOf, FileAll, Filings, Pop, EncodeScores, OwnReport,
          DecodesScores, Disputes, WellFormed, Winners, ScoredPositions, ScoredTokens, InDomain, Round.Ends, Str,
          Collects, ScoresFor, ReportsFrom;
      got, scores := map[], map[];
      var myScores := PublishScores(roundId, syncSeq, p, length, disputes);
      if myScores.Raised? {
        QuietlyAttended();
        return Raised, got, scores;
      }
      var othersRaw, polled := swarm.CollectUntil(ScoreKind, roundId, syncSeq, others, SYNC_BARRIER_TIMEOUT);
      got := othersRaw;
      OwnReportFits(log, p, view);
      r, scores := ResolveReports(view, myScores.value, othersRaw);
    }

    /** Nothing at all has happened. */
    twostate lemma QuietlyAttended()
      requires swarm.Valid() && swarm.transport.sent == old(swarm.transport.sent) && swarm.events == old(swarm.events)
      requires swarm.dispatched == old(swarm.dispatched) && swarm.transport.script == old(swarm.transport.script)
      requires swarm.transport.clock == old(swarm.transport.clock)
      requires swarm.roundMgr.events == old(swarm.roundMgr.events)
          && swarm.roundMgr.activeRound == old(swarm.roundMgr.activeRound)
      ensures Attended()
    {
      hide SwarmNode.SwarmNode.Valid, Round.Ends;
      Round.GoesUnchecked(swarm.id, swarm.roundMgr.events, []);
      assert swarm.roundMgr.events + [] == swarm.roundMgr.events;
    }

    /** Both phases: the commits the sync merges, and what it resolves of their disputes. */
    method ExchangePhases(ghost su: Setup, ghost st: Node, roundId: string, syncSeq: nat, others: set<NodeId>,
        myCommits: CommitMap, p: (nat, nat) -> real, length: nat)
      returns (r: Result<map<nat, nat>>, allCommits: Commits, ghost got: Bucket, ghost reports: Bucket,
          ghost scores: Scores)
      requires swarm.Valid() && swarm.id !in others && su.Valid() && su.log == log && su.roundId == roundId
      requires su.cfg.genEnd == length && su.cfg.vocab == vocab
      requires st.phase.Publishing? && st.id == swarm.id && st.SyncSeq() == syncSeq && st.pending == myCommits
          && st.p == p
      modifies swarm, swarm.transport, swarm.peers, swarm.roundMgr, swarm.roundMgr.activeRound
      ensures Attended()
      ensures got.Keys <= others && reports.Keys <= others && CommitsFrom(swarm.id, myCommits, got, allCommits)
      ensures Collects(old(swarm.events), swarm.events, Key(CommitKind, roundId, syncSeq), others, got)
      ensures Asked(length, allCommits) ==>
          Collects(old(swarm.events), swarm.events, Key(ScoreKind, roundId, syncSeq), others, reports)
      ensures r.Ok? ==>
                && Reported(log, st, allCommits, reports, scores) && r.value == Resolved(allCommits, scores, exp)
                && InDomain(Disputes(allCommits), length, vocab)
                && Publishes(roundId, syncSeq, swarm.id, myCommits, OwnReport(log, p, Disputes(allCommits)), allCommits,
                             swarm.transport.sent[|old(swarm.transport.sent)|..])
      ensures r.Raised? && InDomain(Disputes(allCommits), length, vocab) ==>
                Asked(length, allCommits) && exists j :: j in reports && Malformed(reports[j])
      ensures swarm.transport.clock < old(swarm.transport.clock) + SYNC_BARRIER_TIMEOUT ==>
                got.Keys == others && (Asked(length, allCommits) ==> reports.Keys == others)
      ensures Facts.InRange(su.cfg, myCommits) ==>
                AllUsable(su.cfg, swarm.transport.sent[|old(swarm.transport.sent)|..])
    {
      hide SwarmNode.SwarmNode.Valid, Collecting, CommitsFrom, ReportsFrom, OwnReport, Disputes, EncodeScores,
           Winners, WellFormed, PublishesCommit, InDomain, Malformed, Round.Goes, Usable, Facts.InRange, ScoresFor,
           Covered, PublishedFirst, Collects, Str, AllUsable;
      reports, scores := map[], map[];
      ghost var heard := swarm.roundMgr.events;
      allCommits, got := CommitPhase(roundId, syncSeq, others, myCommits);
      ghost var between, told := swarm.events, swarm.roundMgr.events;
      ghost var start, said := |old(swarm.transport.sent)|, swarm.transport.sent;
      var disputes := DetectDisputes(allCommits);
      r := Ok(map[]);
      NoDisputeInDomain(length, vocab);
      if disputes != map[] {
        r, reports, scores := ScorePhase(roundId, syncSeq, others, p, length, disputes, allCommits);
        Round.GoesOn(swarm.id, heard, told, swarm.roundMgr.events);
        CollectsLater(old(swarm.events), between, swarm.events, Key(CommitKind, roundId, syncSeq), others, got);
        if InDomain(disputes, length, vocab) {
          CollectsEarlier(old(swarm.events), between, swarm.events, Key(ScoreKind, roundId, syncSeq), others, reports);
        }
      }
      ghost var news := swarm.transport.sent[|old(swarm.transport.sent)|..];
      NewsSplit(said, start, swarm.transport.sent);
      SyncUsable(su, st, roundId, syncSeq, length, allCommits, news);
    }

    lemma NewsSplit(said: seq<Envelope>, start: nat, sent: seq<Envelope>)
      requires said <= sent && |said| == start + 1
      ensures sent[start..][..1] == said[start..] && sent[start..][1..] == sent[|said|..] && sent[start..] != []
    {
    }

    /** What a sync publishes can be used, even if it raises afterwards. */
    lemma SyncUsable(su: Setup, st: Node, roundId: string, syncSeq: nat, length: nat, view: Commits,
        news: seq<Envelope>)
      requires su.cfg.genEnd == length && su.cfg.vocab == vocab && news != []
      requires PublishesCommit(roundId, syncSeq, st.id, st.pending, news[..1])
      requires Asked(length, view) ==>
                 news[1..] == [Envelope(st.id, DisputeScore(roundId, syncSeq,
                                                            EncodeScores(OwnReport(log, st.p, Disputes(view)))))]
      requires !Asked(length, view) ==> news[1..] == []
      ensures Facts.InRange(su.cfg, st.pending) ==> AllUsable(su.cfg, news)
    {
      hide Disputes, OwnReport, InDomain, EncodeScores, Usable, IsFlattening, ScoresFor, Facts.InRange;
      if Facts.InRange(su.cfg, st.pending) {
        CommitUsable(su.cfg, st.pending, news[0].body);
        if Asked(length, view) {
          OwnReportFits(log, st.p, view);
          ReportUsable(su.cfg, view, OwnReport(log, st.p, Disputes(view)), news[1..][0].body);
        }
        assert forall e :: e in news ==> e == news[0] || e in news[1..];
      }
    }

    /** The second phase takes place: there are disputes, and the node can score them. */
    ghost predicate Asked(length: nat, view: Commits) {
      Disputes(view) != map[] && InDomain(Disputes(view), length, vocab)
    }

    lemma NoDisputeInDomain(length: nat, size: nat)
      ensures InDomain(map[], length, size)
    {
    }

    /** _do_sync: both phases, the merge and the stop check. Whatever arrived, what it returns is the
        machine's sync with the view it had; it raises only on what no participant sends: commits that
        dispute a position or token out of range, or a malformed report. */
    method DoSync(ghost su: Setup, ghost st: Node, cfg: Config, roundId: string, syncSeq: nat, others: set<NodeId>,
        myCommits: CommitMap, p: (nat, nat) -> real, shared: map<nat, nat>, detector: Stop.StopDetector)
      returns (r: Result<map<nat, nat>>, frozen: Option<nat>, ghost st': Node,
               ghost got: Bucket, ghost view: Commits, ghost reports: Bucket, ghost scores: Scores)
      requires swarm.Valid() && swarm.id !in others
      requires su.Valid() && su.cfg == cfg && cfg.exp == exp && su.log == log && su.roundId == roundId
      requires cfg.vocab == vocab
      requires st.phase.Publishing? && st.id == swarm.id && st.SyncSeq() == syncSeq && st.pending == myCommits
          && st.p == p
      requires st.shared == shared && st.det == detector.State() && detector.cfg == cfg.stop
      modifies swarm, swarm.transport, swarm.peers, swarm.roundMgr, swarm.roundMgr.activeRound, detector
      ensures Attended()
      ensures got.Keys <= others && reports.Keys <= others && CommitsFrom(swarm.id, myCommits, got, view)
      ensures Collects(old(swarm.events), swarm.events, Key(CommitKind, roundId, syncSeq), others, got)
      ensures Asked(cfg.genEnd, view) ==> Collects(old(swarm.events), swarm.events, Key(ScoreKind, roundId, syncSeq),
          others, reports)
      ensures swarm.transport.clock < old(swarm.transport.clock) + SYNC_BARRIER_TIMEOUT ==>
                got.Keys == others && (Asked(cfg.genEnd, view) ==> reports.Keys == others)
      ensures r.Ok? ==>
                && Reported(log, st, view, reports, scores) && OwnView(st, view, scores)
                && InDomain(Disputes(view), cfg.genEnd, vocab)
                && st' == Synced(cfg, st, view, scores) && r.value == st'.shared && detector.State() == st'.det
                && frozen == st'.det.stop
                && Steady(su, st, st') && Speaks(su, st', swarm.transport.sent[|old(swarm.transport.sent)|..])
      ensures r.Raised? && InDomain(Disputes(view), cfg.genEnd, vocab) ==>
                Asked(cfg.genEnd, view) && exists j :: j in reports && Malformed(reports[j])
      ensures Facts.InRange(cfg, myCommits) ==> AllUsable(cfg, swarm.transport.sent[|old(swarm.transport.sent)|..])
    {
      hide SwarmNode.SwarmNode.Valid, Collecting, CommitsFrom, Reported, OwnReport, Disputes, Winners, Synced, OwnView,
          Publishes, Speaks, Merged, Covered, Stop.Read, Stop.Step, Steady, InDomain, Malformed, Asked, Round.Goes,
          AllUsable, Facts.InRange;
      frozen, st' := None, st;
      var allCommits, resolved;
      resolved, allCommits, got, reports, scores :=
        ExchangePhases(su, st, roundId, syncSeq, others, myCommits, p, cfg.genEnd);
      view := allCommits;
      if resolved.Raised? {
        r := Raised;
        return;
      }
      SyncViewOwn(st, log, got, view, scores, reports);
      SyncSays(su, st, view, scores, swarm.transport.sent[|old(swarm.transport.sent)|..]);
      OwnViewCovers(st, view, scores, exp);
      var updated := MergeConsensus(shared, allCommits, resolved.value);
      frozen := detector.Check(updated, cfg.genStart, cfg.genEnd);
      st' := Synced(cfg, st, view, scores);
      SyncedOutcome(cfg, st, view, scores);
      r := Ok(updated);
    }

    /** `pending_commits[pos] = (x0[0, pos], conf_new[0, pos])` for every settled position. */
    method AddPending(fwd: Forward, transfer: array<bool>, before: CommitMap) returns (pending: CommitMap)
      ensures pending == before + Settled(fwd, TrueAt(transfer[..]))
      ensures forall i: nat :: i in pending <==> i in before || (i < transfer.Length && transfer[i])
      ensures forall i: nat :: i < transfer.Length && transfer[i] ==>
                pending[i].token == fwd.x0(i) && pending[i].confidence == fwd.p(i, fwd.x0(i))
      ensures forall i: nat :: i in before && (i >= transfer.Length || !transfer[i]) ==> pending[i] == before[i]
    {
      pending := before;
      for i := 0 to transfer.Length
        invariant pending == before + Settled(fwd, TrueAt(transfer[..i]))
      {
        assert TrueAt(transfer[..i + 1]) == TrueAt(transfer[..i]) + if transfer[i] then {i} else {};
        if transfer[i] {
          pending := pending[i := Proposal(fwd.x0(i), fwd.p(i, fwd.x0(i)))];
        }
      }
      assert transfer[..transfer.Length] == transfer[..];
    }

    /** One denoising step on the arrays: the machine's step. It raises when the sequence holds a token that
        the model's distribution has no column for. */
    method WorkOnce(ghost st: Node, cfg: Config, blockIdx: nat, stepIdx: nat, frozen: Option<nat>, x: array<nat>,
        age: array<nat>, pending: CommitMap)
      returns (ok: bool, x': array<nat>, age': array<nat>, pending': CommitMap, fwd: Forward, ghost st': Node)
      requires cfg.Valid() && cfg.vocab == vocab && Predicting() && Shape(cfg, st)
      requires st.phase.Stepping? && st.block == blockIdx && st.step == stepIdx
      requires st.x == x[..] && st.age == age[..] && st.pending == pending && st.det.stop == frozen
      ensures ok <==> forall i :: 0 <= i < x.Length ==> x[i] < vocab
      ensures ok ==>
                && fresh(x') && fresh(age') && x' != age' && x'.Length == age'.Length == x.Length
                && fwd == model(blockIdx * cfg.stepsPerBlock + stepIdx, st.x)
                && (exists transfer, remask :: LocalWork(cfg, st, fwd, transfer, remask, st'))
                && x'[..] == st'.x && age'[..] == st'.age && pending' == st'.pending
    {
      hide StepInput.IsRemask, StepInput.IsTransfer, StepInput.NextX, StepInput.NextAge, StepInput.Contained,
          Config.SyncDue, TrueAt;
      BlockStarts(cfg, blockIdx);
      fwd := model(blockIdx * cfg.stepsPerBlock + stepIdx, x[..]);
      ok, x', age', pending', st' := forall i :: 0 <= i < x.Length ==> x[i] < vocab, x, age, pending, st;
      if !ok {
        return;
      }
      var transfer, remask;
      x', age', transfer, remask := LocalStep.LocalStep(cfg.step, fwd, x, age, cfg.stepsPerBlock - stepIdx,
          cfg.BlockStart(blockIdx), cfg.BlockStart(blockIdx + 1), cfg.stepsPerBlock, frozen);
      pending' := AddPending(fwd, transfer, pending);
      st' := Worked(cfg, st, fwd, TrueAt(transfer[..]), TrueAt(remask[..]));
      assert LocalWork(cfg, st, fwd, TrueAt(transfer[..]), TrueAt(remask[..]), st');
      WorkedFields(cfg, st, fwd, TrueAt(transfer[..]), TrueAt(remask[..]), st');
    }

    /** The block's positions take the agreed tokens and start to age anew. */
    method Overlay(cfg: Config, blockIdx: nat, shared: map<nat, nat>, x: array<nat>, age: array<nat>)
      requires cfg.Valid() && blockIdx < cfg.numBlocks && x.Length == age.Length == cfg.genEnd && x != age
      modifies x, age
      ensures OverlaidBy(cfg, blockIdx, shared, old(x[..]), x[..])
          && AgedBy(cfg, blockIdx, shared, old(age[..]), age[..])
    {
      BlockStarts(cfg, blockIdx);
      hide Config.BlockStart;
      var todo := shared.Keys;
      while todo != {}
        invariant todo <= shared.Keys
        invariant forall i :: 0 <= i < x.Length ==>
                    x[i] == if i in shared && i !in todo then Overlaid(cfg, blockIdx, shared, old(x[..]), i)
                        else old(x[i])
        invariant forall i :: 0 <= i < age.Length ==>
                    age[i] == if i in shared && i !in todo then OverlaidAge(cfg, blockIdx, shared, old(age[..]), i)
                        else old(age[i])
      {
        var pos :| pos in todo;
        if cfg.BlockStart(blockIdx) <= pos < cfg.BlockStart(blockIdx + 1) {
          x[pos] := shared[pos];
          age[pos] := 0;
        }
        todo := todo - {pos};
      }
    }

    ghost predicate Fits(su: Setup, cfg: Config, roundId: string) {
      && su.Valid() && su.cfg == cfg && cfg.exp == exp && cfg.vocab == vocab && su.log == log && su.roundId == roundId
      && Predicting()
    }

    /** A run of the machine, made of what the inbox collected, and everything published since it began is
        what the machine has said. */
    ghost predicate Trails(t: Trail, cfg: Config, roundId: string, others: set<NodeId>, sent: seq<Envelope>,
                           events: seq<Inbox.Event>) {
      && t.path != [] && Fits(t.su, cfg, roundId) && swarm.id !in others
      && IsNodeRun(cfg, swarm.id, t.su.prompt, t.path) && Chained(t.su, t.Now())
      && Modelled(cfg, model, t.path) && OwnReported(t.su, t.Now())
      && Grounded(cfg, roundId, others, t.su.prompt, t.Now(), events)
      && t.base <= |sent| && Speaks(t.su, t.Now(), sent[t.base..])
    }

    ghost predicate OnTrail(t: Trail, cfg: Config, roundId: string, others: set<NodeId>)
      reads swarm.transport`sent, swarm`events
    {
      t.path != [] && Trails(t, cfg, roundId, others, swarm.transport.sent, swarm.events)
    }

    /** The trail went on. */
    ghost predicate Continues(t: Trail, t': Trail, cfg: Config, roundId: string, others: set<NodeId>)
      reads swarm.transport`sent, swarm`events
    {
      t'.su == t.su && t'.base == t.base && t.path <= t'.path && OnTrail(t', cfg, roundId, others)
    }

    /** When the round raises another participant or the prompt can be blamed, and nobody can blame this node:
        all it published can be used. */
    ghost predicate Excuse(t: Trail, cfg: Config, roundId: string, others: set<NodeId>)
      reads swarm.transport`sent, swarm`events
    {
      && Excused(cfg, roundId, others, t.su.prompt, swarm.events)
      && t.base <= |swarm.transport.sent| && AllUsable(cfg, swarm.transport.sent[t.base..])
    }

    lemma NodeOnTrail(t: Trail, cfg: Config, roundId: string, others: set<NodeId>)
      requires OnTrail(t, cfg, roundId, others)
      ensures NodeOk(t.su, swarm.id, t.Now())
    {
      hide IsNodeRun, Modelled, OwnReported, Invariant.Inv, Speaks, Grounded, Chained;
      NodeRunKeepsInv(cfg, swarm.id, t.su.prompt, t.path, |t.path| - 1);
    }

    lemma ShapeOnTrail(t: Trail, cfg: Config, roundId: string, others: set<NodeId>)
      requires OnTrail(t, cfg, roundId, others)
      ensures cfg.Valid() && Shape(cfg, t.Now()) && t.Now().id == swarm.id && Facts.InRange(cfg, t.Now().pending)
    {
      hide IsNodeRun, Modelled, OwnReported, Shape, Speaks, Grounded, Chained, Facts.InRange;
      NodeRunKeepsInv(cfg, swarm.id, t.su.prompt, t.path, |t.path| - 1);
      InvRanged(cfg, t.Now());
    }

    lemma TrailUsable(t: Trail, cfg: Config, roundId: string, others: set<NodeId>, sent: seq<Envelope>,
                      events: seq<Inbox.Event>)
      requires Trails(t, cfg, roundId, others, sent, events)
      ensures t.base <= |sent| && AllUsable(cfg, sent[t.base..])
    {
      hide IsNodeRun, Modelled, OwnReported, Invariant.Inv, Chained, Genuine, Usable, FromBuckets, Spelled, Scorable,
           Facts.Ranged, Excused;
      NodeRunKeepsInv(cfg, swarm.id, t.su.prompt, t.path, |t.path| - 1);
      InvRanged(cfg, t.Now());
      forall e | e in sent[t.base..]
        ensures Usable(cfg, e.body)
      {
        GenuineUsable(t.su, t.Now(), e.body);
      }
    }

    /** Polling keeps the trail. */
    lemma StaysOnTrail(t: Trail, cfg: Config, roundId: string, others: set<NodeId>, sent: seq<Envelope>,
                       events: seq<Inbox.Event>, later: seq<Inbox.Event>)
      requires Trails(t, cfg, roundId, others, sent, events) && events <= later
      ensures Trails(t, cfg, roundId, others, sent, later)
    {
      hide IsNodeRun, Modelled, OwnReported, Speaks, Grounded, Chained, Fits;
      GroundedLater(cfg, roundId, others, t.su.prompt, t.Now(), events, later);
    }

    /** A sync, as one more step of the machine's run. */
    method SyncOnTrail(ghost t: Trail, cfg: Config, roundId: string, others: set<NodeId>, l: Locals,
        p: (nat, nat) -> real, detector: Stop.StopDetector)
      returns (r: Result<map<nat, nat>>, frozen: Option<nat>, ghost st': Node, ghost view: Commits,
          ghost scores: Scores)
      requires swarm.Valid() && OnTrail(t, cfg, roundId, others) && detector.cfg == cfg.stop
      requires t.Now().phase.Publishing? && t.Now().p == p && Holds(t.Now(), l, detector.State())
      modifies swarm, swarm.transport, swarm.peers, swarm.roundMgr, swarm.roundMgr.activeRound, detector
      ensures Attended() && cfg.Valid()
      ensures r.Ok? ==>
                && OnTrail(t.On(st'), cfg, roundId, others) && st' == Synced(cfg, t.Now(), view, scores)
                && r.value == st'.shared && detector.State() == st'.det && frozen == st'.det.stop
      ensures r.Raised? ==> Excuse(t, cfg, roundId, others)
    {
      hide SwarmNode.SwarmNode.Valid, Collects, CommitsFrom, Reported, OwnReport, Disputes, Synced, OwnView, Speaks,
           Steady, Malformed, HeardUnusable, IsNodeRun, Modelled, OwnReported, Shape, Chained, Grounded, Round.Goes,
           InDomain, Facts.InRange, AllUsable;
      ShapeOnTrail(t, cfg, roundId, others);
      ghost var got, reports;
      r, frozen, st', got, view, reports, scores :=
        DoSync(t.su, t.Now(), cfg, roundId, l.syncSeq, others, l.pending, p, l.shared, detector);
      ghost var commitKey, scoreKey := Key(CommitKind, roundId, l.syncSeq), Key(ScoreKind, roundId, l.syncSeq);
      CollectsEarlier([], old(swarm.events), swarm.events, commitKey, others, got);
      if Asked(cfg.genEnd, view) {
        CollectsEarlier([], old(swarm.events), swarm.events, scoreKey, others, reports);
      }
      NoDisputeInDomain(cfg.genEnd, vocab);
      if r.Raised? {
        RaisedIsHeard(cfg, roundId, swarm.id, others, l.syncSeq, swarm.events, l.pending, got, view, reports);
        TrailUsable(t, cfg, roundId, others, old(swarm.transport.sent), old(swarm.events));
        UsableMore(cfg, old(swarm.transport.sent), t.base, swarm.transport.sent);
        return;
      }
      SpeaksOn(t.su, t.Now(), st', old(swarm.transport.sent)[t.base..]);
      SpeaksMore(t.su, st', old(swarm.transport.sent), t.base, swarm.transport.sent);
      ExtendBySync(cfg, swarm.id, t.su.prompt, t.path, view, scores);
      ModelledMore(cfg, model, t.path, st');
      SyncViewOwn(t.Now(), log, got, view, scores, reports);
      Verdicts.SyncReported(t.su, t.Now(), view, scores);
      Safety.SyncedChained(t.su, t.Now(), view, scores);
      GroundedLater(cfg, roundId, others, t.su.prompt, t.Now(), old(swarm.events), swarm.events);
      ReportedIsScored(log, t.Now(), roundId, others, view, reports, scores, swarm.events);
      SyncKeepsGrounded(cfg, roundId, others, t.su.prompt, t.Now(), swarm.events, got, view,
                        OwnReport(log, p, Disputes(view)), reports, scores);
    }

    /** The overlay makes the arrays those of the machine after the sync. */
    method OverlaySynced(ghost st: Node, ghost view: Commits, ghost scores: Scores, cfg: Config, blockIdx: nat,
        shared: map<nat, nat>, x: array<nat>, age: array<nat>)
      requires cfg.Valid() && blockIdx < cfg.numBlocks && x.Length == age.Length == cfg.genEnd && x != age
      requires st.block == blockIdx && st.step < cfg.stepsPerBlock && st.x == x[..] && st.age == age[..]
      requires shared == Synced(cfg, st, view, scores).shared
      modifies x, age
      ensures var st' := Synced(cfg, st, view, scores);
              AfterStep(cfg, st', blockIdx, st.step + 1, x[..], age[..],
                  Locals(st'.shared, map[], st'.det.stop, st.SyncSeq() + 1), st'.det)
    {
      hide Synced, AfterStep, OverlaidBy, AgedBy;
      Overlay(cfg, blockIdx, shared, x, age);
      SyncedFields(cfg, st, view, scores, x[..], age[..]);
    }

    /** A sync and the overlay that follows it. */
    method SyncAndOverlay(ghost t: Trail, cfg: Config, roundId: string, others: set<NodeId>, blockIdx: nat,
        stepIdx: nat, x: array<nat>, age: array<nat>, l: Locals, p: (nat, nat) -> real, detector: Stop.StopDetector)
      returns (ok: bool, l': Locals, ghost t': Trail)
      requires swarm.Valid() && OnTrail(t, cfg, roundId, others) && detector.cfg == cfg.stop && x != age
      requires blockIdx < cfg.numBlocks && stepIdx < cfg.stepsPerBlock
      requires AtSync(cfg, t.Now(), blockIdx, stepIdx, x[..], age[..], p, l, detector.State())
      modifies swarm, swarm.transport, swarm.peers, swarm.roundMgr, swarm.roundMgr.activeRound, detector, x, age
      ensures Attended()
      ensures ok ==> Continues(t, t', cfg, roundId, others)
      ensures ok ==> AfterStep(cfg, t'.Now(), blockIdx, stepIdx + 1, x[..], age[..], l', detector.State())
      ensures !ok ==> Excuse(t, cfg, roundId, others)
    {
      hide SwarmNode.SwarmNode.Valid, Trails, Synced, Excused, AllUsable, AfterStep, Round.Goes;
      ghost var st := t.Now();
      var r, frozen;
      ghost var st', view, scores;
      r, frozen, st', view, scores := SyncOnTrail(t, cfg, roundId, others, l, p, detector);
      l', t', ok := l, t, r.Ok?;
      if r.Ok? {
        l', t' := Locals(r.value, map[], frozen, l.syncSeq + 1), t.On(st');
        OverlaySynced(st, view, scores, cfg, blockIdx, r.value, x, age);
      }
    }

    /** One denoising step, as one more step of the machine's run. */
    method StepOnTrail(ghost t: Trail, cfg: Config, ghost roundId: string, ghost others: set<NodeId>, blockIdx: nat,
        stepIdx: nat, x: array<nat>, age: array<nat>, l: Locals, ghost det: Stop.StopState)
      returns (ok: bool, x': array<nat>, age': array<nat>, pending: CommitMap, p: (nat, nat) -> real, ghost t': Trail)
      requires OnTrail(t, cfg, roundId, others) && stepIdx < cfg.stepsPerBlock
      requires AtStep(t.Now(), blockIdx, stepIdx, x[..], age[..], l, det)
      ensures cfg.Valid()
      ensures ok ==> fresh(x') && fresh(age') && x' != age' && Continues(t, t', cfg, roundId, others)
      ensures ok ==>
                if cfg.SyncDue(stepIdx)
                then AtSync(cfg, t'.Now(), blockIdx, stepIdx, x'[..], age'[..], p, l.(pending := pending), det)
                else AfterStep(cfg, t'.Now(), blockIdx, stepIdx + 1, x'[..], age'[..], l.(pending := pending), det)
      ensures !ok ==> Excuse(t, cfg, roundId, others)
    {
      hide Speaks, Steady, IsNodeRun, Modelled, OwnReported, LocalWork, Config.BlockStart, Input, StepInput.NextX,
           StepInput.NextAge, Chained, Grounded, Excused, Predicting, AllUsable;
      ShapeOnTrail(t, cfg, roundId, others);
      ghost var st, st' := t.Now(), t.Now();
      var fwd;
      ok, x', age', pending, fwd, st' := WorkOnce(st, cfg, blockIdx, stepIdx, l.frozen, x, age, l.pending);
      p, t' := fwd.p, t;
      if !ok {
        UnspelledIsExcused(cfg, roundId, others, t.su.prompt, st, swarm.events);
        TrailUsable(t, cfg, roundId, others, swarm.transport.sent, swarm.events);
        return;
      }
      ghost var transfer, remask :| LocalWork(cfg, st, fwd, transfer, remask, st');
      Safety.WorkSteady(t.su, st, fwd, transfer, remask, st');
      WorkKeepsGrounded(cfg, roundId, others, t.su.prompt, st, swarm.events, fwd, transfer, remask, st');
      SpeaksOn(t.su, st, st', swarm.transport.sent[t.base..]);
      WorkedFields(cfg, st, fwd, transfer, remask, st');
      assert WorkStep(cfg, st, st');
      Extend(cfg, swarm.id, t.su.prompt, t.path, st');
      assert ModelStep(cfg, model, st, st');
      ModelledMore(cfg, model, t.path, st');
      Verdicts.SameReported(t.su, st, st');
      t' := t.On(st');
    }

    /** A step, and the sync that it may be time for. */
    method Advance(ghost t: Trail, cfg: Config, roundId: string, others: set<NodeId>, blockIdx: nat, stepIdx: nat,
                   x: array<nat>, age: array<nat>, l: Locals, detector: Stop.StopDetector)
      returns (ok: bool, x': array<nat>, age': array<nat>, l': Locals, ghost t': Trail)
      requires swarm.Valid() && OnTrail(t, cfg, roundId, others) && detector.cfg == cfg.stop
      requires blockIdx < cfg.numBlocks && stepIdx < cfg.stepsPerBlock
      requires AtStep(t.Now(), blockIdx, stepIdx, x[..], age[..], l, detector.State())
      modifies swarm, swarm.transport, swarm.peers, swarm.roundMgr, swarm.roundMgr.activeRound, detector
      ensures Attended()
      ensures ok ==> fresh(x') && fresh(age') && Continues(t, t', cfg, roundId, others)
      ensures ok ==> AfterStep(cfg, t'.Now(), blockIdx, stepIdx + 1, x'[..], age'[..], l', detector.State())
      ensures !ok ==> Excuse(t, cfg, roundId, others)
    {
      hide SwarmNode.SwarmNode.Valid, Trails, AtStep, AtSync, AfterStep, AllUsable, Excused, Round.Goes;
      var pending, p;
      ok, x', age', pending, p, t' :=
        StepOnTrail(t, cfg, roundId, others, blockIdx, stepIdx, x, age, l, detector.State());
      l' := l.(pending := pending);
      QuietlyAttended();
      if ok && ((stepIdx + 1) % cfg.syncEvery == 0 || stepIdx == cfg.stepsPerBlock - 1) {
        ghost var t2;
        ok, l', t2 := SyncAndOverlay(t', cfg, roundId, others, blockIdx, stepIdx, x', age', l', p, detector);
        t' := t2;
      }
    }

    /** The light poll before every step, and the check of the leader after it. */
    method Poll() returns (failed: bool)
      requires swarm.Valid()
      modifies swarm, swarm.transport, swarm.peers, swarm.roundMgr, swarm.roundMgr.activeRound
      ensures if failed then GivenUp() else Attended()
      ensures swarm.transport.sent == old(swarm.transport.sent) && Watched(1)
      ensures old(swarm.transport.script) == [] ==> swarm.transport.clock == old(swarm.transport.clock) + 0.01
      ensures !failed && swarm.roundMgr.activeRound != null && swarm.roundMgr.activeRound.leaderId != swarm.id ==>
                || swarm.transport.clock - swarm.roundMgr.activeRound.startedAt <= Round.ROUND_LEADER_TIMEOUT
                || exists d :: d in swarm.dispatched && d.env.nodeId == swarm.roundMgr.activeRound.leaderId
                               && swarm.transport.clock - d.at <= Round.ROUND_LEADER_TIMEOUT
    {
      hide SwarmNode.SwarmNode.Valid, Round.Ends, Filings, Round.TimedOut, Round.JustTimedOut, File;
      ghost var start := swarm.roundMgr.events;
      var env := swarm.PumpOnce(0.01);
      ghost var polled := swarm.roundMgr.events;
      failed := swarm.CheckLeaderTimeout();
      Round.BeforeLast(polled, Round.Checked(swarm.transport.clock));
      Round.ChecksGrow(start, polled);
      if !failed {
        Round.GoesOn(swarm.id, start, polled, swarm.roundMgr.events);
      }
    }

    /** One turn of the step loop: poll, check the leader, take a step, and sync when one is due. */
    method RunStep(ghost t: Trail, cfg: Config, roundId: string, others: set<NodeId>, blockIdx: nat, stepIdx: nat,
                   x: array<nat>, age: array<nat>, l: Locals, detector: Stop.StopDetector)
      returns (status: LoopStatus, x': array<nat>, age': array<nat>, l': Locals, ghost t': Trail)
      requires swarm.Valid() && OnTrail(t, cfg, roundId, others) && detector.cfg == cfg.stop
      requires blockIdx < cfg.numBlocks && stepIdx < cfg.stepsPerBlock
      requires AtStep(t.Now(), blockIdx, stepIdx, x[..], age[..], l, detector.State())
      modifies swarm, swarm.transport, swarm.peers, swarm.roundMgr, swarm.roundMgr.activeRound, detector
      ensures if status.Aborted? then GivenUp() else Attended()
      ensures !status.Raising? ==> Continues(t, t', cfg, roundId, others)
      ensures status.Going? ==>
                fresh(x') && fresh(age') && AfterStep(cfg, t'.Now(), blockIdx, stepIdx + 1, x'[..], age'[..], l',
                    detector.State())
      ensures status.Raising? ==> Excuse(t, cfg, roundId, others)
      ensures Watched(1) && (status.Aborted? ==> t' == t)
    {
      hide SwarmNode.SwarmNode.Valid, Trails, AtStep, AfterStep, Excused, AllUsable, Round.Goes, Round.TimedOut;
      x', age', l', t' := x, age, l, t;
      var failed := Poll();
      StaysOnTrail(t, cfg, roundId, others, swarm.transport.sent, old(swarm.events), swarm.events);
      if failed {
        status := Aborted;
        return;
      }
      ghost var polled := swarm.roundMgr.events;
      var ok;
      ok, x', age', l', t' := Advance(t, cfg, roundId, others, blockIdx, stepIdx, x, age, l, detector);
      Round.ChecksGrow(polled, swarm.roundMgr.events);
      status := if ok then Going else Raising;
      StillAttended(old(swarm.roundMgr.events), polled, status);
    }

    /** The step loop of one block. */
    method RunBlock(ghost t: Trail, cfg: Config, roundId: string, others: set<NodeId>, blockIdx: nat, x: array<nat>,
        l: Locals, detector: Stop.StopDetector)
      returns (status: LoopStatus, x': array<nat>, l': Locals, ghost t': Trail)
      requires swarm.Valid() && OnTrail(t, cfg, roundId, others) && detector.cfg == cfg.stop
      requires blockIdx < cfg.numBlocks && !RoundOver(cfg, blockIdx, l.frozen)
      requires AtBlock(cfg, t.Now(), blockIdx, x[..], l, detector.State())
      modifies swarm, swarm.transport, swarm.peers, swarm.roundMgr, swarm.roundMgr.activeRound, detector
      ensures if status.Aborted? then GivenUp() else Attended()
      ensures !status.Raising? ==> Continues(t, t', cfg, roundId, others)
      ensures status.Going? ==> AtBlock(cfg, t'.Now(), blockIdx + 1, x'[..], l', detector.State())
      ensures status.Raising? ==> Excuse(t, cfg, roundId, others)
      ensures status.Going? ==> Watched(cfg.stepsPerBlock)
      ensures status.Aborted? ==>
                t'.Now().phase.Stepping? && t'.Now().block == blockIdx && Watched(t'.Now().step + 1)
    {
      hide SwarmNode.SwarmNode.Valid, SwarmNode.SwarmNode.Forsaken, Trails, Excused, AllUsable, RoundOver, Round.Goes,
          Round.TimedOut, Round.Checks, Round.JustTimedOut, Round.Run;
      ShapeOnTrail(t, cfg, roundId, others);
      status, x', l', t' := Going, x, l.(pending := map[]), t;
      QuietlyAttended();
      var age := new nat[x.Length](_ => 0);
      assert age[..] == t.Now().age;
      var stepIdx := 0;
      while stepIdx < cfg.stepsPerBlock
        invariant stepIdx <= cfg.stepsPerBlock && status.Going? && Attended() && Watched(stepIdx)
        invariant Continues(t, t', cfg, roundId, others)
        invariant AfterStep(cfg, t'.Now(), blockIdx, stepIdx, x'[..], age[..], l', detector.State())
      {
        ghost var heard := swarm.roundMgr.events;
        status, x', age, l', t' := RunStep(t', cfg, roundId, others, blockIdx, stepIdx, x', age, l', detector);
        StillAttended(old(swarm.roundMgr.events), heard, status);
        if !status.Going? {
          return;
        }
        stepIdx := stepIdx + 1;
      }
    }

    /** The stretch before and the one after make one. */
    lemma StillAttended(start: seq<Round.Event>, heard: seq<Round.Event>, status: LoopStatus)
      requires Round.Goes(swarm.id, start, heard)
      requires status.Aborted? ==> swarm.roundMgr.events != []
      requires Round.Goes(swarm.id, heard, Until(swarm.roundMgr.events, status))
      ensures Round.Goes(swarm.id, start, Until(swarm.roundMgr.events, status))
    {
      Round.GoesOn(swarm.id, start, heard, Until(swarm.roundMgr.events, status));
    }

    /** The prompt, and masks after it. */
    method Canvas(cfg: Config, prompt: seq<nat>) returns (x: array<nat>)
      requires cfg.Valid() && |prompt| == cfg.genStart
      ensures fresh(x) && x[..] == Opening(cfg, prompt)
    {
      BlockStarts(cfg, 0);
      BlockStarts(cfg, cfg.numBlocks);
      x := new nat[cfg.genEnd](_ => cfg.step.maskId);
      forall i | 0 <= i < |prompt| {
        x[i] := prompt[i];
      }
    }

    /** The block loop, left early at a block beyond the frozen boundary. */
    method RunBlocks(ghost t: Trail, cfg: Config, roundId: string, others: set<NodeId>, x: array<nat>, l: Locals,
        detector: Stop.StopDetector)
      returns (status: LoopStatus, l': Locals, ghost t': Trail)
      requires swarm.Valid() && OnTrail(t, cfg, roundId, others) && detector.cfg == cfg.stop
      requires AtBlock(cfg, t.Now(), 0, x[..], l, detector.State())
      modifies swarm, swarm.transport, swarm.peers, swarm.roundMgr, swarm.roundMgr.activeRound, detector
      ensures if status.Aborted? then GivenUp() else Attended()
      ensures !status.Raising? ==> Continues(t, t', cfg, roundId, others)
      ensures status.Going? ==> t'.Now().phase.Done? && t'.Now().shared == l'.shared
      ensures status.Raising? ==> Excuse(t, cfg, roundId, others)
      ensures !status.Raising? ==> Watched(|t'.Now().steps| + if status.Aborted? then 1 else 0)
    {
      hide SwarmNode.SwarmNode.Valid, Trails, Excused, AllUsable, Round.Goes, Round.TimedOut;
      status, l', t' := Going, l, t;
      QuietlyAttended();
      var x' := x;
      var blockIdx := 0;
      while blockIdx < cfg.numBlocks
        invariant blockIdx <= cfg.numBlocks && status.Going? && Attended() && Watched(blockIdx * cfg.stepsPerBlock)
        invariant Continues(t, t', cfg, roundId, others)
        invariant AtBlock(cfg, t'.Now(), blockIdx, x'[..], l', detector.State())
      {
        if l'.frozen.Some? && cfg.BlockStart(blockIdx) >= l'.frozen.value {
          break;
        }
        ghost var heard := swarm.roundMgr.events;
        status, x', l', t' := RunBlock(t', cfg, roundId, others, blockIdx, x', l', detector);
        StillAttended(old(swarm.roundMgr.events), heard, status);
        if !status.Going? {
          StepsOnTrail(t', cfg, roundId, others, status);
          return;
        }
        MulSucc(blockIdx, cfg.stepsPerBlock);
        blockIdx := blockIdx + 1;
      }
      StepsOnTrail(t', cfg, roundId, others, status);
    }

    /** Where the trail stands says how many steps it has taken. */
    lemma StepsOnTrail(t: Trail, cfg: Config, roundId: string, others: set<NodeId>, status: LoopStatus)
      requires !status.Raising? ==> OnTrail(t, cfg, roundId, others) && !t.Now().phase.Publishing?
      ensures !status.Raising? ==> |t.Now().steps| == t.Now().block * cfg.stepsPerBlock + t.Now().step
    {
      hide IsNodeRun, Modelled, OwnReported, Speaks, Grounded, Chained;
      if !status.Raising? {
        RunPasses(cfg, swarm.id, t.su.prompt, t.path, |t.path| - 1);
      }
    }

    lemma BeginsTrail(su: Setup, cfg: Config, roundId: string, others: set<NodeId>, x: seq<nat>, l: Locals)
      requires Fits(su, cfg, roundId) && swarm.id !in others && x == Opening(cfg, su.prompt)
      requires l == Locals(map p: nat | p < |su.prompt| :: su.prompt[p], map[], None, 0)
      ensures var t := Trail(su, [Start(cfg, swarm.id, su.prompt)], |swarm.transport.sent|);
              OnTrail(t, cfg, roundId, others) && AtBlock(cfg, t.Now(), 0, x, l, Stop.FRESH)
    {
      GroundedStart(cfg, roundId, others, swarm.id, su.prompt, swarm.events);
      hide Grounded, Predicting, Genuine;
    }

    lemma EndsTrail(t: Trail, cfg: Config, roundId: string, others: set<NodeId>, before: seq<Envelope>,
        closing: seq<Envelope>)
      requires OnTrail(t, cfg, roundId, others) && before <= swarm.transport.sent && t.base == |before|
      ensures PublishedSince(t, before, swarm.transport.sent + closing, closing)
    {
      hide Speaks, IsNodeRun, Modelled, OwnReported, Grounded, Chained, Predicting;
      var sent := swarm.transport.sent;
      assert (sent + closing)[|before|..|sent|] == sent[|before|..];
      assert (sent + closing)[..|sent|] == sent;
    }

    lemma QuietTrail(t: Trail, cfg: Config, roundId: string, others: set<NodeId>, before: seq<Envelope>)
      requires OnTrail(t, cfg, roundId, others) && before <= swarm.transport.sent && t.base == |before|
      ensures PublishedSince(t, before, swarm.transport.sent, [])
    {
      hide PublishedSince, IsNodeRun, Modelled, OwnReported, Speaks, Grounded, Chained, Predicting;
      EndsTrail(t, cfg, roundId, others, before, []);
      assert swarm.transport.sent + [] == swarm.transport.sent;
    }

    /** GEN_DONE, from the leader of whatever round the manager holds when the loops are over. */
    method Announce(ghost t: Trail, ghost cfg: Config, roundId: string, ghost others: set<NodeId>,
        ghost before: seq<Envelope>)
      requires swarm.Valid() && OnTrail(t, cfg, roundId, others) && before <= swarm.transport.sent && t.base == |before|
      modifies swarm.transport`sent, swarm.transport`acts
      ensures swarm.Valid()
      ensures var closing := if swarm.roundMgr.IsRoundLeader() then [Envelope(swarm.id, GenDone(roundId))] else [];
              && swarm.transport.sent == old(swarm.transport.sent) + closing
              && PublishedSince(t, before, swarm.transport.sent, closing)
    {
      hide PublishedSince, Trails;
      if swarm.roundMgr.IsRoundLeader() {
        EndsTrail(t, cfg, roundId, others, before, [Envelope(swarm.id, GenDone(roundId))]);
        swarm.transport.Publish(swarm.id, GenDone(roundId));
      } else {
        QuietTrail(t, cfg, roundId, others, before);
      }
    }

    /** The locals a round begins with. */
    method Prepare(ghost su: Setup, cfg: Config, ghost roundId: string, ghost others: set<NodeId>, prompt: seq<nat>)
      returns (x: array<nat>, l: Locals, detector: Stop.StopDetector, ghost t: Trail)
      requires Fits(su, cfg, roundId) && swarm.id !in others && prompt == su.prompt
      ensures fresh(x) && fresh(detector) && detector.cfg == cfg.stop
      ensures t.su == su && t.base == |swarm.transport.sent| && OnTrail(t, cfg, roundId, others)
      ensures AtBlock(cfg, t.Now(), 0, x[..], l, detector.State())
    {
      hide IsNodeRun, Modelled, OwnReported, Speaks, Start, Opening, AtBlock, Grounded, Chained, Predicting;
      x := Canvas(cfg, prompt);
      detector := new Stop.StopDetector(cfg.stop);
      l := Locals(map p: nat | p < |prompt| :: prompt[p], map[], None, 0);
      BeginsTrail(su, cfg, roundId, others, x[..], l);
      t := Trail(su, [Start(cfg, swarm.id, prompt)], |swarm.transport.sent|);
    }

    /** As long as nobody has said that the round run is done, it is still the one the manager holds: its own
        leader announces the end and nobody else does, and whoever gives it up has missed its leader. */
    twostate lemma OwnRound(status: LoopStatus)
      requires old(swarm.Valid()) && old(swarm.roundMgr.activeRound) != null
      requires if status.Aborted? then GivenUp() else Attended()
      requires Round.NotDone(swarm.roundMgr.events, |old(swarm.roundMgr.events)|,
                             old(swarm.roundMgr.activeRound).roundId)
      ensures var now := old(swarm.roundMgr.activeRound);
              if status.Aborted?
              then
                && now.leaderId != swarm.id && Round.Silent(swarm.id, swarm.roundMgr.events, now.leaderId)
                && swarm.transport.clock - now.startedAt > Round.ROUND_LEADER_TIMEOUT
                && forall d :: d in swarm.dispatched && d.env.nodeId == now.leaderId ==>
                     swarm.transport.clock - d.at > Round.ROUND_LEADER_TIMEOUT
              else swarm.roundMgr.IsRoundLeader() <==> now.leaderId == swarm.id
    {
      hide Round.Run, Round.Guarded, Round.Clocked, Round.Goes, Round.JustTimedOut, Round.Silent, Round.NotDone;
      var before, after := old(swarm.roundMgr.events), swarm.roundMgr.events;
      assert old(swarm.roundMgr.State()) == Round.Run(swarm.id, before);
      assert swarm.roundMgr.State() == Round.Run(swarm.id, after);
      if status.Aborted? {
        Round.SilentSince(swarm.id, before, after);
      } else {
        Round.StillHeld(swarm.id, before, after);
      }
    }

    /** run_round, under any messages, delays, losses and models. It returns the shared state at the end
        of a run of the node machine, or nothing once a check of the leader has failed. It raises only on a
        prompt outside the vocabulary or on a message of another participant that no runner sends: all that
        this one publishes, however it ends, can be used. What it publishes is what the machine says, and at
        the end GEN_DONE, if the node then leads the round its manager holds. Unless GEN_DONE for this very
        round arrived meanwhile, that is the round it runs: then its leader publishes GEN_DONE and nobody
        else does, and a round given up is led by another node, of whom no word had come for longer than
        ROUND_LEADER_TIMEOUT. */
    method RunRound(prompt: seq<nat>, gen: GenConfig) returns (r: Result<Option<map<nat, nat>>>, ghost t: Trail)
      requires swarm.Valid() && swarm.roundMgr.activeRound != null
      requires gen.Valid() && gen.stepCfg.maskId < vocab && Predicting()
      modifies swarm, swarm.transport, swarm.peers, swarm.roundMgr, swarm.roundMgr.activeRound
      ensures Kept() && t.path != []
      ensures var now := old(swarm.roundMgr.activeRound);
              t.su == SetupOf(gen, now.roundId, Named(now.participants), prompt, vocab, log, exp)
      ensures AllUsable(t.su.cfg, swarm.transport.sent[|old(swarm.transport.sent)|..])
      ensures r.Raised? ==>
                Excused(t.su.cfg, t.su.roundId, t.su.members - {swarm.id}, prompt, swarm.events)
      ensures r.Ok? ==> Followed(t, swarm.id, model, swarm.events)
      ensures r.Ok? && r.value.Some? ==> t.Now().phase.Done? && r.value.value == t.Now().shared
      ensures r == Ok(None) ==> GivenUp()
      ensures r.Ok? ==> Watched(|t.Now().steps| + if r.value.None? then 1 else 0)
      ensures r.Ok? ==>
                PublishedSince(t, old(swarm.transport.sent), swarm.transport.sent,
                               if r.value.Some? && swarm.roundMgr.IsRoundLeader()
                                   then [Envelope(swarm.id, GenDone(t.su.roundId))] else [])
      ensures r.Ok? && Round.NotDone(swarm.roundMgr.events, |old(swarm.roundMgr.events)|, t.su.roundId) ==>
                var round := old(swarm.roundMgr.activeRound);
                if r.value.Some? then swarm.roundMgr.IsRoundLeader() <==> round.leaderId == swarm.id
                else
                  && round.leaderId != swarm.id && Round.Silent(swarm.id, swarm.roundMgr.events, round.leaderId)
                  && swarm.transport.clock - round.startedAt > Round.ROUND_LEADER_TIMEOUT
                  && forall d :: d in swarm.dispatched && d.env.nodeId == round.leaderId ==>
                       swarm.transport.clock - d.at > Round.ROUND_LEADER_TIMEOUT
    {
      hide SwarmNode.SwarmNode.Valid, Trails, Excused, Sizes, SetupOf, Named, PublishedSince, Followed, Fits,
          Round.Goes, AllUsable, Round.JustTimedOut, Round.Silent, Round.NotDone, Predicting;
      var round := swarm.roundMgr.activeRound;
      var participants := Named(round.participants);
      var others := participants - {swarm.id};
      var cfg := Sizes(gen, |prompt|, vocab, exp);
      ghost var su := SetupOf(gen, round.roundId, participants, prompt, vocab, log, exp);
      SetupFits(gen, round.roundId, participants, prompt);
      var status, shared;
      status, shared, t := RunLoops(su, cfg, round.roundId, others, prompt);
      if status.Raising? {
        return Raised, t;
      }
      if Round.NotDone(swarm.roundMgr.events, |old(swarm.roundMgr.events)|, round.roundId) {
        OwnRound(status);
      }
      OnTrailAtEnd(t, cfg, round.roundId, others);
      r := Finish(t, cfg, round.roundId, others, old(swarm.transport.sent), status, shared);
    }

    lemma SetupFits(gen: GenConfig, roundId: string, members: set<NodeId>, prompt: seq<nat>)
      requires gen.Valid() && gen.stepCfg.maskId < vocab && Predicting()
      ensures var su := SetupOf(gen, roundId, members, prompt, vocab, log, exp);
              && Fits(su, su.cfg, roundId) && su.cfg == Sizes(gen, |prompt|, vocab, exp)
              && su.prompt == prompt && su.members == members && su.roundId == roundId
    {
      hide Predicting;
    }

    /** The block loop, from the locals that a round begins with. */
    method RunLoops(ghost su: Setup, cfg: Config, roundId: string, others: set<NodeId>, prompt: seq<nat>)
      returns (status: LoopStatus, shared: map<nat, nat>, ghost t: Trail)
      requires swarm.Valid() && Fits(su, cfg, roundId) && swarm.id !in others && prompt == su.prompt
      modifies swarm, swarm.transport, swarm.peers, swarm.roundMgr, swarm.roundMgr.activeRound
      ensures if status.Aborted? then GivenUp() else Attended()
      ensures t.path != [] && t.su == su && t.base == |old(swarm.transport.sent)|
      ensures !status.Raising? ==> OnTrail(t, cfg, roundId, others)
      ensures status.Going? ==> t.Now().phase.Done? && t.Now().shared == shared
      ensures status.Raising? ==> Excuse(t, cfg, roundId, others)
      ensures !status.Raising? ==> Watched(|t.Now().steps| + if status.Aborted? then 1 else 0)
    {
      hide SwarmNode.SwarmNode.Valid, Trails, Excused, AllUsable, AtBlock, Round.Goes, Round.TimedOut;
      var x, l, detector;
      x, l, detector, t := Prepare(su, cfg, roundId, others, prompt);
      ghost var t';
      status, l, t' := RunBlocks(t, cfg, roundId, others, x, l, detector);
      shared := l.shared;
      if !status.Raising? {
        t := t';
      }
    }

    /** What the loops leave to do: nothing after an abort, else GEN_DONE if it is the node's to say. */
    method Finish(ghost t: Trail, ghost cfg: Config, roundId: string, ghost others: set<NodeId>,
        ghost before: seq<Envelope>, status: LoopStatus, shared: map<nat, nat>)
      returns (r: Result<Option<map<nat, nat>>>)
      requires swarm.Valid() && OnTrail(t, cfg, roundId, others) && before <= swarm.transport.sent && t.base == |before|
      requires !status.Raising?
      modifies swarm.transport`sent, swarm.transport`acts
      ensures swarm.Valid() && old(swarm.transport.sent) <= swarm.transport.sent
      ensures r == Ok(if status.Aborted? then None else Some(shared))
      ensures AllUsable(t.su.cfg, swarm.transport.sent[|before|..])
      ensures PublishedSince(t, before, swarm.transport.sent,
                             if r.value.Some? && swarm.roundMgr.IsRoundLeader()
                             then [Envelope(swarm.id, GenDone(roundId))] else [])
    {
      hide SwarmNode.SwarmNode.Valid, PublishedSince, Trails, AllUsable;
      ghost var told := swarm.transport.sent;
      FitsOnTrail(t, cfg, roundId, others);
      TrailUsable(t, cfg, roundId, others, told, swarm.events);
      if status.Aborted? {
        QuietTrail(t, cfg, roundId, others, before);
        r := Ok(None);
      } else {
        r := Ok(Some(shared));
        Announce(t, cfg, roundId, others, before);
        ClosingUsable(cfg, roundId, before, told, swarm.transport.sent);
      }
    }

    lemma FitsOnTrail(t: Trail, cfg: Config, roundId: string, others: set<NodeId>)
      requires OnTrail(t, cfg, roundId, others)
      ensures t.su.cfg == cfg
    {
    }

    lemma ClosingUsable(cfg: Config, roundId: string, before: seq<Envelope>, told: seq<Envelope>, sent: seq<Envelope>)
      requires before <= told && AllUsable(cfg, told[|before|..])
      requires sent == told + [Envelope(swarm.id, GenDone(roundId))] || sent == told + []
      ensures AllUsable(cfg, sent[|before|..])
    {
      assert AllUsable(cfg, sent[|told|..]);
      UsableMore(cfg, told, |before|, sent);
    }

    lemma OnTrailAtEnd(t: Trail, cfg: Config, roundId: string, others: set<NodeId>)
      requires OnTrail(t, cfg, roundId, others)
      ensures others == t.su.members - {swarm.id} ==> Followed(t, swarm.id, model, swarm.events)
    {
      hide IsNodeRun, Modelled, OwnReported, NodeOk, Grounded, Speaks, Chained, Predicting;
      NodeOnTrail(t, cfg, roundId, others);
    }
  }
}
