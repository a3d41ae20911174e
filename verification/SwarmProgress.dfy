/** Liveness of the round when nothing times out: no run can go on working forever, no reachable state
    is stuck, and every run can be carried on until all participants are done. */
module SwarmProgress {
  import opened Prelude
  import opened Arith
  import opened Consensus
  import opened LocalStep
  import opened NodeMachine
  import opened Protocol
  import opened Inbox
  import opened Exchange
  import opened SwarmSystem
  import Facts = NodeFacts
  import Freeze = FreezeFacts
  import Safety = SwarmSafety
  import Agreement = SwarmAgreement
  import StepFacts

  // ---------------------------------------------------------------- work left

  function Rank(phase: Phase): nat {
    match phase
    case Stepping => 3
    case Publishing => 2
    case AwaitCommits => 1
    case _ => 0
  }

  /** The moves a node may still make at most. */
  ghost function Ahead(cfg: Config, st: Node): nat
    requires cfg.Valid() && Shape(cfg, st)
  {
    StepsAhead(cfg, st.block, st.step);
    if st.phase.Done? then 0 else 4 * ((cfg.numBlocks - st.block) * cfg.stepsPerBlock - st.step) + Rank(st.phase)
  }

  lemma StepsAhead(cfg: Config, block: nat, step: nat)
    requires cfg.Valid() && step < cfg.stepsPerBlock
    ensures block < cfg.numBlocks ==> (cfg.numBlocks - block) * cfg.stepsPerBlock - step >= 1
    ensures (cfg.numBlocks - block) * cfg.stepsPerBlock
            == (cfg.numBlocks - (block + 1)) * cfg.stepsPerBlock + cfg.stepsPerBlock
  {
    MulSucc(cfg.numBlocks - (block + 1), cfg.stepsPerBlock);
    if block < cfg.numBlocks {
      MulMono(0, cfg.numBlocks - (block + 1), cfg.stepsPerBlock);
    }
  }

  lemma WorkAdvances(cfg: Config, st: Node, fwd: Forward, transfer: set<nat>, remask: set<nat>, st': Node)
    requires cfg.Valid() && Shape(cfg, st) && Shape(cfg, st') && LocalWork(cfg, st, fwd, transfer, remask, st')
    ensures Ahead(cfg, st') < Ahead(cfg, st)
  {
    hide StepInput.IsRemask, StepInput.IsTransfer, StepInput.Contained, StepInput.NextX, StepInput.NextAge,
        Config.BlockStart;
  }

  lemma SyncAdvances(cfg: Config, st: Node, view: Commits, scores: Scores)
    requires cfg.Valid() && Shape(cfg, st) && Shape(cfg, Synced(cfg, st, view, scores)) && InSync(st)
        && !st.phase.Publishing?
    ensures Ahead(cfg, Synced(cfg, st, view, scores)) < Ahead(cfg, st)
  {
    hide SyncShared, Overlaid, OverlaidAge, Config.BlockStart, Config.SyncDue;
    StepsAhead(cfg, st.block, st.step);
  }

  lemma ShapeOf(su: Setup, s: Swarm, i: NodeId)
    requires su.Valid() && SwarmInv(su, s) && i in su.members
    ensures Shape(su.cfg, s.Node(i)) && s.Node(i).id == i
  {
    assert NodeOk(su, i, s.Node(i));
  }

  /** Every move takes a node forward, and a delivery takes nobody back. */
  lemma MovesAdvance(su: Setup, s: Swarm, a: Action, s': Swarm)
    requires su.Valid() && SwarmInv(su, s) && SwarmInv(su, s') && Step(su, s, a, s')
    ensures a.i in su.members && s.parts.Keys == s'.parts.Keys == su.members
    ensures forall j :: j in su.members && j != a.i ==> s'.Node(j) == s.Node(j)
    ensures Shape(su.cfg, s.Node(a.i)) && Shape(su.cfg, s'.Node(a.i))
    ensures if a.Deliver? then s'.Node(a.i) == s.Node(a.i) else Ahead(su.cfg, s'.Node(a.i)) < Ahead(su.cfg, s.Node(a.i))
  {
    hide NodeOk, Witnessed, StoreOk, Said, SoupOk, Shape, LocalWork, Synced, ReadsCommits, ReadsScores, Disputes,
        Ahead, OwnReport, EncodeScores, Pop, File, IsFlattening;
    ShapeOf(su, s, a.i);
    ShapeOf(su, s', a.i);
    hide SwarmInv;
    MovedNode(su, s, a, s');
    hide Step;
    OthersStay(su, s, a, s');
  }

  lemma OthersStay(su: Setup, s: Swarm, a: Action, s': Swarm)
    requires su.Valid() && s.parts.Keys == su.members && Step(su, s, a, s')
    ensures forall j :: j in su.members && j != a.i ==> j in s'.parts && s'.Node(j) == s.Node(j)
  {
    hide LocalWork, Synced, ReadsCommits, ReadsScores, Disputes, OwnReport, EncodeScores, Pop, File, IsFlattening;
  }

  lemma MovedNode(su: Setup, s: Swarm, a: Action, s': Swarm)
    requires su.Valid() && Step(su, s, a, s')
    requires Shape(su.cfg, s.Node(a.i)) && Shape(su.cfg, s'.Node(a.i))
    ensures if a.Deliver? then s'.Node(a.i) == s.Node(a.i) else Ahead(su.cfg, s'.Node(a.i)) < Ahead(su.cfg, s.Node(a.i))
  {
    hide Shape, LocalWork, Synced, ReadsCommits, ReadsScores, Disputes, Ahead, OwnReport, EncodeScores, Pop, File,
        IsFlattening;
    var st := s.Node(a.i);
    if a.Work? {
      WorkAdvances(su.cfg, st, a.fwd, a.transfer, a.remask, s'.Node(a.i));
    } else if a.Publish? {
      WaitAdvances(su.cfg, st, AwaitCommits);
    } else if a.CommitBarrier? {
      if Disputes(a.view) == map[] {
        SyncMoves(su.cfg, st, a.view, map[]);
      } else {
        WaitAdvances(su.cfg, st, AwaitScores(a.view));
      }
    } else if a.ScoreBarrier? {
      SyncMoves(su.cfg, st, st.phase.view, a.scores);
    }
  }

  lemma SyncMoves(cfg: Config, st: Node, view: Commits, scores: Scores)
    requires cfg.Valid() && Shape(cfg, st) && Shape(cfg, Synced(cfg, st, view, scores))
        && (st.phase.AwaitCommits? || st.phase.AwaitScores?)
    ensures Ahead(cfg, Synced(cfg, st, view, scores)) < Ahead(cfg, st)
  {
    hide Shape, Synced, Ahead;
    SyncAdvances(cfg, st, view, scores);
  }

  lemma WaitAdvances(cfg: Config, st: Node, phase: Phase)
    requires cfg.Valid() && Shape(cfg, st) && Shape(cfg, st.(phase := phase))
    requires !st.phase.Done? && !phase.Done? && Rank(phase) < Rank(st.phase)
    ensures Ahead(cfg, st.(phase := phase)) < Ahead(cfg, st)
  {
  }

  // ---------------------------------------------------------------- no run works forever

  /** How often participant i has moved: worked, published or completed a barrier. */
  ghost function Moves(actions: seq<Action>, i: NodeId): nat {
    if actions == [] then 0 else
      var last := actions[|actions| - 1];
      Moves(actions[..|actions| - 1], i) + if last.i == i && !last.Deliver? then 1 else 0
  }

  ghost function Budget(cfg: Config): nat {
    4 * (cfg.numBlocks * cfg.stepsPerBlock) + 3
  }

  lemma {:induction false} MovesFromBudget(su: Setup, trace: seq<Swarm>, actions: seq<Action>, i: NodeId)
    requires su.Valid() && IsRun(su, trace, actions) && i in su.members
    ensures SwarmInv(su, Last(trace)) && Shape(su.cfg, Last(trace).Node(i))
    ensures Moves(actions, i) + Ahead(su.cfg, Last(trace).Node(i)) <= Budget(su.cfg)
    decreases |actions|
  {
    hide SwarmInv, Step, Ahead, Shape, Start;
    Safety.RunKeepsInv(su, trace, actions, |actions|);
    ShapeOf(su, Last(trace), i);
    if actions == [] {
      StartsWithBudget(su, i);
    } else {
      var t, a := trace[..|trace| - 1], actions[..|actions| - 1];
      Prefix(su, trace, actions);
      MovesFromBudget(su, t, a, i);
      MovesAdvance(su, Last(t), actions[|a|], Last(trace));
    }
  }

  lemma Prefix(su: Setup, trace: seq<Swarm>, actions: seq<Action>)
    requires su.Valid() && IsRun(su, trace, actions) && actions != []
    ensures IsRun(su, trace[..|trace| - 1], actions[..|actions| - 1])
    ensures Step(su, Last(trace[..|trace| - 1]), actions[|actions| - 1], Last(trace))
  {
    hide Initial, Step;
    var t, a := trace[..|trace| - 1], actions[..|actions| - 1];
    forall k: nat | k < |a|
      ensures Step(su, t[k], a[k], t[k + 1])
    {
      assert Step(su, trace[k], actions[k], trace[k + 1]);
    }
    var k := |actions| - 1;
    assert Step(su, trace[k], actions[k], trace[k + 1]);
  }

  lemma StartsWithBudget(su: Setup, i: NodeId)
    requires su.Valid() && Shape(su.cfg, Start(su.cfg, i, su.prompt))
    ensures Ahead(su.cfg, Start(su.cfg, i, su.prompt)) == Budget(su.cfg)
  {
  }

  /** Bounded work: in any run whatever, however long, a participant moves at most four times per
      denoising step of the configuration, and three more. Only deliveries can go on. */
  lemma BoundedWork(su: Setup, trace: seq<Swarm>, actions: seq<Action>, i: NodeId)
    requires su.Valid() && IsRun(su, trace, actions) && i in su.members
    ensures Moves(actions, i) <= Budget(su.cfg)
  {
    hide IsRun, Ahead;
    MovesFromBudget(su, trace, actions, i);
  }

  // ---------------------------------------------------------------- extending a run

  ghost function Last(trace: seq<Swarm>): Swarm
    requires trace != []
  {
    trace[|trace| - 1]
  }

  ghost predicate Extends(su: Setup, t0: seq<Swarm>, a0: seq<Action>, t1: seq<Swarm>, a1: seq<Action>)
    requires su.Valid()
  {
    IsRun(su, t1, a1) && t0 <= t1 && a0 <= a1
  }

  lemma Extended(su: Setup, trace: seq<Swarm>, actions: seq<Action>, a: Action, s': Swarm)
    requires su.Valid() && IsRun(su, trace, actions) && Step(su, Last(trace), a, s')
    ensures Extends(su, trace, actions, trace + [s'], actions + [a])
  {
    hide Initial, Step;
    var t, b := trace + [s'], actions + [a];
    forall k: nat | k < |b|
      ensures Step(su, t[k], b[k], t[k + 1])
    {
      if k < |actions| {
        assert Step(su, trace[k], actions[k], trace[k + 1]);
      }
    }
  }

  /** The run goes on with deliveries only. */
  ghost predicate Delivered(su: Setup, t0: seq<Swarm>, a0: seq<Action>, t1: seq<Swarm>, a1: seq<Action>)
    requires su.Valid()
  {
    Extends(su, t0, a0, t1, a1) && forall k :: |a0| <= k < |a1| ==> a1[k].Deliver?
  }

  /** The run goes on with deliveries only, and then participant i moves. */
  ghost predicate Moved(su: Setup, t0: seq<Swarm>, a0: seq<Action>, t1: seq<Swarm>, a1: seq<Action>, i: NodeId)
    requires su.Valid()
  {
    && Extends(su, t0, a0, t1, a1) && |a1| > |a0| && !a1[|a1| - 1].Deliver? && a1[|a1| - 1].i == i
    && forall k :: |a0| <= k < |a1| - 1 ==> a1[k].Deliver?
  }

  lemma DeliveredThenMoved(su: Setup, t0: seq<Swarm>, a0: seq<Action>, t1: seq<Swarm>, a1: seq<Action>, act: Action,
      s': Swarm)
    requires su.Valid() && Delivered(su, t0, a0, t1, a1) && Step(su, Last(t1), act, s') && !act.Deliver?
    ensures Moved(su, t0, a0, t1 + [s'], a1 + [act], act.i)
  {
    Extended(su, t1, a1, act, s');
    hide IsRun, Step;
  }

  lemma DeliveredFirst(su: Setup, t0: seq<Swarm>, a0: seq<Action>, act: Action, s': Swarm, t1: seq<Swarm>,
      a1: seq<Action>)
    requires su.Valid() && Delivered(su, t0 + [s'], a0 + [act], t1, a1) && act.Deliver?
    ensures Delivered(su, t0, a0, t1, a1)
  {
    hide IsRun;
    assert t0 <= t0 + [s'] && a0 <= a0 + [act];
    assert a1[|a0|] == act;
  }

  // ---------------------------------------------------------------- filling a bucket

  predicate Awaiting(st: Node) {
    st.phase.AwaitCommits? || st.phase.AwaitScores?
  }

  /** The bucket that the barrier a node waits at collects. */
  function AwaitKey(su: Setup, st: Node): Key {
    if st.phase.AwaitCommits? then CommitKey(su, st) else ScoreKey(su, st)
  }

  /** Everybody else has published under this key. */
  ghost predicate AllPublished(su: Setup, s: Swarm, i: NodeId, key: Key) {
    forall j :: j in su.members && j != i ==> Published(s.soup, j, key)
  }

  ghost function Missing(su: Setup, part: Participant, i: NodeId, key: Key): set<NodeId> {
    set j | j in su.members && j != i && j !in BucketOf(part.store, key)
  }

  lemma FileOne(su: Setup, part: Participant, i: NodeId, key: Key, env: Envelope)
    requires KeyOf(env.body) == Some(key)
    ensures Missing(su, part.(store := File(part.store, env)), i, key) == Missing(su, part, i, key) - {env.nodeId}
  {
    var store := part.store;
    assert BucketOf(File(store, env), key) == BucketOf(store, key)[env.nodeId := env.body];
  }

  lemma DeliverEnabled(su: Setup, s: Swarm, i: NodeId, env: Envelope)
    requires su.Valid() && s.parts.Keys == su.members && i in su.members && env in s.soup
    ensures SwarmSystem.Step(su, s, Deliver(i, env), With(s, i, s.parts[i].(store := File(s.parts[i].store, env)), {}))
  {
  }

  lemma DeliverOne(su: Setup, trace: seq<Swarm>, actions: seq<Action>, i: NodeId, key: Key, j: NodeId)
    returns (act: Action, s': Swarm)
    requires su.Valid() && IsRun(su, trace, actions) && i in su.members && Last(trace).parts.Keys == su.members
    requires Published(Last(trace).soup, j, key)
    ensures act.Deliver? && Delivered(su, trace, actions, trace + [s'], actions + [act])
    ensures s'.parts.Keys == su.members && s'.soup == Last(trace).soup
    ensures forall j :: j in su.members ==> s'.Node(j) == Last(trace).Node(j)
    ensures Missing(su, s'.parts[i], i, key) == Missing(su, Last(trace).parts[i], i, key) - {j}
  {
    var s := Last(trace);
    hide Initial, SwarmSystem.Step, Missing, File, IsRun;
    var env :| env in s.soup && env.nodeId == j && KeyOf(env.body) == Some(key);
    var part := s.parts[i].(store := File(s.parts[i].store, env));
    act, s' := Deliver(i, env), With(s, i, part, {});
    DeliverEnabled(su, s, i, env);
    Extended(su, trace, actions, act, s');
    FileOne(su, s.parts[i], i, key, env);
  }

  /** Delivering what has been published opens any barrier that everybody else has reached. */
  lemma {:induction false} FillBucket(su: Setup, trace: seq<Swarm>, actions: seq<Action>, i: NodeId, key: Key)
    returns (t: seq<Swarm>, a: seq<Action>)
    requires su.Valid() && IsRun(su, trace, actions) && i in su.members
    requires Last(trace).parts.Keys == su.members && AllPublished(su, Last(trace), i, key)
    ensures Delivered(su, trace, actions, t, a)
    ensures Last(t).parts.Keys == su.members && forall j :: j in su.members ==> Last(t).Node(j) == Last(trace).Node(j)
    ensures Missing(su, Last(t).parts[i], i, key) == {}
    decreases |Missing(su, Last(trace).parts[i], i, key)|
  {
    hide Initial, SwarmSystem.Step, Published;
    var missing := Missing(su, Last(trace).parts[i], i, key);
    if missing == {} {
      t, a := trace, actions;
    } else {
      var j := Pick(missing);
      assert Published(Last(trace).soup, j, key);
      hide Missing;
      var act, s' := DeliverOne(su, trace, actions, i, key, j);
      assert Last(trace + [s']) == s';
      hide IsRun;
      t, a := FillBucket(su, trace + [s'], actions + [act], i, key);
      DeliveredFirst(su, trace, actions, act, s', t, a);
    }
  }

  // ---------------------------------------------------------------- each phase can be left

  lemma WorkPossible(cfg: Config, st: Node) returns (fwd: Forward, transfer: set<nat>, remask: set<nat>)
    requires cfg.Valid() && Shape(cfg, st) && st.phase.Stepping?
    ensures LocalWork(cfg, st, fwd, transfer, remask, Worked(cfg, st, fwd, transfer, remask))
  {
    hide StepInput.IsRemask, StepInput.IsTransfer, StepInput.Contained, Worked;
    fwd := Forward((_, _) => 0.0, _ => 0, _ => 0.0);
    BlockStarts(cfg, st.block);
    transfer, remask := StepFacts.StepEnabled(Input(cfg, st, fwd));
  }

  lemma WorkEnabled(su: Setup, s: Swarm, i: NodeId) returns (a: Action, s': Swarm)
    requires su.Valid() && SwarmInv(su, s) && i in su.members && s.Node(i).phase.Stepping?
    ensures a.Work? && a.i == i && Step(su, s, a, s')
  {
    hide NodeOk, Witnessed, StoreOk, Said, SoupOk, Shape, LocalWork, Worked;
    ShapeOf(su, s, i);
    var st := s.Node(i);
    assert Shape(su.cfg, st) ==> st.step < su.cfg.stepsPerBlock && |st.x| == |st.age| by { StepInShape(su.cfg, st); }
    var fwd, transfer, remask := WorkPossible(su.cfg, st);
    var st' := Worked(su.cfg, st, fwd, transfer, remask);
    a, s' := Work(i, fwd, transfer, remask), With(s, i, s.parts[i].(node := st'), {});
  }

  lemma StepInShape(cfg: Config, st: Node)
    requires cfg.Valid()
    ensures Shape(cfg, st) ==> st.step < cfg.stepsPerBlock && |st.x| == |st.age|
  {
  }

  lemma PublishEnabled(su: Setup, s: Swarm, i: NodeId) returns (a: Action, s': Swarm)
    requires su.Valid() && s.parts.Keys == su.members && i in su.members && s.Node(i).phase.Publishing?
    ensures a.Publish? && a.i == i && Step(su, s, a, s')
  {
    hide IsFlattening;
    var st := s.Node(i);
    var positions, tokens, confidences := FlatteningExists(st.pending);
    a := Publish(i, positions, tokens, confidences);
    s' := With(s, i, s.parts[i].(node := st.(phase := AwaitCommits)),
               {Envelope(i, Commit(su.roundId, st.SyncSeq(), positions, tokens, confidences))});
  }

  lemma FullKeys(su: Setup, part: Participant, i: NodeId, key: Key)
    requires Missing(su, part, i, key) == {} && part.node.id == i
    ensures Collected(su, part, key).Keys == su.members - {i}
  {
    forall j | j in su.members - {i}
      ensures j in BucketOf(part.store, key)
    {
      assert j !in Missing(su, part, i, key);
    }
  }

  /** With a full bucket `collect_until` returns everybody's message. */
  lemma FullBucket(su: Setup, s: Swarm, i: NodeId, key: Key)
    requires su.Valid() && SwarmInv(su, s) && i in su.members && Missing(su, s.parts[i], i, key) == {}
    ensures s.Node(i).id == i
    ensures var got := Collected(su, s.parts[i], key);
            got.Keys == su.members - {i}
            && forall j :: j in got ==> KeyOf(got[j]) == Some(key) && Genuine(su, s.Node(j), got[j])
  {
    hide Genuine, Shape, KeyOf, Collected, Missing, NodeOk, Witnessed, StoreOk, Said, SoupOk;
    ShapeOf(su, s, i);
    FullKeys(su, s.parts[i], i, key);
    hide SwarmInv;
    forall j | j in Collected(su, s.parts[i], key)
      ensures KeyOf(Collected(su, s.parts[i], key)[j]) == Some(key)
          && Genuine(su, s.Node(j), Collected(su, s.parts[i], key)[j])
    {
      Safety.CollectedGenuine(su, s, i, key, j);
    }
  }

  function CommitsIn(got: Bucket, i: NodeId, own: CommitMap): Commits {
    map j | j in got.Keys + {i} ::
      if j in got && j != i && got[j].Commit? then Unflattened(got[j].positions, got[j].tokens, got[j].confidences)
          else own
  }

  lemma CommitsReadable(su: Setup, s: Swarm, i: NodeId) returns (view: Commits)
    requires su.Valid() && SwarmInv(su, s) && i in su.members
    requires Missing(su, s.parts[i], i, CommitKey(su, s.Node(i))) == {}
    ensures s.Node(i).id == i && ReadsCommits(su, s.parts[i], view)
  {
    hide NodeOk, Witnessed, StoreOk, Said, SoupOk, Genuine, Shape, Unflattened, Collected;
    FullBucket(su, s, i, CommitKey(su, s.Node(i)));
    ShapeOf(su, s, i);
    hide SwarmInv;
    view := CommitsIn(Collected(su, s.parts[i], CommitKey(su, s.Node(i))), i, s.Node(i).pending);
  }

  lemma CommitBarrierEnabled(su: Setup, s: Swarm, i: NodeId) returns (a: Action, s': Swarm)
    requires su.Valid() && SwarmInv(su, s) && i in su.members && s.Node(i).phase.AwaitCommits?
    requires Missing(su, s.parts[i], i, CommitKey(su, s.Node(i))) == {}
    ensures a.CommitBarrier? && a.i == i && Step(su, s, a, s')
  {
    hide NodeOk, Witnessed, StoreOk, Said, SoupOk, Synced, Disputes, EncodeScores, OwnReport, ReadsCommits, Missing,
        Pop;
    var part := s.parts[i];
    var st := part.node;
    var view := CommitsReadable(su, s, i);
    var store := Pop(part.store, CommitKey(su, st));
    a := CommitBarrier(i, view);
    if Disputes(view) == map[] {
      s' := With(s, i, Participant(Synced(su.cfg, st, view, map[]), store), {});
    } else {
      s' := With(s, i, Participant(st.(phase := AwaitScores(view)), store),
                 {Envelope(i, DisputeScore(su.roundId, st.SyncSeq(),
                     EncodeScores(OwnReport(su.log, st.p, Disputes(view)))))});
    }
  }

  ghost function ScoresGot(su: Setup, s: Swarm, got: Bucket, i: NodeId, own: ScoreMap): Scores
    requires got.Keys <= s.parts.Keys
  {
    map j | j in got.Keys + {i} :: if j in got && j != i && got[j].DisputeScore?
        then ReportOf(su, s.Node(j), got[j].syncSeq) else own
  }

  lemma ReportReadable(su: Setup, st: Node, body: Body, key: Key)
    requires Genuine(su, st, body) && KeyOf(body) == Some(key) && key.kind == ScoreKind
    ensures body.DisputeScore? && DecodesScores(body.scores, ReportOf(su, st, body.syncSeq))
  {
    hide EncodeScores, DecodesScores, HasScore, ReportOf;
    ScoresReadable(ReportOf(su, st, body.syncSeq));
  }

  lemma ReportsReadable(su: Setup, s: Swarm, i: NodeId) returns (scores: Scores)
    requires su.Valid() && SwarmInv(su, s) && i in su.members && s.Node(i).phase.AwaitScores?
    requires Missing(su, s.parts[i], i, ScoreKey(su, s.Node(i))) == {}
    ensures s.Node(i).id == i && ReadsScores(su, s.parts[i], s.Node(i).phase.view, scores)
  {
    hide NodeOk, Witnessed, StoreOk, Said, SoupOk, Genuine, Shape, Disputes, OwnReport, DecodesScores, Collected,
        ReportOf, KeyOf;
    FullBucket(su, s, i, ScoreKey(su, s.Node(i)));
    ShapeOf(su, s, i);
    hide SwarmInv;
    var st := s.Node(i);
    var got := Collected(su, s.parts[i], ScoreKey(su, st));
    scores := ScoresGot(su, s, got, i, OwnReport(su.log, st.p, Disputes(st.phase.view)));
    forall j | j in got
      ensures j in scores && got[j].DisputeScore? && DecodesScores(got[j].scores, scores[j])
    {
      ReportReadable(su, s.Node(j), got[j], ScoreKey(su, st));
    }
  }

  lemma ScoreBarrierEnabled(su: Setup, s: Swarm, i: NodeId) returns (a: Action, s': Swarm)
    requires su.Valid() && SwarmInv(su, s) && i in su.members && s.Node(i).phase.AwaitScores?
    requires Missing(su, s.parts[i], i, ScoreKey(su, s.Node(i))) == {}
    ensures a.ScoreBarrier? && a.i == i && Step(su, s, a, s')
  {
    hide NodeOk, Witnessed, StoreOk, Said, SoupOk, Synced, ReadsScores, Missing, Pop;
    var part := s.parts[i];
    var st := part.node;
    var scores := ReportsReadable(su, s, i);
    a := ScoreBarrier(i, scores);
    s' := With(s, i, Participant(Synced(su.cfg, st, st.phase.view, scores), Pop(part.store, ScoreKey(su, st))), {});
  }

  // ---------------------------------------------------------------- nobody is stuck

  ghost predicate AllDone(su: Setup, s: Swarm) {
    s.parts.Keys == su.members && forall i :: i in su.members ==> s.Node(i).phase.Done?
  }

  /** Behind whom nobody is: the fewest syncs, and still reading commits if anybody there is. */
  ghost function Urgency(s: Swarm, i: NodeId): nat
    requires i in s.parts
  {
    2 * s.Node(i).SyncSeq() + if s.Node(i).phase.AwaitCommits? then 0 else 1
  }

  lemma {:induction false} Hindmost(s: Swarm, among: set<NodeId>) returns (i: NodeId)
    requires {} < among <= s.parts.Keys
    ensures i in among && forall j :: j in among ==> Urgency(s, i) <= Urgency(s, j)
    decreases |among|
  {
    i := Pick(among);
    if among != {i} {
      var j := Hindmost(s, among - {i});
      i := if Urgency(s, i) <= Urgency(s, j) then i else j;
    }
  }

  /** The hindmost of the participants that wait finds everything it waits for already published. */
  lemma HindmostServed(su: Setup, s: Swarm, i: NodeId)
    requires su.Valid() && SwarmInv(su, s) && i in su.members
    requires forall j :: j in su.members ==> !s.Node(j).phase.Stepping? && !s.Node(j).phase.Publishing?
    requires !s.Node(i).phase.Done?
    requires forall j :: j in su.members && !s.Node(j).phase.Done? ==> Urgency(s, i) <= Urgency(s, j)
    ensures AllPublished(su, s, i, AwaitKey(su, s.Node(i)))
  {
    hide NodeOk, Witnessed, StoreOk, SoupOk, Published, HasScore;
    var n := s.Node(i).SyncSeq();
    forall j | j in su.members && j != i
      ensures Published(s.soup, j, AwaitKey(su, s.Node(i)))
    {
      ShapeOf(su, s, j);
      assert Said(su, s.soup, s.Node(j));
      if s.Node(i).phase.AwaitCommits? {
        Agreement.CommitComes(su, s, i, j);
        assert HasCommit(s.Node(j), n);
      } else {
        Agreement.ScoreComes(su, s, i, j);
        assert HasScore(s.Node(j), n);
      }
    }
  }

  lemma MoveEnabled(su: Setup, s: Swarm, i: NodeId) returns (a: Action, s': Swarm)
    requires su.Valid() && SwarmInv(su, s) && i in su.members && !s.Node(i).phase.Done?
    requires Awaiting(s.Node(i)) ==> Missing(su, s.parts[i], i, AwaitKey(su, s.Node(i))) == {}
    ensures !a.Deliver? && a.i == i && Step(su, s, a, s')
  {
    hide NodeOk, Witnessed, StoreOk, Said, SoupOk, Step, Missing;
    match s.Node(i).phase
    case Stepping => a, s' := WorkEnabled(su, s, i);
    case Publishing => a, s' := PublishEnabled(su, s, i);
    case AwaitCommits => a, s' := CommitBarrierEnabled(su, s, i);
    case AwaitScores(_) => a, s' := ScoreBarrierEnabled(su, s, i);
  }

  /** Participant i has less work left, the others as much as before. */
  ghost predicate Progressed(su: Setup, s: Swarm, s': Swarm, i: NodeId)
    requires su.Valid()
  {
    && s.parts.Keys == s'.parts.Keys == su.members && i in su.members
    && (forall j :: j in su.members && j != i ==> s'.Node(j) == s.Node(j))
    && Shape(su.cfg, s.Node(i)) && Shape(su.cfg, s'.Node(i)) && Ahead(su.cfg, s'.Node(i)) < Ahead(su.cfg, s.Node(i))
  }

  /** Participant i moves next, once what it waits for has been delivered to it. */
  lemma MoveOf(su: Setup, trace: seq<Swarm>, actions: seq<Action>, i: NodeId) returns (t: seq<Swarm>, a: seq<Action>)
    requires su.Valid() && IsRun(su, trace, actions) && SwarmInv(su, Last(trace)) && i in su.members
        && !Last(trace).Node(i).phase.Done?
    requires Awaiting(Last(trace).Node(i)) ==> AllPublished(su, Last(trace), i, AwaitKey(su, Last(trace).Node(i)))
    ensures Moved(su, trace, actions, t, a, i) && Progressed(su, Last(trace), Last(t), i)
  {
    hide Step, NodeOk, Witnessed, StoreOk, Said, SoupOk, AllPublished, Missing, Initial, Moved, Shape, Ahead;
    t, a := trace, actions;
    if Awaiting(Last(trace).Node(i)) {
      t, a := FillBucket(su, trace, actions, i, AwaitKey(su, Last(trace).Node(i)));
      Safety.RunKeepsInv(su, t, a, |a|);
    }
    hide SwarmInv;
    var act, s' := MoveEnabled(su, Last(t), i);
    Safety.StepKeepsInv(su, Last(t), act, s');
    MovesAdvance(su, Last(t), act, s');
    DeliveredThenMoved(su, trace, actions, t, a, act, s');
    t, a := t + [s'], a + [act];
    assert Last(t) == s';
  }

  lemma Unfinished(su: Setup, s: Swarm) returns (i: NodeId)
    requires su.Valid() && SwarmInv(su, s) && !AllDone(su, s)
    ensures i in su.members && !s.Node(i).phase.Done?
    ensures Awaiting(s.Node(i)) ==> AllPublished(su, s, i, AwaitKey(su, s.Node(i)))
  {
    hide NodeOk, Witnessed, StoreOk, Said, SoupOk, AllPublished;
    if j :| j in su.members && (s.Node(j).phase.Stepping? || s.Node(j).phase.Publishing?) {
      i := j;
    } else {
      var unfinished := set j | j in su.members && !s.Node(j).phase.Done?;
      var one :| one in su.members && !s.Node(one).phase.Done?;
      assert one in unfinished;
      i := Hindmost(s, unfinished);
      HindmostServed(su, s, i);
    }
  }

  /** No deadlock: from any state of any run in which somebody is not done, the messages already
      published let some participant move. */
  lemma SomebodyMoves(su: Setup, trace: seq<Swarm>, actions: seq<Action>)
    returns (t: seq<Swarm>, a: seq<Action>, i: NodeId)
    requires su.Valid() && IsRun(su, trace, actions) && !AllDone(su, Last(trace))
    ensures i in su.members && Moved(su, trace, actions, t, a, i) && Progressed(su, Last(trace), Last(t), i)
  {
    hide Progressed, Step, Initial, SwarmInv, AllPublished, AllDone, Moved;
    Safety.RunKeepsInv(su, trace, actions, |actions|);
    i := Unfinished(su, Last(trace));
    t, a := MoveOf(su, trace, actions, i);
  }

  // ---------------------------------------------------------------- every run can be finished

  ghost predicate AllShaped(cfg: Config, s: Swarm, among: set<NodeId>)
    requires cfg.Valid()
  {
    among <= s.parts.Keys && forall i :: i in among ==> Shape(cfg, s.Node(i))
  }

  ghost function TotalAhead(cfg: Config, s: Swarm, among: set<NodeId>): nat
    requires cfg.Valid() && AllShaped(cfg, s, among)
  {
    if among == {} then 0 else
      var n := Pick(among);
      Ahead(cfg, s.Node(n)) + TotalAhead(cfg, s, among - {n})
  }

  lemma {:induction false} TotalDrops(su: Setup, s: Swarm, s': Swarm, among: set<NodeId>, i: NodeId)
    requires su.Valid() && Progressed(su, s, s', i) && among <= su.members && AllShaped(su.cfg, s, among)
    ensures AllShaped(su.cfg, s', among)
    ensures if i in among then TotalAhead(su.cfg, s', among) < TotalAhead(su.cfg, s, among)
            else TotalAhead(su.cfg, s', among) == TotalAhead(su.cfg, s, among)
    decreases |among|
  {
    hide Shape, Ahead;
    if among != {} {
      TotalDrops(su, s, s', among - {Pick(among)}, i);
    }
  }

  lemma AllInShape(su: Setup, s: Swarm)
    requires su.Valid() && SwarmInv(su, s)
    ensures AllShaped(su.cfg, s, su.members)
  {
    hide Shape, NodeOk, Witnessed, StoreOk, Said, SoupOk;
    forall i | i in su.members
      ensures Shape(su.cfg, s.Node(i))
    {
      ShapeOf(su, s, i);
    }
  }

  lemma {:induction false} FinishWithin(su: Setup, trace: seq<Swarm>, actions: seq<Action>, left: nat)
    returns (t: seq<Swarm>, a: seq<Action>)
    requires su.Valid() && IsRun(su, trace, actions)
    requires AllShaped(su.cfg, Last(trace), su.members) && TotalAhead(su.cfg, Last(trace), su.members) <= left
    ensures Extends(su, trace, actions, t, a) && AllDone(su, Last(t))
    decreases left
  {
    hide Step, Initial, SwarmInv, AllDone, Progressed, AllShaped, TotalAhead;
    if AllDone(su, Last(trace)) {
      t, a := trace, actions;
    } else {
      var i;
      t, a, i := SomebodyMoves(su, trace, actions);
      TotalDrops(su, Last(trace), Last(t), su.members, i);
      var t', a' := FinishWithin(su, t, a, left - 1);
      t, a := t', a';
    }
  }

  /** Whatever has happened so far, the round can still be finished: every run extends to one at whose
      end all participants are done, and all of them return the same shared state, which misses nothing
      below the boundary. */
  lemma EveryRunCanFinish(su: Setup, trace: seq<Swarm>, actions: seq<Action>)
    returns (t: seq<Swarm>, a: seq<Action>)
    requires su.Valid() && IsRun(su, trace, actions)
    ensures Extends(su, trace, actions, t, a) && AllDone(su, Last(t))
    ensures forall i, j :: i in su.members && j in su.members ==> Last(t).Node(i).shared == Last(t).Node(j).shared
    ensures forall i, p: nat ::
              i in su.members && p < su.cfg.BlockStart(su.cfg.numBlocks) && Facts.BelowStop(Last(t).Node(i), p) ==>
                p in Last(t).Node(i).shared
    ensures forall i :: i in su.members && Freeze.Harmless(su.cfg, Last(t).Node(i).log) ==>
              Agreement.KeepsText(su, Last(t).Node(i))
  {
    hide Step, Initial, SwarmInv, Coherent, AllShaped, TotalAhead;
    Safety.RunKeepsInv(su, trace, actions, |actions|);
    AllInShape(su, Last(trace));
    t, a := FinishWithin(su, trace, actions, TotalAhead(su.cfg, Last(trace), su.members));
    Agreement.RunCoheres(su, t, a, |a|);
    hide Config.BlockStart, Facts.BelowStop, Freeze.Harmless, Agreement.KeepsText;
    forall i, j | i in su.members && j in su.members
      ensures Last(t).Node(i).shared == Last(t).Node(j).shared
      ensures forall p: nat :: p < su.cfg.BlockStart(su.cfg.numBlocks) && Facts.BelowStop(Last(t).Node(i), p) ==>
                p in Last(t).Node(i).shared
      ensures Freeze.Harmless(su.cfg, Last(t).Node(i).log) ==> Agreement.KeepsText(su, Last(t).Node(i))
    {
      Agreement.SameResult(su, Last(t), i, j);
    }
  }
}
