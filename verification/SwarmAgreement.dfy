/** What the swarm's invariant gives about any reachable state: nobody adjudicates and everybody agrees. */
module SwarmAgreement {
  import opened Arith
  import opened Prelude
  import opened Consensus
  import opened LocalStep
  import opened NodeMachine
  import opened NodeRuns
  import opened SwarmSystem
  import Facts = NodeFacts
  import Freeze = FreezeFacts
  import Invariant = NodeInvariant
  import Safety = SwarmSafety
  import Stop = StopDetection

  // ---------------------------------------------------------------- agreement

  lemma ViewUnique(su: Setup, s: Swarm, n: nat, a: Commits, b: Commits)
    requires s.parts.Keys == su.members && ViewFrom(su, s, n, a) && ViewFrom(su, s, n, b)
    ensures a == b
  {
    hide HasCommit, CommitOf;
  }

  lemma RecordViewUnique(su: Setup, s: Swarm, n: nat, a: SyncRecord, b: SyncRecord)
    requires s.parts.Keys == su.members && RecordFrom(su, s, n, a) && RecordFrom(su, s, n, b)
    ensures a.view == b.view && a.scores == b.scores
  {
    ViewUnique(su, s, n, a.view, b.view);
    hide HasScore, ReportOf, ViewFrom, Disputes;
  }

  /** In one block the number of finished syncs fixes the step that closes the next window. */
  lemma ClosingStepUnique(cfg: Config, a: nat, b: nat)
    requires cfg.Valid() && a < cfg.stepsPerBlock && b < cfg.stepsPerBlock && cfg.SyncDue(a) && cfg.SyncDue(b)
    requires a / cfg.syncEvery == b / cfg.syncEvery
    ensures a == b
  {
    var e := cfg.syncEvery;
    NextDiv(a, e);
    NextDiv(b, e);
    var q := a / e;
    assert a == q * e + a % e && b == q * e + b % e;
  }

  lemma SameClosingStep(su: Setup, a: SyncRecord, b: SyncRecord, n: nat)
    requires su.Valid() && Recorded(su.cfg, a, n) && Recorded(su.cfg, b, n) && a.block == b.block
    ensures a.step == b.step
  {
    hide Config.SyncDue, SyncsPerBlock;
    ClosingStepUnique(su.cfg, a.step, b.step);
  }

  /** What two records of the same sync must share: all but the node's own window. */
  ghost predicate SameRecord(a: SyncRecord, b: SyncRecord) {
    a.block == b.block && a.step == b.step && a.view == b.view && a.scores == b.scores && a.agreed == b.agreed
  }

  lemma PartOf(su: Setup, s: Swarm, i: NodeId)
    requires su.Valid() && Coherent(su, s) && i in su.members
    ensures NodeOk(su, i, s.Node(i)) && Witnessed(su, s, s.Node(i))
  {
  }

  lemma HistoryOf(su: Setup, i: NodeId, st: Node, n: nat)
    requires su.Valid() && NodeOk(su, i, st) && n < st.SyncSeq()
    ensures Link(su, AgreedAt(su, st, n), st.log[n]) && Recorded(su.cfg, st.log[n], n)
  {
    hide Link, Recorded, Facts.Windowed, Facts.Retained, Facts.Covering, Facts.Aging, Facts.Mirroring, Facts.Bounded,
        Facts.Checked, Facts.OwnInBlock, Shape;
  }

  lemma SameStep(su: Setup, s: Swarm, a: Node, b: Node, n: nat)
    requires su.Valid() && s.parts.Keys == su.members && NodeOk(su, a.id, a) && NodeOk(su, b.id, b)
    requires Witnessed(su, s, a) && Witnessed(su, s, b) && n < a.SyncSeq() && n < b.SyncSeq()
    requires AgreedAt(su, a, n) == AgreedAt(su, b, n)
    ensures SameRecord(a.log[n], b.log[n])
  {
    hide NodeOk, Outcome, RecordFrom, Recorded;
    HistoryOf(su, a.id, a, n);
    HistoryOf(su, b.id, b, n);
    RecordViewUnique(su, s, n, a.log[n], b.log[n]);
    SameClosingStep(su, a.log[n], b.log[n], n);
  }

  lemma {:induction false} SameHistory(su: Setup, s: Swarm, i: NodeId, j: NodeId, n: nat)
    requires su.Valid() && Coherent(su, s) && i in su.members && j in su.members
    requires n <= s.Node(i).SyncSeq() && n <= s.Node(j).SyncSeq()
    ensures AgreedAt(su, s.Node(i), n) == AgreedAt(su, s.Node(j), n)
    ensures n < s.Node(i).SyncSeq() && n < s.Node(j).SyncSeq() ==> SameRecord(s.Node(i).log[n], s.Node(j).log[n])
  {
    hide NodeOk, Witnessed;
    var a, b := s.Node(i), s.Node(j);
    PartOf(su, s, i);
    PartOf(su, s, j);
    NodeIds(su, s, i);
    NodeIds(su, s, j);
    if n > 0 {
      SameHistory(su, s, i, j, n - 1);
    }
    if n < a.SyncSeq() && n < b.SyncSeq() {
      SameStep(su, s, a, b, n);
    }
  }

  lemma NodeIds(su: Setup, s: Swarm, i: NodeId)
    requires su.Valid() && Coherent(su, s) && i in su.members
    ensures s.Node(i).id == i
  {
    assert NodeOk(su, i, s.Node(i));
  }

  /** Agreement, in every state of every run: any two participants that have finished sync n used the
      same commits and scores for it and came out with the same shared state, detector, boundary and
      next control position, whatever their models predicted. */
  lemma Agreement(su: Setup, trace: seq<Swarm>, actions: seq<Action>, k: nat, i: NodeId, j: NodeId, n: nat)
    requires su.Valid() && IsRun(su, trace, actions) && k < |trace| && i in su.members && j in su.members
    ensures trace[k].parts.Keys == su.members
    ensures n < trace[k].Node(i).SyncSeq() && n < trace[k].Node(j).SyncSeq() ==>
              SameRecord(trace[k].Node(i).log[n], trace[k].Node(j).log[n])
  {
    hide Coherent, IsRun;
    RunCoheres(su, trace, actions, k);
    if n < trace[k].Node(i).SyncSeq() && n < trace[k].Node(j).SyncSeq() {
      SameHistory(su, trace[k], i, j, n);
    }
  }

  lemma RunCoheres(su: Setup, trace: seq<Swarm>, actions: seq<Action>, k: nat)
    requires su.Valid() && IsRun(su, trace, actions) && k < |trace|
    ensures Coherent(su, trace[k]) && trace[k].parts.Keys == su.members
  {
    Safety.RunKeepsInv(su, trace, actions, k);
    hide IsRun, NodeOk, Witnessed, StoreOk, Said, SoupOk;
  }

  /** Participants that have finished equally many syncs hold the same shared state, detector and block,
      and have both finished the round or both not. */
  lemma SameState(su: Setup, s: Swarm, i: NodeId, j: NodeId)
    requires su.Valid() && Coherent(su, s) && i in su.members && j in su.members
    requires s.Node(i).SyncSeq() == s.Node(j).SyncSeq()
    ensures s.Node(i).shared == s.Node(j).shared && s.Node(i).det == s.Node(j).det
    ensures s.Node(i).block == s.Node(j).block && (s.Node(i).phase.Done? <==> s.Node(j).phase.Done?)
  {
    SameHistory(su, s, i, j, s.Node(i).SyncSeq());
    hide Invariant.Inv, Link, Witnessed;
    assert NodeOk(su, i, s.Node(i)) && NodeOk(su, j, s.Node(j));
  }

  // ---------------------------------------------------------------- skew and waiting

  /** Nobody is ever more than one sync ahead. */
  lemma Skew(su: Setup, s: Swarm, i: NodeId, j: NodeId)
    requires su.Valid() && Coherent(su, s) && i in su.members && j in su.members
    ensures s.Node(i).SyncSeq() <= s.Node(j).SyncSeq() + 1
  {
    hide NodeOk, Disputes;
    var a := s.Node(i);
    assert Witnessed(su, s, a);
    if |a.log| > 0 {
      assert RecordFrom(su, s, |a.log| - 1, a.log[|a.log| - 1]);
      assert HasCommit(s.Node(j), |a.log| - 1);
    }
  }

  /** A participant that is done has said everything any other one may wait for. */
  lemma DoneIsComplete(su: Setup, s: Swarm, i: NodeId, j: NodeId)
    requires su.Valid() && Coherent(su, s) && i in su.members && j in su.members
    requires s.Node(j).phase.Done? && !s.Node(i).phase.Done?
    ensures s.Node(i).SyncSeq() < s.Node(j).SyncSeq()
  {
    var a, b := s.Node(i), s.Node(j);
    PartOf(su, s, i);
    PartOf(su, s, j);
    hide Invariant.Inv, Witnessed, Coherent, Link;
    if |b.log| <= |a.log| {
      SameHistory(su, s, i, j, |b.log|);
      NotDoneBefore(su, a, |b.log|);
    }
  }

  lemma NotDoneBefore(su: Setup, st: Node, n: nat)
    requires su.Valid() && Chained(su, st) && n <= st.SyncSeq()
    ensures AgreedAt(su, st, n).done ==> n == st.SyncSeq() && st.phase.Done?
  {
    hide Outcome;
    if n < st.SyncSeq() {
      assert Link(su, AgreedAt(su, st, n), st.log[n]);
    }
  }

  /** No participant waits for a COMMIT that its sender will skip: either it has been published, or the
      sender is still on its way to that very sync. */
  lemma CommitComes(su: Setup, s: Swarm, i: NodeId, j: NodeId)
    requires su.Valid() && Coherent(su, s) && i in su.members && j in su.members
    requires s.Node(i).phase.AwaitCommits?
    ensures HasCommit(s.Node(j), s.Node(i).SyncSeq())
            || (!s.Node(j).phase.Done? && s.Node(i).SyncSeq() - 1 <= s.Node(j).SyncSeq() <= s.Node(i).SyncSeq())
  {
    Skew(su, s, i, j);
    Skew(su, s, j, i);
    if s.Node(j).phase.Done? {
      DoneIsComplete(su, s, i, j);
    }
  }

  /** All participants agree whether a sync has a second phase, so no report is waited for in vain: its
      sender has published it, or is still reading the same commits, disputed as they are. */
  lemma ScoreComes(su: Setup, s: Swarm, i: NodeId, j: NodeId)
    requires su.Valid() && Coherent(su, s) && i in su.members && j in su.members
    requires s.Node(i).phase.AwaitScores?
    ensures HasScore(s.Node(j), s.Node(i).SyncSeq())
            || (s.Node(j).phase.AwaitCommits? && s.Node(j).SyncSeq() == s.Node(i).SyncSeq())
    ensures s.Node(j).SyncSeq() > s.Node(i).SyncSeq() ==>
              s.Node(j).log[s.Node(i).SyncSeq()].view == s.Node(i).phase.view && Disputes(s.Node(i).phase.view) != map[]
  {
    var a, b := s.Node(i), s.Node(j);
    var n := a.SyncSeq();
    hide Invariant.Inv, Disputes, Chained;
    assert Witnessed(su, s, a) && Witnessed(su, s, b);
    assert HasCommit(b, n);
    if n < b.SyncSeq() {
      assert RecordFrom(su, s, n, b.log[n]);
      ViewUnique(su, s, n, b.log[n].view, a.phase.view);
    }
  }

  /** A finished sync turned some shared state into the one it recorded. */
  lemma OutcomeOf(su: Setup, s: Swarm, i: NodeId, n: nat) returns (before: map<nat, nat>)
    requires su.Valid() && Coherent(su, s) && i in su.members && n < s.Node(i).SyncSeq()
    ensures before == AgreedAt(su, s.Node(i), n).shared
    ensures var r := s.Node(i).log[n]; r.agreed.shared == SyncShared(before, r.view, r.scores, su.cfg.exp)
  {
    hide NodeOk, Witnessed, SyncShared, Stop.Read, Stop.Step;
    PartOf(su, s, i);
    HistoryOf(su, i, s.Node(i), n);
    before := AgreedAt(su, s.Node(i), n).shared;
  }

  /** One payload per sender and sync: two COMMITs of a node for the same sync list the same proposals. */
  lemma OnePayload(su: Setup, s: Swarm, e: Protocol.Envelope, f: Protocol.Envelope)
    requires su.Valid() && SwarmInv(su, s) && e in s.soup && f in s.soup
    requires e.nodeId == f.nodeId && e.body.Commit? && f.body.Commit? && e.body.syncSeq == f.body.syncSeq
    ensures Protocol.Unflattened(e.body.positions, e.body.tokens, e.body.confidences)
            == Protocol.Unflattened(f.body.positions, f.body.tokens, f.body.confidences)
  {
    hide NodeOk, Witnessed, Said, StoreOk, Protocol.IsFlattening, Protocol.Unflattened, CommitOf;
    assert SoupOk(su, s);
    var m := CommitOf(s.Node(e.nodeId), e.body.syncSeq);
    Protocol.CommitRoundTrip(m, e.body.positions, e.body.tokens, e.body.confidences);
    Protocol.CommitRoundTrip(m, f.body.positions, f.body.tokens, f.body.confidences);
  }

  // ---------------------------------------------------------------- rounds of contained steps

  ghost predicate AllClean(su: Setup, s: Swarm)
    requires s.parts.Keys == su.members
  {
    forall i :: i in su.members ==> s.Node(i).clean
  }

  /** When every participant's steps were contained, every sync merged commits of its own block. */
  lemma CleanIsTidy(su: Setup, s: Swarm, i: NodeId)
    requires su.Valid() && Coherent(su, s) && i in su.members && AllClean(su, s)
    ensures Facts.Tidy(su.cfg, s.Node(i))
  {
    var a := s.Node(i);
    hide Facts.ViewInBlock, Coherent, AllClean;
    forall n: nat | n < |a.log|
      ensures Facts.ViewInBlock(su.cfg, a.log[n].block, a.log[n].view)
    {
      CleanView(su, s, i, n);
    }
  }

  lemma CleanView(su: Setup, s: Swarm, i: NodeId, n: nat)
    requires su.Valid() && Coherent(su, s) && i in su.members && AllClean(su, s) && n < s.Node(i).SyncSeq()
    ensures Facts.ViewInBlock(su.cfg, s.Node(i).log[n].block, s.Node(i).log[n].view)
  {
    var r := s.Node(i).log[n];
    forall p: nat | p in ProposedPositions(r.view)
      ensures Facts.OfBlock(su.cfg, r.block, p)
    {
      var j :| j in r.view && p in r.view[j];
      hide Facts.OfBlock, ProposedPositions, Coherent;
      OwnPositions(su, s, i, n, j, p);
    }
  }

  lemma OwnPositions(su: Setup, s: Swarm, i: NodeId, n: nat, j: NodeId, p: nat)
    requires su.Valid() && Coherent(su, s) && i in su.members && AllClean(su, s) && n < s.Node(i).SyncSeq()
    requires j in s.Node(i).log[n].view && p in s.Node(i).log[n].view[j]
    ensures Facts.OfBlock(su.cfg, s.Node(i).log[n].block, p)
  {
    var a := s.Node(i);
    var r := a.log[n];
    hide Facts.OfBlock, Disputes, ScoresFrom, Outcome, Facts.Windowed, Facts.Retained,
        Facts.Covering, Facts.Aging, Facts.Mirroring, Facts.Bounded, Facts.Checked, Shape, Counting;
    assert Witnessed(su, s, a) && RecordFrom(su, s, n, r) && j in su.members;
    var b := s.Node(j);
    assert NodeOk(su, i, a) && NodeOk(su, j, b) && Facts.OwnInBlock(su.cfg, b);
    assert HasCommit(b, n) && r.view[j] == CommitOf(b, n);
    SameHistory(su, s, i, j, n);
    assert Link(su, AgreedAt(su, a, n), r);
    if n < |b.log| {
      assert Facts.KeysInBlock(su.cfg, b.log[n].block, b.log[n].view[j]);
    } else {
      assert Facts.KeysInBlock(su.cfg, b.block, b.pending);
    }
  }

  // ---------------------------------------------------------------- until there is a boundary

  lemma UnfrozenPositions(su: Setup, s: Swarm, i: NodeId, n: nat, j: NodeId, p: nat)
    requires su.Valid() && Coherent(su, s) && i in su.members && n < s.Node(i).SyncSeq()
    requires AgreedAt(su, s.Node(i), n).det.stop.None?
    requires j in s.Node(i).log[n].view && p in s.Node(i).log[n].view[j]
    ensures Facts.OfBlock(su.cfg, s.Node(i).log[n].block, p)
  {
    var a := s.Node(i);
    var r := a.log[n];
    hide Facts.OfBlock, Disputes, ScoresFrom, Outcome, Facts.Windowed, Facts.Retained, Facts.Covering, Facts.Aging,
         Facts.Mirroring, Facts.Bounded, Facts.Checked, Facts.Filled, Facts.Ranged, Shape, Counting;
    assert Witnessed(su, s, a) && RecordFrom(su, s, n, r) && j in su.members;
    var b := s.Node(j);
    assert NodeOk(su, i, a) && NodeOk(su, j, b);
    assert HasCommit(b, n) && r.view[j] == CommitOf(b, n);
    SameHistory(su, s, i, j, n);
    assert Link(su, AgreedAt(su, a, n), r);
    if n < |b.log| {
      DetAgreed(su, b, n);
      assert Facts.KeysInBlock(su.cfg, b.log[n].block, b.log[n].view[j]);
    } else {
      assert Facts.KeysInBlock(su.cfg, b.block, b.pending);
    }
  }

  lemma UnfrozenView(su: Setup, s: Swarm, i: NodeId, n: nat)
    requires su.Valid() && Coherent(su, s) && i in su.members && n < s.Node(i).SyncSeq()
    requires AgreedAt(su, s.Node(i), n).det.stop.None?
    ensures Facts.ViewInBlock(su.cfg, s.Node(i).log[n].block, s.Node(i).log[n].view)
  {
    var r := s.Node(i).log[n];
    forall p: nat | p in ProposedPositions(r.view)
      ensures Facts.OfBlock(su.cfg, r.block, p)
    {
      var j :| j in r.view && p in r.view[j];
      hide Facts.OfBlock, ProposedPositions, Coherent;
      UnfrozenPositions(su, s, i, n, j, p);
    }
  }

  lemma DetAgreed(su: Setup, st: Node, n: nat)
    requires n <= st.SyncSeq()
    ensures Facts.DetBefore(st.log, n) == AgreedAt(su, st, n).det
  {
  }

  /** Whatever freezes later, every sync up to the first boundary merged commits of its own block. */
  lemma TidyUntilBoundary(su: Setup, s: Swarm, i: NodeId)
    requires su.Valid() && Coherent(su, s) && i in su.members
    ensures Facts.TidyUntilFrozen(su.cfg, s.Node(i).log)
  {
    var log := s.Node(i).log;
    hide Facts.ViewInBlock, Coherent, AgreedAt, Facts.DetBefore;
    forall n: nat | n < |log| && Facts.DetBefore(log, n).stop.None?
      ensures Facts.ViewInBlock(su.cfg, log[n].block, log[n].view)
    {
      DetAgreed(su, s.Node(i), n);
      UnfrozenView(su, s, i, n);
    }
  }

  /** Without a boundary that is every sync, and every step was contained. */
  lemma UnfrozenIsTidy(su: Setup, s: Swarm, i: NodeId)
    requires su.Valid() && Coherent(su, s) && i in su.members && s.Node(i).det.stop.None?
    ensures Facts.Tidy(su.cfg, s.Node(i)) && s.Node(i).clean
  {
    var a := s.Node(i);
    hide Facts.ViewInBlock, Invariant.Inv, Witnessed, Coherent;
    PartOf(su, s, i);
    forall n: nat | n < |a.log|
      ensures Facts.ViewInBlock(su.cfg, a.log[n].block, a.log[n].view)
    {
      if AgreedAt(su, a, n).det.stop.Some? {
        StopStays(su, a, n, |a.log|);
      }
      UnfrozenView(su, s, i, n);
    }
    CleanOf(su, i, a);
  }

  lemma CleanOf(su: Setup, i: NodeId, st: Node)
    requires su.Valid() && NodeOk(su, i, st) && st.det.stop.None?
    ensures st.clean
  {
  }

  /** Right after a sync, nodes that finished equally many syncs hold the very same sequence, the shared
      state with masks in the gaps: always until there is a boundary, and in contained rounds after it. */
  lemma SameSequence(su: Setup, s: Swarm, i: NodeId, j: NodeId)
    requires su.Valid() && Coherent(su, s) && i in su.members && j in su.members
    requires s.Node(i).det.stop.None? || AllClean(su, s)
    requires s.Node(i).SyncSeq() == s.Node(j).SyncSeq() && s.Node(i).window == [] && s.Node(j).window == []
    ensures s.Node(i).x == s.Node(j).x && Facts.Mirrors(su.cfg, s.Node(i))
  {
    hide Facts.Tidy, Witnessed, Facts.Mirrors, Facts.Windowed, Facts.Retained, Facts.Covering, Facts.Aging,
         Facts.Bounded, Facts.Checked, Shape, Counting, Chained, Facts.OwnInBlock, Facts.Filled, Facts.OwnUntilFrozen,
         Facts.Ranged;
    SameState(su, s, i, j);
    if s.Node(i).det.stop.None? {
      UnfrozenIsTidy(su, s, i);
      UnfrozenIsTidy(su, s, j);
    } else {
      CleanIsTidy(su, s, i);
      CleanIsTidy(su, s, j);
    }
    assert NodeOk(su, i, s.Node(i)) && NodeOk(su, j, s.Node(j));
    Facts.SameSharedSameSequence(su.cfg, s.Node(i), s.Node(j));
  }

  lemma LinkKeepsStop(su: Setup, before: Agreed, r: SyncRecord)
    requires su.Valid() && Link(su, before, r) && before.det.stop.Some?
    ensures r.agreed.det.stop.Some? && r.agreed.det.stop.value <= before.det.stop.value
  {
    hide SyncShared, Stop.Read, RoundOver;
  }

  lemma {:induction false} StopStays(su: Setup, st: Node, n: nat, m: nat)
    requires su.Valid() && Chained(su, st) && n <= m <= |st.log| && AgreedAt(su, st, n).det.stop.Some?
    ensures AgreedAt(su, st, m).det.stop.Some?
        && AgreedAt(su, st, m).det.stop.value <= AgreedAt(su, st, n).det.stop.value
  {
    hide Link;
    if n < m {
      StopStays(su, st, n, m - 1);
      LinkKeepsStop(su, AgreedAt(su, st, m - 1), st.log[m - 1]);
    }
  }

  /** A boundary inside the block begun ends the round with that block. */
  lemma FrozenLinkStays(su: Setup, before: Agreed, r: SyncRecord, next: SyncRecord)
    requires su.Valid() && Link(su, before, r) && Link(su, r.agreed, next)
    requires r.agreed.det.stop.Some? && r.agreed.det.stop.value < su.cfg.BlockStart(r.block + 1)
    ensures next.block == r.block
  {
    hide SyncShared, Stop.Read, Config.BlockStart;
  }

  lemma BoundOf(su: Setup, i: NodeId, st: Node, n: nat)
    requires su.Valid() && NodeOk(su, i, st) && Facts.TidyUntilFrozen(su.cfg, st.log) && n < st.SyncSeq()
    requires st.log[n].agreed.det.stop.Some?
    ensures su.cfg.genStart <= st.log[n].agreed.det.stop.value < su.cfg.BlockStart(st.log[n].block + 1)
  {
    hide Facts.TidyUntilFrozen, Facts.Windowed, Facts.Retained, Facts.Covering, Facts.Aging, Facts.Mirroring,
         Facts.Checked, Shape, Counting, Facts.OwnInBlock, Config.BlockStart, Chained, Facts.Filled,
         Facts.OwnUntilFrozen, Facts.Ranged;
  }

  lemma ChainOf(su: Setup, i: NodeId, st: Node)
    requires su.Valid() && NodeOk(su, i, st)
    ensures Chained(su, st)
  {
  }

  lemma {:induction false} FrozenStays(su: Setup, i: NodeId, st: Node, n: nat, m: nat)
    requires su.Valid() && NodeOk(su, i, st) && Facts.TidyUntilFrozen(su.cfg, st.log)
    requires n <= m < st.SyncSeq() && st.log[n].agreed.det.stop.Some?
    ensures st.log[m].block == st.log[n].block && st.log[m].agreed.det.stop.Some?
  {
    hide NodeOk, Chained, Facts.TidyUntilFrozen, Link, Config.BlockStart;
    ChainOf(su, i, st);
    if m > n {
      FrozenStays(su, i, st, n, m - 1);
      StopStays(su, st, m, m + 1);
      HistoryOf(su, i, st, m - 1);
      HistoryOf(su, i, st, m);
      BoundOf(su, i, st, m - 1);
      FrozenLinkStays(su, AgreedAt(su, st, m - 1), st.log[m - 1], st.log[m]);
    }
  }

  /** And no block is begun after it: the round goes on in that block or is done. */
  lemma FrozenNow(su: Setup, st: Node)
    requires su.Valid() && Chained(su, st) && st.log != []
    requires var r := st.log[|st.log| - 1];
             r.agreed.det.stop.Some? && r.agreed.det.stop.value < su.cfg.BlockStart(r.block + 1)
    ensures st.block == st.log[|st.log| - 1].block || st.phase.Done?
  {
    hide SyncShared, Stop.Read, Stop.Step, Config.BlockStart;
    assert Link(su, AgreedAt(su, st, |st.log| - 1), st.log[|st.log| - 1]);
  }

  lemma NoLaterBlockAt(su: Setup, i: NodeId, st: Node, n: nat)
    requires su.Valid() && NodeOk(su, i, st) && Facts.TidyUntilFrozen(su.cfg, st.log)
    requires n < st.SyncSeq() && st.log[n].agreed.det.stop.Some?
    ensures su.cfg.genStart <= st.log[n].agreed.det.stop.value < su.cfg.BlockStart(st.log[n].block + 1)
    ensures forall m :: n <= m < st.SyncSeq() ==> st.log[m].block == st.log[n].block
    ensures st.block == st.log[n].block || st.phase.Done?
  {
    hide NodeOk, Chained, Facts.TidyUntilFrozen, Config.BlockStart;
    var last := st.SyncSeq() - 1;
    BoundOf(su, i, st, n);
    forall m | n <= m < st.SyncSeq()
      ensures st.log[m].block == st.log[n].block
    {
      FrozenStays(su, i, st, n, m);
    }
    FrozenStays(su, i, st, n, last);
    BoundOf(su, i, st, last);
    ChainOf(su, i, st);
    FrozenNow(su, st);
  }

  /** In every state of every run: a boundary lies between the prompt and the end of the block in which it was
      confirmed, no later sync closes a window of another block, and no other block is begun, whether or not
      the freeze makes later steps stray. */
  lemma NoLaterBlock(su: Setup, trace: seq<Swarm>, actions: seq<Action>, k: nat, i: NodeId, n: nat)
    requires su.Valid() && IsRun(su, trace, actions) && k < |trace| && i in su.members
    ensures trace[k].parts.Keys == su.members
    ensures var st := trace[k].Node(i);
            n < st.SyncSeq() && st.log[n].agreed.det.stop.Some? ==>
              && su.cfg.genStart <= st.log[n].agreed.det.stop.value < su.cfg.BlockStart(st.log[n].block + 1)
              && (forall m :: n <= m < st.SyncSeq() ==> st.log[m].block == st.log[n].block)
              && (st.block == st.log[n].block || st.phase.Done?)
  {
    hide Coherent, IsRun, NodeOk, Witnessed, Facts.TidyUntilFrozen, Config.BlockStart;
    RunCoheres(su, trace, actions, k);
    var st := trace[k].Node(i);
    if n < st.SyncSeq() && st.log[n].agreed.det.stop.Some? {
      TidyUntilBoundary(su, trace[k], i);
      PartOf(su, trace[k], i);
      NoLaterBlockAt(su, i, st, n);
    }
  }

  // ---------------------------------------------------------------- text behind the current block is final

  ghost predicate SameAt(a: map<nat, nat>, b: map<nat, nat>, p: nat) {
    (p in a <==> p in b) && (p in a ==> a[p] == b[p])
  }

  /** A sync that merged commits of its own block leaves everything before it alone. */
  lemma LinkKeepsPrefix(su: Setup, before: Agreed, r: SyncRecord, p: nat)
    requires su.Valid() && Link(su, before, r) && Facts.ViewInBlock(su.cfg, r.block, r.view)
    requires p < su.cfg.BlockStart(r.block)
    ensures SameAt(before.shared, r.agreed.shared, p) && r.block <= r.agreed.block
  {
    SyncKeys(before.shared, r.view, r.scores, su.cfg.exp);
    assert p in ProposedPositions(r.view) ==> Facts.OfBlock(su.cfg, r.block, p);
    hide SyncShared, Stop.Read, Stop.Step, RoundOver, ProposedPositions, Facts.ViewInBlock;
  }

  lemma SameAtItself(a: map<nat, nat>, p: nat)
    ensures SameAt(a, a, p)
  {
  }

  lemma SameAtOn(a: map<nat, nat>, b: map<nat, nat>, c: map<nat, nat>, p: nat)
    requires SameAt(a, b, p) && SameAt(b, c, p)
    ensures SameAt(a, c, p)
  {
  }

  lemma FinalStep(su: Setup, st: Node, m: nat, p: nat)
    requires su.Valid() && Chained(su, st) && m < st.SyncSeq() && p < su.cfg.BlockStart(AgreedAt(su, st, m).block)
    requires Facts.ViewInBlock(su.cfg, st.log[m].block, st.log[m].view)
    ensures SameAt(AgreedAt(su, st, m).shared, AgreedAt(su, st, m + 1).shared, p)
    ensures AgreedAt(su, st, m).block <= AgreedAt(su, st, m + 1).block
  {
    hide Outcome, Facts.ViewInBlock, Config.BlockStart, SameAt;
    assert Link(su, AgreedAt(su, st, m), st.log[m]);
    LinkKeepsPrefix(su, AgreedAt(su, st, m), st.log[m], p);
  }

  /** Text behind the current block is final. */
  lemma {:induction false} Final(su: Setup, st: Node, n: nat, m: nat, p: nat)
    requires su.Valid() && Chained(su, st) && n <= m <= st.SyncSeq() && p < su.cfg.BlockStart(AgreedAt(su, st, n).block)
    requires forall k: nat :: n <= k < m ==> Facts.ViewInBlock(su.cfg, st.log[k].block, st.log[k].view)
    ensures SameAt(AgreedAt(su, st, n).shared, AgreedAt(su, st, m).shared, p)
    ensures AgreedAt(su, st, n).block <= AgreedAt(su, st, m).block
  {
    hide Chained, Facts.ViewInBlock, Config.BlockStart, SameAt, AgreedAt;
    SameAtItself(AgreedAt(su, st, n).shared, p);
    if n < m {
      Final(su, st, n, m - 1, p);
      StartsRise(su.cfg, AgreedAt(su, st, n).block, AgreedAt(su, st, m - 1).block);
      FinalStep(su, st, m - 1, p);
      SameAtOn(AgreedAt(su, st, n).shared, AgreedAt(su, st, m - 1).shared, AgreedAt(su, st, m).shared, p);
    }
  }

  lemma StartsRise(cfg: Config, a: nat, b: nat)
    requires a <= b
    ensures cfg.BlockStart(a) <= cfg.BlockStart(b)
  {
    MulMono(a, b, cfg.blockLength);
  }

  /** No step was taken under a boundary before sync m was finished, or all steps so far were contained. */
  ghost predicate Spotless(su: Setup, s: Swarm, i: NodeId, m: nat)
    requires s.parts.Keys == su.members && i in su.members && m <= s.Node(i).SyncSeq()
  {
    m == 0 || AgreedAt(su, s.Node(i), m - 1).det.stop.None? || AllClean(su, s)
  }

  lemma SpotlessView(su: Setup, s: Swarm, i: NodeId, m: nat, k: nat)
    requires su.Valid() && Coherent(su, s) && i in su.members && k < m <= s.Node(i).SyncSeq() && Spotless(su, s, i, m)
    ensures Facts.ViewInBlock(su.cfg, s.Node(i).log[k].block, s.Node(i).log[k].view)
  {
    hide NodeOk, Witnessed, Chained, Facts.ViewInBlock, AllClean, AgreedAt;
    if AllClean(su, s) {
      CleanView(su, s, i, k);
    } else {
      PartOf(su, s, i);
      ChainOf(su, i, s.Node(i));
      if AgreedAt(su, s.Node(i), k).det.stop.Some? {
        StopStays(su, s.Node(i), k, m - 1);
      }
      UnfrozenView(su, s, i, k);
    }
  }

  /** The prompt is as it was, and of every block that was left behind so is the text it had then. */
  ghost predicate KeepsText(su: Setup, st: Node) {
    && (forall p: nat :: p < |su.prompt| ==> p in st.shared && st.shared[p] == su.prompt[p])
    && forall n: nat, p: nat :: n <= st.SyncSeq() && p < su.cfg.BlockStart(AgreedAt(su, st, n).block) ==>
         SameAt(AgreedAt(su, st, n).shared, st.shared, p)
  }

  /** So it is for a node, under any barrier outcome, whose syncs merged commits of their own blocks. */
  lemma TidyText(su: Setup, st: Node)
    requires su.Valid() && Chained(su, st) && Facts.Tidy(su.cfg, st)
    ensures KeepsText(su, st)
  {
    hide Chained, Facts.ViewInBlock, Config.BlockStart, SameAt, AgreedAt;
    NowAgreed(su, st);
    forall n: nat, p: nat | n <= st.SyncSeq() && p < su.cfg.BlockStart(AgreedAt(su, st, n).block)
      ensures SameAt(AgreedAt(su, st, n).shared, st.shared, p)
    {
      Final(su, st, n, st.SyncSeq(), p);
    }
    forall p: nat | p < |su.prompt|
      ensures p in st.shared && st.shared[p] == su.prompt[p]
    {
      PromptAt(su, st, p);
      PromptSame(su, st, p);
    }
  }

  lemma NodeKeepsText(su: Setup, i: NodeId, path: seq<Node>)
    requires su.Valid() && path != [] && IsNodeRun(su.cfg, i, su.prompt, path)
    ensures Facts.Tidy(su.cfg, path[|path| - 1]) ==> KeepsText(su, path[|path| - 1])
  {
    hide IsNodeRun, Facts.Tidy, KeepsText, NodeOk;
    Safety.RunInOrder(su, i, path, |path| - 1);
    ChainOf(su, i, path[|path| - 1]);
    if Facts.Tidy(su.cfg, path[|path| - 1]) {
      TidyText(su, path[|path| - 1]);
    }
  }

  lemma TextKept(su: Setup, s: Swarm, i: NodeId)
    requires su.Valid() && Coherent(su, s) && i in su.members && Spotless(su, s, i, s.Node(i).SyncSeq())
    ensures KeepsText(su, s.Node(i))
  {
    hide NodeOk, Witnessed, Chained, Facts.ViewInBlock, Spotless, KeepsText;
    var st := s.Node(i);
    PartOf(su, s, i);
    ChainOf(su, i, st);
    forall k: nat | k < st.SyncSeq()
      ensures Facts.ViewInBlock(su.cfg, st.log[k].block, st.log[k].view)
    {
      SpotlessView(su, s, i, st.SyncSeq(), k);
    }
    TidyText(su, st);
  }

  lemma NowAgreed(su: Setup, st: Node)
    requires su.Valid() && Chained(su, st)
    ensures AgreedAt(su, st, st.SyncSeq()).shared == st.shared
  {
    hide Link;
  }

  lemma PromptSame(su: Setup, st: Node, p: nat)
    requires su.Valid() && p < |su.prompt| && SameAt(AgreedAt(su, st, 0).shared, st.shared, p)
    ensures p in st.shared && st.shared[p] == su.prompt[p]
  {
  }

  lemma PromptAt(su: Setup, st: Node, p: nat)
    requires su.Valid() && p < |su.prompt|
    ensures p < su.cfg.BlockStart(AgreedAt(su, st, 0).block)
    ensures p in AgreedAt(su, st, 0).shared && AgreedAt(su, st, 0).shared[p] == su.prompt[p]
  {
  }

  /** In every state of every run: as long as no step was taken under a boundary, and in contained rounds to their
      end, every participant holds the prompt as it was, and the text of every block behind the current one as it
      was left. */
  lemma RunKeepsText(su: Setup, trace: seq<Swarm>, actions: seq<Action>, k: nat, i: NodeId)
    requires su.Valid() && IsRun(su, trace, actions) && k < |trace| && i in su.members
    ensures trace[k].parts.Keys == su.members
    ensures Spotless(su, trace[k], i, trace[k].Node(i).SyncSeq()) ==> KeepsText(su, trace[k].Node(i))
  {
    hide Coherent, IsRun, Spotless, KeepsText;
    RunCoheres(su, trace, actions, k);
    if Spotless(su, trace[k], i, trace[k].Node(i).SyncSeq()) {
      TextKept(su, trace[k], i);
    }
  }

  // ---------------------------------------------------------------- when a freeze is harmless

  lemma FreezeOf(su: Setup, i: NodeId, st: Node)
    requires su.Valid() && NodeOk(su, i, st)
    ensures Freeze.FreezeOk(su.cfg, st) && Shape(su.cfg, st) && Counting(su.cfg, st) && st.id == i
  {
    hide Freeze.FreezeOk, Shape, Counting, Chained;
  }

  lemma MergesBelow(su: Setup, s: Swarm, i: NodeId, n: nat, f: nat, j: NodeId, p: nat)
    requires su.Valid() && Coherent(su, s) && i in su.members && n < s.Node(i).SyncSeq()
    requires Facts.DetBefore(s.Node(i).log, n).stop == Some(f)
    requires j in s.Node(i).log[n].view && p in s.Node(i).log[n].view[j]
    requires forall j :: j in su.members && n <= s.Node(j).SyncSeq() ==> Freeze.CommitsBelow(su.cfg, s.Node(j), n)
    ensures Facts.OfBlock(su.cfg, s.Node(i).log[n].block, p) && p < f
  {
    var a := s.Node(i);
    hide Facts.OfBlock, Disputes, ScoresFrom, Outcome, Invariant.Inv, CommitOf, Facts.DetBefore;
    assert Witnessed(su, s, a) && RecordFrom(su, s, n, a.log[n]) && j in su.members;
    var b := s.Node(j);
    assert HasCommit(b, n) && a.log[n].view[j] == CommitOf(b, n);
    SameHistory(su, s, i, j, n);
    assert NodeOk(su, i, a) && NodeOk(su, j, b);
    DetAgreed(su, a, n);
    DetAgreed(su, b, n);
    assert Link(su, AgreedAt(su, a, n), a.log[n]);
    assert Freeze.KeysBelow(su.cfg, Freeze.BlockAt(b, n), f, CommitOf(b, n));
    assert Freeze.BlockAt(b, n) == a.log[n].block;
  }

  lemma MergedBelowAt(su: Setup, s: Swarm, i: NodeId, n: nat)
    requires su.Valid() && Coherent(su, s) && i in su.members && n < s.Node(i).SyncSeq()
    requires forall j :: j in su.members && n <= s.Node(j).SyncSeq() ==> Freeze.CommitsBelow(su.cfg, s.Node(j), n)
    ensures Freeze.BelowAt(su.cfg, s.Node(i).log, n)
  {
    hide NodeOk, Witnessed, Freeze.CommitsBelow, Facts.OfBlock, Facts.ViewInBlock, AgreedAt;
    var log := s.Node(i).log;
    DetAgreed(su, s.Node(i), n);
    match Facts.DetBefore(log, n).stop {
      case None => UnfrozenView(su, s, i, n);
      case Some(f) =>
        forall p: nat | p in ProposedPositions(log[n].view)
          ensures Facts.OfBlock(su.cfg, log[n].block, p) && p < f
        {
          var j :| j in log[n].view && p in log[n].view[j];
          MergesBelow(su, s, i, n, f, j, p);
        }
    }
  }

  /** When everybody's steps were contained, every sync merged commits of its block below the boundary. */
  lemma CleanMerges(su: Setup, s: Swarm, i: NodeId)
    requires su.Valid() && Coherent(su, s) && i in su.members && AllClean(su, s)
    ensures Freeze.MergedBelow(su.cfg, s.Node(i).log, s.Node(i).SyncSeq())
  {
    hide Freeze.CommitsBelow, Freeze.BelowAt, NodeOk, Witnessed, Freeze.Overlays, Freeze.Anchored,
         Freeze.QuietBelow, Freeze.GapStays;
    forall n: nat | n < s.Node(i).SyncSeq()
      ensures Freeze.BelowAt(su.cfg, s.Node(i).log, n)
    {
      forall j | j in su.members && n <= s.Node(j).SyncSeq()
        ensures Freeze.CommitsBelow(su.cfg, s.Node(j), n)
      {
        PartOf(su, s, j);
        FreezeOf(su, j, s.Node(j));
      }
      MergedBelowAt(su, s, i, n);
    }
  }

  ghost predicate AllHarmless(su: Setup, s: Swarm)
    requires s.parts.Keys == su.members
  {
    forall i :: i in su.members ==> Freeze.Harmless(su.cfg, s.Node(i).log)
  }

  lemma {:induction false} HarmlessQuiet(su: Setup, s: Swarm, n: nat)
    requires su.Valid() && Coherent(su, s) && AllHarmless(su, s)
    ensures forall i :: i in su.members && n <= s.Node(i).SyncSeq() ==> Freeze.Quiet(su.cfg, s.Node(i).log, n)
  {
    hide Freeze.Leaves, Freeze.BelowAt, Freeze.CommitsBelow, NodeOk, Witnessed, Freeze.Overlays,
         Freeze.Anchored, Freeze.CleanBelow, Freeze.GapStays;
    if n > 0 {
      HarmlessQuiet(su, s, n - 1);
      forall i | i in su.members && n <= s.Node(i).SyncSeq()
        ensures Freeze.Quiet(su.cfg, s.Node(i).log, n)
      {
        forall j | j in su.members && n - 1 <= s.Node(j).SyncSeq()
          ensures Freeze.CommitsBelow(su.cfg, s.Node(j), n - 1)
        {
          PartOf(su, s, j);
          FreezeOf(su, j, s.Node(j));
        }
        MergedBelowAt(su, s, i, n - 1);
      }
    }
  }

  /** A freeze that leaves no mask of its block at or beyond the boundary makes nobody's step stray, ever. */
  lemma HarmlessIsClean(su: Setup, s: Swarm)
    requires su.Valid() && Coherent(su, s) && AllHarmless(su, s)
    ensures AllClean(su, s)
  {
    hide NodeOk, Witnessed, AllHarmless, Freeze.Quiet, Freeze.Overlays, Freeze.Anchored, Freeze.CleanBelow,
         Freeze.GapStays, Freeze.CommitsBelow;
    forall i | i in su.members
      ensures s.Node(i).clean
    {
      PartOf(su, s, i);
      FreezeOf(su, i, s.Node(i));
      HarmlessQuiet(su, s, s.Node(i).SyncSeq());
    }
  }

  /** And one that leaves such a mask makes somebody's step stray before anybody is done. */
  lemma CleanIsHarmless(su: Setup, s: Swarm, i: NodeId)
    requires su.Valid() && Coherent(su, s) && i in su.members && AllClean(su, s) && s.Node(i).phase.Done?
    ensures Freeze.Harmless(su.cfg, s.Node(i).log)
  {
    hide NodeOk, Witnessed, Freeze.Harmless, Freeze.Overlays, Freeze.Anchored, Freeze.CleanBelow,
         Freeze.QuietBelow, Freeze.MergedBelow;
    PartOf(su, s, i);
    FreezeOf(su, i, s.Node(i));
    CleanMerges(su, s, i);
  }

  /** The exact condition, in every state of every run: a round in which no freeze leaves a mask of its block at or
      beyond the boundary has contained steps only; and once somebody is done that is so only if none did. The
      condition can be read off the shared state at the sync that confirms the boundary. */
  lemma FreezeCondition(su: Setup, trace: seq<Swarm>, actions: seq<Action>, k: nat)
    requires su.Valid() && IsRun(su, trace, actions) && k < |trace|
    ensures trace[k].parts.Keys == su.members
    ensures AllHarmless(su, trace[k]) ==> AllClean(su, trace[k])
    ensures forall i :: i in su.members && trace[k].Node(i).phase.Done? && AllClean(su, trace[k]) ==>
              Freeze.Harmless(su.cfg, trace[k].Node(i).log)
    ensures (forall i :: i in su.members ==> trace[k].Node(i).phase.Done?) ==>
              (AllClean(su, trace[k]) <==> AllHarmless(su, trace[k]))
  {
    hide Coherent, IsRun, AllClean, Freeze.Harmless;
    RunCoheres(su, trace, actions, k);
    if AllHarmless(su, trace[k]) {
      HarmlessIsClean(su, trace[k]);
    }
    forall i | i in su.members && trace[k].Node(i).phase.Done? && AllClean(su, trace[k])
      ensures Freeze.Harmless(su.cfg, trace[k].Node(i).log)
    {
      CleanIsHarmless(su, trace[k], i);
    }
  }

  /** A freeze that left such a mask really endangers the rest: in any state of any run in which everybody's steps
      have been contained so far, a participant before the last step of its block has a next move that takes any
      position it likes which is not a candidate, be it of the prompt. */
  lemma HarmfulMayStray(su: Setup, trace: seq<Swarm>, actions: seq<Action>, k: nat, i: NodeId, fwd: Forward, q: nat)
    returns (a: Action, s': Swarm)
    requires su.Valid() && IsRun(su, trace, actions) && k < |trace| && i in su.members && i in trace[k].parts
    requires forall j :: j in su.members && j in trace[k].parts ==> trace[k].Node(j).clean
    requires var st := trace[k].Node(i);
             && st.phase.Stepping? && st.step + 1 == su.cfg.stepsPerBlock && !Freeze.Harmless(su.cfg, st.log)
             && Predicts(su.cfg, fwd) && q < |st.x| && q !in Input(su.cfg, st, fwd).Candidates()
    ensures Step(su, trace[k], a, s') && a.Work? && a.i == i
    ensures q in s'.Node(i).pending && s'.Node(i).pending[q].token == fwd.x0(q)
  {
    hide IsRun, NodeOk, Witnessed, Freeze.Harmless, Freeze.Overlays, Freeze.Anchored, Freeze.CleanBelow,
         Freeze.QuietBelow, Freeze.FrozenGap, LocalWork, Freeze.MergedBelow, StepInput.Candidates, Predicts;
    RunCoheres(su, trace, actions, k);
    var s := trace[k];
    PartOf(su, s, i);
    FreezeOf(su, i, s.Node(i));
    CleanMerges(su, s, i);
    var p: nat :| Freeze.FrozenGap(su.cfg, s.Node(i), p);
    var transfer, remask, st' := Freeze.GapMayTake(su.cfg, s.Node(i), fwd, p, q);
    a := Work(i, fwd, transfer, remask);
    s' := With(s, i, s.parts[i].(node := st'), {});
  }

  lemma LeavesAgreed(su: Setup, s: Swarm, i: NodeId, j: NodeId, m: nat)
    requires su.Valid() && Coherent(su, s) && i in su.members && j in su.members
    requires m < s.Node(i).SyncSeq() && m < s.Node(j).SyncSeq()
    ensures Freeze.Leaves(su.cfg, s.Node(i).log, m) <==> Freeze.Leaves(su.cfg, s.Node(j).log, m)
  {
    hide NodeOk, Witnessed, Freeze.NothingLeft, Facts.DetBefore;
    SameHistory(su, s, i, j, m);
    DetAgreed(su, s.Node(i), m);
    DetAgreed(su, s.Node(j), m);
  }

  /** For a round that is done it is enough to ask one participant. */
  lemma DoneCondition(su: Setup, s: Swarm, i: NodeId)
    requires su.Valid() && Coherent(su, s) && i in su.members && s.Node(i).phase.Done?
    ensures AllClean(su, s) <==> Freeze.Harmless(su.cfg, s.Node(i).log)
    ensures Freeze.Harmless(su.cfg, s.Node(i).log) ==> KeepsText(su, s.Node(i))
  {
    hide NodeOk, Witnessed, Freeze.Leaves, AllClean, KeepsText;
    if AllClean(su, s) {
      CleanIsHarmless(su, s, i);
    }
    if Freeze.Harmless(su.cfg, s.Node(i).log) {
      forall j | j in su.members
        ensures Freeze.Harmless(su.cfg, s.Node(j).log)
      {
        DoneIsLongest(su, s, i, j);
        forall m: nat | m < s.Node(j).SyncSeq()
          ensures !Freeze.Leaves(su.cfg, s.Node(j).log, m)
        {
          LeavesAgreed(su, s, i, j, m);
        }
      }
      HarmlessIsClean(su, s);
      TextKept(su, s, i);
    }
  }

  lemma DoneIsLongest(su: Setup, s: Swarm, i: NodeId, j: NodeId)
    requires su.Valid() && Coherent(su, s) && i in su.members && j in su.members && s.Node(i).phase.Done?
    ensures s.Node(j).SyncSeq() <= s.Node(i).SyncSeq()
  {
    hide NodeOk, Witnessed;
    if s.Node(j).phase.Done? {
      SameDone(su, s, j, i);
    } else {
      DoneIsComplete(su, s, j, i);
    }
  }

  // ---------------------------------------------------------------- the current block

  lemma LastDet(su: Setup, st: Node)
    requires su.Valid() && Chained(su, st)
    ensures if st.log == [] then st.det == Stop.FRESH else st.det == st.log[|st.log| - 1].agreed.det
  {
    hide Link;
  }

  lemma BlockIsNew(cfg: Config, st: Node)
    requires cfg.Valid() && Counting(cfg, st) && st.step == 0 && st.log != []
    ensures st.log[|st.log| - 1].block != st.block
  {
    hide SyncsPerBlock, Config.SyncDue;
    assert Recorded(cfg, st.log[|st.log| - 1], |st.log| - 1);
    DivModIs(0, cfg.syncEvery, 0, 0);
  }

  /** A block begun under no boundary: nobody goes on to another block once there is one. */
  lemma UnfrozenStart(su: Setup, s: Swarm, i: NodeId)
    requires su.Valid() && Coherent(su, s) && i in su.members && s.Node(i).step == 0 && s.Node(i).window == []
    requires !s.Node(i).phase.Done?
    ensures s.Node(i).det.stop.None?
  {
    hide NodeOk, Witnessed, Counting, Chained, Facts.TidyUntilFrozen, Config.BlockStart, Freeze.FreezeOk;
    var st := s.Node(i);
    PartOf(su, s, i);
    ChainOf(su, i, st);
    FreezeOf(su, i, st);
    LastDet(su, st);
    if st.det.stop.Some? {
      TidyUntilBoundary(su, s, i);
      NoLaterBlockAt(su, i, st, st.SyncSeq() - 1);
      BlockIsNew(su.cfg, st);
    }
  }

  /** Right after a sync a participant's block is the shared state with masks in the gaps, freeze or not. */
  lemma BlockFollows(su: Setup, s: Swarm, i: NodeId)
    requires su.Valid() && Coherent(su, s) && i in su.members && s.Node(i).window == [] && !s.Node(i).phase.Done?
    ensures Freeze.BlockMirrors(su.cfg, s.Node(i))
  {
    hide NodeOk, Witnessed, Facts.Tidy, Facts.SharedOr, Config.BlockStart, Counting, Freeze.CleanBelow,
         Freeze.QuietBelow, Freeze.GapStays, Freeze.Anchored;
    var st := s.Node(i);
    PartOf(su, s, i);
    FreezeOf(su, i, st);
    if st.step == 0 {
      UnfrozenStart(su, s, i);
      UnfrozenIsTidy(su, s, i);
      MirrorOf(su, i, st);
      BlockStarts(su.cfg, st.block);
    }
  }

  lemma MirrorOf(su: Setup, i: NodeId, st: Node)
    requires su.Valid() && NodeOk(su, i, st) && st.clean && Facts.Tidy(su.cfg, st) && st.window == []
    ensures Facts.Mirrors(su.cfg, st)
  {
    hide Facts.Tidy, Facts.Mirrors, Facts.Windowed, Facts.Retained, Facts.Covering, Facts.Aging, Facts.Bounded,
         Facts.Checked, Shape, Counting, Chained, Facts.OwnInBlock, Facts.Filled, Facts.OwnUntilFrozen, Facts.Ranged,
         Freeze.FreezeOk;
  }

  /** What the next step of a block has before it: the tokens of the block, hence the masks and the quota. */
  ghost predicate SameBlock(cfg: Config, a: Node, b: Node) {
    && a.block == b.block && a.step == b.step
    && forall p: nat :: Facts.OfBlock(cfg, a.block, p) ==> p < |a.x| && p < |b.x| && a.x[p] == b.x[p]
  }

  /** So participants with equally many syncs behind them stand before the same block, whatever a freeze has done to
      the rest of their sequences. */
  lemma BlocksAgree(su: Setup, s: Swarm, i: NodeId, j: NodeId)
    requires su.Valid() && Coherent(su, s) && i in su.members && j in su.members
    requires s.Node(i).SyncSeq() == s.Node(j).SyncSeq() && s.Node(i).window == [] && s.Node(j).window == []
    requires !s.Node(i).phase.Done?
    ensures SameBlock(su.cfg, s.Node(i), s.Node(j))
  {
    hide NodeOk, Witnessed, Facts.OfBlock, SyncsPerBlock, Config.SyncDue, Freeze.FreezeOk;
    SameState(su, s, i, j);
    BlockFollows(su, s, i);
    BlockFollows(su, s, j);
    PartOf(su, s, i);
    PartOf(su, s, j);
    FreezeOf(su, i, s.Node(i));
    FreezeOf(su, j, s.Node(j));
    SameStepNow(su.cfg, s.Node(i), s.Node(j));
  }

  lemma SameStepNow(cfg: Config, a: Node, b: Node)
    requires cfg.Valid() && Counting(cfg, a) && Counting(cfg, b) && a.window == [] && b.window == []
    requires a.SyncSeq() == b.SyncSeq() && a.block == b.block
    ensures a.step == b.step
  {
    hide SyncsPerBlock, Recorded;
    var e := cfg.syncEvery;
    var q := a.step / e;
    assert q == b.step / e && a.step == q * e + a.step % e && b.step == q * e + b.step % e;
  }

  /** And take the same number of positions of it, whatever their models predict. */
  lemma SameQuota(cfg: Config, a: Node, b: Node, fwd: Forward, fwd': Forward)
    requires cfg.Valid() && SameBlock(cfg, a, b) && a.step < cfg.stepsPerBlock
    ensures Input(cfg, a, fwd).Masked() == Input(cfg, b, fwd').Masked()
    ensures Input(cfg, a, fwd).Take() == Input(cfg, b, fwd').Take()
  {
    var s, t := Input(cfg, a, fwd), Input(cfg, b, fwd');
    assert forall p: nat :: p in s.Masked() <==> p in t.Masked();
  }

  /** When all participants are done, they return the same shared state. Nothing below the boundary is
      missing from it; if the round never froze, nothing of the generation is. And unless a freeze left a
      mask of its block behind, the prompt is as it was and all text as its block left it. */
  lemma SameResult(su: Setup, s: Swarm, i: NodeId, j: NodeId)
    requires su.Valid() && Coherent(su, s) && i in su.members && j in su.members
    requires s.Node(i).phase.Done? && s.Node(j).phase.Done?
    ensures s.Node(i).shared == s.Node(j).shared && s.Node(i).det.stop == s.Node(j).det.stop
    ensures forall p: nat :: p < su.cfg.BlockStart(su.cfg.numBlocks) && Facts.BelowStop(s.Node(i), p) ==>
              p in s.Node(i).shared
    ensures s.Node(i).det.stop.None? ==> s.Node(i).SyncSeq() == su.cfg.numBlocks * SyncsPerBlock(su.cfg)
    ensures AllClean(su, s) <==> Freeze.Harmless(su.cfg, s.Node(i).log)
    ensures Freeze.Harmless(su.cfg, s.Node(i).log) ==> KeepsText(su, s.Node(i))
  {
    DoneCondition(su, s, i);
    hide Freeze.Harmless, AllClean, KeepsText;
    SameDone(su, s, i, j);
    SameDone(su, s, j, i);
    SameState(su, s, i, j);
    hide Witnessed, Chained, Facts.Windowed, Facts.Retained, Facts.Aging, Facts.Mirroring, Facts.Checked,
         Facts.OwnInBlock, SyncsPerBlock, Facts.Bounded, Facts.OwnUntilFrozen, Facts.Ranged, Facts.Filled,
         Facts.Covering, Counting, Shape, Freeze.FreezeOk;
    assert NodeOk(su, i, s.Node(i));
    Facts.FinishedRound(su.cfg, s.Node(i));
    Facts.FinishedFilled(su.cfg, s.Node(i));
  }

  lemma SameDone(su: Setup, s: Swarm, i: NodeId, j: NodeId)
    requires su.Valid() && Coherent(su, s) && i in su.members && j in su.members
    requires s.Node(i).phase.Done? && s.Node(j).phase.Done?
    ensures s.Node(i).SyncSeq() <= s.Node(j).SyncSeq()
  {
    var a, b := s.Node(i), s.Node(j);
    PartOf(su, s, i);
    PartOf(su, s, j);
    hide Invariant.Inv, Witnessed, Coherent, Link;
    if |b.log| <= |a.log| {
      SameHistory(su, s, i, j, |b.log|);
      NotDoneBefore(su, a, |b.log|);
    }
  }

  // ---------------------------------------------------------------- in every state of every run

  /** The swarm at any moment of any run: nobody is two syncs ahead of anybody; those with equally many
      syncs behind them hold the same shared state and detector, and right after a sync the same sequence,
      until there is a boundary and in contained rounds after it, and in any case the same block; and all
      who are done return the same. */
  lemma RunAgrees(su: Setup, trace: seq<Swarm>, actions: seq<Action>, k: nat, i: NodeId, j: NodeId)
    requires su.Valid() && IsRun(su, trace, actions) && k < |trace| && i in su.members && j in su.members
    ensures trace[k].parts.Keys == su.members
    ensures var a, b := trace[k].Node(i), trace[k].Node(j);
            && a.SyncSeq() <= b.SyncSeq() + 1
            && (a.SyncSeq() == b.SyncSeq() ==> a.shared == b.shared && a.det == b.det && a.block == b.block)
            && (a.SyncSeq() == b.SyncSeq() && a.window == [] && b.window == [] ==>
                  && (a.det.stop.None? || AllClean(su, trace[k]) ==> a.x == b.x)
                  && (!a.phase.Done? ==> SameBlock(su.cfg, a, b)))
            && (a.phase.Done? && b.phase.Done? ==> a.shared == b.shared && a.det.stop == b.det.stop)
  {
    hide Coherent, IsRun, AllClean, SameBlock, KeepsText, Freeze.Harmless;
    RunCoheres(su, trace, actions, k);
    var s := trace[k];
    Skew(su, s, i, j);
    if s.Node(i).SyncSeq() == s.Node(j).SyncSeq() {
      SameState(su, s, i, j);
      if s.Node(i).window == [] && s.Node(j).window == [] {
        if s.Node(i).det.stop.None? || AllClean(su, s) {
          SameSequence(su, s, i, j);
        }
        if !s.Node(i).phase.Done? {
          BlocksAgree(su, s, i, j);
        }
      }
    }
    if s.Node(i).phase.Done? && s.Node(j).phase.Done? {
      SameResult(su, s, i, j);
    }
  }

  /** At any moment of any run, whatever participant i waits for, participant j has said it or is still on
      its way to saying it: it has not been passed over and will not be skipped. */
  lemma NoVainWait(su: Setup, trace: seq<Swarm>, actions: seq<Action>, k: nat, i: NodeId, j: NodeId)
    requires su.Valid() && IsRun(su, trace, actions) && k < |trace| && i in su.members && j in su.members
    ensures trace[k].parts.Keys == su.members
    ensures var a, b := trace[k].Node(i), trace[k].Node(j);
            && (a.phase.AwaitCommits? ==>
                  HasCommit(b, a.SyncSeq()) || (!b.phase.Done? && a.SyncSeq() - 1 <= b.SyncSeq() <= a.SyncSeq()))
            && (a.phase.AwaitScores? ==>
                  HasScore(b, a.SyncSeq()) || (b.phase.AwaitCommits? && b.SyncSeq() == a.SyncSeq()))
  {
    hide Coherent, IsRun, HasCommit, HasScore;
    RunCoheres(su, trace, actions, k);
    if trace[k].Node(i).phase.AwaitCommits? {
      CommitComes(su, trace[k], i, j);
    } else if trace[k].Node(i).phase.AwaitScores? {
      ScoreComes(su, trace[k], i, j);
    }
  }
}
