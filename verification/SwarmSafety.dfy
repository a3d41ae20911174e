/** The invariant of the swarm holds in every reachable state: every move of every participant keeps it, and
    so does every delivery. */
module SwarmSafety {
  import opened Prelude
  import opened Consensus
  import opened LocalStep
  import opened NodeMachine
  import opened NodeRuns
  import opened Protocol
  import opened Inbox
  import opened Exchange
  import opened SwarmSystem
  import Invariant = NodeInvariant

  // ---------------------------------------------------------------- what does not change

  lemma SteadySame(su: Setup, st: Node)
    ensures Steady(su, st, st)
  {
  }

  lemma GenuineStable(su: Setup, a: Node, b: Node, body: Body)
    requires Steady(su, a, b) && Genuine(su, a, body)
    ensures Genuine(su, b, body)
  {
    hide HasCommit, CommitOf, HasScore, ReportOf, IsFlattening, EncodeScores;
  }

  ghost predicate AllSteady(su: Setup, s: Swarm, s': Swarm) {
    && s.parts.Keys == s'.parts.Keys == su.members
    && forall j :: j in su.members ==> Steady(su, s.Node(j), s'.Node(j))
  }

  lemma RecordStable(su: Setup, s: Swarm, s': Swarm, n: nat, r: SyncRecord)
    requires AllSteady(su, s, s') && RecordFrom(su, s, n, r)
    ensures RecordFrom(su, s', n, r)
  {
    ViewStable(su, s, s', n, r.view);
    hide HasCommit, CommitOf, HasScore, ReportOf, ViewFrom, Disputes;
  }

  lemma ViewStable(su: Setup, s: Swarm, s': Swarm, n: nat, view: Commits)
    requires AllSteady(su, s, s') && ViewFrom(su, s, n, view)
    ensures ViewFrom(su, s', n, view)
  {
    hide HasCommit, CommitOf, HasScore, ReportOf;
  }

  lemma WitnessedStable(su: Setup, s: Swarm, s': Swarm, st: Node)
    requires AllSteady(su, s, s') && Witnessed(su, s, st)
    ensures Witnessed(su, s', st)
  {
    hide RecordFrom, ViewFrom, Steady, Disputes;
    forall n: nat | 0 <= n < |st.log|
      ensures RecordFrom(su, s', n, st.log[n])
    {
      RecordStable(su, s, s', n, st.log[n]);
    }
    if st.phase.AwaitScores? {
      ViewStable(su, s, s', st.SyncSeq(), st.phase.view);
    }
  }

  lemma SaidStable(su: Setup, soup: set<Envelope>, soup': set<Envelope>, st: Node)
    requires Said(su, soup, st) && soup <= soup'
    ensures Said(su, soup', st)
  {
    hide HasCommit, HasScore;
    forall key | Published(soup, st.id, key)
      ensures Published(soup', st.id, key)
    {
      var e :| e in soup && e.nodeId == st.id && KeyOf(e.body) == Some(key);
      assert e in soup';
    }
  }

  /** One participant moves: if its own part is in order, so is the swarm. */
  lemma OneMoves(su: Setup, s: Swarm, i: NodeId, part: Participant, sent: set<Envelope>, s': Swarm)
    requires su.Valid() && SwarmInv(su, s) && i in su.members && s' == With(s, i, part, sent)
    requires NodeOk(su, i, part.node) && Steady(su, s.Node(i), part.node)
    requires Witnessed(su, s', part.node)
    requires StoreOk(s'.soup, part.store) && Said(su, s'.soup, part.node)
    requires forall e :: e in sent ==> e.nodeId == i && Genuine(su, part.node, e.body)
    ensures SwarmInv(su, s')
  {
    hide NodeOk, Steady, Witnessed, StoreOk, Said, Genuine;
    forall j | j in su.members
      ensures Steady(su, s.Node(j), s'.Node(j))
    {
      if j != i {
        SteadySame(su, s.Node(j));
      }
    }
    forall j | j in su.members && j != i
      ensures Witnessed(su, s', s'.Node(j)) && StoreOk(s'.soup, s'.parts[j].store) && Said(su, s'.soup, s'.Node(j))
    {
      WitnessedStable(su, s, s', s.Node(j));
      StoreStable(s.soup, s'.soup, s.parts[j].store);
      SaidStable(su, s.soup, s'.soup, s.Node(j));
    }
    forall e | e in s'.soup
      ensures e.nodeId in su.members && Genuine(su, s'.Node(e.nodeId), e.body)
    {
      if e !in sent {
        GenuineStable(su, s.Node(e.nodeId), s'.Node(e.nodeId), e.body);
      }
    }
  }

  lemma StoreStable(soup: set<Envelope>, soup': set<Envelope>, store: Store)
    requires StoreOk(soup, store) && soup <= soup'
    ensures StoreOk(soup', store)
  {
  }

  // ---------------------------------------------------------------- what a barrier reads

  lemma CollectedGenuine(su: Setup, s: Swarm, i: NodeId, key: Key, j: NodeId)
    requires su.Valid() && SwarmInv(su, s) && i in su.members
    requires j in Collected(su, s.parts[i], key)
    ensures j in su.members && Genuine(su, s.Node(j), Collected(su, s.parts[i], key)[j])
    ensures KeyOf(Collected(su, s.parts[i], key)[j]) == Some(key)
  {
    hide NodeOk, Witnessed, Said, Genuine;
    var store := s.parts[i].store;
    assert key in store && j in store[key];
    assert Envelope(j, store[key][j]) in s.soup;
  }

  /** A completed COMMIT barrier gives the commits every participant made for this sync. */
  lemma CommitsRead(su: Setup, s: Swarm, i: NodeId, view: Commits)
    requires su.Valid() && SwarmInv(su, s) && i in su.members
    requires s.Node(i).phase.AwaitCommits? && ReadsCommits(su, s.parts[i], view)
    ensures ViewFrom(su, s, s.Node(i).SyncSeq(), view)
  {
    hide Witnessed, Said, Invariant.Inv, Chained;
    var st := s.Node(i);
    assert st.id == i;
    forall j | j in su.members
      ensures HasCommit(s.Node(j), st.SyncSeq()) && view[j] == CommitOf(s.Node(j), st.SyncSeq())
    {
      if j != i {
        var got := Collected(su, s.parts[i], CommitKey(su, st));
        assert j in got;
        CollectedGenuine(su, s, i, CommitKey(su, st), j);
        CommitRoundTrip(CommitOf(s.Node(j), st.SyncSeq()), got[j].positions, got[j].tokens, got[j].confidences);
      }
    }
  }

  lemma ScoresRead(su: Setup, s: Swarm, i: NodeId, scores: Scores)
    requires su.Valid() && SwarmInv(su, s) && i in su.members
    requires s.Node(i).phase.AwaitScores? && ReadsScores(su, s.parts[i], s.Node(i).phase.view, scores)
    ensures ScoresFrom(su, s, s.Node(i).SyncSeq(), scores)
  {
    hide Witnessed, Said, Invariant.Inv, Chained, EncodeScores, DecodesScores, Disputes;
    var st := s.Node(i);
    assert st.id == i;
    forall j | j in su.members
      ensures HasScore(s.Node(j), st.SyncSeq()) && scores[j] == ReportOf(su, s.Node(j), st.SyncSeq())
    {
      if j != i {
        var got := Collected(su, s.parts[i], ScoreKey(su, st));
        assert j in got;
        CollectedGenuine(su, s, i, ScoreKey(su, st), j);
        ScoresRoundTrip(ReportOf(su, s.Node(j), st.SyncSeq()), scores[j]);
      }
    }
  }

  // ---------------------------------------------------------------- each action

  lemma LocalWorkStep(su: Setup, s: Swarm, a: Action, s': Swarm)
    requires su.Valid() && SwarmInv(su, s) && SwarmSystem.Step(su, s, a, s') && a.Work?
    ensures SwarmInv(su, s')
  {
    var st, st' := s.Node(a.i), s'.Node(a.i);
    Invariant.WorkKeepsInv(su.cfg, st, a.fwd, a.transfer, a.remask, st');
    WorkSteady(su, st, a.fwd, a.transfer, a.remask, st');
    MoveQuietly(su, s, a.i, s'.parts[a.i], s');
  }

  lemma WorkSays(su: Setup, st: Node, fwd: Forward, transfer: set<nat>, remask: set<nat>, st': Node)
    requires su.Valid() && LocalWork(su.cfg, st, fwd, transfer, remask, st')
    ensures Steady(su, st, st') && st'.log == st.log && !st'.phase.AwaitScores? && !st'.phase.AwaitCommits?
  {
    hide StepInput.IsRemask, StepInput.IsTransfer, StepInput.Contained, StepInput.NextX, StepInput.NextAge, Disputes;
  }

  lemma WorkSteady(su: Setup, st: Node, fwd: Forward, transfer: set<nat>, remask: set<nat>, st': Node)
    requires su.Valid() && LocalWork(su.cfg, st, fwd, transfer, remask, st') && Chained(su, st)
    ensures Steady(su, st, st') && Chained(su, st') && st'.log == st.log && !st'.phase.AwaitScores?
        && !st'.phase.AwaitCommits?
  {
    WorkSays(su, st, fwd, transfer, remask, st');
    hide StepInput.IsRemask, StepInput.IsTransfer, StepInput.Contained, StepInput.NextX, StepInput.NextAge, Disputes,
        Outcome, Link, Steady;
    assert forall n :: 0 <= n <= |st.log| ==> AgreedAt(su, st', n) == AgreedAt(su, st, n);
  }

  lemma AllSteadyAfter(su: Setup, s: Swarm, i: NodeId, part: Participant, sent: set<Envelope>, s': Swarm)
    requires s.parts.Keys == su.members && i in su.members && s' == With(s, i, part, sent)
    requires Steady(su, s.Node(i), part.node)
    ensures AllSteady(su, s, s')
  {
    hide Steady;
    forall j | j in su.members
      ensures Steady(su, s.Node(j), s'.Node(j))
    {
      SteadySame(su, s.Node(j));
    }
  }

  /** A move that says nothing new and finishes no sync. */
  lemma MoveQuietly(su: Setup, s: Swarm, i: NodeId, part: Participant, s': Swarm)
    requires su.Valid() && SwarmInv(su, s) && i in su.members && s' == With(s, i, part, {})
    requires NodeOk(su, i, part.node) && Steady(su, s.Node(i), part.node)
    requires part.node.log == s.Node(i).log && part.node.id == s.Node(i).id
    requires !part.node.phase.AwaitScores? && !part.node.phase.AwaitCommits? && part.store == s.parts[i].store
    ensures SwarmInv(su, s')
  {
    hide NodeOk, Witnessed, Said, Genuine, StoreOk, Steady;
    AllSteadyAfter(su, s, i, part, {}, s');
    WitnessedStable(su, s, s', s.Node(i));
    StillWitnessed(su, s', s.Node(i), part.node);
    StillSaid(su, s.soup, s.Node(i), part.node);
    assert s'.soup == s.soup;
    OneMoves(su, s, i, part, {}, s');
  }

  lemma StillWitnessed(su: Setup, s: Swarm, st: Node, st': Node)
    requires s.parts.Keys == su.members && Witnessed(su, s, st) && st'.log == st.log && !st'.phase.AwaitScores?
    ensures Witnessed(su, s, st')
  {
    hide RecordFrom, ViewFrom, Disputes;
  }

  lemma StillSaid(su: Setup, soup: set<Envelope>, st: Node, st': Node)
    requires Said(su, soup, st) && st'.log == st.log && st'.id == st.id
    requires !st'.phase.AwaitScores? && !st'.phase.AwaitCommits?
    ensures Said(su, soup, st')
  {
    hide Published, Disputes;
  }

  lemma FileOk(soup: set<Envelope>, store: Store, env: Envelope)
    requires StoreOk(soup, store) && env in soup
    ensures StoreOk(soup, File(store, env))
  {
    assert Envelope(env.nodeId, env.body) == env;
  }

  lemma DeliverStep(su: Setup, s: Swarm, a: Action, s': Swarm)
    requires su.Valid() && SwarmInv(su, s) && SwarmSystem.Step(su, s, a, s') && a.Deliver?
    ensures SwarmInv(su, s')
  {
    hide NodeOk, Witnessed, Said, Genuine, StoreOk, Steady, LocalWork, ReadsCommits, ReadsScores, Synced, File;
    var part := s.parts[a.i];
    var part' := part.(store := File(part.store, a.env));
    assert s' == With(s, a.i, part', {});
    SteadySame(su, part.node);
    FileOk(s.soup, part.store, a.env);
    AllSteadyAfter(su, s, a.i, part', {}, s');
    WitnessedStable(su, s, s', part.node);
    assert s'.soup == s.soup;
    OneMoves(su, s, a.i, part', {}, s');
  }

  lemma PublishStep(su: Setup, s: Swarm, a: Action, s': Swarm)
    requires su.Valid() && SwarmInv(su, s) && SwarmSystem.Step(su, s, a, s') && a.Publish?
    ensures SwarmInv(su, s')
  {
    hide Witnessed, Said, Genuine, StoreOk, Steady, LocalWork, ReadsCommits, ReadsScores, Synced, Invariant.Inv,
         Chained, IsFlattening;
    var part := s.parts[a.i];
    var st := part.node;
    var st' := st.(phase := AwaitCommits);
    var e := Envelope(a.i, Commit(su.roundId, st.SyncSeq(), a.positions, a.tokens, a.confidences));
    assert s' == With(s, a.i, part.(node := st'), {e});
    Invariant.WaitKeepsInv(su.cfg, st, AwaitCommits);
    PublishSteady(su, st, s.soup, e);
    AllSteadyAfter(su, s, a.i, part.(node := st'), {e}, s');
    WitnessedStable(su, s, s', st);
    StillWitnessed(su, s', st, st');
    StoreStable(s.soup, s'.soup, part.store);
    assert NodeOk(su, a.i, st');
    hide NodeOk;
    OneMoves(su, s, a.i, part.(node := st'), {e}, s');
  }

  lemma WaitChained(su: Setup, st: Node, phase: Phase)
    requires su.Valid() && Chained(su, st) && !st.phase.Done? && !phase.Done?
    ensures Chained(su, st.(phase := phase))
  {
    hide Link;
    var st' := st.(phase := phase);
    assert forall n :: 0 <= n <= |st.log| ==> AgreedAt(su, st', n) == AgreedAt(su, st, n);
  }

  lemma PublishSteady(su: Setup, st: Node, soup: set<Envelope>, e: Envelope)
    requires su.Valid() && Chained(su, st) && st.phase.Publishing? && Said(su, soup, st)
    requires e.nodeId == st.id && e.body.Commit? && e.body.roundId == su.roundId && e.body.syncSeq == st.SyncSeq()
    requires IsFlattening(st.pending, e.body.positions, e.body.tokens, e.body.confidences)
    ensures var st' := st.(phase := AwaitCommits);
            Steady(su, st, st') && Chained(su, st') && Said(su, soup + {e}, st') && Genuine(su, st', e.body)
  {
    hide Disputes, IsFlattening, Chained;
    WaitChained(su, st, AwaitCommits);
    SaidStable(su, soup, soup + {e}, st);
    assert Published(soup + {e}, st.id, Key(CommitKind, su.roundId, st.SyncSeq()));
    hide Published;
  }

  // ---------------------------------------------------------------- completing a sync

  /** The view a sync ends with, and how the node was waiting for it. */
  ghost predicate Completes(su: Setup, st: Node, view: Commits, scores: Scores) {
    && st.id in view && view[st.id] == st.pending
    && (if Disputes(view) == map[] then st.phase.AwaitCommits? && scores == map[]
        else
          && st.phase == AwaitScores(view) && st.id in scores
          && scores[st.id] == OwnReport(su.log, st.p, Disputes(view)))
  }

  lemma CompletesOwnView(su: Setup, st: Node, view: Commits, scores: Scores)
    requires Completes(su, st, view, scores)
    ensures OwnView(st, view, scores)
  {
    OwnReportFits(su.log, st.p, view);
    hide Disputes, OwnReport, ScoresFor;
  }

  /** One more outcome at the end of a chain. */
  lemma ChainGrows(su: Setup, st: Node, st': Node, r: SyncRecord)
    requires su.Valid() && Chained(su, st) && !st.phase.Done? && st'.log == st.log + [r]
    requires r.block == st.block && r.agreed == Outcome(su.cfg, st.shared, st.det, r.block, r.step, r.view, r.scores)
    requires st'.shared == r.agreed.shared && st'.det == r.agreed.det && st'.block == r.agreed.block
        && (st'.phase.Done? <==> r.agreed.done)
    ensures Chained(su, st')
  {
    hide Outcome;
    assert forall n :: 0 <= n <= |st.log| ==> AgreedAt(su, st', n) == AgreedAt(su, st, n);
    hide AgreedAt;
    forall n | 0 <= n < |st'.log|
      ensures Link(su, AgreedAt(su, st', n), st'.log[n])
    {
      assert n < |st.log| ==> Link(su, AgreedAt(su, st, n), st.log[n]);
    }
  }

  lemma SyncedChained(su: Setup, st: Node, view: Commits, scores: Scores)
    requires su.Valid() && Chained(su, st) && InSync(st)
    ensures Chained(su, Synced(su.cfg, st, view, scores))
  {
    hide Outcome, Synced, Chained;
    SyncedRecord(su.cfg, st, view, scores);
    var st' := Synced(su.cfg, st, view, scores);
    ChainGrows(su, st, st', st'.log[|st.log|]);
  }

  lemma SyncedSteady(su: Setup, st: Node, view: Commits, scores: Scores)
    requires su.Valid() && Completes(su, st, view, scores)
    ensures Steady(su, st, Synced(su.cfg, st, view, scores))
  {
    hide Outcome, Overlaid, OverlaidAge, Disputes, OwnReport;
    var st' := Synced(su.cfg, st, view, scores);
    assert forall n :: 0 <= n < |st.log| ==> st'.log[n] == st.log[n];
    assert st'.log[|st.log|].view == view && st'.log[|st.log|].scores == scores;
  }

  lemma SyncedSaid(su: Setup, soup: set<Envelope>, st: Node, view: Commits, scores: Scores)
    requires su.Valid() && Completes(su, st, view, scores) && Said(su, soup, st)
    ensures Said(su, soup, Synced(su.cfg, st, view, scores))
  {
    hide Outcome, Overlaid, OverlaidAge, Disputes, OwnReport, Published;
    var st' := Synced(su.cfg, st, view, scores);
    assert forall n :: 0 <= n < |st.log| ==> st'.log[n] == st.log[n];
    assert st'.log[|st.log|].view == view;
    forall n: nat | HasCommit(st', n)
      ensures HasCommit(st, n)
    {
    }
    forall n: nat | HasScore(st', n)
      ensures HasScore(st, n)
    {
    }
  }

  lemma SyncedWitnessed(su: Setup, s: Swarm, st: Node, view: Commits, scores: Scores)
    requires su.Valid() && s.parts.Keys == su.members && Witnessed(su, s, st)
    requires ViewFrom(su, s, st.SyncSeq(), view)
    requires if Disputes(view) == map[] then scores == map[] else ScoresFrom(su, s, st.SyncSeq(), scores)
    ensures Witnessed(su, s, Synced(su.cfg, st, view, scores))
  {
    hide Outcome, Overlaid, OverlaidAge, Disputes, ViewFrom, ScoresFrom;
    var st' := Synced(su.cfg, st, view, scores);
    assert forall n :: 0 <= n < |st.log| ==> st'.log[n] == st.log[n];
    assert st'.log[|st.log|].view == view && st'.log[|st.log|].scores == scores;
  }

  lemma PopOk(soup: set<Envelope>, store: Store, key: Key)
    requires StoreOk(soup, store)
    ensures StoreOk(soup, Pop(store, key))
  {
  }

  /** A participant that completes a sync keeps the swarm in order. */
  lemma CompleteSync(su: Setup, s: Swarm, i: NodeId, view: Commits, scores: Scores, key: Key, s': Swarm)
    requires su.Valid() && SwarmInv(su, s) && i in su.members
    requires Completes(su, s.Node(i), view, scores)
    requires ViewFrom(su, s, s.Node(i).SyncSeq(), view)
    requires if Disputes(view) == map[] then scores == map[] else ScoresFrom(su, s, s.Node(i).SyncSeq(), scores)
    requires s' == With(s, i, Participant(Synced(su.cfg, s.Node(i), view, scores), Pop(s.parts[i].store, key)), {})
    ensures SwarmInv(su, s')
  {
    hide Witnessed, Said, Genuine, StoreOk, Steady, Synced, Invariant.Inv, Chained, ViewFrom, ScoresFrom, Pop,
         OwnReport, Disputes;
    var st := s.Node(i);
    var part := Participant(Synced(su.cfg, st, view, scores), Pop(s.parts[i].store, key));
    CompletesOwnView(su, st, view, scores);
    Invariant.SyncKeepsInv(su.cfg, st, view, scores);
    SyncedChained(su, st, view, scores);
    SyncedSteady(su, st, view, scores);
    SyncedSaid(su, s.soup, st, view, scores);
    PopOk(s.soup, s.parts[i].store, key);
    AllSteadyAfter(su, s, i, part, {}, s');
    WitnessedStable(su, s, s', st);
    ViewAndScoresStable(su, s, s', st.SyncSeq(), view, scores);
    SyncedWitnessed(su, s', st, view, scores);
    SyncedId(su, st, view, scores);
    assert NodeOk(su, i, part.node);
    assert s'.soup == s.soup;
    hide NodeOk;
    OneMoves(su, s, i, part, {}, s');
  }

  lemma SyncedId(su: Setup, st: Node, view: Commits, scores: Scores)
    requires su.Valid()
    ensures Synced(su.cfg, st, view, scores).id == st.id
  {
  }

  lemma ViewAndScoresStable(su: Setup, s: Swarm, s': Swarm, n: nat, view: Commits, scores: Scores)
    requires AllSteady(su, s, s') && ViewFrom(su, s, n, view)
    requires if Disputes(view) == map[] then scores == map[] else ScoresFrom(su, s, n, scores)
    ensures ViewFrom(su, s', n, view)
    ensures if Disputes(view) == map[] then scores == map[] else ScoresFrom(su, s', n, scores)
  {
    hide HasCommit, CommitOf, HasScore, ReportOf, Disputes;
  }

  lemma CommitBarrierStep(su: Setup, s: Swarm, a: Action, s': Swarm)
    requires su.Valid() && SwarmInv(su, s) && SwarmSystem.Step(su, s, a, s') && a.CommitBarrier?
    ensures SwarmInv(su, s')
  {
    hide Witnessed, Said, Genuine, StoreOk, Steady, Synced, Invariant.Inv, Chained, LocalWork, ReadsScores, Disputes,
        OwnReport, EncodeScores, ViewFrom, Pop;
    var st := s.Node(a.i);
    assert st.id == a.i;
    CommitsRead(su, s, a.i, a.view);
    hide NodeOk;
    if Disputes(a.view) == map[] {
      CompleteSync(su, s, a.i, a.view, map[], CommitKey(su, st), s');
    } else {
      OpenDispute(su, s, a.i, a.view, s');
    }
  }

  lemma OpenDispute(su: Setup, s: Swarm, i: NodeId, view: Commits, s': Swarm)
    requires su.Valid() && SwarmInv(su, s) && i in su.members
    requires s.Node(i).phase.AwaitCommits? && ViewFrom(su, s, s.Node(i).SyncSeq(), view) && Disputes(view) != map[]
    requires var st := s.Node(i);
             var e := Envelope(i, DisputeScore(su.roundId, st.SyncSeq(),
                 EncodeScores(OwnReport(su.log, st.p, Disputes(view)))));
             s' == With(s, i, Participant(st.(phase := AwaitScores(view)), Pop(s.parts[i].store, CommitKey(su, st))),
                 {e})
    ensures SwarmInv(su, s')
  {
    hide Witnessed, Said, Genuine, StoreOk, Steady, Invariant.Inv, Chained, ViewFrom, Pop, OwnReport, EncodeScores,
        Disputes;
    var st := s.Node(i);
    var e := Envelope(i, DisputeScore(su.roundId, st.SyncSeq(), EncodeScores(OwnReport(su.log, st.p, Disputes(view)))));
    var st' := st.(phase := AwaitScores(view));
    var part := Participant(st', Pop(s.parts[i].store, CommitKey(su, st)));
    Invariant.WaitKeepsInv(su.cfg, st, AwaitScores(view));
    WaitChained(su, st, AwaitScores(view));
    DisputeSteady(su, st, s.soup, view, e);
    AllSteadyAfter(su, s, i, part, {e}, s');
    WitnessedStable(su, s, s', st);
    ViewStable(su, s, s', st.SyncSeq(), view);
    assert Witnessed(su, s', st') by { AwaitingWitnessed(su, s', st, view); }
    StoreStable(s.soup, s'.soup, s.parts[i].store);
    PopOk(s'.soup, s.parts[i].store, CommitKey(su, st));
    assert NodeOk(su, i, st');
    hide NodeOk;
    OneMoves(su, s, i, part, {e}, s');
  }

  lemma AwaitingWitnessed(su: Setup, s: Swarm, st: Node, view: Commits)
    requires s.parts.Keys == su.members && Witnessed(su, s, st)
    requires ViewFrom(su, s, st.SyncSeq(), view) && Disputes(view) != map[]
    ensures Witnessed(su, s, st.(phase := AwaitScores(view)))
  {
    hide RecordFrom, ViewFrom, Disputes;
  }

  lemma DisputeSteady(su: Setup, st: Node, soup: set<Envelope>, view: Commits, e: Envelope)
    requires st.phase.AwaitCommits? && Said(su, soup, st)
    requires e == Envelope(st.id, DisputeScore(su.roundId, st.SyncSeq(),
        EncodeScores(OwnReport(su.log, st.p, Disputes(view)))))
    ensures var st' := st.(phase := AwaitScores(view));
            Steady(su, st, st') && Said(su, soup + {e}, st') && Genuine(su, st', e.body)
  {
    hide Disputes, EncodeScores, OwnReport;
    SaidStable(su, soup, soup + {e}, st);
    assert Published(soup + {e}, st.id, Key(ScoreKind, su.roundId, st.SyncSeq()));
    hide Published;
  }

  lemma ScoreBarrierStep(su: Setup, s: Swarm, a: Action, s': Swarm)
    requires su.Valid() && SwarmInv(su, s) && SwarmSystem.Step(su, s, a, s') && a.ScoreBarrier?
    ensures SwarmInv(su, s')
  {
    hide Said, Genuine, StoreOk, Steady, Synced, Invariant.Inv, Chained, LocalWork, ReadsCommits, Disputes, OwnReport,
        EncodeScores, ViewFrom, ScoresFrom, RecordFrom, Pop, DecodesScores;
    var st := s.Node(a.i);
    assert st.id == a.i && Witnessed(su, s, st);
    ScoresRead(su, s, a.i, a.scores);
    assert st.id in st.phase.view && st.phase.view[st.id] == st.pending by { OwnCommitInView(su, s, a.i); }
    hide NodeOk, Witnessed;
    CompleteSync(su, s, a.i, st.phase.view, a.scores, ScoreKey(su, st), s');
  }

  lemma OwnCommitInView(su: Setup, s: Swarm, i: NodeId)
    requires s.parts.Keys == su.members && i in su.members && s.Node(i).phase.AwaitScores?
    requires ViewFrom(su, s, s.Node(i).SyncSeq(), s.Node(i).phase.view)
    ensures i in s.Node(i).phase.view && s.Node(i).phase.view[i] == s.Node(i).pending
  {
  }

  lemma InitialInv(su: Setup, s: Swarm)
    requires su.Valid() && Initial(su, s)
    ensures SwarmInv(su, s)
  {
    forall i | i in su.members
      ensures NodeOk(su, i, s.Node(i)) && Witnessed(su, s, s.Node(i)) && StoreOk(s.soup, s.parts[i].store)
          && Said(su, s.soup, s.Node(i))
    {
      Invariant.StartInv(su.cfg, i, su.prompt);
    }
  }

  /** Every step of every participant, and every delivery, keeps the swarm in order. */
  lemma StepKeepsInv(su: Setup, s: Swarm, a: Action, s': Swarm)
    requires su.Valid() && SwarmInv(su, s) && SwarmSystem.Step(su, s, a, s')
    ensures SwarmInv(su, s')
  {
    hide SwarmSystem.Step, SwarmInv;
    match a
    case Work(_, _, _, _) => LocalWorkStep(su, s, a, s');
    case Publish(_, _, _, _) => PublishStep(su, s, a, s');
    case Deliver(_, _) => DeliverStep(su, s, a, s');
    case CommitBarrier(_, _) => CommitBarrierStep(su, s, a, s');
    case ScoreBarrier(_, _) => ScoreBarrierStep(su, s, a, s');
  }

  lemma {:induction false} RunKeepsInv(su: Setup, trace: seq<Swarm>, actions: seq<Action>, k: nat)
    requires su.Valid() && IsRun(su, trace, actions) && k < |trace|
    ensures SwarmInv(su, trace[k])
  {
    hide SwarmInv, SwarmSystem.Step, Initial;
    if k == 0 {
      InitialInv(su, trace[0]);
    } else {
      RunKeepsInv(su, trace, actions, k - 1);
      StepKeepsInv(su, trace[k - 1], actions[k - 1], trace[k - 1 + 1]);
    }
  }

  // ---------------------------------------------------------------- runs of one node

  lemma RunChains(su: Setup, st: Node, st': Node)
    requires su.Valid() && Chained(su, st) && NodeStep(su.cfg, st, st')
    ensures Chained(su, st')
  {
    hide LocalWork, Synced, OwnView, Chained, Steady;
    if fwd, transfer, remask :| LocalWork(su.cfg, st, fwd, transfer, remask, st') {
      WorkSteady(su, st, fwd, transfer, remask, st');
    } else {
      var view, scores :| OwnView(st, view, scores) && st' == Synced(su.cfg, st, view, scores);
      SyncedChained(su, st, view, scores);
    }
  }

  /** Every state of a node's run, whatever its barriers delivered, is in order. */
  lemma {:induction false} RunInOrder(su: Setup, i: NodeId, path: seq<Node>, k: nat)
    requires su.Valid() && IsNodeRun(su.cfg, i, su.prompt, path) && k < |path|
    ensures NodeOk(su, i, path[k])
  {
    NodeRunKeepsInv(su.cfg, i, su.prompt, path, k);
    hide NodeStep, Invariant.Inv;
    if k > 0 {
      RunInOrder(su, i, path, k - 1);
      assert NodeStep(su.cfg, path[k - 1], path[k - 1 + 1]);
      RunChains(su, path[k - 1], path[k]);
    }
  }
}
