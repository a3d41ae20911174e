/** What a freeze inside a block leaves of a node's round: the current block always follows the shared state, and
    every later step is contained exactly when the freeze left no mask of the block at or beyond the boundary. */
module FreezeFacts {
  import opened Consensus
  import opened LocalStep
  import opened NodeMachine
  import opened NodeFacts
  import StepFacts
  import Quota
  import Stop = StopDetection

  // ---------------------------------------------------------------- the current block follows the shared state

  /** The block is the shared state with masks in the gaps. */
  ghost predicate BlockMirrors(cfg: Config, st: Node) {
    forall i: nat :: OfBlock(cfg, st.block, i) ==> i < |st.x| && st.x[i] == SharedOr(cfg, st.shared, i)
  }

  ghost predicate Overlays(cfg: Config, st: Node) {
    st.window == [] && st.step > 0 ==> BlockMirrors(cfg, st)
  }

  lemma WorkKeepsOverlays(cfg: Config, st: Node, fwd: Forward, transfer: set<nat>, remask: set<nat>, st': Node)
    requires cfg.Valid() && LocalWork(cfg, st, fwd, transfer, remask, st')
    ensures Overlays(cfg, st')
  {
    hide StepInput.IsRemask, StepInput.IsTransfer, StepInput.Contained, StepInput.NextX, StepInput.NextAge;
  }

  /** Whatever view it had, a sync that goes on in its block leaves the block as the shared state has it. */
  lemma SyncKeepsOverlays(cfg: Config, st: Node, view: Commits, scores: Scores)
    requires cfg.Valid() && Shape(cfg, st) && Retained(cfg, st) && InSync(st) && OwnView(st, view, scores)
    ensures Overlays(cfg, Synced(cfg, st, view, scores))
  {
    hide SyncShared, OwnView, OverlaidAge, Config.BlockStart, Stop.Read, Stop.Step;
    BlockStarts(cfg, st.block);
    var st' := Synced(cfg, st, view, scores);
    if st'.step > 0 {
      forall i: nat | OfBlock(cfg, st.block, i)
        ensures i < |st'.x| && st'.x[i] == SharedOr(cfg, st'.shared, i)
      {
        assert st'.x[i] == Overlaid(cfg, st.block, st'.shared, st.x, i);
        if st.x[i] != cfg.step.maskId {
          ViewKeepsPending(st, view, scores, cfg.exp, i);
        }
      }
    }
  }

  // ---------------------------------------------------------------- what a freeze leaves behind

  /** Sync m is the one that confirmed the first boundary. */
  ghost predicate FirstFreeze(log: seq<SyncRecord>, m: nat) {
    m < |log| && DetBefore(log, m).stop.None? && log[m].agreed.det.stop.Some?
  }

  /** From the boundary to the end of the block everything is shared, and nothing shared is a mask. */
  ghost predicate NothingLeft(cfg: Config, a: Agreed) {
    a.det.stop.Some? ==>
      forall p: nat :: OfBlock(cfg, a.block, p) && a.det.stop.value <= p ==> SettledAt(cfg, a.shared, p)
  }

  predicate SettledAt(cfg: Config, shared: map<nat, nat>, p: nat) {
    p in shared && shared[p] != cfg.step.maskId
  }

  /** The freeze came before the last sync of its block and left a mask of it at or beyond the boundary. */
  ghost predicate Leaves(cfg: Config, log: seq<SyncRecord>, m: nat) {
    FirstFreeze(log, m) && !log[m].agreed.done && !NothingLeft(cfg, log[m].agreed)
  }

  /** No freeze of the round has. */
  ghost predicate Harmless(cfg: Config, log: seq<SyncRecord>) {
    forall m: nat :: m < |log| ==> !Leaves(cfg, log, m)
  }

  // ---------------------------------------------------------------- what was merged

  ghost predicate KeysBelow(cfg: Config, b: nat, f: nat, m: CommitMap) {
    forall p :: p in m ==> OfBlock(cfg, b, p) && p < f
  }

  ghost predicate ViewBelow(cfg: Config, b: nat, f: nat, view: Commits) {
    forall p :: p in ProposedPositions(view) ==> OfBlock(cfg, b, p) && p < f
  }

  /** Sync m merged commits of its own block only, and below the boundary if there was one. */
  ghost predicate BelowAt(cfg: Config, log: seq<SyncRecord>, m: nat)
    requires m < |log|
  {
    match DetBefore(log, m).stop
    case None => ViewInBlock(cfg, log[m].block, log[m].view)
    case Some(f) => ViewBelow(cfg, log[m].block, f, log[m].view)
  }

  ghost predicate MergedBelow(cfg: Config, log: seq<SyncRecord>, n: nat)
    requires n <= |log|
  {
    forall m: nat :: m < n ==> BelowAt(cfg, log, m)
  }

  /** And no freeze among the first n syncs left anything behind. */
  ghost predicate Quiet(cfg: Config, log: seq<SyncRecord>, n: nat)
    requires n <= |log|
  {
    MergedBelow(cfg, log, n) && forall m: nat :: m < n ==> !Leaves(cfg, log, m)
  }

  function BlockAt(st: Node, n: nat): nat {
    if n < |st.log| then st.log[n].block else st.block
  }

  /** What the node commits in sync n lies in its block, and below the boundary if there is one. */
  ghost predicate CommitsBelow(cfg: Config, st: Node, n: nat)
    requires n <= |st.log|
  {
    DetBefore(st.log, n).stop.Some? ==>
      KeysBelow(cfg, BlockAt(st, n), DetBefore(st.log, n).stop.value, CommitOf(st, n))
  }

  // ---------------------------------------------------------------- the invariant

  ghost predicate Anchored(cfg: Config, st: Node) {
    st.det.stop.Some? ==> st.det.stop.value < cfg.genEnd && st.det.stop.value in st.shared
  }

  /** No mask of the block lies at or beyond the boundary. */
  ghost predicate Undisturbed(cfg: Config, st: Node) {
    st.det.stop.Some? && !st.phase.Done? ==>
      && st.det.stop.value < cfg.BlockStart(st.block + 1)
      && forall p: nat :: OfBlock(cfg, st.block, p) && st.det.stop.value <= p ==>
           SettledAt(cfg, st.shared, p) && p < |st.x| && st.x[p] != cfg.step.maskId
  }

  /** A mask of the block lies there, in the sequence and in the shared state. */
  ghost predicate FrozenGap(cfg: Config, st: Node, p: nat) {
    && st.det.stop.Some? && OfBlock(cfg, st.block, p) && st.det.stop.value <= p < |st.x|
    && st.x[p] == cfg.step.maskId && !SettledAt(cfg, st.shared, p)
  }

  /** Contained steps commit below the boundary. */
  ghost predicate CleanBelow(cfg: Config, st: Node) {
    st.clean ==> forall n: nat :: n <= |st.log| ==> CommitsBelow(cfg, st, n)
  }

  /** A freeze that left nothing makes no later step stray. */
  ghost predicate QuietBelow(cfg: Config, st: Node) {
    && (forall n: nat :: n <= |st.log| && Quiet(cfg, st.log, n) ==> CommitsBelow(cfg, st, n))
    && (Quiet(cfg, st.log, |st.log|) ==> st.clean && Undisturbed(cfg, st))
  }

  /** One that left a mask keeps it until the last step of the block, which cannot be contained. */
  ghost predicate GapStays(cfg: Config, st: Node) {
    st.clean && MergedBelow(cfg, st.log, |st.log|) && !Harmless(cfg, st.log) ==>
      && !st.phase.Done? && !(InSync(st) && st.step + 1 == cfg.stepsPerBlock)
      && exists p: nat :: FrozenGap(cfg, st, p)
  }

  ghost predicate FreezeOk(cfg: Config, st: Node) {
    Overlays(cfg, st) && Anchored(cfg, st) && CleanBelow(cfg, st) && QuietBelow(cfg, st) && GapStays(cfg, st)
  }

  lemma StartFreezeOk(cfg: Config, id: NodeId, prompt: seq<nat>)
    requires cfg.Valid() && |prompt| == cfg.genStart
    ensures FreezeOk(cfg, Start(cfg, id, prompt))
  {
    hide Opening;
  }

  // ---------------------------------------------------------------- a step

  /** With no mask at or beyond the boundary a step is contained. */
  lemma UndisturbedContained(cfg: Config, st: Node, fwd: Forward)
    requires cfg.Valid() && Shape(cfg, st) && st.phase.Stepping? && Undisturbed(cfg, st) && st.det.stop.Some?
    ensures Input(cfg, st, fwd).Contained()
  {
    var s := Input(cfg, st, fwd);
    InputValid(cfg, st, fwd);
    StepFacts.CandidatesMasked(s);
    Quota.ShareBounds(|s.Masked()|, s.stepsRemaining);
    assert StepFacts.NoFrozenMask(s);
  }

  lemma UndisturbedStep(cfg: Config, st: Node, fwd: Forward, transfer: set<nat>, remask: set<nat>, st': Node)
    requires cfg.Valid() && Shape(cfg, st) && LocalWork(cfg, st, fwd, transfer, remask, st')
    requires Undisturbed(cfg, st) && st.det.stop.Some?
    ensures Input(cfg, st, fwd).Contained() && Undisturbed(cfg, st')
  {
    hide LocalWork, SettledAt, Config.BlockStart, StepInput.Contained;
    InStep(cfg, st, fwd, transfer, remask, st');
    UndisturbedContained(cfg, st, fwd);
    ContainedStep(cfg, st, fwd, transfer, remask, st');
  }

  lemma InStep(cfg: Config, st: Node, fwd: Forward, transfer: set<nat>, remask: set<nat>, st': Node)
    requires cfg.Valid() && LocalWork(cfg, st, fwd, transfer, remask, st')
    ensures st.phase.Stepping? && st.step < cfg.stepsPerBlock
    ensures st'.clean == (st.clean && Input(cfg, st, fwd).Contained())
    ensures st'.log == st.log && st'.det == st.det && st'.id == st.id && st'.block == st.block && !st'.phase.Done?
    ensures st'.shared == st.shared && (InSync(st') ==> st'.step == st.step)
  {
    hide StepInput.IsRemask, StepInput.IsTransfer, StepInput.Contained, StepInput.NextX, StepInput.NextAge;
  }

  /** A mask there makes the last step stray. */
  lemma GapStrays(cfg: Config, st: Node, fwd: Forward, p: nat)
    requires cfg.Valid() && Shape(cfg, st) && st.phase.Stepping? && FrozenGap(cfg, st, p)
    requires st.step + 1 == cfg.stepsPerBlock
    ensures !Input(cfg, st, fwd).Contained()
  {
    var s := Input(cfg, st, fwd);
    InputValid(cfg, st, fwd);
    StepFacts.CandidatesMasked(s);
    Quota.ShareBounds(|s.Masked()|, 1);
    assert p in s.Masked() && !s.Open(p);
  }

  lemma ContainedMoves(cfg: Config, st: Node, fwd: Forward, transfer: set<nat>, remask: set<nat>)
    requires cfg.Valid() && Shape(cfg, st) && st.phase.Stepping? && st.det.stop.Some?
    requires Input(cfg, st, fwd).IsTransfer(transfer) && Input(cfg, st, fwd).IsRemask(remask)
    requires Input(cfg, st, fwd).Contained()
    ensures forall i :: i in transfer || i in remask ==> OfBlock(cfg, st.block, i) && i < st.det.stop.value
  {
    var s := Input(cfg, st, fwd);
    InputValid(cfg, st, fwd);
    StepFacts.TransferContained(s, transfer);
    StepFacts.RemaskSettled(s, remask);
    hide StepInput.IsRemask, StepInput.IsTransfer, StepInput.Contained, Config.BlockStart;
  }

  /** A contained step settles in its block and below the boundary, and changes nothing of it beyond. */
  lemma ContainedStep(cfg: Config, st: Node, fwd: Forward, transfer: set<nat>, remask: set<nat>, st': Node)
    requires cfg.Valid() && Shape(cfg, st) && LocalWork(cfg, st, fwd, transfer, remask, st')
    requires Input(cfg, st, fwd).Contained() && st.det.stop.Some?
    ensures KeysBelow(cfg, st.block, st.det.stop.value, Settled(fwd, transfer))
    ensures |st'.x| == |st.x| && forall p: nat :: st.det.stop.value <= p < |st.x| ==> st'.x[p] == st.x[p]
    ensures st'.det == st.det && st'.shared == st.shared && st'.log == st.log && st'.block == st.block
        && !st'.phase.Done? && st'.pending == st.pending + Settled(fwd, transfer)
  {
    var s := Input(cfg, st, fwd);
    ContainedMoves(cfg, st, fwd, transfer, remask);
    hide StepInput.IsRemask, StepInput.IsTransfer, StepInput.Contained, Config.BlockStart, OfBlock;
    assert forall i: nat :: i < |st.x| ==> st'.x[i] == s.NextToken(transfer, remask, i);
  }

  /** What a step adds to the pending commits keeps them below the boundary. */
  lemma PendingBelow(cfg: Config, st: Node, fwd: Forward, transfer: set<nat>, remask: set<nat>, st': Node)
    requires cfg.Valid() && Shape(cfg, st) && LocalWork(cfg, st, fwd, transfer, remask, st')
    requires st.det == DetBefore(st.log, |st.log|) && CommitsBelow(cfg, st, |st.log|)
    requires Input(cfg, st, fwd).Contained()
    ensures CommitsBelow(cfg, st', |st'.log|)
  {
    hide LocalWork, DetBefore, Config.BlockStart, StepInput.Contained;
    InStep(cfg, st, fwd, transfer, remask, st');
    if st.det.stop.Some? {
      ContainedStep(cfg, st, fwd, transfer, remask, st');
    }
  }

  lemma SameCommits(cfg: Config, st: Node, st': Node, n: nat)
    requires st'.log == st.log && st'.id == st.id && n < |st.log|
    ensures CommitsBelow(cfg, st', n) <==> CommitsBelow(cfg, st, n)
  {
  }

  lemma WorkKeepsCleanBelow(cfg: Config, st: Node, fwd: Forward, transfer: set<nat>, remask: set<nat>, st': Node)
    requires cfg.Valid() && Shape(cfg, st) && LocalWork(cfg, st, fwd, transfer, remask, st')
    requires st.det == DetBefore(st.log, |st.log|) && CleanBelow(cfg, st)
    ensures CleanBelow(cfg, st')
  {
    hide LocalWork, CommitsBelow, StepInput.Contained;
    InStep(cfg, st, fwd, transfer, remask, st');
    if st'.clean {
      forall n: nat | n <= |st.log|
        ensures CommitsBelow(cfg, st', n)
      {
        if n < |st.log| {
          SameCommits(cfg, st, st', n);
        } else {
          PendingBelow(cfg, st, fwd, transfer, remask, st');
        }
      }
    }
  }

  lemma WorkKeepsQuietBelow(cfg: Config, st: Node, fwd: Forward, transfer: set<nat>, remask: set<nat>, st': Node)
    requires cfg.Valid() && Shape(cfg, st) && LocalWork(cfg, st, fwd, transfer, remask, st')
    requires st.det == DetBefore(st.log, |st.log|) && QuietBelow(cfg, st)
    ensures QuietBelow(cfg, st')
  {
    hide LocalWork, CommitsBelow, StepInput.Contained, Quiet, Undisturbed;
    InStep(cfg, st, fwd, transfer, remask, st');
    if Quiet(cfg, st.log, |st.log|) {
      QuietStep(cfg, st, fwd, transfer, remask, st');
      PendingBelow(cfg, st, fwd, transfer, remask, st');
    }
    forall n: nat | n <= |st.log| && Quiet(cfg, st.log, n)
      ensures CommitsBelow(cfg, st', n)
    {
      if n < |st.log| {
        SameCommits(cfg, st, st', n);
      }
    }
  }

  lemma QuietStep(cfg: Config, st: Node, fwd: Forward, transfer: set<nat>, remask: set<nat>, st': Node)
    requires cfg.Valid() && Shape(cfg, st) && LocalWork(cfg, st, fwd, transfer, remask, st') && Undisturbed(cfg, st)
    ensures Input(cfg, st, fwd).Contained() && Undisturbed(cfg, st')
  {
    InStep(cfg, st, fwd, transfer, remask, st');
    if st.det.stop.None? {
      InputValid(cfg, st, fwd);
      StepFacts.UnfrozenContained(Input(cfg, st, fwd));
    } else {
      UndisturbedStep(cfg, st, fwd, transfer, remask, st');
    }
    hide LocalWork, StepInput.Contained;
  }

  lemma WorkKeepsGapStays(cfg: Config, st: Node, fwd: Forward, transfer: set<nat>, remask: set<nat>, st': Node)
    requires cfg.Valid() && Shape(cfg, st) && LocalWork(cfg, st, fwd, transfer, remask, st') && GapStays(cfg, st)
    ensures GapStays(cfg, st')
  {
    hide LocalWork, StepInput.Contained, MergedBelow, Harmless, FrozenGap, Shape;
    InStep(cfg, st, fwd, transfer, remask, st');
    if st'.clean && MergedBelow(cfg, st.log, |st.log|) && !Harmless(cfg, st.log) {
      var p: nat :| FrozenGap(cfg, st, p);
      if st.step + 1 == cfg.stepsPerBlock {
        GapStrays(cfg, st, fwd, p);
      }
      GapThrough(cfg, st, fwd, transfer, remask, st', p);
    }
  }

  lemma GapThrough(cfg: Config, st: Node, fwd: Forward, transfer: set<nat>, remask: set<nat>, st': Node, p: nat)
    requires cfg.Valid() && Shape(cfg, st) && LocalWork(cfg, st, fwd, transfer, remask, st')
    requires Input(cfg, st, fwd).Contained() && FrozenGap(cfg, st, p)
    ensures FrozenGap(cfg, st', p)
  {
    ContainedStep(cfg, st, fwd, transfer, remask, st');
    hide LocalWork, StepInput.Contained, Config.BlockStart;
  }

  lemma WorkKeepsFreezeOk(cfg: Config, st: Node, fwd: Forward, transfer: set<nat>, remask: set<nat>, st': Node)
    requires cfg.Valid() && Shape(cfg, st) && LocalWork(cfg, st, fwd, transfer, remask, st')
    requires OwnUntilFrozen(cfg, st) && FreezeOk(cfg, st)
    ensures FreezeOk(cfg, st')
  {
    hide LocalWork, Overlays, CleanBelow, QuietBelow, GapStays, DetBefore;
    InStep(cfg, st, fwd, transfer, remask, st');
    WorkKeepsOverlays(cfg, st, fwd, transfer, remask, st');
    WorkKeepsCleanBelow(cfg, st, fwd, transfer, remask, st');
    WorkKeepsQuietBelow(cfg, st, fwd, transfer, remask, st');
    WorkKeepsGapStays(cfg, st, fwd, transfer, remask, st');
  }

  // ---------------------------------------------------------------- a sync

  ghost predicate OneMore(log: seq<SyncRecord>, log': seq<SyncRecord>) {
    |log'| == |log| + 1 && log <= log'
  }

  lemma EarlierSyncs(cfg: Config, log: seq<SyncRecord>, log': seq<SyncRecord>, n: nat)
    requires OneMore(log, log') && n <= |log|
    ensures DetBefore(log', n) == DetBefore(log, n)
    ensures n < |log| ==> (BelowAt(cfg, log', n) <==> BelowAt(cfg, log, n))
    ensures n < |log| ==> (Leaves(cfg, log', n) <==> Leaves(cfg, log, n))
  {
    hide NothingLeft, ViewBelow, ViewInBlock;
  }

  lemma EarlierQuiet(cfg: Config, log: seq<SyncRecord>, log': seq<SyncRecord>, n: nat)
    requires OneMore(log, log') && n <= |log|
    ensures MergedBelow(cfg, log', n) <==> MergedBelow(cfg, log, n)
    ensures Quiet(cfg, log', n) <==> Quiet(cfg, log, n)
  {
    hide BelowAt, Leaves, DetBefore;
    forall m: nat | m < n
      ensures (BelowAt(cfg, log', m) <==> BelowAt(cfg, log, m)) && (Leaves(cfg, log', m) <==> Leaves(cfg, log, m))
    {
      EarlierSyncs(cfg, log, log', m);
    }
  }

  lemma SyncedCommits(cfg: Config, st: Node, view: Commits, scores: Scores, n: nat)
    requires cfg.Valid() && OwnView(st, view, scores) && n <= |st.log|
    ensures CommitsBelow(cfg, Synced(cfg, st, view, scores), n) <==> CommitsBelow(cfg, st, n)
    ensures CommitsBelow(cfg, Synced(cfg, st, view, scores), |st.log| + 1)
  {
    hide Synced, Outcome, KeysBelow, DetBefore, Disputes, ScoresFor;
    var st' := Synced(cfg, st, view, scores);
    SyncedRecord(cfg, st, view, scores);
    EarlierSyncs(cfg, st.log, st'.log, n);
    NothingBelow(cfg, BlockAt(st', |st.log| + 1));
  }

  lemma NothingBelow(cfg: Config, b: nat)
    ensures forall f: nat :: KeysBelow(cfg, b, f, map[])
  {
  }

  lemma SyncKeepsCleanBelow(cfg: Config, st: Node, view: Commits, scores: Scores)
    requires cfg.Valid() && OwnView(st, view, scores) && CleanBelow(cfg, st)
    ensures CleanBelow(cfg, Synced(cfg, st, view, scores))
  {
    hide Synced, Outcome, CommitsBelow, OwnView;
    var st' := Synced(cfg, st, view, scores);
    SyncedRecord(cfg, st, view, scores);
    forall n: nat | st.clean && n <= |st'.log|
      ensures CommitsBelow(cfg, st', n)
    {
      SyncedCommits(cfg, st, view, scores, if n <= |st.log| then n else 0);
    }
  }

  lemma SyncKeepsAnchored(cfg: Config, st: Node, view: Commits, scores: Scores)
    requires cfg.Valid() && Anchored(cfg, st)
    ensures Anchored(cfg, Synced(cfg, st, view, scores))
  {
    hide Synced, SyncShared, Stop.Read, RoundOver;
    var st' := Synced(cfg, st, view, scores);
    SyncedRecord(cfg, st, view, scores);
    SyncKeys(st.shared, view, scores, cfg.exp);
    if Stop.Read(cfg.stop, st'.shared, cfg.genStart, cfg.genEnd).Qualified? {
      Stop.CandidateRun(cfg.stop, st'.shared, cfg.genStart, cfg.genEnd);
    }
  }

  lemma MergedTidy(cfg: Config, log: seq<SyncRecord>)
    requires MergedBelow(cfg, log, |log|)
    ensures TidyUntilFrozen(cfg, log)
  {
    hide ViewInBlock, ViewBelow, DetBefore;
    forall n: nat | n < |log| && DetBefore(log, n).stop.None?
      ensures ViewInBlock(cfg, log[n].block, log[n].view)
    {
      assert BelowAt(cfg, log, n);
    }
  }

  lemma SyncedControl(cfg: Config, st: Node, view: Commits, scores: Scores)
    requires cfg.Valid()
    ensures var st' := Synced(cfg, st, view, scores);
            && (st'.block == st.block ==> st'.step == st.step + 1 < cfg.stepsPerBlock && !st'.phase.Done?)
            && (st'.phase.Done? || st'.phase.Stepping?)
  {
    hide SyncShared, Stop.Read, Stop.Step, RoundOver, Overlaid, OverlaidAge;
  }

  /** As long as merged commits stay in their block and below the boundary, a sync that leaves a boundary behind
      and does not end the round goes on in its block. */
  lemma GoesOnInBlock(cfg: Config, st: Node, view: Commits, scores: Scores)
    requires cfg.Valid() && InSync(st) && Bounded(cfg, st) && st.det == DetBefore(st.log, |st.log|)
    ensures var st' := Synced(cfg, st, view, scores);
            MergedBelow(cfg, st'.log, |st'.log|) && st'.det.stop.Some? && !st'.phase.Done? ==>
              && st'.block == st.block && st'.step == st.step + 1 < cfg.stepsPerBlock
              && st'.det.stop.value < cfg.BlockStart(st.block + 1)
  {
    hide Synced, Outcome, MergedBelow, TidyUntilFrozen, Config.BlockStart, DetBefore;
    var st' := Synced(cfg, st, view, scores);
    SyncKeepsBounded(cfg, st, view, scores);
    SyncedControl(cfg, st, view, scores);
    if MergedBelow(cfg, st'.log, |st'.log|) {
      MergedTidy(cfg, st'.log);
    }
  }

  lemma LastMerged(cfg: Config, st: Node, view: Commits, scores: Scores)
    requires cfg.Valid() && st.det == DetBefore(st.log, |st.log|)
    requires MergedBelow(cfg, Synced(cfg, st, view, scores).log, |st.log| + 1)
    ensures MergedBelow(cfg, st.log, |st.log|)
    ensures st.det.stop.Some? ==> ViewBelow(cfg, st.block, st.det.stop.value, view)
  {
    hide Synced, Outcome, ViewBelow, ViewInBlock, DetBefore;
    var log' := Synced(cfg, st, view, scores).log;
    SyncedRecord(cfg, st, view, scores);
    EarlierSyncs(cfg, st.log, log', |st.log|);
    EarlierQuiet(cfg, st.log, log', |st.log|);
    assert BelowAt(cfg, log', |st.log|);
  }

  /** What lies beyond the boundary of the block stays as it is, and a boundary that moves down moves over EOS. */
  lemma SyncBeyond(cfg: Config, st: Node, view: Commits, scores: Scores, p: nat)
    requires cfg.Valid() && Shape(cfg, st) && Anchored(cfg, st) && Undisturbed(cfg, st) && InSync(st)
    requires st.det.stop.Some? && ViewBelow(cfg, st.block, st.det.stop.value, view)
    requires OfBlock(cfg, st.block, p) && Synced(cfg, st, view, scores).det.stop.Some?
    requires Synced(cfg, st, view, scores).det.stop.value <= p
    ensures SettledAt(cfg, Synced(cfg, st, view, scores).shared, p)
  {
    hide Synced, SyncShared, Stop.Read, Config.BlockStart, ProposedPositions;
    var st' := Synced(cfg, st, view, scores);
    SyncedRecord(cfg, st, view, scores);
    SyncKeys(st.shared, view, scores, cfg.exp);
    BlockStarts(cfg, st.block);
    var f := st.det.stop.value;
    if p < f {
      Stop.CandidateRun(cfg.stop, st'.shared, cfg.genStart, cfg.genEnd);
      var q := if f < cfg.BlockStart(st.block) then cfg.BlockStart(st.block) else f;
      assert SettledAt(cfg, st.shared, q) && SettledAt(cfg, st'.shared, q);
      assert st'.shared[q] == cfg.stop.eosId;
    }
  }

  /** In a block that mirrors the shared state no mask lies where everything is settled. */
  lemma OverlaidBeyond(cfg: Config, st: Node, view: Commits, scores: Scores)
    requires cfg.Valid() && Overlays(cfg, Synced(cfg, st, view, scores))
    requires var st' := Synced(cfg, st, view, scores);
             && st'.step > 0 && st'.det.stop.Some? && st'.det.stop.value < cfg.BlockStart(st'.block + 1)
             && forall p: nat :: OfBlock(cfg, st'.block, p) && st'.det.stop.value <= p ==>
                  SettledAt(cfg, st'.shared, p)
    ensures Undisturbed(cfg, Synced(cfg, st, view, scores))
  {
    hide Synced, Config.BlockStart;
    SyncedRecord(cfg, st, view, scores);
  }

  lemma SyncUndisturbed(cfg: Config, st: Node, view: Commits, scores: Scores)
    requires cfg.Valid() && Shape(cfg, st) && InSync(st) && Bounded(cfg, st) && st.det == DetBefore(st.log, |st.log|)
    requires Anchored(cfg, st) && Undisturbed(cfg, st) && Overlays(cfg, Synced(cfg, st, view, scores))
    requires Quiet(cfg, Synced(cfg, st, view, scores).log, |st.log| + 1)
    ensures Undisturbed(cfg, Synced(cfg, st, view, scores))
  {
    hide Synced, Outcome, MergedBelow, Config.BlockStart, DetBefore, SettledAt, Overlays, Undisturbed, Anchored,
         Bounded, Shape, ViewBelow;
    var st' := Synced(cfg, st, view, scores);
    SyncedRecord(cfg, st, view, scores);
    LastMerged(cfg, st, view, scores);
    GoesOnInBlock(cfg, st, view, scores);
    if st'.det.stop.Some? && !st'.phase.Done? {
      if st.det.stop.None? {
        FreezesNow(cfg, st, view, scores);
        assert !Leaves(cfg, st'.log, |st.log|);
      }
      forall p: nat | OfBlock(cfg, st.block, p) && st'.det.stop.value <= p
        ensures SettledAt(cfg, st'.shared, p)
      {
        if st.det.stop.Some? {
          SyncBeyond(cfg, st, view, scores, p);
        }
      }
      OverlaidBeyond(cfg, st, view, scores);
    } else {
      NotFrozen(cfg, st');
    }
  }

  lemma NotFrozen(cfg: Config, st: Node)
    requires st.det.stop.None? || st.phase.Done?
    ensures Undisturbed(cfg, st)
  {
  }

  /** The sync that confirms the first boundary. */
  lemma FreezesNow(cfg: Config, st: Node, view: Commits, scores: Scores)
    requires cfg.Valid() && st.det == DetBefore(st.log, |st.log|) && st.det.stop.None?
    requires var st' := Synced(cfg, st, view, scores); st'.det.stop.Some? && !st'.phase.Done?
    ensures var st' := Synced(cfg, st, view, scores);
            && FirstFreeze(st'.log, |st.log|)
            && st'.log[|st.log|].agreed.shared == st'.shared && st'.log[|st.log|].agreed.det == st'.det
            && st'.log[|st.log|].agreed.block == st'.block && !st'.log[|st.log|].agreed.done
  {
    hide Synced, Outcome;
    var st' := Synced(cfg, st, view, scores);
    SyncedRecord(cfg, st, view, scores);
    EarlierSyncs(cfg, st.log, st'.log, |st.log|);
  }

  lemma SyncKeepsQuietBelow(cfg: Config, st: Node, view: Commits, scores: Scores)
    requires cfg.Valid() && Shape(cfg, st) && InSync(st) && Bounded(cfg, st) && st.det == DetBefore(st.log, |st.log|)
    requires Anchored(cfg, st) && QuietBelow(cfg, st) && OwnView(st, view, scores)
    requires Overlays(cfg, Synced(cfg, st, view, scores))
    ensures QuietBelow(cfg, Synced(cfg, st, view, scores))
  {
    hide Synced, Outcome, Quiet, CommitsBelow, Undisturbed, Overlays, Anchored, Bounded, Shape, OwnView, DetBefore;
    var st' := Synced(cfg, st, view, scores);
    SyncedRecord(cfg, st, view, scores);
    forall n: nat | n <= |st'.log| && Quiet(cfg, st'.log, n)
      ensures CommitsBelow(cfg, st', n)
    {
      if n <= |st.log| {
        EarlierQuiet(cfg, st.log, st'.log, n);
        SyncedCommits(cfg, st, view, scores, n);
      } else {
        SyncedCommits(cfg, st, view, scores, 0);
      }
    }
    if Quiet(cfg, st'.log, |st.log| + 1) {
      QuietBefore(cfg, st'.log, |st.log|);
      EarlierQuiet(cfg, st.log, st'.log, |st.log|);
      SyncUndisturbed(cfg, st, view, scores);
    }
  }

  lemma QuietBefore(cfg: Config, log: seq<SyncRecord>, n: nat)
    requires n < |log| && Quiet(cfg, log, n + 1)
    ensures Quiet(cfg, log, n)
  {
    hide BelowAt, Leaves;
  }

  lemma HarmlessBefore(cfg: Config, log: seq<SyncRecord>, log': seq<SyncRecord>)
    requires OneMore(log, log')
    ensures Harmless(cfg, log') <==> Harmless(cfg, log) && !Leaves(cfg, log', |log|)
  {
    hide Leaves, DetBefore, BelowAt;
    forall m: nat | m < |log|
      ensures Leaves(cfg, log', m) <==> Leaves(cfg, log, m)
    {
      EarlierSyncs(cfg, log, log', m);
    }
  }

  /** A gap outlives a sync that merges below the boundary. */
  lemma GapSurvives(cfg: Config, st: Node, view: Commits, scores: Scores, p: nat)
    requires cfg.Valid() && InSync(st) && Bounded(cfg, st) && st.det == DetBefore(st.log, |st.log|)
    requires MergedBelow(cfg, Synced(cfg, st, view, scores).log, |st.log| + 1)
    requires FrozenGap(cfg, st, p) && st.step + 1 < cfg.stepsPerBlock
    requires Overlays(cfg, Synced(cfg, st, view, scores))
    ensures var st' := Synced(cfg, st, view, scores); FrozenGap(cfg, st', p) && st'.phase.Stepping?
  {
    hide Synced, SyncShared, Stop.Read, MergedBelow, Config.BlockStart, DetBefore, Bounded, ProposedPositions;
    var st' := Synced(cfg, st, view, scores);
    LastMerged(cfg, st, view, scores);
    SyncLowersStop(cfg, st, view, scores);
    SyncedRecord(cfg, st, view, scores);
    SyncedControl(cfg, st, view, scores);
    SyncKeys(st.shared, view, scores, cfg.exp);
  }

  /** And it opens with the freeze that leaves it. */
  lemma GapOpens(cfg: Config, st: Node, view: Commits, scores: Scores) returns (p: nat)
    requires cfg.Valid() && InSync(st) && Bounded(cfg, st) && st.det == DetBefore(st.log, |st.log|)
    requires MergedBelow(cfg, Synced(cfg, st, view, scores).log, |st.log| + 1)
    requires Leaves(cfg, Synced(cfg, st, view, scores).log, |st.log|)
    requires Overlays(cfg, Synced(cfg, st, view, scores))
    ensures var st' := Synced(cfg, st, view, scores); FrozenGap(cfg, st', p) && st'.phase.Stepping?
  {
    hide Synced, Outcome, MergedBelow, Config.BlockStart, Bounded;
    var st' := Synced(cfg, st, view, scores);
    SyncedRecord(cfg, st, view, scores);
    SyncedControl(cfg, st, view, scores);
    GoesOnInBlock(cfg, st, view, scores);
    p :| OfBlock(cfg, st'.block, p) && st'.det.stop.value <= p && !SettledAt(cfg, st'.shared, p);
  }

  lemma SyncKeepsGapStays(cfg: Config, st: Node, view: Commits, scores: Scores)
    requires cfg.Valid() && InSync(st) && Bounded(cfg, st) && st.det == DetBefore(st.log, |st.log|)
    requires Shape(cfg, st) && GapStays(cfg, st) && Overlays(cfg, Synced(cfg, st, view, scores))
    ensures GapStays(cfg, Synced(cfg, st, view, scores))
  {
    hide Synced, Outcome, MergedBelow, DetBefore, FrozenGap, Leaves, Harmless, Overlays, Bounded;
    var st' := Synced(cfg, st, view, scores);
    SyncedRecord(cfg, st, view, scores);
    if st'.clean && MergedBelow(cfg, st'.log, |st'.log|) && !Harmless(cfg, st'.log) {
      LastMerged(cfg, st, view, scores);
      HarmlessBefore(cfg, st.log, st'.log);
      if Leaves(cfg, st'.log, |st.log|) {
        var p := GapOpens(cfg, st, view, scores);
      } else {
        var p: nat :| FrozenGap(cfg, st, p);
        GapSurvives(cfg, st, view, scores, p);
      }
    }
  }

  lemma SyncKeepsFreezeOk(cfg: Config, st: Node, view: Commits, scores: Scores)
    requires cfg.Valid() && Shape(cfg, st) && Retained(cfg, st) && Bounded(cfg, st) && OwnUntilFrozen(cfg, st)
    requires InSync(st) && OwnView(st, view, scores) && FreezeOk(cfg, st)
    ensures FreezeOk(cfg, Synced(cfg, st, view, scores))
  {
    hide Synced, Shape, Retained, Bounded, Overlays, Anchored, CleanBelow, QuietBelow, GapStays, OwnView, DetBefore;
    assert st.det == DetBefore(st.log, |st.log|) by { DetectorIsLast(cfg, st); }
    SyncKeepsOverlays(cfg, st, view, scores);
    SyncKeepsAnchored(cfg, st, view, scores);
    SyncKeepsCleanBelow(cfg, st, view, scores);
    SyncKeepsQuietBelow(cfg, st, view, scores);
    SyncKeepsGapStays(cfg, st, view, scores);
  }

  /** Waiting at a barrier changes nothing. */
  lemma WaitKeepsFreezeOk(cfg: Config, st: Node, phase: Phase)
    requires InSync(st) && InSync(st.(phase := phase)) && FreezeOk(cfg, st)
    ensures FreezeOk(cfg, st.(phase := phase))
  {
    hide Quiet, Harmless, MergedBelow, KeysBelow, DetBefore, SettledAt, Config.BlockStart;
    var st' := st.(phase := phase);
    assert forall n: nat :: n <= |st.log| ==> (CommitsBelow(cfg, st', n) <==> CommitsBelow(cfg, st, n));
    assert forall p: nat :: FrozenGap(cfg, st, p) ==> FrozenGap(cfg, st', p);
  }

  /** A finished round that merged below the boundary was contained throughout if and only if no freeze of it left a
      mask behind. */
  lemma FinishedClean(cfg: Config, st: Node)
    requires QuietBelow(cfg, st) && GapStays(cfg, st) && st.phase.Done? && MergedBelow(cfg, st.log, |st.log|)
    ensures st.clean <==> Harmless(cfg, st.log)
  {
    hide MergedBelow, Leaves, CommitsBelow, Undisturbed;
  }

  /** And there it may take any position that is not a candidate, be it of the prompt. */
  lemma GapMayTake(cfg: Config, st: Node, fwd: Forward, p: nat, q: nat)
    returns (transfer: set<nat>, remask: set<nat>, st': Node)
    requires cfg.Valid() && Shape(cfg, st) && st.phase.Stepping? && FrozenGap(cfg, st, p)
    requires st.step + 1 == cfg.stepsPerBlock && Predicts(cfg, fwd)
    requires q < |st.x| && q !in Input(cfg, st, fwd).Candidates()
    ensures LocalWork(cfg, st, fwd, transfer, remask, st')
    ensures q in st'.pending && st'.pending[q].token == fwd.x0(q)
  {
    GapStrays(cfg, st, fwd, p);
    InputValid(cfg, st, fwd);
    hide StepInput.Candidates, StepInput.Contained, StepInput.IsTransfer, StepInput.IsRemask, StepInput.NextX,
         StepInput.NextAge, FrozenGap;
    var s := Input(cfg, st, fwd);
    transfer := StepFacts.StrayMayTake(s, q);
    var other;
    other, remask := StepFacts.StepEnabled(s);
    st' := Worked(cfg, st, fwd, transfer, remask);
    assert q in Settled(fwd, transfer);
  }
}
