/** All that every node keeps, in every round and under any barrier outcome. */
module NodeInvariant {
  import opened Consensus
  import opened LocalStep
  import opened NodeMachine
  import opened NodeFacts
  import opened FreezeFacts

  ghost predicate Inv(cfg: Config, st: Node)
    requires cfg.Valid()
  {
    && Shape(cfg, st) && Counting(cfg, st) && Windowed(cfg, st) && Retained(cfg, st) && Covering(cfg, st)
    && Aging(cfg, st) && Mirroring(cfg, st) && Bounded(cfg, st) && Checked(cfg, st) && OwnInBlock(cfg, st)
    && CleanUntilFrozen(st) && Filled(cfg, st) && OwnUntilFrozen(cfg, st) && Ranged(cfg, st)
    && FreezeOk(cfg, st)
  }

  lemma StartInv(cfg: Config, id: NodeId, prompt: seq<nat>)
    requires cfg.Valid() && |prompt| == cfg.genStart
    ensures Inv(cfg, Start(cfg, id, prompt))
  {
    var st := Start(cfg, id, prompt);
    StartShape(cfg, id, prompt);
    StartMirrors(cfg, id, prompt);
    StartFreezeOk(cfg, id, prompt);
    BlockStarts(cfg, 0);
    assert Readings(cfg, st.log) == [];
    forall i: nat | i < |st.x| && st.x[i] != cfg.step.maskId
      ensures i in st.shared
    {
      assert st.x[i] == OpeningToken(cfg, prompt, i);
    }
    hide Shape, Counting, Mirroring, FreezeOk;
  }

  /** Every denoising step keeps all of it. */
  lemma WorkKeepsInv(cfg: Config, st: Node, fwd: Forward, transfer: set<nat>, remask: set<nat>, st': Node)
    requires cfg.Valid() && Inv(cfg, st) && LocalWork(cfg, st, fwd, transfer, remask, st')
    ensures Inv(cfg, st')
  {
    hide Shape, Counting, Windowed, Retained, Covering, Aging, Mirroring, OwnInBlock, Bounded, Checked,
         CleanUntilFrozen, Filled, OwnUntilFrozen, Ranged, FreezeOk, LocalWork;
    WorkKeepsShape(cfg, st, fwd, transfer, remask, st');
    WorkKeepsWindowed(cfg, st, fwd, transfer, remask, st');
    WorkKeepsRetained(cfg, st, fwd, transfer, remask, st');
    WorkKeepsCovering(cfg, st, fwd, transfer, remask, st');
    WorkKeepsAging(cfg, st, fwd, transfer, remask, st');
    WorkKeepsMirroring(cfg, st, fwd, transfer, remask, st');
    WorkKeepsOwnInBlock(cfg, st, fwd, transfer, remask, st');
    WorkKeepsBoundary(cfg, st, fwd, transfer, remask, st');
    WorkKeepsCleanUntilFrozen(cfg, st, fwd, transfer, remask, st');
    WorkKeepsFilled(cfg, st, fwd, transfer, remask, st');
    WorkKeepsOwnUntilFrozen(cfg, st, fwd, transfer, remask, st');
    WorkKeepsRanged(cfg, st, fwd, transfer, remask, st');
    WorkKeepsFreezeOk(cfg, st, fwd, transfer, remask, st');
  }

  lemma WorkKeepsBoundary(cfg: Config, st: Node, fwd: Forward, transfer: set<nat>, remask: set<nat>, st': Node)
    requires cfg.Valid() && Bounded(cfg, st) && Checked(cfg, st) && LocalWork(cfg, st, fwd, transfer, remask, st')
    ensures Bounded(cfg, st') && Checked(cfg, st')
  {
    hide StepInput.IsRemask, StepInput.IsTransfer, StepInput.Contained, StepInput.NextX, StepInput.NextAge,
        Config.BlockStart, Readings, TidyUntilFrozen;
  }

  lemma WaitKeepsShape(cfg: Config, st: Node, phase: Phase)
    requires cfg.Valid() && InSync(st) && InSync(st.(phase := phase))
    requires Shape(cfg, st) && Counting(cfg, st) && Windowed(cfg, st) && Retained(cfg, st) && Mirroring(cfg, st)
    ensures var st' := st.(phase := phase);
            Shape(cfg, st') && Counting(cfg, st') && Windowed(cfg, st') && Retained(cfg, st') && Mirroring(cfg, st')
  {
    hide Config.BlockStart, Config.SyncDue, Fold, Windows, SyncsPerBlock, ViewInBlock;
  }

  lemma WaitKeepsBoundary(cfg: Config, st: Node, phase: Phase)
    requires cfg.Valid() && InSync(st) && InSync(st.(phase := phase))
    requires Bounded(cfg, st) && Checked(cfg, st) && OwnInBlock(cfg, st) && OwnUntilFrozen(cfg, st)
    ensures var st' := st.(phase := phase);
            Bounded(cfg, st') && Checked(cfg, st') && OwnInBlock(cfg, st') && OwnUntilFrozen(cfg, st')
  {
    hide Config.BlockStart, Readings, TidyUntilFrozen, KeysInBlock, DetBefore;
  }

  /** Waiting at a barrier changes nothing. */
  lemma WaitKeepsInv(cfg: Config, st: Node, phase: Phase)
    requires cfg.Valid() && Inv(cfg, st) && InSync(st) && InSync(st.(phase := phase))
    ensures Inv(cfg, st.(phase := phase))
  {
    hide Config.BlockStart, Shape, Counting, Windowed, Retained, Mirroring, Bounded, Checked, OwnInBlock,
         OwnUntilFrozen, FreezeOk, Disputes, ScoresFor, InRange;
    WaitKeepsFreezeOk(cfg, st, phase);
    WaitKeepsShape(cfg, st, phase);
    WaitKeepsBoundary(cfg, st, phase);
  }

  /** And so does every sync, whatever view the barriers gave it. */
  lemma SyncKeepsInv(cfg: Config, st: Node, view: Commits, scores: Scores)
    requires cfg.Valid() && Inv(cfg, st) && InSync(st) && OwnView(st, view, scores)
    ensures Inv(cfg, Synced(cfg, st, view, scores))
  {
    hide Shape, Counting, Windowed, Retained, Covering, Aging, Mirroring, OwnInBlock, Bounded, Checked,
         CleanUntilFrozen, Filled, OwnUntilFrozen, Ranged, FreezeOk, Synced, OwnView, DetBefore;
    SyncKeepsShape(cfg, st, view, scores);
    SyncKeepsWindowed(cfg, st, view, scores);
    SyncKeepsRetained(cfg, st, view, scores);
    SyncKeepsCovering(cfg, st, view, scores);
    SyncKeepsAging(cfg, st, view, scores);
    SyncKeepsMirroring(cfg, st, view, scores);
    assert st.det == DetBefore(st.log, |st.log|) by { DetectorIsLast(cfg, st); }
    SyncKeepsBounded(cfg, st, view, scores);
    SyncKeepsChecked(cfg, st, view, scores);
    SyncKeepsOwnInBlock(cfg, st, view, scores);
    SyncKeepsCleanUntilFrozen(cfg, st, view, scores);
    SyncKeepsFilled(cfg, st, view, scores);
    SyncKeepsOwnUntilFrozen(cfg, st, view, scores);
    SyncKeepsRanged(cfg, st, view, scores);
    SyncKeepsFreezeOk(cfg, st, view, scores);
  }
}
