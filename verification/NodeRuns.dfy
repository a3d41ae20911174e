/** Whole rounds of one node, under any barrier outcome: full views, partial ones after a timeout, or
    its own commits alone. */
module NodeRuns {
  import opened Arith
  import opened Consensus
  import opened LocalStep
  import opened NodeMachine
  import Facts = NodeFacts
  import Freeze = FreezeFacts
  import Invariant = NodeInvariant
  import Stop = StopDetection

  ghost predicate WorkStep(cfg: Config, st: Node, st': Node)
    requires cfg.Valid()
  {
    exists fwd, transfer, remask :: LocalWork(cfg, st, fwd, transfer, remask, st')
  }

  /** A sync that saw any view containing the node's own commits and scores. */
  ghost predicate SyncStep(cfg: Config, st: Node, st': Node)
    requires cfg.Valid()
  {
    st.phase.Publishing? && exists view, scores :: OwnView(st, view, scores) && st' == Synced(cfg, st, view, scores)
  }

  ghost predicate NodeStep(cfg: Config, st: Node, st': Node)
    requires cfg.Valid()
  {
    WorkStep(cfg, st, st') || SyncStep(cfg, st, st')
  }

  ghost predicate IsNodeRun(cfg: Config, id: NodeId, prompt: seq<nat>, path: seq<Node>)
    requires cfg.Valid() && |prompt| == cfg.genStart
  {
    && path != [] && path[0] == Start(cfg, id, prompt)
    && forall k: nat :: k + 1 < |path| ==> NodeStep(cfg, path[k], path[k + 1])
  }

  lemma NodeStepKeepsInv(cfg: Config, st: Node, st': Node)
    requires cfg.Valid() && Invariant.Inv(cfg, st) && NodeStep(cfg, st, st')
    ensures Invariant.Inv(cfg, st') && st'.id == st.id
  {
    hide LocalWork, Synced, OwnView, Invariant.Inv;
    if fwd, transfer, remask :| LocalWork(cfg, st, fwd, transfer, remask, st') {
      Invariant.WorkKeepsInv(cfg, st, fwd, transfer, remask, st');
      WorkKeepsId(cfg, st, fwd, transfer, remask, st');
    } else {
      var view, scores :| OwnView(st, view, scores) && st' == Synced(cfg, st, view, scores);
      Invariant.SyncKeepsInv(cfg, st, view, scores);
      SyncKeepsId(cfg, st, view, scores);
    }
  }

  lemma WorkKeepsId(cfg: Config, st: Node, fwd: Forward, transfer: set<nat>, remask: set<nat>, st': Node)
    requires cfg.Valid() && LocalWork(cfg, st, fwd, transfer, remask, st')
    ensures st'.id == st.id
  {
  }

  lemma SyncKeepsId(cfg: Config, st: Node, view: Commits, scores: Scores)
    requires cfg.Valid()
    ensures Synced(cfg, st, view, scores).id == st.id
  {
  }

  /** Everything the node facts say holds after every step of every round. */
  lemma {:induction false} NodeRunKeepsInv(cfg: Config, id: NodeId, prompt: seq<nat>, path: seq<Node>, k: nat)
    requires cfg.Valid() && |prompt| == cfg.genStart && IsNodeRun(cfg, id, prompt, path) && k < |path|
    ensures Invariant.Inv(cfg, path[k]) && path[k].id == id
  {
    hide NodeStep, Invariant.Inv;
    if k == 0 {
      Invariant.StartInv(cfg, id, prompt);
      StartId(cfg, id, prompt);
    } else {
      NodeRunKeepsInv(cfg, id, prompt, path, k - 1);
      NodeStepKeepsInv(cfg, path[k - 1], path[k - 1 + 1]);
    }
  }

  lemma StartId(cfg: Config, id: NodeId, prompt: seq<nat>)
    requires cfg.Valid() && |prompt| == cfg.genStart
    ensures Start(cfg, id, prompt).id == id
  {
  }

  lemma Extend(cfg: Config, id: NodeId, prompt: seq<nat>, path: seq<Node>, st': Node)
    requires cfg.Valid() && |prompt| == cfg.genStart && IsNodeRun(cfg, id, prompt, path)
    requires NodeStep(cfg, path[|path| - 1], st')
    ensures IsNodeRun(cfg, id, prompt, path + [st'])
  {
    hide NodeStep;
    var more := path + [st'];
    forall k: nat | k + 1 < |more|
      ensures NodeStep(cfg, more[k], more[k + 1])
    {
      if k + 1 < |path| {
        assert NodeStep(cfg, path[k], path[k + 1]);
      }
    }
  }

  lemma ExtendBySync(cfg: Config, id: NodeId, prompt: seq<nat>, path: seq<Node>, view: Commits, scores: Scores)
    requires cfg.Valid() && |prompt| == cfg.genStart && IsNodeRun(cfg, id, prompt, path)
    requires path[|path| - 1].phase.Publishing? && OwnView(path[|path| - 1], view, scores)
    ensures IsNodeRun(cfg, id, prompt, path + [Synced(cfg, path[|path| - 1], view, scores)])
  {
    var st' := Synced(cfg, path[|path| - 1], view, scores);
    assert SyncStep(cfg, path[|path| - 1], st') by { hide Synced, OwnView, IsNodeRun; }
    hide SyncStep, WorkStep, Synced, OwnView;
    Extend(cfg, id, prompt, path, st');
  }

  // ---------------------------------------------------------------- the model's passes

  /** A step whose forward pass is the model's, on the state's own sequence; the passes of a round are numbered. */
  ghost predicate ModelStep(cfg: Config, model: (nat, seq<nat>) -> Forward, st: Node, st': Node)
    requires cfg.Valid()
  {
    exists fwd, transfer, remask ::
      LocalWork(cfg, st, fwd, transfer, remask, st') && fwd == model(st.block * cfg.stepsPerBlock + st.step, st.x)
  }

  ghost predicate Modelled(cfg: Config, model: (nat, seq<nat>) -> Forward, path: seq<Node>)
    requires cfg.Valid()
  {
    forall k: nat :: k + 1 < |path| && path[k].phase.Stepping? ==> ModelStep(cfg, model, path[k], path[k + 1])
  }

  lemma ModelledMore(cfg: Config, model: (nat, seq<nat>) -> Forward, path: seq<Node>, st': Node)
    requires cfg.Valid() && path != [] && Modelled(cfg, model, path)
    requires path[|path| - 1].phase.Stepping? ==> ModelStep(cfg, model, path[|path| - 1], st')
    ensures Modelled(cfg, model, path + [st'])
  {
    hide ModelStep;
    var more := path + [st'];
    forall k: nat | k + 1 < |more| && more[k].phase.Stepping?
      ensures ModelStep(cfg, model, more[k], more[k + 1])
    {
      if k + 1 < |path| {
        assert ModelStep(cfg, model, path[k], path[k + 1]);
      }
    }
  }

  lemma PassesStep(cfg: Config, st: Node, st': Node)
    requires cfg.Valid() && Shape(cfg, st) && NodeStep(cfg, st, st')
    requires |st.steps| == st.block * cfg.stepsPerBlock + st.step + if st.phase.Publishing? then 1 else 0
    requires st.phase.Stepping? || st.phase.Publishing? || st.phase.Done?
    ensures |st'.steps| == st'.block * cfg.stepsPerBlock + st'.step + if st'.phase.Publishing? then 1 else 0
    ensures st'.phase.Stepping? || st'.phase.Publishing? || st'.phase.Done?
  {
    hide SyncShared, Overlaid, OverlaidAge, StepInput.IsRemask, StepInput.IsTransfer, StepInput.NextX,
         StepInput.NextAge, StepInput.Contained, Disputes, Stop.Read, Stop.Step, RoundOver, OwnView;
    MulSucc(st.block, cfg.stepsPerBlock);
  }

  /** The passes are numbered one after the other: at every step of a round its number is the number of the steps
      taken before. */
  lemma {:induction false} RunPasses(cfg: Config, id: NodeId, prompt: seq<nat>, path: seq<Node>, k: nat)
    requires cfg.Valid() && |prompt| == cfg.genStart && IsNodeRun(cfg, id, prompt, path) && k < |path|
    ensures var st := path[k];
            && (st.phase.Stepping? || st.phase.Publishing? || st.phase.Done?)
            && |st.steps| == st.block * cfg.stepsPerBlock + st.step + if st.phase.Publishing? then 1 else 0
  {
    hide NodeStep, Invariant.Inv, Shape;
    if k > 0 {
      RunPasses(cfg, id, prompt, path, k - 1);
      NodeRunKeepsInv(cfg, id, prompt, path, k - 1);
      ShapeInInv(cfg, path[k - 1]);
      assert NodeStep(cfg, path[k - 1], path[k - 1 + 1]);
      PassesStep(cfg, path[k - 1], path[k]);
    }
  }

  lemma ShapeInInv(cfg: Config, st: Node)
    requires cfg.Valid() && Invariant.Inv(cfg, st)
    ensures Shape(cfg, st)
  {
    hide Shape;
  }

  /** A step of this path closed the window of this sync, and the sync scored with that step's distribution. */
  ghost predicate ClosedBy(cfg: Config, model: (nat, seq<nat>) -> Forward, path: seq<Node>, r: SyncRecord, k: nat) {
    && k < |path| && path[k].phase.Stepping? && path[k].block == r.block && path[k].step == r.step
    && r.p == model(r.block * cfg.stepsPerBlock + r.step, path[k].x).p
  }

  lemma SyncComesAfterStep(cfg: Config, id: NodeId, prompt: seq<nat>, path: seq<Node>, k: nat)
    requires cfg.Valid() && |prompt| == cfg.genStart && IsNodeRun(cfg, id, prompt, path) && k < |path|
    requires path[k].phase.Publishing?
    ensures k > 0 && path[k - 1].phase.Stepping?
  {
    hide SyncShared, Overlaid, OverlaidAge, StepInput.IsRemask, StepInput.IsTransfer, StepInput.NextX,
         StepInput.NextAge, StepInput.Contained, Disputes, Stop.Read, Stop.Step, RoundOver, OwnView, Opening;
    if k > 0 {
      assert NodeStep(cfg, path[k - 1], path[k - 1 + 1]);
    }
  }

  /** So every sync of the round scored its disputes with the distribution of the model's last pass before it. */
  lemma {:induction false} SyncScoredBy(cfg: Config, model: (nat, seq<nat>) -> Forward, id: NodeId, prompt: seq<nat>,
                                        path: seq<Node>, m: nat, n: nat) returns (k: nat)
    requires cfg.Valid() && |prompt| == cfg.genStart && IsNodeRun(cfg, id, prompt, path) && Modelled(cfg, model, path)
    requires m < |path| && n < |path[m].log|
    ensures k < m && ClosedBy(cfg, model, path, path[m].log[n], k)
    ensures && path[k].phase.Stepping? && path[k].block == path[m].log[n].block && path[k].step == path[m].log[n].step
            && path[m].log[n].p == model(path[k].block * cfg.stepsPerBlock + path[k].step, path[k].x).p
  {
    hide NodeStep, Modelled, ModelStep;
    StepLogs(cfg, id, prompt, path, m);
    if n < |path[m - 1].log| {
      k := SyncScoredBy(cfg, model, id, prompt, path, m - 1, n);
    } else {
      SyncComesAfterStep(cfg, id, prompt, path, m - 1);
      k := m - 2;
      ClosesWindow(cfg, model, path, k, path[m].log[n]);
    }
  }

  lemma StepLogs(cfg: Config, id: NodeId, prompt: seq<nat>, path: seq<Node>, m: nat)
    requires cfg.Valid() && |prompt| == cfg.genStart && IsNodeRun(cfg, id, prompt, path) && m < |path|
    ensures m == 0 ==> path[m].log == []
    ensures m > 0 ==>
              var a, b := path[m - 1], path[m];
              || b.log == a.log
              || (a.phase.Publishing? && |b.log| == |a.log| + 1 && b.log[..|a.log|] == a.log
                  && b.log[|a.log|].block == a.block && b.log[|a.log|].step == a.step && b.log[|a.log|].p == a.p)
  {
    hide Outcome, Overlaid, OverlaidAge, StepInput.IsRemask, StepInput.IsTransfer, StepInput.NextX,
         StepInput.NextAge, StepInput.Contained, Disputes, OwnView, Opening;
    if m > 0 {
      assert NodeStep(cfg, path[m - 1], path[m - 1 + 1]);
    }
  }

  lemma ClosesWindow(cfg: Config, model: (nat, seq<nat>) -> Forward, path: seq<Node>, k: nat, r: SyncRecord)
    requires cfg.Valid() && Modelled(cfg, model, path) && k + 1 < |path|
    requires path[k].phase.Stepping? && path[k + 1].phase.Publishing?
    requires r.block == path[k + 1].block && r.step == path[k + 1].step && r.p == path[k + 1].p
    ensures ClosedBy(cfg, model, path, r, k)
  {
    assert ModelStep(cfg, model, path[k], path[k + 1]);
    hide Modelled, StepInput.IsRemask, StepInput.IsTransfer, StepInput.NextX, StepInput.NextAge, StepInput.Contained;
  }

  /** Completeness of a finished round, whatever the barriers gave: what it returns misses nothing below the
      boundary, and nothing of the generation when no boundary was set; then all blocks were run, with exactly
      num_blocks * ceil(steps_per_block / sync_every) syncs. When every step was contained every block it ran is
      complete beyond the boundary too. The boundary is the least candidate that enough consecutive syncs agreed
      on. */
  lemma FinishedRun(cfg: Config, id: NodeId, prompt: seq<nat>, path: seq<Node>)
    requires cfg.Valid() && |prompt| == cfg.genStart && IsNodeRun(cfg, id, prompt, path)
    requires path[|path| - 1].phase.Done?
    ensures var st := path[|path| - 1];
            && (forall i: nat :: i < cfg.BlockStart(cfg.numBlocks) && Facts.BelowStop(st, i) ==> i in st.shared)
            && (st.clean ==> forall i: nat :: i < cfg.BlockStart(st.block) ==> i in st.shared)
            && (st.det.stop.None? ==> st.clean && st.block == cfg.numBlocks)
            && (Freeze.MergedBelow(cfg, st.log, |st.log|) ==> (st.clean <==> Freeze.Harmless(cfg, st.log)))
            && st.SyncSeq() == st.block * SyncsPerBlock(cfg)
            && Stop.IsLeastConfirmed(Stop.NonEmpty(Facts.Readings(cfg, st.log)), cfg.stop.stopConfirmations,
                st.det.stop)
  {
    assert path != [];
    hide IsNodeRun, SyncsPerBlock, Facts.Windowed, Facts.Retained, Facts.Aging, Facts.Mirroring, Facts.Bounded,
         Facts.OwnInBlock, Stop.IsLeastConfirmed, Facts.OwnUntilFrozen, Facts.Ranged, Facts.Filled, Facts.BelowStop,
         Freeze.QuietBelow, Freeze.GapStays, Freeze.CleanBelow, Freeze.Overlays, Freeze.Anchored, Freeze.MergedBelow,
         Freeze.Harmless;
    NodeRunKeepsInv(cfg, id, prompt, path, |path| - 1);
    var st := path[|path| - 1];
    Facts.BoundaryIsOffline(cfg, st);
    hide Facts.Checked, Facts.Covering, Counting, Shape;
    Facts.FinishedRound(cfg, st);
    Facts.FinishedFilled(cfg, st);
    if Freeze.MergedBelow(cfg, st.log, |st.log|) {
      Freeze.FinishedClean(cfg, st);
    }
  }
}
