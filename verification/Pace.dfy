/** The pace at which a block fills up over a whole round: the quota of every step, together with what
    the others settle in between, keeps the block's masks below a straight line to zero. */
module Pace {
  import opened Prelude
  import opened Arith
  import opened Consensus
  import opened LocalStep
  import opened NodeMachine
  import opened NodeRuns
  import Facts = NodeFacts
  import Invariant = NodeInvariant
  import StepFacts
  import Quota

  ghost function BlockMasks(cfg: Config, st: Node): set<nat> {
    set i: nat | i < |st.x| && Facts.OfBlock(cfg, st.block, i) && st.x[i] == cfg.step.maskId
  }

  /** Denoising steps taken in the current block. */
  function Taken(st: Node): nat {
    st.step + if InSync(st) then 1 else 0
  }

  /** Nobody settled on the mask token itself. */
  ghost predicate NoMaskTokens(cfg: Config, st: Node) {
    && (forall n, p :: 0 <= n < |st.steps| && p in st.steps[n] ==> st.steps[n][p].token != cfg.step.maskId)
    && (forall n, p :: 0 <= n < |st.log| && p in st.log[n].agreed.shared ==>
        st.log[n].agreed.shared[p] != cfg.step.maskId)
  }

  ghost predicate Unhindered(cfg: Config, st: Node) {
    st.clean && NoMaskTokens(cfg, st) && cfg.step.remaskMinAge >= cfg.syncEvery
  }

  ghost predicate InPace(cfg: Config, st: Node)
    requires cfg.Valid()
  {
    Unhindered(cfg, st) && !st.phase.Done? && Taken(st) <= cfg.stepsPerBlock ==>
      |BlockMasks(cfg, st)| * cfg.stepsPerBlock <= cfg.blockLength * (cfg.stepsPerBlock - Taken(st))
  }

  lemma FreshBlock(cfg: Config, st: Node)
    requires cfg.Valid()
    ensures |BlockMasks(cfg, st)| <= cfg.blockLength
  {
    BlockStarts(cfg, st.block);
    var block := Interval(cfg.BlockStart(st.block), cfg.BlockStart(st.block + 1));
    hide Config.BlockStart;
    SubsetSize(BlockMasks(cfg, st), block);
  }

  lemma FreshInPace(cfg: Config, st: Node)
    requires cfg.Valid() && Taken(st) == 0
    ensures InPace(cfg, st)
  {
    hide BlockMasks, Unhindered;
    FreshBlock(cfg, st);
    MulMono(|BlockMasks(cfg, st)|, cfg.blockLength, cfg.stepsPerBlock);
  }

  lemma StepTokens(cfg: Config, st: Node, fwd: Forward, transfer: set<nat>, remask: set<nat>, st': Node)
    requires cfg.Valid() && LocalWork(cfg, st, fwd, transfer, remask, st') && Unhindered(cfg, st')
    ensures Unhindered(cfg, st) && Input(cfg, st, fwd).Contained()
    ensures forall i :: i in transfer ==> fwd.x0(i) != cfg.step.maskId
  {
    hide StepInput.IsRemask, StepInput.IsTransfer, StepInput.Contained, StepInput.NextX, StepInput.NextAge;
    assert st'.steps[|st.steps|] == Settled(fwd, transfer);
    assert forall n :: 0 <= n < |st.steps| ==> st'.steps[n] == st.steps[n];
    forall i: nat | i in transfer
      ensures fwd.x0(i) != cfg.step.maskId
    {
      assert i in st'.steps[|st.steps|];
    }
  }

  /** A step takes its share off the block's masks. */
  lemma StepShare(cfg: Config, st: Node, fwd: Forward, transfer: set<nat>, remask: set<nat>, st': Node)
    requires cfg.Valid() && Shape(cfg, st) && Counting(cfg, st) && Facts.Aging(cfg, st)
    requires LocalWork(cfg, st, fwd, transfer, remask, st') && Unhindered(cfg, st')
    ensures |BlockMasks(cfg, st')| == |BlockMasks(cfg, st)| - Quota.Share(|BlockMasks(cfg, st)|,
        cfg.stepsPerBlock - st.step)
  {
    hide Counting, Facts.Aging, StepInput.IsRemask, StepInput.IsTransfer, StepInput.Contained, StepInput.NextX,
        StepInput.NextAge, Config.BlockStart, Unhindered, Quota.Share;
    StepTokens(cfg, st, fwd, transfer, remask, st');
    MinAge(cfg, st');
    Facts.NeverReopens(cfg, st, fwd, transfer, remask, st');
    BlockStarts(cfg, st.block);
    var s := Input(cfg, st, fwd);
    var s' := s.(x := st'.x);
    StepFacts.MasksLeft(s, transfer, s');
    assert s.Masked() == BlockMasks(cfg, st) && s'.Masked() == BlockMasks(cfg, st');
  }

  lemma MinAge(cfg: Config, st: Node)
    requires Unhindered(cfg, st)
    ensures cfg.step.remaskMinAge >= cfg.syncEvery && st.clean
  {
  }

  lemma QuotaKeepsPace(masks: nat, left: nat, s: nat, steps: nat, length: nat)
    requires s >= 1 && left == masks - Quota.Share(masks, s) && masks * steps <= length * s
    ensures left * steps <= length * (s - 1)
  {
    hide Quota.Share;
    Quota.ShareShrinks(masks, left, s);
    Quota.ScaleDown(masks, left, s, steps, length);
  }

  lemma WorkKeepsPace(cfg: Config, st: Node, fwd: Forward, transfer: set<nat>, remask: set<nat>, st': Node)
    requires cfg.Valid() && Shape(cfg, st) && Counting(cfg, st) && Facts.Aging(cfg, st) && InPace(cfg, st)
    requires LocalWork(cfg, st, fwd, transfer, remask, st')
    ensures InPace(cfg, st')
  {
    hide Unhindered, BlockMasks, Shape, Counting, Facts.Aging, LocalWork, Quota.Share, Taken, StepInput.Contained;
    StepTaken(cfg, st, fwd, transfer, remask, st');
    if Unhindered(cfg, st') {
      StepShare(cfg, st, fwd, transfer, remask, st');
      StepTokens(cfg, st, fwd, transfer, remask, st');
      QuotaKeepsPace(|BlockMasks(cfg, st)|, |BlockMasks(cfg, st')|, cfg.stepsPerBlock - st.step, cfg.stepsPerBlock,
          cfg.blockLength);
    }
  }

  lemma StepTaken(cfg: Config, st: Node, fwd: Forward, transfer: set<nat>, remask: set<nat>, st': Node)
    requires cfg.Valid() && LocalWork(cfg, st, fwd, transfer, remask, st')
    ensures Taken(st) == st.step < cfg.stepsPerBlock && Taken(st') == st.step + 1 && !st.phase.Done?
  {
    hide StepInput.IsRemask, StepInput.IsTransfer, StepInput.Contained, StepInput.NextX, StepInput.NextAge;
  }

  /** What the others settled can only take more masks away. */
  lemma SyncOnlyFills(cfg: Config, st: Node, view: Commits, scores: Scores)
    requires cfg.Valid() && Synced(cfg, st, view, scores).block == st.block
        && Unhindered(cfg, Synced(cfg, st, view, scores))
    ensures BlockMasks(cfg, Synced(cfg, st, view, scores)) <= BlockMasks(cfg, st)
  {
    hide Outcome, OverlaidAge, Config.BlockStart;
    var st' := Synced(cfg, st, view, scores);
    assert st'.log[|st.log|].agreed.shared == st'.shared;
    forall i: nat | i in BlockMasks(cfg, st')
      ensures i in BlockMasks(cfg, st)
    {
      assert st'.x[i] == Overlaid(cfg, st.block, st'.shared, st.x, i);
    }
  }

  lemma SyncTokens(cfg: Config, st: Node, view: Commits, scores: Scores)
    requires cfg.Valid() && Unhindered(cfg, Synced(cfg, st, view, scores))
    ensures Unhindered(cfg, st)
  {
    hide Outcome, Overlaid, OverlaidAge;
    var st' := Synced(cfg, st, view, scores);
    assert forall n :: 0 <= n < |st.log| ==> st'.log[n] == st.log[n];
  }

  lemma SyncTaken(cfg: Config, st: Node, view: Commits, scores: Scores)
    requires cfg.Valid() && InSync(st) && st.step < cfg.stepsPerBlock
    ensures var st' := Synced(cfg, st, view, scores);
            Taken(st) == st.step + 1 && !st.phase.Done?
                && (if st'.block == st.block then Taken(st') == st.step + 1 else Taken(st') == 0)
  {
    hide SyncShared, Overlaid, OverlaidAge;
  }

  lemma SyncKeepsPace(cfg: Config, st: Node, view: Commits, scores: Scores)
    requires cfg.Valid() && InSync(st) && st.step < cfg.stepsPerBlock && InPace(cfg, st)
    ensures InPace(cfg, Synced(cfg, st, view, scores))
  {
    hide Synced, Unhindered, BlockMasks;
    var st' := Synced(cfg, st, view, scores);
    SyncTaken(cfg, st, view, scores);
    if Unhindered(cfg, st') {
      if st'.block == st.block {
        SyncTokens(cfg, st, view, scores);
        SyncOnlyFills(cfg, st, view, scores);
        SubsetSize(BlockMasks(cfg, st'), BlockMasks(cfg, st));
        MulMono(|BlockMasks(cfg, st')|, |BlockMasks(cfg, st)|, cfg.stepsPerBlock);
      } else {
        FreshInPace(cfg, st');
      }
    }
  }

  lemma StepKeepsPace(cfg: Config, st: Node, st': Node)
    requires cfg.Valid() && Invariant.Inv(cfg, st) && InPace(cfg, st) && NodeStep(cfg, st, st')
    ensures InPace(cfg, st')
  {
    hide Facts.Windowed, Facts.Retained, Facts.Covering, Facts.Mirroring, Facts.Bounded, Facts.Checked,
         Facts.OwnInBlock, Facts.Aging, Counting, InPace, LocalWork, Synced, OwnView;
    if WorkStep(cfg, st, st') {
      var fwd, transfer, remask :| LocalWork(cfg, st, fwd, transfer, remask, st');
      WorkKeepsPace(cfg, st, fwd, transfer, remask, st');
    } else {
      var view, scores :| OwnView(st, view, scores) && st' == Synced(cfg, st, view, scores);
      SyncKeepsPace(cfg, st, view, scores);
    }
  }

  /** In every state of every round whose steps were contained, where nothing may be reopened between two
      syncs and nobody settles on the mask token: after j steps of a block at most its length times
      (steps_per_block - j) / steps_per_block of its positions are masked, whatever the others did. */
  lemma {:induction false} RoundInPace(cfg: Config, id: NodeId, prompt: seq<nat>, path: seq<Node>, k: nat)
    requires cfg.Valid() && |prompt| == cfg.genStart && IsNodeRun(cfg, id, prompt, path) && k < |path|
    ensures InPace(cfg, path[k])
  {
    hide NodeStep, Invariant.Inv, InPace;
    if k == 0 {
      FreshInPace(cfg, path[0]);
    } else {
      RoundInPace(cfg, id, prompt, path, k - 1);
      NodeRunKeepsInv(cfg, id, prompt, path, k - 1);
      StepKeepsPace(cfg, path[k - 1], path[k - 1 + 1]);
    }
  }
}
