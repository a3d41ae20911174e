/** What the machine's transitions do, told by the configuration's numbers alone. */
module NodeLaws {
  import opened Prelude
  import opened Arith
  import opened Consensus
  import opened LocalStep
  import opened NodeMachine
  import StepFacts
  import Stop = StopDetection

  lemma BlockAt(cfg: Config, b: nat)
    requires cfg.Valid()
    ensures cfg.BlockStart(b) == cfg.genStart + b * cfg.blockLength
    ensures cfg.BlockStart(b + 1) == cfg.genStart + b * cfg.blockLength + cfg.blockLength
  {
    MulSucc(b, cfg.blockLength);
  }

  lemma InputIs(cfg: Config, st: Node, fwd: Forward, transfer: set<nat>, remask: set<nat>, st': Node, lo: nat, hi: nat)
    requires cfg.Valid() && Shape(cfg, st) && LocalWork(cfg, st, fwd, transfer, remask, st')
    requires lo == cfg.genStart + st.block * cfg.blockLength && hi == lo + cfg.blockLength
    ensures var s := Input(cfg, st, fwd);
            && s.Valid() && s.IsTransfer(transfer) && s.IsRemask(remask)
            && s == StepInput(cfg.step, fwd, st.x, st.age, cfg.stepsPerBlock - st.step, lo, hi, cfg.stepsPerBlock,
                              st.det.stop)
  {
    hide StepInput.IsTransfer, StepInput.IsRemask, Worked, Config.BlockStart;
    BlockAt(cfg, st.block);
    BlockStarts(cfg, st.block);
  }

  /** A step of the block [lo, hi) settles its share of the block's masks. */
  lemma WorkCounts(cfg: Config, st: Node, fwd: Forward, transfer: set<nat>, remask: set<nat>, st': Node, lo: nat,
                   hi: nat)
    requires cfg.Valid() && Shape(cfg, st) && LocalWork(cfg, st, fwd, transfer, remask, st')
    requires lo == cfg.genStart + st.block * cfg.blockLength && hi == lo + cfg.blockLength
    ensures forall i :: i in transfer ==> i < |st.x|
    ensures var masks := set i: nat | i < |st.x| && lo <= i < hi && st.x[i] == cfg.step.maskId;
            (|transfer| - 1) * (cfg.stepsPerBlock - st.step) < |masks| <= |transfer| * (cfg.stepsPerBlock - st.step)
  {
    InputIs(cfg, st, fwd, transfer, remask, st', lo, hi);
    var s := Input(cfg, st, fwd);
    hide LocalWork, Input, StepInput.IsTransfer, StepInput.IsRemask;
    StepFacts.TransferCounts(s, transfer);
    var masks := set i: nat | i < |st.x| && lo <= i < hi && st.x[i] == cfg.step.maskId;
    assert masks == set i: nat | i < |s.x| && s.blockStart <= i < s.blockEnd && s.x[i] == s.cfg.maskId;
  }

  /** Whatever it settles, it passes over no mask of the block before the boundary that the model was surer of. */
  lemma WorkRanks(cfg: Config, st: Node, fwd: Forward, transfer: set<nat>, remask: set<nat>, st': Node, lo: nat,
                  hi: nat, a: nat, b: nat)
    requires cfg.Valid() && Shape(cfg, st) && LocalWork(cfg, st, fwd, transfer, remask, st')
    requires lo == cfg.genStart + st.block * cfg.blockLength && hi == lo + cfg.blockLength
    requires a in transfer && b !in transfer && b < |st.x| && lo <= b < hi && st.x[b] == cfg.step.maskId
    requires st.det.stop.Some? ==> b < st.det.stop.value
    ensures a < |st.x| && lo <= a < hi && st.x[a] == cfg.step.maskId
    ensures st.det.stop.Some? ==> a < st.det.stop.value
    ensures fwd.p(b, fwd.x0(b))
            - (if fwd.x0(b) == cfg.step.eosId && fwd.eosMargin(b) < cfg.step.eosMarginThreshold then 100.0 else 0.0)
            <= fwd.p(a, fwd.x0(a))
               - if fwd.x0(a) == cfg.step.eosId && fwd.eosMargin(a) < cfg.step.eosMarginThreshold then 100.0 else 0.0
  {
    InputIs(cfg, st, fwd, transfer, remask, st', lo, hi);
    hide LocalWork, Input, Shape, StepInput.IsTransfer, StepInput.IsRemask;
    StepFacts.TransferRanks(Input(cfg, st, fwd), transfer, a, b);
  }

  /** What it reopens was settled, in the block, before the boundary, old enough and given less than the threshold,
      and nothing left settled of that kind was given less; and in the reserved last steps it reopens nothing. */
  lemma WorkReopens(cfg: Config, st: Node, fwd: Forward, transfer: set<nat>, remask: set<nat>, st': Node, lo: nat,
                    hi: nat, eligible: set<nat>, low: set<nat>, share: real, reserve: real)
    requires cfg.Valid() && Shape(cfg, st) && LocalWork(cfg, st, fwd, transfer, remask, st')
    requires lo == cfg.genStart + st.block * cfg.blockLength && hi == lo + cfg.blockLength
    requires forall i: nat :: i in eligible <==>
               && i < |st.x| && lo <= i < hi && st.x[i] != cfg.step.maskId
               && (st.det.stop.Some? ==> i < st.det.stop.value) && st.age[i] >= cfg.step.remaskMinAge
    requires forall i :: i in low <==> i in eligible && fwd.p(i, st.x[i]) < cfg.step.remaskConfThreshold
    requires share == PartOf(cfg.step.remaskMaxFrac, |eligible|)
    requires reserve == PartOf(cfg.step.remaskReserveFrac, cfg.stepsPerBlock)
    ensures var cap := if share < 1.0 then 1 else share.Floor;
            var left := cfg.stepsPerBlock - st.step;
            if left > 1 && left > Round(reserve) then
              && remask <= low && |remask| == (if |low| < cap then |low| else cap)
              && forall a, b :: a in remask && b in low && b !in remask ==> fwd.p(a, st.x[a]) <= fwd.p(b, st.x[b])
            else remask == {}
  {
    InputIs(cfg, st, fwd, transfer, remask, st', lo, hi);
    hide LocalWork, Input, Shape, Config.Valid, StepInput.IsTransfer, StepInput.IsRemask, Round, PartOf;
    var s := StepInput(cfg.step, fwd, st.x, st.age, cfg.stepsPerBlock - st.step, lo, hi, cfg.stepsPerBlock,
                       st.det.stop);
    StepFacts.RemaskOf(s, remask, eligible, low);
  }

  /** What it leaves behind: the tokens and ages, the pending commits, and whether a sync is due. */
  lemma WorkLeaves(cfg: Config, st: Node, fwd: Forward, transfer: set<nat>, remask: set<nat>, st': Node)
    requires cfg.Valid() && Shape(cfg, st) && LocalWork(cfg, st, fwd, transfer, remask, st')
    ensures |st'.x| == |st.x| == |st'.age| == |st.age|
    ensures forall i :: 0 <= i < |st.x| ==>
              && st'.x[i] == (if i in transfer then fwd.x0(i) else if i in remask then cfg.step.maskId else st.x[i])
              && st'.age[i] == if i in transfer || i in remask then 0
                               else if st.x[i] == cfg.step.maskId then st.age[i] else st.age[i] + 1
    ensures st'.pending.Keys == st.pending.Keys + transfer
    ensures forall i :: i in transfer ==>
              st'.pending[i].token == fwd.x0(i) && st'.pending[i].confidence == fwd.p(i, fwd.x0(i))
    ensures forall i :: i in st.pending && i !in transfer ==> st'.pending[i] == st.pending[i]
    ensures st'.shared == st.shared && st'.det == st.det && st'.block == st.block && st'.log == st.log
    ensures if (st.step + 1) % cfg.syncEvery == 0 || st.step + 1 == cfg.stepsPerBlock
            then st'.phase.Publishing? && st'.step == st.step else st'.phase.Stepping? && st'.step == st.step + 1
  {
    hide StepInput.IsTransfer, StepInput.IsRemask, StepInput.Contained;
    BlockStarts(cfg, st.block);
    var s := Input(cfg, st, fwd);
    forall i: nat | i < |st.x|
      ensures st'.x[i] == (if i in transfer then fwd.x0(i) else if i in remask then cfg.step.maskId else st.x[i])
      ensures st'.age[i] == if i in transfer || i in remask then 0
                            else if st.x[i] == cfg.step.maskId then st.age[i] else st.age[i] + 1
    {
      StepFacts.NextIs(s, transfer, remask, i);
    }
  }

  /** What a sync leaves behind: the block of the sync takes the agreed tokens, and the next step, block or the end
      follows. A block is begun only if it starts before the boundary. */
  lemma SyncLeaves(cfg: Config, st: Node, view: Commits, scores: Scores, lo: nat, hi: nat)
    requires cfg.Valid() && Shape(cfg, st)
    requires lo == cfg.genStart + st.block * cfg.blockLength && hi == lo + cfg.blockLength
    ensures var st' := Synced(cfg, st, view, scores);
            && |st'.x| == |st.x| == |st'.age| == |st.age| && st'.pending == map[]
            && (forall i :: 0 <= i < |st.x| ==>
                  st'.x[i] == if lo <= i < hi && i in st'.shared then st'.shared[i] else st.x[i])
            && (if st.step + 1 < cfg.stepsPerBlock then
                  && st'.phase.Stepping? && st'.block == st.block && st'.step == st.step + 1
                  && forall i :: 0 <= i < |st.x| ==>
                       st'.age[i] == if lo <= i < hi && i in st'.shared then 0 else st.age[i]
                else
                  && st'.block == st.block + 1 && st'.step == 0
                  && (forall i :: 0 <= i < |st.x| ==> st'.age[i] == 0)
                  && (st'.phase.Stepping? || st'.phase.Done?)
                  && (st'.phase.Stepping? <==>
                        st'.block < cfg.numBlocks && (st'.det.stop.Some? ==> hi < st'.det.stop.value)))
  {
    hide SyncShared, Stop.Read, Stop.Step;
    BlockAt(cfg, st.block);
    var st' := Synced(cfg, st, view, scores);
    forall i: nat | i < |st.x|
      ensures st'.x[i] == if lo <= i < hi && i in st'.shared then st'.shared[i] else st.x[i]
    {
      assert st'.x[i] == Overlaid(cfg, st.block, st'.shared, st.x, i);
    }
    forall i: nat | i < |st.age|
      ensures st'.age[i] == if st'.block != st.block then 0
                            else if lo <= i < hi && i in st'.shared then 0 else st.age[i]
    {
      assert st'.block == st.block ==> st'.age[i] == OverlaidAge(cfg, st.block, st'.shared, st.age, i);
    }
  }

  /** A round starts with the prompt, shared, and masks. */
  lemma StartIs(cfg: Config, id: NodeId, prompt: seq<nat>)
    requires cfg.Valid() && |prompt| == cfg.genStart
    ensures var st := Start(cfg, id, prompt);
            && |st.x| == |st.age| == cfg.genEnd && st.phase.Stepping? && st.block == st.step == 0
            && (forall i :: 0 <= i < cfg.genEnd ==>
                  st.age[i] == 0 && st.x[i] == if i < |prompt| then prompt[i] else cfg.step.maskId)
            && (forall i: nat :: i in st.shared <==> i < |prompt|)
            && (forall i :: i in st.shared ==> st.shared[i] == prompt[i])
            && st.pending == map[] && st.det.stop == None && st.log == []
  {
    var st := Start(cfg, id, prompt);
    assert forall i: nat :: i < cfg.genEnd ==> st.x[i] == OpeningToken(cfg, prompt, i);
  }
}
