/** What a node's round keeps, step by step, whatever its model predicts and whatever the barriers
    deliver (node/generation.py:99-250). */
module NodeFacts {
  import opened Arith
  import opened Consensus
  import opened LocalStep
  import opened NodeMachine
  import StepFacts
  import Stop = StopDetection

  // ---------------------------------------------------------------- sync windows

  /** Later steps of a window win. */
  ghost function Fold(window: seq<CommitMap>): CommitMap {
    if window == [] then map[] else Fold(window[..|window| - 1]) + window[|window| - 1]
  }

  ghost function Windows(log: seq<SyncRecord>): seq<CommitMap> {
    if log == [] then [] else Windows(log[..|log| - 1]) + log[|log| - 1].window
  }

  /** The sync windows partition the steps, and each COMMIT says what its window settled. */
  ghost predicate Windowed(cfg: Config, st: Node) {
    && st.steps == Windows(st.log) + st.window
    && st.pending == Fold(st.window)
    && forall n :: 0 <= n < |st.log| ==>
         && 1 <= |st.log[n].window| <= cfg.syncEvery
         && st.id in st.log[n].view && st.log[n].view[st.id] == Fold(st.log[n].window)
  }

  lemma WorkKeepsWindowed(cfg: Config, st: Node, fwd: Forward, transfer: set<nat>, remask: set<nat>, st': Node)
    requires cfg.Valid() && Windowed(cfg, st) && LocalWork(cfg, st, fwd, transfer, remask, st')
    ensures Windowed(cfg, st')
  {
    var settled := Settled(fwd, transfer);
    assert st'.window[..|st'.window| - 1] == st.window;
    assert Windows(st.log) + st.window + [settled] == Windows(st.log) + (st.window + [settled]);
  }

  lemma SyncKeepsWindowed(cfg: Config, st: Node, view: Commits, scores: Scores)
    requires cfg.Valid() && Windowed(cfg, st) && Counting(cfg, st) && InSync(st)
    requires OwnView(st, view, scores)
    ensures Windowed(cfg, Synced(cfg, st, view, scores))
  {
    hide Outcome, Synced, Disputes, ScoresFor, SyncsPerBlock, Recorded;
    NextDiv(st.step, cfg.syncEvery);
    SyncedRecord(cfg, st, view, scores);
    var st' := Synced(cfg, st, view, scores);
    assert st'.log[..|st'.log| - 1] == st.log;
  }

  ghost predicate LastAt(window: seq<CommitMap>, pos: nat, i: int) {
    0 <= i < |window| && pos in window[i] && forall j :: i < j < |window| ==> pos !in window[j]
  }

  /** Read off one COMMIT: it names exactly the positions its window settled, each with the proposal of
      the window's last step that settled it. */
  lemma {:induction false} FoldIsLast(window: seq<CommitMap>, pos: nat)
    ensures pos in Fold(window) <==> exists i :: 0 <= i < |window| && pos in window[i]
    ensures pos in Fold(window) ==> exists i :: LastAt(window, pos, i) && Fold(window)[pos] == window[i][pos]
  {
    if window != [] {
      var before, last := window[..|window| - 1], |window| - 1;
      FoldIsLast(before, pos);
      if pos in window[last] {
        assert LastAt(window, pos, last);
      } else if pos in Fold(before) {
        var i :| LastAt(before, pos, i) && Fold(before)[pos] == before[i][pos];
        assert window[i] == before[i];
        assert forall j :: i < j < last ==> window[j] == before[j];
        assert LastAt(window, pos, i);
      } else {
        assert forall i :: 0 <= i < last ==> window[i] == before[i];
      }
    }
  }

  // ---------------------------------------------------------------- nothing settled is lost

  /** Every settled position is published or about to be. */
  ghost predicate Retained(cfg: Config, st: Node) {
    forall i: nat :: i < |st.x| && st.x[i] != cfg.step.maskId ==> i in st.shared || i in st.pending
  }

  lemma WorkKeepsRetained(cfg: Config, st: Node, fwd: Forward, transfer: set<nat>, remask: set<nat>, st': Node)
    requires cfg.Valid() && Retained(cfg, st) && LocalWork(cfg, st, fwd, transfer, remask, st')
    ensures Retained(cfg, st')
  {
    hide StepInput.IsRemask, StepInput.IsTransfer, StepInput.Contained;
    var s := Input(cfg, st, fwd);
    assert |st'.x| == |st.x|;
    forall i: nat | i < |st'.x| && st'.x[i] != cfg.step.maskId
      ensures i in st'.shared || i in st'.pending
    {
      assert st'.x[i] == s.NextToken(transfer, remask, i);
      if i in transfer {
        assert i in Settled(fwd, transfer);
      }
    }
  }

  lemma ViewKeepsPending(st: Node, view: Commits, scores: Scores, exp: real -> real, i: nat)
    requires OwnView(st, view, scores)
    requires i in st.shared || i in st.pending
    ensures i in SyncShared(st.shared, view, scores, exp)
  {
    SyncKeys(st.shared, view, scores, exp);
    if i in st.pending {
      assert st.id in view && i in view[st.id];
      assert i in ProposedPositions(view);
    }
  }

  lemma SyncKeepsRetained(cfg: Config, st: Node, view: Commits, scores: Scores)
    requires cfg.Valid() && Retained(cfg, st) && OwnView(st, view, scores)
    ensures Retained(cfg, Synced(cfg, st, view, scores))
  {
    hide SyncShared, OwnView, OverlaidAge;
    var st' := Synced(cfg, st, view, scores);
    forall i: nat | i < |st'.x| && st'.x[i] != cfg.step.maskId
      ensures i in st'.shared
    {
      assert st'.x[i] == Overlaid(cfg, st.block, st'.shared, st.x, i);
      if st.x[i] != cfg.step.maskId {
        ViewKeepsPending(st, view, scores, cfg.exp, i);
      }
    }
  }

  // ---------------------------------------------------------------- block completeness

  ghost predicate OfBlock(cfg: Config, b: nat, i: nat) {
    cfg.BlockStart(b) <= i < cfg.BlockStart(b + 1)
  }

  /** In a round whose steps were all contained: the blocks behind are complete, and once the last step
      of the current one is taken every position of it is published or about to be. */
  ghost predicate Covering(cfg: Config, st: Node) {
    st.clean ==>
      && (forall i: nat :: i < cfg.BlockStart(st.block) ==> i in st.shared)
      && (InSync(st) && st.step + 1 == cfg.stepsPerBlock ==>
            forall i: nat :: OfBlock(cfg, st.block, i) ==> i in st.shared || i in st.pending)
  }

  lemma LastStepSettlesAll(cfg: Config, st: Node, fwd: Forward, transfer: set<nat>)
    requires cfg.Valid() && Shape(cfg, st) && st.phase.Stepping? && st.step + 1 == cfg.stepsPerBlock
    requires Input(cfg, st, fwd).IsTransfer(transfer) && Input(cfg, st, fwd).Contained()
    ensures forall i: nat :: OfBlock(cfg, st.block, i) ==> i < |st.x| && (i in transfer || st.x[i] != cfg.step.maskId)
  {
    hide StepInput.IsTransfer, StepInput.Candidates, StepInput.Contained, Config.Valid;
    var s := Input(cfg, st, fwd);
    InputValid(cfg, st, fwd);
    assert transfer == s.Masked() by {
      hide StepInput.Masked;
      StepFacts.TransferContained(s, transfer);
      StepFacts.LastStepContained(s, transfer);
    }
    hide StepInput.Valid, Config.BlockStart;
    forall i: nat | OfBlock(cfg, st.block, i)
      ensures i < |st.x| && (i in transfer || st.x[i] != cfg.step.maskId)
    {
      assert i < |s.x| && st.x[i] == cfg.step.maskId ==> i in s.Masked();
    }
  }

  lemma InputValid(cfg: Config, st: Node, fwd: Forward)
    requires cfg.Valid() && Shape(cfg, st) && st.phase.Stepping?
    ensures Input(cfg, st, fwd).Valid() && Input(cfg, st, fwd).blockEnd <= |st.x|
    ensures Input(cfg, st, fwd).blockEnd == cfg.BlockStart(st.block + 1)
  {
    BlockStarts(cfg, st.block);
  }

  lemma WorkKeepsCovering(cfg: Config, st: Node, fwd: Forward, transfer: set<nat>, remask: set<nat>, st': Node)
    requires cfg.Valid() && Shape(cfg, st) && Retained(cfg, st) && Covering(cfg, st)
    requires LocalWork(cfg, st, fwd, transfer, remask, st')
    ensures Covering(cfg, st')
  {
    hide StepInput.IsRemask, StepInput.IsTransfer, StepInput.Contained, StepInput.NextX, StepInput.NextAge;
    if st'.clean && InSync(st') && st'.step + 1 == cfg.stepsPerBlock {
      LastStepSettlesAll(cfg, st, fwd, transfer);
      forall i: nat | OfBlock(cfg, st.block, i)
        ensures i in st'.shared || i in st'.pending
      {
        if i in transfer {
          assert i in Settled(fwd, transfer);
        }
      }
    }
  }

  lemma SyncKeepsCovering(cfg: Config, st: Node, view: Commits, scores: Scores)
    requires cfg.Valid() && Shape(cfg, st) && Covering(cfg, st) && InSync(st) && OwnView(st, view, scores)
    ensures Covering(cfg, Synced(cfg, st, view, scores))
  {
    hide SyncShared, OwnView, Overlaid, OverlaidAge;
    BlockStarts(cfg, st.block);
    var st' := Synced(cfg, st, view, scores);
    if st'.clean {
      forall i: nat | i < cfg.BlockStart(st'.block)
        ensures i in st'.shared
      {
        ViewKeepsPending(st, view, scores, cfg.exp, i);
      }
    }
  }

  ghost predicate BelowStop(st: Node, i: nat) {
    st.det.stop.None? || i < st.det.stop.value
  }

  /** In every round: what lies below the boundary is complete in the blocks behind, and published or about
      to be in the current one once its last step is taken. */
  ghost predicate Filled(cfg: Config, st: Node) {
    && (forall i: nat :: i < cfg.BlockStart(st.block) && BelowStop(st, i) ==> i in st.shared)
    && (InSync(st) && st.step + 1 == cfg.stepsPerBlock ==>
          forall i: nat :: OfBlock(cfg, st.block, i) && BelowStop(st, i) ==> i in st.shared || i in st.pending)
  }

  /** The last step of a block settles every mask below the boundary, contained or not. */
  lemma LastStepSettlesBelow(cfg: Config, st: Node, fwd: Forward, transfer: set<nat>)
    requires cfg.Valid() && Shape(cfg, st) && st.phase.Stepping? && st.step + 1 == cfg.stepsPerBlock
    requires Input(cfg, st, fwd).IsTransfer(transfer)
    ensures forall i: nat :: OfBlock(cfg, st.block, i) && BelowStop(st, i) ==>
              i < |st.x| && (i in transfer || st.x[i] != cfg.step.maskId)
  {
    hide StepInput.IsTransfer, Config.Valid;
    var s := Input(cfg, st, fwd);
    InputValid(cfg, st, fwd);
    assert s.Candidates() <= transfer by {
      hide StepInput.Candidates;
      StepFacts.LastStepTakesAll(s, transfer);
    }
    hide StepInput.Valid, Config.BlockStart;
    forall i: nat | OfBlock(cfg, st.block, i) && BelowStop(st, i)
      ensures i < |st.x| && (i in transfer || st.x[i] != cfg.step.maskId)
    {
      assert i < |s.x| && st.x[i] == cfg.step.maskId ==> i in s.Candidates();
    }
  }

  lemma WorkKeepsFilled(cfg: Config, st: Node, fwd: Forward, transfer: set<nat>, remask: set<nat>, st': Node)
    requires cfg.Valid() && Shape(cfg, st) && Retained(cfg, st) && Filled(cfg, st)
    requires LocalWork(cfg, st, fwd, transfer, remask, st')
    ensures Filled(cfg, st')
  {
    hide StepInput.IsRemask, StepInput.IsTransfer, StepInput.Contained, StepInput.NextX, StepInput.NextAge;
    if InSync(st') && st'.step + 1 == cfg.stepsPerBlock {
      LastStepSettlesBelow(cfg, st, fwd, transfer);
      forall i: nat | OfBlock(cfg, st.block, i) && BelowStop(st', i)
        ensures i in st'.shared || i in st'.pending
      {
        if i in transfer {
          assert i in Settled(fwd, transfer);
        }
      }
    }
  }

  /** A boundary that is set stays set and never rises. */
  lemma SyncLowersStop(cfg: Config, st: Node, view: Commits, scores: Scores)
    requires cfg.Valid()
    ensures var st' := Synced(cfg, st, view, scores);
            st.det.stop.Some? ==> st'.det.stop.Some? && st'.det.stop.value <= st.det.stop.value
  {
    hide SyncShared, Overlaid, OverlaidAge, Stop.Read;
  }

  lemma BelowBefore(cfg: Config, st: Node, view: Commits, scores: Scores, i: nat)
    requires cfg.Valid() && BelowStop(Synced(cfg, st, view, scores), i)
    ensures BelowStop(st, i)
  {
    hide Synced;
    SyncLowersStop(cfg, st, view, scores);
  }

  lemma SyncKeepsFilled(cfg: Config, st: Node, view: Commits, scores: Scores)
    requires cfg.Valid() && Shape(cfg, st) && Filled(cfg, st) && InSync(st) && OwnView(st, view, scores)
    ensures Filled(cfg, Synced(cfg, st, view, scores))
  {
    hide SyncShared, OwnView, Overlaid, OverlaidAge, BelowStop, Stop.Read;
    BlockStarts(cfg, st.block);
    var st' := Synced(cfg, st, view, scores);
    forall i: nat | i < cfg.BlockStart(st'.block) && BelowStop(st', i)
      ensures i in st'.shared
    {
      BelowBefore(cfg, st, view, scores, i);
      ViewKeepsPending(st, view, scores, cfg.exp, i);
    }
  }

  /** Nothing below the boundary is missing from what a finished round returns: the whole generation when
      there is none. */
  lemma FinishedFilled(cfg: Config, st: Node)
    requires cfg.Valid() && Shape(cfg, st) && Filled(cfg, st) && st.phase.Done?
    ensures forall i: nat :: i < cfg.BlockStart(cfg.numBlocks) && BelowStop(st, i) ==> i in st.shared
  {
    if st.block < cfg.numBlocks {
      MulMono(st.block, cfg.numBlocks, cfg.blockLength);
    }
  }

  /** A finished round of contained steps has published every block it ran; when the boundary never
      froze, that is the whole generation, after exactly `ceil(steps/sync_every)` syncs per block. */
  lemma FinishedRound(cfg: Config, st: Node)
    requires cfg.Valid() && Shape(cfg, st) && Counting(cfg, st) && Covering(cfg, st) && st.phase.Done?
    ensures st.clean ==> forall i: nat :: i < cfg.BlockStart(st.block) ==> i in st.shared
    ensures st.SyncSeq() == st.block * SyncsPerBlock(cfg)
    ensures st.det.stop.None? ==> st.block == cfg.numBlocks
  {
    DivModIs(0, cfg.syncEvery, 0, 0);
  }

  // ---------------------------------------------------------------- ages

  /** Within a window nothing settled in the block is older than the window. */
  ghost predicate Aging(cfg: Config, st: Node) {
    !InSync(st) && !st.phase.Done? ==>
      forall i: nat :: i < |st.x| == |st.age| && OfBlock(cfg, st.block, i) && st.x[i] != cfg.step.maskId ==>
          st.age[i] <= |st.window|
  }

  lemma WorkKeepsAging(cfg: Config, st: Node, fwd: Forward, transfer: set<nat>, remask: set<nat>, st': Node)
    requires cfg.Valid() && Aging(cfg, st) && LocalWork(cfg, st, fwd, transfer, remask, st')
    ensures Aging(cfg, st')
  {
    hide StepInput.IsRemask, StepInput.IsTransfer, StepInput.Contained;
    var s := Input(cfg, st, fwd);
    forall i: nat | i < |st'.x| && OfBlock(cfg, st'.block, i) && st'.x[i] != cfg.step.maskId && !InSync(st')
      ensures st'.age[i] <= |st'.window|
    {
      assert st'.x[i] == s.NextToken(transfer, remask, i) && st'.age[i] == s.NextTokenAge(transfer, remask, i);
    }
  }

  lemma SyncKeepsAging(cfg: Config, st: Node, view: Commits, scores: Scores)
    requires cfg.Valid() && Shape(cfg, st) && Retained(cfg, st) && InSync(st) && OwnView(st, view, scores)
    ensures Aging(cfg, Synced(cfg, st, view, scores))
  {
    hide SyncShared, OwnView, Stop.Read, Stop.Step, RoundOver, Config.BlockStart, Config.SyncDue;
    var st' := Synced(cfg, st, view, scores);
    forall i: nat | i < |st'.x| && OfBlock(cfg, st'.block, i) && st'.x[i] != cfg.step.maskId && !st'.phase.Done?
      ensures st'.age[i] == 0
    {
      if st'.block == st.block {
        assert st'.x[i] == Overlaid(cfg, st.block, st'.shared, st.x, i);
        assert st'.age[i] == OverlaidAge(cfg, st.block, st'.shared, st.age, i);
        if st.x[i] != cfg.step.maskId {
          ViewKeepsPending(st, view, scores, cfg.exp, i);
        }
      }
    }
  }

  /** With `remask_min_age >= sync_every` no step of any round ever reopens a position. */
  lemma NeverReopens(cfg: Config, st: Node, fwd: Forward, transfer: set<nat>, remask: set<nat>, st': Node)
    requires cfg.Valid() && Shape(cfg, st) && Counting(cfg, st) && Aging(cfg, st)
    requires LocalWork(cfg, st, fwd, transfer, remask, st')
    requires cfg.step.remaskMinAge >= cfg.syncEvery
    ensures remask == {}
  {
    NextDiv(st.step, cfg.syncEvery);
    BlockStarts(cfg, st.block);
    hide StepInput.IsTransfer, StepInput.NextX, StepInput.NextAge, StepInput.IsRemask;
    var s := Input(cfg, st, fwd);
    forall i: nat | i < |s.x| && s.InBlock(i) && s.x[i] != s.cfg.maskId
      ensures s.age[i] < s.cfg.remaskMinAge
    {
      assert OfBlock(cfg, st.block, i);
    }
    StepFacts.YoungStays(s, remask);
  }

  // ---------------------------------------------------------------- the sequence mirrors the shared state

  ghost predicate ViewInBlock(cfg: Config, b: nat, view: Commits) {
    forall p :: p in ProposedPositions(view) ==> OfBlock(cfg, b, p)
  }

  /** Every finished sync merged commits of its own block only. */
  ghost predicate Tidy(cfg: Config, st: Node) {
    forall n :: 0 <= n < |st.log| ==> ViewInBlock(cfg, st.log[n].block, st.log[n].view)
  }

  /** `shared_x.get(i, mask_id)` */
  function SharedOr(cfg: Config, shared: map<nat, nat>, i: nat): nat {
    if i in shared then shared[i] else cfg.step.maskId
  }

  ghost predicate Mirrors(cfg: Config, st: Node) {
    && |st.x| == cfg.genEnd
    && forall i: nat :: i < cfg.genEnd ==> st.x[i] == SharedOr(cfg, st.shared, i)
  }

  /** Where a node may have written: nothing is shared or pending beyond the current block, the sequence
      is the shared state below it and masks beyond it. */
  ghost predicate Local(cfg: Config, st: Node) {
    && |st.x| == cfg.genEnd
    && (forall p :: p in st.shared ==> p < cfg.BlockStart(if st.phase.Done? then st.block else st.block + 1))
    && (forall p :: p in st.pending ==> OfBlock(cfg, st.block, p))
    && (forall i: nat :: i < cfg.genEnd && i < cfg.BlockStart(st.block) ==> st.x[i] == SharedOr(cfg, st.shared, i))
    && (forall i: nat :: cfg.BlockStart(st.block + 1) <= i < cfg.genEnd ==> st.x[i] == cfg.step.maskId)
    && (st.window == [] ==> Mirrors(cfg, st))
  }

  ghost predicate Mirroring(cfg: Config, st: Node) {
    st.clean && Tidy(cfg, st) ==> Local(cfg, st)
  }

  lemma StartMirrors(cfg: Config, id: NodeId, prompt: seq<nat>)
    requires cfg.Valid() && |prompt| == cfg.genStart
    ensures Mirrors(cfg, Start(cfg, id, prompt)) && Mirroring(cfg, Start(cfg, id, prompt))
  {
    BlockStarts(cfg, 0);
    BlockStarts(cfg, cfg.numBlocks);
    var st := Start(cfg, id, prompt);
    forall i: nat | i < cfg.genEnd
      ensures st.x[i] == SharedOr(cfg, st.shared, i)
    {
      assert st.x[i] == OpeningToken(cfg, prompt, i);
    }
  }

  /** A contained step leaves every other block alone. */
  lemma WorkStaysInBlock(cfg: Config, st: Node, fwd: Forward, transfer: set<nat>, remask: set<nat>, st': Node)
    requires cfg.Valid() && Shape(cfg, st) && LocalWork(cfg, st, fwd, transfer, remask, st') && st'.clean
    ensures |st'.x| == |st.x| && forall i: nat :: i < |st.x| && !OfBlock(cfg, st.block, i) ==> st'.x[i] == st.x[i]
    ensures forall p :: p in st'.pending ==> p in st.pending || OfBlock(cfg, st.block, p)
    ensures st'.shared == st.shared && st'.log == st.log && st'.window != [] && st'.block == st.block
        && st'.id == st.id && !st'.phase.Done? && st.clean
  {
    var s := Input(cfg, st, fwd);
    BlockStarts(cfg, st.block);
    StepFacts.StaysInBlock(s, transfer, remask);
    hide StepInput.IsRemask, StepInput.IsTransfer, StepInput.Contained, Config.BlockStart;
    assert forall i :: i in transfer || i in remask ==> OfBlock(cfg, st.block, i);
    assert forall i: nat :: i < |st.x| ==> st'.x[i] == s.NextToken(transfer, remask, i);
    forall p: nat | p in st'.pending && p !in st.pending
      ensures OfBlock(cfg, st.block, p)
    {
      assert p in Settled(fwd, transfer);
    }
  }

  lemma WorkKeepsMirroring(cfg: Config, st: Node, fwd: Forward, transfer: set<nat>, remask: set<nat>, st': Node)
    requires cfg.Valid() && Shape(cfg, st) && Mirroring(cfg, st) && LocalWork(cfg, st, fwd, transfer, remask, st')
    ensures Mirroring(cfg, st')
  {
    hide LocalWork, Mirrors;
    if st'.clean && Tidy(cfg, st') {
      WorkStaysInBlock(cfg, st, fwd, transfer, remask, st');
      BlockStarts(cfg, st.block);
      hide Config.BlockStart;
    }
  }

  lemma TidySync(cfg: Config, st: Node, view: Commits, scores: Scores)
    requires cfg.Valid() && Tidy(cfg, Synced(cfg, st, view, scores))
    ensures Tidy(cfg, st) && ViewInBlock(cfg, st.block, view)
  {
    hide Outcome, ViewInBlock;
    var st' := Synced(cfg, st, view, scores);
    assert st'.log[|st.log|].block == st.block && st'.log[|st.log|].view == view;
    assert forall n :: 0 <= n < |st.log| ==> st'.log[n] == st.log[n];
  }

  lemma SyncSharesLocally(cfg: Config, st: Node, view: Commits, scores: Scores)
    requires cfg.Valid() && Local(cfg, st) && st.phase != Done && ViewInBlock(cfg, st.block, view)
    ensures var r := SyncShared(st.shared, view, scores, cfg.exp);
            && (forall p :: p in r ==> p < cfg.BlockStart(st.block + 1))
            && (forall i: nat :: i < cfg.BlockStart(st.block) ==> SharedOr(cfg, r, i) == SharedOr(cfg, st.shared, i))
  {
    hide SyncShared, ProposedPositions, Config.BlockStart, Mirrors, ViewInBlock;
    SyncKeys(st.shared, view, scores, cfg.exp);
    BlockStarts(cfg, st.block);
    forall p: nat | p in ProposedPositions(view)
      ensures cfg.BlockStart(st.block) <= p < cfg.BlockStart(st.block + 1)
    {
      InView(cfg, st.block, view, p);
    }
  }

  lemma InView(cfg: Config, b: nat, view: Commits, p: nat)
    requires ViewInBlock(cfg, b, view) && p in ProposedPositions(view)
    ensures OfBlock(cfg, b, p)
  {
  }

  lemma SyncMirrorsAt(cfg: Config, st: Node, view: Commits, scores: Scores, i: nat)
    requires cfg.Valid() && Shape(cfg, st) && Retained(cfg, st) && Local(cfg, st) && InSync(st)
        && OwnView(st, view, scores) && i < cfg.genEnd
    requires SharedOr(cfg, SyncShared(st.shared, view, scores, cfg.exp), i) == SharedOr(cfg, st.shared, i)
        || i >= cfg.BlockStart(st.block)
    requires i in SyncShared(st.shared, view, scores, cfg.exp) ==> i < cfg.BlockStart(st.block + 1)
    ensures Overlaid(cfg, st.block, SyncShared(st.shared, view, scores, cfg.exp), st.x, i)
            == SharedOr(cfg, SyncShared(st.shared, view, scores, cfg.exp), i)
  {
    hide SyncShared, OwnView, Config.BlockStart, Mirrors;
    if OfBlock(cfg, st.block, i) && i !in SyncShared(st.shared, view, scores, cfg.exp) && st.x[i] != cfg.step.maskId {
      ViewKeepsPending(st, view, scores, cfg.exp, i);
    }
  }

  lemma SyncMirrors(cfg: Config, st: Node, view: Commits, scores: Scores)
    requires cfg.Valid() && Shape(cfg, st) && Retained(cfg, st) && Local(cfg, st) && InSync(st)
    requires OwnView(st, view, scores)
    requires ViewInBlock(cfg, st.block, view)
    ensures Mirrors(cfg, Synced(cfg, st, view, scores))
    ensures forall p :: p in Synced(cfg, st, view, scores).shared ==> p < cfg.BlockStart(st.block + 1)
  {
    hide SyncShared, OwnView, ProposedPositions, OverlaidAge, Overlaid, SharedOr, Config.BlockStart, ViewInBlock,
         Retained;
    SyncSharesLocally(cfg, st, view, scores);
    var st' := Synced(cfg, st, view, scores);
    assert |st'.x| == cfg.genEnd by { hide Local; }
    forall i: nat | i < cfg.genEnd
      ensures st'.x[i] == SharedOr(cfg, st'.shared, i)
    {
      assert st'.x[i] == Overlaid(cfg, st.block, st'.shared, st.x, i);
      SyncMirrorsAt(cfg, st, view, scores, i);
    }
  }

  lemma SyncKeepsMirroring(cfg: Config, st: Node, view: Commits, scores: Scores)
    requires cfg.Valid() && Shape(cfg, st) && Retained(cfg, st) && InSync(st) && Mirroring(cfg, st)
        && OwnView(st, view, scores)
    ensures Mirroring(cfg, Synced(cfg, st, view, scores))
  {
    hide SyncShared, OwnView, Tidy, Overlaid, OverlaidAge, ViewInBlock, Retained, Config.BlockStart, Mirrors;
    var st' := Synced(cfg, st, view, scores);
    if st'.clean && Tidy(cfg, st') {
      TidySync(cfg, st, view, scores);
      SyncMirrors(cfg, st, view, scores);
      BlockStarts(cfg, st.block);
      BlockStarts(cfg, st.block + 1);
      StaysLocal(cfg, st, st');
    }
  }

  lemma StaysLocal(cfg: Config, st: Node, st': Node)
    requires cfg.Valid() && Local(cfg, st) && Mirrors(cfg, st') && st'.pending == map[]
    requires if st'.phase.Done? then st'.block == st.block + 1 else st.block <= st'.block <= st.block + 1
    requires forall p :: p in st'.shared ==> p < cfg.BlockStart(st.block + 1)
    ensures Local(cfg, st')
  {
    BlockStarts(cfg, st.block);
    BlockStarts(cfg, st.block + 1);
    hide Config.BlockStart;
  }

  /** Right after a sync, and at the start of a block, the whole sequence is the shared state with masks
      in the gaps: nodes that agree on the shared state hold the same sequence. */
  lemma SameSharedSameSequence(cfg: Config, a: Node, b: Node)
    requires Mirroring(cfg, a) && a.clean && Tidy(cfg, a) && a.window == []
    requires Mirroring(cfg, b) && b.clean && Tidy(cfg, b) && b.window == []
    requires a.shared == b.shared
    ensures a.x == b.x
  {
  }

  // ---------------------------------------------------------------- the stop boundary

  /** The detector as sync n found it. */
  ghost function DetBefore(log: seq<SyncRecord>, n: nat): Stop.StopState
    requires n <= |log|
  {
    if n == 0 then Stop.FRESH else log[n - 1].agreed.det
  }

  /** The syncs up to the first boundary merged commits of their own block only. */
  ghost predicate TidyUntilFrozen(cfg: Config, log: seq<SyncRecord>) {
    forall n: nat :: n < |log| && DetBefore(log, n).stop.None? ==> ViewInBlock(cfg, log[n].block, log[n].view)
  }

  /** The end of what a node has begun. */
  function Reach(cfg: Config, st: Node): nat {
    cfg.BlockStart(if st.phase.Done? then st.block else st.block + 1)
  }

  /** Until there is a boundary everything shared lies in the blocks begun; the boundary lies in the block it
      was found in, and so does every later one. */
  ghost predicate Bounded(cfg: Config, st: Node) {
    TidyUntilFrozen(cfg, st.log) ==>
      && (st.det.stop.None? ==> forall p :: p in st.shared ==> p < Reach(cfg, st))
      && (st.det.stop.Some? ==> cfg.genStart <= st.det.stop.value < Reach(cfg, st))
      && forall n :: 0 <= n < |st.log| && st.log[n].agreed.det.stop.Some? ==>
           cfg.genStart <= st.log[n].agreed.det.stop.value < cfg.BlockStart(st.log[n].block + 1)
  }

  lemma TidyBefore(cfg: Config, st: Node, view: Commits, scores: Scores)
    requires cfg.Valid() && st.det == DetBefore(st.log, |st.log|)
    requires TidyUntilFrozen(cfg, Synced(cfg, st, view, scores).log)
    ensures TidyUntilFrozen(cfg, st.log) && (st.det.stop.None? ==> ViewInBlock(cfg, st.block, view))
  {
    hide Outcome, ViewInBlock, Synced;
    SyncedRecord(cfg, st, view, scores);
    var log' := Synced(cfg, st, view, scores).log;
    assert forall n: nat :: n <= |st.log| ==> DetBefore(log', n) == DetBefore(st.log, n);
    assert log'[|st.log|].view == view;
  }

  /** A sync that finds the first boundary finds it in what has been committed, and a later boundary is
      never higher. */
  lemma SyncBoundary(cfg: Config, st: Node, view: Commits, scores: Scores)
    requires cfg.Valid() && InSync(st) && Bounded(cfg, st) && st.det == DetBefore(st.log, |st.log|)
    requires TidyUntilFrozen(cfg, Synced(cfg, st, view, scores).log)
    ensures var st' := Synced(cfg, st, view, scores);
            && (st'.det.stop.None? ==> forall p :: p in st'.shared ==> p < cfg.BlockStart(st.block + 1))
            && (st'.det.stop.Some? ==> cfg.genStart <= st'.det.stop.value < cfg.BlockStart(st.block + 1))
            && (st.det.stop.Some? ==> st'.det.stop.Some? && st'.det.stop.value <= st.det.stop.value)
  {
    hide SyncShared, Synced, TidyUntilFrozen, Config.BlockStart, Stop.Read, RoundOver, ProposedPositions, DetBefore;
    var st' := Synced(cfg, st, view, scores);
    SyncedRecord(cfg, st, view, scores);
    TidyBefore(cfg, st, view, scores);
    SyncKeys(st.shared, view, scores, cfg.exp);
    if Stop.Read(cfg.stop, st'.shared, cfg.genStart, cfg.genEnd).Qualified? {
      Stop.CandidateFromStart(cfg.stop, st'.shared, cfg.genStart, cfg.genEnd);
      if st.det.stop.None? {
        Stop.CandidateBounds(cfg.stop, st'.shared, cfg.genStart, cfg.genEnd, cfg.BlockStart(st.block + 1));
      }
    }
  }

  /** The first boundary lies inside the current block's reach and a later one never moves up, so once one
      is confirmed no other block is ever started. */
  lemma SyncKeepsBounded(cfg: Config, st: Node, view: Commits, scores: Scores)
    requires cfg.Valid() && InSync(st) && Bounded(cfg, st) && st.det == DetBefore(st.log, |st.log|)
    ensures Bounded(cfg, Synced(cfg, st, view, scores))
    ensures var st' := Synced(cfg, st, view, scores);
            && (st.det.stop.Some? ==> st'.det.stop.Some? && st'.det.stop.value <= st.det.stop.value)
            && (TidyUntilFrozen(cfg, st'.log) && st'.det.stop.Some? && st'.block != st.block ==> st'.phase.Done?)
  {
    hide SyncShared, Synced, TidyUntilFrozen, Config.BlockStart, Stop.Read, Stop.Step, DetBefore;
    var st' := Synced(cfg, st, view, scores);
    SyncLowersStop(cfg, st, view, scores);
    SyncedRecord(cfg, st, view, scores);
    if TidyUntilFrozen(cfg, st'.log) {
      TidyBefore(cfg, st, view, scores);
      SyncBoundary(cfg, st, view, scores);
      BlockStarts(cfg, st.block);
      BlockStarts(cfg, st.block + 1);
    }
  }

  ghost function Readings(cfg: Config, log: seq<SyncRecord>): seq<Stop.Reading> {
    seq(|log|, n requires 0 <= n < |log| => Stop.Read(cfg.stop, log[n].agreed.shared, cfg.genStart, cfg.genEnd))
  }

  /** The detector has checked the outcome of every sync, once each. */
  ghost predicate Checked(cfg: Config, st: Node) {
    st.det == Stop.Run(cfg.stop, Readings(cfg, st.log))
  }

  lemma SyncKeepsChecked(cfg: Config, st: Node, view: Commits, scores: Scores)
    requires cfg.Valid() && Checked(cfg, st)
    ensures Checked(cfg, Synced(cfg, st, view, scores))
  {
    hide SyncShared, Stop.Read, Overlaid, OverlaidAge;
    var st' := Synced(cfg, st, view, scores);
    var before, after := Readings(cfg, st.log), Readings(cfg, st'.log);
    assert after[..|after| - 1] == before;
    assert st'.log[|st.log|].agreed.shared == st'.shared;
  }

  /** What the boundary of a round means: the least candidate that enough consecutive syncs agreed on. */
  lemma BoundaryIsOffline(cfg: Config, st: Node)
    requires cfg.Valid() && Checked(cfg, st)
    ensures Stop.IsLeastConfirmed(Stop.NonEmpty(Readings(cfg, st.log)), cfg.stop.stopConfirmations, st.det.stop)
  {
    Stop.DetectorIsOffline(cfg.stop, Readings(cfg, st.log));
  }

  // ---------------------------------------------------------------- own commits stay in the block

  ghost predicate KeysInBlock(cfg: Config, b: nat, m: CommitMap) {
    forall p :: p in m ==> OfBlock(cfg, b, p)
  }

  /** A node whose steps were all contained commits positions of its current block only. */
  ghost predicate OwnInBlock(cfg: Config, st: Node) {
    st.clean ==>
      && KeysInBlock(cfg, st.block, st.pending)
      && forall n :: 0 <= n < |st.log| ==>
           st.id in st.log[n].view && KeysInBlock(cfg, st.log[n].block, st.log[n].view[st.id])
  }

  lemma WorkKeepsOwnInBlock(cfg: Config, st: Node, fwd: Forward, transfer: set<nat>, remask: set<nat>, st': Node)
    requires cfg.Valid() && Shape(cfg, st) && OwnInBlock(cfg, st) && LocalWork(cfg, st, fwd, transfer, remask, st')
    ensures OwnInBlock(cfg, st')
  {
    hide LocalWork;
    if st'.clean {
      WorkStaysInBlock(cfg, st, fwd, transfer, remask, st');
    }
  }

  lemma SyncKeepsOwnInBlock(cfg: Config, st: Node, view: Commits, scores: Scores)
    requires cfg.Valid() && OwnInBlock(cfg, st) && OwnView(st, view, scores)
    ensures OwnInBlock(cfg, Synced(cfg, st, view, scores))
  {
    hide SyncShared, Overlaid, OverlaidAge, KeysInBlock, Outcome;
    var st' := Synced(cfg, st, view, scores);
    assert st'.log[|st.log|].view == view && st'.log[|st.log|].block == st.block;
    assert forall n :: 0 <= n < |st.log| ==> st'.log[n] == st.log[n];
    assert KeysInBlock(cfg, st'.block, map[]) by { NothingOutside(cfg, st'.block); }
  }

  /** Up to the first boundary it does so whatever happens afterwards; the detector is the last sync's. */
  ghost predicate OwnUntilFrozen(cfg: Config, st: Node) {
    && st.det == DetBefore(st.log, |st.log|)
    && forall n: nat :: n < |st.log| && DetBefore(st.log, n).stop.None? ==>
         st.id in st.log[n].view && KeysInBlock(cfg, st.log[n].block, st.log[n].view[st.id])
  }

  lemma DetectorIsLast(cfg: Config, st: Node)
    requires OwnUntilFrozen(cfg, st)
    ensures st.det == DetBefore(st.log, |st.log|)
  {
  }

  lemma WorkKeepsOwnUntilFrozen(cfg: Config, st: Node, fwd: Forward, transfer: set<nat>, remask: set<nat>, st': Node)
    requires cfg.Valid() && OwnUntilFrozen(cfg, st) && LocalWork(cfg, st, fwd, transfer, remask, st')
    ensures OwnUntilFrozen(cfg, st')
  {
    hide StepInput.IsRemask, StepInput.IsTransfer, StepInput.Contained, StepInput.NextX, StepInput.NextAge,
         KeysInBlock, DetBefore;
  }

  lemma SyncKeepsOwnUntilFrozen(cfg: Config, st: Node, view: Commits, scores: Scores)
    requires cfg.Valid() && OwnUntilFrozen(cfg, st) && OwnInBlock(cfg, st) && CleanUntilFrozen(st)
    requires OwnView(st, view, scores)
    ensures OwnUntilFrozen(cfg, Synced(cfg, st, view, scores))
  {
    hide Synced, Outcome, KeysInBlock, Disputes, ScoresFor;
    var st' := Synced(cfg, st, view, scores);
    SyncedRecord(cfg, st, view, scores);
    forall n: nat | n < |st'.log| && DetBefore(st'.log, n).stop.None?
      ensures st'.id in st'.log[n].view && KeysInBlock(cfg, st'.log[n].block, st'.log[n].view[st'.id])
    {
      assert DetBefore(st'.log, n) == DetBefore(st.log, n);
    }
  }

  lemma NothingOutside(cfg: Config, b: nat)
    ensures KeysInBlock(cfg, b, map[])
  {
  }

  // ---------------------------------------------------------------- only a freeze makes a step stray

  /** As long as no boundary is set every step has been contained. */
  ghost predicate CleanUntilFrozen(st: Node) {
    st.det.stop.None? ==> st.clean
  }

  lemma WorkKeepsCleanUntilFrozen(cfg: Config, st: Node, fwd: Forward, transfer: set<nat>, remask: set<nat>, st': Node)
    requires cfg.Valid() && Shape(cfg, st) && CleanUntilFrozen(st) && LocalWork(cfg, st, fwd, transfer, remask, st')
    ensures CleanUntilFrozen(st')
  {
    BlockStarts(cfg, st.block);
    hide StepInput.IsRemask, StepInput.IsTransfer, StepInput.NextX, StepInput.NextAge, StepInput.Contained,
        Config.BlockStart;
    if st.det.stop.None? {
      StepFacts.UnfrozenContained(Input(cfg, st, fwd));
    }
  }

  lemma SyncKeepsCleanUntilFrozen(cfg: Config, st: Node, view: Commits, scores: Scores)
    requires cfg.Valid() && CleanUntilFrozen(st)
    ensures CleanUntilFrozen(Synced(cfg, st, view, scores))
  {
    hide SyncShared, Overlaid, OverlaidAge, Stop.Read;
  }

  // ---------------------------------------------------------------- what a node says is usable

  /** Positions of the sequence and tokens of the vocabulary. */
  ghost predicate InRange(cfg: Config, m: CommitMap) {
    forall p :: p in m ==> p < cfg.genEnd && m[p].token < cfg.vocab
  }

  /** A node commits what another one can score, and reports on exactly the disputes it saw. */
  ghost predicate Ranged(cfg: Config, st: Node) {
    && InRange(cfg, st.pending)
    && forall n :: 0 <= n < |st.log| ==>
         && st.id in st.log[n].view && InRange(cfg, st.log[n].view[st.id])
         && (Disputes(st.log[n].view) != map[] ==>
               st.id in st.log[n].scores && ScoresFor(st.log[n].scores[st.id], st.log[n].view))
  }

  lemma WorkKeepsRanged(cfg: Config, st: Node, fwd: Forward, transfer: set<nat>, remask: set<nat>, st': Node)
    requires cfg.Valid() && Shape(cfg, st) && Ranged(cfg, st) && LocalWork(cfg, st, fwd, transfer, remask, st')
    ensures Ranged(cfg, st')
  {
    var s := Input(cfg, st, fwd);
    InputValid(cfg, st, fwd);
    StepFacts.TransferSize(s, transfer);
    hide StepInput.IsRemask, StepInput.IsTransfer, StepInput.Contained, StepInput.NextX, StepInput.NextAge,
         Config.BlockStart, Disputes, ScoresFor;
    forall p: nat | p in st'.pending
      ensures p < cfg.genEnd && st'.pending[p].token < cfg.vocab
    {
      assert p in st.pending || p in Settled(fwd, transfer);
    }
  }

  lemma SyncKeepsRanged(cfg: Config, st: Node, view: Commits, scores: Scores)
    requires cfg.Valid() && Ranged(cfg, st) && OwnView(st, view, scores)
    ensures Ranged(cfg, Synced(cfg, st, view, scores))
  {
    hide SyncShared, Overlaid, OverlaidAge, Outcome, Disputes, ScoresFor, InRange;
    var st' := Synced(cfg, st, view, scores);
    assert st'.log[|st.log|].view == view && st'.log[|st.log|].scores == scores;
    assert forall n :: 0 <= n < |st.log| ==> st'.log[n] == st.log[n];
    assert InRange(cfg, map[]) by { NothingStrays(cfg); }
  }

  lemma NothingStrays(cfg: Config)
    ensures InRange(cfg, map[])
  {
  }
}
