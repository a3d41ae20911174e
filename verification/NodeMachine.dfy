/** One participant's generation round as a state machine (node/generation.py:99-197).

    A node alternates local denoising steps with syncs. Its transitions are the denoising step and the
    completion of a sync with whatever view of the commits and scores the barriers delivered. The
    method `GenerationRunner.RunRound` is proved to follow this machine, and the swarm system runs one
    machine per participant. */
module NodeMachine {
  import opened Prelude
  import opened Arith
  import opened Consensus
  import opened LocalStep
  import Stop = StopDetection

  datatype Config = Config(
    genStart: nat, genEnd: nat, blockLength: nat, numBlocks: nat, stepsPerBlock: nat, syncEvery: nat,
    vocab: nat, step: StepConfig, stop: Stop.StopConfig, exp: real -> real)
  {
    predicate Valid() {
      && blockLength >= 1 && numBlocks >= 1 && stepsPerBlock >= 1 && syncEvery >= 1
      && BlockStart(numBlocks) <= genEnd
      && stop.stopRunMin >= 1 && stop.stopConfirmations >= 1
      && step.maskId < vocab
    }

    function BlockStart(b: nat): nat {
      genStart + b * blockLength
    }

    predicate SyncDue(step: nat)
      requires syncEvery >= 1
    {
      (step + 1) % syncEvery == 0 || step + 1 == stepsPerBlock
    }
  }

  /** What the participants must agree on after a sync, control position included. */
  datatype Agreed = Agreed(shared: map<nat, nat>, det: Stop.StopState, block: nat, step: nat, done: bool)

  /** One finished sync: the block and step that closed its window, what it saw, the steps it published, the
      distribution it scored disputes with and its outcome. */
  datatype SyncRecord = SyncRecord(block: nat, step: nat, view: Commits, scores: Scores, window: seq<CommitMap>,
      p: (nat, nat) -> real, agreed: Agreed)

  datatype Phase = Stepping | Publishing | AwaitCommits | AwaitScores(view: Commits) | Done

  /** `steps`, `window`, `log` and `clean` are history: what each step settled, in the whole round and
      since the last sync, the finished syncs, and whether every step so far was contained. */
  datatype Node = Node(
    id: NodeId, phase: Phase, block: nat, step: nat, x: seq<nat>, age: seq<nat>, shared: map<nat, nat>,
    pending: CommitMap, det: Stop.StopState, p: (nat, nat) -> real,
    clean: bool, steps: seq<CommitMap>, window: seq<CommitMap>, log: seq<SyncRecord>)
  {
    /** `sync_seq`: the number of syncs finished. */
    function SyncSeq(): nat {
      |log|
    }
  }

  ghost function Start(cfg: Config, id: NodeId, prompt: seq<nat>): Node
    requires cfg.Valid() && |prompt| == cfg.genStart
  {
    Node(id, Stepping, 0, 0, Opening(cfg, prompt), seq(cfg.genEnd, _ => 0), map p: nat | p < |prompt| :: prompt[p],
         map[], Stop.FRESH, (_, _) => 0.0, true, [], [], [])
  }

  /** The prompt followed by masks. */
  ghost function Opening(cfg: Config, prompt: seq<nat>): seq<nat> {
    seq(cfg.genEnd, i requires 0 <= i < cfg.genEnd => OpeningToken(cfg, prompt, i))
  }

  ghost function OpeningToken(cfg: Config, prompt: seq<nat>, i: nat): nat {
    if i < |prompt| then prompt[i] else cfg.step.maskId
  }

  // ---------------------------------------------------------------- transitions

  ghost function Input(cfg: Config, st: Node, fwd: Forward): StepInput
    requires st.step < cfg.stepsPerBlock
  {
    StepInput(cfg.step, fwd, st.x, st.age, cfg.stepsPerBlock - st.step,
              cfg.BlockStart(st.block), cfg.BlockStart(st.block + 1), cfg.stepsPerBlock, st.det.stop)
  }

  ghost function Settled(fwd: Forward, transfer: set<nat>): CommitMap {
    map i | i in transfer :: Proposal(fwd.x0(i), fwd.p(i, fwd.x0(i)))
  }

  ghost function Worked(cfg: Config, st: Node, fwd: Forward, transfer: set<nat>, remask: set<nat>): Node
    requires cfg.Valid() && st.step < cfg.stepsPerBlock && |st.x| == |st.age|
  {
    var s := Input(cfg, st, fwd);
    var settled := Settled(fwd, transfer);
    var due := cfg.SyncDue(st.step);
    st.(x := s.NextX(transfer, remask), age := s.NextAge(transfer, remask), p := fwd.p,
        pending := st.pending + settled, steps := st.steps + [settled], window := st.window + [settled],
        clean := st.clean && s.Contained(),
        phase := if due then Publishing else Stepping, step := if due then st.step else st.step + 1)
  }

  /** Predictions are tokens of the vocabulary: an argmax over it. */
  ghost predicate Predicts(cfg: Config, fwd: Forward) {
    forall i: nat :: fwd.x0(i) < cfg.vocab
  }

  ghost predicate LocalWork(cfg: Config, st: Node, fwd: Forward, transfer: set<nat>, remask: set<nat>, st': Node)
    requires cfg.Valid()
  {
    && st.phase.Stepping? && st.step < cfg.stepsPerBlock && |st.x| == |st.age| && Predicts(cfg, fwd)
    && Input(cfg, st, fwd).IsRemask(remask) && Input(cfg, st, fwd).IsTransfer(transfer)
    && st' == Worked(cfg, st, fwd, transfer, remask)
  }

  /** What a sync with this view makes of the agreed state: the same function at every participant. */
  ghost function Outcome(cfg: Config, shared: map<nat, nat>, det: Stop.StopState, block: nat, step: nat,
                         view: Commits, scores: Scores): Agreed
    requires cfg.Valid()
  {
    var shared' := SyncShared(shared, view, scores, cfg.exp);
    var det' := Stop.Step(cfg.stop, det, Stop.Read(cfg.stop, shared', cfg.genStart, cfg.genEnd));
    if step + 1 < cfg.stepsPerBlock then Agreed(shared', det', block, step + 1, false)
    else Agreed(shared', det', block + 1, 0, RoundOver(cfg, block + 1, det'.stop))
  }

  /** No block is left, or the next one starts at or beyond the frozen boundary. */
  predicate RoundOver(cfg: Config, block: nat, frozen: Option<nat>) {
    block >= cfg.numBlocks || (frozen.Some? && cfg.BlockStart(block) >= frozen.value)
  }

  function Overlaid(cfg: Config, block: nat, shared: map<nat, nat>, xs: seq<nat>, i: nat): nat
    requires i < |xs|
  {
    if cfg.BlockStart(block) <= i < cfg.BlockStart(block + 1) && i in shared then shared[i] else xs[i]
  }

  function OverlaidAge(cfg: Config, block: nat, shared: map<nat, nat>, ages: seq<nat>, i: nat): nat
    requires i < |ages|
  {
    if cfg.BlockStart(block) <= i < cfg.BlockStart(block + 1) && i in shared then 0 else ages[i]
  }

  ghost function Synced(cfg: Config, st: Node, view: Commits, scores: Scores): Node
    requires cfg.Valid()
  {
    var a := Outcome(cfg, st.shared, st.det, st.block, st.step, view, scores);
    st.(phase := if a.done then Done else Stepping, block := a.block, step := a.step, shared := a.shared, det := a.det,
        x := seq(|st.x|, i requires 0 <= i < |st.x| => Overlaid(cfg, st.block, a.shared, st.x, i)),
        age := seq(|st.age|, i requires 0 <= i < |st.age| =>
                     if a.block != st.block then 0 else OverlaidAge(cfg, st.block, a.shared, st.age, i)),
        pending := map[], window := [],
        log := st.log + [SyncRecord(st.block, st.step, view, scores, st.window, st.p, a)])
  }

  /** What any barrier outcome gives a node: its own commits, and its own report on every dispute it
      sees; from the others, anything or nothing. */
  ghost predicate OwnView(st: Node, view: Commits, scores: Scores) {
    && st.id in view && view[st.id] == st.pending
    && (Disputes(view) != map[] ==> st.id in scores && ScoresFor(scores[st.id], view))
    && (Disputes(view) == map[] ==> scores == map[])
  }

  /** What a node commits in sync n: what it had pending when it closed that window. */
  function CommitOf(st: Node, n: nat): CommitMap {
    if n < st.SyncSeq() then (if st.id in st.log[n].view then st.log[n].view[st.id] else map[]) else st.pending
  }

  predicate InSync(st: Node) {
    st.phase.Publishing? || st.phase.AwaitCommits? || st.phase.AwaitScores?
  }

  // ---------------------------------------------------------------- shape and counting

  ghost predicate Shape(cfg: Config, st: Node)
    requires cfg.Valid()
  {
    && |st.x| == |st.age| == cfg.genEnd
    && st.step < cfg.stepsPerBlock
    && (if st.phase.Done? then 1 <= st.block <= cfg.numBlocks && st.step == 0 && RoundOver(cfg, st.block, st.det.stop)
        else st.block < cfg.numBlocks)
    && (InSync(st) ==> cfg.SyncDue(st.step))
  }

  /** `ceil(steps_per_block / sync_every)` */
  function SyncsPerBlock(cfg: Config): nat
    requires cfg.Valid()
  {
    (cfg.stepsPerBlock - 1) / cfg.syncEvery + 1
  }

  /** How many syncs and how many unpublished steps lie behind a control position. */
  ghost predicate Counting(cfg: Config, st: Node)
    requires cfg.Valid()
  {
    && st.SyncSeq() == st.block * SyncsPerBlock(cfg) + st.step / cfg.syncEvery
    && |st.window| == st.step % cfg.syncEvery + (if InSync(st) then 1 else 0)
    && forall n :: 0 <= n < |st.log| ==> Recorded(cfg, st.log[n], n)
  }

  ghost predicate Recorded(cfg: Config, r: SyncRecord, n: nat)
    requires cfg.Valid()
  {
    r.step < cfg.stepsPerBlock && cfg.SyncDue(r.step) && n == r.block * SyncsPerBlock(cfg) + r.step / cfg.syncEvery
  }

  lemma BlockStarts(cfg: Config, b: nat)
    requires cfg.Valid()
    ensures cfg.BlockStart(b + 1) == cfg.BlockStart(b) + cfg.blockLength
    ensures b < cfg.numBlocks ==> cfg.BlockStart(b + 1) <= cfg.genEnd
    ensures b <= cfg.numBlocks ==> cfg.BlockStart(b) <= cfg.genEnd
  {
    MulSucc(b, cfg.blockLength);
    if b < cfg.numBlocks {
      MulMono(b + 1, cfg.numBlocks, cfg.blockLength);
    }
  }

  lemma StartShape(cfg: Config, id: NodeId, prompt: seq<nat>)
    requires cfg.Valid() && |prompt| == cfg.genStart
    ensures Shape(cfg, Start(cfg, id, prompt)) && Counting(cfg, Start(cfg, id, prompt))
  {
    DivModIs(0, cfg.syncEvery, 0, 0);
  }

  lemma WorkKeepsShape(cfg: Config, st: Node, fwd: Forward, transfer: set<nat>, remask: set<nat>, st': Node)
    requires cfg.Valid() && Shape(cfg, st) && Counting(cfg, st) && LocalWork(cfg, st, fwd, transfer, remask, st')
    ensures Input(cfg, st, fwd).Valid()
    ensures Shape(cfg, st') && Counting(cfg, st')
  {
    hide StepInput.IsRemask, StepInput.IsTransfer, StepInput.Contained, StepInput.NextToken, StepInput.NextTokenAge,
        SyncsPerBlock;
    BlockStarts(cfg, st.block);
    NextDiv(st.step, cfg.syncEvery);
  }

  lemma SyncKeepsShape(cfg: Config, st: Node, view: Commits, scores: Scores)
    requires cfg.Valid() && Shape(cfg, st) && Counting(cfg, st) && InSync(st)
    ensures Shape(cfg, Synced(cfg, st, view, scores)) && Counting(cfg, Synced(cfg, st, view, scores))
  {
    hide SyncShared, Overlaid, OverlaidAge;
    NextDiv(st.step, cfg.syncEvery);
    DivModIs(0, cfg.syncEvery, 0, 0);
    MulSucc(st.block, SyncsPerBlock(cfg));
  }

  /** What a sync leaves behind, the arrays aside. */
  lemma SyncedRecord(cfg: Config, st: Node, view: Commits, scores: Scores)
    requires cfg.Valid()
    ensures var st' := Synced(cfg, st, view, scores);
            var a := Outcome(cfg, st.shared, st.det, st.block, st.step, view, scores);
            && st'.log == st.log + [SyncRecord(st.block, st.step, view, scores, st.window, st.p, a)]
            && st'.shared == a.shared && st'.det == a.det && st'.block == a.block && (st'.phase.Done? <==> a.done)
            && st'.pending == map[] && st'.window == [] && st'.id == st.id && st'.clean == st.clean
            && st'.steps == st.steps
  {
    hide Outcome, Overlaid, OverlaidAge;
  }
}
