/** One denoising step of one node (diffusion/local_step.py), for the single row a round uses.

    `StepInput` holds everything a step reads. Its members say what the step may reopen (`IsRemask`),
    what it settles (`IsTransfer`) and what the sequence and the ages become; the method `LocalStep`
    writes masks, scores and copies in place and is proved to do that. */
module LocalStep {
  import opened Prelude
  import Quota

  datatype StepConfig = StepConfig(
    maskId: nat, eosId: nat, eosMarginThreshold: real, remaskConfThreshold: real,
    remaskMinAge: int, remaskMaxFrac: real, remaskReserveFrac: real)

  /** One forward pass: the distribution, the sampled prediction and the EOS margin per position. */
  datatype Forward = Forward(p: (nat, nat) -> real, x0: nat -> nat, eosMargin: nat -> real)

  /** A transfer score, with `-torch.inf` as a value of its own. */
  datatype Score = NegInf | Fin(v: real)

  predicate Le(a: Score, b: Score) {
    a.NegInf? || (b.Fin? && a.v <= b.v)
  }

  /** What `torch.topk` promises: k indices that score at least what every other one does. */
  ghost predicate IsTopK(among: set<nat>, score: nat -> Score, k: int, top: set<nat>) {
    && top <= among && |top| == k
    && forall a, b :: a in top && b in among && b !in top ==> Le(score(b), score(a))
  }

  /** Python's `round`: to the nearest integer, and to the even one from half way. */
  function Round(r: real): int {
    var below := r.Floor;
    var rest := r - below as real;
    if rest < 0.5 then below else if rest > 0.5 then below + 1 else if below % 2 == 0 then below else below + 1
  }

  /** A fraction of a whole number. */
  function PartOf(frac: real, whole: nat): real {
    frac * whole as real
  }

  /** `max(1, round(remask_reserve_frac * steps_per_block))`: steps that may not reopen anything. */
  function ReserveSteps(cfg: StepConfig, stepsPerBlock: nat): int {
    Max(1, Round(PartOf(cfg.remaskReserveFrac, stepsPerBlock)))
  }

  /** `max(1, int(remask_max_frac * eligible))`; where `int` and `Floor` differ, the maximum is 1. */
  function RemaskLimit(cfg: StepConfig, eligible: nat): int {
    Max(1, PartOf(cfg.remaskMaxFrac, eligible).Floor)
  }

  ghost function TrueAt(mask: seq<bool>): set<nat> {
    set i: nat | i < |mask| && mask[i]
  }

  datatype StepInput = StepInput(
    cfg: StepConfig, fwd: Forward, x: seq<nat>, age: seq<nat>, stepsRemaining: nat,
    blockStart: nat, blockEnd: nat, stepsPerBlock: nat, frozenFrom: Option<nat>)
  {
    predicate Valid() {
      |x| == |age| && blockStart <= blockEnd <= |x| && stepsRemaining >= 1
    }

    ghost predicate Open(i: nat) {
      frozenFrom.None? || i < frozenFrom.value
    }

    ghost predicate InBlock(i: nat) {
      blockStart <= i < blockEnd && i < |x|
    }

    function Everywhere(): set<nat> {
      Interval(0, |x|)
    }

    /** The block's masked positions, which the quota counts. */
    ghost function Masked(): set<nat> {
      set i: nat | i < |x| && InBlock(i) && x[i] == cfg.maskId
    }

    /** The masked positions the step may settle: those before the frozen boundary. */
    ghost function Candidates(): set<nat> {
      set i: nat | i < |x| && InBlock(i) && x[i] == cfg.maskId && Open(i)
    }

    ghost predicate Untrusted(i: nat) {
      fwd.x0(i) == cfg.eosId && fwd.eosMargin(i) < cfg.eosMarginThreshold
    }

    ghost function Confidence(i: nat): real {
      fwd.p(i, fwd.x0(i))
    }

    ghost function ScoreOf(i: nat): Score {
      if i !in Candidates() then NegInf
      else if Untrusted(i) then Fin(Confidence(i) - 100.0)
      else Fin(Confidence(i))
    }

    ghost function Take(): int
      requires stepsRemaining >= 1
    {
      Quota.Share(|Masked()|, stepsRemaining)
    }

    ghost predicate IsTransfer(transfer: set<nat>)
      requires stepsRemaining >= 1
    {
      IsTopK(Everywhere(), (i: nat) => ScoreOf(i), Take(), transfer)
    }

    /** The exact condition under which the step settles nothing but candidates. */
    ghost predicate Contained()
      requires stepsRemaining >= 1
    {
      Take() <= |Candidates()|
    }

    ghost predicate AllowRemask() {
      stepsRemaining > ReserveSteps(cfg, stepsPerBlock)
    }

    ghost function Eligible(): set<nat>
      requires |x| == |age|
    {
      set i: nat | i < |x| && InBlock(i) && Open(i) && x[i] != cfg.maskId && age[i] >= cfg.remaskMinAge
    }

    ghost function LowConfidence(): set<nat>
      requires |x| == |age|
    {
      set i: nat | i in Eligible() && fwd.p(i, x[i]) < cfg.remaskConfThreshold
    }

    ghost function RemaskCap(): int
      requires |x| == |age|
    {
      RemaskLimit(cfg, |Eligible()|)
    }

    /** `-conf_current`, by which the worst positions come first. */
    function Unwanted(i: nat): Score {
      if i < |x| then Fin(-fwd.p(i, x[i])) else NegInf
    }

    /** The step reopens the low-confidence positions, the worst of them when they are too many. */
    ghost predicate IsRemask(remask: set<nat>)
      requires |x| == |age|
    {
      if !AllowRemask() then remask == {}
      else if |LowConfidence()| <= RemaskCap() then remask == LowConfidence()
      else IsTopK(LowConfidence(), (i: nat) => Unwanted(i), RemaskCap(), remask)
    }

    ghost function NextToken(transfer: set<nat>, remask: set<nat>, i: nat): nat
      requires i < |x|
    {
      if i in transfer then fwd.x0(i) else if i in remask then cfg.maskId else x[i]
    }

    ghost function NextX(transfer: set<nat>, remask: set<nat>): (r: seq<nat>) {
      seq(|x|, i requires 0 <= i < |x| => NextToken(transfer, remask, i))
    }

    ghost function NextTokenAge(transfer: set<nat>, remask: set<nat>, i: nat): nat
      requires i < |x| == |age|
    {
      if i in transfer || i in remask then 0 else if x[i] != cfg.maskId then age[i] + 1 else age[i]
    }

    ghost function NextAge(transfer: set<nat>, remask: set<nat>): (r: seq<nat>)
      requires |x| == |age|
    {
      seq(|x|, i requires 0 <= i < |x| => NextTokenAge(transfer, remask, i))
    }
  }

  // ---------------------------------------------------------------- the step

  /** Some position of the best score. */
  method BestOf(rest: set<nat>, score: nat -> Score) returns (best: nat)
    requires rest != {}
    ensures best in rest && forall b :: b in rest ==> Le(score(b), score(best))
  {
    best :| best in rest;
    var others := rest - {best};
    while others != {}
      invariant others <= rest && best in rest - others
      invariant forall b :: b in rest && b !in others ==> Le(score(b), score(best))
    {
      var i :| i in others;
      if Le(score(best), score(i)) {
        best := i;
      }
      others := others - {i};
    }
  }

  /** `torch.topk`, breaking ties in any way. */
  method TopK(among: set<nat>, score: nat -> Score, k: nat) returns (top: set<nat>)
    requires k <= |among|
    ensures IsTopK(among, score, k, top)
  {
    top := {};
    var rest := among;
    while |top| < k
      invariant rest == among - top && top <= among && |top| <= k && |rest| == |among| - |top|
      invariant forall a, b :: a in top && b in rest ==> Le(score(b), score(a))
      decreases k - |top|
    {
      var best := BestOf(rest, score);
      top, rest := top + {best}, rest - {best};
    }
  }

  /** `torch.where(mask)[0]` */
  method Where(mask: array<bool>) returns (s: set<nat>)
    ensures s == TrueAt(mask[..])
  {
    s := {};
    for i := 0 to mask.Length
      invariant s == set j: nat | j < i && mask[j]
    {
      if mask[i] {
        s := s + {i};
      }
    }
  }

  /** Which positions the step may reopen. */
  method EligibleMask(ghost s: StepInput, cfg: StepConfig, x: array<nat>, age: array<nat>,
                      blockStart: nat, blockEnd: nat, frozenFrom: Option<nat>)
    returns (eligible: array<bool>)
    requires s.Valid() && s.cfg == cfg && s.x == x[..] && s.age == age[..]
    requires s.blockStart == blockStart && s.blockEnd == blockEnd && s.frozenFrom == frozenFrom
    ensures fresh(eligible) && eligible.Length == x.Length
    ensures forall i: nat :: i < x.Length ==> (eligible[i] <==> i in s.Eligible())
  {
    var n := x.Length;
    eligible := new bool[n];
    forall i | 0 <= i < n { eligible[i] := x[i] != cfg.maskId && age[i] >= cfg.remaskMinAge; }
    forall i | 0 <= i < blockStart { eligible[i] := false; }
    forall i | blockEnd <= i < n { eligible[i] := false; }
    if frozenFrom.Some? {
      forall i | frozenFrom.value <= i < n { eligible[i] := false; }
    }
  }

  /** `idx[torch.topk(-conf_current[idx], k=cap).indices]` */
  method WorstOf(ghost s: StepInput, idx: set<nat>, cap: nat, x: seq<nat>, fwd: Forward) returns (worst: set<nat>)
    requires s.x == x && s.fwd == fwd && cap <= |idx|
    ensures IsTopK(idx, (i: nat) => s.Unwanted(i), cap, worst)
  {
    worst := TopK(idx, (i: nat) => if i < |x| then Fin(-fwd.p(i, x[i])) else NegInf, cap);
  }

  lemma EligibleInside(s: StepInput)
    requires |s.x| == |s.age|
    ensures forall i :: i in s.Eligible() ==> i < |s.x|
  {
  }

  /** The low-confidence positions, cut down to the cap. */
  method Reopened(ghost s: StepInput, cfg: StepConfig, fwd: Forward, x: array<nat>, age: array<nat>,
                  blockStart: nat, blockEnd: nat, frozenFrom: Option<nat>)
    returns (idx: set<nat>)
    requires s.Valid() && s.cfg == cfg && s.fwd == fwd && s.x == x[..] && s.age == age[..]
    requires s.blockStart == blockStart && s.blockEnd == blockEnd && s.frozenFrom == frozenFrom
    requires s.AllowRemask()
    ensures s.IsRemask(idx)
  {
    hide StepInput.Eligible, IsTopK;
    var eligible := EligibleMask(s, cfg, x, age, blockStart, blockEnd, frozenFrom);
    EligibleInside(s);
    var all := Where(eligible);
    assert all == s.Eligible();
    var lowConf := new bool[x.Length];
    forall i | 0 <= i < x.Length { lowConf[i] := eligible[i] && fwd.p(i, x[i]) < cfg.remaskConfThreshold; }
    idx := Where(lowConf);
    assert idx == s.LowConfidence();
    var cap := RemaskLimit(cfg, |all|);
    if |idx| > cap {
      idx := WorstOf(s, idx, cap, x[..], fwd);
    }
  }

  /** Which positions the step reopens. */
  method Remask(ghost s: StepInput, cfg: StepConfig, fwd: Forward, x: array<nat>, age: array<nat>, stepsRemaining: nat,
                blockStart: nat, blockEnd: nat, stepsPerBlock: nat, frozenFrom: Option<nat>)
    returns (remask: array<bool>)
    requires s == StepInput(cfg, fwd, x[..], age[..], stepsRemaining, blockStart, blockEnd, stepsPerBlock, frozenFrom)
    requires s.Valid()
    ensures fresh(remask) && remask.Length == x.Length && s.IsRemask(TrueAt(remask[..]))
  {
    remask := new bool[x.Length](i => false);
    assert TrueAt(remask[..]) == {};
    if stepsRemaining > ReserveSteps(cfg, stepsPerBlock) {
      var idx := Reopened(s, cfg, fwd, x, age, blockStart, blockEnd, frozenFrom);
      forall i | 0 <= i < x.Length { remask[i] := i in idx; }
      assert idx <= s.Eligible();
      assert TrueAt(remask[..]) == idx;
    }
  }

  /** The scores the transfer ranks: `-inf` outside the block, past the boundary and off the masks. */
  method TransferScores(ghost s: StepInput, cfg: StepConfig, fwd: Forward, x: array<nat>,
                        blockStart: nat, blockEnd: nat, frozenFrom: Option<nat>)
    returns (scores: array<Score>)
    requires s.Valid() && s.cfg == cfg && s.fwd == fwd && s.x == x[..]
    requires s.blockStart == blockStart && s.blockEnd == blockEnd && s.frozenFrom == frozenFrom
    ensures fresh(scores) && scores.Length == x.Length
    ensures forall i: nat :: i < x.Length ==> scores[i] == s.ScoreOf(i)
  {
    var n := x.Length;
    scores := new Score[n];
    forall i | 0 <= i < n { scores[i] := if x[i] == cfg.maskId then Fin(fwd.p(i, fwd.x0(i))) else NegInf; }
    forall i | 0 <= i < blockStart { scores[i] := NegInf; }
    forall i | blockEnd <= i < n { scores[i] := NegInf; }
    if frozenFrom.Some? {
      forall i | frozenFrom.value <= i < n { scores[i] := NegInf; }
    }
    forall i | 0 <= i < n {
      scores[i] :=
        if x[i] == cfg.maskId && fwd.x0(i) == cfg.eosId && fwd.eosMargin(i) < cfg.eosMarginThreshold && scores[i].Fin?
        then Fin(scores[i].v - 100.0) else scores[i];
    }
  }

  /** `mask_index[block_start:block_end].sum()` */
  method CountMasks(ghost s: StepInput, cfg: StepConfig, x: array<nat>, blockStart: nat, blockEnd: nat)
    returns (remaining: nat)
    requires s.Valid() && s.cfg == cfg && s.x == x[..] && s.blockStart == blockStart && s.blockEnd == blockEnd
    ensures remaining == |s.Masked()|
  {
    remaining := 0;
    ghost var seen: set<nat> := {};
    for i := blockStart to blockEnd
      invariant forall j: nat :: j in seen <==> blockStart <= j < i && s.x[j] == cfg.maskId
      invariant remaining == |seen|
    {
      if x[i] == cfg.maskId {
        remaining := remaining + 1;
        seen := seen + {i};
      }
    }
    assert seen == s.Masked();
  }

  lemma MaskedInside(s: StepInput)
    ensures |s.Masked()| <= |s.Everywhere()| == |s.x|
  {
    SubsetSize(s.Masked(), s.Everywhere());
  }

  /** Only the scores matter, not the function that gives them. */
  lemma SameTopK(among: set<nat>, f: nat -> Score, g: nat -> Score, k: int, top: set<nat>)
    requires IsTopK(among, f, k, top) && forall i :: i in among ==> f(i) == g(i)
    ensures IsTopK(among, g, k, top)
  {
  }

  /** `torch.topk(conf_new_masked[j], k=k)` */
  method RankTransfer(ghost s: StepInput, ranked: seq<Score>, k: nat) returns (idx: set<nat>)
    requires s.Valid() && k == s.Take() && k <= |s.Masked()|
    requires |ranked| == |s.x| && forall i: nat :: i < |ranked| ==> ranked[i] == s.ScoreOf(i)
    ensures s.IsTransfer(idx) && forall i :: i in idx ==> i < |ranked|
  {
    hide IsTopK, StepInput.Masked, StepInput.ScoreOf, StepInput.Take;
    MaskedInside(s);
    var among := Interval(0, |ranked|);
    var score := (i: nat) => if i < |ranked| then ranked[i] else NegInf;
    idx := TopK(among, score, k);
    SameTopK(among, score, (i: nat) => s.ScoreOf(i), k, idx);
    TopInside(among, score, k, idx);
  }

  lemma TopInside(among: set<nat>, score: nat -> Score, k: int, top: set<nat>)
    requires IsTopK(among, score, k, top)
    ensures top <= among
  {
  }

  lemma NothingToTake(s: StepInput)
    requires s.stepsRemaining >= 1 && s.Take() == 0
    ensures s.IsTransfer({})
  {
  }

  /** Which positions the step settles. */
  method SelectTransfer(ghost s: StepInput, cfg: StepConfig, x: array<nat>, scores: array<Score>, stepsRemaining: nat,
                        blockStart: nat, blockEnd: nat)
    returns (transfer: array<bool>)
    requires s.Valid() && s.cfg == cfg && s.x == x[..] && s.stepsRemaining == stepsRemaining
    requires s.blockStart == blockStart && s.blockEnd == blockEnd
    requires scores.Length == x.Length && forall i: nat :: i < x.Length ==> scores[i] == s.ScoreOf(i)
    ensures fresh(transfer) && transfer.Length == x.Length && s.IsTransfer(TrueAt(transfer[..]))
  {
    hide StepInput.Masked, StepInput.Candidates, StepInput.ScoreOf, StepInput.IsTransfer, Quota.Share;
    var n := x.Length;
    transfer := new bool[n](i => false);
    assert TrueAt(transfer[..]) == {};
    var remaining := CountMasks(s, cfg, x, blockStart, blockEnd);
    var k := Quota.Share(remaining, stepsRemaining);
    Quota.ShareBounds(remaining, stepsRemaining);
    k := Min(k, remaining);
    if k > 0 {
      var idx := RankTransfer(s, scores[..], k);
      forall i | 0 <= i < n { transfer[i] := i in idx; }
      assert TrueAt(transfer[..]) == idx;
    } else {
      NothingToTake(s);
    }
  }

  /** The updated copies: reopened first, settled last, everything else one step older. */
  method Settle(ghost s: StepInput, cfg: StepConfig, fwd: Forward, x: array<nat>, age: array<nat>,
                transfer: array<bool>, remask: array<bool>)
    returns (x': array<nat>, age': array<nat>)
    requires s.Valid() && s.cfg == cfg && s.fwd == fwd && s.x == x[..] && s.age == age[..]
    requires x.Length == age.Length == transfer.Length == remask.Length
    ensures fresh(x') && fresh(age') && x' != age' && x'.Length == age'.Length == x.Length
    ensures x'[..] == s.NextX(TrueAt(transfer[..]), TrueAt(remask[..]))
    ensures age'[..] == s.NextAge(TrueAt(transfer[..]), TrueAt(remask[..]))
    ensures forall i: nat :: i < x.Length ==>
              && x'[i] == (if transfer[i] then fwd.x0(i) else if remask[i] then cfg.maskId else x[i])
              && age'[i] == if transfer[i] || remask[i] then 0 else if x[i] == cfg.maskId then age[i] else age[i] + 1
  {
    var n := x.Length;
    x' := new nat[n](i requires 0 <= i < n reads x => x[i]);
    age' := new nat[n](i requires 0 <= i < n reads age => age[i]);
    forall i | 0 <= i < n && remask[i] { x'[i] := cfg.maskId; }
    forall i | 0 <= i < n && remask[i] { age'[i] := 0; }
    forall i | 0 <= i < n && transfer[i] { x'[i] := fwd.x0(i); }
    forall i | 0 <= i < n && transfer[i] { age'[i] := 0; }
    forall i | 0 <= i < n && x[i] != cfg.maskId && !remask[i] && !transfer[i] { age'[i] := age'[i] + 1; }
    ghost var t, r := TrueAt(transfer[..]), TrueAt(remask[..]);
    forall i: nat | i < n
      ensures x'[i] == s.NextToken(t, r, i) && age'[i] == s.NextTokenAge(t, r, i)
    {
      assert i in t <==> transfer[i];
      assert i in r <==> remask[i];
    }
  }

  /** local_step, after the forward pass `fwd` on x. */
  method LocalStep(cfg: StepConfig, fwd: Forward, x: array<nat>, age: array<nat>, stepsRemaining: nat,
                   blockStart: nat, blockEnd: nat, stepsPerBlock: nat, frozenFrom: Option<nat>)
    returns (x': array<nat>, age': array<nat>, transfer: array<bool>, remask: array<bool>)
    requires x.Length == age.Length && blockStart <= blockEnd <= x.Length && stepsRemaining >= 1
    ensures fresh(x') && fresh(age') && x' != age' && fresh(transfer) && fresh(remask)
    ensures x'.Length == age'.Length == transfer.Length == remask.Length == x.Length
    ensures var s := StepInput(cfg, fwd, x[..], age[..], stepsRemaining, blockStart, blockEnd, stepsPerBlock,
        frozenFrom);
            && s.IsRemask(TrueAt(remask[..]))
            && s.IsTransfer(TrueAt(transfer[..]))
            && x'[..] == s.NextX(TrueAt(transfer[..]), TrueAt(remask[..]))
            && age'[..] == s.NextAge(TrueAt(transfer[..]), TrueAt(remask[..]))
    ensures forall i: nat :: i < x.Length ==>
              && x'[i] == (if transfer[i] then fwd.x0(i) else if remask[i] then cfg.maskId else x[i])
              && age'[i] == if transfer[i] || remask[i] then 0 else if x[i] == cfg.maskId then age[i] else age[i] + 1
  {
    ghost var s := StepInput(cfg, fwd, x[..], age[..], stepsRemaining, blockStart, blockEnd, stepsPerBlock, frozenFrom);
    hide StepInput.NextX, StepInput.NextAge, StepInput.IsTransfer, StepInput.IsRemask, TrueAt, StepInput.ScoreOf;
    remask := Remask(s, cfg, fwd, x, age, stepsRemaining, blockStart, blockEnd, stepsPerBlock, frozenFrom);
    var scores := TransferScores(s, cfg, fwd, x, blockStart, blockEnd, frozenFrom);
    transfer := SelectTransfer(s, cfg, x, scores, stepsRemaining, blockStart, blockEnd);

    x', age' := Settle(s, cfg, fwd, x, age, transfer, remask);
  }
}
