/** What every denoising step guarantees, whatever the model predicted (diffusion/local_step.py). */
module StepFacts {
  import opened Prelude
  import opened LocalStep
  import Quota

  /** No mask of the block lies at or beyond the frozen boundary. */
  ghost predicate NoFrozenMask(s: StepInput) {
    forall i :: i in s.Masked() ==> s.Open(i)
  }

  lemma CandidatesMasked(s: StepInput)
    requires s.Valid()
    ensures s.Candidates() <= s.Masked() <= s.Everywhere()
    ensures |s.Candidates()| <= |s.Masked()|
    ensures |s.Candidates()| == |s.Masked()| <==> NoFrozenMask(s)
  {
    SubsetSize(s.Candidates(), s.Masked());
    if NoFrozenMask(s) {
      assert s.Candidates() == s.Masked();
    } else {
      var i: nat :| i in s.Masked() && !s.Open(i);
      assert i !in s.Candidates();
    }
  }

  /** The general fact about top-k: finite scores go first. */
  lemma FiniteFirst(among: set<nat>, score: nat -> Score, k: int, top: set<nat>, finite: set<nat>)
    requires IsTopK(among, score, k, top)
    requires finite <= among && forall i: nat :: i in among ==> (score(i).Fin? <==> i in finite)
    ensures k <= |finite| ==> top <= finite
    ensures k >= |finite| ==> finite <= top
  {
    if a: nat :| a in top && a !in finite {
      forall b: nat | b in finite
        ensures b in top
      {
        assert !Le(score(b), score(a));
      }
      SubsetSize(finite + {a}, top);
    } else {
      SubsetSize(top, finite);
    }
  }

  lemma TopKFiniteFirst(s: StepInput, transfer: set<nat>)
    requires s.Valid() && s.IsTransfer(transfer)
    ensures s.Take() <= |s.Candidates()| ==> transfer <= s.Candidates()
    ensures s.Take() >= |s.Candidates()| ==> s.Candidates() <= transfer
  {
    CandidatesMasked(s);
    FiniteFirst(s.Everywhere(), (i: nat) => s.ScoreOf(i), s.Take(), transfer, s.Candidates());
  }

  lemma TransferSize(s: StepInput, transfer: set<nat>)
    requires s.Valid() && s.IsTransfer(transfer)
    ensures |transfer| == s.Take() && transfer <= s.Everywhere()
  {
  }

  /** The exact condition for a step to leave everything but candidates alone: it settles nothing
      else if and only if the quota does not exceed their number. Otherwise it settles all of them
      and, for the rest of the quota, positions it must not touch. */
  lemma TransferContained(s: StepInput, transfer: set<nat>)
    requires s.Valid() && s.IsTransfer(transfer)
    ensures transfer <= s.Candidates() <==> s.Contained()
    ensures !s.Contained() ==> s.Candidates() <= transfer && |transfer - s.Candidates()| == s.Take() - |s.Candidates()|
  {
    TopKFiniteFirst(s, transfer);
    TransferSize(s, transfer);
    hide StepInput.Take, StepInput.Candidates, StepInput.IsTransfer, StepInput.Everywhere;
    if transfer <= s.Candidates() {
      SubsetSize(transfer, s.Candidates());
    } else {
      SubsetSize(s.Candidates(), transfer);
    }
  }

  /** With no mask at or beyond the boundary a step settles exactly its share of the block's masks,
      and none of what it reopens. */
  lemma TransferExact(s: StepInput, transfer: set<nat>, remask: set<nat>)
    requires s.Valid() && s.IsTransfer(transfer) && s.IsRemask(remask) && NoFrozenMask(s)
    ensures transfer <= s.Masked() && transfer !! remask
    ensures |transfer| == Quota.Share(|s.Masked()|, s.stepsRemaining)
    ensures s.stepsRemaining == 1 ==> transfer == s.Masked()
  {
    CandidatesMasked(s);
    Quota.ShareBounds(|s.Masked()|, s.stepsRemaining);
    TransferContained(s, transfer);
    RemaskSettled(s, remask);
    if s.stepsRemaining == 1 {
      SubsetSize(transfer, s.Masked());
    }
  }

  /** Only settled, unfrozen positions of the block are ever reopened. */
  lemma RemaskSettled(s: StepInput, remask: set<nat>)
    requires s.Valid() && s.IsRemask(remask)
    ensures remask <= s.Eligible()
    ensures remask !! s.Masked()
  {
  }

  /** A contained step touches its block only. */
  lemma StaysInBlock(s: StepInput, transfer: set<nat>, remask: set<nat>)
    requires s.Valid() && s.IsTransfer(transfer) && s.IsRemask(remask) && s.Contained()
    ensures forall i :: i in transfer || i in remask ==> s.InBlock(i)
  {
    hide StepInput.IsTransfer, StepInput.IsRemask, StepInput.Contained;
    TransferContained(s, transfer);
    RemaskSettled(s, remask);
  }

  /** On the last step of a block the condition is exactly that no mask lies beyond the boundary: a
      freeze with masks behind it makes the last step write where it must not. */
  lemma LastStepContained(s: StepInput, transfer: set<nat>)
    requires s.Valid() && s.IsTransfer(transfer) && s.stepsRemaining == 1
    ensures transfer <= s.Candidates() <==> NoFrozenMask(s)
    ensures NoFrozenMask(s) ==> transfer == s.Masked()
  {
    CandidatesMasked(s);
    Quota.ShareBounds(|s.Masked()|, 1);
    TransferContained(s, transfer);
    if NoFrozenMask(s) {
      SubsetSize(transfer, s.Masked());
    }
  }

  /** On the last step every candidate is settled, whatever else is. */
  lemma LastStepTakesAll(s: StepInput, transfer: set<nat>)
    requires s.Valid() && s.IsTransfer(transfer) && s.stepsRemaining == 1
    ensures s.Candidates() <= transfer
  {
    hide StepInput.IsTransfer, StepInput.Candidates, StepInput.Masked;
    CandidatesMasked(s);
    Quota.ShareBounds(|s.Masked()|, 1);
    TopKFiniteFirst(s, transfer);
  }

  /** Without a boundary every step is contained. */
  lemma UnfrozenContained(s: StepInput)
    requires s.Valid() && s.frozenFrom.None?
    ensures s.Contained()
  {
    CandidatesMasked(s);
    Quota.ShareBounds(|s.Masked()|, s.stepsRemaining);
  }

  /** Past the candidates every position ties at minus infinity: once the quota takes in all of them, whatever
      other positions make it up may be the ones that are overwritten. */
  lemma AnythingMayBeTaken(s: StepInput, transfer: set<nat>)
    requires s.Valid() && s.Take() >= |s.Candidates()|
    ensures s.IsTransfer(transfer) <==>
              s.Candidates() <= transfer <= s.Everywhere() && |transfer| == s.Take()
  {
    if s.IsTransfer(transfer) {
      TopKFiniteFirst(s, transfer);
      TransferSize(s, transfer);
    }
    hide StepInput.Candidates, StepInput.Take, StepInput.Everywhere;
    assert forall i: nat :: i !in s.Candidates() ==> s.ScoreOf(i) == NegInf;
  }

  /** Some outcome of a step that is not contained takes any given position. */
  lemma StrayMayTake(s: StepInput, q: nat) returns (transfer: set<nat>)
    requires s.Valid() && !s.Contained() && q < |s.x| && q !in s.Candidates()
    ensures s.IsTransfer(transfer) && q in transfer
  {
    CandidatesMasked(s);
    Quota.ShareBounds(|s.Masked()|, s.stepsRemaining);
    SubsetSize(s.Masked(), s.Everywhere());
    var taken := s.Candidates() + {q};
    SubsetSize(taken, s.Everywhere());
    hide StepInput.Candidates, StepInput.Take, StepInput.Everywhere, StepInput.IsTransfer, StepInput.Masked;
    var others := TopKExists(s.Everywhere() - taken, (_: nat) => NegInf, s.Take() - |taken|);
    transfer := taken + others;
    AnythingMayBeTaken(s, transfer);
  }

  /** So a step may overwrite a position that is not a candidate, be it of the prompt, of another block or behind
      the boundary, if and only if its quota exceeds the number of its candidates. */
  lemma MayOverwrite(s: StepInput, q: nat)
    requires s.Valid() && q < |s.x| && q !in s.Candidates()
    ensures (exists transfer :: s.IsTransfer(transfer) && q in transfer) <==> s.Take() > |s.Candidates()|
  {
    hide StepInput.Candidates, StepInput.Take, StepInput.IsTransfer;
    if !s.Contained() {
      var transfer := StrayMayTake(s, q);
    }
    forall transfer | s.IsTransfer(transfer) && q in transfer
      ensures !s.Contained()
    {
      TransferContained(s, transfer);
    }
  }

  /** A concrete such step: a one-token prompt, a block of two whose boundary froze at its first
      position, and one step left. Overwriting the prompt itself is a possible outcome. */
  lemma FrozenStepMayOverwritePrompt(fwd: Forward, cfg: StepConfig, s: StepInput)
    requires cfg.maskId == 0 && s == StepInput(cfg, fwd, [7, 5, 0], [1, 0, 0], 1, 1, 3, 2, Some(1))
    ensures s.Valid() && !s.Contained() && s.IsTransfer({0})
  {
    hide StepInput.IsTransfer, StepInput.Masked, StepInput.Candidates, StepInput.Everywhere, Quota.Share;
    FrozenMasks(s);
    Quota.ShareBounds(1, 1);
    AnythingMayBeTaken(s, {0});
  }

  lemma FrozenMasks(s: StepInput)
    requires |s.x| == 3 && s.x[1] != s.cfg.maskId && s.x[2] == s.cfg.maskId
    requires s.blockStart == 1 && s.blockEnd == 3 && s.frozenFrom == Some(1)
    ensures s.Candidates() == {} && |s.Masked()| == 1 && {0} <= s.Everywhere()
  {
    assert s.Masked() == {2};
  }

  // ---------------------------------------------------------------- the step in terms of its inputs

  lemma ScoreIs(s: StepInput, i: nat)
    ensures s.ScoreOf(i) ==
            if i < |s.x| && s.blockStart <= i < s.blockEnd && s.x[i] == s.cfg.maskId
               && (s.frozenFrom.Some? ==> i < s.frozenFrom.value)
            then Fin(s.fwd.p(i, s.fwd.x0(i)) -
                     if s.fwd.x0(i) == s.cfg.eosId && s.fwd.eosMargin(i) < s.cfg.eosMarginThreshold then 100.0
                     else 0.0)
            else NegInf
  {
  }

  /** A step settles the least number of positions that finishes the block's masks if all its steps do the same. */
  lemma TransferCounts(s: StepInput, transfer: set<nat>)
    requires s.Valid() && s.IsTransfer(transfer)
    ensures forall i :: i in transfer ==> i < |s.x|
    ensures var masks := set i: nat | i < |s.x| && s.blockStart <= i < s.blockEnd && s.x[i] == s.cfg.maskId;
            (|transfer| - 1) * s.stepsRemaining < |masks| <= |transfer| * s.stepsRemaining
  {
    var masks := set i: nat | i < |s.x| && s.blockStart <= i < s.blockEnd && s.x[i] == s.cfg.maskId;
    assert masks == s.Masked();
    Quota.ShareIsCeiling(|masks|, s.stepsRemaining);
    TransferSize(s, transfer);
    hide StepInput.IsTransfer, Quota.Share;
  }

  /** It passes over a mask of the block before the boundary only for others of that kind, none of which the model
      was less sure of, where an EOS guess short of the margin counts for 100 less. */
  lemma TransferRanks(s: StepInput, transfer: set<nat>, a: nat, b: nat)
    requires s.Valid() && s.IsTransfer(transfer) && a in transfer && b !in transfer
    requires b < |s.x| && s.blockStart <= b < s.blockEnd && s.x[b] == s.cfg.maskId
    requires s.frozenFrom.Some? ==> b < s.frozenFrom.value
    ensures a < |s.x| && s.blockStart <= a < s.blockEnd && s.x[a] == s.cfg.maskId
    ensures s.frozenFrom.Some? ==> a < s.frozenFrom.value
    ensures s.fwd.p(b, s.fwd.x0(b))
            - (if s.fwd.x0(b) == s.cfg.eosId && s.fwd.eosMargin(b) < s.cfg.eosMarginThreshold then 100.0 else 0.0)
            <= s.fwd.p(a, s.fwd.x0(a))
               - if s.fwd.x0(a) == s.cfg.eosId && s.fwd.eosMargin(a) < s.cfg.eosMarginThreshold then 100.0 else 0.0
  {
    ScoreIs(s, a);
    ScoreIs(s, b);
    assert Le(s.ScoreOf(b), s.ScoreOf(a));
    hide StepInput.ScoreOf, StepInput.Candidates;
  }

  /** And any choice that counts and ranks like that is one it may make. */
  lemma TransferAllowed(s: StepInput, transfer: set<nat>)
    requires s.Valid() && forall i :: i in transfer ==> i < |s.x|
    requires var masks := set i: nat | i < |s.x| && s.blockStart <= i < s.blockEnd && s.x[i] == s.cfg.maskId;
             (|transfer| - 1) * s.stepsRemaining < |masks| <= |transfer| * s.stepsRemaining
    requires forall a, b: nat :: a in transfer && b < |s.x| && b !in transfer ==>
               Le(s.ScoreOf(b), s.ScoreOf(a))
    ensures s.IsTransfer(transfer)
  {
    var masks := set i: nat | i < |s.x| && s.blockStart <= i < s.blockEnd && s.x[i] == s.cfg.maskId;
    assert masks == s.Masked();
    Quota.ShareIsCeiling(|masks|, s.stepsRemaining);
    Quota.CeilingUnique(|masks|, s.stepsRemaining, |transfer|, s.Take());
    hide StepInput.ScoreOf, Quota.Share, StepInput.Masked;
  }

  /** EOS demotion: an EOS guess short of the margin is settled only when every other candidate is, and among those
      and among the others nothing left out was more confident than something settled. */
  lemma EosPriority(s: StepInput, transfer: set<nat>, a: nat, b: nat)
    requires s.Valid() && s.IsTransfer(transfer) && a in transfer && b !in transfer
    requires b < |s.x| && s.blockStart <= b < s.blockEnd && s.x[b] == s.cfg.maskId
    requires s.frozenFrom.Some? ==> b < s.frozenFrom.value
    requires forall i: nat ::
               i < |s.x| && s.blockStart <= i < s.blockEnd && s.x[i] == s.cfg.maskId
               && (s.frozenFrom.Some? ==> i < s.frozenFrom.value) ==>
                 0.0 <= s.fwd.p(i, s.fwd.x0(i)) <= 1.0
    ensures s.fwd.x0(a) == s.cfg.eosId && s.fwd.eosMargin(a) < s.cfg.eosMarginThreshold ==>
              s.fwd.x0(b) == s.cfg.eosId && s.fwd.eosMargin(b) < s.cfg.eosMarginThreshold
    ensures (s.fwd.x0(a) == s.cfg.eosId && s.fwd.eosMargin(a) < s.cfg.eosMarginThreshold)
            == (s.fwd.x0(b) == s.cfg.eosId && s.fwd.eosMargin(b) < s.cfg.eosMarginThreshold) ==>
              s.fwd.p(b, s.fwd.x0(b)) <= s.fwd.p(a, s.fwd.x0(a))
  {
    TransferRanks(s, transfer, a, b);
    hide StepInput.IsTransfer;
  }

  /** What a step may reopen, exactly: nothing on the reserved steps; else of the settled positions of the block
      before the boundary, old enough, those the model gives less than the threshold, at most the cap of them, and
      those it gives least. */
  lemma RemaskIs(s: StepInput, remask: set<nat>, eligible: set<nat>, low: set<nat>, share: real,
                 reserve: real)
    requires s.Valid()
    requires forall i: nat :: i in eligible <==>
               && i < |s.x| && s.blockStart <= i < s.blockEnd && s.x[i] != s.cfg.maskId
               && (s.frozenFrom.Some? ==> i < s.frozenFrom.value) && s.age[i] >= s.cfg.remaskMinAge
    requires forall i :: i in low <==> i in eligible && s.fwd.p(i, s.x[i]) < s.cfg.remaskConfThreshold
    requires share == s.cfg.remaskMaxFrac * |eligible| as real
    requires reserve == s.cfg.remaskReserveFrac * s.stepsPerBlock as real
    ensures var cap := if share < 1.0 then 1 else share.Floor;
            s.IsRemask(remask) <==>
              if s.stepsRemaining > 1 && s.stepsRemaining > Round(reserve) then
                && remask <= low && |remask| == (if |low| < cap then |low| else cap)
                && forall a, b :: a in remask && b in low && b !in remask ==>
                     s.fwd.p(a, s.x[a]) <= s.fwd.p(b, s.x[b])
              else remask == {}
  {
    assert eligible == s.Eligible();
    assert low == s.LowConfidence();
    PartIs(s.cfg.remaskReserveFrac, s.stepsPerBlock, reserve);
    PartIs(s.cfg.remaskMaxFrac, |eligible|, share);
    hide StepInput.Eligible, StepInput.LowConfidence, StepInput.IsRemask, Round, PartOf;
    RemaskChoice(s, remask, low, s.RemaskCap());
  }

  /** The same, one way only, of a step whose parts are given. */
  lemma RemaskOf(s: StepInput, remask: set<nat>, eligible: set<nat>, low: set<nat>)
    requires s.Valid() && s.IsRemask(remask)
    requires forall i: nat :: i in eligible <==>
               && i < |s.x| && s.blockStart <= i < s.blockEnd && s.x[i] != s.cfg.maskId
               && (s.frozenFrom.Some? ==> i < s.frozenFrom.value) && s.age[i] >= s.cfg.remaskMinAge
    requires forall i :: i in low <==> i in eligible && s.fwd.p(i, s.x[i]) < s.cfg.remaskConfThreshold
    ensures var share := PartOf(s.cfg.remaskMaxFrac, |eligible|);
            var reserve := PartOf(s.cfg.remaskReserveFrac, s.stepsPerBlock);
            var cap := if share < 1.0 then 1 else share.Floor;
            if s.stepsRemaining > 1 && s.stepsRemaining > Round(reserve) then
              && remask <= low && |remask| == (if |low| < cap then |low| else cap)
              && forall a, b :: a in remask && b in low && b !in remask ==>
                   s.fwd.p(a, s.x[a]) <= s.fwd.p(b, s.x[b])
            else remask == {}
  {
    hide StepInput.Eligible, StepInput.LowConfidence, StepInput.IsRemask, Round;
    RemaskIs(s, remask, eligible, low, PartOf(s.cfg.remaskMaxFrac, |eligible|),
        PartOf(s.cfg.remaskReserveFrac, s.stepsPerBlock));
  }

  lemma PartIs(frac: real, whole: nat, part: real)
    requires part == frac * whole as real
    ensures PartOf(frac, whole) == part
  {
  }

  lemma RemaskChoice(s: StepInput, remask: set<nat>, low: set<nat>, cap: int)
    requires s.Valid() && low == s.LowConfidence() && cap == s.RemaskCap() && forall i :: i in low ==> i < |s.x|
    ensures s.IsRemask(remask) <==>
              if s.AllowRemask() then
                && remask <= low && |remask| == (if |low| < cap then |low| else cap)
                && forall a, b :: a in remask && b in low && b !in remask ==>
                     s.fwd.p(a, s.x[a]) <= s.fwd.p(b, s.x[b])
              else remask == {}
  {
    hide StepInput.LowConfidence, StepInput.Eligible, StepInput.RemaskCap, StepInput.AllowRemask, StepInput.Unwanted;
    if s.AllowRemask() {
      if |low| <= cap {
        if remask <= low && |remask| == |low| {
          SubsetSize(remask, low);
        }
      } else {
        UnwantedOrder(s, low);
      }
    }
  }

  lemma UnwantedOrder(s: StepInput, low: set<nat>)
    requires forall i :: i in low ==> i < |s.x|
    ensures forall a, b :: a in low && b in low ==>
              (Le(s.Unwanted(b), s.Unwanted(a)) <==> s.fwd.p(a, s.x[a]) <= s.fwd.p(b, s.x[b]))
  {
  }

  /** What a step leaves: at a position it settles the model's token, at one it only reopens a mask, both of age 0;
      elsewhere the token it was, one step older unless it is a mask. */
  lemma NextIs(s: StepInput, transfer: set<nat>, remask: set<nat>, i: nat)
    requires s.Valid() && i < |s.x|
    ensures |s.NextX(transfer, remask)| == |s.NextAge(transfer, remask)| == |s.x|
    ensures i in transfer ==> s.NextX(transfer, remask)[i] == s.fwd.x0(i)
    ensures i !in transfer && i in remask ==> s.NextX(transfer, remask)[i] == s.cfg.maskId
    ensures i !in transfer && i !in remask ==> s.NextX(transfer, remask)[i] == s.x[i]
    ensures i in transfer || i in remask ==> s.NextAge(transfer, remask)[i] == 0
    ensures i !in transfer && i !in remask ==>
              s.NextAge(transfer, remask)[i] == s.age[i] + if s.x[i] == s.cfg.maskId then 0 else 1
  {
  }

  /** Nothing is old enough to be reopened before `remaskMinAge` steps have passed. */
  lemma YoungStays(s: StepInput, remask: set<nat>)
    requires s.Valid() && s.IsRemask(remask)
    requires forall i: nat :: i < |s.x| && s.InBlock(i) && s.x[i] != s.cfg.maskId ==> s.age[i] < s.cfg.remaskMinAge
    ensures remask == {}
  {
    assert s.Eligible() == {};
    assert s.LowConfidence() == {};
  }

  /** A contained step that reopens nothing and predicts no mask takes exactly its share off the
      block's masks. */
  lemma MasksLeft(s: StepInput, transfer: set<nat>, s': StepInput)
    requires s.Valid() && s.IsTransfer(transfer) && s.Contained()
    requires forall i :: i in transfer ==> s.fwd.x0(i) != s.cfg.maskId
    requires s'.x == s.NextX(transfer, {}) && s'.cfg == s.cfg && s'.blockStart == s.blockStart
        && s'.blockEnd == s.blockEnd
    ensures s'.Masked() == s.Masked() - transfer
    ensures |s'.Masked()| == |s.Masked()| - Quota.Share(|s.Masked()|, s.stepsRemaining)
  {
    CandidatesMasked(s);
    TransferContained(s, transfer);
    hide StepInput.IsTransfer, StepInput.Everywhere, StepInput.Contained;
    assert transfer <= s.Masked() by { hide StepInput.Candidates, StepInput.Masked; }
    forall i: nat
      ensures i in s'.Masked() <==> i in s.Masked() - transfer
    {
      assert i < |s.x| ==> s'.x[i] == s.NextToken(transfer, {}, i);
    }
  }

  /** Reopening is rationed: nothing in the reserve steps, never more than the cap, and when the cap cuts
      in, no position left settled was less confident than one reopened. */
  lemma RemaskRationed(s: StepInput, remask: set<nat>)
    requires s.Valid() && s.IsRemask(remask)
    ensures !s.AllowRemask() ==> remask == {}
    ensures remask <= s.LowConfidence() && |remask| <= s.RemaskCap()
    ensures s.AllowRemask() ==> |remask| == Min(|s.LowConfidence()|, s.RemaskCap())
    ensures forall a, b :: a in remask && b in s.LowConfidence() && b !in remask ==>
        s.fwd.p(a, s.x[a]) <= s.fwd.p(b, s.x[b])
  {
    if s.AllowRemask() && |s.LowConfidence()| > s.RemaskCap() {
      forall a, b | a in remask && b in s.LowConfidence() && b !in remask
        ensures s.fwd.p(a, s.x[a]) <= s.fwd.p(b, s.x[b])
      {
        assert Le(s.Unwanted(b), s.Unwanted(a));
      }
    }
  }

  /** `round` is nearest, with ties to even. */
  lemma RoundIsNearest(r: real, n: int)
    ensures Round(r) as real - 0.5 <= r <= Round(r) as real + 0.5
    ensures n as real - 0.5 < r < n as real + 0.5 ==> Round(r) == n
    ensures r == n as real + 0.5 ==> Round(r) % 2 == 0
  {
    var below := r.Floor;
    assert below as real <= r < below as real + 1.0;
    if n as real - 0.5 < r < n as real + 0.5 {
      assert (n - 1) as real < below as real + 1.0 && below as real < (n + 1) as real;
      assert n - 1 <= below <= n;
    }
    if r == n as real + 0.5 {
      assert below == n;
    }
  }

  // ---------------------------------------------------------------- a step can always be taken

  lemma {:induction false} BestExists(among: set<nat>, score: nat -> Score) returns (best: nat)
    requires among != {}
    ensures best in among && forall b :: b in among ==> Le(score(b), score(best))
    decreases |among|
  {
    best := Pick(among);
    if among != {best} {
      var other := BestExists(among - {best}, score);
      best := if Le(score(other), score(best)) then best else other;
    }
  }

  lemma {:induction false} TopKExists(among: set<nat>, score: nat -> Score, k: nat) returns (top: set<nat>)
    requires k <= |among|
    ensures IsTopK(among, score, k, top)
    decreases k
  {
    top := {};
    if k > 0 {
      var best := BestExists(among, score);
      var rest := TopKExists(among - {best}, score, k - 1);
      top := rest + {best};
    }
  }

  /** Whatever the model predicts there is something to settle and something, maybe nothing, to reopen:
      `topk` is never asked for more than it is given. */
  lemma StepEnabled(s: StepInput) returns (transfer: set<nat>, remask: set<nat>)
    requires s.Valid()
    ensures s.IsTransfer(transfer) && s.IsRemask(remask)
  {
    hide StepInput.Masked, StepInput.LowConfidence, StepInput.Eligible, StepInput.ScoreOf, StepInput.Unwanted, IsTopK;
    MaskedInside(s);
    Quota.ShareBounds(|s.Masked()|, s.stepsRemaining);
    transfer := TopKExists(s.Everywhere(), (i: nat) => s.ScoreOf(i), s.Take());
    remask := if s.AllowRemask() then s.LowConfidence() else {};
    if s.AllowRemask() && |s.LowConfidence()| > s.RemaskCap() {
      remask := TopKExists(s.LowConfidence(), (i: nat) => s.Unwanted(i), s.RemaskCap());
    }
  }
}
