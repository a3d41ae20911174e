/** The stop boundary (diffusion/stop_detection.py): a detector that every node feeds with the shared
    state once per sync, and the offline reading of what it has confirmed after any number of syncs. */
module StopDetection {
  import opened Prelude

  datatype StopConfig = StopConfig(eosId: nat, maskId: nat, minGenLength: int, stopRunMin: int, stopConfirmations: int)

  /** What one check makes of the shared state: nothing committed yet, no acceptable boundary, or a
      candidate boundary. */
  datatype Reading = Nothing | Unqualified | Qualified(candidate: nat)

  datatype StopState = StopState(stop: Option<nat>, pending: Option<nat>, confirms: nat)

  const FRESH := StopState(None, None, 0)

  // ---------------------------------------------------------------- reading the shared state

  predicate IsFrontier(shared: map<nat, nat>, genStart: nat, genEnd: nat, f: nat) {
    genStart < f <= genEnd && f - 1 in shared && forall q :: f <= q < genEnd ==> q !in shared
  }

  predicate EosAt(shared: map<nat, nat>, eos: nat, q: int) {
    q in shared && shared[q] == eos
  }

  /** `r` starts the longest run of EOS tokens that ends just before `f`. */
  predicate IsRunStart(shared: map<nat, nat>, eos: nat, genStart: nat, f: nat, r: nat) {
    && genStart <= r <= f
    && (forall q :: r <= q < f ==> EosAt(shared, eos, q))
    && (r == genStart || !EosAt(shared, eos, r - 1))
  }

  ghost predicate Qualifies(cfg: StopConfig, shared: map<nat, nat>, genStart: nat, f: nat, r: nat) {
    && IsRunStart(shared, cfg.eosId, genStart, f, r)
    && f - genStart > cfg.minGenLength
    && f - r >= cfg.stopRunMin
  }

  /** The reading as the description of the boundary says it, with no algorithm in it. */
  ghost predicate IsReading(cfg: StopConfig, shared: map<nat, nat>, genStart: nat, genEnd: nat, reading: Reading) {
    match reading
    case Nothing => forall q :: genStart <= q < genEnd ==> q !in shared
    case Unqualified =>
      exists f: nat ::
        IsFrontier(shared, genStart, genEnd, f) && forall r: nat :: !Qualifies(cfg, shared, genStart, f, r)
    case Qualified(c) =>
      exists f: nat :: IsFrontier(shared, genStart, genEnd, f) && Qualifies(cfg, shared, genStart, f, c)
  }

  /** There is one reading of a shared state, so every node that holds it reads the same. */
  lemma ReadingUnique(cfg: StopConfig, shared: map<nat, nat>, genStart: nat, genEnd: nat, a: Reading, b: Reading)
    requires IsReading(cfg, shared, genStart, genEnd, a) && IsReading(cfg, shared, genStart, genEnd, b)
    ensures a == b
  {
    if !a.Nothing? && !b.Nothing? {
      var f: nat :| IsFrontier(shared, genStart, genEnd, f)
          && (a.Qualified? ==> Qualifies(cfg, shared, genStart, f, a.candidate));
      var g: nat :| IsFrontier(shared, genStart, genEnd, g)
          && (b.Qualified? ==> Qualifies(cfg, shared, genStart, g, b.candidate));
      assert f == g by {
        assert f < g ==> g - 1 in shared;
        assert g < f ==> f - 1 in shared;
      }
      if a.Qualified? && b.Qualified? {
        RunStartUnique(shared, cfg.eosId, genStart, f, a.candidate, b.candidate);
      }
    }
  }

  lemma RunStartUnique(shared: map<nat, nat>, eos: nat, genStart: nat, f: nat, r: nat, s: nat)
    requires IsRunStart(shared, eos, genStart, f, r) && IsRunStart(shared, eos, genStart, f, s)
    ensures r == s
  {
    assert !EosAt(shared, eos, r - 1) || r == genStart;
  }

  lemma OnlyRunStart(cfg: StopConfig, shared: map<nat, nat>, genStart: nat, f: nat, r: nat)
    requires IsRunStart(shared, cfg.eosId, genStart, f, r)
    requires !(f - genStart > cfg.minGenLength && f - r >= cfg.stopRunMin)
    ensures forall s: nat :: !Qualifies(cfg, shared, genStart, f, s)
  {
    forall s: nat | IsRunStart(shared, cfg.eosId, genStart, f, s)
      ensures s == r
    {
      RunStartUnique(shared, cfg.eosId, genStart, f, r, s);
    }
  }

  ghost function FrontierOf(shared: map<nat, nat>, genStart: nat, genEnd: nat): (f: nat)
    requires exists q :: genStart <= q < genEnd && q in shared
    ensures IsFrontier(shared, genStart, genEnd, f)
    decreases genEnd
  {
    if genEnd - 1 in shared then genEnd else FrontierOf(shared, genStart, genEnd - 1)
  }

  ghost function RunStartOf(shared: map<nat, nat>, eos: nat, genStart: nat, f: nat): (r: nat)
    requires genStart <= f
    ensures IsRunStart(shared, eos, genStart, f, r)
    decreases f
  {
    if genStart < f && EosAt(shared, eos, f - 1) then RunStartOf(shared, eos, genStart, f - 1) else f
  }

  ghost function Read(cfg: StopConfig, shared: map<nat, nat>, genStart: nat, genEnd: nat): (reading: Reading)
    ensures IsReading(cfg, shared, genStart, genEnd, reading)
  {
    if forall q :: genStart <= q < genEnd ==> q !in shared then Nothing else
      var f := FrontierOf(shared, genStart, genEnd);
      var r := RunStartOf(shared, cfg.eosId, genStart, f);
      if f - genStart > cfg.minGenLength && f - r >= cfg.stopRunMin then
        assert Qualifies(cfg, shared, genStart, f, r);
        Qualified(r)
      else
        OnlyRunStart(cfg, shared, genStart, f, r);
        Unqualified
  }

  /** The reading in terms of what is committed: nothing, or f is one past the last committed position and r starts
      the run of EOS that ends there; r qualifies when more than the minimum has been generated and the run is long
      enough. */
  lemma ReadIs(cfg: StopConfig, shared: map<nat, nat>, genStart: nat, genEnd: nat) returns (f: nat, r: nat)
    ensures (forall q :: genStart <= q < genEnd ==> q !in shared) ==> Read(cfg, shared, genStart, genEnd) == Nothing
    ensures (exists q :: genStart <= q < genEnd && q in shared) ==>
              && genStart < f <= genEnd && f - 1 in shared && (forall q :: f <= q < genEnd ==> q !in shared)
              && genStart <= r <= f && (forall q :: r <= q < f ==> q in shared && shared[q] == cfg.eosId)
              && (genStart < r && r - 1 in shared ==> shared[r - 1] != cfg.eosId)
              && Read(cfg, shared, genStart, genEnd)
                 == if f - genStart > cfg.minGenLength && f - r >= cfg.stopRunMin then Qualified(r) else Unqualified
  {
    f, r := 0, 0;
    if exists q :: genStart <= q < genEnd && q in shared {
      f := FrontierOf(shared, genStart, genEnd);
      r := RunStartOf(shared, cfg.eosId, genStart, f);
      forall q | r <= q < f
        ensures q in shared && shared[q] == cfg.eosId
      {
        assert EosAt(shared, cfg.eosId, q);
      }
    }
  }

  /** A candidate lies inside the committed part: never at the frontier, never past a bound on what
      has been committed. */
  lemma CandidateBounds(cfg: StopConfig, shared: map<nat, nat>, genStart: nat, genEnd: nat, bound: nat)
    requires cfg.stopRunMin >= 1
    requires forall q :: q in shared ==> q < bound
    requires Read(cfg, shared, genStart, genEnd).Qualified?
    ensures var c := Read(cfg, shared, genStart, genEnd).candidate;
            && genStart <= c < genEnd && c < bound
            && forall q :: c <= q < genEnd && q in shared ==> shared[q] == cfg.eosId
  {
    var c := Read(cfg, shared, genStart, genEnd).candidate;
    var f: nat :| IsFrontier(shared, genStart, genEnd, f) && Qualifies(cfg, shared, genStart, f, c);
    assert f - 1 in shared;
    forall q | c <= q < genEnd && q in shared
      ensures shared[q] == cfg.eosId
    {
      assert q < f;
      assert EosAt(shared, cfg.eosId, q);
    }
  }

  lemma CandidateFromStart(cfg: StopConfig, shared: map<nat, nat>, genStart: nat, genEnd: nat)
    requires Read(cfg, shared, genStart, genEnd).Qualified?
    ensures genStart <= Read(cfg, shared, genStart, genEnd).candidate
  {
  }

  /** From the candidate to the last committed position everything is committed, and is EOS. */
  lemma CandidateRun(cfg: StopConfig, shared: map<nat, nat>, genStart: nat, genEnd: nat)
    requires cfg.stopRunMin >= 1 && Read(cfg, shared, genStart, genEnd).Qualified?
    ensures var c := Read(cfg, shared, genStart, genEnd).candidate;
            && c < genEnd && c in shared
            && forall p: nat, q: nat :: c <= p <= q < genEnd && q in shared ==> p in shared && shared[p] == cfg.eosId
  {
    var c := Read(cfg, shared, genStart, genEnd).candidate;
    var f: nat :| IsFrontier(shared, genStart, genEnd, f) && Qualifies(cfg, shared, genStart, f, c);
    assert EosAt(shared, cfg.eosId, c);
    forall p: nat, q: nat | c <= p <= q < genEnd && q in shared
      ensures p in shared && shared[p] == cfg.eosId
    {
      assert q < f;
      assert EosAt(shared, cfg.eosId, p);
    }
  }

  // ---------------------------------------------------------------- the online detector

  function Step(cfg: StopConfig, st: StopState, reading: Reading): StopState {
    match reading
    case Nothing => st
    case Unqualified => st.(pending := None, confirms := 0)
    case Qualified(c) =>
      var confirms := if st.pending == Some(c) then st.confirms + 1 else 1;
      var lower := st.stop == None || c < st.stop.value;
      StopState(if confirms >= cfg.stopConfirmations && lower then Some(c) else st.stop, Some(c), confirms)
  }

  ghost function Run(cfg: StopConfig, readings: seq<Reading>): StopState {
    if readings == [] then FRESH else Step(cfg, Run(cfg, readings[..|readings| - 1]), readings[|readings| - 1])
  }

  class StopDetector {
    const cfg: StopConfig
    var stopPos: Option<nat>
    var pendingStopPos: Option<nat>
    var pendingConfirms: nat
    ghost var readings: seq<Reading>

    ghost function State(): StopState
      reads this
    {
      StopState(stopPos, pendingStopPos, pendingConfirms)
    }

    /** The fields are exactly what the readings made so far leave behind. */
    ghost predicate Valid()
      reads this
    {
      State() == Run(cfg, readings)
    }

    constructor (cfg: StopConfig)
      ensures this.cfg == cfg && readings == [] && State() == FRESH && Valid()
    {
      this.cfg := cfg;
      stopPos, pendingStopPos, pendingConfirms := None, None, 0;
      readings := [];
    }

    method Check(shared: map<nat, nat>, genStart: nat, genEnd: nat) returns (r: Option<nat>)
      modifies this
      ensures readings == old(readings) + [Read(cfg, shared, genStart, genEnd)]
      ensures State() == Step(cfg, old(State()), Read(cfg, shared, genStart, genEnd))
      ensures old(Valid()) ==> Valid()
      ensures r == stopPos
      ensures match Read(cfg, shared, genStart, genEnd)
              case Nothing => State() == old(State())
              case Unqualified => stopPos == old(stopPos) && pendingStopPos == None && pendingConfirms == 0
              case Qualified(c) =>
                && pendingStopPos == Some(c)
                && pendingConfirms == (if old(pendingStopPos) == Some(c) then old(pendingConfirms) + 1 else 1)
                && stopPos == if pendingConfirms >= cfg.stopConfirmations
                                 && (old(stopPos) == None || c < old(stopPos).value)
                              then Some(c) else old(stopPos)
    {
      ghost var reading := Read(cfg, shared, genStart, genEnd);
      readings := readings + [reading];
      assert readings[..|readings| - 1] == old(readings);
      var frontier := genStart;
      var p := genStart;
      while p < genEnd
        invariant genStart <= p && (p <= genEnd || p == genStart)
        invariant genStart <= frontier <= p
        invariant genStart < frontier ==> frontier - 1 in shared
        invariant forall q :: frontier <= q < p ==> q !in shared
      {
        if p in shared {
          frontier := p + 1;
        }
        p := p + 1;
      }
      if frontier == genStart {
        ReadingUnique(cfg, shared, genStart, genEnd, reading, Nothing);
        return stopPos;
      }
      assert IsFrontier(shared, genStart, genEnd, frontier);

      var runStart := frontier;
      while runStart > genStart && runStart - 1 in shared && shared[runStart - 1] == cfg.eosId
        invariant genStart <= runStart <= frontier
        invariant forall q :: runStart <= q < frontier ==> EosAt(shared, cfg.eosId, q)
      {
        runStart := runStart - 1;
      }
      var runLen := frontier - runStart;
      assert IsRunStart(shared, cfg.eosId, genStart, frontier, runStart);

      if frontier - genStart > cfg.minGenLength && runLen >= cfg.stopRunMin {
        assert Qualifies(cfg, shared, genStart, frontier, runStart);
        ReadingUnique(cfg, shared, genStart, genEnd, reading, Qualified(runStart));
        var candidateStop := runStart;
        if pendingStopPos == Some(candidateStop) {
          pendingConfirms := pendingConfirms + 1;
        } else {
          pendingStopPos := Some(candidateStop);
          pendingConfirms := 1;
        }
        if pendingConfirms >= cfg.stopConfirmations && (stopPos == None || candidateStop < stopPos.value) {
          stopPos := Some(candidateStop);
        }
      } else {
        OnlyRunStart(cfg, shared, genStart, frontier, runStart);
        ReadingUnique(cfg, shared, genStart, genEnd, reading, Unqualified);
        pendingStopPos := None;
        pendingConfirms := 0;
      }
      r := stopPos;
    }
  }

  // ---------------------------------------------------------------- the offline specification

  ghost function NonEmpty(readings: seq<Reading>): seq<Reading> {
    if readings == [] then [] else
      NonEmpty(readings[..|readings| - 1]) + if readings[|readings| - 1] == Nothing then []
          else [readings[|readings| - 1]]
  }

  /** Checks i to i+k-1 all qualified with candidate c. */
  ghost predicate Streak(checks: seq<Reading>, i: int, k: int, c: nat) {
    0 <= i <= i + k <= |checks| && forall j :: i <= j < i + k ==> checks[j] == Qualified(c)
  }

  ghost predicate Confirmed(checks: seq<Reading>, k: int, c: nat) {
    exists i :: Streak(checks, i, k, c)
  }

  ghost predicate IsLeastConfirmed(checks: seq<Reading>, k: int, stop: Option<nat>) {
    match stop
    case None => forall c: nat :: !Confirmed(checks, k, c)
    case Some(s) => Confirmed(checks, k, s) && forall c: nat :: Confirmed(checks, k, c) ==> s <= c
  }

  /** `confirms` is the length of the longest streak of `pending` that ends with the last check. */
  ghost predicate IsCurrentStreak(checks: seq<Reading>, pending: Option<nat>, confirms: nat) {
    match pending
    case None => confirms == 0 && (checks == [] || checks[|checks| - 1] == Unqualified)
    case Some(c) =>
      && 1 <= confirms <= |checks| && Streak(checks, |checks| - confirms, confirms, c)
      && (confirms < |checks| ==> checks[|checks| - confirms - 1] != Qualified(c))
  }

  lemma ConfirmedGrows(checks: seq<Reading>, reading: Reading, k: int, c: nat)
    requires k >= 1
    ensures Confirmed(checks + [reading], k, c) <==>
              Confirmed(checks, k, c) || Streak(checks + [reading], |checks| + 1 - k, k, c)
  {
    var more := checks + [reading];
    if i :| Streak(checks, i, k, c) {
      assert Streak(more, i, k, c);
    }
    if i :| Streak(more, i, k, c) {
      if i + k <= |checks| {
        forall j | i <= j < i + k
          ensures checks[j] == Qualified(c)
        {
          assert more[j] == checks[j];
        }
        assert Streak(checks, i, k, c);
      }
    }
  }

  lemma StreakGrows(checks: seq<Reading>, pending: Option<nat>, confirms: nat, c: nat, k: int)
    requires k >= 1 && IsCurrentStreak(checks, pending, confirms)
    ensures var now := if pending == Some(c) then confirms + 1 else 1;
            && IsCurrentStreak(checks + [Qualified(c)], Some(c), now)
            && (Streak(checks + [Qualified(c)], |checks| + 1 - k, k, c) <==> now >= k)
  {
    var now := if pending == Some(c) then confirms + 1 else 1;
    var more := checks + [Qualified(c)];
    forall j | |more| - now <= j < |more|
      ensures more[j] == Qualified(c)
    {
      assert j < |checks| ==> more[j] == checks[j];
    }
    assert now < |more| ==> more[|more| - now - 1] != Qualified(c);
    assert now < k && |more| - k >= 0 ==> |more| - k <= |more| - now - 1;
  }

  lemma StepKeepsOffline(cfg: StopConfig, checks: seq<Reading>, st: StopState, reading: Reading)
    requires cfg.stopConfirmations >= 1 && reading != Nothing
    requires IsCurrentStreak(checks, st.pending, st.confirms)
        && IsLeastConfirmed(checks, cfg.stopConfirmations, st.stop)
    ensures var st' := Step(cfg, st, reading);
            && IsCurrentStreak(checks + [reading], st'.pending, st'.confirms)
            && IsLeastConfirmed(checks + [reading], cfg.stopConfirmations, st'.stop)
  {
    var k := cfg.stopConfirmations;
    var more := checks + [reading];
    assert more[|more| - 1] == reading;
    forall c: nat
      ensures Confirmed(more, k, c) <==> Confirmed(checks, k, c) || Streak(more, |checks| + 1 - k, k, c)
      ensures Streak(more, |checks| + 1 - k, k, c) ==> reading == Qualified(c)
    {
      ConfirmedGrows(checks, reading, k, c);
      if Streak(more, |checks| + 1 - k, k, c) {
        assert more[|checks|] == Qualified(c);
      }
    }
    if reading.Qualified? {
      StreakGrows(checks, st.pending, st.confirms, reading.candidate, k);
    }
  }

  /** After any checks at all, the boundary is the least candidate that some `stopConfirmations`
      consecutive non-empty checks agreed on, and there is none exactly when there is no such candidate. */
  lemma {:induction false} DetectorIsOffline(cfg: StopConfig, readings: seq<Reading>)
    requires cfg.stopConfirmations >= 1
    ensures IsLeastConfirmed(NonEmpty(readings), cfg.stopConfirmations, Run(cfg, readings).stop)
    ensures IsCurrentStreak(NonEmpty(readings), Run(cfg, readings).pending, Run(cfg, readings).confirms)
  {
    if readings != [] {
      var before, last := readings[..|readings| - 1], readings[|readings| - 1];
      DetectorIsOffline(cfg, before);
      if last == Nothing {
        assert NonEmpty(readings) == NonEmpty(before);
      } else {
        StepKeepsOffline(cfg, NonEmpty(before), Run(cfg, before), last);
      }
    } else {
      forall c: nat
        ensures !Confirmed([], cfg.stopConfirmations, c)
      {
      }
    }
  }

  /** Once set, the boundary stays set and never moves up. */
  lemma {:induction false} StopNeverRises(cfg: StopConfig, earlier: seq<Reading>, later: seq<Reading>)
    requires earlier <= later && Run(cfg, earlier).stop.Some?
    ensures Run(cfg, later).stop.Some? && Run(cfg, later).stop.value <= Run(cfg, earlier).stop.value
    decreases |later|
  {
    if |later| > |earlier| {
      StopNeverRises(cfg, earlier, later[..|later| - 1]);
    } else {
      assert later == earlier;
    }
  }
}
