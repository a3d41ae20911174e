/** Who wins a disputed position: in every sync of every run, the proposed token to which the participants' own
    models together give the most probability, and the lowest id among those. */
module Verdicts {
  import opened Consensus
  import opened NodeMachine
  import opened Protocol
  import opened Exchange
  import opened SwarmSystem
  import Agreement = SwarmAgreement
  import Safety = SwarmSafety

  /** The sum over these nodes of their own probabilities, each kept from vanishing. */
  ghost function Support(dist: map<NodeId, (nat, nat) -> real>, pos: nat, t: nat): real {
    SumOver(dist.Keys, n => if n !in dist then 0.0 else
                              var q := dist[n](pos, t); if q < 0.000000000001 then 0.000000000001 else q)
  }

  lemma TotalIsSupport(dist: map<NodeId, (nat, nat) -> real>, scores: Scores, log: real -> real, exp: real -> real,
                       pos: nat, t: nat)
    requires forall q :: q > 0.0 ==> exp(log(q)) == q
    requires scores.Keys == dist.Keys
    requires forall j :: j in dist ==>
               pos in scores[j] && t in scores[j][pos] && scores[j][pos][t] == LogProb(log, dist[j](pos, t))
    ensures Total(scores, exp, pos, t) == Support(dist, pos, t)
  {
    var prob := ProbOf(dist);
    TotalIsProbability(scores, exp, log, prob, pos, t);
    ClampedIsSupport(dist, pos, t);
  }

  function ProbOf(dist: map<NodeId, (nat, nat) -> real>): (NodeId, nat, nat) -> real {
    (n: NodeId, q: nat, u: nat) => if n in dist then dist[n](q, u) else 0.0
  }

  lemma ClampedIsSupport(dist: map<NodeId, (nat, nat) -> real>, pos: nat, t: nat)
    ensures var prob := ProbOf(dist); SumOver(dist.Keys, n => Clamp(prob(n, pos, t))) == Support(dist, pos, t)
  {
    var prob := ProbOf(dist);
    var f := n => Clamp(prob(n, pos, t));
    var g := n => if n !in dist then 0.0 else
                    var q := dist[n](pos, t); if q < 0.000000000001 then 0.000000000001 else q;
    forall n | n in dist.Keys
      ensures f(n) == g(n)
    {
      assert prob(n, pos, t) == dist[n](pos, t);
    }
    SumMonotone(dist.Keys, f, g);
  }

  lemma AllAsked(view: Commits, dist: map<NodeId, (nat, nat) -> real>, scores: Scores, log: real -> real, pos: nat)
    requires scores.Keys == dist.Keys && dist.Keys != {}
    requires forall j :: j in dist ==> scores[j] == OwnReport(log, dist[j], Disputes(view))
    requires pos in Disputes(view)
    ensures ScoredTokens(scores, pos) == Disputes(view)[pos] && pos in ScoredPositions(scores)
  {
    hide Disputes;
    forall j | j in scores
      ensures pos in scores[j] && scores[j][pos].Keys == Disputes(view)[pos]
    {
      OwnReportScores(log, dist[j], Disputes(view));
    }
    assert exists j :: j in scores && pos in scores[j] by {
      var j :| j in dist.Keys;
      assert j in scores;
    }
    forall t: nat
      ensures t in ScoredTokens(scores, pos) <==> t in Disputes(view)[pos]
    {
      if t in Disputes(view)[pos] {
        var j :| j in scores && pos in scores[j];
        assert t in scores[j][pos].Keys;
      }
      if t in ScoredTokens(scores, pos) {
        var j :| j in scores && pos in scores[j] && t in scores[j][pos];
        assert t in scores[j][pos].Keys;
      }
    }
  }

  lemma ReportedAt(view: Commits, dist: map<NodeId, (nat, nat) -> real>, scores: Scores, log: real -> real, pos: nat,
                   t: nat)
    requires scores.Keys == dist.Keys
    requires forall j :: j in dist ==> scores[j] == OwnReport(log, dist[j], Disputes(view))
    requires pos in Disputes(view) && t in Disputes(view)[pos]
    ensures forall j :: j in dist ==>
              pos in scores[j] && t in scores[j][pos] && scores[j][pos][t] == LogProb(log, dist[j](pos, t))
  {
    hide Disputes;
    forall j | j in dist
      ensures pos in scores[j] && t in scores[j][pos] && scores[j][pos][t] == LogProb(log, dist[j](pos, t))
    {
      OwnReportScores(log, dist[j], Disputes(view));
      assert t in scores[j][pos].Keys;
    }
  }

  lemma WinnerWritten(shared: map<nat, nat>, view: Commits, scores: Scores, exp: real -> real, pos: nat)
    requires pos in Disputes(view) && pos in ScoredPositions(scores) && ScoredTokens(scores, pos) == Disputes(view)[pos]
    ensures pos in Winners(scores, exp) && pos in SyncShared(shared, view, scores, exp)
    ensures SyncShared(shared, view, scores, exp)[pos] == Winners(scores, exp)[pos]
  {
    DisputeNonEmpty(view, pos);
    TotalsKeys(scores, exp, pos);
    assert pos in ProposedPositions(view) && Disputes(view) != map[];
    hide Disputes, ScoredTokens, ScoredPositions, ProposedPositions, ProposedAt, TotalsAt;
  }

  /** One sync with the reports that the nodes themselves make. */
  lemma SyncDecides(shared: map<nat, nat>, view: Commits, dist: map<NodeId, (nat, nat) -> real>, scores: Scores,
                    log: real -> real, exp: real -> real, pos: nat)
    requires forall q :: q > 0.0 ==> exp(log(q)) == q
    requires scores.Keys == dist.Keys && dist.Keys != {}
    requires forall j :: j in dist ==> scores[j] == OwnReport(log, dist[j], Disputes(view))
    requires pos in Disputes(view)
    ensures var r := SyncShared(shared, view, scores, exp);
            && pos in r && r[pos] in Disputes(view)[pos]
            && forall t :: t in Disputes(view)[pos] ==>
                 && Support(dist, pos, t) <= Support(dist, pos, r[pos])
                 && (Support(dist, pos, t) == Support(dist, pos, r[pos]) ==> r[pos] <= t)
  {
    hide Disputes, ScoredTokens, ScoredPositions, Total, Support, Winners, SyncShared;
    AllAsked(view, dist, scores, log, pos);
    WinnerWritten(shared, view, scores, exp, pos);
    WinnerLaw(scores, exp, pos);
    var w := Winners(scores, exp)[pos];
    forall t | t in Disputes(view)[pos]
      ensures Total(scores, exp, pos, t) == Support(dist, pos, t)
    {
      ReportedAt(view, dist, scores, log, pos, t);
      TotalIsSupport(dist, scores, log, exp, pos, t);
    }
  }

  // ---------------------------------------------------------------- in the swarm

  ghost predicate AllReported(su: Setup, s: Swarm)
    requires s.parts.Keys == su.members
  {
    forall i :: i in su.members ==> OwnReported(su, s.Node(i))
  }

  lemma SameReported(su: Setup, st: Node, st': Node)
    requires OwnReported(su, st) && st'.log == st.log && st'.id == st.id
    ensures OwnReported(su, st')
  {
    hide Disputes, OwnReport;
  }

  lemma SyncReported(su: Setup, st: Node, view: Commits, scores: Scores)
    requires su.Valid() && OwnReported(su, st)
    requires Disputes(view) != map[] ==> st.id in scores && scores[st.id] == OwnReport(su.log, st.p, Disputes(view))
    ensures OwnReported(su, Synced(su.cfg, st, view, scores))
  {
    hide Disputes, OwnReport, Synced, Outcome;
    SyncedRecord(su.cfg, st, view, scores);
  }

  lemma StepKeepsReported(su: Setup, s: Swarm, a: Action, s': Swarm)
    requires su.Valid() && s.parts.Keys == s'.parts.Keys == su.members && AllReported(su, s) && Step(su, s, a, s')
    ensures AllReported(su, s')
  {
    hide LocalWork, Synced, ReadsCommits, IsFlattening, Disputes, OwnReport, OwnReported, DecodesScores;
    var st, st' := s.Node(a.i), s'.Node(a.i);
    assert OwnReported(su, st') by {
      match a {
        case Work(i, fwd, transfer, remask) =>
          Safety.WorkSays(su, st, fwd, transfer, remask, st');
          SameReported(su, st, st');
        case Publish(_, _, _, _) => SameReported(su, st, st');
        case Deliver(_, _) => SameReported(su, st, st');
        case CommitBarrier(i, view) =>
          if Disputes(view) == map[] {
            SyncReported(su, st, view, map[]);
          } else {
            SameReported(su, st, st');
          }
        case ScoreBarrier(i, scores) => SyncReported(su, st, st.phase.view, scores);
      }
    }
  }

  lemma {:induction false} RunReported(su: Setup, trace: seq<Swarm>, actions: seq<Action>, k: nat)
    requires su.Valid() && IsRun(su, trace, actions) && k < |trace|
    ensures Coherent(su, trace[k]) && trace[k].parts.Keys == su.members && AllReported(su, trace[k])
  {
    hide Step, Coherent;
    Agreement.RunCoheres(su, trace, actions, k);
    if k > 0 {
      RunReported(su, trace, actions, k - 1);
      assert Step(su, trace[k - 1], actions[k - 1], trace[k - 1 + 1]);
      StepKeepsReported(su, trace[k - 1], actions[k - 1], trace[k]);
    }
  }

  /** The distribution a node scores the disputes of sync n with. */
  function DistOf(st: Node, n: nat): (nat, nat) -> real {
    if n < |st.log| then st.log[n].p else st.p
  }

  function Dists(su: Setup, s: Swarm, n: nat): map<NodeId, (nat, nat) -> real>
    requires s.parts.Keys == su.members
  {
    map j | j in s.parts :: DistOf(s.parts[j].node, n)
  }

  lemma ReportedOf(su: Setup, s: Swarm, i: NodeId, n: nat, j: NodeId)
    requires su.Valid() && Coherent(su, s) && AllReported(su, s) && i in su.members && j in su.members
    requires n < s.Node(i).SyncSeq() && Disputes(s.Node(i).log[n].view) != map[]
    ensures var r := s.Node(i).log[n];
            j in r.scores && r.scores[j] == OwnReport(su.log, DistOf(s.Node(j), n), Disputes(r.view))
  {
    hide NodeOk, Disputes, OwnReport, ViewFrom;
    var r, b := s.Node(i).log[n], s.Node(j);
    Agreement.NodeIds(su, s, j);
    assert Witnessed(su, s, s.Node(i)) && RecordFrom(su, s, n, r);
    assert Witnessed(su, s, b) && OwnReported(su, b);
    if n < b.SyncSeq() {
      assert RecordFrom(su, s, n, b.log[n]);
      Agreement.ViewUnique(su, s, n, r.view, b.log[n].view);
    } else {
      Agreement.ViewUnique(su, s, n, r.view, b.phase.view);
    }
  }

  lemma VerdictOf(su: Setup, s: Swarm, i: NodeId, n: nat, pos: nat)
    requires su.Valid() && Coherent(su, s) && AllReported(su, s) && i in su.members && n < s.Node(i).SyncSeq()
    requires forall q :: q > 0.0 ==> su.cfg.exp(su.log(q)) == q
    requires pos in Disputes(s.Node(i).log[n].view)
    ensures var r, dist := s.Node(i).log[n], Dists(su, s, n);
            && pos in r.agreed.shared && r.agreed.shared[pos] in Disputes(r.view)[pos]
            && forall t :: t in Disputes(r.view)[pos] ==>
                 && Support(dist, pos, t) <= Support(dist, pos, r.agreed.shared[pos])
                 && (Support(dist, pos, t) == Support(dist, pos, r.agreed.shared[pos]) ==> r.agreed.shared[pos] <= t)
  {
    hide NodeOk, Disputes, OwnReport, Support, SyncShared, ViewFrom, HasScore, ReportOf, AllReported;
    var r, dist := s.Node(i).log[n], Dists(su, s, n);
    assert Disputes(r.view) != map[];
    assert Witnessed(su, s, s.Node(i)) && RecordFrom(su, s, n, r);
    assert r.scores.Keys == dist.Keys && i in dist;
    forall j | j in dist
      ensures r.scores[j] == OwnReport(su.log, dist[j], Disputes(r.view))
    {
      ReportedOf(su, s, i, n, j);
    }
    var before := Agreement.OutcomeOf(su, s, i, n);
    SyncDecides(before, r.view, dist, r.scores, su.log, su.cfg.exp, pos);
  }

  /** In every state of every run, whatever the models predicted: of every dispute of every finished sync the winner
      is a proposed token with the most support of all participants' own distributions of that sync. */
  lemma RunDecides(su: Setup, trace: seq<Swarm>, actions: seq<Action>, k: nat, i: NodeId, n: nat, pos: nat)
    requires su.Valid() && IsRun(su, trace, actions) && k < |trace| && i in su.members
    requires forall q :: q > 0.0 ==> su.cfg.exp(su.log(q)) == q
    ensures trace[k].parts.Keys == su.members
    ensures n < trace[k].Node(i).SyncSeq() && pos in Disputes(trace[k].Node(i).log[n].view) ==>
              var r, dist := trace[k].Node(i).log[n], Dists(su, trace[k], n);
              && pos in r.agreed.shared && r.agreed.shared[pos] in Disputes(r.view)[pos]
              && forall t :: t in Disputes(r.view)[pos] ==>
                   && Support(dist, pos, t) <= Support(dist, pos, r.agreed.shared[pos])
                   && (Support(dist, pos, t) == Support(dist, pos, r.agreed.shared[pos]) ==> r.agreed.shared[pos] <= t)
  {
    hide Coherent, IsRun, AllReported, Disputes, Support;
    RunReported(su, trace, actions, k);
    if n < trace[k].Node(i).SyncSeq() && pos in Disputes(trace[k].Node(i).log[n].view) {
      VerdictOf(su, trace[k], i, n, pos);
    }
  }
}
