/** Nobody is made to raise by what a participant says: all it publishes can be read, scored and resolved by the
    others, in every state of every run of the swarm and whatever the node itself has heard. */
module Usability {
  import opened Consensus
  import opened NodeMachine
  import opened Protocol
  import opened Exchange
  import opened Grounding
  import opened SwarmSystem
  import Facts = NodeFacts
  import Invariant = NodeInvariant
  import Agreement = SwarmAgreement
  import Safety = SwarmSafety

  ghost predicate AllUsable(cfg: Config, sent: seq<Envelope>) {
    forall e :: e in sent ==> Usable(cfg, e.body)
  }

  lemma CommitUsable(cfg: Config, m: CommitMap, body: Body)
    requires body.Commit? && IsFlattening(m, body.positions, body.tokens, body.confidences) && Facts.InRange(cfg, m)
    ensures Usable(cfg, body)
  {
  }

  lemma EncodedInVocab(vocab: nat, report: ScoreMap)
    requires TokensIn(vocab, report)
    ensures TokensInVocab(vocab, EncodeScores(report))
  {
    EncodedScores(report);
    hide EncodeScores, EncodeTokens, ParseKey;
    forall k, t | k in EncodeScores(report) && t in EncodeScores(report)[k] && ParseKey(t).Some?
      ensures ParseKey(t).value < vocab
    {
      EncodedTokens(report[ParseKey(k).value]);
    }
  }

  lemma ReportUsable(cfg: Config, view: Commits, report: ScoreMap, body: Body)
    requires body.DisputeScore? && body.scores == EncodeScores(report) && ScoresFor(report, view)
    requires InDomain(Disputes(view), cfg.genEnd, cfg.vocab)
    ensures Usable(cfg, body)
  {
    ReportWellFormed(report, view);
    hide Disputes, EncodeScores, WellFormed, TokensInVocab;
    forall p, t | p in report && t in report[p]
      ensures t < cfg.vocab
    {
      assert t in report[p].Keys;
    }
    EncodedInVocab(cfg.vocab, report);
  }

  /** Whatever a node in order says can be used, whatever it has heard itself. */
  lemma GenuineUsable(su: Setup, st: Node, body: Body)
    requires su.Valid() && Facts.Ranged(su.cfg, st) && Scorable(su.cfg, st) && Genuine(su, st, body)
    requires st.phase.AwaitScores? ==> InDomain(Disputes(st.phase.view), su.cfg.genEnd, su.cfg.vocab)
    ensures Usable(su.cfg, body)
  {
    hide Disputes, EncodeScores, InDomain, ScoresFor, IsFlattening, Facts.InRange, Usable, OwnReport;
    match body {
      case Commit(_, n, _, _, _) =>
        CommitUsable(su.cfg, CommitOf(st, n), body);
      case DisputeScore(_, n, _) =>
        if n < st.SyncSeq() {
          ReportUsable(su.cfg, st.log[n].view, st.log[n].scores[st.id], body);
        } else {
          OwnReportFits(su.log, st.p, st.phase.view);
          ReportUsable(su.cfg, st.phase.view, ReportOf(su, st, n), body);
        }
    }
  }

  lemma InvRanged(cfg: Config, st: Node)
    requires cfg.Valid() && Invariant.Inv(cfg, st)
    ensures Facts.Ranged(cfg, st) && Facts.InRange(cfg, st.pending)
  {
  }

  // ---------------------------------------------------------------- in the swarm

  lemma CommitInRange(su: Setup, s: Swarm, j: NodeId, n: nat)
    requires su.Valid() && Coherent(su, s) && j in su.members && HasCommit(s.Node(j), n)
    ensures Facts.InRange(su.cfg, CommitOf(s.Node(j), n))
  {
    hide Invariant.Inv, Facts.InRange, Witnessed, Chained;
    assert NodeOk(su, j, s.Node(j));
    InvRanged(su.cfg, s.Node(j));
  }

  lemma SaidInRange(su: Setup, s: Swarm, n: nat, view: Commits)
    requires su.Valid() && Coherent(su, s) && ViewFrom(su, s, n, view)
    ensures ViewInRange(su.cfg, view) && InDomain(Disputes(view), su.cfg.genEnd, su.cfg.vocab)
  {
    hide Coherent, Facts.InRange, InDomain, CommitOf, HasCommit;
    forall j | j in view
      ensures Facts.InRange(su.cfg, view[j])
    {
      CommitInRange(su, s, j, n);
    }
    DisputesInDomain(su.cfg, view);
  }

  /** Every dispute any participant ever sees lies within its distribution, so scoring it never raises. */
  lemma DisputesScorable(su: Setup, s: Swarm, i: NodeId)
    requires su.Valid() && Coherent(su, s) && i in su.members
    ensures Scorable(su.cfg, s.Node(i))
    ensures s.Node(i).phase.AwaitScores? ==>
              InDomain(Disputes(s.Node(i).phase.view), su.cfg.genEnd, su.cfg.vocab)
  {
    hide NodeOk, ViewFrom, ScoresFrom, InDomain, Disputes;
    var st := s.Node(i);
    assert Witnessed(su, s, st);
    forall n | 0 <= n < |st.log|
      ensures InDomain(Disputes(st.log[n].view), su.cfg.genEnd, su.cfg.vocab)
    {
      assert RecordFrom(su, s, n, st.log[n]);
      SaidInRange(su, s, n, st.log[n].view);
    }
    if st.phase.AwaitScores? {
      SaidInRange(su, s, st.SyncSeq(), st.phase.view);
    }
  }

  /** Every message of the swarm can be used. */
  lemma SoupUsable(su: Setup, s: Swarm)
    requires su.Valid() && SwarmInv(su, s)
    ensures forall e :: e in s.soup ==> Usable(su.cfg, e.body)
  {
    hide Invariant.Inv, Chained, Witnessed, Genuine, Usable, Said, StoreOk, Scorable, InDomain, Facts.Ranged;
    forall e | e in s.soup
      ensures Usable(su.cfg, e.body)
    {
      var st := s.Node(e.nodeId);
      assert NodeOk(su, e.nodeId, st);
      DisputesScorable(su, s, e.nodeId);
      InvRanged(su.cfg, st);
      GenuineUsable(su, st, e.body);
    }
  }

  lemma ScoreInVocab(su: Setup, s: Swarm, j: NodeId, n: nat)
    requires su.Valid() && Coherent(su, s) && j in su.members && HasScore(s.Node(j), n)
    ensures TokensIn(su.cfg.vocab, ReportOf(su, s.Node(j), n))
  {
    hide Invariant.Inv, Facts.InRange, Chained, Disputes, ScoresFor, TokensIn, OwnReport, ViewFrom, ScoresFrom,
         ViewInRange, InDomain;
    var st := s.Node(j);
    assert NodeOk(su, j, st) && Witnessed(su, s, st);
    InvRanged(su.cfg, st);
    if n < st.SyncSeq() {
      assert RecordFrom(su, s, n, st.log[n]);
      SaidInRange(su, s, n, st.log[n].view);
      OwnTokensIn(su.cfg, st.log[n].view, st.log[n].scores[j]);
    } else {
      SaidInRange(su, s, n, st.phase.view);
      OwnReportFits(su.log, st.p, st.phase.view);
      OwnTokensIn(su.cfg, st.phase.view, ReportOf(su, st, n));
    }
  }

  lemma RecordInRange(su: Setup, s: Swarm, i: NodeId, n: nat)
    requires su.Valid() && Coherent(su, s) && i in su.members && n < s.Node(i).SyncSeq()
    ensures ViewInRange(su.cfg, s.Node(i).log[n].view) && ScoresInVocab(su.cfg.vocab, s.Node(i).log[n].scores)
  {
    hide NodeOk, ViewFrom, InDomain, Disputes, HasScore, ReportOf, ViewInRange, TokensIn;
    var r := s.Node(i).log[n];
    assert Witnessed(su, s, s.Node(i));
    assert RecordFrom(su, s, n, r);
    SaidInRange(su, s, n, r.view);
    forall j | j in r.scores
      ensures TokensIn(su.cfg.vocab, r.scores[j])
    {
      ScoreInVocab(su, s, j, n);
    }
  }

  ghost predicate AllSpelled(su: Setup, s: Swarm)
    requires s.parts.Keys == su.members
  {
    forall i :: i in su.members ==> Spelled(su.cfg, s.Node(i))
  }

  lemma SyncedSpelled(su: Setup, s: Swarm, s': Swarm, i: NodeId, view: Commits, scores: Scores)
    requires su.Valid() && i in su.members && i in s.parts && Spelled(su.cfg, s.Node(i)) && Coherent(su, s')
    requires s'.Node(i) == Synced(su.cfg, s.Node(i), view, scores)
    ensures Spelled(su.cfg, s'.Node(i))
  {
    hide Synced, Outcome, Coherent, Spelled, ViewInRange, ScoresInVocab;
    var n := s.Node(i).SyncSeq();
    SyncedRecord(su.cfg, s.Node(i), view, scores);
    RecordInRange(su, s', i, n);
    SyncKeepsSpelled(su.cfg, s.Node(i), view, scores);
  }

  lemma StepKeepsSpelled(su: Setup, s: Swarm, a: Action, s': Swarm)
    requires su.Valid() && Coherent(su, s) && AllSpelled(su, s) && Coherent(su, s') && Step(su, s, a, s')
    ensures AllSpelled(su, s')
  {
    hide LocalWork, Synced, ReadsCommits, ReadsScores, IsFlattening, Disputes, NodeOk, Witnessed;
    var st, st' := s.Node(a.i), s'.Node(a.i);
    assert Spelled(su.cfg, st') by {
      match a {
        case Work(i, fwd, transfer, remask) => WorkKeepsSpelled(su.cfg, st, fwd, transfer, remask, st');
        case Publish(_, _, _, _) =>
        case Deliver(_, _) =>
        case CommitBarrier(i, view) =>
          if Disputes(view) == map[] {
            SyncedSpelled(su, s, s', i, view, map[]);
          }
        case ScoreBarrier(i, scores) => SyncedSpelled(su, s, s', i, st.phase.view, scores);
      }
    }
  }

  lemma InitialSpelled(su: Setup, s: Swarm)
    requires su.Valid() && Initial(su, s)
    requires forall p :: 0 <= p < |su.prompt| ==> su.prompt[p] < su.cfg.vocab
    ensures AllSpelled(su, s)
  {
    hide Spelled, Start;
    forall i | i in su.members
      ensures Spelled(su.cfg, s.Node(i))
    {
      StartSpelled(su.cfg, i, su.prompt);
    }
  }

  lemma {:induction false} RunSpelled(su: Setup, trace: seq<Swarm>, actions: seq<Action>, k: nat)
    requires su.Valid() && IsRun(su, trace, actions) && k < |trace|
    requires forall p :: 0 <= p < |su.prompt| ==> su.prompt[p] < su.cfg.vocab
    ensures Coherent(su, trace[k]) && trace[k].parts.Keys == su.members && AllSpelled(su, trace[k])
  {
    hide Step, Initial, Coherent, AllSpelled;
    Agreement.RunCoheres(su, trace, actions, k);
    if k == 0 {
      InitialSpelled(su, trace[0]);
    } else {
      RunSpelled(su, trace, actions, k - 1);
      assert Step(su, trace[k - 1], actions[k - 1], trace[k - 1 + 1]);
      StepKeepsSpelled(su, trace[k - 1], actions[k - 1], trace[k]);
    }
  }

  /** In every state of every run over a prompt of the vocabulary nothing can raise: every published message is
      usable, every dispute seen can be scored, and every token held can be looked up. */
  lemma NobodyRaises(su: Setup, trace: seq<Swarm>, actions: seq<Action>, k: nat, i: NodeId)
    requires su.Valid() && IsRun(su, trace, actions) && k < |trace| && i in su.members
    requires forall p :: 0 <= p < |su.prompt| ==> su.prompt[p] < su.cfg.vocab
    ensures forall e :: e in trace[k].soup ==> Usable(su.cfg, e.body)
    ensures trace[k].parts.Keys == su.members
    ensures var st := trace[k].Node(i);
            && Spelled(su.cfg, st) && Scorable(su.cfg, st)
            && (st.phase.AwaitScores? ==> InDomain(Disputes(st.phase.view), su.cfg.genEnd, su.cfg.vocab))
  {
    hide IsRun, NodeOk, Witnessed, StoreOk, Said, SoupOk, Spelled, Usable, Scorable, InDomain, Coherent;
    RunSpelled(su, trace, actions, k);
    Safety.RunKeepsInv(su, trace, actions, k);
    SoupUsable(su, trace[k]);
    DisputesScorable(su, trace[k], i);
  }
}
