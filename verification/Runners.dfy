/** The runners of all participants together: when nobody was missing from any sync, what they return is what the
    participants of the swarm return, whatever else the network did with their messages. */
module Runners {
  import opened Prelude
  import opened Consensus
  import opened NodeMachine
  import opened Protocol
  import opened Inbox
  import opened Exchange
  import opened Grounding
  import opened LocalStep
  import opened NodeRuns
  import opened SwarmSystem
  import Verdicts
  import opened Usability
  import Agreement = SwarmAgreement
  import Facts = NodeFacts
  import Freeze = FreezeFacts
  import Invariant = NodeInvariant
  import Runner = Generation

  /** What RunRound leaves behind: the last state of the run it followed, what its inbox was told, what it said. */
  datatype Part = Part(node: Node, heard: seq<Event>, sent: seq<Envelope>)

  ghost predicate TookPart(su: Setup, i: NodeId, part: Part)
    requires su.Valid()
  {
    && NodeOk(su, i, part.node) && OwnReported(su, part.node) && Runner.Speaks(su, part.node, part.sent)
    && Grounded(su.cfg, su.roundId, su.members - {i}, su.prompt, part.node, part.heard)
  }

  /** The contract of RunRound, read as a part of this kind. */
  lemma RunnerTookPart(t: Runner.Trail, id: NodeId, model: (nat, seq<nat>) -> Forward, events: seq<Event>,
                       before: seq<Envelope>, after: seq<Envelope>, closing: seq<Envelope>)
    requires Runner.Followed(t, id, model, events) && Runner.PublishedSince(t, before, after, closing)
    ensures TookPart(t.su, id, Part(t.Now(), events, after[|before|..|after| - |closing|]))
  {
    hide NodeOk, Runner.Speaks, Grounded, OwnReported, Modelled, IsNodeRun;
  }

  /** And every sync of it scored its disputes with the distribution of the model's pass on the sequence of the
      step that closed its window. */
  lemma RunnerScores(t: Runner.Trail, id: NodeId, model: (nat, seq<nat>) -> Forward, events: seq<Event>, n: nat)
    returns (k: nat)
    requires Runner.Followed(t, id, model, events) && n < t.Now().SyncSeq()
    ensures ClosedBy(t.su.cfg, model, t.path, t.Now().log[n], k)
  {
    hide NodeOk, Grounded, OwnReported, Modelled, IsNodeRun, ClosedBy;
    k := SyncScoredBy(t.su.cfg, model, id, t.su.prompt, t.path, |t.path| - 1, n);
  }

  predicate OfMember(su: Setup, e: Event) {
    e.Filed? && e.env.nodeId in su.members && OfRound(su.roundId, e.env.body)
  }

  /** The network makes nothing up: what is heard of the round from a participant, that participant has said. */
  ghost predicate Carried(su: Setup, parts: map<NodeId, Part>)
    requires parts.Keys == su.members
  {
    forall i, e :: i in parts && e in parts[i].heard && OfMember(su, e) ==> e.env in parts[e.env.nodeId].sent
  }

  /** Every sync had the commits of everybody, and if they were disputed the reports of everybody. */
  ghost predicate NobodyMissing(su: Setup, st: Node) {
    forall n :: 0 <= n < |st.log| ==>
      && st.log[n].view.Keys == su.members
      && (Disputes(st.log[n].view) != map[] ==> st.log[n].scores.Keys == su.members)
  }

  ghost predicate Joint(su: Setup, parts: map<NodeId, Part>) {
    && su.Valid() && parts.Keys == su.members && Carried(su, parts)
    && forall i :: i in parts ==> TookPart(su, i, parts[i]) && NobodyMissing(su, parts[i].node)
  }

  function Together(parts: map<NodeId, Part>): Swarm {
    Swarm(map i | i in parts :: Participant(parts[i].node, map[]), {})
  }

  lemma CollectedWasSaid(su: Setup, parts: map<NodeId, Part>, i: NodeId, key: Key, got: Bucket, j: NodeId)
    requires su.Valid() && parts.Keys == su.members && Carried(su, parts) && i in parts && j in parts && j != i
    requires key.roundId == su.roundId && Runner.Speaks(su, parts[j].node, parts[j].sent)
    requires Collects([], parts[i].heard, key, su.members - {i}, got) && j in got
    ensures KeyOf(got[j]) == Some(key) && Genuine(su, parts[j].node, got[j])
  {
    hide Collects, Genuine, KeyOf;
    CollectedTyped([], parts[i].heard, key, su.members - {i}, got);
    CollectedWasFiled([], parts[i].heard, key, su.members - {i}, got, j);
    var e :| e in parts[i].heard && e.Filed? && e.env == Envelope(j, got[j]);
    assert OfMember(su, e);
  }

  lemma CommitSaid(su: Setup, parts: map<NodeId, Part>, i: NodeId, n: nat, got: Bucket, j: NodeId)
    requires Joint(su, parts) && i in parts && j in parts && n < |parts[i].node.log|
    requires CommitsCollected(su.roundId, i, su.members - {i}, n, parts[i].node.log[n], parts[i].heard, got)
    ensures HasCommit(parts[j].node, n) && parts[i].node.log[n].view[j] == CommitOf(parts[j].node, n)
  {
    hide Collects, Invariant.Inv, Chained, IsFlattening, Unflattened, Carried, Grounded, Genuine;
    assert TookPart(su, i, parts[i]) && TookPart(su, j, parts[j]) && NobodyMissing(su, parts[i].node);
    if j != i {
      CollectedWasSaid(su, parts, i, Key(CommitKind, su.roundId, n), got, j);
      CommitHeard(su, parts[j].node, got[j], n);
    }
  }

  lemma CommitHeard(su: Setup, st: Node, body: Body, n: nat)
    requires Genuine(su, st, body) && KeyOf(body) == Some(Key(CommitKind, su.roundId, n))
    ensures body.Commit? && HasCommit(st, n)
    ensures Unflattened(body.positions, body.tokens, body.confidences) == CommitOf(st, n)
  {
    hide IsFlattening, Unflattened;
    CommitRoundTrip(CommitOf(st, n), body.positions, body.tokens, body.confidences);
  }

  lemma ScoreSaid(su: Setup, parts: map<NodeId, Part>, i: NodeId, n: nat, reports: Bucket, j: NodeId)
    requires Joint(su, parts) && i in parts && j in parts && n < |parts[i].node.log|
    requires Disputes(parts[i].node.log[n].view) != map[]
    requires ReportsCollected(su.roundId, i, su.members - {i}, n, parts[i].node.log[n], parts[i].heard, reports)
    ensures HasScore(parts[j].node, n) && parts[i].node.log[n].scores[j] == ReportOf(su, parts[j].node, n)
  {
    hide Collects, Invariant.Inv, Chained, EncodeScores, DecodesScores, Carried, Grounded, Genuine, Disputes, OwnReport;
    assert TookPart(su, i, parts[i]) && TookPart(su, j, parts[j]) && NobodyMissing(su, parts[i].node);
    if j != i {
      CollectedWasSaid(su, parts, i, Key(ScoreKind, su.roundId, n), reports, j);
      ScoreHeard(su, parts[j].node, reports[j], n, parts[i].node.log[n].scores[j]);
    }
  }

  lemma ScoreHeard(su: Setup, st: Node, body: Body, n: nat, report: ScoreMap)
    requires Genuine(su, st, body) && KeyOf(body) == Some(Key(ScoreKind, su.roundId, n))
    requires body.DisputeScore? ==> DecodesScores(body.scores, report)
    ensures HasScore(st, n) && report == ReportOf(su, st, n)
  {
    hide EncodeScores, DecodesScores, Disputes, OwnReport;
    ScoresRoundTrip(ReportOf(su, st, n), report);
  }

  lemma RecordShared(su: Setup, parts: map<NodeId, Part>, i: NodeId, n: nat)
    requires Joint(su, parts) && i in parts && n < |parts[i].node.log|
    ensures RecordFrom(su, Together(parts), n, parts[i].node.log[n])
  {
    hide Collects, Carried, HasCommit, CommitOf, HasScore, ReportOf, Disputes, CommitsFrom, ReportsFrom, NodeOk,
         Scorable, Spelled, Runner.Speaks, Excused, OwnReported;
    var s, r := Together(parts), parts[i].node.log[n];
    assert TookPart(su, i, parts[i]) && NobodyMissing(su, parts[i].node);
    PartIds(su, parts, i);
    assert FromBuckets(su.roundId, i, su.members - {i}, n, r, parts[i].heard);
    var got :| CommitsCollected(su.roundId, i, su.members - {i}, n, r, parts[i].heard, got);
    forall j | j in su.members
      ensures HasCommit(s.Node(j), n) && r.view[j] == CommitOf(s.Node(j), n)
    {
      CommitSaid(su, parts, i, n, got, j);
    }
    if Disputes(r.view) != map[] {
      var reports :| ReportsCollected(su.roundId, i, su.members - {i}, n, r, parts[i].heard, reports);
      forall j | j in su.members
        ensures HasScore(s.Node(j), n) && r.scores[j] == ReportOf(su, s.Node(j), n)
      {
        ScoreSaid(su, parts, i, n, reports, j);
      }
    }
  }

  lemma PartIds(su: Setup, parts: map<NodeId, Part>, i: NodeId)
    requires Joint(su, parts) && i in parts
    ensures parts[i].node.id == i
  {
    assert TookPart(su, i, parts[i]);
  }

  /** Put together they are a coherent swarm. */
  lemma RunnersCohere(su: Setup, parts: map<NodeId, Part>)
    requires Joint(su, parts)
    ensures Coherent(su, Together(parts))
  {
    hide Carried, NodeOk, RecordFrom, FromBuckets, Scorable, Spelled, Runner.Speaks, NobodyMissing;
    var s := Together(parts);
    forall i | i in su.members
      ensures NodeOk(su, i, s.Node(i)) && Witnessed(su, s, s.Node(i))
    {
      TheirPart(su, parts, i);
      forall n | 0 <= n < |s.Node(i).log|
        ensures RecordFrom(su, s, n, s.Node(i).log[n])
      {
        RecordShared(su, parts, i, n);
      }
    }
  }

  lemma TheirPart(su: Setup, parts: map<NodeId, Part>, i: NodeId)
    requires Joint(su, parts) && i in parts
    ensures TookPart(su, i, parts[i]) && parts.Keys == su.members
  {
  }

  /** Runners that missed nobody in any sync agree: on every sync both have finished, and on what they return.
      And what they return misses nothing below the boundary and, unless a freeze left a mask of its block behind,
      keeps the prompt and all text behind. */
  lemma RunnersAgree(su: Setup, parts: map<NodeId, Part>, i: NodeId, j: NodeId, n: nat)
    requires Joint(su, parts) && i in parts && j in parts
    ensures var a, b := parts[i].node, parts[j].node;
            && (n < a.SyncSeq() && n < b.SyncSeq() ==> Agreement.SameRecord(a.log[n], b.log[n]))
            && a.SyncSeq() <= b.SyncSeq() + 1
            && (a.phase.Done? && b.phase.Done? ==>
                  && a.shared == b.shared && a.det.stop == b.det.stop
                  && (forall p: nat :: p < su.cfg.BlockStart(su.cfg.numBlocks) && Facts.BelowStop(a, p) ==>
                        p in a.shared)
                  && (Freeze.Harmless(su.cfg, a.log) ==> Agreement.KeepsText(su, a)))
  {
    hide Carried, Coherent, TookPart, NobodyMissing, Facts.BelowStop, Config.BlockStart, Freeze.Harmless,
         Agreement.KeepsText;
    RunnersCohere(su, parts);
    var s := Together(parts);
    assert s.Node(i) == parts[i].node && s.Node(j) == parts[j].node;
    Agreement.Skew(su, s, i, j);
    if n < s.Node(i).SyncSeq() && n < s.Node(j).SyncSeq() {
      Agreement.SameHistory(su, s, i, j, n);
    }
    if s.Node(i).phase.Done? && s.Node(j).phase.Done? {
      Agreement.SameResult(su, s, i, j);
    }
  }

  /** Every dispute they settle goes to a proposed token to which their models' distributions of that sync together
      give the most probability, and to the lowest id among those. */
  lemma RunnersDecide(su: Setup, parts: map<NodeId, Part>, i: NodeId, n: nat, pos: nat)
    requires Joint(su, parts) && i in parts && n < parts[i].node.SyncSeq()
    requires forall q :: q > 0.0 ==> su.cfg.exp(su.log(q)) == q
    requires pos in Disputes(parts[i].node.log[n].view)
    ensures var r := parts[i].node.log[n];
            var dist := map j | j in parts :: Verdicts.DistOf(parts[j].node, n);
            && pos in r.agreed.shared && r.agreed.shared[pos] in Disputes(r.view)[pos]
            && forall t :: t in Disputes(r.view)[pos] ==>
                 && Verdicts.Support(dist, pos, t) <= Verdicts.Support(dist, pos, r.agreed.shared[pos])
                 && (Verdicts.Support(dist, pos, t) == Verdicts.Support(dist, pos, r.agreed.shared[pos]) ==>
                       r.agreed.shared[pos] <= t)
  {
    hide Carried, Coherent, NobodyMissing, Disputes, Verdicts.Support, NodeOk, Runner.Speaks, Grounded, OwnReported;
    RunnersCohere(su, parts);
    var s := Together(parts);
    assert s.parts.Keys == su.members;
    forall j | j in su.members
      ensures OwnReported(su, s.Node(j))
    {
      TheirPart(su, parts, j);
    }
    assert s.Node(i) == parts[i].node;
    SameDists(su, parts, n);
    Verdicts.VerdictOf(su, s, i, n, pos);
  }

  lemma SameDists(su: Setup, parts: map<NodeId, Part>, n: nat)
    requires Joint(su, parts)
    ensures Together(parts).parts.Keys == su.members
    ensures Verdicts.Dists(su, Together(parts), n) == map j | j in parts :: Verdicts.DistOf(parts[j].node, n)
  {
    hide Carried, TookPart, NobodyMissing;
  }

  /** And among runners nobody is made to raise: if what is heard of the round from each of the others can be
      found among usable messages of its own, as RunRound makes them, there is nothing to blame. */
  lemma NothingToBlame(cfg: Config, roundId: string, others: set<NodeId>, prompt: seq<nat>, events: seq<Event>,
                       said: map<NodeId, seq<Envelope>>)
    requires others <= said.Keys && forall j :: j in said ==> AllUsable(cfg, said[j])
    requires forall e :: e in events && e.Filed? && e.env.nodeId in others && OfRound(roundId, e.env.body) ==>
               e.env in said[e.env.nodeId]
    requires forall p :: 0 <= p < |prompt| ==> prompt[p] < cfg.vocab
    ensures !Excused(cfg, roundId, others, prompt, events)
  {
    hide Usable, OfRound;
    forall e | e in events && e.Filed? && e.env.nodeId in others && OfRound(roundId, e.env.body)
      ensures Usable(cfg, e.env.body)
    {
      assert AllUsable(cfg, said[e.env.nodeId]);
    }
  }
}
