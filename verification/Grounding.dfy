/** What a node's round rests on: which messages are usable at all, that nothing else can bring a position or
    a token out of range into it, and that every sync is made of what the inbox collected. */
module Grounding {
  import opened Prelude
  import opened Consensus
  import opened LocalStep
  import opened NodeMachine
  import opened Protocol
  import opened Inbox
  import opened Exchange
  import Facts = NodeFacts
  import Stop = StopDetection

  // ---------------------------------------------------------------- usable messages

  ghost predicate TokensInVocab(vocab: nat, wire: map<string, map<string, real>>) {
    forall k, t :: k in wire && t in wire[k] && ParseKey(t).Some? ==> ParseKey(t).value < vocab
  }

  /** Commits of positions of the sequence and tokens of the vocabulary; reports with numeric keys, candidates at
      every position, and tokens of the vocabulary. */
  ghost predicate Usable(cfg: Config, body: Body) {
    match body
    case Commit(_, _, positions, tokens, confidences) =>
      forall i :: 0 <= i < Shortest(positions, tokens, confidences) ==>
        positions[i] < cfg.genEnd && tokens[i] < cfg.vocab
    case DisputeScore(_, _, scores) => WellFormed(scores) && TokensInVocab(cfg.vocab, scores)
    case _ => true
  }

  /** A report that raises when it is decoded or resolved. */
  predicate Malformed(body: Body) {
    body.DisputeScore? && !WellFormed(body.scores)
  }

  predicate OfRound(roundId: string, body: Body) {
    KeyOf(body).Some? && KeyOf(body).value.roundId == roundId
  }

  /** One of these nodes has sent this node a message of the round that no participant sends. */
  ghost predicate HeardUnusable(cfg: Config, roundId: string, others: set<NodeId>, events: seq<Event>) {
    exists e :: e in events && Rogue(cfg, roundId, others, e)
  }

  ghost predicate Rogue(cfg: Config, roundId: string, others: set<NodeId>, e: Event) {
    e.Filed? && e.env.nodeId in others && OfRound(roundId, e.env.body) && !Usable(cfg, e.env.body)
  }

  lemma HeardStays(cfg: Config, roundId: string, others: set<NodeId>, events: seq<Event>, later: seq<Event>)
    requires events <= later && HeardUnusable(cfg, roundId, others, events)
    ensures HeardUnusable(cfg, roundId, others, later)
  {
    hide Rogue;
    var e :| e in events && Rogue(cfg, roundId, others, e);
    assert e in later;
  }

  lemma CollectedUsable(cfg: Config, roundId: string, events: seq<Event>, key: Key, others: set<NodeId>, got: Bucket)
    requires Collects([], events, key, others, got) && key.roundId == roundId
    ensures forall j :: j in got ==>
              KeyOf(got[j]) == Some(key) && (!HeardUnusable(cfg, roundId, others, events) ==> Usable(cfg, got[j]))
  {
    hide Collects, Usable, KeyOf;
    CollectedTyped([], events, key, others, got);
    forall j | j in got
      ensures !HeardUnusable(cfg, roundId, others, events) ==> Usable(cfg, got[j])
    {
      CollectedWasFiled([], events, key, others, got, j);
      var e :| e in events && e.Filed? && e.env == Envelope(j, got[j]);
      assert !Usable(cfg, got[j]) ==> Rogue(cfg, roundId, others, e);
    }
  }

  // ---------------------------------------------------------------- nothing out of range

  ghost predicate ViewInRange(cfg: Config, view: Commits) {
    forall j :: j in view ==> Facts.InRange(cfg, view[j])
  }

  lemma {:induction false} ZipInRange(cfg: Config, positions: seq<nat>, tokens: seq<nat>, confidences: seq<real>,
                                      n: nat)
    requires n <= |positions| && n <= |tokens| && n <= |confidences|
    requires forall i :: 0 <= i < n ==> positions[i] < cfg.genEnd && tokens[i] < cfg.vocab
    ensures Facts.InRange(cfg, Zip(positions, tokens, confidences, n))
  {
    if n > 0 {
      ZipInRange(cfg, positions, tokens, confidences, n - 1);
    }
  }

  /** Usable commits make a view in range. */
  lemma UsableView(cfg: Config, id: NodeId, own: CommitMap, got: Bucket, view: Commits)
    requires CommitsFrom(id, own, got, view) && Facts.InRange(cfg, own) && forall j :: j in got ==> Usable(cfg, got[j])
    ensures ViewInRange(cfg, view)
  {
    hide Facts.InRange;
    forall j | j in view
      ensures Facts.InRange(cfg, view[j])
    {
      if j != id {
        ZipInRange(cfg, got[j].positions, got[j].tokens, got[j].confidences,
            Shortest(got[j].positions, got[j].tokens, got[j].confidences));
      }
    }
  }

  /** And then no lookup of a disputed token is out of range. */
  lemma DisputesInDomain(cfg: Config, view: Commits)
    requires ViewInRange(cfg, view)
    ensures InDomain(Disputes(view), cfg.genEnd, cfg.vocab)
  {
  }

  ghost predicate TokensIn(vocab: nat, report: ScoreMap) {
    forall p, t :: p in report && t in report[p] ==> t < vocab
  }

  lemma OwnTokensIn(cfg: Config, view: Commits, report: ScoreMap)
    requires ViewInRange(cfg, view) && ScoresFor(report, view)
    ensures TokensIn(cfg.vocab, report)
  {
    DisputesInDomain(cfg, view);
    hide Disputes, ViewInRange;
    forall p, t | p in report && t in report[p]
      ensures t < cfg.vocab
    {
      assert t in report[p].Keys;
    }
  }

  lemma DecodedTokensIn(vocab: nat, wire: map<string, map<string, real>>, report: ScoreMap)
    requires TokensInVocab(vocab, wire) && DecodesScores(wire, report)
    ensures TokensIn(vocab, report)
  {
    hide ParseKey;
    forall p, t | p in report && t in report[p]
      ensures t < vocab
    {
      var k :| k in wire && ParseKey(k) == Some(p) && DecodesTokens(wire[k], report[p]);
      var key :| key in wire[k] && ParseKey(key) == Some(t);
    }
  }

  ghost predicate ScoresInVocab(vocab: nat, scores: Scores) {
    forall n :: n in scores ==> TokensIn(vocab, scores[n])
  }

  lemma UsableScores(cfg: Config, id: NodeId, own: ScoreMap, reports: Bucket, scores: Scores)
    requires ReportsFrom(id, own, reports, scores) && TokensIn(cfg.vocab, own)
    requires forall j :: j in reports ==> Usable(cfg, reports[j])
    ensures ScoresInVocab(cfg.vocab, scores)
  {
    hide TokensIn, DecodesScores, WellFormed;
    forall j | j in scores
      ensures TokensIn(cfg.vocab, scores[j])
    {
      if j != id {
        DecodedTokensIn(cfg.vocab, reports[j].scores, scores[j]);
      }
    }
  }

  /** What is shared stays in the vocabulary. */
  lemma SharedInVocab(cfg: Config, shared: map<nat, nat>, view: Commits, scores: Scores)
    requires forall p :: p in shared ==> shared[p] < cfg.vocab
    requires ViewInRange(cfg, view) && ScoresInVocab(cfg.vocab, scores)
    ensures var r := SyncShared(shared, view, scores, cfg.exp); forall p :: p in r ==> r[p] < cfg.vocab
  {
    hide Disputes, Total, Merged;
    var r := SyncShared(shared, view, scores, cfg.exp);
    var resolved := Resolved(view, scores, cfg.exp);
    forall p | p in r
      ensures r[p] < cfg.vocab
    {
      if p in ProposedPositions(view) {
        if p in resolved {
          assert r[p] == Winner(TotalsAt(scores, cfg.exp, p));
          assert r[p] in ScoredTokens(scores, p);
        } else {
          assert r[p] in ProposedAt(view, p);
        }
      }
    }
  }

  // ---------------------------------------------------------------- the sequence in the vocabulary

  ghost predicate Spelled(cfg: Config, st: Node) {
    && (forall i :: 0 <= i < |st.x| ==> st.x[i] < cfg.vocab)
    && (forall p :: p in st.shared ==> st.shared[p] < cfg.vocab)
  }

  lemma StartSpelled(cfg: Config, id: NodeId, prompt: seq<nat>)
    requires cfg.Valid() && |prompt| == cfg.genStart && forall i :: 0 <= i < |prompt| ==> prompt[i] < cfg.vocab
    ensures Spelled(cfg, Start(cfg, id, prompt))
  {
    var st := Start(cfg, id, prompt);
    assert forall i: nat :: i < |st.x| ==> st.x[i] == OpeningToken(cfg, prompt, i);
  }

  lemma WorkKeepsSpelled(cfg: Config, st: Node, fwd: Forward, transfer: set<nat>, remask: set<nat>, st': Node)
    requires cfg.Valid() && Spelled(cfg, st) && LocalWork(cfg, st, fwd, transfer, remask, st')
    ensures Spelled(cfg, st')
  {
    hide StepInput.IsRemask, StepInput.IsTransfer, StepInput.Contained;
    var s := Input(cfg, st, fwd);
    assert forall i: nat :: i < |st.x| ==> st'.x[i] == s.NextToken(transfer, remask, i);
  }

  lemma SyncKeepsSpelled(cfg: Config, st: Node, view: Commits, scores: Scores)
    requires cfg.Valid() && Spelled(cfg, st) && ViewInRange(cfg, view) && ScoresInVocab(cfg.vocab, scores)
    ensures Spelled(cfg, Synced(cfg, st, view, scores))
  {
    SharedInVocab(cfg, st.shared, view, scores);
    hide SyncShared, ViewInRange, ScoresInVocab, Stop.Read, Stop.Step, Config.BlockStart, OverlaidAge;
    var st' := Synced(cfg, st, view, scores);
    assert forall i: nat :: i < |st.x| ==> st'.x[i] == Overlaid(cfg, st.block, st'.shared, st.x, i);
  }

  // ---------------------------------------------------------------- where a sync's data comes from

  ghost predicate CommitsCollected(roundId: string, id: NodeId, others: set<NodeId>, n: nat, r: SyncRecord,
                                   events: seq<Event>, got: Bucket) {
    && id in r.view && Collects([], events, Key(CommitKind, roundId, n), others, got)
    && CommitsFrom(id, r.view[id], got, r.view)
  }

  ghost predicate ReportsCollected(roundId: string, id: NodeId, others: set<NodeId>, n: nat, r: SyncRecord,
                                   events: seq<Event>, reports: Bucket) {
    && id in r.scores && Collects([], events, Key(ScoreKind, roundId, n), others, reports)
    && ReportsFrom(id, r.scores[id], reports, r.scores)
  }

  /** Sync n is made of the node's own commits and scores and of what the inbox collected for it. */
  ghost predicate FromBuckets(roundId: string, id: NodeId, others: set<NodeId>, n: nat, r: SyncRecord,
                              events: seq<Event>) {
    && (exists got :: CommitsCollected(roundId, id, others, n, r, events, got))
    && (if Disputes(r.view) == map[] then r.scores == map[]
        else exists reports :: ReportsCollected(roundId, id, others, n, r, events, reports))
  }

  lemma FromBucketsLater(roundId: string, id: NodeId, others: set<NodeId>, n: nat, r: SyncRecord, events: seq<Event>,
      later: seq<Event>)
    requires FromBuckets(roundId, id, others, n, r, events) && events <= later
    ensures FromBuckets(roundId, id, others, n, r, later)
  {
    hide Collects, CommitsFrom, ReportsFrom, Disputes;
    var got :| CommitsCollected(roundId, id, others, n, r, events, got);
    CollectsLater([], events, later, Key(CommitKind, roundId, n), others, got);
    assert CommitsCollected(roundId, id, others, n, r, later, got);
    if Disputes(r.view) != map[] {
      var reports :| ReportsCollected(roundId, id, others, n, r, events, reports);
      CollectsLater([], events, later, Key(ScoreKind, roundId, n), others, reports);
      assert ReportsCollected(roundId, id, others, n, r, later, reports);
    }
  }

  /** Every dispute the node scored lay within its distribution. */
  ghost predicate Scorable(cfg: Config, st: Node) {
    forall n :: 0 <= n < |st.log| ==> InDomain(Disputes(st.log[n].view), cfg.genEnd, cfg.vocab)
  }

  /** What a round can be blamed for when it raises: a message that no participant sends, or a prompt outside the
      vocabulary. */
  ghost predicate Excused(cfg: Config, roundId: string, others: set<NodeId>, prompt: seq<nat>, events: seq<Event>) {
    HeardUnusable(cfg, roundId, others, events) || exists i :: 0 <= i < |prompt| && prompt[i] >= cfg.vocab
  }

  /** The node is not waiting, every sync of its round came out of the inbox and could be scored, and as long as
      nothing can be blamed the sequence and the shared state hold tokens of the vocabulary only. */
  ghost predicate Grounded(cfg: Config, roundId: string, others: set<NodeId>, prompt: seq<nat>, st: Node,
                           events: seq<Event>) {
    && !st.phase.AwaitCommits? && !st.phase.AwaitScores?
    && (forall n :: 0 <= n < |st.log| ==> FromBuckets(roundId, st.id, others, n, st.log[n], events))
    && Scorable(cfg, st)
    && (!Excused(cfg, roundId, others, prompt, events) ==> Spelled(cfg, st))
  }

  lemma GroundedLater(cfg: Config, roundId: string, others: set<NodeId>, prompt: seq<nat>, st: Node,
                      events: seq<Event>, later: seq<Event>)
    requires Grounded(cfg, roundId, others, prompt, st, events) && events <= later
    ensures Grounded(cfg, roundId, others, prompt, st, later)
  {
    hide FromBuckets, Spelled, Scorable, HeardUnusable;
    forall n | 0 <= n < |st.log|
      ensures FromBuckets(roundId, st.id, others, n, st.log[n], later)
    {
      FromBucketsLater(roundId, st.id, others, n, st.log[n], events, later);
    }
    if HeardUnusable(cfg, roundId, others, events) {
      HeardStays(cfg, roundId, others, events, later);
    }
  }

  lemma GroundedStart(cfg: Config, roundId: string, others: set<NodeId>, id: NodeId, prompt: seq<nat>,
                      events: seq<Event>)
    requires cfg.Valid() && |prompt| == cfg.genStart
    ensures Grounded(cfg, roundId, others, prompt, Start(cfg, id, prompt), events)
  {
    hide FromBuckets, Spelled, HeardUnusable;
    if !Excused(cfg, roundId, others, prompt, events) {
      StartSpelled(cfg, id, prompt);
    }
  }

  lemma WorkKeepsGrounded(cfg: Config, roundId: string, others: set<NodeId>, prompt: seq<nat>, st: Node,
                          events: seq<Event>, fwd: Forward, transfer: set<nat>, remask: set<nat>, st': Node)
    requires cfg.Valid() && Grounded(cfg, roundId, others, prompt, st, events)
    requires LocalWork(cfg, st, fwd, transfer, remask, st')
    ensures Grounded(cfg, roundId, others, prompt, st', events)
  {
    hide FromBuckets, Spelled, Excused, StepInput.IsRemask, StepInput.IsTransfer, StepInput.Contained,
         StepInput.NextX, StepInput.NextAge, Disputes;
    if Spelled(cfg, st) {
      WorkKeepsSpelled(cfg, st, fwd, transfer, remask, st');
    }
  }

  /** The scores of a sync: none without a dispute, else the own ones and what the collected reports say. */
  ghost predicate Scored(roundId: string, id: NodeId, others: set<NodeId>, n: nat, view: Commits, own: ScoreMap,
                         reports: Bucket, scores: Scores, events: seq<Event>) {
    if Disputes(view) == map[] then scores == map[]
    else
      && ScoresFor(own, view) && ReportsFrom(id, own, reports, scores)
      && Collects([], events, Key(ScoreKind, roundId, n), others, reports)
  }

  lemma SyncedFromBuckets(roundId: string, others: set<NodeId>, st: Node, events: seq<Event>, got: Bucket,
                          own: ScoreMap, reports: Bucket, r: SyncRecord)
    requires Collects([], events, Key(CommitKind, roundId, st.SyncSeq()), others, got)
    requires CommitsFrom(st.id, st.pending, got, r.view)
    requires Scored(roundId, st.id, others, st.SyncSeq(), r.view, own, reports, r.scores, events)
    ensures FromBuckets(roundId, st.id, others, st.SyncSeq(), r, events)
  {
    hide Collects, Disputes, ScoresFor, DecodesScores;
    assert CommitsCollected(roundId, st.id, others, st.SyncSeq(), r, events, got);
    if Disputes(r.view) != map[] {
      assert ReportsCollected(roundId, st.id, others, st.SyncSeq(), r, events, reports);
    }
  }

  lemma UsableSync(cfg: Config, roundId: string, others: set<NodeId>, st: Node, events: seq<Event>, got: Bucket,
                   view: Commits, own: ScoreMap, reports: Bucket, scores: Scores)
    requires Facts.InRange(cfg, st.pending) && !HeardUnusable(cfg, roundId, others, events)
    requires Collects([], events, Key(CommitKind, roundId, st.SyncSeq()), others, got)
    requires CommitsFrom(st.id, st.pending, got, view)
    requires Scored(roundId, st.id, others, st.SyncSeq(), view, own, reports, scores, events)
    ensures ViewInRange(cfg, view) && ScoresInVocab(cfg.vocab, scores)
  {
    hide Collects, Disputes, ScoresFor, CommitsFrom, ReportsFrom, Usable, HeardUnusable, ViewInRange, TokensIn,
         Facts.InRange;
    CollectedUsable(cfg, roundId, events, Key(CommitKind, roundId, st.SyncSeq()), others, got);
    UsableView(cfg, st.id, st.pending, got, view);
    if Disputes(view) != map[] {
      CollectedUsable(cfg, roundId, events, Key(ScoreKind, roundId, st.SyncSeq()), others, reports);
      OwnTokensIn(cfg, view, own);
      UsableScores(cfg, st.id, own, reports, scores);
    }
  }

  lemma SyncedPhase(cfg: Config, st: Node, view: Commits, scores: Scores)
    requires cfg.Valid()
    ensures var st' := Synced(cfg, st, view, scores); st'.phase.Stepping? || st'.phase.Done?
  {
    hide Outcome, Overlaid, OverlaidAge;
  }

  lemma SyncKeepsGrounded(cfg: Config, roundId: string, others: set<NodeId>, prompt: seq<nat>, st: Node,
                          events: seq<Event>, got: Bucket, view: Commits, own: ScoreMap, reports: Bucket,
                          scores: Scores)
    requires cfg.Valid() && Facts.InRange(cfg, st.pending) && Grounded(cfg, roundId, others, prompt, st, events)
    requires Collects([], events, Key(CommitKind, roundId, st.SyncSeq()), others, got)
    requires CommitsFrom(st.id, st.pending, got, view) && InDomain(Disputes(view), cfg.genEnd, cfg.vocab)
    requires Scored(roundId, st.id, others, st.SyncSeq(), view, own, reports, scores, events)
    ensures Grounded(cfg, roundId, others, prompt, Synced(cfg, st, view, scores), events)
  {
    hide Collects, Disputes, CommitsFrom, Scored, FromBuckets, HeardUnusable, ViewInRange, ScoresInVocab, Synced,
         Outcome, Spelled, InDomain, Facts.InRange;
    var st' := Synced(cfg, st, view, scores);
    SyncedRecord(cfg, st, view, scores);
    SyncedPhase(cfg, st, view, scores);
    SyncedFromBuckets(roundId, others, st, events, got, own, reports, st'.log[|st.log|]);
    if !Excused(cfg, roundId, others, prompt, events) {
      UsableSync(cfg, roundId, others, st, events, got, view, own, reports, scores);
      SyncKeepsSpelled(cfg, st, view, scores);
    }
  }

  /** A disputed position or token that cannot be scored, or a report that cannot be decoded or resolved, came
      from a message that no participant sends. */
  lemma RaisedIsHeard(cfg: Config, roundId: string, id: NodeId, others: set<NodeId>, n: nat, events: seq<Event>,
                      own: CommitMap, got: Bucket, view: Commits, reports: Bucket)
    requires Facts.InRange(cfg, own) && CommitsFrom(id, own, got, view)
    requires Collects([], events, Key(CommitKind, roundId, n), others, got)
    requires InDomain(Disputes(view), cfg.genEnd, cfg.vocab) ==>
               && Collects([], events, Key(ScoreKind, roundId, n), others, reports)
               && exists j :: j in reports && Malformed(reports[j])
    ensures HeardUnusable(cfg, roundId, others, events)
  {
    hide Collects, Disputes, CommitsFrom, HeardUnusable, ViewInRange, InDomain, WellFormed, Facts.InRange;
    if InDomain(Disputes(view), cfg.genEnd, cfg.vocab) {
      CollectedUsable(cfg, roundId, events, Key(ScoreKind, roundId, n), others, reports);
    } else if !HeardUnusable(cfg, roundId, others, events) {
      CollectedUsable(cfg, roundId, events, Key(CommitKind, roundId, n), others, got);
      UsableView(cfg, id, own, got, view);
      DisputesInDomain(cfg, view);
    }
  }

  /** A sequence that cannot be read has been spoilt by such a message or the prompt. */
  lemma UnspelledIsExcused(cfg: Config, roundId: string, others: set<NodeId>, prompt: seq<nat>, st: Node,
                           events: seq<Event>)
    requires Grounded(cfg, roundId, others, prompt, st, events) && exists i :: 0 <= i < |st.x| && st.x[i] >= cfg.vocab
    ensures Excused(cfg, roundId, others, prompt, events)
  {
    hide FromBuckets, Scorable, HeardUnusable;
  }
}
