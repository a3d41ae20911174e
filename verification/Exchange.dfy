/** What a node says and reads in the two phases of a sync (node/generation.py:203-246). */
module Exchange {
  import opened Prelude
  import opened Consensus
  import opened Protocol
  import opened Inbox

  /** The scores a node reports: its own probability for every disputed token, as a logarithm. */
  function OwnReport(log: real -> real, p: (nat, nat) -> real, disputes: map<nat, set<nat>>): ScoreMap {
    map pos | pos in disputes :: TokenReport(log, p, pos, disputes[pos])
  }

  function TokenReport(log: real -> real, p: (nat, nat) -> real, pos: nat, tokens: set<nat>): map<nat, real> {
    map t | t in tokens :: LogProb(log, p(pos, t))
  }

  /** What a node reports of a token it is asked about: the logarithm of its own probability for that token at that
      position, kept away from zero. */
  lemma OwnReportScores(log: real -> real, p: (nat, nat) -> real, disputes: map<nat, set<nat>>)
    ensures OwnReport(log, p, disputes).Keys == disputes.Keys
    ensures forall pos :: pos in disputes ==>
              && OwnReport(log, p, disputes)[pos].Keys == disputes[pos]
              && forall t :: t in disputes[pos] ==>
                   OwnReport(log, p, disputes)[pos][t]
                   == log(if p(pos, t) < 0.000000000001 then 0.000000000001 else p(pos, t))
  {
    forall pos: nat | pos in disputes
      ensures OwnReport(log, p, disputes)[pos] == TokenReport(log, p, pos, disputes[pos])
    {
    }
  }

  lemma TokenOnWire(report: ScoreMap, pos: nat, t: nat)
    requires pos in report && t in report[pos]
    ensures var wire := EncodeScores(report);
            Str(pos) in wire && Str(t) in wire[Str(pos)] && wire[Str(pos)][Str(t)] == report[pos][t]
  {
    hide Str, ParseKey, EncodeScores, EncodeTokens;
    EncodedScores(report);
    EncodedTokens(report[pos]);
    ParseStr(pos);
    ParseStr(t);
  }

  /** The same as it is sent: under the decimal renderings of the position and the token. */
  lemma OwnReportOnWire(log: real -> real, p: (nat, nat) -> real, disputes: map<nat, set<nat>>)
    ensures var wire := EncodeScores(OwnReport(log, p, disputes));
            forall pos :: pos in disputes ==>
              && Str(pos) in wire
              && forall t :: t in disputes[pos] ==>
                   && Str(t) in wire[Str(pos)]
                   && wire[Str(pos)][Str(t)] == log(if p(pos, t) < 0.000000000001 then 0.000000000001 else p(pos, t))
  {
    hide Str, EncodeScores, OwnReport;
    var report := OwnReport(log, p, disputes);
    OwnReportScores(log, p, disputes);
    EncodedScores(report);
    forall pos, t | pos in disputes && t in disputes[pos]
      ensures Str(t) in EncodeScores(report)[Str(pos)] && EncodeScores(report)[Str(pos)][Str(t)] == report[pos][t]
    {
      assert t in report[pos].Keys;
      TokenOnWire(report, pos, t);
    }
  }

  lemma OwnReportFits(log: real -> real, p: (nat, nat) -> real, view: Commits)
    ensures ScoresFor(OwnReport(log, p, Disputes(view)), view)
  {
    hide Disputes;
    var report := OwnReport(log, p, Disputes(view));
    forall pos: nat | pos in report
      ensures report[pos].Keys == Disputes(view)[pos]
    {
      assert report[pos] == TokenReport(log, p, pos, Disputes(view)[pos]);
    }
  }

  /** Rows and columns of a distribution over `length` positions and `vocab` tokens. */
  predicate InDomain(disputes: map<nat, set<nat>>, length: nat, vocab: nat) {
    forall pos :: pos in disputes ==> pos < length && forall t :: t in disputes[pos] ==> t < vocab
  }

  /** `{pos: {tok: my_p[0, pos, tok]...} ...}`, which raises on an index out of range. */
  function ScoreDisputes(log: real -> real, p: (nat, nat) -> real, length: nat, vocab: nat,
      disputes: map<nat, set<nat>>): (r: Result<ScoreMap>)
    ensures r.Raised? <==>
              exists pos :: pos in disputes && (pos >= length || exists t :: t in disputes[pos] && t >= vocab)
    ensures r.Ok? ==> r.value.Keys == disputes.Keys && forall pos :: pos in disputes ==>
              && r.value[pos].Keys == disputes[pos]
              && forall t :: t in disputes[pos] ==>
                   r.value[pos][t] == log(if p(pos, t) < 0.000000000001 then 0.000000000001 else p(pos, t))
  {
    OwnReportScores(log, p, disputes);
    if InDomain(disputes, length, vocab) then Ok(OwnReport(log, p, disputes)) else Raised
  }

  // ---------------------------------------------------------------- reading what was collected

  /** The view a node has of a sync's commits: its own, and the others' as they were sent. */
  ghost predicate CommitsFrom(id: NodeId, own: CommitMap, got: Bucket, view: Commits) {
    && view.Keys == got.Keys + {id} && view[id] == own
    && forall j :: j in got && j != id ==>
         got[j].Commit? && view[j] == Unflattened(got[j].positions, got[j].tokens, got[j].confidences)
  }

  ghost predicate ReportsFrom(id: NodeId, own: ScoreMap, got: Bucket, scores: Scores) {
    && scores.Keys == got.Keys + {id} && scores[id] == own
    && forall j :: j in got && j != id ==> got[j].DisputeScore? && DecodesScores(got[j].scores, scores[j])
  }

  method ReadCommits(id: NodeId, own: CommitMap, got: Bucket) returns (view: Commits)
    requires id !in got && forall j :: j in got ==> got[j].Commit?
    ensures CommitsFrom(id, own, got, view)
  {
    view := map[id := own];
    var todo := got.Keys;
    while todo != {}
      invariant todo <= got.Keys && view.Keys == got.Keys - todo + {id} && view[id] == own
      invariant forall j :: j in got && j !in todo ==>
          view[j] == Unflattened(got[j].positions, got[j].tokens, got[j].confidences)
    {
      var j :| j in todo;
      var m := Unflatten(got[j].positions, got[j].tokens, got[j].confidences);
      view := view[j := m];
      todo := todo - {j};
    }
  }

  /** A report that another node can use: numeric keys, and some candidate at every position. */
  predicate WellFormed(wire: map<string, map<string, real>>) {
    forall k :: k in wire ==> ParseKey(k) != None && wire[k] != map[] && forall t :: t in wire[k] ==>
        ParseKey(t) != None
  }

  method ReadReports(id: NodeId, own: ScoreMap, got: Bucket) returns (r: Result<Scores>)
    requires id !in got && forall j :: j in got ==> got[j].DisputeScore?
    ensures r.Ok? ==> ReportsFrom(id, own, got, r.value)
    ensures r.Raised? ==> exists j :: j in got && !WellFormed(got[j].scores)
  {
    hide DecodesScores, ParseKey;
    var scores := map[id := own];
    var todo := got.Keys;
    while todo != {}
      invariant todo <= got.Keys && scores.Keys == got.Keys - todo + {id} && scores[id] == own
      invariant forall j :: j in got && j !in todo ==> DecodesScores(got[j].scores, scores[j])
    {
      var j :| j in todo;
      var m := DecodeScores(got[j].scores);
      if m.Raised? {
        return Raised;
      }
      scores := scores[j := m.value];
      todo := todo - {j};
    }
    r := Ok(scores);
  }

  lemma DisputeNonEmpty(view: Commits, pos: nat)
    requires pos in Disputes(view)
    ensures Disputes(view)[pos] != {}
  {
    assert |Disputes(view)[pos]| > 1;
  }

  lemma EncodedNonEmpty(m: map<nat, real>)
    requires m.Keys != {}
    ensures EncodeTokens(m) != map[]
  {
    EncodedTokens(m);
    hide Str, ParseKey, EncodeTokens;
    var t := Pick(m.Keys);
    assert t in m && Str(t) in EncodeTokens(m);
  }

  /** What a node reports is usable by all the others. */
  lemma ReportWellFormed(report: ScoreMap, view: Commits)
    requires ScoresFor(report, view)
    ensures WellFormed(EncodeScores(report))
  {
    hide Disputes, EncodeScores, EncodeTokens, ParseKey;
    var wire := EncodeScores(report);
    EncodedScores(report);
    EncodedReportsDecode(report);
    forall k | k in wire
      ensures wire[k] != map[]
    {
      var pos := ParseKey(k).value;
      DisputeNonEmpty(view, pos);
      assert report[pos].Keys != {};
      EncodedNonEmpty(report[pos]);
    }
  }

  lemma CandidateOf(scores: Scores, n: NodeId, pos: nat, t: nat)
    requires n in scores && pos in scores[n] && t in scores[n][pos]
    ensures ScoredTokens(scores, pos) != {}
  {
    assert t in ScoredTokens(scores, pos);
  }

  lemma DecodedNonEmpty(wire: map<string, map<string, real>>, m: ScoreMap, pos: nat)
    requires WellFormed(wire) && DecodesScores(wire, m) && pos in m
    ensures m[pos].Keys != {}
  {
    hide ParseKey;
    var k :| k in wire && ParseKey(k) == Some(pos) && DecodesTokens(wire[k], m[pos]);
    assert wire[k].Keys != {};
    var key := Pick(wire[k].Keys);
    assert ParseKey(key).value in m[pos];
  }

  lemma UsableAt(id: NodeId, own: ScoreMap, got: Bucket, view: Commits, scores: Scores, n: NodeId, pos: nat)
    requires ReportsFrom(id, own, got, scores) && ScoresFor(own, view)
    requires forall j :: j in got && j != id ==> WellFormed(got[j].scores)
    requires n in scores && pos in scores[n]
    ensures scores[n][pos].Keys != {}
  {
    hide Disputes, WellFormed, DecodesScores;
    if n == id {
      DisputeNonEmpty(view, pos);
      assert own[pos].Keys == Disputes(view)[pos];
    } else {
      DecodedNonEmpty(got[n].scores, scores[n], pos);
    }
  }

  /** Usable reports leave no position without a candidate, so nothing is raised. */
  lemma UsableReports(id: NodeId, own: ScoreMap, got: Bucket, view: Commits, scores: Scores)
    requires ReportsFrom(id, own, got, scores) && ScoresFor(own, view)
    requires forall j :: j in got && j != id ==> WellFormed(got[j].scores)
    ensures forall p :: p in ScoredPositions(scores) ==> ScoredTokens(scores, p) != {}
  {
    hide ReportsFrom, ScoresFor, WellFormed, ScoredTokens;
    forall p | p in ScoredPositions(scores)
      ensures ScoredTokens(scores, p) != {}
    {
      var n :| n in scores && p in scores[n];
      UsableAt(id, own, got, view, scores, n, p);
      CandidateOf(scores, n, p, Pick(scores[n][p].Keys));
    }
  }
}
