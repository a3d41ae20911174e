/** N-way consensus over one sync's commits (diffusion/consensus.py).

    The three functions of the source run nested loops over dictionaries. Here each is a method that
    visits the entries in an arbitrary order and is proved to compute an order-free value of its
    input; everything else is proved about those values. */
module Consensus {
  import opened Prelude

  type NodeId = string

  datatype Proposal = Proposal(token: nat, confidence: real)

  type CommitMap = map<nat, Proposal>
  type Commits = map<NodeId, CommitMap>
  type ScoreMap = map<nat, map<nat, real>>
  type Scores = map<NodeId, ScoreMap>

  // ---------------------------------------------------------------- proposals and disputes

  ghost function ProposedAt(commits: Commits, pos: nat): set<nat> {
    set n | n in commits && pos in commits[n] :: commits[n][pos].token
  }

  ghost function ProposedPositions(commits: Commits): set<nat> {
    set n, p | n in commits && p in commits[n] :: p
  }

  ghost function Grouped(commits: Commits): map<nat, set<nat>> {
    map p | p in ProposedPositions(commits) :: ProposedAt(commits, p)
  }

  ghost function Disputes(commits: Commits): map<nat, set<nat>> {
    map p | p in ProposedPositions(commits) && |ProposedAt(commits, p)| > 1 :: ProposedAt(commits, p)
  }

  /** `by_position.setdefault(pos, set()).add(token)` */
  function AddTo(byPosition: map<nat, set<nat>>, pos: nat, token: nat): map<nat, set<nat>> {
    byPosition[pos := (if pos in byPosition then byPosition[pos] else {}) + {token}]
  }

  lemma ReporterAdds(commits: Commits, n: NodeId, part: CommitMap, pos: nat)
    requires n !in commits
    ensures ProposedPositions(commits[n := part]) == ProposedPositions(commits) + part.Keys
    ensures ProposedAt(commits[n := part], pos) == ProposedAt(commits, pos) + if pos in part then {part[pos].token}
        else {}
    ensures pos !in ProposedPositions(commits) ==> ProposedAt(commits, pos) == {}
  {
    var more := commits[n := part];
    forall p: nat
      ensures p in ProposedPositions(more) <==> p in ProposedPositions(commits) || p in part
    {
      if p in part {
        assert n in more && p in more[n];
      }
      if m :| m in commits && p in commits[m] {
        assert m in more && p in more[m];
      }
    }
    forall t
      ensures t in ProposedAt(more, pos) <==> t in ProposedAt(commits, pos) || (pos in part && t == part[pos].token)
    {
      if pos in part && t == part[pos].token {
        assert n in more && pos in more[n] && more[n][pos].token == t;
      }
      if m :| m in commits && pos in commits[m] && commits[m][pos].token == t {
        assert m in more && pos in more[m] && more[m][pos].token == t;
      }
    }
  }

  lemma GroupedGrows(commits: Commits, n: NodeId, part: CommitMap, pos: nat, proposal: Proposal)
    requires n !in commits && pos !in part
    ensures Grouped(commits[n := part[pos := proposal]]) == AddTo(Grouped(commits[n := part]), pos, proposal.token)
  {
    var a, b := commits[n := part], commits[n := part[pos := proposal]];
    forall p: nat
      ensures p in ProposedPositions(b) <==> p in ProposedPositions(a) || p == pos
      ensures p != pos ==> ProposedAt(b, p) == ProposedAt(a, p)
    {
      ReporterAdds(commits, n, part, p);
      ReporterAdds(commits, n, part[pos := proposal], p);
    }
    assert ProposedAt(b, pos) == ProposedAt(a, pos) + {proposal.token}
        && (pos !in ProposedPositions(a) ==> ProposedAt(a, pos) == {}) by {
      ReporterAdds(commits, n, part, pos);
      ReporterAdds(commits, n, part[pos := proposal], pos);
    }
    assert Grouped(b).Keys == AddTo(Grouped(a), pos, proposal.token).Keys;
  }

  lemma NothingGrouped(commits: Commits, n: NodeId)
    requires n !in commits
    ensures Grouped(commits[n := map[]]) == Grouped(commits)
  {
    forall p: nat
      ensures p in ProposedPositions(commits[n := map[]]) <==> p in ProposedPositions(commits)
      ensures ProposedAt(commits[n := map[]], p) == ProposedAt(commits, p)
    {
      ReporterAdds(commits, n, map[], p);
    }
  }

  method GroupReporter(ghost seen: Commits, ghost n: NodeId, proposals: CommitMap, before: map<nat, set<nat>>)
    returns (byPosition: map<nat, set<nat>>)
    requires n !in seen && before == Grouped(seen)
    ensures byPosition == Grouped(seen[n := proposals])
  {
    hide Grouped;
    byPosition := before;
    NothingGrouped(seen, n);
    var positions := proposals.Keys;
    ghost var part: CommitMap := map[];
    while positions != {}
      invariant positions <= proposals.Keys
      invariant part == map p | p in proposals && p !in positions :: proposals[p]
      invariant byPosition == Grouped(seen[n := part])
    {
      var pos :| pos in positions;
      GroupedGrows(seen, n, part, pos, proposals[pos]);
      byPosition := AddTo(byPosition, pos, proposals[pos].token);
      part := part[pos := proposals[pos]];
      positions := positions - {pos};
    }
    assert part == proposals;
  }

  lemma NothingYet()
    ensures Grouped(map[]) == map[]
  {
    assert Grouped(map[]).Keys == {};
  }

  /** The grouping loop that `detect_disputes` and `merge_consensus` share. */
  method GroupProposals(commits: Commits) returns (byPosition: map<nat, set<nat>>)
    ensures byPosition == Grouped(commits)
  {
    hide Grouped;
    byPosition := map[];
    NothingYet();
    var nodes := commits.Keys;
    ghost var seen: Commits := map[];
    while nodes != {}
      invariant nodes <= commits.Keys
      invariant seen == map n | n in commits && n !in nodes :: commits[n]
      invariant byPosition == Grouped(seen)
    {
      var n :| n in nodes;
      byPosition := GroupReporter(seen, n, commits[n], byPosition);
      seen := seen[n := commits[n]];
      nodes := nodes - {n};
    }
    assert seen == commits;
  }

  /** A position is disputed exactly when two nodes committed different tokens there, and then over all the tokens
      that anybody committed there. */
  lemma DisputesAre(commits: Commits)
    ensures forall p: nat :: p in Disputes(commits) <==>
              exists n, m :: n in commits && m in commits && p in commits[n] && p in commits[m]
                             && commits[n][p].token != commits[m][p].token
    ensures forall p, t: nat :: p in Disputes(commits) ==>
              (t in Disputes(commits)[p] <==> exists n :: n in commits && p in commits[n] && commits[n][p].token == t)
  {
    forall p: nat
      ensures p in Disputes(commits) <==>
                exists n, m :: n in commits && m in commits && p in commits[n] && p in commits[m]
                               && commits[n][p].token != commits[m][p].token
    {
      SeveralProposed(commits, p);
      if n :| n in commits && p in commits[n] {
        assert p in ProposedPositions(commits);
      }
    }
  }

  lemma SeveralProposed(commits: Commits, p: nat)
    ensures |ProposedAt(commits, p)| > 1 <==>
              exists n, m :: n in commits && m in commits && p in commits[n] && p in commits[m]
                             && commits[n][p].token != commits[m][p].token
  {
    var s := ProposedAt(commits, p);
    if |s| > 1 {
      var a := Pick(s);
      assert s - {a} != {} by {
        assert |s - {a}| == |s| - 1;
      }
      var b := Pick(s - {a});
      var n :| n in commits && p in commits[n] && commits[n][p].token == a;
      var m :| m in commits && p in commits[m] && commits[m][p].token == b;
      assert commits[n][p].token != commits[m][p].token;
    }
    if n, m :| n in commits && m in commits && p in commits[n] && p in commits[m]
               && commits[n][p].token != commits[m][p].token {
      var a, b := commits[n][p].token, commits[m][p].token;
      assert a in s && b in s;
      hide ProposedAt;
      SubsetSize({a, b}, s);
    }
  }

  /** detect_disputes: exactly the positions with more than one distinct proposed token. */
  method DetectDisputes(commits: Commits) returns (disputes: map<nat, set<nat>>)
    ensures disputes == Disputes(commits)
  {
    var byPosition := GroupProposals(commits);
    disputes := map p | p in byPosition && |byPosition[p]| > 1 :: byPosition[p];
  }

  // ---------------------------------------------------------------- scores

  /** The order-free sum of `f` over a finite set. */
  ghost function SumOver(s: set<NodeId>, f: NodeId -> real): real {
    if s == {} then 0.0 else
      var n := Pick(s);
      f(n) + SumOver(s - {n}, f)
  }

  lemma {:induction false} SumExtract(s: set<NodeId>, f: NodeId -> real, n: NodeId)
    requires n in s
    ensures SumOver(s, f) == f(n) + SumOver(s - {n}, f)
    decreases |s|
  {
    var m := Pick(s);
    if m != n {
      SumExtract(s - {m}, f, n);
      SumExtract(s - {n}, f, m);
      assert s - {m} - {n} == s - {n} - {m};
    }
  }

  lemma {:induction false} SumMonotone(s: set<NodeId>, f: NodeId -> real, g: NodeId -> real)
    requires forall n :: n in s ==> f(n) <= g(n)
    ensures SumOver(s, f) <= SumOver(s, g)
    ensures (forall n :: n in s ==> f(n) == g(n)) ==> SumOver(s, f) == SumOver(s, g)
    ensures (exists n :: n in s && f(n) < g(n)) ==> SumOver(s, f) < SumOver(s, g)
    decreases |s|
  {
    if s != {} {
      var n :| n in s && ((exists m :: m in s && f(m) < g(m)) ==> f(n) < g(n));
      SumExtract(s, f, n);
      SumExtract(s, g, n);
      SumMonotone(s - {n}, f, g);
    }
  }

  ghost function ScoredPositions(scores: Scores): set<nat> {
    set n, p | n in scores && p in scores[n] :: p
  }

  ghost function ScoredTokens(scores: Scores, pos: nat): set<nat> {
    set n, t | n in scores && pos in scores[n] && t in scores[n][pos] :: t
  }

  /** What reporter n adds to token t's score at position pos: nothing when it sent no score. */
  function Vote(scores: Scores, exp: real -> real, n: NodeId, pos: nat, t: nat): real {
    if n in scores && pos in scores[n] && t in scores[n][pos] then exp(scores[n][pos][t]) else 0.0
  }

  ghost function Total(scores: Scores, exp: real -> real, pos: nat, t: nat): real {
    SumOver(scores.Keys, n => Vote(scores, exp, n, pos, t))
  }

  ghost function TotalsAt(scores: Scores, exp: real -> real, pos: nat): map<nat, real> {
    map t | t in ScoredTokens(scores, pos) :: Total(scores, exp, pos, t)
  }

  ghost function Totals(scores: Scores, exp: real -> real): map<nat, map<nat, real>> {
    map p | p in ScoredPositions(scores) :: TotalsAt(scores, exp, p)
  }

  /** `bucket[token] = bucket.get(token, 0.0) + vote` */
  function Bump(bucket: map<nat, real>, token: nat, vote: real): map<nat, real> {
    bucket[token := (if token in bucket then bucket[token] else 0.0) + vote]
  }

  lemma ScoresAdd(scores: Scores, n: NodeId, part: ScoreMap, pos: nat)
    requires n !in scores
    ensures ScoredPositions(scores[n := part]) == ScoredPositions(scores) + part.Keys
    ensures ScoredTokens(scores[n := part], pos)
            == ScoredTokens(scores, pos) + if pos in part then part[pos].Keys else {}
    ensures pos !in ScoredPositions(scores) ==> ScoredTokens(scores, pos) == {}
  {
    var more := scores[n := part];
    forall p: nat
      ensures p in ScoredPositions(more) <==> p in ScoredPositions(scores) || p in part
    {
      if p in part {
        assert n in more && p in more[n];
      }
      if m :| m in scores && p in scores[m] {
        assert m in more && p in more[m];
      }
    }
    forall t
      ensures t in ScoredTokens(more, pos) <==> t in ScoredTokens(scores, pos) || (pos in part && t in part[pos])
    {
      if pos in part && t in part[pos] {
        assert n in more && pos in more[n] && t in more[n][pos];
      }
      if m :| m in scores && pos in scores[m] && t in scores[m][pos] {
        assert m in more && pos in more[m] && t in more[m][pos];
      }
    }
  }

  lemma TotalAdds(scores: Scores, exp: real -> real, n: NodeId, part: ScoreMap, pos: nat, t: nat)
    requires n !in scores
    ensures Total(scores[n := part], exp, pos, t)
            == Total(scores, exp, pos, t) + if pos in part && t in part[pos] then exp(part[pos][t]) else 0.0
  {
    var more := scores[n := part];
    var f, g := m => Vote(scores, exp, m, pos, t), m => Vote(more, exp, m, pos, t);
    SumExtract(more.Keys, g, n);
    assert more.Keys - {n} == scores.Keys;
    SumMonotone(scores.Keys, f, g);
  }

  lemma UnscoredTotal(scores: Scores, exp: real -> real, pos: nat, t: nat)
    requires t !in ScoredTokens(scores, pos)
    ensures Total(scores, exp, pos, t) == 0.0
  {
    UnscoredSum(scores.Keys, scores, exp, pos, t);
  }

  lemma {:induction false} UnscoredSum(nodes: set<NodeId>, scores: Scores, exp: real -> real, pos: nat, t: nat)
    requires t !in ScoredTokens(scores, pos)
    ensures SumOver(nodes, n => Vote(scores, exp, n, pos, t)) == 0.0
    decreases |nodes|
  {
    if nodes != {} {
      var n := Pick(nodes);
      SumExtract(nodes, m => Vote(scores, exp, m, pos, t), n);
      UnscoredSum(nodes - {n}, scores, exp, pos, t);
    }
  }

  /** Two reports that agree on a position's candidates count alike there. */
  lemma SameTotalsAt(scores: Scores, exp: real -> real, n: NodeId, p0: ScoreMap, p1: ScoreMap, pos: nat)
    requires n !in scores
    requires (if pos in p0 then p0[pos] else map[]) == (if pos in p1 then p1[pos] else map[])
    ensures TotalsAt(scores[n := p1], exp, pos) == TotalsAt(scores[n := p0], exp, pos)
  {
    hide ScoredTokens, Total, ScoredPositions;
    var a, b := scores[n := p0], scores[n := p1];
    ScoresAdd(scores, n, p0, pos);
    ScoresAdd(scores, n, p1, pos);
    forall t: nat
      ensures Total(b, exp, pos, t) == Total(a, exp, pos, t)
    {
      TotalAdds(scores, exp, n, p0, pos, t);
      TotalAdds(scores, exp, n, p1, pos, t);
    }
    assert TotalsAt(b, exp, pos).Keys == TotalsAt(a, exp, pos).Keys;
  }

  /** `totals.setdefault(pos, {})` */
  function SetDefault(totals: map<nat, map<nat, real>>, pos: nat): map<nat, map<nat, real>> {
    totals[pos := if pos in totals then totals[pos] else map[]]
  }

  lemma TotalsOpened(scores: Scores, exp: real -> real, n: NodeId, part: ScoreMap, pos: nat)
    requires n !in scores && pos !in part
    ensures Totals(scores[n := part[pos := map[]]], exp) == SetDefault(Totals(scores[n := part], exp), pos)
  {
    hide ScoredTokens, Total, ScoredPositions;
    var a, b := scores[n := part], scores[n := part[pos := map[]]];
    ScoresAdd(scores, n, part, pos);
    ScoresAdd(scores, n, part[pos := map[]], pos);
    assert ScoredPositions(b) == ScoredPositions(a) + {pos};
    assert pos !in ScoredPositions(a) ==> TotalsAt(a, exp, pos).Keys == {};
    forall p: nat
      ensures TotalsAt(b, exp, p) == TotalsAt(a, exp, p)
    {
      SameTotalsAt(scores, exp, n, part, part[pos := map[]], p);
    }
    assert Totals(b, exp).Keys == SetDefault(Totals(a, exp), pos).Keys;
  }

  lemma BucketGrows(scores: Scores, exp: real -> real, n: NodeId, p0: ScoreMap, p1: ScoreMap, pos: nat,
      cands: map<nat, real>, t: nat, s: real)
    requires n !in scores && t !in cands && pos in p0 && cands == p0[pos] && p1 == p0[pos := cands[t := s]]
    ensures TotalsAt(scores[n := p1], exp, pos) == Bump(TotalsAt(scores[n := p0], exp, pos), t, exp(s))
  {
    hide ScoredTokens, Total, ScoredPositions;
    var a, b := scores[n := p0], scores[n := p1];
    assert ScoredTokens(b, pos) == ScoredTokens(a, pos) + {t} by {
      ScoresAdd(scores, n, p0, pos);
      ScoresAdd(scores, n, p1, pos);
    }
    forall u: nat
      ensures Total(b, exp, pos, u) == Total(a, exp, pos, u) + if u == t then exp(s) else 0.0
      ensures u !in ScoredTokens(a, pos) ==> Total(a, exp, pos, u) == 0.0
    {
      TotalAdds(scores, exp, n, p0, pos, u);
      TotalAdds(scores, exp, n, p1, pos, u);
      if u !in ScoredTokens(a, pos) {
        UnscoredTotal(a, exp, pos, u);
      }
    }
    assert TotalsAt(b, exp, pos).Keys == Bump(TotalsAt(a, exp, pos), t, exp(s)).Keys;
  }

  /** `bucket[token] = bucket.get(token, 0.0) + math.exp(logprob)` keeps the totals exact. */
  lemma TotalsGrow(scores: Scores, exp: real -> real, n: NodeId, p0: ScoreMap, p1: ScoreMap, pos: nat,
      cands: map<nat, real>, t: nat, s: real)
    requires n !in scores && t !in cands && pos in p0 && cands == p0[pos] && p1 == p0[pos := cands[t := s]]
    ensures pos in Totals(scores[n := p0], exp)
    ensures var before := Totals(scores[n := p0], exp);
            Totals(scores[n := p1], exp) == before[pos := Bump(before[pos], t, exp(s))]
  {
    hide ScoredTokens, TotalsAt, ScoredPositions;
    var a, b := scores[n := p0], scores[n := p1];
    ScoresAdd(scores, n, p0, pos);
    ScoresAdd(scores, n, p1, pos);
    assert ScoredPositions(b) == ScoredPositions(a);
    forall p: nat | p != pos
      ensures TotalsAt(b, exp, p) == TotalsAt(a, exp, p)
    {
      SameTotalsAt(scores, exp, n, p0, p1, p);
    }
    BucketGrows(scores, exp, n, p0, p1, pos, cands, t, s);
    assert Totals(b, exp).Keys == Totals(a, exp).Keys;
  }

  // ---------------------------------------------------------------- winners

  /** Higher score first, then the lower token id: the order of the source's tuple key. */
  predicate Beats(totals: map<nat, real>, a: nat, b: nat)
    requires a in totals && b in totals
  {
    totals[a] > totals[b] || (totals[a] == totals[b] && a < b)
  }

  ghost predicate IsWinner(totals: map<nat, real>, w: nat) {
    w in totals && forall t :: t in totals && t != w ==> Beats(totals, w, t)
  }

  /** `max(candidates.items(), key=...)`, scanning the candidates in an arbitrary order. */
  method MaxCandidate(totals: map<nat, real>) returns (best: nat)
    requires totals != map[]
    ensures IsWinner(totals, best)
    ensures best in totals
    ensures forall t :: t in totals ==> totals[t] <= totals[best] && (totals[t] == totals[best] ==> best <= t)
  {
    assert totals.Keys != {} && Pick(totals.Keys) in totals;
    best :| best in totals;
    var rest := totals.Keys - {best};
    while rest != {}
      invariant rest <= totals.Keys && best in totals.Keys - rest
      invariant forall t :: t in totals && t !in rest && t != best ==> Beats(totals, best, t)
    {
      var t :| t in rest;
      if Beats(totals, t, best) {
        best := t;
      }
      rest := rest - {t};
    }
  }

  lemma {:induction false} WinnerExists(totals: map<nat, real>, among: set<nat>) returns (w: nat)
    requires {} < among <= totals.Keys
    ensures w in among && forall t :: t in among && t != w ==> Beats(totals, w, t)
    decreases |among|
  {
    w := Pick(among);
    if among != {w} {
      var v := WinnerExists(totals, among - {w});
      assert forall t :: t in among && t != w && t != v ==> t in among - {w};
      w := if Beats(totals, w, v) then w else v;
    }
  }

  ghost function Winner(totals: map<nat, real>): (w: nat)
    requires totals.Keys != {}
    ensures IsWinner(totals, w)
  {
    assert exists w :: IsWinner(totals, w) by {
      var w := WinnerExists(totals, totals.Keys);
      assert IsWinner(totals, w);
    }
    var w :| IsWinner(totals, w);
    w
  }

  /** The tie-break makes the winner unique, so every participant lands on the same one. */
  lemma WinnerUnique(totals: map<nat, real>, a: nat, b: nat)
    requires IsWinner(totals, a) && IsWinner(totals, b)
    ensures a == b
  {
    assert a != b ==> Beats(totals, a, b);
  }

  ghost function Winners(scores: Scores, exp: real -> real): map<nat, nat> {
    map p | p in ScoredPositions(scores) && TotalsAt(scores, exp, p).Keys != {} :: Winner(TotalsAt(scores, exp, p))
  }

  /** resolve_disputes, the summing half: the totals whatever the order of the reporters. */
  method SumScores(scores: Scores, exp: real -> real) returns (totals: map<nat, map<nat, real>>)
    ensures totals == Totals(scores, exp)
  {
    hide Totals;
    totals := map[];
    NothingScored(exp);
    var nodes := scores.Keys;
    ghost var seen: Scores := map[];
    while nodes != {}
      invariant nodes <= scores.Keys
      invariant seen == map n | n in scores && n !in nodes :: scores[n]
      invariant totals == Totals(seen, exp)
    {
      var n :| n in nodes;
      NoReportNoTotals(seen, exp, n);
      totals := AddReporter(seen, n, scores[n], exp, totals);
      seen := seen[n := scores[n]];
      nodes := nodes - {n};
    }
    assert seen == scores;
  }

  /** resolve_disputes. It raises exactly when some position was reported without any candidate. */
  method ResolveDisputes(scores: Scores, exp: real -> real) returns (r: Result<map<nat, nat>>)
    ensures r.Raised? <==> exists p :: p in ScoredPositions(scores) && ScoredTokens(scores, p) == {}
    ensures r.Ok? ==> r.value == Winners(scores, exp) && r.value.Keys == ScoredPositions(scores)
    ensures r.Ok? ==> forall p :: p in r.value ==>
              var w := r.value[p];
              && w in ScoredTokens(scores, p)
              && forall t :: t in ScoredTokens(scores, p) ==>
                   && Total(scores, exp, p, t) <= Total(scores, exp, p, w)
                   && (Total(scores, exp, p, t) == Total(scores, exp, p, w) ==> w <= t)
  {
    hide ScoredPositions, ScoredTokens, TotalsAt, Total, Winners;
    var totals := SumScores(scores, exp);
    var winners: map<nat, nat> := map[];
    var positions := totals.Keys;
    while positions != {}
      invariant positions <= totals.Keys
      invariant winners.Keys == totals.Keys - positions
      invariant forall p :: p in winners ==> totals[p].Keys != {} && winners[p] == Winner(totals[p])
    {
      var pos :| pos in positions;
      if totals[pos] == map[] {
        TotalsKeys(scores, exp, pos);
        return Raised;
      }
      assert totals[pos].Keys != {};
      var best := MaxCandidate(totals[pos]);
      WinnerUnique(totals[pos], best, Winner(totals[pos]));
      winners := winners[pos := best];
      positions := positions - {pos};
    }
    forall p: nat | p in ScoredPositions(scores)
      ensures p in winners && ScoredTokens(scores, p) == totals[p].Keys
    {
      TotalsKeys(scores, exp, p);
    }
    WinnersAre(scores, exp, totals, winners);
    forall p | p in winners
      ensures var w := winners[p];
              && w in ScoredTokens(scores, p)
              && forall t :: t in ScoredTokens(scores, p) ==>
                   && Total(scores, exp, p, t) <= Total(scores, exp, p, w)
                   && (Total(scores, exp, p, t) == Total(scores, exp, p, w) ==> w <= t)
    {
      WinnerLaw(scores, exp, p);
    }
    r := Ok(winners);
  }

  lemma WinnersAre(scores: Scores, exp: real -> real, totals: map<nat, map<nat, real>>, winners: map<nat, nat>)
    requires totals == Totals(scores, exp) && winners.Keys == ScoredPositions(scores)
    requires forall p :: p in winners ==> totals[p].Keys != {} && winners[p] == Winner(totals[p])
    ensures winners == Winners(scores, exp)
  {
    hide ScoredPositions, TotalsAt, Total;
  }

  /** Whoever wins a position has the highest total there, and the lowest id among those that have it. */
  lemma WinnerLaw(scores: Scores, exp: real -> real, p: nat)
    requires p in Winners(scores, exp)
    ensures var w := Winners(scores, exp)[p];
            && w in ScoredTokens(scores, p)
            && forall t :: t in ScoredTokens(scores, p) ==>
                 && Total(scores, exp, p, t) <= Total(scores, exp, p, w)
                 && (Total(scores, exp, p, t) == Total(scores, exp, p, w) ==> w <= t)
  {
    hide ScoredTokens, Total;
    var totals := TotalsAt(scores, exp, p);
    var w := Winner(totals);
    forall t | t in ScoredTokens(scores, p)
      ensures Total(scores, exp, p, t) <= Total(scores, exp, p, w)
      ensures Total(scores, exp, p, t) == Total(scores, exp, p, w) ==> w <= t
    {
      assert t in totals && (t != w ==> Beats(totals, w, t));
    }
  }

  lemma NothingScored(exp: real -> real)
    ensures Totals(map[], exp) == map[]
  {
    assert Totals(map[], exp).Keys == {};
  }

  lemma TotalsKeys(scores: Scores, exp: real -> real, pos: nat)
    ensures TotalsAt(scores, exp, pos).Keys == ScoredTokens(scores, pos)
  {
  }

  lemma NoReportNoTotals(seen: Scores, exp: real -> real, n: NodeId)
    requires n !in seen
    ensures Totals(seen[n := map[]], exp) == Totals(seen, exp)
  {
    hide ScoredTokens, Total, ScoredPositions;
    var a := seen[n := map[]];
    forall p: nat
      ensures p in ScoredPositions(a) <==> p in ScoredPositions(seen)
      ensures TotalsAt(a, exp, p) == TotalsAt(seen, exp, p)
    {
      ScoresAdd(seen, n, map[], p);
      forall t: nat
        ensures Total(a, exp, p, t) == Total(seen, exp, p, t)
      {
        TotalAdds(seen, exp, n, map[], p, t);
      }
      assert TotalsAt(a, exp, p).Keys == TotalsAt(seen, exp, p).Keys;
    }
    assert Totals(a, exp).Keys == Totals(seen, exp).Keys;
  }

  /** The body of the source's middle loop: one position's candidates. */
  method AddPosition(ghost seen: Scores, ghost n: NodeId, ghost part: ScoreMap, pos: nat, candidates: map<nat, real>,
                     exp: real -> real, before: map<nat, map<nat, real>>)
    returns (totals: map<nat, map<nat, real>>)
    requires n !in seen && pos !in part && before == Totals(seen[n := part], exp)
    ensures totals == Totals(seen[n := part[pos := candidates]], exp)
  {
    hide Totals;
    TotalsOpened(seen, exp, n, part, pos);
    totals := SetDefault(before, pos);
    var tokens := candidates.Keys;
    ghost var cands: map<nat, real> := map[];
    while tokens != {}
      invariant tokens <= candidates.Keys
      invariant cands == map t | t in candidates && t !in tokens :: candidates[t]
      invariant totals == Totals(seen[n := part[pos := cands]], exp)
    {
      var token :| token in tokens;
      TotalsGrow(seen, exp, n, part[pos := cands], part[pos := cands[token := candidates[token]]], pos, cands, token,
          candidates[token]);
      totals := totals[pos := Bump(totals[pos], token, exp(candidates[token]))];
      cands := cands[token := candidates[token]];
      tokens := tokens - {token};
    }
    assert cands == candidates;
  }

  /** The body of the source's outer loop: adds one reporter's scores to the running totals. */
  method AddReporter(ghost seen: Scores, ghost n: NodeId, positions: ScoreMap, exp: real -> real,
      before: map<nat, map<nat, real>>)
    returns (totals: map<nat, map<nat, real>>)
    requires n !in seen && before == Totals(seen[n := map[]], exp)
    ensures totals == Totals(seen[n := positions], exp)
  {
    hide Totals;
    totals := before;
    var todo := positions.Keys;
    ghost var part: ScoreMap := map[];
    while todo != {}
      invariant todo <= positions.Keys
      invariant part == map p | p in positions && p !in todo :: positions[p]
      invariant totals == Totals(seen[n := part], exp)
    {
      var pos :| pos in todo;
      totals := AddPosition(seen, n, part, pos, positions[pos], exp, totals);
      part := part[pos := positions[pos]];
      todo := todo - {pos};
    }
    assert part == positions;
  }

  ghost predicate StrictlyIncreasing(exp: real -> real) {
    forall a, b {:trigger exp(a), exp(b)} :: a < b ==> exp(a) < exp(b)
  }

  /** No bland compromise: a token that every reporter of the position scores no higher than another
      one, and somebody scores strictly lower, never wins. */
  lemma DominatedNeverWins(scores: Scores, exp: real -> real, pos: nat, a: nat, b: nat)
    requires StrictlyIncreasing(exp)
    requires forall n :: n in scores && pos in scores[n] ==>
               a in scores[n][pos] && b in scores[n][pos] && scores[n][pos][b] <= scores[n][pos][a]
    requires exists n :: n in scores && pos in scores[n] && scores[n][pos][b] < scores[n][pos][a]
    ensures pos in Winners(scores, exp) && Winners(scores, exp)[pos] != b
  {
    var n :| n in scores && pos in scores[n] && scores[n][pos][b] < scores[n][pos][a];
    assert a in ScoredTokens(scores, pos) && b in ScoredTokens(scores, pos);
    var f, g := m => Vote(scores, exp, m, pos, b), m => Vote(scores, exp, m, pos, a);
    assert f(n) < g(n);
    SumMonotone(scores.Keys, f, g);
    var totals := TotalsAt(scores, exp, pos);
    assert totals[b] < totals[a];
    assert totals.Keys != {};
    assert !Beats(totals, b, a);
  }

  // ---------------------------------------------------------------- merging

  /** Any result `merge_consensus` may return: an unresolved position takes some proposed token. */
  ghost predicate IsMerge(shared: map<nat, nat>, commits: Commits, resolved: map<nat, nat>, r: map<nat, nat>) {
    && r.Keys == shared.Keys + ProposedPositions(commits)
    && (forall p :: p in shared && p !in ProposedPositions(commits) ==> r[p] == shared[p])
    && (forall p :: p in ProposedPositions(commits) && p in resolved ==> r[p] == resolved[p])
    && (forall p :: p in ProposedPositions(commits) && p !in resolved ==> r[p] in ProposedAt(commits, p))
  }

  /** `len(tokens) == 1` wherever the source falls back on `next(iter(tokens))`. */
  ghost predicate Covered(commits: Commits, resolved: map<nat, nat>) {
    forall p :: p in ProposedPositions(commits) && p !in resolved ==> |ProposedAt(commits, p)| == 1
  }

  lemma OneProposal(commits: Commits, pos: nat, a: nat, b: nat)
    requires |ProposedAt(commits, pos)| == 1 && a in ProposedAt(commits, pos) && b in ProposedAt(commits, pos)
    ensures a == b
  {
    hide ProposedAt;
    SubsetSize({a}, ProposedAt(commits, pos));
    assert b in {a};
  }

  lemma MergeUnique(shared: map<nat, nat>, commits: Commits, resolved: map<nat, nat>, a: map<nat, nat>,
      b: map<nat, nat>)
    requires Covered(commits, resolved)
    requires IsMerge(shared, commits, resolved, a) && IsMerge(shared, commits, resolved, b)
    ensures a == b
  {
    hide ProposedPositions, ProposedAt;
    forall p: nat | p in a
      ensures a[p] == b[p]
    {
      if p in ProposedPositions(commits) && p !in resolved {
        OneProposal(commits, p, a[p], b[p]);
      }
    }
  }

  ghost function Merged(shared: map<nat, nat>, commits: Commits, resolved: map<nat, nat>): (r: map<nat, nat>)
    ensures IsMerge(shared, commits, resolved, r)
  {
    map p | p in shared.Keys + ProposedPositions(commits) ::
      if p !in ProposedPositions(commits) then shared[p]
      else if p in resolved then resolved[p]
      else (ProposedSomething(commits, p); Pick(ProposedAt(commits, p)))
  }

  lemma ProposedSomething(commits: Commits, pos: nat)
    requires pos in ProposedPositions(commits)
    ensures ProposedAt(commits, pos) != {}
  {
    var n :| n in commits && pos in commits[n];
    assert commits[n][pos].token in ProposedAt(commits, pos);
  }

  /** The second loop of merge_consensus. */
  method ApplyProposals(shared: map<nat, nat>, proposals: map<nat, set<nat>>, resolved: map<nat, nat>)
    returns (updated: map<nat, nat>)
    requires forall p :: p in proposals ==> proposals[p] != {}
    ensures updated.Keys == shared.Keys + proposals.Keys
    ensures forall p :: p in shared && p !in proposals ==> updated[p] == shared[p]
    ensures forall p :: p in proposals && p in resolved ==> updated[p] == resolved[p]
    ensures forall p :: p in proposals && p !in resolved ==> updated[p] in proposals[p]
  {
    updated := shared;
    var todo := proposals.Keys;
    while todo != {}
      invariant todo <= proposals.Keys
      invariant updated.Keys == shared.Keys + (proposals.Keys - todo)
      invariant forall p :: p in shared && p !in proposals.Keys - todo ==> updated[p] == shared[p]
      invariant forall p :: p in proposals && p !in todo && p in resolved ==> updated[p] == resolved[p]
      invariant forall p :: p in proposals && p !in todo && p !in resolved ==> updated[p] in proposals[p]
    {
      var pos :| pos in todo;
      if pos in resolved {
        updated := updated[pos := resolved[pos]];
      } else {
        var token :| token in proposals[pos];
        updated := updated[pos := token];
      }
      todo := todo - {pos};
    }
  }

  /** What a merge holds at a position: what was resolved or else proposed there, or what it held before. */
  lemma MergeIs(shared: map<nat, nat>, commits: Commits, resolved: map<nat, nat>, r: map<nat, nat>, p: nat)
    requires IsMerge(shared, commits, resolved, r)
    ensures p in r <==> p in shared || exists n :: n in commits && p in commits[n]
    ensures (exists n :: n in commits && p in commits[n]) && p in resolved ==> r[p] == resolved[p]
    ensures (exists n :: n in commits && p in commits[n]) && p !in resolved ==>
              exists n :: n in commits && p in commits[n] && commits[n][p].token == r[p]
    ensures p in shared && (forall n :: n in commits ==> p !in commits[n]) ==> r[p] == shared[p]
  {
    assert p in ProposedPositions(commits) <==> exists n :: n in commits && p in commits[n];
    if p in r && r[p] in ProposedAt(commits, p) {
      var n :| n in commits && p in commits[n] && commits[n][p].token == r[p];
    }
  }

  /** merge_consensus: the value is determined whenever every unresolved position is undisputed. */
  method MergeConsensus(shared: map<nat, nat>, commits: Commits, resolved: map<nat, nat>)
    returns (updated: map<nat, nat>)
    ensures IsMerge(shared, commits, resolved, updated)
    ensures Covered(commits, resolved) ==> updated == Merged(shared, commits, resolved)
  {
    hide ProposedPositions, ProposedAt, Merged;
    var proposals := GroupProposals(commits);
    forall p: nat | p in proposals
      ensures proposals[p] != {}
    {
      ProposedSomething(commits, p);
    }
    updated := ApplyProposals(shared, proposals, resolved);
    if Covered(commits, resolved) {
      MergeUnique(shared, commits, resolved, updated, Merged(shared, commits, resolved));
    }
  }

  // ---------------------------------------------------------------- one whole sync

  ghost function Resolved(commits: Commits, scores: Scores, exp: real -> real): map<nat, nat> {
    if Disputes(commits) == map[] then map[] else Winners(scores, exp)
  }

  /** The consensus state after a sync that saw these commits and these scores. */
  ghost function SyncShared(shared: map<nat, nat>, commits: Commits, scores: Scores, exp: real -> real): map<nat, nat> {
    Merged(shared, commits, Resolved(commits, scores, exp))
  }

  /** A score report made from a view of the commits: every dispute in it, every token of it. */
  ghost predicate ScoresFor(report: ScoreMap, commits: Commits) {
    && report.Keys == Disputes(commits).Keys
    && forall p :: p in report ==> report[p].Keys == Disputes(commits)[p]
  }

  /** Whatever else was delivered, a node's own scores resolve all the disputes it sees. */
  lemma OwnScoresCover(commits: Commits, scores: Scores, exp: real -> real, self: NodeId)
    requires Disputes(commits) != map[] ==> self in scores && ScoresFor(scores[self], commits)
    ensures Covered(commits, Resolved(commits, scores, exp))
    ensures Disputes(commits).Keys <= Resolved(commits, scores, exp).Keys
  {
    var resolved := Resolved(commits, scores, exp);
    forall p | p in Disputes(commits)
      ensures p in resolved
    {
      assert Disputes(commits)[p] != {};
      var t := Pick(Disputes(commits)[p]);
      assert t in scores[self][p].Keys;
      assert p in ScoredPositions(scores) && t in ScoredTokens(scores, p);
      assert t in TotalsAt(scores, exp, p).Keys;
    }
    forall p | p in ProposedPositions(commits) && p !in resolved
      ensures |ProposedAt(commits, p)| == 1
    {
      assert p !in Disputes(commits);
      ProposedSomething(commits, p);
      SubsetSize({Pick(ProposedAt(commits, p))}, ProposedAt(commits, p));
    }
  }

  lemma CandidateProposed(commits: Commits, scores: Scores, pos: nat, t: nat)
    requires forall n :: n in scores ==> ScoresFor(scores[n], commits)
    requires t in ScoredTokens(scores, pos)
    ensures t in ProposedAt(commits, pos)
  {
    var n :| n in scores && pos in scores[n] && t in scores[n][pos];
    assert ScoresFor(scores[n], commits);
    assert t in scores[n][pos].Keys;
  }

  lemma SyncKeys(shared: map<nat, nat>, commits: Commits, scores: Scores, exp: real -> real)
    ensures var r := SyncShared(shared, commits, scores, exp);
            && r.Keys == shared.Keys + ProposedPositions(commits)
            && (forall p :: p in shared && p !in ProposedPositions(commits) ==> r[p] == shared[p])
  {
    hide ProposedPositions, Resolved, ProposedAt, Merged;
  }

  /** A sync only adds the committed positions and leaves the others alone; when every report it
      used was made from the same commits, each token it wrote was proposed there. */
  lemma SyncWrites(shared: map<nat, nat>, commits: Commits, scores: Scores, exp: real -> real)
    ensures var r := SyncShared(shared, commits, scores, exp);
            && r.Keys == shared.Keys + ProposedPositions(commits)
            && (forall p :: p in shared && p !in ProposedPositions(commits) ==> r[p] == shared[p])
            && ((forall n :: n in scores ==> ScoresFor(scores[n], commits)) ==>
                  forall p :: p in ProposedPositions(commits) ==> r[p] in ProposedAt(commits, p))
  {
    hide ProposedPositions, ScoredTokens, Disputes, ProposedAt, Total;
    var r := SyncShared(shared, commits, scores, exp);
    if forall n :: n in scores ==> ScoresFor(scores[n], commits) {
      forall p | p in ProposedPositions(commits)
        ensures r[p] in ProposedAt(commits, p)
      {
        var resolved := Resolved(commits, scores, exp);
        if p in resolved {
          assert r[p] == Winner(TotalsAt(scores, exp, p));
          CandidateProposed(commits, scores, p, r[p]);
        }
      }
    }
  }

  lemma TotalIsProbability(scores: Scores, exp: real -> real, log: real -> real, prob: (NodeId, nat, nat) -> real,
      pos: nat, t: nat)
    requires forall q :: q > 0.0 ==> exp(log(q)) == q
    requires forall n :: n in scores ==>
               pos in scores[n] && t in scores[n][pos] && scores[n][pos][t] == LogProb(log, prob(n, pos, t))
    ensures Total(scores, exp, pos, t) == SumOver(scores.Keys, n => Clamp(prob(n, pos, t)))
  {
    var f, g := n => Vote(scores, exp, n, pos, t), n => Clamp(prob(n, pos, t));
    forall n | n in scores
      ensures f(n) == g(n)
    {
      assert exp(log(Clamp(prob(n, pos, t)))) == Clamp(prob(n, pos, t));
    }
    SumMonotone(scores.Keys, f, g);
  }

  /** The scores are logarithms of probabilities kept away from zero, so what decides a dispute is
      the plain sum of those probabilities: no reporter can veto a token with a near-zero one. */
  lemma ScoresAverageProbabilities(scores: Scores, exp: real -> real, log: real -> real,
      prob: (NodeId, nat, nat) -> real, pos: nat, a: nat, b: nat)
    requires forall q :: q > 0.0 ==> exp(log(q)) == q
    requires forall n :: n in scores ==>
               pos in scores[n] && a in scores[n][pos] && scores[n][pos][a] == LogProb(log, prob(n, pos, a))
    requires forall n :: n in scores ==>
               pos in scores[n] && b in scores[n][pos] && scores[n][pos][b] == LogProb(log, prob(n, pos, b))
    requires SumOver(scores.Keys, n => Clamp(prob(n, pos, a))) > SumOver(scores.Keys, n => Clamp(prob(n, pos, b)))
    ensures pos in Winners(scores, exp) && Winners(scores, exp)[pos] != b
  {
    hide Total;
    TotalIsProbability(scores, exp, log, prob, pos, a);
    TotalIsProbability(scores, exp, log, prob, pos, b);
    assert scores.Keys != {};
    var n := Pick(scores.Keys);
    assert a in scores[n][pos] && b in scores[n][pos];
    var totals := TotalsAt(scores, exp, pos);
    assert a in ScoredTokens(scores, pos) && b in ScoredTokens(scores, pos);
    assert a in totals && b in totals && pos in ScoredPositions(scores);
    assert !Beats(totals, b, a);
  }

  const LEAST_PROB: real := 0.000000000001

  function Clamp(p: real): real {
    if p < LEAST_PROB then LEAST_PROB else p
  }

  /** `p.clamp_min(1e-12).log()` */
  function LogProb(log: real -> real, p: real): real {
    log(Clamp(p))
  }
}
