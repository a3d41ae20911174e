/** Rounds in which a freeze inside the block costs the prompt and, with two nodes, the mirror between sequence and
    shared state: one block of two positions, a sync after every step. The model settles an EOS token first, the
    sync confirms the boundary there, and the last step, whose quota counts the mask behind the boundary, may write
    to the prompt and commit that. */
module FrozenRound {
  import opened Prelude
  import opened Consensus
  import opened LocalStep
  import opened NodeMachine
  import opened NodeRuns
  import opened SwarmSystem
  import Invariant = NodeInvariant
  import Safety = SwarmSafety
  import StepFacts
  import Quota
  import Stop = StopDetection

  const PROMPT: seq<nat> := [7]

  function Setting(exp: real -> real): Config {
    Config(1, 3, 2, 1, 2, 1, 10, StepConfig(0, 5, -1.0, 0.0, 100, 0.0, 1.0), Stop.StopConfig(5, 0, 0, 1, 1), exp)
  }

  /** EOS, trusted, everywhere but at the prompt's position. */
  function Model(): Forward {
    Forward((_, _) => 0.5, i => if i == 0 then 9 else 5, _ => 0.0)
  }

  // ---------------------------------------------------------------- a sync without disputes

  ghost predicate Undisputed(view: Commits) {
    forall j, k, p :: j in view && k in view && p in view[j] && p in view[k] ==> view[j][p].token == view[k][p].token
  }

  lemma OneToken(view: Commits, j: NodeId, p: nat)
    requires Undisputed(view) && j in view && p in view[j]
    ensures p in ProposedPositions(view) && ProposedAt(view, p) == {view[j][p].token}
  {
  }

  lemma NoDispute(view: Commits)
    requires Undisputed(view)
    ensures Disputes(view) == map[]
  {
    forall p: nat | p in ProposedPositions(view)
      ensures |ProposedAt(view, p)| == 1
    {
      var j :| j in view && p in view[j];
      OneToken(view, j, p);
    }
    assert Disputes(view).Keys == {};
  }

  /** Without a dispute every commit is shared as it is. */
  lemma UndisputedSync(shared: map<nat, nat>, view: Commits, exp: real -> real)
    requires Undisputed(view)
    ensures var r := SyncShared(shared, view, map[], exp);
            && r.Keys == shared.Keys + ProposedPositions(view)
            && (forall j, p :: j in view && p in view[j] ==> p in r && r[p] == view[j][p].token)
            && (forall p :: p in shared && p !in ProposedPositions(view) ==> r[p] == shared[p])
  {
    NoDispute(view);
    hide Disputes, ProposedPositions, ProposedAt, Merged, Undisputed;
    var r := SyncShared(shared, view, map[], exp);
    forall j, p | j in view && p in view[j]
      ensures p in r && r[p] == view[j][p].token
    {
      OneToken(view, j, p);
    }
  }

  lemma UndisputedView(st: Node, view: Commits)
    requires Undisputed(view) && st.id in view && view[st.id] == st.pending
    ensures OwnView(st, view, map[])
  {
    NoDispute(view);
    hide Disputes;
  }

  /** Two nodes of the same commits, or one alone. */
  lemma ProposedBy(view: Commits)
    requires forall j :: j in view ==> view[j] == map[1 := Proposal(5, 0.5)]
    requires view != map[]
    ensures Undisputed(view) && ProposedPositions(view) == {1}
  {
    assert view.Keys != {};
    var j := Pick(view.Keys);
    assert j in view && 1 in view[j];
  }

  // ---------------------------------------------------------------- the first window

  lemma NothingReopened(s: StepInput)
    requires |s.x| == |s.age| && s.cfg == Setting(r => r).step && s.stepsPerBlock == 2 && s.stepsRemaining <= 2
    ensures s.IsRemask({})
  {
    assert Round(2.0) == 2;
  }

  lemma FirstTransfer(s: StepInput)
    requires s.Valid() && s.cfg == Setting(r => r).step && s.fwd == Model() && s.x == [7, 0, 0] && s.stepsRemaining == 2
    requires s.blockStart == 1 && s.blockEnd == 3 && s.frozenFrom == None
    ensures s.IsTransfer({1})
  {
    assert s.Masked() == {1, 2} && s.Candidates() == {1, 2};
    Quota.ShareOf(1, 2, 0, 2);
    hide Quota.Share;
    assert s.Everywhere() == {0, 1, 2};
  }

  lemma Opens(exp: real -> real, id: NodeId) returns (st: Node)
    ensures Setting(exp).Valid() && st == Start(Setting(exp), id, PROMPT)
    ensures st.phase == Stepping && st.block == 0 && st.step == 0 && st.x == [7, 0, 0] && |st.age| == 3
    ensures st.shared == map[0 := 7] && st.pending == map[] && st.det == Stop.FRESH && st.id == id && st.log == []
  {
    st := Start(Setting(exp), id, PROMPT);
    assert st.x == [7, 0, 0];
    assert st.shared == map[0 := 7];
  }

  /** The first step settles EOS at the first position. */
  lemma FirstStep(exp: real -> real, st: Node) returns (st': Node)
    requires Setting(exp).Valid()
    requires st.phase == Stepping && st.block == 0 && st.step == 0 && st.x == [7, 0, 0] && |st.age| == 3
    requires st.pending == map[] && st.det == Stop.FRESH
    ensures NodeStep(Setting(exp), st, st')
    ensures st'.phase == Publishing && st'.block == 0 && st'.step == 0 && st'.x == [7, 5, 0] && |st'.age| == 3
    ensures st'.shared == st.shared && st'.det == st.det && st'.id == st.id && st'.log == st.log
    ensures st'.pending == map[1 := Proposal(5, 0.5)]
  {
    var cfg := Setting(exp);
    hide StepInput.IsTransfer, StepInput.IsRemask, StepInput.Contained, StepInput.NextX;
    var s := Input(cfg, st, Model());
    FirstTransfer(s);
    NothingReopened(s);
    FirstTokens(s);
    st' := Worked(cfg, st, Model(), {1}, {});
    assert LocalWork(cfg, st, Model(), {1}, {}, st');
    assert Settled(Model(), {1}) == map[1 := Proposal(5, 0.5)];
  }

  lemma FirstTokens(s: StepInput)
    requires s.fwd == Model() && s.x == [7, 0, 0]
    ensures s.NextX({1}, {}) == [7, 5, 0]
  {
    var x := s.NextX({1}, {});
    assert x[0] == s.NextToken({1}, {}, 0) && x[1] == s.NextToken({1}, {}, 1) && x[2] == s.NextToken({1}, {}, 2);
  }

  lemma FirstReading(exp: real -> real, shared: map<nat, nat>)
    requires shared == map[0 := 7, 1 := 5]
    ensures Stop.Step(Setting(exp).stop, Stop.FRESH, Stop.Read(Setting(exp).stop, shared, 1, 3)).stop == Some(1)
  {
    var cfg := Setting(exp).stop;
    assert Stop.IsFrontier(shared, 1, 3, 2) && Stop.Qualifies(cfg, shared, 1, 2, 1);
    Stop.ReadingUnique(cfg, shared, 1, 3, Stop.Read(cfg, shared, 1, 3), Stop.Qualified(1));
  }

  /** A sync in which everybody settled that confirms the boundary there. */
  lemma FirstSync(exp: real -> real, st: Node, view: Commits) returns (st': Node)
    requires Setting(exp).Valid()
    requires st.phase == Publishing && st.block == 0 && st.step == 0 && st.x == [7, 5, 0] && |st.age| == 3
    requires st.shared == map[0 := 7] && st.pending == map[1 := Proposal(5, 0.5)] && st.det == Stop.FRESH
    requires st.id in view && forall j :: j in view ==> view[j] == st.pending
    ensures NodeStep(Setting(exp), st, st') && st' == Synced(Setting(exp), st, view, map[])
    ensures st'.phase == Stepping && st'.block == 0 && st'.step == 1 && st'.x == [7, 5, 0] && |st'.age| == 3
    ensures st'.shared == map[0 := 7, 1 := 5] && st'.pending == map[] && st'.det.stop == Some(1) && st'.id == st.id
  {
    var cfg := Setting(exp);
    hide SyncShared, Stop.Read, OwnView, Undisputed, ProposedPositions;
    st' := Synced(cfg, st, view, map[]);
    ProposedBy(view);
    UndisputedView(st, view);
    UndisputedSync(st.shared, view, exp);
    assert 1 in view[st.id];
    assert st'.shared == map[0 := 7, 1 := 5];
    FirstReading(exp, st'.shared);
    assert SyncStep(cfg, st, st');
    assert st'.x == [7, 5, 0];
  }

  // ---------------------------------------------------------------- the second window

  lemma LastTransfer(s: StepInput, q: nat)
    requires s.Valid() && s.cfg == Setting(r => r).step && s.x == [7, 5, 0] && s.stepsRemaining == 1 && q < 3
    requires s.blockStart == 1 && s.blockEnd == 3 && s.frozenFrom == Some(1)
    ensures s.IsTransfer({q}) && !s.Contained()
  {
    hide StepInput.IsTransfer, StepInput.Masked, StepInput.Candidates, StepInput.Everywhere, Quota.Share;
    StepFacts.FrozenMasks(s);
    Quota.ShareBounds(1, 1);
    Anywhere(s, q);
    StepFacts.AnythingMayBeTaken(s, {q});
  }

  lemma Anywhere(s: StepInput, q: nat)
    requires q < |s.x|
    ensures {q} <= s.Everywhere()
  {
  }

  /** The last step must settle one position, finds no candidate, and may take any. */
  lemma LastStep(exp: real -> real, st: Node, q: nat) returns (st': Node)
    requires Setting(exp).Valid() && q < 3
    requires st.phase == Stepping && st.block == 0 && st.step == 1 && st.x == [7, 5, 0] && |st.age| == 3
    requires st.pending == map[] && st.det.stop == Some(1)
    ensures NodeStep(Setting(exp), st, st')
    ensures st'.phase == Publishing && st'.block == 0 && st'.step == 1
    ensures var token := if q == 0 then 9 else 5;
            st'.x == [7, 5, 0][q := token] && st'.pending == map[q := Proposal(token, 0.5)]
    ensures st'.shared == st.shared && st'.id == st.id
    ensures st'.log == st.log && st'.det == st.det
  {
    var cfg := Setting(exp);
    hide StepInput.IsTransfer, StepInput.IsRemask, StepInput.Contained, StepInput.NextX, StepInput.NextAge;
    var s := Input(cfg, st, Model());
    LastTransfer(s, q);
    NothingReopened(s);
    LastTokens(s, q);
    st' := Worked(cfg, st, Model(), {q}, {});
    assert LocalWork(cfg, st, Model(), {q}, {}, st');
    assert Settled(Model(), {q}) == map[q := Proposal(Model().x0(q), 0.5)];
  }

  lemma LastTokens(s: StepInput, q: nat)
    requires s.fwd == Model() && s.x == [7, 5, 0] && q < 3
    ensures s.NextX({q}, {}) == [7, 5, 0][q := Model().x0(q)]
  {
    var x := s.NextX({q}, {});
    assert x[0] == s.NextToken({q}, {}, 0) && x[1] == s.NextToken({q}, {}, 1) && x[2] == s.NextToken({q}, {}, 2);
  }

  lemma LastSync(exp: real -> real, st: Node, view: Commits) returns (st': Node)
    requires Setting(exp).Valid() && Undisputed(view)
    requires st.phase == Publishing && st.block == 0 && st.step == 1 && |st.x| == 3
    requires st.id in view && view[st.id] == st.pending
    ensures NodeStep(Setting(exp), st, st') && st' == Synced(Setting(exp), st, view, map[])
    ensures st'.phase == Done && st'.shared == SyncShared(st.shared, view, map[], exp)
    ensures |st'.x| == 3 && st'.x[0] == st.x[0]
  {
    var cfg := Setting(exp);
    hide SyncShared, Stop.Read, Stop.Step, OwnView, Undisputed;
    st' := Synced(cfg, st, view, map[]);
    UndisputedView(st, view);
    assert SyncStep(cfg, st, st');
    assert st'.x[0] == Overlaid(cfg, st.block, st'.shared, st.x, 0);
  }

  // ---------------------------------------------------------------- whole rounds

  /** The round up to its last step. */
  lemma FrozenPath(exp: real -> real, id: NodeId, view: Commits) returns (path: seq<Node>)
    requires id in view && forall j :: j in view ==> view[j] == map[1 := Proposal(5, 0.5)]
    ensures Setting(exp).Valid() && path != [] && IsNodeRun(Setting(exp), id, PROMPT, path)
    ensures var st := path[|path| - 1];
            && st.phase == Stepping && st.block == 0 && st.step == 1 && st.x == [7, 5, 0] && |st.age| == 3
            && st.shared == map[0 := 7, 1 := 5] && st.pending == map[] && st.det.stop == Some(1) && st.id == id
            && |st.log| == 1 && st.log[0].view == view && st.log[0].scores == map[]
  {
    hide NodeStep, Start, Synced, Outcome;
    var n0 := Opens(exp, id);
    var n1 := FirstStep(exp, n0);
    var n2 := FirstSync(exp, n1, view);
    SyncedRecord(Setting(exp), n1, view, map[]);
    path := [n0, n1, n2];
    forall k: nat | k + 1 < |path|
      ensures NodeStep(Setting(exp), path[k], path[k + 1])
    {
    }
  }

  /** And to its end, when the last step takes position q. */
  lemma WholeRound(exp: real -> real, id: NodeId, first: Commits, last: Commits, q: nat) returns (path: seq<Node>)
    requires id in first && q < 3 && forall j :: j in first ==> first[j] == map[1 := Proposal(5, 0.5)]
    requires Undisputed(last) && id in last && last[id] == map[q := Proposal(if q == 0 then 9 else 5, 0.5)]
    ensures Setting(exp).Valid() && path != [] && IsNodeRun(Setting(exp), id, PROMPT, path)
    ensures var st := path[|path| - 1];
            && st.id == id && st.phase.Done? && st.shared == SyncShared(map[0 := 7, 1 := 5], last, map[], exp)
            && |st.x| == 3 && st.x[0] == (if q == 0 then 9 else 7)
            && |st.log| == 2 && st.log[0].view == first && st.log[1].view == last && st.window == []
            && st.log[0].scores == map[] && st.log[1].scores == map[]
  {
    hide NodeStep, Start, IsNodeRun, Undisputed, SyncShared, Synced, Outcome;
    path := FrozenPath(exp, id, first);
    var st := LastStep(exp, path[|path| - 1], q);
    var st' := LastSync(exp, st, last);
    SyncedRecord(Setting(exp), st, last, map[]);
    Extend(Setting(exp), id, PROMPT, path, st);
    Extend(Setting(exp), id, PROMPT, path + [st], st');
    path := path + [st] + [st'];
  }

  /** So a round of the code may return a text whose prompt it has overwritten. */
  lemma FreezeMayCostThePrompt(exp: real -> real, id: NodeId) returns (path: seq<Node>)
    ensures Setting(exp).Valid() && IsNodeRun(Setting(exp), id, PROMPT, path)
    ensures var st := path[|path| - 1];
            st.phase.Done? && 0 in st.shared && st.shared[0] == 9 != PROMPT[0]
  {
    hide NodeStep, Start, IsNodeRun, SyncShared;
    var last: Commits := map[id := map[0 := Proposal(9, 0.5)]];
    path := WholeRound(exp, id, map[id := map[1 := Proposal(5, 0.5)]], last, 0);
    UndisputedSync(map[0 := 7, 1 := 5], last, exp);
    assert 0 in last[id];
  }

  /** What the two nodes commit in the last sync: one has taken the prompt, the other the mask. */
  function LastView(a: NodeId, b: NodeId): Commits {
    map[a := map[0 := Proposal(9, 0.5)], b := map[2 := Proposal(5, 0.5)]]
  }

  ghost function Pair(a: NodeId, st: Node, b: NodeId, st': Node): Swarm {
    Swarm(map[a := Participant(st, map[]), b := Participant(st', map[])], {})
  }

  /** The two nodes at the end: each has seen all that both committed. */
  ghost predicate Saw(st: Node, first: Commits, last: Commits) {
    && st.phase.Done? && |st.log| == 2 && st.log[0].view == first && st.log[1].view == last
    && st.log[0].scores == map[] && st.log[1].scores == map[]
  }

  lemma PairView(su: Setup, a: NodeId, x: Node, b: NodeId, y: Node, n: nat, view: Commits)
    requires su.members == {a, b} && a != b && x.id == a && y.id == b && view.Keys == {a, b}
    requires n < |x.log| && n < |y.log| && x.log[n].view == y.log[n].view == view
    ensures ViewFrom(su, Pair(a, x, b, y), n, view)
  {
    var s := Pair(a, x, b, y);
    assert s.parts.Keys == {a, b} && s.Node(a) == x && s.Node(b) == y;
  }

  lemma PairCoheres(su: Setup, a: NodeId, x: Node, b: NodeId, y: Node, first: Commits, last: Commits)
    requires su.Valid() && su.members == {a, b} && a != b && first.Keys == last.Keys == {a, b}
    requires NodeOk(su, a, x) && NodeOk(su, b, y) && Saw(x, first, last) && Saw(y, first, last)
    requires Disputes(first) == map[] && Disputes(last) == map[]
    ensures Coherent(su, Pair(a, x, b, y))
  {
    hide Invariant.Inv, Chained, Disputes, ViewFrom;
    PairView(su, a, x, b, y, 0, first);
    PairView(su, a, x, b, y, 1, last);
    var s := Pair(a, x, b, y);
    assert Witnessed(su, s, x) && Witnessed(su, s, y);
  }

  lemma LastUndisputed(a: NodeId, b: NodeId)
    requires a != b
    ensures Undisputed(LastView(a, b))
    ensures ProposedPositions(LastView(a, b)) == {0, 2}
  {
    var view := LastView(a, b);
    assert a in view && 0 in view[a] && b in view && 2 in view[b];
  }

  /** And with two nodes that miss nothing of each other one may end with another token in its sequence than both of
      them share: what a freeze leaves of the sequence outside the block need not agree. */
  lemma FreezeMayCostTheMirror(exp: real -> real, log: real -> real, roundId: string, a: NodeId, b: NodeId)
    returns (su: Setup, s: Swarm)
    requires a != b
    ensures su.Valid() && su.members == {a, b} && Coherent(su, s)
    ensures var x, y := s.Node(a), s.Node(b);
            && x.phase.Done? && y.phase.Done? && x.window == y.window == [] && x.shared == y.shared && 0 in x.shared
            && |x.x| == |y.x| == 3 && x.x[0] == x.shared[0] != y.x[0]
  {
    su := Setup(Setting(exp), roundId, {a, b}, PROMPT, log);
    hide NodeStep, Start, IsNodeRun, SyncShared, Coherent, Undisputed, ProposedPositions, Disputes, NodeOk, Model;
    var settled: CommitMap := map[1 := Proposal(5, 0.5)];
    var first: Commits := map[a := settled, b := settled];
    assert a in first && first.Keys == {a, b};
    ProposedBy(first);
    LastUndisputed(a, b);
    var pathA := WholeRound(exp, a, first, LastView(a, b), 0);
    var pathB := WholeRound(exp, b, first, LastView(a, b), 2);
    var x, y := pathA[|pathA| - 1], pathB[|pathB| - 1];
    Safety.RunInOrder(su, a, pathA, |pathA| - 1);
    Safety.RunInOrder(su, b, pathB, |pathB| - 1);
    NoDispute(first);
    NoDispute(LastView(a, b));
    PairCoheres(su, a, x, b, y, first, LastView(a, b));
    UndisputedSync(map[0 := 7, 1 := 5], LastView(a, b), exp);
    assert 0 in LastView(a, b)[a];
    s := Pair(a, x, b, y);
  }
}
