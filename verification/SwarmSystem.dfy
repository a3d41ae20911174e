/** The whole swarm in one round: a machine per participant, a soup of everything ever published, and
    an inbox per participant that the soup feeds in any order, early, and any number of times.

    Barriers complete only when every other participant's message is there: no timeout and no abort. */
module SwarmSystem {
  import opened Prelude
  import opened Consensus
  import opened LocalStep
  import opened NodeMachine
  import opened Protocol
  import opened Inbox
  import opened Exchange
  import Invariant = NodeInvariant
  import Stop = StopDetection

  datatype Setup = Setup(cfg: Config, roundId: string, members: set<NodeId>, prompt: seq<nat>, log: real -> real)
  {
    predicate Valid() {
      cfg.Valid() && |prompt| == cfg.genStart
    }
  }

  datatype Participant = Participant(node: Node, store: Store)

  datatype Swarm = Swarm(parts: map<NodeId, Participant>, soup: set<Envelope>)
  {
    ghost function Node(i: NodeId): Node
      requires i in parts
    {
      parts[i].node
    }
  }

  function With(s: Swarm, i: NodeId, part: Participant, sent: set<Envelope>): Swarm {
    Swarm(s.parts[i := part], s.soup + sent)
  }

  // ---------------------------------------------------------------- behaviours

  ghost predicate Initial(su: Setup, s: Swarm)
    requires su.Valid()
  {
    && s.parts.Keys == su.members && s.soup == {}
    && forall i :: i in su.members ==> s.parts[i] == Participant(Start(su.cfg, i, su.prompt), map[])
  }

  datatype Action =
    | Work(i: NodeId, fwd: Forward, transfer: set<nat>, remask: set<nat>)
    | Publish(i: NodeId, positions: seq<nat>, tokens: seq<nat>, confidences: seq<real>)
    | Deliver(i: NodeId, env: Envelope)
    | CommitBarrier(i: NodeId, view: Commits)
    | ScoreBarrier(i: NodeId, scores: Scores)

  function CommitKey(su: Setup, st: Node): Key {
    Key(CommitKind, su.roundId, st.SyncSeq())
  }

  function ScoreKey(su: Setup, st: Node): Key {
    Key(ScoreKind, su.roundId, st.SyncSeq())
  }

  /** What `collect_until` returns once nobody is missing. */
  function Collected(su: Setup, part: Participant, key: Key): Bucket {
    From(BucketOf(part.store, key), su.members - {part.node.id})
  }

  ghost predicate ReadsCommits(su: Setup, part: Participant, view: Commits) {
    var got := Collected(su, part, CommitKey(su, part.node));
    && got.Keys == su.members - {part.node.id} && view.Keys == su.members
    && CommitsFrom(part.node.id, part.node.pending, got, view)
  }

  ghost predicate ReadsScores(su: Setup, part: Participant, view: Commits, scores: Scores) {
    var got := Collected(su, part, ScoreKey(su, part.node));
    && got.Keys == su.members - {part.node.id} && scores.Keys == su.members
    && ReportsFrom(part.node.id, OwnReport(su.log, part.node.p, Disputes(view)), got, scores)
  }

  ghost predicate Step(su: Setup, s: Swarm, a: Action, s': Swarm)
    requires su.Valid()
  {
    && a.i in su.members && a.i in s.parts && a.i in s'.parts
    && var part := s.parts[a.i];
       var st := part.node;
       match a
       case Work(i, fwd, transfer, remask) =>
         && LocalWork(su.cfg, st, fwd, transfer, remask, s'.parts[i].node)
         && s' == With(s, i, part.(node := s'.parts[i].node), {})
       case Publish(i, positions, tokens, confidences) =>
         && st.phase.Publishing? && IsFlattening(st.pending, positions, tokens, confidences)
         && s' == With(s, i, part.(node := st.(phase := AwaitCommits)),
                      {Envelope(i, Commit(su.roundId, st.SyncSeq(), positions, tokens, confidences))})
       case Deliver(i, env) =>
         env in s.soup && s' == With(s, i, part.(store := File(part.store, env)), {})
       case CommitBarrier(i, view) =>
         && st.phase.AwaitCommits? && ReadsCommits(su, part, view)
         && var store := Pop(part.store, CommitKey(su, st));
            if Disputes(view) == map[] then s' == With(s, i, Participant(Synced(su.cfg, st, view, map[]), store), {})
            else s' == With(s, i, Participant(st.(phase := AwaitScores(view)), store),
                           {Envelope(i, DisputeScore(su.roundId, st.SyncSeq(),
                               EncodeScores(OwnReport(su.log, st.p, Disputes(view)))))})
       case ScoreBarrier(i, scores) =>
         && st.phase.AwaitScores? && ReadsScores(su, part, st.phase.view, scores)
         && s' == With(s, i, Participant(Synced(su.cfg, st, st.phase.view, scores), Pop(part.store, ScoreKey(su, st))),
             {})
  }

  /** A run: any interleaving of the participants' moves and of deliveries, from the start of the round. */
  ghost predicate IsRun(su: Setup, trace: seq<Swarm>, actions: seq<Action>)
    requires su.Valid()
  {
    && |trace| == |actions| + 1 && Initial(su, trace[0])
    && forall k :: 0 <= k < |actions| ==> Step(su, trace[k], actions[k], trace[k + 1])
  }

  // ---------------------------------------------------------------- what a node has said

  predicate HasCommit(st: Node, n: nat) {
    n < st.SyncSeq() || (n == st.SyncSeq() && (st.phase.AwaitCommits? || st.phase.AwaitScores?))
  }

  ghost predicate HasScore(st: Node, n: nat) {
    (n < st.SyncSeq() && Disputes(st.log[n].view) != map[]) || (n == st.SyncSeq() && st.phase.AwaitScores?)
  }

  ghost function ReportOf(su: Setup, st: Node, n: nat): ScoreMap {
    if n < st.SyncSeq() then (if st.id in st.log[n].scores then st.log[n].scores[st.id] else map[])
    else if st.phase.AwaitScores? then OwnReport(su.log, st.p, Disputes(st.phase.view)) else map[]
  }

  /** The only messages a node ever sends: one COMMIT per sync, and one report when it saw a dispute. */
  ghost predicate Genuine(su: Setup, st: Node, body: Body) {
    match body
    case Commit(r, n, positions, tokens, confidences) =>
      r == su.roundId && HasCommit(st, n) && IsFlattening(CommitOf(st, n), positions, tokens, confidences)
    case DisputeScore(r, n, scores) =>
      r == su.roundId && HasScore(st, n) && scores == EncodeScores(ReportOf(su, st, n))
    case _ => false
  }

  /** What a node has said it keeps saying. */
  ghost predicate Steady(su: Setup, a: Node, b: Node) {
    && b.id == a.id && a.log <= b.log
    && (forall n :: HasCommit(a, n) ==> HasCommit(b, n) && CommitOf(b, n) == CommitOf(a, n))
    && (forall n :: HasScore(a, n) ==> HasScore(b, n) && ReportOf(su, b, n) == ReportOf(su, a, n))
  }

  // ---------------------------------------------------------------- the invariant

  ghost predicate ViewFrom(su: Setup, s: Swarm, n: nat, view: Commits)
    requires s.parts.Keys == su.members
  {
    && view.Keys == su.members
    && forall j :: j in su.members ==> HasCommit(s.Node(j), n) && view[j] == CommitOf(s.Node(j), n)
  }

  ghost predicate ScoresFrom(su: Setup, s: Swarm, n: nat, scores: Scores)
    requires s.parts.Keys == su.members
  {
    && scores.Keys == su.members
    && forall j :: j in su.members ==> HasScore(s.Node(j), n) && scores[j] == ReportOf(su, s.Node(j), n)
  }

  ghost predicate RecordFrom(su: Setup, s: Swarm, n: nat, r: SyncRecord)
    requires s.parts.Keys == su.members
  {
    && ViewFrom(su, s, n, r.view)
    && (if Disputes(r.view) == map[] then r.scores == map[] else ScoresFrom(su, s, n, r.scores))
  }

  /** Everything a node used in its syncs is what the others said. */
  ghost predicate Witnessed(su: Setup, s: Swarm, st: Node)
    requires s.parts.Keys == su.members
  {
    && (forall n :: 0 <= n < |st.log| ==> RecordFrom(su, s, n, st.log[n]))
    && (st.phase.AwaitScores? ==> ViewFrom(su, s, st.SyncSeq(), st.phase.view) && Disputes(st.phase.view) != map[])
  }

  function AgreedAt(su: Setup, st: Node, n: nat): Agreed
    requires n <= |st.log|
  {
    if n == 0 then Agreed(map p: nat | p < |su.prompt| :: su.prompt[p], Stop.FRESH, 0, 0, false)
        else st.log[n - 1].agreed
  }

  ghost predicate Link(su: Setup, before: Agreed, r: SyncRecord)
    requires su.Valid()
  {
    && !before.done && r.block == before.block
    && r.agreed == Outcome(su.cfg, before.shared, before.det, r.block, r.step, r.view, r.scores)
  }

  /** A node's history is a chain of outcomes that ends in its present state. */
  ghost predicate Chained(su: Setup, st: Node)
    requires su.Valid()
  {
    && (forall n :: 0 <= n < |st.log| ==> Link(su, AgreedAt(su, st, n), st.log[n]))
    && var now := AgreedAt(su, st, |st.log|);
       && st.shared == now.shared && st.det == now.det && st.block == now.block && (st.phase.Done? <==> now.done)
  }

  /** The node's own report of every dispute it saw is made of the distribution it then had. */
  ghost predicate OwnReported(su: Setup, st: Node) {
    forall n :: 0 <= n < |st.log| && Disputes(st.log[n].view) != map[] ==>
      && st.id in st.log[n].scores
      && st.log[n].scores[st.id] == OwnReport(su.log, st.log[n].p, Disputes(st.log[n].view))
  }

  ghost predicate NodeOk(su: Setup, i: NodeId, st: Node)
    requires su.Valid()
  {
    st.id == i && Invariant.Inv(su.cfg, st) && Chained(su, st)
  }

  /** An inbox holds published messages only, each in its bucket. */
  ghost predicate StoreOk(soup: set<Envelope>, store: Store) {
    forall key, j :: key in store && j in store[key] ==>
      Envelope(j, store[key][j]) in soup && KeyOf(store[key][j]) == Some(key)
  }

  ghost predicate Published(soup: set<Envelope>, i: NodeId, key: Key) {
    exists e :: e in soup && e.nodeId == i && KeyOf(e.body) == Some(key)
  }

  /** A node has published what it counts as said. */
  ghost predicate Said(su: Setup, soup: set<Envelope>, st: Node) {
    && (forall n :: HasCommit(st, n) ==> Published(soup, st.id, Key(CommitKind, su.roundId, n)))
    && (forall n :: HasScore(st, n) ==> Published(soup, st.id, Key(ScoreKind, su.roundId, n)))
  }

  ghost predicate SoupOk(su: Setup, s: Swarm)
    requires s.parts.Keys == su.members
  {
    forall e :: e in s.soup ==> e.nodeId in su.members && Genuine(su, s.Node(e.nodeId), e.body)
  }

  /** Nodes in order, each of which used in its syncs what the others said. */
  ghost predicate Coherent(su: Setup, s: Swarm)
    requires su.Valid()
  {
    && s.parts.Keys == su.members
    && (forall i :: i in su.members ==> NodeOk(su, i, s.Node(i)))
    && (forall i :: i in su.members ==> Witnessed(su, s, s.Node(i)))
  }

  ghost predicate SwarmInv(su: Setup, s: Swarm)
    requires su.Valid()
  {
    && Coherent(su, s)
    && (forall i :: i in su.members ==> StoreOk(s.soup, s.parts[i].store))
    && (forall i :: i in su.members ==> Said(su, s.soup, s.Node(i)))
    && SoupOk(su, s)
  }
}
