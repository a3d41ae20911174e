/** The sockets of a node (node/transport.py) as far as the node can tell: a script of what each poll
    yields and how long it takes, a record of what was published, and the clock. */
module Transport {
  import opened Prelude
  import opened Consensus
  import opened Protocol

  /** One poll: a message or silence, after some time. Messages may come in any order, early, and more
      than once. */
  datatype Arrival = Arrival(env: Option<Envelope>, elapsed: real)

  /** What the node did with its sockets, in order. */
  datatype Act = Sent(env: Envelope) | Polled

  class Socket {
    var clock: real
    var script: seq<Arrival>
    var sent: seq<Envelope>
    ghost var acts: seq<Act>

    ghost predicate Valid()
      reads this`script
    {
      forall a :: a in script ==> a.elapsed >= 0.0
    }

    constructor (script: seq<Arrival>, clock: real)
      requires forall a :: a in script ==> a.elapsed >= 0.0
      ensures Valid() && this.script == script && this.clock == clock && sent == [] && acts == []
    {
      this.script, this.clock, sent, acts := script, clock, [], [];
    }

    method Publish(nodeId: NodeId, body: Body)
      modifies this`sent, this`acts
      ensures sent == old(sent) + [Envelope(nodeId, body)] && acts == old(acts) + [Sent(Envelope(nodeId, body))]
    {
      sent := sent + [Envelope(nodeId, body)];
      acts := acts + [Sent(Envelope(nodeId, body))];
    }

    /** When nothing more is to come, a poll waits its time out. */
    method PollRecv(timeout: real) returns (env: Option<Envelope>)
      requires Valid() && timeout > 0.0
      modifies this`clock, this`script, this`acts
      ensures Valid() && clock >= old(clock) && acts == old(acts) + [Polled]
      ensures if old(script) == [] then env == None && script == [] && clock == old(clock) + timeout
              else
                && env == old(script)[0].env && script == old(script)[1..]
                && clock == old(clock) + old(script)[0].elapsed
    {
      acts := acts + [Polled];
      if script == [] {
        clock := clock + timeout;
        return None;
      }
      env, clock, script := script[0].env, clock + script[0].elapsed, script[1..];
    }
  }
}
