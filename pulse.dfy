/** The message envelope that every stream in the core carries.  The file
    that defines it (lib/pulse.js) is not part of this model; what the
    streams rely on is modelled abstractly: a topic, an optional origin, a
    payload sequence, a visitation map from node id to status (`has`,
    `tag`), and a membership test of the topic against a capability list
    (`match`).  The schema a pulse matches is identified with its topic. */
module Pulses {
  import opened Wrappers
  import opened Values

  type NodeId = string
  type Key = string

  /** The status `tag(id, status)` records: `true`, `false`, or none given. */
  datatype Status = Unset | Accepted | Rejected

  datatype Pulse = Pulse(
    topic: Key,
    origin: Option<NodeId>,
    payload: seq<Value>,
    visited: map<NodeId, Status>)
  {
    /** `pulse.has(id)`: some node with this id has tagged the pulse. */
    predicate Has(id: NodeId) {
      id in visited
    }

    /** `pulse.tag(id, status)`: records the visit and returns the pulse.
        Nothing but the visitation record of `id` changes. */
    function Tag(id: NodeId, status: Status): (q: Pulse)
      ensures q.Has(id) && q.visited[id] == status
      ensures q.topic == topic && q.origin == origin && q.payload == payload
      ensures forall n :: n != id ==> (q.Has(n) <==> Has(n))
      ensures forall n :: n != id && n in visited ==> n in q.visited && q.visited[n] == visited[n]
    {
      this.(visited := visited[id := status])
    }

    /** `pulse.add(...values)`: appends to the payload. */
    function Add(values: seq<Value>): (q: Pulse)
      ensures |q.payload| == |payload| + |values|
      ensures q.payload[..|payload|] == payload && q.payload[|payload|..] == values
      ensures q.topic == topic && q.origin == origin && q.visited == visited
    {
      this.(payload := payload + values)
    }

    /** `pulse.match(keys)`: the pulse's topic is one of the keys. */
    predicate Match(keys: seq<Key>) {
      topic in keys
    }
  }

  /** `new Pulse(topic, origin)`: empty payload, no visit recorded. */
  function NewPulse(topic: Key, origin: Option<NodeId>): (p: Pulse)
    ensures p.topic == topic && p.origin == origin && p.payload == []
    ensures forall n :: !p.Has(n)
  {
    Pulse(topic, origin, [], map[])
  }
}
