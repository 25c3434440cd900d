/** The capability router of lib/persona.js.  A Persona is a Dataflow (its
    own `stream`, whose id is the Persona's id) with a separate `core`
    Dataflow into which its children are joined.  The children are modelled
    as a value tree: a leaf reaction declares its `requires`, `inputs` and
    `outputs`; a nested Persona declares what its own capability cache
    computes. */
module Personas {
  import opened Wrappers
  import opened Values
  import opened Pulses
  import opened Dataflows

  /** A flow joined into a core: a reaction, a nested Persona with its own
      children, or a plain Dataflow. */
  datatype Flow =
    | ReactionFlow(id: NodeId, required: seq<Key>, inputs: seq<Key>, outputs: seq<Key>)
    | PersonaFlow(id: NodeId, passive: bool, flows: seq<Flow>)
    | DataflowFlow(id: NodeId)

  /** The memoised capability record, with the ids of the reactions that
      run on every accepted pulse. */
  datatype Cache = Cache(
    reactions: seq<NodeId>,
    required: seq<Key>,
    inputs: seq<Key>,
    outputs: seq<Key>,
    consumes: seq<Key>,
    absorbs: seq<Key>)

  /** The property names `extractUniqueKeys` reads from each flow. */
  datatype Field = Requires | Inputs | Outputs

  /** Which flows of the core a union is taken over. */
  datatype Kind = Reactions | Personas

  // -----------------------------------------------------------------------
  // extractUniqueKeys: concatenation, then `Array.from(new Set(keys))`
  // -----------------------------------------------------------------------

  predicate NoDups(s: seq<Key>) {
    forall i, j :: 0 <= i < j < |s| ==> s[i] != s[j]
  }

  /** `Array.from(new Set(keys))`: each key once, at its first occurrence. */
  function Dedup(s: seq<Key>): (d: seq<Key>)
    ensures NoDups(d)
    ensures forall k :: k in d <==> k in s
    ensures |d| <= |s|
  {
    if s == [] then []
    else
      var d := Dedup(s[..|s| - 1]);
      if s[|s| - 1] in d then d else d + [s[|s| - 1]]
  }

  /** An independent reading of "first-occurrence order": walk the keys from
      the front, keeping each key not kept before. */
  function FirstOccurrences(s: seq<Key>, seen: set<Key>): seq<Key> {
    if s == [] then []
    else if s[0] in seen then FirstOccurrences(s[1..], seen)
    else [s[0]] + FirstOccurrences(s[1..], seen + {s[0]})
  }

  lemma {:induction false} FirstOccurrencesSnoc(s: seq<Key>, seen: set<Key>, x: Key)
    ensures FirstOccurrences(s + [x], seen)
            == FirstOccurrences(s, seen) + (if x in seen || x in s then [] else [x])
    decreases |s|
  {
    if s == [] {
      assert [x][1..] == [];
    } else {
      assert (s + [x])[1..] == s[1..] + [x];
      if s[0] in seen {
        FirstOccurrencesSnoc(s[1..], seen, x);
      } else {
        FirstOccurrencesSnoc(s[1..], seen + {s[0]}, x);
      }
    }
  }

  /** The set-based deduplication keeps exactly the first occurrences, in
      the order they occur. */
  lemma {:induction false} DedupKeepsFirstOccurrences(s: seq<Key>)
    ensures Dedup(s) == FirstOccurrences(s, {})
    decreases |s|
  {
    if s != [] {
      var front := s[..|s| - 1];
      DedupKeepsFirstOccurrences(front);
      FirstOccurrencesSnoc(front, {}, s[|s| - 1]);
      assert front + [s[|s| - 1]] == s;
    }
  }

  /** The keys one flow declares under `name`: a reaction's own list, a
      nested Persona's cached union, nothing for a plain Dataflow. */
  function Declared(f: Flow, name: Field): seq<Key>
    decreases f, 0
  {
    match f
    case ReactionFlow(_, required, inputs, outputs) =>
      (match name case Requires => required case Inputs => inputs case Outputs => outputs)
    case PersonaFlow(id, passive, flows) =>
      var c := CacheOf(id, passive, flows);
      (match name case Requires => c.required case Inputs => c.inputs case Outputs => c.outputs)
    case DataflowFlow(_) => []
  }

  /** The flows of `kind` a cache is built over: the core's flows other
      than the Persona itself. */
  predicate Counts(f: Flow, self: NodeId, kind: Kind) {
    f.id != self && match kind case Reactions => f.ReactionFlow? case Personas => f.PersonaFlow?
  }

  /** `flow[n1], flow[n2], …` concatenated for one flow. */
  function DeclaredAll(f: Flow, names: seq<Field>): seq<Key>
    decreases f, 1, |names|
  {
    if names == [] then [] else Declared(f, names[0]) + DeclaredAll(f, names[1..])
  }

  /** The reduce of `extractUniqueKeys`, before deduplication: the keys of
      every counted flow, in order. */
  function Gather(flows: seq<Flow>, self: NodeId, kind: Kind, names: seq<Field>): seq<Key>
    decreases flows, 1
  {
    if flows == [] then []
    else (if Counts(flows[0], self, kind) then DeclaredAll(flows[0], names) else [])
         + Gather(flows[1..], self, kind, names)
  }

  /** The ids of the reactions among the flows, in order. */
  function ReactionIds(flows: seq<Flow>, self: NodeId): (ids: seq<NodeId>)
    ensures forall r :: r in ids <==>
      exists i :: 0 <= i < |flows| && Counts(flows[i], self, Reactions) && flows[i].id == r
  {
    if flows == [] then []
    else
      var rest := ReactionIds(flows[1..], self);
      assert forall i :: 1 <= i < |flows| ==> flows[i] == flows[1..][i - 1];
      (if Counts(flows[0], self, Reactions) then [flows[0].id] else []) + rest
  }

  /** The `cache` getter (lib/persona.js:202-238) over the core's flows. */
  function CacheOf(self: NodeId, passive: bool, flows: seq<Flow>): (c: Cache)
    ensures NoDups(c.required) && NoDups(c.inputs) && NoDups(c.outputs) &&
            NoDups(c.consumes) && NoDups(c.absorbs)
    decreases flows, 2
  {
    var reactionsRequire := Gather(flows, self, Reactions, [Requires]);
    var personasRequire := Gather(flows, self, Personas, [Requires]);
    var reactionsTake := Gather(flows, self, Reactions, [Inputs, Requires]);
    var personasTake := Gather(flows, self, Personas, [Inputs, Requires]);
    Cache(
      ReactionIds(flows, self),
      Dedup(reactionsRequire + personasRequire),
      Dedup(reactionsTake + (if passive then personasTake else [])),
      Dedup(Gather(flows, self, Reactions, [Outputs])),
      Dedup(reactionsTake),
      Dedup(Gather(flows, self, Personas, [Inputs])))
  }

  /** Some counted flow of `kind` declares `k` under one of `names`. */
  predicate Declares(flows: seq<Flow>, self: NodeId, kind: Kind, names: set<Field>, k: Key) {
    exists i, n :: 0 <= i < |flows| && n in names && Counts(flows[i], self, kind) &&
                   k in Declared(flows[i], n)
  }

  lemma {:induction false} DeclaredAllMembership(f: Flow, names: seq<Field>, k: Key)
    ensures k in DeclaredAll(f, names) <==> exists n :: n in names && k in Declared(f, n)
    decreases |names|
  {
    if names != [] {
      DeclaredAllMembership(f, names[1..], k);
      assert DeclaredAll(f, names) == Declared(f, names[0]) + DeclaredAll(f, names[1..]);
      if exists n :: n in names && k in Declared(f, n) {
        var n :| n in names && k in Declared(f, n);
        if n != names[0] {
          assert n in names[1..];
        }
      }
    }
  }

  lemma {:induction false} GatherMembership(flows: seq<Flow>, self: NodeId, kind: Kind,
                                             names: seq<Field>, k: Key)
    ensures k in Gather(flows, self, kind, names) <==> Declares(flows, self, kind, (set n | n in names), k)
    decreases |flows|
  {
    var ns := set n | n in names;
    if flows != [] {
      var head := if Counts(flows[0], self, kind) then DeclaredAll(flows[0], names) else [];
      assert Gather(flows, self, kind, names) == head + Gather(flows[1..], self, kind, names);
      GatherMembership(flows[1..], self, kind, names, k);
      DeclaredAllMembership(flows[0], names, k);
      if k in head {
        var n :| n in names && k in Declared(flows[0], n);
        assert n in ns && Counts(flows[0], self, kind);
      }
      if Declares(flows, self, kind, ns, k) {
        var i, n :| 0 <= i < |flows| && n in ns && Counts(flows[i], self, kind) &&
                    k in Declared(flows[i], n);
        if i > 0 {
          assert flows[1..][i - 1] == flows[i];
        }
      }
      if Declares(flows[1..], self, kind, ns, k) {
        var i, n :| 0 <= i < |flows[1..]| && n in ns && Counts(flows[1..][i], self, kind) &&
                    k in Declared(flows[1..][i], n);
        assert flows[i + 1] == flows[1..][i];
      }
    }
  }

  /** What the cache holds, key by key (lib/persona.js:217-229, 276-281):
      - `requires` is the union over reactions and nested Personas;
      - `inputs` the union of inputs and requires over reactions, and over
        nested Personas too when this Persona is passive;
      - `outputs` and `consumes` come from reactions only;
      - `absorbs` from the nested Personas' inputs;
      and (by the contract of `CacheOf`) no union repeats a key. */
  lemma CacheMembership(self: NodeId, passive: bool, flows: seq<Flow>, k: Key)
    ensures var c := CacheOf(self, passive, flows);
      (k in c.required <==> Declares(flows, self, Reactions, {Requires}, k)
                            || Declares(flows, self, Personas, {Requires}, k)) &&
      (k in c.inputs <==> Declares(flows, self, Reactions, {Inputs, Requires}, k)
                          || (passive && Declares(flows, self, Personas, {Inputs, Requires}, k))) &&
      (k in c.outputs <==> Declares(flows, self, Reactions, {Outputs}, k)) &&
      (k in c.consumes <==> Declares(flows, self, Reactions, {Inputs, Requires}, k)) &&
      (k in c.absorbs <==> Declares(flows, self, Personas, {Inputs}, k))
  {
    assert (set n | n in [Requires]) == {Requires};
    assert (set n | n in [Inputs, Requires]) == {Inputs, Requires};
    assert (set n | n in [Outputs]) == {Outputs};
    assert (set n | n in [Inputs]) == {Inputs};
    GatherMembership(flows, self, Reactions, [Requires], k);
    GatherMembership(flows, self, Personas, [Requires], k);
    GatherMembership(flows, self, Reactions, [Inputs, Requires], k);
    GatherMembership(flows, self, Personas, [Inputs, Requires], k);
    GatherMembership(flows, self, Reactions, [Outputs], k);
    GatherMembership(flows, self, Personas, [Inputs], k);
  }

  /** A passive Persona accepts from outside at least what an active one
      with the same children does. */
  lemma PassiveWidensInputs(self: NodeId, flows: seq<Flow>, k: Key)
    requires k in CacheOf(self, false, flows).inputs
    ensures k in CacheOf(self, true, flows).inputs
  {
    CacheMembership(self, false, flows, k);
    CacheMembership(self, true, flows, k);
  }

  // -----------------------------------------------------------------------
  // The core filter
  // -----------------------------------------------------------------------

  /** What the core filter emits: `'flow'` with its trace, `'log'`,
      `'dropped'`, the pulse's own topic, a reaction run on a pulse, and
      `'adapt'`.  The value a topic event carries (`stimulus.value`) is
      modelled as the payload. */
  datatype Event =
    | FlowEvent(pulse: Pulse, trace: seq<string>)
    | LogEvent(pulse: Pulse)
    | DroppedEvent(pulse: Pulse)
    | TopicEvent(topic: Key, payload: seq<Value>)
    | Reacted(reaction: NodeId, pulse: Pulse)
    | AdaptEvent(persona: NodeId)

  const LOG_TOPICS: seq<Key> := ["error", "warn", "info", "debug"]

  predicate IsLog(p: Pulse) {
    p.topic in LOG_TOPICS
  }

  /** `this.reactions.forEach(r => r(stimulus))`. */
  function Invocations(reactions: seq<NodeId>, p: Pulse): (es: seq<Event>)
    ensures |es| == |reactions|
    ensures forall i :: 0 <= i < |es| ==> es[i] == Reacted(reactions[i], p)
  {
    seq(|reactions|, i requires 0 <= i < |reactions| => Reacted(reactions[i], p))
  }

  /** The reactions run, in order, by a sequence of events. */
  function ReactionsRun(es: seq<Event>): seq<NodeId> {
    if es == [] then []
    else (if es[0].Reacted? then [es[0].reaction] else []) + ReactionsRun(es[1..])
  }

  lemma {:induction false} ReactionsRunAppend(a: seq<Event>, b: seq<Event>)
    ensures ReactionsRun(a + b) == ReactionsRun(a) + ReactionsRun(b)
    decreases |a|
  {
    if a == [] {
      assert a + b == b;
    } else {
      assert (a + b)[0] == a[0];
      assert (a + b)[1..] == a[1..] + b;
      ReactionsRunAppend(a[1..], b);
    }
  }

  lemma {:induction false} ReactionsRunOfInvocations(reactions: seq<NodeId>, p: Pulse)
    ensures ReactionsRun(Invocations(reactions, p)) == reactions
    decreases |reactions|
  {
    if reactions != [] {
      var es := Invocations(reactions, p);
      assert es[1..] == Invocations(reactions[1..], p);
      ReactionsRunOfInvocations(reactions[1..], p);
    }
  }

  /** The notify-only events carry no reaction run. */
  lemma ReactionsRunOfNotice(es: seq<Event>)
    requires forall i :: 0 <= i < |es| ==> !es[i].Reacted?
    ensures ReactionsRun(es) == []
  {
    if es != [] {
      ReactionsRunOfNotice(es[1..]);
    }
  }

  function When<T>(c: bool, xs: seq<T>): seq<T> {
    if c then xs else []
  }

  /** Every reaction in `es` runs on the pulse `q`. */
  predicate ReactsOn(es: seq<Event>, q: Pulse) {
    forall i :: 0 <= i < |es| && es[i].Reacted? ==> es[i].pulse == q
  }

  /** `'flow'` appears in `es` only when a listener exists. */
  predicate Notified(es: seq<Event>, notify: bool) {
    forall i :: 0 <= i < |es| && es[i].FlowEvent? ==> notify
  }

  lemma EventsAppend(a: seq<Event>, b: seq<Event>, q: Pulse, notify: bool)
    requires ReactsOn(a, q) && ReactsOn(b, q) && Notified(a, notify) && Notified(b, notify)
    ensures ReactsOn(a + b, q) && Notified(a + b, notify)
  {
    forall i | 0 <= i < |a + b|
      ensures (a + b)[i] == if i < |a| then a[i] else b[i - |a|]
    {
    }
  }

  /** The core filter (lib/persona.js:112-166) for the Persona `self` with
      cache `c`, where `notify` says whether a `'flow'` listener exists.
      - A pulse that already carries `self` came from outside: it passes iff
        it matches `inputs ∪ requires`, and is then tagged accepted.  A
        rejected pulse, log topics included, ends with `'log'` or
        `'dropped'`.
      - Any other pulse came from inside.  A log pulse is logged and passed
        before any reaction runs.  Otherwise an absorbed pulse is tagged
        accepted, a produced one is left untagged, and a byproduct is tagged
        unless the Persona is passive.
      - Every pulse that passes, except an internal log pulse, runs every
        reaction in order; `'flow'` is emitted only when notified. */
  function Classify(p: Pulse, self: NodeId, c: Cache, passive: bool, notify: bool)
    : (v: Verdict<Event>)
    ensures v.pass <==> !(p.Has(self) && !p.Match(c.inputs + c.required))
    ensures p.Has(self) ==>
      v.pulse == (if p.Match(c.inputs + c.required) then p.Tag(self, Accepted) else p)
    ensures !p.Has(self) && IsLog(p) ==> v.pulse == p && v.events == [LogEvent(p)]
    ensures !p.Has(self) && !IsLog(p) ==>
      v.pulse == (if p.Match(c.absorbs) then p.Tag(self, Accepted)
                  else if p.Match(c.outputs) || passive then p
                  else p.Tag(self, Unset))
    ensures !v.pass ==>
      |v.events| > 0 && v.events[|v.events| - 1] == (if IsLog(p) then LogEvent(p) else DroppedEvent(p))
    ensures ReactionsRun(v.events) ==
      (if v.pass && !(!p.Has(self) && IsLog(p)) then c.reactions else [])
    ensures ReactsOn(v.events, v.pulse) && Notified(v.events, notify)
    ensures notify && v.pass && !(!p.Has(self) && IsLog(p)) ==>
      |v.events| > 0 && v.events[|v.events| - 1].FlowEvent? && v.events[|v.events| - 1].pulse == v.pulse
  {
    if p.Has(self) then
      if p.Match(c.inputs + c.required) then Accept(p, self, c, notify)
      else Reject(p, notify)
    else if IsLog(p) then
      ReactionsRunOfNotice([LogEvent(p)]);
      Verdict(true, p, [LogEvent(p)])
    else Feedback(p, self, c, passive, notify)
  }

  /** An external pulse that matches: tagged accepted, then the reactions
      run and `'flow'` closes the trace. */
  function Accept(p: Pulse, self: NodeId, c: Cache, notify: bool): (v: Verdict<Event>)
    ensures v.pass && v.pulse == p.Tag(self, Accepted)
    ensures v.events == Invocations(c.reactions, v.pulse) + When(notify, [FlowEvent(v.pulse, AcceptTrace(p, c))])
    ensures ReactionsRun(v.events) == c.reactions
    ensures ReactsOn(v.events, v.pulse) && Notified(v.events, notify)
    ensures notify ==> |v.events| > 0 && v.events[|v.events| - 1].FlowEvent? &&
                       v.events[|v.events| - 1].pulse == v.pulse
  {
    var q := p.Tag(self, Accepted);
    var trace := AcceptTrace(p, c);
    var runs := Invocations(c.reactions, q);
    var closing := When(notify, [FlowEvent(q, trace)]);
    ReactionsRunOfInvocations(c.reactions, q);
    ReactionsRunOfNotice(closing);
    ReactionsRunAppend(runs, closing);
    EventsAppend(runs, closing, q, notify);
    Verdict(true, q, runs + closing)
  }

  /** The trace of an accepted external pulse. */
  function AcceptTrace(p: Pulse, c: Cache): seq<string> {
    ["accept"] + When(p.Match(c.consumes), ["consume"]) + When(p.Match(c.absorbs), ["absorb"])
  }

  /** The trace of an internal pulse: consumed or not, then how it is
      classified. */
  function FeedbackTrace(p: Pulse, c: Cache): seq<string> {
    ["feedback", if p.Match(c.consumes) then "consume" else "reject",
     if p.Match(c.absorbs) then "absorb" else if p.Match(c.outputs) then "produce" else "byproduct"]
  }

  /** An external pulse that does not match: `'flow'` with the rejection
      when notified (log topics excepted), then `'log'` or `'dropped'`. */
  function Reject(p: Pulse, notify: bool): (v: Verdict<Event>)
    ensures !v.pass && v.pulse == p
    ensures v.events == When(notify && !IsLog(p), [FlowEvent(p, ["accept", "reject"])])
                        + [if IsLog(p) then LogEvent(p) else DroppedEvent(p)]
    ensures ReactionsRun(v.events) == []
    ensures forall i :: 0 <= i < |v.events| ==> !v.events[i].Reacted?
    ensures Notified(v.events, notify)
  {
    var notice := When(notify && !IsLog(p), [FlowEvent(p, ["accept", "reject"])]);
    var last := if IsLog(p) then LogEvent(p) else DroppedEvent(p);
    ReactionsRunOfNotice(notice + [last]);
    Verdict(false, p, notice + [last])
  }

  /** An internal pulse that is not a log: absorbed, produced, or a
      byproduct; then the topic event, the reactions and `'flow'`. */
  function Feedback(p: Pulse, self: NodeId, c: Cache, passive: bool, notify: bool): (v: Verdict<Event>)
    ensures v.pass
    ensures v.pulse == (if p.Match(c.absorbs) then p.Tag(self, Accepted)
                        else if p.Match(c.outputs) || passive then p
                        else p.Tag(self, Unset))
    ensures v.events == When(notify, [TopicEvent(p.topic, v.pulse.payload)])
                        + Invocations(c.reactions, v.pulse)
                        + When(notify, [FlowEvent(v.pulse, FeedbackTrace(p, c))])
    ensures ReactionsRun(v.events) == c.reactions
    ensures ReactsOn(v.events, v.pulse) && Notified(v.events, notify)
    ensures notify ==> |v.events| > 0 && v.events[|v.events| - 1].FlowEvent? &&
                       v.events[|v.events| - 1].pulse == v.pulse
  {
    var q := if p.Match(c.absorbs) then p.Tag(self, Accepted)
             else if p.Match(c.outputs) || passive then p
             else p.Tag(self, Unset);
    var trace := FeedbackTrace(p, c);
    var topic := When(notify, [TopicEvent(p.topic, q.payload)]);
    var runs := Invocations(c.reactions, q);
    var closing := When(notify, [FlowEvent(q, trace)]);
    ReactionsRunOfNotice(topic);
    ReactionsRunOfInvocations(c.reactions, q);
    ReactionsRunOfNotice(closing);
    ReactionsRunAppend(topic, runs);
    ReactionsRunAppend(topic + runs, closing);
    EventsAppend(topic, runs, q, notify);
    EventsAppend(topic + runs, closing, q, notify);
    Verdict(true, q, topic + runs + closing)
  }

  /** Marking keeps a pulse inside: an internal pulse that is absorbed, or
      a byproduct of an active Persona, carries the Persona's id after the
      core filter, so the Persona's own stream drops it instead of passing it
      to the parent; a produced pulse does not, so it leaves. */
  lemma MarkingStopsLeaks(p: Pulse, self: NodeId, c: Cache, passive: bool, notify: bool)
    requires !p.Has(self) && !IsLog(p)
    ensures var v := Classify(p, self, c, passive, notify);
      v.pass &&
      (v.pulse.Has(self) <==> p.Match(c.absorbs) || (!p.Match(c.outputs) && !passive))
  {
  }

  // -----------------------------------------------------------------------
  // find and contains
  // -----------------------------------------------------------------------

  /** `find(id)` on a Persona: itself on an id match, then the first
      reaction with that id, then a depth-first search of the nested
      Personas (lib/persona.js:179-188).  Whatever it returns has the id
      asked for; the order of the search is stated by FindOrder and its
      completeness by FindIsComplete. */
  function Find(f: Flow, id: NodeId): (r: Option<Flow>)
    requires f.PersonaFlow?
    ensures f.id == id ==> r == Some(f)
    ensures r.Some? ==> r.value.id == id
    decreases f, 1
  {
    if f.id == id then Some(f)
    else
      var reaction := FirstReaction(f.flows, f.id, id);
      if reaction.Some? then reaction else FindAmong(f.flows, f.id, id)
  }

  /** The i-th flow is a counted reaction with the id. */
  predicate ReactionAt(flows: seq<Flow>, i: int, self: NodeId, id: NodeId) {
    0 <= i < |flows| && Counts(flows[i], self, Reactions) && flows[i].id == id
  }

  /** `this.reactions.find(x => x.id === id)`: the first counted reaction
      with the id. */
  function FirstReaction(flows: seq<Flow>, self: NodeId, id: NodeId): (r: Option<Flow>)
    ensures r.Some? ==> exists i :: ReactionAt(flows, i, self, id) && r.value == flows[i] &&
                                    forall j :: 0 <= j < i ==> !ReactionAt(flows, j, self, id)
    ensures r.None? <==> forall i :: 0 <= i < |flows| ==> !ReactionAt(flows, i, self, id)
  {
    if flows == [] then None
    else if Counts(flows[0], self, Reactions) && flows[0].id == id then
      assert ReactionAt(flows, 0, self, id);
      Some(flows[0])
    else
      var r := FirstReaction(flows[1..], self, id);
      assert !ReactionAt(flows, 0, self, id);
      assert forall i :: 0 < i < |flows| ==> (ReactionAt(flows, i, self, id) <==> ReactionAt(flows[1..], i - 1, self, id));
      if r.Some? then
        ghost var i :| ReactionAt(flows[1..], i, self, id) && r.value == flows[1..][i] &&
                       forall j :: 0 <= j < i ==> !ReactionAt(flows[1..], j, self, id);
        assert ReactionAt(flows, i + 1, self, id);
        Some(r.value)
      else None
  }

  /** The depth-first search over the nested Personas of `find`. */
  function FindAmong(flows: seq<Flow>, self: NodeId, id: NodeId): (r: Option<Flow>)
    ensures r.Some? ==> r.value.id == id
    decreases flows, 0
  {
    if flows == [] then None
    else if Counts(flows[0], self, Personas) && Find(flows[0], id).Some? then Find(flows[0], id)
    else FindAmong(flows[1..], self, id)
  }

  /** `contains(id)`: a reaction has the id, or a nested Persona contains
      it (lib/persona.js:172-176).  Everything it reports, `find` finds;
      ContainsIffReactionBelow characterises it. */
  function Contains(f: Flow, id: NodeId): (r: bool)
    requires f.PersonaFlow?
    ensures r ==> Find(f, id).Some?
    decreases f, 1
  {
    FirstReaction(f.flows, f.id, id).Some? || ContainsAmong(f.flows, f.id, id)
  }

  function ContainsAmong(flows: seq<Flow>, self: NodeId, id: NodeId): (r: bool)
    ensures r ==> FindAmong(flows, self, id).Some?
    decreases flows, 0
  {
    if flows == [] then false
    else (Counts(flows[0], self, Personas) && Contains(flows[0], id))
         || ContainsAmong(flows[1..], self, id)
  }

  /** The id names a node of the tree `find` searches: the Persona itself,
      one of its counted reactions, or a node under a counted nested
      Persona. */
  ghost predicate Occurs(f: Flow, id: NodeId)
    requires f.PersonaFlow?
    decreases f, 1
  {
    f.id == id || (exists i :: ReactionAt(f.flows, i, f.id, id)) || OccursBelow(f.flows, f.id, id)
  }

  /** Some counted nested Persona among `flows` holds the id. */
  ghost predicate OccursBelow(flows: seq<Flow>, self: NodeId, id: NodeId)
    decreases flows, 0
  {
    exists i :: 0 <= i < |flows| && Counts(flows[i], self, Personas) && Occurs(flows[i], id)
  }

  /** Some counted reaction at any depth under the Persona has the id; the
      Persona's own id plays no part. */
  ghost predicate HasReaction(f: Flow, id: NodeId)
    requires f.PersonaFlow?
    decreases f, 1
  {
    (exists i :: ReactionAt(f.flows, i, f.id, id)) || HasReactionBelow(f.flows, f.id, id)
  }

  /** Some counted nested Persona among `flows` has such a reaction. */
  ghost predicate HasReactionBelow(flows: seq<Flow>, self: NodeId, id: NodeId)
    decreases flows, 0
  {
    exists i :: 0 <= i < |flows| && Counts(flows[i], self, Personas) && HasReaction(flows[i], id)
  }

  /** `find` finds something exactly when the id occurs in the tree. */
  lemma {:induction false} FindIsComplete(f: Flow, id: NodeId)
    requires f.PersonaFlow?
    ensures Find(f, id).Some? <==> Occurs(f, id)
    decreases f, 1
  {
    FindAmongIsComplete(f.flows, f.id, id);
  }

  /** The search over the nested Personas finds something exactly when the
      id occurs under one of them. */
  lemma {:induction false} FindAmongIsComplete(flows: seq<Flow>, self: NodeId, id: NodeId)
    ensures FindAmong(flows, self, id).Some? <==> OccursBelow(flows, self, id)
    decreases flows, 0
  {
    if flows != [] {
      if flows[0].PersonaFlow? {
        FindIsComplete(flows[0], id);
      }
      FindAmongIsComplete(flows[1..], self, id);
      OccursBelowStep(flows, self, id);
    }
  }

  /** OccursBelow, one flow at a time. */
  lemma OccursBelowStep(flows: seq<Flow>, self: NodeId, id: NodeId)
    requires flows != []
    ensures OccursBelow(flows, self, id) <==>
      (Counts(flows[0], self, Personas) && Occurs(flows[0], id)) || OccursBelow(flows[1..], self, id)
  {
    assert forall i :: 0 < i < |flows| ==> flows[1..][i - 1] == flows[i];
    if OccursBelow(flows, self, id) && !(Counts(flows[0], self, Personas) && Occurs(flows[0], id)) {
      var i :| 0 <= i < |flows| && Counts(flows[i], self, Personas) && Occurs(flows[i], id);
      assert Counts(flows[1..][i - 1], self, Personas) && Occurs(flows[1..][i - 1], id);
    }
    if OccursBelow(flows[1..], self, id) {
      var i :| 0 <= i < |flows[1..]| && Counts(flows[1..][i], self, Personas) && Occurs(flows[1..][i], id);
      assert Counts(flows[i + 1], self, Personas) && Occurs(flows[i + 1], id);
    }
  }

  /** What the search over the nested Personas finds is what `find` finds
      on the first one in which the id occurs. */
  lemma {:induction false} FindAmongIsFirstMatch(flows: seq<Flow>, self: NodeId, id: NodeId)
    requires FindAmong(flows, self, id).Some?
    ensures exists i :: 0 <= i < |flows| && Counts(flows[i], self, Personas) && Occurs(flows[i], id) &&
                        FindAmong(flows, self, id) == Find(flows[i], id) &&
                        forall j :: 0 <= j < i ==> !(Counts(flows[j], self, Personas) && Occurs(flows[j], id))
    decreases |flows|
  {
    if flows[0].PersonaFlow? {
      FindIsComplete(flows[0], id);
    }
    if !(Counts(flows[0], self, Personas) && Occurs(flows[0], id)) {
      FindAmongIsFirstMatch(flows[1..], self, id);
      var k :| 0 <= k < |flows[1..]| && Counts(flows[1..][k], self, Personas) && Occurs(flows[1..][k], id) &&
               FindAmong(flows[1..], self, id) == Find(flows[1..][k], id) &&
               forall j :: 0 <= j < k ==> !(Counts(flows[1..][j], self, Personas) && Occurs(flows[1..][j], id));
      assert forall j :: 0 < j <= k ==> flows[1..][j - 1] == flows[j];
      assert Counts(flows[k + 1], self, Personas) && Occurs(flows[k + 1], id);
    }
  }

  /** The order of `find` below the Persona itself: the first counted
      reaction with the id wins over every nested Persona, and without one
      the nested Personas are searched depth-first, in order. */
  lemma FindOrder(f: Flow, id: NodeId)
    requires f.PersonaFlow? && f.id != id
    ensures (exists i :: ReactionAt(f.flows, i, f.id, id)) ==>
      exists i :: ReactionAt(f.flows, i, f.id, id) && Find(f, id) == Some(f.flows[i]) &&
                  forall j :: 0 <= j < i ==> !ReactionAt(f.flows, j, f.id, id)
    ensures (forall i :: 0 <= i < |f.flows| ==> !ReactionAt(f.flows, i, f.id, id)) ==>
      (Find(f, id).None? <==> !OccursBelow(f.flows, f.id, id)) &&
      (Find(f, id).Some? ==>
        exists i :: 0 <= i < |f.flows| && Counts(f.flows[i], f.id, Personas) && Occurs(f.flows[i], id) &&
                    Find(f, id) == Find(f.flows[i], id) &&
                    forall j :: 0 <= j < i ==> !(Counts(f.flows[j], f.id, Personas) && Occurs(f.flows[j], id)))
  {
    FindAmongIsComplete(f.flows, f.id, id);
    if FindAmong(f.flows, f.id, id).Some? {
      FindAmongIsFirstMatch(f.flows, f.id, id);
    }
  }

  /** `contains` is true exactly when some counted reaction at any depth
      has the id. */
  lemma {:induction false} ContainsIffReactionBelow(f: Flow, id: NodeId)
    requires f.PersonaFlow?
    ensures Contains(f, id) <==> HasReaction(f, id)
    decreases f, 1
  {
    ContainsAmongIffReactionBelow(f.flows, f.id, id);
  }

  lemma {:induction false} ContainsAmongIffReactionBelow(flows: seq<Flow>, self: NodeId, id: NodeId)
    ensures ContainsAmong(flows, self, id) <==> HasReactionBelow(flows, self, id)
    decreases flows, 0
  {
    if flows != [] {
      if flows[0].PersonaFlow? {
        ContainsIffReactionBelow(flows[0], id);
      }
      ContainsAmongIffReactionBelow(flows[1..], self, id);
      assert forall i :: 0 < i < |flows| ==> flows[1..][i - 1] == flows[i];
      if HasReactionBelow(flows, self, id) && !(Counts(flows[0], self, Personas) && HasReaction(flows[0], id)) {
        var i :| 0 <= i < |flows| && Counts(flows[i], self, Personas) && HasReaction(flows[i], id);
        assert Counts(flows[1..][i - 1], self, Personas) && HasReaction(flows[1..][i - 1], id);
      }
      if HasReactionBelow(flows[1..], self, id) {
        var i :| 0 <= i < |flows[1..]| && Counts(flows[1..][i], self, Personas) && HasReaction(flows[1..][i], id);
        assert Counts(flows[i + 1], self, Personas) && HasReaction(flows[i + 1], id);
      }
    }
  }

  /** `find` checks a Persona's own id first, `contains` never does: for
      every Persona, `find(this.id)` is the Persona itself, while
      `contains(this.id)` holds only when a nested Persona has a reaction
      with that id. */
  lemma OwnIdIsFoundNotContained(f: Flow)
    requires f.PersonaFlow?
    ensures Find(f, f.id) == Some(f)
    ensures Contains(f, f.id) <==> HasReactionBelow(f.flows, f.id, f.id)
  {
    ContainsIffReactionBelow(f, f.id);
  }

  // -----------------------------------------------------------------------
  // save with feed
  // -----------------------------------------------------------------------

  /** The pulses `save(state, { feed: true })` writes into the core: one per
      key, in the order the keys are visited, each carrying its value. */
  function FeedChunks(order: seq<string>, entries: map<string, Value>): (cs: seq<Chunk>)
    requires forall k :: k in order ==> k in entries
    ensures |cs| == |order|
  {
    if order == [] then []
    else FeedChunks(order[..|order| - 1], entries)
         + [PulseChunk(NewPulse(order[|order| - 1], None).Add([entries[order[|order| - 1]]]))]
  }

  /** The i-th pulse fed carries the i-th key visited and its value. */
  lemma {:induction false} FeedChunksContents(order: seq<string>, entries: map<string, Value>, i: nat)
    requires forall k :: k in order ==> k in entries
    requires i < |order|
    ensures FeedChunks(order, entries)[i] == PulseChunk(NewPulse(order[i], None).Add([entries[order[i]]]))
  {
    var n := |order| - 1;
    if i < n {
      assert order[..n][i] == order[i];
      FeedChunksContents(order[..n], entries, i);
    }
  }

  lemma FeedChunksSnoc(order: seq<string>, k: string, entries: map<string, Value>)
    requires forall j :: j in order ==> j in entries
    requires k in entries
    ensures FeedChunks(order + [k], entries)
            == FeedChunks(order, entries) + [PulseChunk(NewPulse(k, None).Add([entries[k]]))]
  {
    assert (order + [k])[..|order|] == order;
  }

  /** Part way through a visit of `keys`: `order` lists the visited keys
      once each, and `remaining` the rest. */
  predicate Visiting(order: seq<string>, remaining: set<string>, keys: set<string>) {
    remaining <= keys &&
    (forall k :: k in order ==> k in keys && k !in remaining) &&
    (forall k :: k in keys && k !in remaining ==> k in order) &&
    (forall i, j :: 0 <= i < j < |order| ==> order[i] != order[j])
  }

  lemma VisitingStep(order: seq<string>, remaining: set<string>, keys: set<string>, k: string)
    requires Visiting(order, remaining, keys) && k in remaining
    ensures Visiting(order + [k], remaining - {k}, keys)
  {
    assert k !in order;
  }

  lemma VisitingDone(order: seq<string>, keys: set<string>)
    requires Visiting(order, {}, keys)
    ensures Enumerates(order, keys)
  {
  }

  predicate Enumerates(order: seq<string>, keys: set<string>) {
    (forall i, j :: 0 <= i < j < |order| ==> order[i] != order[j]) &&
    (forall k :: k in order ==> k in keys) && (forall k :: k in keys ==> k in order)
  }

  // -----------------------------------------------------------------------
  // The Persona object
  // -----------------------------------------------------------------------

  class Persona {
    const id: NodeId
    const name: string
    const passive: bool
    /** This Persona's own Dataflow (its id is the Persona's id). */
    const stream: Dataflow
    /** The core Dataflow its children are joined into. */
    const core: Dataflow
    var enabled: bool
    /** The core's flows, in the order they joined. */
    var flows: seq<Flow>
    /** `_cache`, and the number of pending `once('adapt')` listeners. */
    var memo: Option<Cache>
    var adaptListeners: nat
    /** `listenerCount('flow')`. */
    var flowListeners: nat
    /** The events this Persona has emitted, in order. */
    var emitted: seq<Event>

    /** The memo is either clear, or the cache of the current flows with
        exactly one pending listener that will clear it. */
    predicate Valid()
      reads this
    {
      Paired() && (memo.Some? ==> memo.value == CacheOf(id, passive, flows))
    }

    /** A computed cache goes with exactly one pending listener. */
    predicate Paired()
      reads this
    {
      stream != core && stream.id == id &&
      ((memo.None? && adaptListeners == 0) || (memo.Some? && adaptListeners == 1))
    }

    /** `new Persona(props)` past the label check: the personas and the
        reactions join the core in that order, and `enabled` (default true)
        enables the Persona.  The `enabled` getter reads `props.enabled ===
        true`, so an explicit `enabled: true` leaves nothing to enable. */
    constructor (id: NodeId, coreId: NodeId, name: string, passive: bool, enabledProp: Value,
                 personas: seq<Flow>, reactions: seq<Flow>)
      requires name != "" && coreId != id
      ensures Valid() && fresh(stream) && fresh(core)
      ensures this.id == id && this.name == name && this.passive == passive
      ensures flows == personas + reactions && memo.None? && flowListeners == 0 && emitted == []
      ensures var resolved := if enabledProp.Undefined? then Bool(true) else enabledProp;
        var linked := Truthy(resolved) && enabledProp != Bool(true);
        enabled == (enabledProp == Bool(true) || linked) &&
        stream.pipes == (if linked then [core.id] else []) &&
        core.pipes == (if linked then [id] else [])
    {
      this.id := id;
      this.name := name;
      this.passive := passive;
      stream := new Dataflow(id, None, false, None);
      core := new Dataflow(coreId, None, false, None);
      enabled := enabledProp == Bool(true);
      flows := personas + reactions;
      memo := None;
      adaptListeners, flowListeners := 0, 0;
      emitted := [];
      new;
      var resolved := if enabledProp.Undefined? then Bool(true) else enabledProp;
      if Truthy(resolved) {
        Enable();
      }
    }

    /** `notify`: some `'flow'` listener exists. */
    predicate Notify()
      reads this
    {
      flowListeners > 0
    }

    /** `on('flow', …)`. */
    method ListenFlow()
      modifies this`flowListeners
      ensures flowListeners == old(flowListeners) + 1
    {
      flowListeners := flowListeners + 1;
    }

    /** `enable()`: links this Persona's stream with its core only when the
        flag actually changes, so a second call changes nothing. */
    method Enable()
      requires stream != core
      modifies this`enabled, stream`pipes, core`pipes
      ensures enabled
      ensures old(enabled) ==> stream.pipes == old(stream.pipes) && core.pipes == old(core.pipes)
      ensures !old(enabled) ==>
        stream.pipes == old(stream.pipes) + [core.id] && core.pipes == old(core.pipes) + [stream.id]
    {
      if !enabled {
        enabled := true;
        stream.Link(core);
      }
    }

    /** `disable()`: unlinks only when the flag actually changes. */
    method Disable()
      requires stream != core
      modifies this`enabled, stream`pipes, core`pipes
      ensures !enabled
      ensures !old(enabled) ==> stream.pipes == old(stream.pipes) && core.pipes == old(core.pipes)
      ensures old(enabled) ==>
        stream.pipes == RemoveFirst(old(stream.pipes), core.id) &&
        core.pipes == RemoveFirst(old(core.pipes), stream.id)
    {
      if enabled {
        enabled := false;
        stream.Unlink(core);
      }
    }

    /** `link(flow)`: pipes the core and the flow both ways. */
    method Link(flow: Dataflow)
      modifies core`pipes, flow`pipes
      ensures flow != core ==>
        core.pipes == old(core.pipes) + [flow.id] && flow.pipes == old(flow.pipes) + [core.id]
      ensures flow == core ==> core.pipes == old(core.pipes) + [core.id, core.id]
    {
      core.Link(flow);
    }

    /** `unlink(flow)`: unpipes the core and the flow both ways. */
    method Unlink(flow: Dataflow)
      modifies core`pipes, flow`pipes
      ensures flow != core ==>
        core.pipes == RemoveFirst(old(core.pipes), flow.id) &&
        flow.pipes == RemoveFirst(old(flow.pipes), core.id)
      ensures flow == core ==> core.pipes == RemoveFirst(RemoveFirst(old(core.pipes), core.id), core.id)
    {
      core.Unlink(flow);
    }

    /** The `cache` getter: computed at most once between two `'adapt'`
        events, arming one `once('adapt')` listener when it is computed. */
    method GetCache() returns (c: Cache)
      requires Valid()
      modifies this`memo, this`adaptListeners
      ensures Valid()
      ensures c == CacheOf(id, passive, flows) && memo == Some(c)
      ensures old(memo).Some? ==> adaptListeners == old(adaptListeners)
      ensures old(memo).None? ==> adaptListeners == old(adaptListeners) + 1
    {
      if memo.None? {
        memo := Some(CacheOf(id, passive, flows));
        adaptListeners := adaptListeners + 1;
      }
      c := memo.value;
    }

    /** The core emits `'adapt'`: each pending listener clears the cache and
        re-emits `'adapt'` from this Persona, so a computed cache is cleared
        and announced exactly once. */
    method Adapt()
      requires Paired()
      modifies this`memo, this`adaptListeners, this`emitted
      ensures Valid() && memo.None? && adaptListeners == 0
      ensures emitted == old(emitted) + (if old(memo).Some? then [AdaptEvent(id)] else [])
    {
      if adaptListeners > 0 {
        memo := None;
        emitted := emitted + [AdaptEvent(id)];
        adaptListeners := 0;
      }
    }

    /** A child joins the core, which then emits `'adapt'`. */
    method Attach(f: Flow)
      requires Valid()
      modifies this`flows, this`memo, this`adaptListeners, this`emitted
      ensures Valid() && flows == old(flows) + [f] && memo.None?
      ensures emitted == old(emitted) + (if old(memo).Some? then [AdaptEvent(id)] else [])
    {
      flows := flows + [f];
      Adapt();
    }

    /** `add(reaction)`. */
    method Add(reactionId: NodeId, required: seq<Key>, inputs: seq<Key>, outputs: seq<Key>)
      requires Valid()
      modifies this`flows, this`memo, this`adaptListeners, this`emitted
      ensures Valid() && flows == old(flows) + [ReactionFlow(reactionId, required, inputs, outputs)]
      ensures emitted == old(emitted) + (if old(memo).Some? then [AdaptEvent(id)] else [])
    {
      Attach(ReactionFlow(reactionId, required, inputs, outputs));
    }

    /** The core filter reads the cache for an unseen pulse unless that
        pulse is an internal log pulse, which it passes before any lookup;
        the filter does not run for a pulse the core has seen or for a
        chunk that is not a pulse. */
    predicate ReadsCache(chunk: Chunk) {
      chunk.PulseChunk? && !core.Seen(chunk.pulse) &&
      var q := core.Mark(chunk.pulse, Unset);
      q.Has(id) || !IsLog(q)
    }

    /** The core's next written chunk goes through the core's transform
        with the classifier as its filter.  The cache is computed, and its
        `once('adapt')` armed, only when the filter reads it. */
    method Step() returns (c: Option<Completion>)
      requires Valid()
      modifies this`memo, this`adaptListeners, this`emitted,
               core`input, core`output, core`ended, core`awaitingData
      ensures Valid()
      ensures old(core.awaitingData) || old(core.input) == [] ==>
        c.None? && core.input == old(core.input) && core.output == old(core.output) &&
        core.awaitingData == old(core.awaitingData) && emitted == old(emitted) &&
        memo == old(memo) && adaptListeners == old(adaptListeners)
      ensures !old(core.awaitingData) && old(core.input) != [] ==>
        c.Some? && core.input == old(core.input)[1..] && core.ended == old(core.ended) &&
        (ReadsCache(old(core.input)[0]) ==>
          memo == Some(CacheOf(id, passive, flows)) &&
          adaptListeners == (if old(memo).Some? then old(adaptListeners) else old(adaptListeners) + 1)) &&
        (!ReadsCache(old(core.input)[0]) ==> memo == old(memo) && adaptListeners == old(adaptListeners))
      ensures !old(core.awaitingData) && old(core.input) != [] && old(core.input)[0].PulseChunk? &&
              core.Seen(old(core.input)[0].pulse) ==>
        c == Some(Done(None)) && emitted == old(emitted) && core.output == old(core.output) &&
        !core.awaitingData
      ensures !old(core.awaitingData) && old(core.input) != [] && old(core.input)[0].PulseChunk? &&
              !core.Seen(old(core.input)[0].pulse) ==>
        var v := Classify(core.Mark(old(core.input)[0].pulse, Unset), id, CacheOf(id, passive, flows),
                          passive, flowListeners > 0);
        emitted == old(emitted) + v.events &&
        (!v.pass ==> c == Some(Done(None)) && core.output == old(core.output) && !core.awaitingData) &&
        (v.pass ==>
          core.output == Buffered(old(core.output), old(core.ended), PulseChunk(v.pulse)) &&
          var refused := Refused(old(core.output), old(core.ended), PulseChunk(v.pulse), core.highWaterMark);
          core.awaitingData == refused && c == Some(if refused then Deferred else Done(None)))
      ensures !old(core.awaitingData) && old(core.input) != [] && !old(core.input)[0].PulseChunk? ==>
        var err := Failure("incompatible Pulse received in Dataflow", core.id, None);
        var sent := PulseChunk(ErrorPulse(core.id, err));
        emitted == old(emitted) && !core.awaitingData &&
        core.output == Buffered(old(core.output), old(core.ended), sent) &&
        c == Some(if Refused(old(core.output), old(core.ended), sent, core.highWaterMark)
                  then Escaped(PushFailure(core.id)) else Done(Some(err)))
    {
      if core.awaitingData || core.input == [] {
        return None;
      }
      var chunk := core.input[0];
      core.input := core.input[1..];
      var done := Deliver(chunk);
      c := Some(done);
    }

    /** One chunk through the core's transform with the core filter. */
    method Deliver(chunk: Chunk) returns (c: Completion)
      requires Valid() && !core.awaitingData
      modifies this`memo, this`adaptListeners, this`emitted, core`output, core`ended, core`awaitingData
      ensures Valid() && core.ended == old(core.ended)
      ensures ReadsCache(chunk) ==>
        memo == Some(CacheOf(id, passive, flows)) &&
        adaptListeners == (if old(memo).Some? then old(adaptListeners) else old(adaptListeners) + 1)
      ensures !ReadsCache(chunk) ==> memo == old(memo) && adaptListeners == old(adaptListeners)
      ensures chunk.PulseChunk? && core.Seen(chunk.pulse) ==>
        c == Done(None) && emitted == old(emitted) && core.output == old(core.output) && !core.awaitingData
      ensures chunk.PulseChunk? && !core.Seen(chunk.pulse) ==>
        var v := Classify(core.Mark(chunk.pulse, Unset), id, CacheOf(id, passive, flows),
                          passive, flowListeners > 0);
        emitted == old(emitted) + v.events &&
        (!v.pass ==> c == Done(None) && core.output == old(core.output) && !core.awaitingData) &&
        (v.pass ==>
          core.output == Buffered(old(core.output), old(core.ended), PulseChunk(v.pulse)) &&
          var refused := Refused(old(core.output), old(core.ended), PulseChunk(v.pulse), core.highWaterMark);
          core.awaitingData == refused && c == (if refused then Deferred else Done(None)))
      ensures !chunk.PulseChunk? ==>
        var err := Failure("incompatible Pulse received in Dataflow", core.id, None);
        var sent := PulseChunk(ErrorPulse(core.id, err));
        emitted == old(emitted) && !core.awaitingData &&
        core.output == Buffered(old(core.output), old(core.ended), sent) &&
        c == (if Refused(old(core.output), old(core.ended), sent, core.highWaterMark)
              then Escaped(PushFailure(core.id)) else Done(Some(err)))
    {
      var classify := FilterFor(chunk);
      var events;
      c, events := core.Transform(chunk, classify);
      emitted := emitted + events;
    }

    /** The core filter for one chunk, reading the cache only when the
        filter would. */
    method FilterFor(chunk: Chunk) returns (classify: Pulse -> Verdict<Event>)
      requires Valid()
      modifies this`memo, this`adaptListeners
      ensures Valid()
      ensures ReadsCache(chunk) ==>
        memo == Some(CacheOf(id, passive, flows)) &&
        adaptListeners == (if old(memo).Some? then old(adaptListeners) else old(adaptListeners) + 1)
      ensures !ReadsCache(chunk) ==> memo == old(memo) && adaptListeners == old(adaptListeners)
      ensures chunk.PulseChunk? && !core.Seen(chunk.pulse) ==>
        var q := core.Mark(chunk.pulse, Unset);
        classify(q) == Classify(q, id, CacheOf(id, passive, flows), passive, Notify())
    {
      var cache := Cache([], [], [], [], [], []);
      if ReadsCache(chunk) {
        cache := GetCache();
      }
      var self, quiet, notify := id, passive, flowListeners > 0;
      classify := (p: Pulse) => Classify(p, self, cache, quiet, notify);
      if chunk.PulseChunk? && !core.Seen(chunk.pulse) {
        ghost var q := core.Mark(chunk.pulse, Unset);
        assert classify(q) == Classify(q, id, cache, passive, Notify());
      }
    }

    /** `save(state, { feed })`, the feed part: with `feed` set and a
        truthy state, every key of the state is fed into the core, whether
        or not its value changed.  The base `save` it first calls is not
        part of this model. */
    method Save(state: Value, feed: bool) returns (ghost order: seq<string>)
      modifies core`input
      ensures var entries := OwnEntries(state);
        if feed && Truthy(state) then
          Enumerates(order, entries.Keys) && core.input == old(core.input) + FeedChunks(order, entries)
        else
          core.input == old(core.input)
    {
      order := [];
      if feed && Truthy(state) {
        order := FeedAll(OwnEntries(state));
      }
    }

    /** Feed one pulse per entry, visiting the keys in some order. */
    method FeedAll(entries: map<string, Value>) returns (ghost order: seq<string>)
      modifies core`input
      ensures Enumerates(order, entries.Keys)
      ensures core.input == old(core.input) + FeedChunks(order, entries)
    {
      order := [];
      var remaining := entries.Keys;
      while remaining != {}
        invariant Visiting(order, remaining, entries.Keys)
        invariant core.input == old(core.input) + FeedChunks(order, entries)
        decreases remaining
      {
        var k :| k in remaining;
        FeedChunksSnoc(order, k, entries);
        VisitingStep(order, remaining, entries.Keys, k);
        core.Feed(k, [entries[k]]);
        order := order + [k];
        remaining := remaining - {k};
      }
      VisitingDone(order, entries.Keys);
    }
  }

  /** `new Persona(props)`: a props object without a label is refused. */
  method NewPersona(id: NodeId, coreId: NodeId, name: string, passive: bool, enabledProp: Value,
                    personas: seq<Flow>, reactions: seq<Flow>)
    returns (r: Result<Persona, string>)
    requires coreId != id
    ensures name == "" <==> r.Throw?
    ensures r.Throw? ==> r.error == "must supply 'label' to create a new Persona"
    ensures r.Ok? ==> fresh(r.value) && r.value.Valid() && r.value.id == id &&
                      r.value.name == name && r.value.flows == personas + reactions
  {
    if name == "" {
      return Throw("must supply 'label' to create a new Persona");
    }
    var p := new Persona(id, coreId, name, passive, enabledProp, personas, reactions);
    r := Ok(p);
  }
}
