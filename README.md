# kos dataflow routing engine — a Dafny model

kos routes *pulses* between stream nodes. A pulse is a topic plus a payload, and it remembers which nodes have seen it. The model covers the following.

- **Dataflow** (`dataflow.dfy`, module `Dataflows`): the object-mode transform stream every node is built on.
  - It forwards only the pulses it has not seen, tagging each one on the way.
  - It defers its completion when the readable buffer is over its high-water mark.
  - It turns a non-pulse chunk into an `'error'` pulse.
  - It wires streams together with `link`, `unlink` and `chain`.
  - Its `io` adapter turns pulses into newline-delimited text and back.
- **Persona** (`persona.dfy`, module `Personas`): a Dataflow with a *core* Dataflow.
  - Its filter classifies each pulse. A pulse from outside is accepted or rejected. A pulse from inside is feedback: it is absorbed, produced or a byproduct. Log topics are handled on their own path.
  - It keeps a cache of the requires, inputs, outputs, consumes and absorbs keys of its children. A child joining clears the cache.
  - It has `enable`/`disable`, `link`/`unlink`, `find`/`contains` over the persona tree, and `save` with feeding.
- **Link** (`link.dfy`, module `Links`): a duplex node.
  - It holds a set of child nodes and memoises the unions of their `consumes` and `produces`.
  - It can join a parent Link and leave it, and it drains its outflow into its readable side.
- **Generator** (`generator.dfy`, module `Generators`): a Link driven by a YANG schema, with a core reaction.
  - Its `save` deep-merges a new state only when some key differs.
  - Its inflow and outflow filters check a pulse's schema against the layer's `consumes`/`produces`.
  - It joins a parent only when the parent is a `Neural.Layer`; any other parent is returned unjoined.
- **kos schema extensions** (`kos.dfy`, module `KosSchema`):
  - the reaction `transform`, which sorts a reaction's `kos:data`/`kos:node` references into `requires`, `consumes`, `produces` and `depends`;
  - the `resolve` guards of `interface`, `reaction`, `data`, `node` and `extends`.
- **Flows and schema reactions**:
  - `flows/link.js`: protocol-based dispatch, URL parsing and the per-address stream map (`flow_link.dfy`, module `FlowLink`);
  - `schemas/kinetic-link.js`: the `select` reaction (`kinetic_link.dfy`);
  - `schema/snmp.js`: connect with session reuse, option normalisation, request building and response filtering, and the walk (`snmp.dfy`);
  - `schemas/kinetic-react-js.js`: form saving with `objectify`, `applyState` and the lifecycle wrappers (`react.dfy`).
- **Supporting modules**:
  - `Wrappers`: `Option`/`Result`;
  - `Values`: a model of JavaScript values, with truthiness, property access, `String()` on numbers, `parseInt` and `split`;
  - `Pulses`: the part of `lib/pulse.js` the core uses. lib/pulse.js itself is not part of this model;
  - `Outcomes`: what a reaction handler does with one input: send, warn, throw or report an error.

How the model handles the things Dafny cannot see:
- The Node.js stream machinery is made explicit state on the Dataflow and Link classes: a written queue, a pushed queue, an ended flag, a pending `'data'` waiter and a list of pipe targets.
- Listeners and emitted events become counters and event logs.
- Things the source receives from elsewhere become parameters: a reaction's or filter's callback, `url.parse`, the KSON encoder and decoder, the net-snmp varbind error test, and a freshly created stream's id.

Where the code and its design description differ, the model follows the code.
- A deferred `_transform` completion resumes with `done(null, e.chunk)`, but `push` never sets `err.chunk`. So the resumed completion pushes nothing again (lib/dataflow.js:55, 101-107).
- `enable` links the Persona's own Dataflow with its core, through `super.link(this.core)` (lib/persona.js:58).
- The `enabled` getter is `props.enabled === true`. An explicit `enabled: true` therefore makes the constructor's `enable()` a no-op: the core is left unlinked (lib/persona.js:26, 32, 56, 198).
- With notification on, an external log pulse that does not match the inputs gets no `'reject'` flow event. It is still emitted as `'log'` and dropped (lib/persona.js:130-136).
- An internal log pulse is emitted and passed before any reaction runs (lib/persona.js:140-143).
- `save(state, { feed: true })` feeds every key of the state into the core, changed or not (lib/persona.js:76-77).
- lib/persona.js relies on members that lib/dataflow.js does not define: `this.props` (lib/persona.js:56-57, 63, 108, 195-198), `super.save` (73), `join`/`leave` (46, 50, 86), the core's `flows` (205) and the core's `'adapt'` event when a flow joins (231). The model assumes a base Dataflow that provides them: `props` holds the constructor's options, `flows` lists the joined flows, and a join emits `'adapt'`. With lib/dataflow.js as written, `new Persona(...)` throws a TypeError as soon as `enable` reads `this.props.enabled` (lib/persona.js:32, 56, 198), and `save` throws at `super.save(...arguments)` (73) before any feeding.
- The `require-instance` test is JavaScript truthiness of the statement's argument, so the argument `"false"` still puts a reference in `requires`.
- In `snmp` `connect`, `this.throw("unsupported protocol", …)` is taken to end the handler.

## Model

| member | source | states |
|---|---|---|
| Dataflows.Dataflow.constructor | lib/dataflow.js:23-36 | keeps the id; the high-water mark defaults to 100; a given filter is kept only when the props object is not a Dataflow, otherwise every pulse passes; all queues start empty |
| Dataflows.Dataflow.Mark | lib/dataflow.js:63 | a marked pulse counts as seen by this node |
| Dataflows.Dataflow.Push | lib/dataflow.js:101-109 | the chunk is buffered unless the stream ended; the push throws an error with `method = 'push'` and origin this node exactly when the buffer refuses a non-null chunk; `null` ends the stream without throwing |
| Dataflows.Dataflow.Send | lib/dataflow.js:96-99 | pushes a new pulse whose origin is this node and whose payload is the values, with the push's failure rule |
| Dataflows.Dataflow.Feed | lib/dataflow.js:91-94 | appends exactly one new origin-less pulse to the written queue |
| Dataflows.Dataflow.Error | lib/dataflow.js:118-124 | the error's origin becomes this node and an `'error'` pulse carrying it is sent; the error is returned unless that push throws |
| Dataflows.Dataflow.Transform | lib/dataflow.js:42-60 | a seen pulse is dropped with `done()`; an unseen pulse is tagged before the filter and pushed iff the filter passes; a refused push defers completion to the next `'data'`; a non-pulse sends an `'error'` pulse and completes with that error |
| Dataflows.Dataflow.Step | lib/dataflow.js:42-60 | while a completion is deferred, or nothing is written, no chunk is transformed; otherwise exactly the first written chunk is consumed: a seen pulse completes with nothing pushed; an unseen pulse is tagged and, iff this node's filter passes it, buffered, the completion being deferred exactly when the buffer refuses it; a non-pulse buffers an `'error'` pulse and completes with that error, or escapes with the push failure |
| Dataflows.Dataflow.Read | lib/dataflow.js:53-56 | reading a chunk fires `'data'`, which resumes a deferred completion with nothing pushed again |
| Dataflows.Dataflow.Write | lib/dataflow.js:91-94 | the chunk is appended to the written queue, after everything written before it |
| Dataflows.Dataflow.Pipe | lib/dataflow.js:67 | records one more pipe to the destination, after the existing ones, and returns the destination |
| Dataflows.Dataflow.Unpipe | lib/dataflow.js:68 | removes the first pipe to the destination; with none, nothing changes |
| Dataflows.Dataflow.Link | lib/dataflow.js:67 | each of the two streams gains one pipe to the other |
| Dataflows.Dataflow.Unlink | lib/dataflow.js:68 | each of the two streams loses one pipe to the other; absent pipes are ignored |
| Dataflows.Dataflow.Chain | lib/dataflow.js:83-88 | every stream of `this, f1, …, fn, this` gains exactly the pipes to its successors on that ring |
| Dataflows.Dataflow.PipeThrough | lib/dataflow.js:85 | the `reduce` pipes each stream into the next flow, ends at the last flow (or at this with none), and adds nothing else |
| Dataflows.ChainClosesRing | lib/dataflow.js:70-88 | over distinct flows, each stream of the chain pipes into exactly the next one and the last one into this |
| Dataflows.TagShrinksUnvisited | lib/dataflow.js:45-48 | tagging a pulse removes exactly that node from the ring members that have not seen it |
| Dataflows.Circulate | lib/dataflow.js:80-82 | a pulse sent round a ring is handled at most once per node, only by nodes that had not seen it, so circulation ends |
| Dataflows.LastPieceIsTail | lib/dataflow.js:152-154 | the text kept in the buffer is exactly the text after the last line feed and contains no line feed |
| Dataflows.WrittenAreSeen | lib/dataflow.js:157-159 | every pulse the text side writes carries the adapter's mark, so it is not encoded again when it comes back |
| Dataflows.DecodeLines | lib/dataflow.js:155-161 | at most one decode result per line; when no line is empty, each line is decoded once, trimmed and in order; when every line is empty, nothing is decoded |
| Dataflows.DecodeLinesAppend | lib/dataflow.js:155-161 | decoding the lines of two pieces of text decodes the first piece's lines, then the second's |
| Dataflows.NonEmptyLines | lib/dataflow.js:155 | `filter(Boolean)` keeps exactly the non-empty lines |
| Dataflows.DecodeLinesIsFilterThenMap | lib/dataflow.js:155-156 | decoding the lines equals dropping the empty lines, then trimming and decoding each remaining one, in order |
| Dataflows.DecodeEach | lib/dataflow.js:156 | one result per line |
| Dataflows.DecodeEachAt | lib/dataflow.js:156 | the i-th result is the decoding of the i-th line, trimmed |
| Dataflows.IoAdapter.constructor | lib/dataflow.js:138-168 | a new wrapper stream with an empty buffer, piped from the wrapped stream |
| Dataflows.IoAdapter.Transform | lib/dataflow.js:141-164 | an unseen pulse with a non-empty encoding is pushed as text; text is appended to the buffer; the buffer keeps the text after the last line feed; each complete non-empty line is decoded and written marked, and each failure is reported as an `'error'` pulse |
| Dataflows.IoAdapter.EncodePulse | lib/dataflow.js:142-149 | a seen pulse, or one with an empty encoding, pushes nothing; otherwise exactly its encoding is pushed |
| Dataflows.IoAdapter.DecodeText | lib/dataflow.js:155-161 | the wrapped stream receives the decoded pulses in line order, and one error report per failed line |
| Dataflows.IoAdapter.DecodeOne | lib/dataflow.js:156-160 | a decoded line writes its pulse, marked by the wrapper, into the wrapped stream; a failed one makes it report exactly one error unless that push throws |
| Dataflows.WrittenStep | lib/dataflow.js:155-161 | one more line adds at most its own pulse to what is written and at most its own error to what is reported |
| Personas.Dedup | lib/persona.js:276-281 | no duplicates, the same members as the input, and each key at its first occurrence |
| Personas.DedupKeepsFirstOccurrences | lib/persona.js:280 | `Array.from(new Set(keys))` keeps each key's first occurrence, in order |
| Personas.GatherMembership | lib/persona.js:276-279 | a key is gathered iff some counted flow declares it under one of the named fields |
| Personas.CacheOf | lib/persona.js:214-229 | no cached key list repeats a key (its members are stated by Personas.CacheMembership) |
| Personas.ReactionIds | lib/persona.js:204-213 | the cached reactions are exactly the reaction flows whose id is not the Persona's own |
| Personas.CacheMembership | lib/persona.js:202-230 | each cached key list holds exactly the keys its fields name: requires from reactions and personas, inputs from reactions (and personas when passive), outputs and consumes from reactions, absorbs from personas |
| Personas.PassiveWidensInputs | lib/persona.js:222-225 | a passive Persona accepts every input a non-passive one accepts |
| Personas.Classify | lib/persona.js:112-166 | a pulse is refused exactly when it comes from outside and matches neither inputs nor requires; a refused pulse ends with a `'log'` or `'dropped'` event; every reaction runs, in order, on every passed pulse except an internal log pulse; flow events appear only with notification |
| Personas.Accept | lib/persona.js:117-129 | an accepted external pulse is tagged accepted and runs every reaction; with notification the trace ends the events |
| Personas.Reject | lib/persona.js:130-136 | a rejected pulse is unchanged and runs no reaction; a `'reject'` flow event appears only for a non-log pulse with notification |
| Personas.Feedback | lib/persona.js:144-165 | an internal pulse is absorbed (tagged accepted) when it matches absorbs; otherwise a byproduct is marked unless passive; every reaction runs |
| Personas.MarkingStopsLeaks | lib/persona.js:148-160 | an internal non-log pulse passes, and carries the Persona's mark afterwards iff it is absorbed or is a byproduct of a non-passive Persona, so only those are kept from leaving |
| Personas.ReactionsRunOfInvocations | lib/persona.js:163 | the reactions invoked are exactly the cached reactions, in order |
| Personas.FirstReaction | lib/persona.js:181-182 | finds a counted reaction with the id iff one exists |
| Personas.Find | lib/persona.js:179-188 | a Persona finds itself by its own id; whatever `find` returns has the requested id |
| Personas.FindAmong | lib/persona.js:183-186 | whatever the search of the nested Personas returns has the requested id |
| Personas.FindIsComplete | lib/persona.js:179-188 | `find` returns something iff the id occurs in the searched tree (the Persona, a counted reaction, or a node under a counted nested Persona) |
| Personas.FindAmongIsComplete | lib/persona.js:183-186 | the search of the nested Personas finds something iff the id occurs under one of them |
| Personas.FindAmongIsFirstMatch | lib/persona.js:183-186 | what the search of the nested Personas finds is what `find` returns on the first of them, in order, under which the id occurs |
| Personas.FindOrder | lib/persona.js:181-186 | below the Persona's own id, the first counted reaction with the id wins over every nested Persona; with no such reaction the nested Personas are searched depth-first, in order, and nothing is found iff the id occurs under none of them |
| Personas.Contains | lib/persona.js:172-176 | whatever a Persona contains, `find` also finds |
| Personas.ContainsAmong | lib/persona.js:174 | whatever the nested Personas contain, the search of them also finds |
| Personas.ContainsIffReactionBelow | lib/persona.js:172-176 | `contains` is true iff some counted reaction at any depth has the id; the Persona's own id plays no part |
| Personas.ContainsAmongIffReactionBelow | lib/persona.js:174 | the nested Personas contain the id iff one of them has a counted reaction with it at some depth |
| Personas.OwnIdIsFoundNotContained | lib/persona.js:172-180 | for every Persona, `find(this.id)` is the Persona itself, while `contains(this.id)` holds only when a nested Persona has a reaction with that id |
| Personas.FeedChunks | lib/persona.js:76-77 | exactly one pulse per key visited |
| Personas.FeedChunksContents | lib/persona.js:76-77 | the i-th pulse fed has no origin, the i-th key as topic and that key's value as payload |
| Personas.Persona.constructor | lib/persona.js:17-33 | the personas then the reactions join the core; `enabled` defaults to true; an absent `enabled` or a truthy value other than `true` links the stream with the core, while an explicit `true` leaves them unlinked |
| Personas.Persona.ListenFlow | lib/persona.js:200 | adds one `'flow'` listener, which turns notification on |
| Personas.Persona.Enable | lib/persona.js:55-61 | ends enabled; links the stream and the core both ways only when it was disabled |
| Personas.Persona.Disable | lib/persona.js:62-68 | ends disabled; unlinks the stream and the core only when it was enabled |
| Personas.Persona.Link | lib/persona.js:94-97 | the core and the flow each gain one pipe to the other; linking the core with itself gives it two pipes to itself |
| Personas.Persona.Unlink | lib/persona.js:98-101 | the core and the flow each lose one pipe to the other; unlinking the core from itself removes two of its pipes to itself |
| Personas.Persona.GetCache | lib/persona.js:202-238 | returns the cache of the current flows and memoises it; only the first computation registers an `'adapt'` listener |
| Personas.Persona.Adapt | lib/persona.js:231-235 | clears the memo and emits `'adapt'` exactly when a cache existed |
| Personas.Persona.Attach | lib/persona.js:45-48 | a loaded child joins the core's flows and the cache is invalidated |
| Personas.Persona.Add | lib/persona.js:85-88 | a reaction joins the core's flows and the cache is invalidated |
| Personas.Persona.Step | lib/persona.js:112-166 | the core's `_transform` (lib/dataflow.js:42-60) with this filter: while the core's completion is deferred, or nothing is written, nothing changes; otherwise the core consumes its first written chunk; the cache is read (computed and memoised, arming one `'adapt'` listener) only when the filter runs past the internal-log return, that is for an unseen pulse that is not an internal log pulse; a seen pulse completes with nothing pushed or emitted; an unseen pulse is classified over the current cache, buffered iff the verdict passes (deferring exactly when the buffer refuses it) and the verdict's events are emitted; a non-pulse buffers an `'error'` pulse and emits nothing |
| Personas.Persona.Deliver | lib/persona.js:112-166 | the core's transform of one dequeued chunk, with the same cases as Step |
| Personas.Persona.FilterFor | lib/persona.js:112-166 | builds the filter for one chunk: it reads the cache exactly when the filter gets past line 143, and on an unseen pulse it classifies the tagged pulse over the Persona's cache |
| Personas.Persona.Save | lib/persona.js:71-80 | with `feed` set and a truthy state, feeds one pulse per own key of the state; otherwise changes nothing |
| Personas.Persona.FeedAll | lib/persona.js:76-77 | feeds every entry exactly once, in some order of the keys |
| Personas.NewPersona | lib/persona.js:17-21 | throws "must supply 'label' to create a new Persona" iff the label is empty; otherwise a valid Persona with the given flows |
| Links.UnionConsumes | lib/neural/link.js:23-29 | a key is consumed iff some child node consumes it |
| Links.UnionProduces | lib/neural/link.js:30-36 | a key is produced iff some child node produces it |
| Links.Without | lib/neural/link.js:71-74 | keeps exactly the nodes with another id |
| Links.RemoveUndoesAdd | lib/neural/link.js:60-81 | removing a node just added restores the node list |
| Links.WithoutKeepsDistinct | lib/neural/link.js:71-81 | removal keeps ids distinct and drops exactly that id |
| Links.Link.constructor | lib/neural/link.js:38-58 | no parent, no nodes, no memo; the high-water mark defaults to 100 |
| Links.Link.Add | lib/neural/link.js:60-70 | adds iff the node is absent, then clears both memos; otherwise nothing changes |
| Links.Link.Remove | lib/neural/link.js:71-81 | removes iff the node is present, then clears both memos; otherwise nothing changes |
| Links.Link.Consumes | lib/neural/link.js:23-29 | returns the union of the nodes' consumes, memoised; an existing memo is kept |
| Links.Link.Produces | lib/neural/link.js:30-36 | returns the union of the nodes' produces, memoised; an existing memo is kept |
| Links.Link.Join | lib/neural/link.js:93-100 | joining the same parent again changes nothing; a non-Link parent throws "Link can only join another instanceof Link"; a Link parent adds this node and becomes the parent |
| Links.Link.Leave | lib/neural/link.js:101-106 | the parent removes this node and the parent becomes null |
| Links.Link.Root | lib/neural/link.js:18 | follows parents to the ancestor with no Link parent |
| Links.Link.JoinItself | lib/neural/link.js:94-98 | `a.join(a)` is accepted: the Link is added to its own children and becomes its own parent |
| Links.SelfParentHasNoRoot | lib/neural/link.js:18 | a Link that is its own parent has no chain of ancestors ending without a parent, so `root` (and `error`, which reports to the root) never returns for it |
| Links.Link.Drain | lib/neural/link.js:114-119 | moves outflow chunks to the readable side until the outflow is empty or the high-water mark is reached |
| Generators.DeepMerge | lib/generator.js:72-86 | two objects merge key by key, recursively; anything else, arrays included, is replaced by the source |
| Generators.ArraysAreReplaced | lib/generator.js:72 | an array in the new state replaces the old value |
| Generators.MergeSelf | lib/generator.js:86 | merging a state into itself gives it back |
| Generators.MergeIdempotent | lib/generator.js:86 | merging the same update twice equals merging it once |
| Generators.SkippedMergeIsInvisible | lib/generator.js:78-89 | when no key differs, merging would change no key, so skipping the merge is unobservable |
| Generators.AnyDiffers | lib/generator.js:75-83 | true iff some key of the update differs from the previous state |
| Generators.FindCore | lib/generator.js:43 | nothing is found iff no node of the layer is tagged `core`; otherwise the result is the first node tagged `core`, in insertion order |
| Generators.CoreOf | lib/generator.js:32-43 | the `core` setter gets a Reaction exactly when the node found is one, and then that node |
| Generators.FindCoreAppend | lib/generator.js:43 | the search of `a + b` finds the core of `a` when `a` has one, and that of `b` otherwise |
| Generators.JoinAll | lib/generator.js:42 | applying a schema keeps the old layer as a prefix and appends only applied nodes |
| Generators.JoinAllIds | lib/generator.js:42 | the layer's ids after applying are exactly the old ids plus the applied ones |
| Generators.JoinAllDistinct | lib/generator.js:42 | applying keeps the layer's ids distinct |
| Generators.SchemaChangeKeepsCore | lib/generator.js:38-44 | when the layer already holds a core-tagged node, applying another schema finds that same node again |
| Generators.Generator.constructor | lib/generator.js:56-61 | an empty layer with no state, no core and no schema |
| Generators.Generator.AssignState | lib/generator.js:47-54 | the first assignment stores the object; later ones copy its keys over the state and leave the other keys unchanged |
| Generators.Generator.Save | lib/generator.js:69-92 | `null` throws; a non-object changes nothing; with no differing key nothing changes; otherwise the state becomes the deep merge and is emitted iff `emit` |
| Generators.Generator.Incoming | lib/generator.js:93-98 | passes iff some node consumes the pulse's schema |
| Generators.Generator.Outgoing | lib/generator.js:99-107 | passes iff some node produces the pulse's schema |
| Generators.Generator.SetCore | lib/generator.js:31-36 | a non-Reaction throws "Generator core must be an instance of Reaction"; a Reaction becomes the core and joins the layer |
| Generators.Generator.SetSchema | lib/generator.js:38-45 | a non-Yang throws "Generator schema must be an instance of Yang"; otherwise the layer becomes `JoinAll` of the old layer and the applied nodes, and the core is the first node of the whole layer tagged `core`, refused (core unchanged) unless it is a Reaction |
| Generators.Generator.Feed | lib/generator.js:65-68 | returns the pulse written into the core: the topic, the layer as origin, the values as payload and no node marks; with no core it throws |
| Generators.Generator.Join | lib/generator.js:108-111 | a parent that is not a `Neural.Layer`, a plain Link included, is returned with nothing changed; a Layer parent is joined as a Link joins |
| Generators.NewGenerator | lib/generator.js:56-64 | construction throws iff the schema is not Yang or the first applied node tagged `core` is missing or not a Reaction; otherwise that node is the core and the state is the one given |
| KosSchema.Transform | schema/kos.js:56-92 | every feature maps to its lookup; each input reference goes to `requires` when its require-instance is truthy, otherwise to `consumes`; each output reference goes to `produces` |
| KosSchema.InputsArePartitioned | schema/kos.js:80-83 | each input reference lands in the Set its require-instance selects |
| KosSchema.InputsAreCovered | schema/kos.js:80-83 | `requires` and `consumes` together hold exactly the targets of the input references |
| KosSchema.OutputsIgnoreRequireInstance | schema/kos.js:84-87 | require-instance on an output leaves `produces` unchanged |
| KosSchema.OtherKindsAreIgnored | schema/kos.js:57-72 | an expression that is neither `kos:data` nor `kos:node` adds nothing to any Set |
| KosSchema.Find | schema/kos.js:62-64 | a lookup finds a value iff the key is defined |
| KosSchema.ResolveIo | schema/kos.js:52-55 | succeeds iff input and output hold no plain data nodes; otherwise throws "cannot contain data nodes in reaction input/output" |
| KosSchema.ResolveData | schema/kos.js:110-114 | succeeds iff the grouping exists; otherwise throws "unable to resolve … grouping definition" |
| KosSchema.ResolveNode | schema/kos.js:129-133 | succeeds iff the data node can be located; otherwise throws "unable to resolve … data node" |
| KosSchema.ResolveExtends | schema/kos.js:136-146 | succeeds iff the interface exists, appending a clone carrying the tag to the parent's extensions; otherwise throws "unable to resolve … interface" |
| KosSchema.ResolvedBoundsAreDefined | schema/kos.js:58-68 | once every reference resolves, no bound holds `undefined` |
| Outcomes.ReadProp | schemas/kinetic-react-js.js:71 | destructuring throws iff the value is `undefined` or `null`; otherwise it reads the property |
| FlowLink.FamilyOf | flows/link.js:29-41 | `ws:`/`wss:` are the ws family; `tcp:`, `udp:` and an absent protocol are the net family |
| FlowLink.Dispatch | flows/link.js:28-42 | sends to `ws/connect` or `net/connect` by family; warns "unsupported protocol" with the protocol otherwise; throws on `null`/`undefined` options |
| FlowLink.ListenMirrorsConnect | flows/link.js:44-58 | `listen` routes every option exactly as `connect` does, to the matching `…/listen` topic |
| FlowLink.ByUrl | flows/link.js:60-72 | a destination without a protocol is reparsed with a `tcp:` prefix; the query fields override the parsed fields; the result goes to `link/connect` or `link/listen` |
| FlowLink.LinkStreams.CreateLinkStream | flows/link.js:74-92 | an existing address reuses its stream; a new address stores the fresh stream and announces it once; a missing link or socket, or a socket without an `on` method, throws before anything is stored |
| KineticLink.Select | schemas/kinetic-link.js:9-23 | `ws`/`wss` go to `ws:endpoint`, `tcp`/`udp` to `net:endpoint`; anything else warns "unsupported protocol" |
| KineticLink.SelectAgreesWithConnect | schemas/kinetic-link.js:11-19 | for the four protocols, `select` picks the same family as the link flow's `connect` does for the colon-suffixed name |
| KineticLink.AbsentProtocolDiffers | schemas/kinetic-link.js:20-21 | with no protocol, `select` warns while the link flow sends to `net/connect` |
| Snmp.Or | schema/snmp.js:109-115 | JavaScript `or` on two values: the first when it is truthy, otherwise the default |
| Snmp.IntOr | schema/snmp.js:111-113 | `parseInt` in base 10 falling back to the default: the parsed number unless parsing fails or gives zero; a non-zero default gives a non-zero result |
| Snmp.NormalizeOptions | schema/snmp.js:107-117 | throws iff the options are `null`/`undefined`; otherwise each field takes its default (`snmp:`, `0.0.0.0`, 161, 1, 5000, `public`, version 0) when falsy |
| Snmp.AsValue | schema/snmp.js:108-116 | the normalised record as an object with exactly the seven fields |
| Snmp.NormalizedIsNormal | schema/snmp.js:107-117 | every normalised record has truthy fields and non-zero numbers |
| Snmp.NormalizeIdempotent | schema/snmp.js:107-117 | normalising a normalised record whose numbers are safe integers gives it back |
| Snmp.EmptyOptionsTakeDefaults | schema/snmp.js:107-117 | `{}` normalises to all the defaults |
| Snmp.AddrOfDefaults | schema/snmp.js:51 | the session key of the default options is `snmp://0.0.0.0:161` |
| Snmp.AddrIgnoresSessionOptions | schema/snmp.js:51-55 | records that agree on protocol, host name and port share one session key, whatever their retries, timeout, version or community |
| Snmp.SessionFor | schema/snmp.js:53 | the session gets the host, community and port of the options, and no transport |
| Snmp.SnmpConnector.Connect | schema/snmp.js:40-58 | a string goes to `snmp:connect/url`; a protocol other than `snmp:` fails; a session is created only for a new address, and the stored session is sent; existing sessions are never changed |
| Snmp.Snmpget | schema/snmp.js:74 | sends `['get', …oids]` on `snmp:request` |
| Snmp.Snmpset | schema/snmp.js:75-78 | sends `['set', …varbinds]` on `snmp:request` |
| Snmp.SplitRequest | schema/snmp.js:62 | the method and the arguments put back together give the request |
| Snmp.RequestRoundTrip | schema/snmp.js:62-78 | `request` splits what `snmpget` and `snmpset` build back into their method and arguments |
| Snmp.Kept | schema/snmp.js:65-69 | the filter never yields more varbinds than it is given |
| Snmp.KeptMembership | schema/snmp.js:65-69 | a varbind is kept iff it is in the batch and is not an error |
| Snmp.Errors | schema/snmp.js:66-67 | exactly the erroring varbinds |
| Snmp.FilterPartitions | schema/snmp.js:65-69 | kept and reported varbinds together are a permutation of the batch |
| Snmp.KeptAppend | schema/snmp.js:65-69 | filtering two batches equals filtering their concatenation |
| Snmp.Respond | schema/snmp.js:63-71 | a truthy error is reported alone; otherwise one report per erroring varbind, then the kept ones on `snmp:response` |
| Snmp.WalkResults | schema/snmp.js:82-91 | the corrected accumulation of a walk with no batches is empty; its content is the subject of Snmp.WalkKeepsEveryGoodVarbind |
| Snmp.WalkKeepsEveryGoodVarbind | schema/snmp.js:79-97 | the corrected walk collects every good varbind, in order, as if the whole walk were filtered at once |
| Snmp.WalkDone | schema/snmp.js:92-96 | an error is reported; otherwise every good varbind of the walk is sent on `snmp:response` |
| Snmp.WalkDropsResults | schema/snmp.js:90 | a one-varbind walk: the corrected walk responds with it, the walk as written responds with nothing |
| React.CutPath | schemas/kinetic-react-js.js:82 | the `shift` loop takes the longest prefix of non-empty segments and stops at the first empty one |
| React.Nest | schemas/kinetic-react-js.js:82-86 | a non-empty path nests into an object whose only key is its first segment |
| React.Objectify | schemas/kinetic-react-js.js:78-88 | the loops compute the objectified value, including its leading-empty-segment error |
| React.ShiftSegments | schemas/kinetic-react-js.js:82-85 | the `shift` loop visits exactly the cut path of the segments |
| React.NestUnder | schemas/kinetic-react-js.js:81-86 | the objects built around the value are its nesting under the path |
| React.DigNest | schemas/kinetic-react-js.js:82-86 | reading the nesting path back gives the value |
| React.ObjectifyPlacesValue | schemas/kinetic-react-js.js:78-88 | the value sits at the cut path of the split key |
| React.ObjectifyNests | schemas/kinetic-react-js.js:78-88 | `a/b/c` nests three levels deep |
| React.ObjectifyCutsAtEmptySegment | schemas/kinetic-react-js.js:82 | `a//b` stops at the empty segment and places the value under `a` |
| React.ObjectifyLeadingSlashThrows | schemas/kinetic-react-js.js:86 | `/a` leaves `last` undefined and throws |
| React.SaveFormData | schemas/kinetic-react-js.js:70-77 | a missing target is `{}`; a falsy name saves nothing; a checkbox saves `checked`; otherwise the objectified name and value are saved |
| React.CheckboxSavesChecked | schemas/kinetic-react-js.js:74-77 | a checkbox named `a/b` saves its flag under `a.b` |
| React.ApplyState | schemas/kinetic-react-js.js:64-66 | the setter is called with the state iff `lifecycle.active` is truthy |
| React.AsWrittenNeverActivates | schemas/kinetic-react-js.js:37-38 | with `in` on an array, mounting never activates, and unmounting deactivates |
| React.NextActive | schemas/kinetic-react-js.js:37-38 | the corrected rule: mounting activates, unmounting deactivates, other states keep the flag |
| React.ActiveIffMountedSinceUnmount | schemas/kinetic-react-js.js:33-42 | after a run of lifecycle calls, the component is active iff a mount happened after the last unmount |
| React.Lifecycle.constructor | schemas/kinetic-react-js.js:33 | inactive, nothing sent |
| React.LifecycleAsWritten.constructor | schemas/kinetic-react-js.js:33 | inactive, nothing sent |
| React.LifecycleAsWritten.Fire | schemas/kinetic-react-js.js:34-42 | with the flag update as written the flag stays `false`, so every event sent, on mount too, reports `active: false`; the original method's result or the target is returned |
| React.Lifecycle.Fire | schemas/kinetic-react-js.js:34-42 | updates the flag with the corrected rule, sends `react:lifecycle` with the new flag, the state and the arguments, and returns the original method's result or the target |

## Left out

- A Node.js stream's internals are replaced by explicit queues. This leaves out byte counts and encodings, backpressure beyond the high-water-mark rule, `pipe` moving data on its own, and `end` propagation. The `pipes` lists record the wiring only.
- Every id in the model is given. `uuid()` draws random ids, so it is left out.
- `setMaxListeners` and the listener limits (lib/dataflow.js:12, 35; lib/persona.js:11, 108) are left out. They only raise warnings.
- `filter` exceptions other than a refused push (lib/dataflow.js:57) are left out. The model's filters are total functions and cannot throw.
- `this.read(0)` (lib/dataflow.js:52) is left out. Re-initiating a read has no state of its own in the model.
- `log`, `throw` and `inspect` of lib/dataflow.js (111-132) are left out. `log` only emits an event, and `throw` is `error` followed by an exception.
- The KSON encoding of pulses (`toKSON`/`fromKSON`) is given as the encoder and decoder parameters of the `io` adapter. lib/pulse.js is not part of this model.
- The `io` adapter's `/\r?\n/` split is modelled as splitting on a line feed and dropping one carriage return before it.
- Persona `desc`, `pass`, `create`, `pre`, `in`, `inspect` and `toJSON` (lib/persona.js:40-43, 90-91, 240-263) are left out. They set props or describe the object. `passive` is a constant of the model.
- `load`/`unload` (lib/persona.js:45-52) are modelled only as a child joining (`Attach`). Creating the child, saving its state and the child leaving are left out, because the Reaction and child Persona classes are not part of this model.
- The executable-function trick of the Persona constructor (lib/persona.js:35-37) is left out. The returned function only clones the Persona.
- The `active` getter (lib/persona.js:199) is left out, because a child's parent chain is not modelled.
- Reaction objects are data in the model (id and declared keys). When the Persona filter runs a reaction, this is recorded as an event. lib/reaction.js is not part of this model.
- Link `connect`/`disconnect` (lib/neural/link.js:82-89) are left out as piping. Node membership is modelled instead.
- Link `_write` and `error` (lib/neural/link.js:110-126) are left out. They forward to the inflow or the root.
- The Generator getters `name`, `uri`, `summary`, `inputs`, `outputs` and `inspect` (lib/generator.js:21-28, 112-120) are left out. So is the `kos:state` branch of `outgoing`, which is empty.
- A YANG `apply` is modelled only by its effect on the layer: the applied child nodes join it. yang-js is not part of this model.
- The `construct` and `transform` of the `interface` extension and the `endpoint` grouping's `uri` accessor (schema/kos.js:27-32, 93-95, 148-162) are left out. They build objects of classes that are not part of this model or format URLs.
- The SNMP session calls and the walk's I/O (`session[method]`, `session.walk`, `session.on('error')`) are left out. The model states what the handlers do with the callbacks' results.
- SNMP `connectByUrl` (schema/snmp.js:100-105) is left out. It has the same form as `FlowLink.ByUrl`, but with a `slashes` test on the URL library's result.
- kinetic-link `sync` (schemas/kinetic-link.js:25-68) is left out. It pipes the root into a channel and then returns before the rest runs.
- The socket handlers of `createLinkStream` (flows/link.js:79-86, 88) are left out. They are I/O on `'active'` and `'close'`.
- The react `transform`'s overrides of `state` and `setState`, `observe`, `trigger`, the `'save'` listener, the props/setter sends and the initial `save` (schemas/kinetic-react-js.js:18-30, 45-56) are left out. So are `history` and `clearForm` (58-63, 90-96). All of them touch the React component or the DOM.
- JavaScript Map and Set compare objects by identity. The model compares keys by value: stream addresses, schema nodes and bound targets. A Link's children (`kNodes`, lib/neural/link.js:57, 60-74) are compared by id, so two distinct node objects with one id count as one child.
- `Object.keys` order is not modelled. Keys are visited in some order, and `Personas.Persona.FeedAll` says only that each key is fed exactly once.
- `deep-equal` is modelled as structural equality of values.
- Personas.Persona.Save: does not model the base `save` that `super.save` calls. lib/dataflow.js defines none, so as written the call throws a TypeError before any feeding (lib/persona.js:73); the model assumes a base `save` exists and models only the feeding that follows it.
- The base-class members lib/persona.js uses and lib/dataflow.js lacks (`props`, `save`, `join`/`leave`, `flows`, the `'adapt'` event on join) are assumed, not modelled; the TypeErrors they raise with lib/dataflow.js as written are not modelled.
- Parent cycles are not ruled out by `join` (lib/neural/link.js:94-98): `a.join(a)`, or `a.join(b)` then `b.join(a)`, is accepted. `root` (18) and `error` (124) then recurse until the JavaScript stack overflows. Links.Link.Root: takes as given a finite chain of ancestors ending at a Link without a parent, so it does not model that non-termination; Links.SelfParentHasNoRoot shows that no such chain exists after `Links.Link.JoinItself`.
- Links.Link.Join: a child Link is stored in its parent as a value taken at the time it joins (its id and the unions of its own children then). Later changes to the child never reach the parent, so the live read of a nested child's `consumes`/`produces` (lib/neural/link.js:25, 32) and a parent memo that goes stale when a child changes are not modelled.
- Links.Link.Consumes: recomputes over the children's values as they were when they joined, not over a nested Link's current `consumes`; see Links.Link.Join.
- Links.Link.Produces: recomputes over the children's values as they were when they joined, not over a nested Link's current `produces`; see Links.Link.Join.
- Generators.Generator.Join: the generator's layer joins a parent as a value taken at join time, with the same consequences as for Links.Link.Join.
- lib/neural/layer.js is not part of this model. A Link records with the constant `isLayer` whether it was built as a `Neural.Layer`; a Generator's own layer is one.
- Numbers are unbounded integers. JavaScript numbers are doubles: integers beyond 2^53 lose precision, `String` writes numbers from 10^21 up in exponent notation (`parseInt` of that text stops at the `e`), and fractions are not modelled (`parseInt(0.5)` is 0). Values.ParseIntOfNumber and Snmp.NormalizeIdempotent are therefore stated for safe integers only (`Values.IsSafeInteger`).

## Findings

| source | as written | input that shows it | evidently intended | confidence | as-written member | corrected member |
|---|---|---|---|---|---|---|
| schema/snmp.js:90 | `results.concat(varbinds)` discards its value, so `results` stays `[]` and every walk responds with an empty array | a walk delivering one batch holding one good varbind | `results = results.concat(varbinds)`, collecting the good varbinds of every batch | high, not executed | Snmp.WalkDropsResults | Snmp.WalkKeepsEveryGoodVarbind |
| schemas/kinetic-react-js.js:37 | `state in ['mounting','mounted']` tests the array's index keys, so no lifecycle call ever sets `active` | `componentDidMount()` on an inactive component: it stays inactive | set `active` when the state is `mounting` or `mounted` (`includes`) | high, not executed | React.AsWrittenNeverActivates | React.ActiveIffMountedSinceUnmount |
