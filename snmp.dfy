/** The `snmp` flow of schema/snmp.js: option normalisation, the session
    map of `connect`, the request shapes of `snmp:get`/`snmp:set`, and the
    filtering of erroring varbinds from a response.  The SNMP library is
    reached through parameters: `isVarbindError` as a predicate on a
    varbind, `varbindError` as the error it reports. */
module Snmp {
  import opened Wrappers
  import opened Values
  import opened Outcomes

  /** `PROTOCOLS`. */
  const PROTOCOLS: seq<Value> := [Str("snmp:")]

  const DEFAULT_PORT := 161
  const DEFAULT_RETRIES := 1
  const DEFAULT_TIMEOUT := 5000

  /** The record `normalizeOptions` returns.  It has no `transport`. */
  datatype Options = Options(
    protocol: Value,
    hostname: Value,
    port: int,
    retries: int,
    timeout: int,
    version: int,
    community: Value)

  /** `x || d` on a value. */
  function Or(x: Value, d: Value): (r: Value)
    ensures Truthy(r)  <== Truthy(d)
    ensures Truthy(x) ==> r == x
    ensures !Truthy(x) ==> r == d
  {
    if Truthy(x) then x else d
  }

  /** `parseInt(x, 10) || d`: `NaN` and `0` are falsy. */
  function IntOr(x: Value, d: int): (r: int)
    ensures d != 0 ==> r != 0
    ensures ParseInt(x).Some? && ParseInt(x).value != 0 ==> r == ParseInt(x).value
    ensures ParseInt(x).None? || ParseInt(x) == Some(0) ==> r == d
  {
    match ParseInt(x)
    case None => d
    case Some(n) => if n == 0 then d else n
  }

  /** `normalizeOptions(opts)`: each option falls back to its default when
      it is falsy (for the numeric ones, when it does not parse or parses to
      0); the version is always 0 and any `transport` is dropped.  Reading
      the options of `undefined` or `null` throws. */
  function NormalizeOptions(opts: Value): (r: Result<Options, string>)
    ensures r.Throw? <==> opts.Undefined? || opts.Null?
    ensures r.Ok? ==>
      r.value.protocol == Or(Get(opts, "protocol"), Str("snmp:")) &&
      r.value.hostname == Or(Get(opts, "hostname"), Str("0.0.0.0")) &&
      r.value.community == Or(Get(opts, "community"), Str("public")) &&
      r.value.port == IntOr(Get(opts, "port"), DEFAULT_PORT) &&
      r.value.retries == IntOr(Get(opts, "retries"), DEFAULT_RETRIES) &&
      r.value.timeout == IntOr(Get(opts, "timeout"), DEFAULT_TIMEOUT) &&
      r.value.version == 0
  {
    match ReadProp(opts, "protocol")
    case Throw(e) => Throw(e)
    case Ok(protocol) =>
      Ok(Options(
        Or(protocol, Str("snmp:")),
        Or(Get(opts, "hostname"), Str("0.0.0.0")),
        IntOr(Get(opts, "port"), DEFAULT_PORT),
        IntOr(Get(opts, "retries"), DEFAULT_RETRIES),
        IntOr(Get(opts, "timeout"), DEFAULT_TIMEOUT),
        0,
        Or(Get(opts, "community"), Str("public"))))
  }

  /** The normalised record as the object it is. */
  function AsValue(o: Options): (v: Value)
    ensures v.Obj? && v.fields.Keys == {"protocol", "hostname", "port", "retries", "timeout", "version", "community"}
    ensures Get(v, "protocol") == o.protocol && Get(v, "hostname") == o.hostname
    ensures Get(v, "community") == o.community && Get(v, "version") == Num(o.version)
    ensures Get(v, "port") == Num(o.port) && Get(v, "retries") == Num(o.retries)
    ensures Get(v, "timeout") == Num(o.timeout)
  {
    Obj(map["protocol" := o.protocol, "hostname" := o.hostname, "port" := Num(o.port),
            "retries" := Num(o.retries), "timeout" := Num(o.timeout),
            "version" := Num(o.version), "community" := o.community])
  }

  /** A safe integer that is not 0 survives `parseInt(x, 10) || d`. */
  lemma IntOrOfNumber(n: int, d: int)
    requires n != 0 && IsSafeInteger(n)
    ensures IntOr(Num(n), d) == n
  {
    ParseIntOfNumber(n);
  }

  /** `parseInt(undefined, 10)` is `NaN`. */
  lemma ParseIntOfUndefined()
    ensures ParseInt(Undefined).None?
  {
    assert ToJsString(Undefined) == "undefined";
    assert TrimStart("undefined") == "undefined";
  }

  /** What every normalised record satisfies: nothing falsy, version 0. */
  predicate Normal(o: Options) {
    Truthy(o.protocol) && Truthy(o.hostname) && Truthy(o.community) &&
    o.port != 0 && o.retries != 0 && o.timeout != 0 && o.version == 0
  }

  lemma NormalizedIsNormal(opts: Value)
    requires NormalizeOptions(opts).Ok?
    ensures Normal(NormalizeOptions(opts).value)
  {
  }

  /** Normalising options that are already normalised changes nothing,
      as long as their numbers are ones a JavaScript number holds exactly. */
  lemma {:induction false} NormalizeIdempotent(o: Options)
    requires Normal(o)
    requires IsSafeInteger(o.port) && IsSafeInteger(o.retries) && IsSafeInteger(o.timeout)
    ensures NormalizeOptions(AsValue(o)) == Ok(o)
  {
    IntOrOfNumber(o.port, DEFAULT_PORT);
    IntOrOfNumber(o.retries, DEFAULT_RETRIES);
    IntOrOfNumber(o.timeout, DEFAULT_TIMEOUT);
  }

  /** Missing options take exactly the documented defaults. */
  lemma EmptyOptionsTakeDefaults()
    ensures NormalizeOptions(Obj(map[])) ==
      Ok(Options(Str("snmp:"), Str("0.0.0.0"), 161, 1, 5000, 0, Str("public")))
  {
    ParseIntOfUndefined();
    var r := NormalizeOptions(Obj(map[])).value;
    assert r.port == 161 && r.retries == 1 && r.timeout == 5000;
  }

  /** The session key `${protocol}//${hostname}:${port}`. */
  function Addr(o: Options): string {
    ToJsString(o.protocol) + "//" + ToJsString(o.hostname) + ":" + IntToString(o.port)
  }

  /** The default record is keyed `snmp://0.0.0.0:161`. */
  lemma AddrOfDefaults()
    ensures Addr(Options(Str("snmp:"), Str("0.0.0.0"), 161, 1, 5000, 0, Str("public"))) ==
            "snmp://0.0.0.0:161"
  {
  }

  /** Records that differ only in retries, timeout, version or community
      share one key, so the session made for the first is the one every
      later request with them gets. */
  lemma AddrIgnoresSessionOptions(a: Options, b: Options)
    requires a.protocol == b.protocol && a.hostname == b.hostname && a.port == b.port
    ensures Addr(a) == Addr(b)
  {
  }

  /** What `snmp.createSession(hostname, community, { port, retries,
      timeout, transport, version })` is given.  `transport` is read from
      the normalised record, which never has one. */
  datatype Session = Session(
    hostname: Value, community: Value, port: int, retries: int, timeout: int,
    transport: Value, version: int)

  function SessionFor(o: Options): (s: Session)
    ensures s.transport == Undefined && s.version == 0 <== o.version == 0
    ensures s.hostname == o.hostname && s.community == o.community && s.port == o.port
  {
    Session(o.hostname, o.community, o.port, o.retries, o.timeout, Undefined, o.version)
  }

  /** What `connect` does with one input. */
  datatype ConnectOutcome =
    | SentUrl(url: Value)
    | SentSession(session: Session)
    | Failed(message: string, detail: Value)

  /** The `sessions` state of the flow. */
  class SnmpConnector {
    var sessions: map<string, Session>

    constructor ()
      ensures sessions == map[]
    {
      sessions := map[];
    }

    /** `connect(opts)`.  A string is forwarded to `snmp:connect/url`.
        Otherwise the options are normalised; a protocol other than
        `snmp:` throws; a session is created under the address key only
        when the key is absent, and the stored session is sent. */
    method Connect(opts: Value) returns (r: ConnectOutcome)
      modifies this
      ensures opts.Str? ==> r == SentUrl(opts) && sessions == old(sessions)
      ensures !opts.Str? && NormalizeOptions(opts).Throw? ==>
        r.Failed? && sessions == old(sessions)
      ensures !opts.Str? && NormalizeOptions(opts).Ok? ==>
        var o := NormalizeOptions(opts).value;
        (o.protocol !in PROTOCOLS ==>
           r == Failed("unsupported protocol", o.protocol) && sessions == old(sessions)) &&
        (o.protocol in PROTOCOLS ==>
           var key := Addr(o);
           sessions == (if key in old(sessions) then old(sessions)
                        else old(sessions)[key := SessionFor(o)]) &&
           r == SentSession(sessions[key]))
      ensures forall k :: k in old(sessions) ==> k in sessions && sessions[k] == old(sessions)[k]
    {
      if opts.Str? {
        return SentUrl(opts);
      }
      var normal := NormalizeOptions(opts);
      if normal.Throw? {
        return Failed(normal.error, Undefined);
      }
      var o := normal.value;
      if o.protocol !in PROTOCOLS {
        return Failed("unsupported protocol", o.protocol);
      }
      var key := Addr(o);
      if key !in sessions {
        sessions := sessions[key := SessionFor(o)];
      }
      r := SentSession(sessions[key]);
    }
  }

  /** `snmpget(oids)` and `snmpset(varbinds)`: the request array names the
      session method first and spreads the arguments after it. */
  function Snmpget(oids: seq<Value>): (r: Outcome)
    ensures r.Sent? && r.topic == "snmp:request"
  {
    Sent("snmp:request", Arr([Str("get")] + oids))
  }

  function Snmpset(varbinds: seq<Value>): (r: Outcome)
    ensures r.Sent? && r.topic == "snmp:request"
  {
    Sent("snmp:request", Arr([Str("set")] + varbinds))
  }

  /** `const [ method, ...args ] = req` in `request`. */
  function SplitRequest(req: seq<Value>): (r: (Value, seq<Value>))
    ensures req == [] ==> r == (Undefined, [])
    ensures req != [] ==> [r.0] + r.1 == req
  {
    if req == [] then (Undefined, []) else (req[0], req[1..])
  }

  /** `request` recovers exactly the method and arguments that
      `snmp:get`/`snmp:set` put in the request. */
  lemma RequestRoundTrip(xs: seq<Value>)
    ensures SplitRequest(Snmpget(xs).value.items) == (Str("get"), xs)
    ensures SplitRequest(Snmpset(xs).value.items) == (Str("set"), xs)
  {
    assert ([Str("get")] + xs)[1..] == xs;
    assert ([Str("set")] + xs)[1..] == xs;
  }

  /** The varbinds `filter` keeps, in their original order. */
  function Kept(varbinds: seq<Value>, isError: Value -> bool): (kept: seq<Value>)
    ensures |kept| <= |varbinds|
  {
    if varbinds == [] then []
    else (if isError(varbinds[0]) then [] else [varbinds[0]]) + Kept(varbinds[1..], isError)
  }

  /** `filter` keeps exactly the varbinds that are not errors. */
  lemma {:induction false} KeptMembership(varbinds: seq<Value>, isError: Value -> bool, v: Value)
    ensures v in Kept(varbinds, isError) <==> v in varbinds && !isError(v)
  {
    if varbinds != [] {
      KeptMembership(varbinds[1..], isError, v);
      assert varbinds == [varbinds[0]] + varbinds[1..];
    }
  }

  /** The erroring varbinds, each reported in order. */
  function Errors(varbinds: seq<Value>, isError: Value -> bool): (errors: seq<Value>)
    ensures forall v :: v in errors <==> v in varbinds && isError(v)
  {
    if varbinds == [] then []
    else (if isError(varbinds[0]) then [varbinds[0]] else []) + Errors(varbinds[1..], isError)
  }

  /** Filtering splits the response: every varbind is kept or reported,
      and none is both or lost. */
  lemma {:induction false} FilterPartitions(varbinds: seq<Value>, isError: Value -> bool)
    ensures multiset(Kept(varbinds, isError)) + multiset(Errors(varbinds, isError)) == multiset(varbinds)
    ensures |Kept(varbinds, isError)| + |Errors(varbinds, isError)| == |varbinds|
  {
    if varbinds != [] {
      FilterPartitions(varbinds[1..], isError);
      assert varbinds == [varbinds[0]] + varbinds[1..];
    }
  }

  /** Relative order survives: the kept varbinds of two consecutive batches
      are the kept varbinds of the whole. */
  lemma {:induction false} KeptAppend(a: seq<Value>, b: seq<Value>, isError: Value -> bool)
    ensures Kept(a + b, isError) == Kept(a, isError) + Kept(b, isError)
  {
    if a != [] {
      KeptAppend(a[1..], b, isError);
      assert a + b == [a[0]] + (a[1..] + b);
      assert a == [a[0]] + a[1..];
      KeptCons(a[0], a[1..] + b, isError);
      KeptCons(a[0], a[1..], isError);
    } else {
      assert a + b == b;
    }
  }

  lemma KeptCons(x: Value, s: seq<Value>, isError: Value -> bool)
    ensures Kept([x] + s, isError) == (if isError(x) then [] else [x]) + Kept(s, isError)
  {
    assert ([x] + s)[0] == x && ([x] + s)[1..] == s;
  }

  /** The reports of `request`'s callback: an error fails the request;
      otherwise each erroring varbind is reported (as `varbindError` makes
      it) and the rest are sent on `snmp:response`. */
  function Respond(err: Value, varbinds: seq<Value>, isError: Value -> bool,
                   varbindError: Value -> Value): (r: seq<Outcome>)
    ensures Truthy(err) ==> r == [Reported(err)]
    ensures !Truthy(err) ==>
      |r| == |Errors(varbinds, isError)| + 1 &&
      r[|r| - 1] == Sent("snmp:response", Arr(Kept(varbinds, isError))) &&
      forall i :: 0 <= i < |r| - 1 ==> r[i] == Reported(varbindError(Errors(varbinds, isError)[i]))
  {
    if Truthy(err) then [Reported(err)]
    else
      var errors := Errors(varbinds, isError);
      seq(|errors|, i requires 0 <= i < |errors| => Reported(varbindError(errors[i])))
        + [Sent("snmp:response", Arr(Kept(varbinds, isError)))]
  }

  // ---------------------------------------------------------------------
  // snmpwalk's accumulation
  // ---------------------------------------------------------------------

  /** `snmpwalk` as written: `feed` filters each batch and evaluates
      `results.concat(varbinds)` without keeping the value, so `results`
      stays the empty array it started as. */
  function WalkResultsAsWritten(batches: seq<seq<Value>>, isError: Value -> bool): seq<Value> {
    []
  }

  /** `snmpwalk` as evidently intended (`results = results.concat(varbinds)`):
      the kept varbinds of every batch, in order. */
  function WalkResults(batches: seq<seq<Value>>, isError: Value -> bool): (r: seq<Value>)
    ensures batches == [] ==> r == []
  {
    if batches == [] then []
    else WalkResults(batches[..|batches| - 1], isError) + Kept(batches[|batches| - 1], isError)
  }

  function Concat(batches: seq<seq<Value>>): seq<Value> {
    if batches == [] then [] else Concat(batches[..|batches| - 1]) + batches[|batches| - 1]
  }

  /** The corrected walk sends every good varbind the walk delivered, as if
      the whole walk were filtered at once. */
  lemma {:induction false} WalkKeepsEveryGoodVarbind(batches: seq<seq<Value>>, isError: Value -> bool)
    ensures WalkResults(batches, isError) == Kept(Concat(batches), isError)
  {
    if batches != [] {
      var init := batches[..|batches| - 1];
      WalkKeepsEveryGoodVarbind(init, isError);
      KeptAppend(Concat(init), batches[|batches| - 1], isError);
    }
  }

  /** `done(error)` of the corrected walk: an error is reported, otherwise
      every good varbind of the walk is sent on `snmp:response`. */
  function WalkDone(error: Value, batches: seq<seq<Value>>, isError: Value -> bool): (r: Outcome)
    ensures Truthy(error) ==> r == Reported(error)
    ensures !Truthy(error) ==> r == Sent("snmp:response", Arr(Kept(Concat(batches), isError)))
  {
    if Truthy(error) then Reported(error)
    else
      WalkKeepsEveryGoodVarbind(batches, isError);
      Sent("snmp:response", Arr(WalkResults(batches, isError)))
  }

  /** A one-batch walk of one good varbind: the corrected walk responds with
      it, the walk as written responds with nothing. */
  lemma WalkDropsResults()
    ensures var batches := [[Str("1.3.6.1.2.1.1.1.0")]];
            var noError := (v: Value) => false;
            WalkResults(batches, noError) == [Str("1.3.6.1.2.1.1.1.0")] &&
            WalkResultsAsWritten(batches, noError) == []
  {
    var batches := [[Str("1.3.6.1.2.1.1.1.0")]];
    var noError := (v: Value) => false;
    assert batches[..0] == [];
    assert Kept([Str("1.3.6.1.2.1.1.1.0")], noError) == [Str("1.3.6.1.2.1.1.1.0")] by {
      assert [Str("1.3.6.1.2.1.1.1.0")][1..] == [];
    }
  }
}
