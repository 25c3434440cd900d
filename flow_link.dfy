/** The `link` flow of flows/link.js: protocol dispatch of `link/connect`
    and `link/listen`, their URL forms, and the per-address stream map of
    `createLinkStream`. */
module FlowLink {
  import opened Wrappers
  import opened Values
  import opened Pulses
  import opened Outcomes

  datatype Verb = Connect | Listen

  function VerbName(v: Verb): string {
    match v
    case Connect => "connect"
    case Listen => "listen"
  }

  /** The transport family a protocol selects, compared strictly as a
      `switch` does: `ws:`/`wss:` is the websocket flow; `tcp:`, `udp:` and
      an absent protocol are the net flow; anything else, `null` included,
      is unsupported. */
  datatype Family = Ws | Net | Unsupported

  function FamilyOf(protocol: Value): (f: Family)
    ensures f == Ws <==> protocol == Str("ws:") || protocol == Str("wss:")
    ensures f == Net <==> protocol == Str("tcp:") || protocol == Str("udp:") || protocol == Undefined
  {
    if protocol == Str("ws:") || protocol == Str("wss:") then Ws
    else if protocol == Str("tcp:") || protocol == Str("udp:") || protocol == Undefined then Net
    else Unsupported
  }

  /** `connect(opts)` and `listen(opts)`: the options go unchanged to the
      `ws/<verb>` or `net/<verb>` topic the protocol selects; an
      unsupported protocol is warned about and nothing is sent. */
  function Dispatch(opts: Value, verb: Verb): (r: Outcome)
    ensures opts.Undefined? || opts.Null? ==> r.Thrown?
    ensures !(opts.Undefined? || opts.Null?) ==>
      var f := FamilyOf(Get(opts, "protocol"));
      (f == Ws ==> r == Sent("ws/" + VerbName(verb), opts)) &&
      (f == Net ==> r == Sent("net/" + VerbName(verb), opts)) &&
      (f == Unsupported ==> r == Warned("unsupported protocol", Get(opts, "protocol")))
  {
    match ReadProp(opts, "protocol")
    case Throw(e) => Thrown(e)
    case Ok(protocol) =>
      match FamilyOf(protocol)
      case Ws => Sent("ws/" + VerbName(verb), opts)
      case Net => Sent("net/" + VerbName(verb), opts)
      case Unsupported => Warned("unsupported protocol", protocol)
  }

  /** `listen` mirrors `connect`: the same options reach the same family,
      on the `/listen` topic instead of the `/connect` one. */
  lemma ListenMirrorsConnect(opts: Value)
    ensures Dispatch(opts, Connect).Sent? <==> Dispatch(opts, Listen).Sent?
    ensures Dispatch(opts, Connect) == Sent("ws/connect", opts) <==>
            Dispatch(opts, Listen) == Sent("ws/listen", opts)
    ensures Dispatch(opts, Connect) == Sent("net/connect", opts) <==>
            Dispatch(opts, Listen) == Sent("net/listen", opts)
    ensures !Dispatch(opts, Connect).Sent? ==> Dispatch(opts, Connect) == Dispatch(opts, Listen)
  {
    assert "ws/" + VerbName(Connect) == "ws/connect" && "ws/" + VerbName(Listen) == "ws/listen";
    assert "net/" + VerbName(Connect) == "net/connect" && "net/" + VerbName(Listen) == "net/listen";
    assert "ws/connect"[0] != "net/connect"[0] && "ws/listen"[0] != "net/listen"[0];
  }

  /** `connectByUrl(dest)` and `listenByUrl(dest)`.  `parse` is
      `url.parse(_, true)`, giving the parsed URL's properties.  A URL whose
      protocol is falsy is parsed again with a `tcp:` prefix, and the query
      fields are copied over the URL's own before `link/<verb>` is sent. */
  function ByUrl(dest: string, parse: string -> map<string, Value>, verb: Verb): (r: Outcome)
    ensures r.Sent? && r.topic == "link/" + VerbName(verb) && r.value.Obj?
    ensures var opts := if Truthy(Lookup(parse(dest), "protocol")) then parse(dest)
                        else parse("tcp:" + dest);
            var query := OwnEntries(Lookup(opts, "query"));
            r.value.fields.Keys == opts.Keys + query.Keys &&
            (forall k :: k in query ==> r.value.fields[k] == query[k]) &&
            (forall k :: k in opts && k !in query ==> r.value.fields[k] == opts[k])
  {
    var first := parse(dest);
    var opts := if Truthy(Lookup(first, "protocol")) then first else parse("tcp:" + dest);
    Sent("link/" + VerbName(verb), Obj(opts + OwnEntries(Lookup(opts, "query"))))
  }

  /** The `streams` state of the flow: one stream (named by its id) per
      link address.  JavaScript's Map compares object keys by identity;
      here an address is compared as a value. */
  class LinkStreams {
    var streams: map<Value, NodeId>
    /** The streams sent on `link/stream`, in order. */
    var announced: seq<NodeId>

    constructor ()
      ensures streams == map[] && announced == []
    {
      streams := map[];
      announced := [];
    }

    /** Every stream sent on `link/stream` is the one kept for its address,
        and each address was announced once. */
    predicate Valid()
      reads this
    {
      |announced| == |streams| &&
      (forall i :: 0 <= i < |announced| ==> announced[i] in streams.Values)
    }

    /** `createLinkStream(link)`: the stream of `link.addr` is reused when
        the map has one and is the fresh stream `fresh` otherwise; only a new
        address is stored and announced.  A link without a `socket` throws
        on `socket.on` before anything is stored, and so does a socket with
        no `on` method; values here carry no functions, so `socketHasOn`
        says whether the socket is one that has it. */
    method CreateLinkStream(link: Value, socketHasOn: bool, freshStream: NodeId)
      returns (r: Result<NodeId, string>)
      requires Valid()
      modifies this
      ensures Valid()
      ensures r.Throw? <==> link.Undefined? || link.Null? ||
                            Get(link, "socket").Undefined? || Get(link, "socket").Null? ||
                            !socketHasOn
      ensures r.Throw? ==> streams == old(streams) && announced == old(announced)
      ensures r.Ok? ==> var addr := Get(link, "addr");
        (addr in old(streams) ==>
           r.value == old(streams)[addr] && streams == old(streams) && announced == old(announced)) &&
        (addr !in old(streams) ==>
           r.value == freshStream && streams == old(streams)[addr := freshStream] &&
           announced == old(announced) + [freshStream])
    {
      var read := ReadProp(link, "addr");
      if read.Throw? {
        return Throw(read.error);
      }
      var addr := read.value;
      var socket := Get(link, "socket");
      var stream := if addr in streams then streams[addr] else freshStream;
      if socket.Undefined? || socket.Null? {
        return Throw("Cannot read properties of " + (if socket.Null? then "null" else "undefined")
                     + " (reading 'on')");
      }
      if !socketHasOn {
        return Throw("socket.on is not a function");
      }
      if addr !in streams {
        ghost var before := streams;
        streams := streams[addr := stream];
        announced := announced + [stream];
        forall i | 0 <= i < |announced| ensures announced[i] in streams.Values {
          if i < |announced| - 1 {
            var a :| a in before && before[a] == announced[i];
            assert streams[a] == announced[i];
          } else {
            assert streams[addr] == announced[i];
          }
        }
      }
      r := Ok(stream);
    }
  }
}
