/** The `Synchronizer.select` handler of schemas/kinetic-link.js: an
    endpoint request goes to the websocket or the net endpoint according
    to its protocol name. */
module KineticLink {
  import opened Wrappers
  import opened Values
  import opened Outcomes
  import FlowLink

  /** `select(input)`: `ws`/`wss` send the input unchanged on `ws:endpoint`,
      `tcp`/`udp` on `net:endpoint`; any other protocol, an absent one
      included, is warned about and nothing is sent. */
  function Select(input: Value): (r: Outcome)
    ensures input.Undefined? || input.Null? ==> r.Thrown?
    ensures !(input.Undefined? || input.Null?) ==>
      var p := Get(input, "protocol");
      ((p == Str("ws") || p == Str("wss")) <==> r == Sent("ws:endpoint", input)) &&
      ((p == Str("tcp") || p == Str("udp")) <==> r == Sent("net:endpoint", input)) &&
      (!(p in {Str("ws"), Str("wss"), Str("tcp"), Str("udp")}) <==> r == Warned("unsupported protocol", p))
  {
    match ReadProp(input, "protocol")
    case Throw(e) => Thrown(e)
    case Ok(protocol) =>
      if protocol == Str("ws") || protocol == Str("wss") then Sent("ws:endpoint", input)
      else if protocol == Str("tcp") || protocol == Str("udp") then Sent("net:endpoint", input)
      else Warned("unsupported protocol", protocol)
  }

  /** `select` names its protocols without the colon that the link flow's
      `connect` expects, and otherwise picks the same transport: for a
      supported name, the family `connect` picks for the name with a colon
      after it. */
  lemma SelectAgreesWithConnect(fields: map<string, Value>, p: string)
    requires p in {"ws", "wss", "tcp", "udp"}
    ensures var sel := Select(Obj(fields["protocol" := Str(p)]));
            var con := FlowLink.Dispatch(Obj(fields["protocol" := Str(p + ":")]), FlowLink.Connect);
            sel.Sent? && con.Sent? &&
            (sel.topic == "ws:endpoint" <==> con.topic == "ws/connect") &&
            (sel.topic == "net:endpoint" <==> con.topic == "net/connect")
  {
    var q := Str(p + ":");
    assert Get(Obj(fields["protocol" := Str(p)]), "protocol") == Str(p);
    assert Get(Obj(fields["protocol" := q]), "protocol") == q;
    assert "ws:endpoint"[0] != "net:endpoint"[0] && "ws/connect"[0] != "net/connect"[0];
    assert "ws/" + FlowLink.VerbName(FlowLink.Connect) == "ws/connect";
    assert "net/" + FlowLink.VerbName(FlowLink.Connect) == "net/connect";
    if p == "ws" || p == "wss" {
      assert q == Str("ws:") || q == Str("wss:");
    } else {
      assert q == Str("tcp:") || q == Str("udp:");
    }
  }

  /** Where the two differ: an absent protocol is the net default for
      `connect` but unsupported for `select`. */
  lemma AbsentProtocolDiffers(fields: map<string, Value>)
    requires "protocol" !in fields
    ensures Select(Obj(fields)) == Warned("unsupported protocol", Undefined)
    ensures FlowLink.Dispatch(Obj(fields), FlowLink.Connect) == Sent("net/connect", Obj(fields))
  {
  }
}
