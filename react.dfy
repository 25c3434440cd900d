/** The React bindings of schemas/kinetic-react-js.js: form data turned
    into nested state by `objectify`, `saveFormData`, `applyState`, and the
    lifecycle wrappers that track whether the component is mounted. */
module React {
  import opened Wrappers
  import opened Values
  import opened Outcomes

  // ---------------------------------------------------------------------
  // objectify
  // ---------------------------------------------------------------------

  /** The keys the `while ((k = keys.shift()))` loop visits: the segments up
      to, not including, the first empty one, which is falsy. */
  function CutPath(parts: seq<string>): (path: seq<string>)
    ensures |path| <= |parts| && path == parts[..|path|]
    ensures forall i :: 0 <= i < |path| ==> path[i] != ""
    ensures |path| < |parts| ==> parts[|path|] == ""
  {
    if parts == [] || parts[0] == "" then []
    else [parts[0]] + CutPath(parts[1..])
  }

  /** `{ path[0]: { path[1]: ... { path[n-1]: val } } }`. */
  function Nest(path: seq<string>, val: Value): (r: Value)
    ensures path != [] ==> r.Obj? && r.fields.Keys == {path[0]}
  {
    if path == [] then val else Obj(map[path[0] := Nest(path[1..], val)])
  }

  /** Reading a path of properties, `undefined` once a step is missing. */
  function Dig(v: Value, path: seq<string>): Value
    decreases |path|
  {
    if path == [] then v
    else Dig(Get(v, path[0]), path[1..])
  }

  /** What `objectify(key, val)` returns: the value nested under the cut
      path; with no segment before the first empty one, `last` is still
      `undefined` and the final assignment throws. */
  function ObjectifyValue(key: string, val: Value): Result<Value, string> {
    var path := CutPath(Split(key, '/'));
    if path == [] then Throw("Cannot read properties of undefined (reading 'root')")
    else Ok(Nest(path, val))
  }

  /** `objectify(key, val)`: the shift loop collects the path, then the
      nested objects are built around the value. */
  method Objectify(key: string, val: Value) returns (r: Result<Value, string>)
    ensures r == ObjectifyValue(key, val)
  {
    var path := ShiftSegments(Split(key, '/'));
    if path == [] {
      return Throw("Cannot read properties of undefined (reading 'root')");
    }
    var obj := NestUnder(path, val);
    r := Ok(obj);
  }

  /** The `keys.shift()` loop: segments are taken until the first falsy
      one. */
  method ShiftSegments(parts: seq<string>) returns (path: seq<string>)
    ensures path == CutPath(parts)
  {
    var keys := parts;
    path := [];
    while keys != [] && keys[0] != ""
      invariant CutPath(parts) == path + CutPath(keys)
      decreases |keys|
    {
      path := path + [keys[0]];
      keys := keys[1..];
    }
  }

  /** The nested objects built around the value, innermost first. */
  method NestUnder(path: seq<string>, val: Value) returns (obj: Value)
    ensures obj == Nest(path, val)
  {
    obj := val;
    var i := |path|;
    while i > 0
      invariant 0 <= i <= |path|
      invariant obj == Nest(path[i..], val)
    {
      i := i - 1;
      assert path[i..][1..] == path[i + 1..];
      obj := Obj(map[path[i] := obj]);
    }
    assert path[0..] == path;
  }

  /** The value can be read back along the path it was nested under. */
  lemma {:induction false} DigNest(path: seq<string>, val: Value)
    ensures Dig(Nest(path, val), path) == val
  {
    if path != [] {
      DigNest(path[1..], val);
    }
  }

  /** The saved object holds the form value under the name's segments, and
      that is all it holds. */
  lemma ObjectifyPlacesValue(key: string, val: Value)
    requires ObjectifyValue(key, val).Ok?
    ensures var path := CutPath(Split(key, '/'));
            path != [] && Dig(ObjectifyValue(key, val).value, path) == val &&
            ObjectifyValue(key, val).value.fields.Keys == {path[0]}
  {
    DigNest(CutPath(Split(key, '/')), val);
  }

  lemma SplitABC()
    ensures Split("a/b/c", '/') == ["a", "b", "c"]
  {
    assert Split("c", '/') == ["c"];
    assert IndexOf("b/c", '/') == 1;
    assert "b/c"[..1] == "b" && "b/c"[2..] == "c";
    assert Split("b/c", '/') == ["b", "c"];
    assert IndexOf("a/b/c", '/') == 1;
    assert "a/b/c"[..1] == "a" && "a/b/c"[2..] == "b/c";
  }

  /** `objectify('a/b/c', v)` is `{a:{b:{c:v}}}`. */
  lemma ObjectifyNests(v: Value)
    ensures ObjectifyValue("a/b/c", v) == Ok(Obj(map["a" := Obj(map["b" := Obj(map["c" := v])])]))
  {
    SplitABC();
    CutABC();
    NestABC(v);
  }

  lemma CutABC()
    ensures CutPath(["a", "b", "c"]) == ["a", "b", "c"]
  {
    assert ["a", "b", "c"][1..] == ["b", "c"] && ["b", "c"][1..] == ["c"] && ["c"][1..] == [];
  }

  lemma NestABC(v: Value)
    ensures Nest(["a", "b", "c"], v) == Obj(map["a" := Obj(map["b" := Obj(map["c" := v])])])
  {
    assert ["a", "b", "c"][1..] == ["b", "c"] && ["b", "c"][1..] == ["c"] && ["c"][1..] == [];
    assert Nest(["c"], v) == Obj(map["c" := v]);
    assert Nest(["b", "c"], v) == Obj(map["b" := Obj(map["c" := v])]);
  }

  /** An empty segment ends the path: `objectify('a//b', v)` is `{a:v}`. */
  lemma ObjectifyCutsAtEmptySegment(v: Value)
    ensures ObjectifyValue("a//b", v) == Ok(Obj(map["a" := v]))
  {
    assert IndexOf("a//b", '/') == 1;
    assert "a//b"[..1] == "a" && "a//b"[2..] == "/b";
    assert IndexOf("/b", '/') == 0;
    assert "/b"[..0] == "";
    assert Split("/b", '/')[0] == "";
    assert Split("a//b", '/')[..2] == ["a", ""];
    assert CutPath(Split("a//b", '/')) == ["a"];
    assert ["a"][1..] == [];
    assert Nest(["a"], v) == Obj(map["a" := v]);
  }

  /** A name that starts with `/` has no path, and the final assignment
      throws. */
  lemma ObjectifyLeadingSlashThrows(v: Value)
    ensures ObjectifyValue("/a", v).Throw?
  {
    assert IndexOf("/a", '/') == 0;
    assert "/a"[..0] == "";
    assert Split("/a", '/')[0] == "";
  }

  // ---------------------------------------------------------------------
  // Form.saveFormData and Component.applyState
  // ---------------------------------------------------------------------

  /** `saveFormData(event)`: the object given to `save`, or `None` when the
      target has no truthy `name` and nothing is saved.  A missing target
      is `{}`; a checkbox saves its `checked` flag instead of its `value`. */
  function SaveFormData(event: Value): (r: Result<Option<Value>, string>)
    ensures event.Undefined? || event.Null? ==> r.Throw?
    ensures !(event.Undefined? || event.Null?) ==>
      var given := Get(event, "target");
      var target := if given.Undefined? then Obj(map[]) else given;
      var name := Get(target, "name");
      var value := if Get(target, "type") == Str("checkbox") then Get(target, "checked")
                   else Get(target, "value");
      (target.Null? ==> r.Throw?) &&
      (!target.Null? && !Truthy(name) ==> r == Ok(None)) &&
      (!target.Null? && Truthy(name) && !name.Str? ==> r.Throw?) &&
      (!target.Null? && name.Str? && name.s != "" ==>
         (ObjectifyValue(name.s, value).Throw? ==> r.Throw?) &&
         (ObjectifyValue(name.s, value).Ok? ==> r == Ok(Some(ObjectifyValue(name.s, value).value))))
  {
    match ReadProp(event, "target")
    case Throw(e) => Throw(e)
    case Ok(given) =>
      var target := if given.Undefined? then Obj(map[]) else given;
      if target.Null? then Throw("Cannot destructure 'target' as it is null.")
      else
        var name := Get(target, "name");
        if !Truthy(name) then Ok(None)
        else
          var value := if Get(target, "type") == Str("checkbox") then Get(target, "checked")
                       else Get(target, "value");
          if !name.Str? then Throw("key.split is not a function")
          else
            match ObjectifyValue(name.s, value)
            case Throw(e) => Throw(e)
            case Ok(obj) => Ok(Some(obj))
  }

  /** A checkbox named `a/b` saves its flag under `a.b`. */
  lemma CheckboxSavesChecked(checked: bool)
    ensures var target := Obj(map["type" := Str("checkbox"), "name" := Str("a/b"),
                                  "value" := Str("on"), "checked" := Bool(checked)]);
            SaveFormData(Obj(map["target" := target])) ==
              Ok(Some(Obj(map["a" := Obj(map["b" := Bool(checked)])])))
  {
    var target := Obj(map["type" := Str("checkbox"), "name" := Str("a/b"),
                          "value" := Str("on"), "checked" := Bool(checked)]);
    assert Get(Obj(map["target" := target]), "target") == target;
    assert Get(target, "name") == Str("a/b");
    assert Get(target, "type") == Str("checkbox");
    assert Get(target, "checked") == Bool(checked);
    assert Split("b", '/') == ["b"];
    assert IndexOf("a/b", '/') == 1;
    assert "a/b"[..1] == "a" && "a/b"[2..] == "b";
    assert Split("a/b", '/') == ["a", "b"];
    assert CutPath(["a", "b"]) == ["a", "b"];
    assert ["a", "b"][1..] == ["b"] && ["b"][1..] == [];
    assert Nest(["b"], Bool(checked)) == Obj(map["b" := Bool(checked)]);
    assert ObjectifyValue("a/b", Bool(checked)) == Ok(Obj(map["a" := Obj(map["b" := Bool(checked)])]));
  }

  /** `applyState(lifecycle, setter, state)`: the state the setter is
      called with, exactly when `lifecycle.active` is truthy. */
  function ApplyState(lifecycle: Value, state: Value): (r: Result<Option<Value>, string>)
    ensures r.Throw? <==> lifecycle.Undefined? || lifecycle.Null?
    ensures r.Ok? ==> (r.value.Some? <==> Truthy(Get(lifecycle, "active")))
    ensures r.Ok? && r.value.Some? ==> r.value.value == state
  {
    match ReadProp(lifecycle, "active")
    case Throw(e) => Throw(e)
    case Ok(active) => if Truthy(active) then Ok(Some(state)) else Ok(None)
  }

  // ---------------------------------------------------------------------
  // Lifecycle wrappers
  // ---------------------------------------------------------------------

  /** The wrapped component methods and the state each reports. */
  const LIFECYCLE: map<string, string> := map[
    "componentWillMount" := "mounting",
    "componentDidMount" := "mounted",
    "componentWillUnmount" := "unmounting",
    "componentWillUpdate" := "updating",
    "componentDidUpdate" := "updated",
    "componentWillReceiveProps" := "receive"]

  /** `key in array` on an array of `n` elements, for a key that names no
      property of `Array.prototype` or `Object.prototype` (no lifecycle
      state does): its index keys and `length` are its own properties. */
  predicate InArray(key: string, n: nat) {
    key == "length" || key in IndexKeys(n)
  }

  /** The flag update as written: `state in ['mounting','mounted']` tests
      the array's keys, not its elements. */
  function NextActiveAsWritten(active: bool, state: string): bool {
    if InArray(state, 2) then true
    else if state == "unmounting" then false
    else active
  }

  lemma NotAnIndex(key: string, n: nat)
    requires key != [] && !IsDigit(key[0])
    ensures key !in IndexKeys(n)
  {
  }

  /** As written, no lifecycle state ever sets the flag: it starts `false`
      and stays `false` whatever the component goes through. */
  lemma AsWrittenNeverActivates(active: bool, state: string)
    requires state in LIFECYCLE.Values
    ensures NextActiveAsWritten(active, state) == (active && state != "unmounting")
    ensures !NextActiveAsWritten(false, "mounting") && !NextActiveAsWritten(false, "mounted")
  {
    assert state[0] in "mruu";
    NotAnIndex(state, 2);
    NotAnIndex("mounting", 2);
    NotAnIndex("mounted", 2);
  }

  predicate IsMount(state: string) {
    state == "mounting" || state == "mounted"
  }

  /** The flag update as evidently intended (`includes`): mounting sets it,
      unmounting clears it, the other states leave it. */
  function NextActive(active: bool, state: string): (r: bool)
    ensures IsMount(state) ==> r
    ensures state == "unmounting" ==> !r
    ensures !IsMount(state) && state != "unmounting" ==> r == active
  {
    if IsMount(state) then true
    else if state == "unmounting" then false
    else active
  }

  /** The flag after a run of lifecycle states, from `false`. */
  function Run(states: seq<string>): bool {
    if states == [] then false else NextActive(Run(states[..|states| - 1]), states[|states| - 1])
  }

  /** The component is active exactly when some mount state was reported
      and no unmount has been reported since. */
  lemma {:induction false} ActiveIffMountedSinceUnmount(states: seq<string>)
    ensures Run(states) <==>
      exists i :: 0 <= i < |states| && IsMount(states[i]) &&
        forall j :: i < j < |states| ==> states[j] != "unmounting"
  {
    if states != [] {
      var init := states[..|states| - 1];
      var last := states[|states| - 1];
      ActiveIffMountedSinceUnmount(init);
      if IsMount(last) {
        assert IsMount(states[|states| - 1]);
      } else if last == "unmounting" {
      } else {
        if Run(init) {
          var i :| 0 <= i < |init| && IsMount(init[i]) &&
                   forall j :: i < j < |init| ==> init[j] != "unmounting";
          assert states[i] == init[i];
          assert forall j :: i < j < |states| ==> states[j] != "unmounting";
        }
        if exists i :: 0 <= i < |states| && IsMount(states[i]) &&
             forall j :: i < j < |states| ==> states[j] != "unmounting" {
          var i :| 0 <= i < |states| && IsMount(states[i]) &&
                   forall j :: i < j < |states| ==> states[j] != "unmounting";
          assert i < |init| && init[i] == states[i];
          assert forall j :: i < j < |init| ==> init[j] != "unmounting" by {
            forall j | i < j < |init| ensures init[j] != "unmounting" {
              assert init[j] == states[j];
            }
          }
        }
      }
    }
  }

  /** The `'react:lifecycle'` payload `{ active, state, args }`. */
  function LifecycleEvent(active: bool, state: string, args: seq<Value>): Outcome {
    Sent("react:lifecycle", Obj(map["active" := Bool(active), "state" := Str(state), "args" := Arr(args)]))
  }

  /** The `active` flag the wrappers share, with the events they sent. */
  class Lifecycle {
    var active: bool
    var sent: seq<Outcome>
    /** The states reported so far. */
    ghost var states: seq<string>

    ghost predicate Valid()
      reads this
    {
      active == Run(states)
    }

    constructor ()
      ensures Valid() && !active && sent == [] && states == []
    {
      active := false;
      sent := [];
      states := [];
    }

    /** A wrapped lifecycle method: the flag is updated, the event is sent
        with the new flag, and the original method's result is returned, or
        the component itself when it had none. */
    method Fire(event: string, args: seq<Value>, original: Option<Value>, target: Value)
      returns (result: Value)
      requires Valid() && event in LIFECYCLE
      modifies this
      ensures Valid() && states == old(states) + [LIFECYCLE[event]]
      ensures active == NextActive(old(active), LIFECYCLE[event])
      ensures sent == old(sent) + [LifecycleEvent(active, LIFECYCLE[event], args)]
      ensures result == if original.Some? then original.value else target
    {
      var state := LIFECYCLE[event];
      if IsMount(state) {
        active := true;
      } else if state == "unmounting" {
        active := false;
      }
      states := states + [state];
      assert states[..|states| - 1] == old(states);
      sent := sent + [LifecycleEvent(active, state, args)];
      result := if original.Some? then original.value else target;
    }
  }

  /** The wrappers as written: the shared flag never leaves `false`, so
      every `'react:lifecycle'` event reports `active: false`, on mount as
      on unmount. */
  class LifecycleAsWritten {
    var active: bool
    var sent: seq<Outcome>

    predicate Valid()
      reads this
    {
      !active
    }

    constructor ()
      ensures Valid() && sent == []
    {
      active := false;
      sent := [];
    }

    /** A wrapped lifecycle method with the flag update as written. */
    method Fire(event: string, args: seq<Value>, original: Option<Value>, target: Value)
      returns (result: Value)
      requires Valid() && event in LIFECYCLE
      modifies this
      ensures Valid() && active == NextActiveAsWritten(old(active), LIFECYCLE[event])
      ensures sent == old(sent) + [LifecycleEvent(false, LIFECYCLE[event], args)]
      ensures result == if original.Some? then original.value else target
    {
      var state := LIFECYCLE[event];
      AsWrittenNeverActivates(active, state);
      active := NextActiveAsWritten(active, state);
      sent := sent + [LifecycleEvent(active, state, args)];
      result := if original.Some? then original.value else target;
    }
  }
}
