/** The earlier change detector of `action/compare.rs`. It keeps two maps per switch id,
    the current action and the one before it, and passes an action on when its id is
    new or its state differs from the previous input's. (The file is not declared as a
    module of `action.rs`, and the `SwitchId` and accessors it uses are not defined
    there; the model reads them as the switch id and state of the action's event.) */
module LegacyActionCompare {
  import opened Common
  import opened Switch
  import opened ActionRouter
  import opened SwitchCompare

  /** `action.get_switch_id()`. */
  function IdOf(a: Action): u8
  {
    a.switch.switchId
  }

  /** `action.get_switch_state()`. */
  function StateOf(a: Action): u16
  {
    a.switch.switchState
  }

  /** The two maps of `ActionCompare`. */
  datatype Records = Records(actions: map<u8, Action>, prevActions: map<u8, Action>)

  /** An id has a previous action only if it has a current one. */
  predicate Inv(r: Records)
  {
    r.prevActions.Keys <= r.actions.Keys
  }

  /** The maps after `put_action(a)` has stored `a`: it becomes the current action for
      its id, and the action it replaces, if any, becomes the previous one. Other ids
      are untouched. */
  function Put(r: Records, a: Action): (r': Records)
    ensures Inv(r) ==> Inv(r')
    ensures r'.actions == r.actions[IdOf(a) := a]
    ensures IdOf(a) in r.actions ==> r'.prevActions == r.prevActions[IdOf(a) := r.actions[IdOf(a)]]
    ensures IdOf(a) !in r.actions ==> r'.prevActions == r.prevActions
  {
    var id := IdOf(a);
    Records(r.actions[id := a], if id in r.actions then r.prevActions[id := r.actions[id]] else r.prevActions)
  }

  /** `compare(id)`: whether the current action for `id` is passed on. It is, when
      `id` has no previous action or the two states differ. */
  predicate Emits(r: Records, id: u8)
    requires id in r.actions
  {
    id !in r.prevActions || StateOf(r.actions[id]) != StateOf(r.prevActions[id])
  }

  /** The state `compare` compares with is that of the previous input, not of the last
      action passed on: `a` is passed on exactly when its id is new or its state differs
      from the last action stored for that id. */
  lemma EmitsIffChanged(r: Records, a: Action)
    requires Inv(r)
    ensures Emits(Put(r, a), IdOf(a)) <==> IdOf(a) !in r.actions || StateOf(r.actions[IdOf(a)]) != StateOf(a)
  {
  }

  /** The actions passed on when `acts` are put in order. */
  function Emitted(r: Records, acts: seq<Action>): seq<Action>
    decreases |acts|
  {
    if acts == [] then []
    else
      var r' := Put(r, acts[0]);
      (if Emits(r', IdOf(acts[0])) then [acts[0]] else []) + Emitted(r', acts[1..])
  }

  /** The events the actions carry. */
  function Switches(acts: seq<Action>): (es: seq<SwitchInfo>)
    ensures |es| == |acts| && forall i :: 0 <= i < |acts| ==> es[i] == acts[i].switch
  {
    seq(|acts|, i requires 0 <= i < |acts| => acts[i].switch)
  }

  /** The legacy maps and the records of the later detector agree: the same ids, and
      for each the state of the last input. */
  predicate Mirrors(r: Records, prev: map<u8, SwitchInfo>)
  {
    r.actions.Keys == prev.Keys &&
    forall k :: k in prev ==> prev[k].switchState == StateOf(r.actions[k])
  }

  /** One action keeps the two in step, and both pass it on or both do not. */
  lemma PutMirrors(r: Records, prev: map<u8, SwitchInfo>, a: Action)
    requires Inv(r) && Mirrors(r, prev)
    ensures Mirrors(Put(r, a), Record(prev, a.switch))
    ensures Emits(Put(r, a), IdOf(a)) <==> IsChange(prev, a.switch)
  {
    EmitsIffChanged(r, a);
    var next := Record(prev, a.switch);
    forall k | k in next
      ensures next[k].switchState == StateOf(Put(r, a).actions[k])
    {
      if k == IdOf(a) {
        assert next[k].switchState == a.switch.switchState;
      } else {
        assert next[k] == prev[k];
      }
    }
  }

  /** Comparing with the previous input and comparing with the last event passed on
      come to the same thing: the legacy detector passes on exactly the events the
      later one (`SwitchCompare`) does, because a suppressed event has the state
      already on record. */
  lemma {:induction false} AgreesWithDetector(r: Records, prev: map<u8, SwitchInfo>, acts: seq<Action>)
    requires Inv(r) && Mirrors(r, prev)
    ensures Switches(Emitted(r, acts)) == Changes(prev, Switches(acts))
    decreases |acts|
  {
    if acts != [] {
      var a := acts[0];
      PutMirrors(r, prev, a);
      AgreesWithDetector(Put(r, a), Record(prev, a.switch), acts[1..]);
      var head := if Emits(Put(r, a), IdOf(a)) then [a] else [];
      var rest := Emitted(Put(r, a), acts[1..]);
      assert Switches(acts)[0] == a.switch;
      assert Switches(acts)[1..] == Switches(acts[1..]);
      assert Switches(head + rest) == Switches(head) + Switches(rest);
    }
  }

  /** From empty maps, as `new` leaves them, the two detectors agree on every input. */
  lemma FreshAgrees(acts: seq<Action>)
    ensures Switches(Emitted(Records(map[], map[]), acts)) == Changes(map[], Switches(acts))
  {
    AgreesWithDetector(Records(map[], map[]), map[], acts);
  }

  /** The class `ActionCompare`. */
  class ActionCompare {
    var actions: map<u8, Action>
    var prevActions: map<u8, Action>
    var onChangeAction: seq<HandlerId>
    /** Where the registered callbacks' invocations are recorded. */
    const trace: Trace<Action>

    function State(): Records
      reads this
    {
      Records(actions, prevActions)
    }

    constructor (trace: Trace<Action>)
      ensures State() == Records(map[], map[]) && Inv(State()) && onChangeAction == []
      ensures this.trace == trace
    {
      actions := map[];
      prevActions := map[];
      onChangeAction := [];
      this.trace := trace;
    }

    /** `put_action`: store the action, then compare for its id. */
    method PutAction(action: Action)
      modifies this, trace
      ensures State() == Put(old(State()), action)
      ensures trace.calls == old(trace.calls) +
        (if Emits(Put(old(State()), action), IdOf(action)) then Calls(onChangeAction, action) else [])
      ensures onChangeAction == old(onChangeAction)
    {
      var switchId := IdOf(action);
      if switchId in actions {
        prevActions := prevActions[switchId := actions[switchId]];
      }
      actions := actions[switchId := action];
      Compare(switchId);
    }

    /** `compare`: reads the maps, changes nothing but the callbacks' record. */
    method Compare(switchId: u8)
      requires switchId in actions
      modifies trace
      ensures trace.calls == old(trace.calls) +
        (if Emits(State(), switchId) then Calls(onChangeAction, actions[switchId]) else [])
    {
      if switchId in prevActions {
        var prevAction := prevActions[switchId];
        var nowAction := actions[switchId];
        if StateOf(nowAction) != StateOf(prevAction) {
          OnChangeActionEmitAll(nowAction);
        }
      } else {
        var nowAction := actions[switchId];
        OnChangeActionEmitAll(nowAction);
      }
    }

    /** `on_change_action`: registers a callback after the ones already there. */
    method OnChangeAction(callback: HandlerId)
      modifies this
      ensures onChangeAction == old(onChangeAction) + [callback]
      ensures State() == old(State())
    {
      onChangeAction := onChangeAction + [callback];
    }

    /** `on_change_action_emit_all`: every callback once, in registration order. */
    method OnChangeActionEmitAll(action: Action)
      modifies trace
      ensures trace.calls == old(trace.calls) + Calls(onChangeAction, action)
    {
      for i := 0 to |onChangeAction|
        invariant trace.calls == old(trace.calls) + Calls(onChangeAction[..i], action)
      {
        CallsPrefix(onChangeAction, i, action);
        trace.calls := trace.calls + [Call(onChangeAction[i], action)];
      }
      assert onChangeAction[..|onChangeAction|] == onChangeAction;
    }
  }
}
