/** The change detector of `switch_info/compare.rs`: it remembers, per switch id, the
    last event it passed on, and passes an event on only for a new id or a new state. */
module SwitchCompare {
  import opened Common
  import opened Switch

  /** An event counts as a change when its id has no record or its state differs from
      the recorded one. Records are keyed by id alone: the switch type plays no part. */
  predicate IsChange(prev: map<u8, SwitchInfo>, e: SwitchInfo)
  {
    e.switchId !in prev || prev[e.switchId].switchState != e.switchState
  }

  /** The records after `e` has been compared. */
  function Record(prev: map<u8, SwitchInfo>, e: SwitchInfo): (r: map<u8, SwitchInfo>)
    ensures r.Keys == prev.Keys + {e.switchId}
    ensures r[e.switchId].switchState == e.switchState
    ensures IsChange(prev, e) ==> r[e.switchId] == e
    ensures !IsChange(prev, e) ==> r == prev
    ensures forall k :: k in prev && k != e.switchId ==> r[k] == prev[k]
  {
    if IsChange(prev, e) then prev[e.switchId := e] else prev
  }

  /** The events passed on when `es` arrive in order, starting from the records `prev`. */
  function Changes(prev: map<u8, SwitchInfo>, es: seq<SwitchInfo>): seq<SwitchInfo>
    decreases |es|
  {
    if es == [] then []
    else (if IsChange(prev, es[0]) then [es[0]] else []) + Changes(Record(prev, es[0]), es[1..])
  }

  /** The records after `es` have been compared. */
  function Replay(prev: map<u8, SwitchInfo>, es: seq<SwitchInfo>): map<u8, SwitchInfo>
    decreases |es|
  {
    if es == [] then prev else Replay(Record(prev, es[0]), es[1..])
  }

  /** The events of `es` for switch `id`, in order. */
  function OfId(es: seq<SwitchInfo>, id: u8): (r: seq<SwitchInfo>)
    ensures |r| <= |es|
    ensures forall e :: e in r ==> e in es && e.switchId == id
  {
    if es == [] then []
    else (if es[0].switchId == id then [es[0]] else []) + OfId(es[1..], id)
  }

  lemma OfIdAppend(a: seq<SwitchInfo>, b: seq<SwitchInfo>, id: u8)
    ensures OfId(a + b, id) == OfId(a, id) + OfId(b, id)
  {
    if a == [] {
      assert a + b == b;
    } else {
      assert (a + b)[0] == a[0];
      assert (a + b)[1..] == a[1..] + b;
      OfIdAppend(a[1..], b, id);
    }
  }

  /** What is on record for `id`, as a sequence of zero or one event. */
  function History(prev: map<u8, SwitchInfo>, id: u8): seq<SwitchInfo>
  {
    if id in prev then [prev[id]] else []
  }

  /** No two neighbouring events carry the same state. */
  predicate Alternates(es: seq<SwitchInfo>)
  {
    forall i :: 0 < i < |es| ==> es[i - 1].switchState != es[i].switchState
  }

  /** The detector's guarantee: for every switch id, each event passed on has a state
      different from the one before it, counting what was on record at the start. */
  lemma {:induction false} ChangesAlternate(prev: map<u8, SwitchInfo>, es: seq<SwitchInfo>, id: u8)
    ensures Alternates(History(prev, id) + OfId(Changes(prev, es), id))
    decreases |es|
  {
    if es != [] {
      var e, next := es[0], Record(prev, es[0]);
      var head := if IsChange(prev, e) then [e] else [];
      var rest := Changes(next, es[1..]);
      ChangesAlternate(next, es[1..], id);
      OfIdAppend(head, rest, id);
      if e.switchId == id && IsChange(prev, e) {
        assert History(next, id) == [e];
        assert OfId(head, id) == [e];
        assert History(prev, id) + OfId(Changes(prev, es), id)
            == History(prev, id) + ([e] + OfId(rest, id));
      } else {
        assert History(next, id) == History(prev, id);
        assert OfId(head, id) == [];
        assert OfId(Changes(prev, es), id) == OfId(rest, id);
      }
    }
  }

  /** Conversely, events for one switch whose states alternate, starting from a state
      other than the recorded one, are all passed on: one emission per transition. */
  lemma {:induction false} AlternatingAllPassed(prev: map<u8, SwitchInfo>, es: seq<SwitchInfo>, id: u8)
    requires forall e :: e in es ==> e.switchId == id
    requires Alternates(History(prev, id) + es)
    ensures Changes(prev, es) == es
    decreases |es|
  {
    if es != [] {
      var e := es[0];
      var h := History(prev, id);
      assert (h + es)[|h|] == e;
      if id in prev {
        assert (h + es)[0] == prev[id];
      }
      assert IsChange(prev, e);
      var next := Record(prev, e);
      assert History(next, id) == [e];
      assert History(next, id) + es[1..] == es;
      forall i | 0 < i < |es|
        ensures es[i - 1].switchState != es[i].switchState
      {
        assert (h + es)[|h| + i - 1] == es[i - 1] && (h + es)[|h| + i] == es[i];
      }
      AlternatingAllPassed(next, es[1..], id);
      assert [e] + es[1..] == es;
    }
  }

  /** Changes reports every event that `Replay` records as new. */
  lemma {:induction false} ChangesRecorded(prev: map<u8, SwitchInfo>, es: seq<SwitchInfo>)
    ensures Replay(prev, es).Keys == prev.Keys + set e | e in es :: e.switchId
    ensures forall e :: e in Changes(prev, es) ==> e in es
    decreases |es|
  {
    if es != [] {
      ChangesRecorded(Record(prev, es[0]), es[1..]);
      assert es == [es[0]] + es[1..];
      assert forall e :: e in es[1..] ==> e in es;
    }
  }

  /** A repeated event for the same switch and state is passed on at most once, whatever
      its timestamp; from empty records, exactly once. */
  lemma RepeatSuppressed(prev: map<u8, SwitchInfo>, e1: SwitchInfo, e2: SwitchInfo)
    requires e1.switchId == e2.switchId && e1.switchState == e2.switchState
    ensures Changes(prev, [e1, e2]) == if IsChange(prev, e1) then [e1] else []
    ensures Changes(map[], [e1, e2]) == [e1]
  {
    assert [e1, e2][1..] == [e2];
    assert [e2][1..] == [];
    assert !IsChange(Record(prev, e1), e2);
    assert Changes(Record(prev, e1), [e2]) == [];
    assert IsChange(map[], e1);
    assert !IsChange(Record(map[], e1), e2);
    assert Changes(Record(map[], e1), [e2]) == [];
  }

  /** The class `ActionCompare`. `actions` is declared and never written. */
  class ActionCompare {
    var actions: map<u8, SwitchInfo>
    var prevActions: map<u8, SwitchInfo>
    var onChangeAction: seq<HandlerId>
    /** Where the registered callbacks' invocations are recorded. */
    const trace: Trace<SwitchInfo>

    constructor (trace: Trace<SwitchInfo>)
      ensures actions == map[] && prevActions == map[] && onChangeAction == []
      ensures this.trace == trace
    {
      actions := map[];
      prevActions := map[];
      onChangeAction := [];
      this.trace := trace;
    }

    /** `put_action`: hands the event to `compare`. */
    method PutAction(action: SwitchInfo)
      modifies this, trace
      ensures prevActions == Record(old(prevActions), action)
      ensures trace.calls == old(trace.calls)
        + (if IsChange(old(prevActions), action) then Calls(onChangeAction, action) else [])
      ensures actions == old(actions) && onChangeAction == old(onChangeAction)
    {
      Compare(action);
    }

    /** `compare`: a new id or a new state is passed to every callback and recorded;
        an unchanged state leaves the record, timestamp included, as it was. */
    method Compare(newSwitchInfo: SwitchInfo)
      modifies this, trace
      ensures prevActions == Record(old(prevActions), newSwitchInfo)
      ensures trace.calls == old(trace.calls)
        + (if IsChange(old(prevActions), newSwitchInfo) then Calls(onChangeAction, newSwitchInfo) else [])
      ensures actions == old(actions) && onChangeAction == old(onChangeAction)
    {
      var id := newSwitchInfo.switchId;
      if id in prevActions {
        var prevAction := prevActions[id];
        if newSwitchInfo.switchState != prevAction.switchState {
          OnChangeActionEmitAll(newSwitchInfo);
          prevActions := prevActions[id := newSwitchInfo];
        }
      } else {
        OnChangeActionEmitAll(newSwitchInfo);
        prevActions := prevActions[id := newSwitchInfo];
      }
    }

    /** `on_change_action`: registers a callback after the ones already there. */
    method OnChangeAction(callback: HandlerId)
      modifies this
      ensures onChangeAction == old(onChangeAction) + [callback]
      ensures actions == old(actions) && prevActions == old(prevActions)
    {
      onChangeAction := onChangeAction + [callback];
    }

    /** `on_change_action_emit_all`: every callback once, in registration order. */
    method OnChangeActionEmitAll(action: SwitchInfo)
      modifies trace
      ensures trace.calls == old(trace.calls) + Calls(onChangeAction, action)
    {
      for i := 0 to |onChangeAction|
        invariant trace.calls == old(trace.calls) + Calls(onChangeAction[..i], action)
      {
        CallsPrefix(onChangeAction, i, action);
        trace.calls := trace.calls + [Call(onChangeAction[i], action)];
      }
      assert onChangeAction[..|onChangeAction|] == onChangeAction;
    }
  }
}
