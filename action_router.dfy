/** The mapping router of `action.rs`: for a decoded switch event it scans every stored
    mapping preset and every entry in it, and produces one `Action` per entry mapped to
    that switch. */
module ActionRouter {
  import opened Common
  import opened Switch

  /** `ActionMap`: which plugin action a switch is mapped to. */
  datatype ActionMap = ActionMap(switchType: SwitchType, switchId: u8, pluginId: string, actionId: string)

  /** `MappingPreset { uuid, preset_name, mapping }`. */
  datatype MappingPreset = MappingPreset(uuid: string, presetName: string, mapping: seq<ActionMap>)

  /** `ActionTarget`: the plugin and the action within it. */
  datatype ActionTarget = ActionTarget(pluginId: string, actionId: string)

  /** `Action`: the switch event together with one target. */
  datatype Action = Action(switch: SwitchInfo, target: ActionTarget)

  /** An entry applies to an event when kind and id agree; state and time play no part. */
  predicate Matches(m: ActionMap, sw: SwitchInfo)
  {
    m.switchType == sw.switchType && m.switchId == sw.switchId
  }

  function TargetOf(m: ActionMap): ActionTarget
  {
    ActionTarget(m.pluginId, m.actionId)
  }

  /** The targets of the entries of one preset that apply, in entry order. */
  function TargetsOf(ms: seq<ActionMap>, sw: SwitchInfo): seq<ActionTarget>
  {
    if ms == [] then []
    else TargetsOf(ms[..|ms| - 1], sw) + (if Matches(ms[|ms| - 1], sw) then [TargetOf(ms[|ms| - 1])] else [])
  }

  /** The targets of all presets, preset by preset. */
  function AllTargets(ps: seq<MappingPreset>, sw: SwitchInfo): seq<ActionTarget>
  {
    if ps == [] then []
    else AllTargets(ps[..|ps| - 1], sw) + TargetsOf(ps[|ps| - 1].mapping, sw)
  }

  /** Every entry of every preset, in preset order and then entry order. */
  function Entries(ps: seq<MappingPreset>): seq<ActionMap>
  {
    if ps == [] then [] else Entries(ps[..|ps| - 1]) + ps[|ps| - 1].mapping
  }

  lemma {:induction false} TargetsOfAppend(a: seq<ActionMap>, b: seq<ActionMap>, sw: SwitchInfo)
    ensures TargetsOf(a + b, sw) == TargetsOf(a, sw) + TargetsOf(b, sw)
    decreases |b|
  {
    if b == [] {
      assert a + b == a;
    } else {
      var b' := b[..|b| - 1];
      assert (a + b)[..|a + b| - 1] == a + b';
      assert (a + b)[|a + b| - 1] == b[|b| - 1];
      TargetsOfAppend(a, b', sw);
    }
  }

  /** Scanning preset by preset is the same as scanning the flattened list of entries:
      targets come in preset order, then entry order, one per applicable entry. */
  lemma {:induction false} AllTargetsFlatten(ps: seq<MappingPreset>, sw: SwitchInfo)
    ensures AllTargets(ps, sw) == TargetsOf(Entries(ps), sw)
  {
    if ps != [] {
      AllTargetsFlatten(ps[..|ps| - 1], sw);
      TargetsOfAppend(Entries(ps[..|ps| - 1]), ps[|ps| - 1].mapping, sw);
    }
  }

  /** A target is produced exactly when some entry applies and names it. */
  lemma {:induction false} TargetsOfMembership(ms: seq<ActionMap>, sw: SwitchInfo, t: ActionTarget)
    ensures t in TargetsOf(ms, sw) <==> exists j :: 0 <= j < |ms| && Matches(ms[j], sw) && TargetOf(ms[j]) == t
  {
    if ms != [] {
      var ms' := ms[..|ms| - 1];
      TargetsOfMembership(ms', sw, t);
      if exists j :: 0 <= j < |ms'| && Matches(ms'[j], sw) && TargetOf(ms'[j]) == t {
        var j :| 0 <= j < |ms'| && Matches(ms'[j], sw) && TargetOf(ms'[j]) == t;
        assert ms[j] == ms'[j];
      }
      if exists j :: 0 <= j < |ms| && Matches(ms[j], sw) && TargetOf(ms[j]) == t {
        var j :| 0 <= j < |ms| && Matches(ms[j], sw) && TargetOf(ms[j]) == t;
        if j < |ms'| {
          assert ms'[j] == ms[j];
        }
      }
    }
  }

  /** The number of targets is the number of applicable entries: duplicates, within a
      preset or across presets, are all kept. */
  function MatchCount(ms: seq<ActionMap>, sw: SwitchInfo): nat
  {
    if ms == [] then 0 else MatchCount(ms[1..], sw) + (if Matches(ms[0], sw) then 1 else 0)
  }

  lemma {:induction false} MatchCountAppend(a: seq<ActionMap>, b: seq<ActionMap>, sw: SwitchInfo)
    ensures MatchCount(a + b, sw) == MatchCount(a, sw) + MatchCount(b, sw)
  {
    if a == [] {
      assert a + b == b;
    } else {
      assert (a + b)[0] == a[0];
      assert (a + b)[1..] == a[1..] + b;
      MatchCountAppend(a[1..], b, sw);
    }
  }

  lemma {:induction false} TargetsOfCount(ms: seq<ActionMap>, sw: SwitchInfo)
    ensures |TargetsOf(ms, sw)| == MatchCount(ms, sw)
  {
    if ms != [] {
      var ms' := ms[..|ms| - 1];
      TargetsOfCount(ms', sw);
      MatchCountAppend(ms', [ms[|ms| - 1]], sw);
      assert ms' + [ms[|ms| - 1]] == ms;
      assert [ms[|ms| - 1]][1..] == [];
    }
  }

  /** Only the kind and the id of the event decide the targets. */
  lemma {:induction false} StateAndTimeIrrelevant(ps: seq<MappingPreset>, sw: SwitchInfo, state: u16, time: int)
    ensures AllTargets(ps, sw) == AllTargets(ps, sw.(switchState := state, timestamp := time))
  {
    if ps != [] {
      StateAndTimeIrrelevant(ps[..|ps| - 1], sw, state, time);
      TargetsOfSame(ps[|ps| - 1].mapping, sw, sw.(switchState := state, timestamp := time));
    }
  }

  lemma {:induction false} TargetsOfSame(ms: seq<ActionMap>, sw: SwitchInfo, sw': SwitchInfo)
    requires sw.switchType == sw'.switchType && sw.switchId == sw'.switchId
    ensures TargetsOf(ms, sw) == TargetsOf(ms, sw')
  {
    if ms != [] {
      TargetsOfSame(ms[..|ms| - 1], sw, sw');
    }
  }

  /** `search_action_target`: the store's presets are given as loaded; `None` stands for
      a store that failed to load, and then nothing is found. */
  method SearchActionTarget(store: Option<seq<MappingPreset>>, switchInfo: SwitchInfo)
    returns (target: seq<ActionTarget>)
    ensures store.None? ==> target == []
    ensures store.Some? ==> target == AllTargets(store.value, switchInfo)
  {
    if store.None? {
      return [];
    }
    var mappingPresets := store.value;
    target := [];
    for i := 0 to |mappingPresets|
      invariant target == AllTargets(mappingPresets[..i], switchInfo)
    {
      var preset := mappingPresets[i];
      assert mappingPresets[..i + 1][..i] == mappingPresets[..i];
      for j := 0 to |preset.mapping|
        invariant target == AllTargets(mappingPresets[..i], switchInfo) + TargetsOf(preset.mapping[..j], switchInfo)
      {
        var entry := preset.mapping[j];
        assert preset.mapping[..j + 1][..j] == preset.mapping[..j];
        if entry.switchType == switchInfo.switchType && entry.switchId == switchInfo.switchId {
          target := target + [ActionTarget(entry.pluginId, entry.actionId)];
        }
      }
      assert preset.mapping[..|preset.mapping|] == preset.mapping;
    }
    assert mappingPresets[..|mappingPresets|] == mappingPresets;
  }

  /** `Action::from_switch_info`: one action per target, each carrying the event as
      given. */
  method FromSwitchInfo(store: Option<seq<MappingPreset>>, switch: SwitchInfo) returns (actions: seq<Action>)
    ensures var targets := if store.Some? then AllTargets(store.value, switch) else [];
      |actions| == |targets| &&
      forall i :: 0 <= i < |actions| ==> actions[i] == Action(switch, targets[i])
  {
    var target := SearchActionTarget(store, switch);
    actions := [];
    for i := 0 to |target|
      invariant |actions| == i
      invariant forall k :: 0 <= k < i ==> actions[k] == Action(switch, target[k])
    {
      actions := actions + [Action(switch, target[i])];
    }
  }
}
