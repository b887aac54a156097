/** The preset and profile commands of `settings/tauri.rs`. Loading and saving a
    settings file is outside the model: a load is given as an `Option` (None when the
    file could not be read), and a command that saves returns the list it would write. */
module SettingsCommands {
  import opened Common
  import opened ActionRouter

  const LoadFailed: string := "Failed to load ardeck profile config"
  const NotFound: string := "Failed to find ardeck profile config"

  /** `ArdeckProfileConfigItem`, keyed by `device_id`. */
  datatype ProfileItem = ProfileItem(
    deviceId: string,
    deviceName: Option<string>,
    baudRate: Option<u32>,
    description: Option<string>,
    mappingPreset: Option<string>)

  function PresetUuid(p: MappingPreset): string { p.uuid }

  function ProfileDeviceId(p: ProfileItem): string { p.deviceId }

  /** The index of the first element whose key is `k` (`iter().position`). */
  function FirstIndex<T>(xs: seq<T>, key: T -> string, k: string): (r: Option<nat>)
    ensures r.Some? ==> r.value < |xs| && key(xs[r.value]) == k
    ensures r.Some? ==> forall j :: 0 <= j < r.value ==> key(xs[j]) != k
    ensures r.None? <==> forall j :: 0 <= j < |xs| ==> key(xs[j]) != k
  {
    if xs == [] then None
    else if key(xs[0]) == k then Some(0)
    else match FirstIndex(xs[1..], key, k)
      case None => None
      case Some(i) => Some(i + 1)
  }

  /** The first element whose key is `k`. */
  function Find<T>(xs: seq<T>, key: T -> string, k: string): (r: Option<T>)
    ensures r.None? <==> forall j :: 0 <= j < |xs| ==> key(xs[j]) != k
    ensures r.Some? ==> key(r.value) == k && r.value in xs
    ensures r.Some? ==>
      exists i :: 0 <= i < |xs| && xs[i] == r.value && (forall j :: 0 <= j < i ==> key(xs[j]) != k)
  {
    match FirstIndex(xs, key, k)
    case None => None
    case Some(i) => Some(xs[i])
  }

  /** Replace the first element with the key of `x`, or append `x` when there is none. */
  function Upsert<T>(xs: seq<T>, key: T -> string, x: T): seq<T>
  {
    match FirstIndex(xs, key, key(x))
    case Some(i) => xs[i := x]
    case None => xs + [x]
  }

  /** The search loop that `position` performs. */
  method FindIndex<T>(xs: seq<T>, key: T -> string, k: string) returns (idx: Option<nat>)
    ensures idx == FirstIndex(xs, key, k)
  {
    for i := 0 to |xs|
      invariant forall j :: 0 <= j < i ==> key(xs[j]) != k
    {
      if key(xs[i]) == k {
        return Some(i);
      }
    }
    return None;
  }

  /** Lists of one length that carry the key `k` at the same positions agree on where
      `k` is first found. */
  lemma {:induction false} FirstIndexAgree<T>(xs: seq<T>, ys: seq<T>, key: T -> string, k: string)
    requires |xs| == |ys|
    requires forall j :: 0 <= j < |xs| ==> (key(xs[j]) == k <==> key(ys[j]) == k)
    ensures FirstIndex(xs, key, k) == FirstIndex(ys, key, k)
  {
    if xs != [] {
      FirstIndexAgree(xs[1..], ys[1..], key, k);
    }
  }

  /** Writing an element over the first one with its key: it is found there, and every
      other key is found where it was. */
  lemma ReplaceFound<T>(xs: seq<T>, key: T -> string, i: nat, x: T, k: string)
    requires FirstIndex(xs, key, key(x)) == Some(i)
    ensures FirstIndex(xs[i := x], key, k) == FirstIndex(xs, key, k)
    ensures Find(xs[i := x], key, k) == if k == key(x) then Some(x) else Find(xs, key, k)
  {
    FirstIndexAgree(xs, xs[i := x], key, k);
  }

  /** Appending an element whose key is absent: it is found, and every other key is
      found where it was. */
  lemma AppendFound<T>(xs: seq<T>, key: T -> string, x: T, k: string)
    requires FirstIndex(xs, key, key(x)).None?
    ensures Find(xs + [x], key, k) == if k == key(x) then Some(x) else Find(xs, key, k)
  {
    var ys := xs + [x];
    if k != key(x) {
      AppendOther(xs, key, x, k);
    } else {
      assert forall j :: 0 <= j < |xs| ==> ys[j] == xs[j];
      assert ys[|xs|] == x;
    }
  }

  lemma {:induction false} AppendOther<T>(xs: seq<T>, key: T -> string, x: T, k: string)
    requires key(x) != k
    ensures FirstIndex(xs + [x], key, k) == FirstIndex(xs, key, k)
  {
    if xs == [] {
      assert xs + [x] == [x];
    } else {
      assert (xs + [x])[1..] == xs[1..] + [x];
      AppendOther(xs[1..], key, x, k);
    }
  }

  /** Appending anything keeps where an already present key is first found. */
  lemma {:induction false} AppendPresent<T>(xs: seq<T>, key: T -> string, x: T, k: string)
    requires FirstIndex(xs, key, k).Some?
    ensures FirstIndex(xs + [x], key, k) == FirstIndex(xs, key, k)
  {
    assert (xs + [x])[0] == xs[0];
    if key(xs[0]) != k {
      assert (xs + [x])[1..] == xs[1..] + [x];
      AppendPresent(xs[1..], key, x, k);
    }
  }

  /** After an upsert the element is what its key finds, every other key finds what it
      found before, and the list grows only when the key was new. */
  lemma UpsertFound<T>(xs: seq<T>, key: T -> string, x: T, k: string)
    ensures Find(Upsert(xs, key, x), key, k) == if k == key(x) then Some(x) else Find(xs, key, k)
    ensures |Upsert(xs, key, x)| == if Find(xs, key, key(x)).Some? then |xs| else |xs| + 1
  {
    match FirstIndex(xs, key, key(x))
    case Some(i) => ReplaceFound(xs, key, i, x, k);
    case None => AppendFound(xs, key, x, k);
  }

  /** Every element's key finds an element with that key at or before it. */
  lemma ListedIsFound<T>(xs: seq<T>, key: T -> string, i: nat)
    requires i < |xs|
    ensures FirstIndex(xs, key, key(xs[i])).Some?
    ensures FirstIndex(xs, key, key(xs[i])).value <= i
  {
  }

  /** `get_mapping_list`: `(uuid, preset_name)` for each stored preset, in order. The
      load is unwrapped, so a failed load panics. */
  function MappingList(store: Option<seq<MappingPreset>>): (r: Result<seq<(string, string)>, Failure>)
    ensures store.None? <==> r == Err(Panic)
    ensures store.Some? ==>
      r.Ok? && |r.value| == |store.value| &&
      forall i :: 0 <= i < |r.value| ==> r.value[i] == (store.value[i].uuid, store.value[i].presetName)
  {
    match store
    case None => Err(Panic)
    case Some(ps) => Ok(seq(|ps|, i requires 0 <= i < |ps| => (ps[i].uuid, ps[i].presetName)))
  }

  /** `get_mapping_preset`: the first preset with the uuid, or None. */
  method GetMappingPreset(store: Option<seq<MappingPreset>>, uuid: string)
    returns (r: Result<Option<MappingPreset>, Failure>)
    ensures store.None? ==> r == Err(Panic)
    ensures store.Some? ==> r == Ok(Find(store.value, PresetUuid, uuid))
  {
    if store.None? {
      return Err(Panic);
    }
    var mappingPresets := store.value;
    for i := 0 to |mappingPresets|
      invariant forall j :: 0 <= j < i ==> mappingPresets[j].uuid != uuid
    {
      if mappingPresets[i].uuid == uuid {
        assert FirstIndex(mappingPresets, PresetUuid, uuid) == Some(i);
        return Ok(Some(mappingPresets[i]));
      }
    }
    return Ok(None);
  }

  /** `save_mapping_preset`: a preset whose uuid is stored replaces the first one with
      it; any other preset is given the uuid `freshUuid` (the `Uuid::new_v4` draw) and
      appended. The result is the preset as stored; `saved` is the list written back. */
  method SaveMappingPreset(store: Option<seq<MappingPreset>>, mappingPreset: MappingPreset, freshUuid: string)
    returns (r: Result<MappingPreset, Failure>, saved: Option<seq<MappingPreset>>)
    ensures store.None? ==> r == Err(Panic) && saved.None?
    ensures store.Some? ==>
      match FirstIndex(store.value, PresetUuid, mappingPreset.uuid)
      case Some(i) => r == Ok(mappingPreset) && saved == Some(store.value[i := mappingPreset])
      case None =>
        r == Ok(mappingPreset.(uuid := freshUuid)) &&
        saved == Some(store.value + [mappingPreset.(uuid := freshUuid)])
  {
    if store.None? {
      return Err(Panic), None;
    }
    var mappingPresets := store.value;
    var index := FindIndex(mappingPresets, PresetUuid, mappingPreset.uuid);
    var stored := mappingPreset;
    match index {
      case Some(i) =>
        mappingPresets := mappingPresets[i := stored];
      case None =>
        stored := stored.(uuid := freshUuid);
        mappingPresets := mappingPresets + [stored];
    }
    return Ok(stored), Some(mappingPresets);
  }

  /** Saving a preset and then asking for its uuid gives back the stored preset, and
      lookups of other uuids are unaffected; for a new preset this needs the drawn uuid
      to be unused, which a version 4 UUID is with overwhelming probability. */
  lemma SavedPresetFound(ps: seq<MappingPreset>, p: MappingPreset, freshUuid: string, u: string)
    requires FirstIndex(ps, PresetUuid, p.uuid).None? ==> FirstIndex(ps, PresetUuid, freshUuid).None?
    ensures var stored := if FirstIndex(ps, PresetUuid, p.uuid).Some? then p else p.(uuid := freshUuid);
      var saved := if FirstIndex(ps, PresetUuid, p.uuid).Some? then ps[FirstIndex(ps, PresetUuid, p.uuid).value := p] else ps + [stored];
      Find(saved, PresetUuid, u) == if u == stored.uuid then Some(stored) else Find(ps, PresetUuid, u)
  {
    match FirstIndex(ps, PresetUuid, p.uuid)
    case Some(i) => ReplaceFound(ps, PresetUuid, i, p, u);
    case None => AppendFound(ps, PresetUuid, p.(uuid := freshUuid), u);
  }

  /** Should the drawn uuid already be stored, the appended preset is shadowed by the
      older one and can never be fetched by its uuid. */
  lemma FreshCollisionShadowed(ps: seq<MappingPreset>, p: MappingPreset, freshUuid: string)
    requires FirstIndex(ps, PresetUuid, freshUuid).Some?
    ensures Find(ps + [p.(uuid := freshUuid)], PresetUuid, freshUuid) == Find(ps, PresetUuid, freshUuid)
  {
    var ys := ps + [p.(uuid := freshUuid)];
    AppendPresent(ps, PresetUuid, p.(uuid := freshUuid), freshUuid);
    var i := FirstIndex(ps, PresetUuid, freshUuid).value;
    assert ys[i] == ps[i];
  }

  /** Every uuid in the list of presets finds a preset, the first stored under it. */
  lemma ListedPresetFound(ps: seq<MappingPreset>, i: nat)
    requires i < |ps|
    ensures var u := MappingList(Some(ps)).value[i].0;
      Find(ps, PresetUuid, u).Some? && Find(ps, PresetUuid, u).value.uuid == u
  {
    ListedIsFound(ps, PresetUuid, i);
  }

  /** `get_ardeck_profile_list`: `(device_id, device_name)` for each profile, in order;
      a failed load is an error. */
  method ProfileList(config: Option<seq<ProfileItem>>)
    returns (r: Result<seq<(string, Option<string>)>, Failure>)
    ensures config.None? ==> r == Err(Message(LoadFailed))
    ensures config.Some? ==>
      r.Ok? && |r.value| == |config.value| &&
      forall i :: 0 <= i < |r.value| ==> r.value[i] == (config.value[i].deviceId, config.value[i].deviceName)
  {
    if config.None? {
      return Err(Message(LoadFailed));
    }
    var items := config.value;
    var list: seq<(string, Option<string>)> := [];
    for i := 0 to |items|
      invariant |list| == i
      invariant forall j :: 0 <= j < i ==> list[j] == (items[j].deviceId, items[j].deviceName)
    {
      list := list + [(items[i].deviceId, items[i].deviceName)];
    }
    return Ok(list);
  }

  /** `get_ardeck_profile`: the first profile with the device id. An unknown id is an
      error, not `Ok(None)`: the command never answers `Ok(None)`. */
  method GetArdeckProfile(config: Option<seq<ProfileItem>>, deviceId: string)
    returns (r: Result<Option<ProfileItem>, Failure>)
    ensures config.None? ==> r == Err(Message(LoadFailed))
    ensures config.Some? ==>
      match Find(config.value, ProfileDeviceId, deviceId)
      case Some(p) => r == Ok(Some(p))
      case None => r == Err(Message(NotFound))
    ensures r.Ok? ==> r.value.Some? && r.value.value.deviceId == deviceId
  {
    if config.None? {
      return Err(Message(LoadFailed));
    }
    var items := config.value;
    for i := 0 to |items|
      invariant forall j :: 0 <= j < i ==> items[j].deviceId != deviceId
    {
      if items[i].deviceId == deviceId {
        assert FirstIndex(items, ProfileDeviceId, deviceId) == Some(i);
        return Ok(Some(items[i]));
      }
    }
    return Err(Message(NotFound));
  }

  /** `save_ardeck_profile`: replaces the first profile with the same device id, or
      appends; answers with the profile. The load is unwrapped. */
  method SaveArdeckProfile(config: Option<seq<ProfileItem>>, profile: ProfileItem)
    returns (r: Result<ProfileItem, Failure>, saved: Option<seq<ProfileItem>>)
    ensures config.None? ==> r == Err(Panic) && saved.None?
    ensures config.Some? ==> r == Ok(profile) && saved == Some(Upsert(config.value, ProfileDeviceId, profile))
  {
    if config.None? {
      return Err(Panic), None;
    }
    var items := config.value;
    var position := FindIndex(items, ProfileDeviceId, profile.deviceId);
    match position {
      case Some(i) =>
        items := items[i := profile];
      case None =>
        items := items + [profile];
    }
    return Ok(profile), Some(items);
  }

  /** A profile just saved is what `get_ardeck_profile` returns for its device id. */
  lemma SavedProfileFound(items: seq<ProfileItem>, profile: ProfileItem, deviceId: string)
    ensures Find(Upsert(items, ProfileDeviceId, profile), ProfileDeviceId, deviceId) ==
      if deviceId == profile.deviceId then Some(profile) else Find(items, ProfileDeviceId, deviceId)
  {
    UpsertFound(items, ProfileDeviceId, profile, deviceId);
  }
}
