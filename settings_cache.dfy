/** The path-keyed settings cache of `settings/cache.rs`: a list of entries, each with
    a path, a dirty flag and the file's text. Nothing stops two entries from sharing a
    path; lookups and updates then see the first of them only. */
module SettingsCache {
  import opened Common

  type Path = string

  /** `CacheInfo { path, dirty, data }`. */
  datatype CacheInfo = CacheInfo(path: Path, dirty: bool, data: string)

  /** The position of the first entry with `path`, if any (`iter().find`). */
  function FindFirst(es: seq<CacheInfo>, path: Path): (r: Option<nat>)
    ensures r.Some? ==> r.value < |es| && es[r.value].path == path
    ensures r.Some? ==> forall k :: 0 <= k < r.value ==> es[k].path != path
    ensures r.None? <==> forall k :: 0 <= k < |es| ==> es[k].path != path
  {
    if es == [] then None
    else if es[0].path == path then Some(0)
    else match FindFirst(es[1..], path)
      case None => None
      case Some(i) => Some(i + 1)
  }

  /** `is_dirty`: some entry with `path` is marked dirty. */
  function AnyDirty(es: seq<CacheInfo>, path: Path): (r: bool)
    ensures r <==> exists i :: 0 <= i < |es| && es[i].path == path && es[i].dirty
  {
    if es == [] then false
    else (es[0].path == path && es[0].dirty) || AnyDirty(es[1..], path)
  }

  /** `get`: a copy of the first entry with `path`. */
  function Lookup(es: seq<CacheInfo>, path: Path): (r: Option<CacheInfo>)
    ensures r.None? <==> forall k :: 0 <= k < |es| ==> es[k].path != path
    ensures r.Some? ==> r.value.path == path && r.value in es
    ensures r.Some? ==>
      exists i :: 0 <= i < |es| && es[i] == r.value && (forall k :: 0 <= k < i ==> es[k].path != path)
  {
    match FindFirst(es, path)
    case None => None
    case Some(i) => Some(es[i])
  }

  /** The first entry with `path` gets the dirty flag `dirty` (`set_dirty`, and
      `mark_dirty` with `true`); nothing happens when there is none. */
  function SetFlag(es: seq<CacheInfo>, path: Path, dirty: bool): (r: seq<CacheInfo>)
    ensures |r| == |es|
    ensures forall i :: 0 <= i < |es| ==>
      r[i] == if FindFirst(es, path) == Some(i) then es[i].(dirty := dirty) else es[i]
  {
    if es == [] then []
    else if es[0].path == path then [es[0].(dirty := dirty)] + es[1..]
    else [es[0]] + SetFlag(es[1..], path, dirty)
  }

  /** The first entry with `path` gets the text `data` and is marked clean
      (`update_data`); nothing happens when there is none. */
  function Refresh(es: seq<CacheInfo>, path: Path, data: string): (r: seq<CacheInfo>)
    ensures |r| == |es|
    ensures forall i :: 0 <= i < |es| ==>
      r[i] == if FindFirst(es, path) == Some(i) then es[i].(dirty := false, data := data) else es[i]
  {
    if es == [] then []
    else if es[0].path == path then [es[0].(dirty := false, data := data)] + es[1..]
    else [es[0]] + Refresh(es[1..], path, data)
  }

  /** The entries whose path is not `path`, in their order (`retain`). */
  function Without(es: seq<CacheInfo>, path: Path): (r: seq<CacheInfo>)
    ensures forall e :: e in r <==> e in es && e.path != path
    ensures |r| <= |es|
  {
    if es == [] then []
    else Without(es[..|es| - 1], path) + (if es[|es| - 1].path != path then [es[|es| - 1]] else [])
  }

  /** Removing keeps the order of what remains: it distributes over concatenation. */
  lemma {:induction false} WithoutAppend(a: seq<CacheInfo>, b: seq<CacheInfo>, path: Path)
    ensures Without(a + b, path) == Without(a, path) + Without(b, path)
    decreases |b|
  {
    if b == [] {
      assert a + b == a;
    } else {
      var b' := b[..|b| - 1];
      assert (a + b)[..|a + b| - 1] == a + b';
      assert (a + b)[|a + b| - 1] == b[|b| - 1];
      WithoutAppend(a, b', path);
    }
  }

  /** Entries with other paths keep their positions under the flag and text updates and
      under removal, so everything about another path stays as it was. */
  lemma OtherPathsUnchanged(es: seq<CacheInfo>, path: Path, q: Path, dirty: bool, data: string)
    requires q != path
    ensures Lookup(SetFlag(es, path, dirty), q) == Lookup(es, q)
    ensures Lookup(Refresh(es, path, data), q) == Lookup(es, q)
    ensures AnyDirty(SetFlag(es, path, dirty), q) == AnyDirty(es, q)
    ensures AnyDirty(Refresh(es, path, data), q) == AnyDirty(es, q)
    ensures Lookup(Without(es, path), q) == Lookup(es, q)
    ensures AnyDirty(Without(es, path), q) == AnyDirty(es, q)
  {
    SamePositions(es, SetFlag(es, path, dirty), path, q);
    SamePositions(es, Refresh(es, path, data), path, q);
    WithoutOtherPath(es, path, q);
  }

  /** Two lists of the same length that differ only at entries with `path` agree on
      everything about another path `q`. */
  lemma {:induction false} SamePositions(es: seq<CacheInfo>, fs: seq<CacheInfo>, path: Path, q: Path)
    requires q != path && |es| == |fs|
    requires forall i :: 0 <= i < |es| ==> fs[i] == es[i] || (fs[i].path == path && es[i].path == path)
    ensures FindFirst(fs, q) == FindFirst(es, q)
    ensures Lookup(fs, q) == Lookup(es, q)
    ensures AnyDirty(fs, q) == AnyDirty(es, q)
  {
    if es != [] {
      SamePositions(es[1..], fs[1..], path, q);
    }
  }

  /** Lists whose entries carry the same paths in the same order have their first
      matches at the same positions. */
  lemma {:induction false} SamePaths(es: seq<CacheInfo>, fs: seq<CacheInfo>, q: Path)
    requires |es| == |fs|
    requires forall i :: 0 <= i < |es| ==> fs[i].path == es[i].path
    ensures FindFirst(fs, q) == FindFirst(es, q)
  {
    if es != [] {
      SamePaths(es[1..], fs[1..], q);
    }
  }

  lemma {:induction false} WithoutOtherPath(es: seq<CacheInfo>, path: Path, q: Path)
    requires q != path
    ensures Lookup(Without(es, path), q) == Lookup(es, q)
    ensures AnyDirty(Without(es, path), q) == AnyDirty(es, q)
  {
    if es != [] {
      var es', last := es[..|es| - 1], es[|es| - 1];
      assert es == es' + [last];
      WithoutOtherPath(es', path, q);
      LookupSnoc(es', last, q);
      if last.path != path {
        assert Without(es, path) == Without(es', path) + [last];
        LookupSnoc(Without(es', path), last, q);
      } else {
        assert Without(es, path) == Without(es', path);
      }
    }
  }

  /** Adding at the end: a search still finds an earlier entry with the same path. */
  lemma {:induction false} FindFirstSnoc(es: seq<CacheInfo>, e: CacheInfo, q: Path)
    ensures FindFirst(es + [e], q) ==
      if FindFirst(es, q).Some? then FindFirst(es, q) else if e.path == q then Some(|es|) else None
    ensures AnyDirty(es + [e], q) == (AnyDirty(es, q) || (e.path == q && e.dirty))
  {
    if es == [] {
      assert es + [e] == [e];
    } else {
      FindFirstSnoc(es[1..], e, q);
      assert (es + [e])[1..] == es[1..] + [e];
    }
  }

  lemma LookupSnoc(es: seq<CacheInfo>, e: CacheInfo, q: Path)
    ensures Lookup(es + [e], q) == if Lookup(es, q).Some? then Lookup(es, q) else if e.path == q then Some(e) else None
    ensures AnyDirty(es + [e], q) == (AnyDirty(es, q) || (e.path == q && e.dirty))
  {
    FindFirstSnoc(es, e, q);
    match FindFirst(es, q)
    case None =>
    case Some(i) =>
      assert (es + [e])[i] == es[i];
  }

  /** After `mark_dirty` the path counts as dirty exactly when it is cached at all. */
  lemma MarkDirtyEffect(es: seq<CacheInfo>, path: Path)
    ensures AnyDirty(SetFlag(es, path, true), path) <==> Lookup(es, path).Some?
    ensures Lookup(es, path).Some? ==> Lookup(SetFlag(es, path, true), path) == Some(Lookup(es, path).value.(dirty := true))
  {
    var fs := SetFlag(es, path, true);
    SamePaths(es, fs, path);
    match FindFirst(es, path)
    case None =>
    case Some(i) =>
      assert fs[i].path == path && fs[i].dirty;
  }

  /** After `update_data` a lookup returns the new text, marked clean. */
  lemma UpdateDataEffect(es: seq<CacheInfo>, path: Path, data: string)
    ensures Lookup(es, path).Some? ==> Lookup(Refresh(es, path, data), path) == Some(CacheInfo(path, false, data))
    ensures Lookup(es, path).None? ==> Refresh(es, path, data) == es
  {
    SamePaths(es, Refresh(es, path, data), path);
  }

  /** Since `is_dirty` looks at every entry but `update_data` only at the first, a path
      cached twice can stay dirty after its text was refreshed. */
  lemma DuplicateStaysDirty(path: Path, old_data: string, data: string)
    ensures var es := [CacheInfo(path, true, old_data), CacheInfo(path, true, old_data)];
      AnyDirty(Refresh(es, path, data), path)
  {
    var es := [CacheInfo(path, true, old_data), CacheInfo(path, true, old_data)];
    assert Refresh(es, path, data)[1] == es[1];
  }

  /** `add` does not look for an existing entry: an entry added for a path that is
      already cached is never seen by `get`. */
  lemma AddIsShadowed(es: seq<CacheInfo>, path: Path, data: string, dirty: bool)
    requires Lookup(es, path).Some?
    ensures Lookup(es + [CacheInfo(path, dirty, data)], path) == Lookup(es, path)
  {
    LookupSnoc(es, CacheInfo(path, dirty, data), path);
  }

  /** After `remove` nothing is cached for the path. */
  lemma RemoveEffect(es: seq<CacheInfo>, path: Path)
    ensures Lookup(Without(es, path), path).None?
    ensures !AnyDirty(Without(es, path), path)
  {
    var fs := Without(es, path);
    forall k | 0 <= k < |fs|
      ensures fs[k].path != path
    {
      assert fs[k] in fs;
    }
  }

  /** `Cache`: the list of entries, updated in place. */
  class Cache {
    var inner: seq<CacheInfo>

    /** `Cache::new()`. */
    constructor ()
      ensures inner == []
    {
      inner := [];
    }

    /** `is_dirty`: false when the path is not cached. */
    function IsDirty(path: Path): (r: bool)
      reads this
      ensures r <==> exists i :: 0 <= i < |inner| && inner[i].path == path && inner[i].dirty
    {
      AnyDirty(inner, path)
    }

    /** `get`. */
    function Get(path: Path): (r: Option<CacheInfo>)
      reads this
      ensures r.None? <==> forall k :: 0 <= k < |inner| ==> inner[k].path != path
      ensures r.Some? ==>
        exists i :: 0 <= i < |inner| && inner[i] == r.value && inner[i].path == path &&
          (forall k :: 0 <= k < i ==> inner[k].path != path)
    {
      Lookup(inner, path)
    }

    /** `get_data`: the text of the first entry with `path`. */
    function GetData(path: Path): (r: Option<string>)
      reads this
      ensures r.Some? <==> Get(path).Some?
      ensures r.Some? ==> r.value == Get(path).value.data
    {
      match Get(path)
      case None => None
      case Some(c) => Some(c.data)
    }

    /** The search that `set_dirty`, `mark_dirty` and `update_data` start with. */
    method Position(path: Path) returns (idx: Option<nat>)
      ensures idx == FindFirst(inner, path)
    {
      var i := 0;
      while i < |inner|
        invariant 0 <= i <= |inner|
        invariant forall k :: 0 <= k < i ==> inner[k].path != path
      {
        if inner[i].path == path {
          return Some(i);
        }
        i := i + 1;
      }
      return None;
    }

    /** `set_dirty`. */
    method SetDirty(path: Path, dirty: bool)
      modifies this
      ensures inner == SetFlag(old(inner), path, dirty)
    {
      var idx := Position(path);
      if idx.Some? {
        inner := inner[idx.value := inner[idx.value].(dirty := dirty)];
      }
    }

    /** `mark_dirty`. */
    method MarkDirty(path: Path)
      modifies this
      ensures inner == SetFlag(old(inner), path, true)
    {
      var idx := Position(path);
      if idx.Some? {
        inner := inner[idx.value := inner[idx.value].(dirty := true)];
      }
    }

    /** `remove`: every entry with the path goes, the others stay in order. */
    method Remove(path: Path)
      modifies this
      ensures inner == Without(old(inner), path)
    {
      var kept: seq<CacheInfo> := [];
      for i := 0 to |inner|
        invariant kept == Without(inner[..i], path)
      {
        assert inner[..i + 1][..i] == inner[..i];
        if inner[i].path != path {
          kept := kept + [inner[i]];
        }
      }
      assert inner[..|inner|] == inner;
      inner := kept;
    }

    /** `add`: appends without looking for the path. */
    method Add(path: Path, data: string, dirty: bool)
      modifies this
      ensures inner == old(inner) + [CacheInfo(path, dirty, data)]
    {
      inner := inner + [CacheInfo(path, dirty, data)];
    }

    /** `update_data`. */
    method UpdateData(path: Path, data: string)
      modifies this
      ensures inner == Refresh(old(inner), path, data)
    {
      var idx := Position(path);
      if idx.Some? {
        inner := inner[idx.value := inner[idx.value].(dirty := false, data := data)];
      }
    }
  }
}
