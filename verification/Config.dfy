/**
  The class `Config`: user values over defaults, updated in place, with the signals it has emitted.

  Key lists are taken in whatever order the dictionary gives them.
 */
module Configs {
  import opened Globals
  import Folders
  import opened KeyLists

  class Config {
    var globalsCustom: Object
    const globalsDefaults: Object
    var foldersCustom: Folders.Store
    const foldersDefaults: Object
    const identify: Folders.Identify
    var globalChanged: seq<Signal>
    var folderSignals: seq<Folders.Notice>

    constructor (globalsDefaults: Object, foldersDefaults: Object, identify: Folders.Identify)
      ensures Globals() == Settings(map[], globalsDefaults) && foldersCustom == map[]
      ensures this.foldersDefaults == foldersDefaults && this.identify == identify
      ensures globalChanged == [] && folderSignals == []
    {
      this.globalsDefaults, this.foldersDefaults, this.identify := globalsDefaults, foldersDefaults, identify;
      globalsCustom, foldersCustom := map[], map[];
      globalChanged, folderSignals := [], [];
    }

    function Globals(): Settings
      reads this
    {
      Settings(globalsCustom, globalsDefaults)
    }

    method GetGlobal(name: string) returns (value: Value)
      ensures value == Globals().Get(name)
      ensures value == Lookup(Merged(globalsCustom, globalsDefaults), name)
      ensures value == if name in globalsCustom then globalsCustom[name] else Lookup(globalsDefaults, name)
    {
      if name in globalsCustom {
        value := globalsCustom[name];
      } else {
        value := Lookup(globalsDefaults, name);
      }
    }

    method SetGlobal(name: string, value: Value)
      modifies this`globalsCustom, this`globalChanged
      ensures Globals() == Apply(old(Globals()), Set(name, value))
      ensures globalChanged == old(globalChanged) + Signals(old(Globals()), Set(name, value))
      ensures globalsCustom == old(globalsCustom)[name := value]
      ensures globalChanged == old(globalChanged) + [Changed(name, value)]
    {
      globalsCustom := globalsCustom[name := value];
      globalChanged := globalChanged + [Changed(name, value)];
    }

    method RemoveGlobal(name: string)
      modifies this`globalsCustom, this`globalChanged
      ensures Globals() == Apply(old(Globals()), Remove(name))
      ensures globalChanged == old(globalChanged) + Signals(old(Globals()), Remove(name))
      ensures globalsCustom == old(globalsCustom) - {name}
      ensures globalChanged == old(globalChanged) + [Changed(name, Lookup(globalsDefaults, name))]
    {
      globalsCustom := globalsCustom - {name};
      var value := GetGlobal(name);
      globalChanged := globalChanged + [Changed(name, value)];
    }

    // Every key of the old and of the new document is announced, a key of both twice.
    method ImportGlobals(doc: Object) returns (ghost keys: seq<string>)
      modifies this`globalsCustom, this`globalChanged
      ensures Enabled(old(Globals()), Import(doc, keys))
      ensures Globals() == Apply(old(Globals()), Import(doc, keys))
      ensures globalChanged == old(globalChanged) + Signals(old(Globals()), Import(doc, keys))
      ensures globalsCustom == doc && (forall k :: k in keys <==> k in old(globalsCustom) || k in doc)
      ensures |globalChanged| == |old(globalChanged)| + |keys|
      ensures forall i | 0 <= i < |keys| ::
                globalChanged[|old(globalChanged)| + i] ==
                Changed(keys[i], if keys[i] in doc then doc[keys[i]] else Lookup(globalsDefaults, keys[i]))
    {
      var customKeys := ListOf(globalsCustom.Keys);
      var docKeys := ListOf(doc.Keys);
      var allKeys := customKeys + docKeys;
      keys := allKeys;
      globalsCustom := doc;
      for i := 0 to |allKeys|
        invariant globalsCustom == doc
        invariant globalChanged == old(globalChanged) + Announce(Globals(), allKeys)[..i]
      {
        var value := GetGlobal(allKeys[i]);
        globalChanged := globalChanged + [Changed(allKeys[i], value)];
      }
    }

    static method MakeMerged(custom: Object, defaults: Object) returns (merged: Object)
      ensures merged == Merged(custom, defaults)
      ensures forall k :: k in merged <==> k in custom || k in defaults
      ensures forall k | k in merged :: merged[k] == if k in custom then custom[k] else defaults[k]
    {
      var allKeys := ListOf(custom.Keys + defaults.Keys);
      merged := map[];
      for i := 0 to |allKeys|
        invariant forall k :: k in merged <==> k in allKeys[..i]
        invariant forall k | k in merged :: k in Merged(custom, defaults) && merged[k] == Merged(custom, defaults)[k]
      {
        var key := allKeys[i];
        assert key in allKeys;
        merged := merged[key := if key in custom then custom[key] else defaults[key]];
      }
      assert forall k :: k in merged <==> k in Merged(custom, defaults);
    }

    // The signals and the contents are those of `Folders`.
    twostate predicate Did(e: Folders.Effect)
      reads this
    {
      foldersCustom == e.folders && folderSignals == old(folderSignals) + e.notices
    }

    method AddFolder(fconfig: Object) returns (outcome: Folders.Outcome)
      modifies this`foldersCustom, this`folderSignals
      ensures var e := Folders.Add(old(foldersCustom), foldersDefaults, identify, fconfig);
              outcome == e.outcome && Did(e)
      ensures var id := identify(Lookup(fconfig, "secret"));
              if id.Some? && id.value !in old(foldersCustom) then
                && outcome == Folders.Done && foldersCustom == old(foldersCustom)[id.value := fconfig]
                && folderSignals == old(folderSignals) + [Folders.Added(Merged(fconfig, foldersDefaults))]
              else
                && outcome == (if id.None? then Folders.BadSecret else Folders.SameKey)
                && foldersCustom == old(foldersCustom) && folderSignals == old(folderSignals)
    {
      var folderId := Folders.IdOf(identify, fconfig);
      if folderId.None? {
        return Folders.BadSecret;
      }
      if folderId.value in foldersCustom {
        return Folders.SameKey;
      }
      foldersCustom := foldersCustom[folderId.value := fconfig];
      var merged := MakeMerged(fconfig, foldersDefaults);
      folderSignals := folderSignals + [Folders.Added(merged)];
      return Folders.Done;
    }

    method RemoveFolder(id: Folders.FolderId)
      modifies this`foldersCustom, this`folderSignals
      ensures Did(Folders.Remove(old(foldersCustom), id))
      ensures foldersCustom == old(foldersCustom) - {id}
      ensures folderSignals == old(folderSignals) + [Folders.Removed(id)]
    {
      folderSignals := folderSignals + [Folders.Removed(id)];
      foldersCustom := foldersCustom - {id};
    }

    method GetFolder(id: Folders.FolderId) returns (params: Object)
      ensures params == if id in foldersCustom then Folders.Wanted(foldersCustom, foldersDefaults)[id] else map[]
      ensures params == if id in foldersCustom then Merged(foldersCustom[id], foldersDefaults) else map[]
    {
      if id in foldersCustom {
        params := MakeMerged(foldersCustom[id], foldersDefaults);
      } else {
        params := map[];
      }
    }

    method ExportUserFolders() returns (docs: seq<Object>, ghost ids: seq<Folders.FolderId>)
      ensures Folders.Keys(ids, foldersCustom) && docs == Folders.Export(foldersCustom, ids)
      ensures |docs| == |ids| && forall i | 0 <= i < |docs| :: docs[i] == foldersCustom[ids[i]]
      ensures Folders.Keyed(foldersCustom, identify) ==> Folders.Importable(identify, docs)
    {
      var list := ListOf(foldersCustom.Keys);
      ids := list;
      docs := [];
      for i := 0 to |list|
        invariant docs == Folders.Export(foldersCustom, list)[..i]
      {
        docs := docs + [foldersCustom[list[i]]];
      }
      if Folders.Keyed(foldersCustom, identify) {
        Folders.ExportImportable(foldersCustom, identify, ids);
      }
    }

    // Stops at the first refused document; what was added before stays.
    method ImportFolders(docs: seq<Object>)
      returns (outcome: Folders.Outcome, ghost ids: seq<Folders.FolderId>, ghost n: nat)
      modifies this`foldersCustom, this`folderSignals
      ensures Folders.Keys(ids, old(foldersCustom))
      ensures var e := Folders.Import(old(foldersCustom), foldersDefaults, identify, ids, docs);
              outcome == e.outcome && Did(e)
      ensures outcome == Folders.Done <==> Folders.Importable(identify, docs)
      ensures Folders.Keyed(foldersCustom, identify)
      ensures n <= |docs| && (n == |docs| <==> outcome == Folders.Done)
      ensures forall id :: id in foldersCustom <==> Folders.Has(identify, docs[..n], id)
      ensures forall i | 0 <= i < n ::
                var id := identify(Lookup(docs[i], "secret"));
                id.Some? && id.value in foldersCustom && foldersCustom[id.value] == docs[i]
    {
      hide Folders.RemoveAll, Folders.AddAll, Folders.Importable, Folders.Keyed;
      ids := RemoveEveryFolder();
      Folders.ImportIff(old(foldersCustom), foldersDefaults, identify, ids, docs);
      n := Folders.ImportLeaves(old(foldersCustom), foldersDefaults, identify, ids, docs);
      hide Folders.Has;
      outcome := AddEveryFolder(docs);
    }

    method RemoveEveryFolder() returns (ids: seq<Folders.FolderId>)
      modifies this`foldersCustom, this`folderSignals
      ensures Folders.Keys(ids, old(foldersCustom)) && Did(Folders.RemoveAll(old(foldersCustom), ids))
    {
      hide Folders.RemoveAll;
      ids := ListOf(foldersCustom.Keys);
      ghost var whole := Folders.RemoveAll(foldersCustom, ids);
      for i := 0 to |ids|
        invariant whole.folders == Folders.RemoveAll(foldersCustom, ids[i..]).folders
        invariant old(folderSignals) + whole.notices ==
                    folderSignals + Folders.RemoveAll(foldersCustom, ids[i..]).notices
      {
        Folders.RemoveAllFrom(foldersCustom, ids, i);
        ghost var rest := Folders.RemoveAll(foldersCustom - {ids[i]}, ids[i + 1..]);
        ghost var removed := [Folders.Removed(ids[i])];
        assert folderSignals + (removed + rest.notices) == folderSignals + removed + rest.notices;
        RemoveFolder(ids[i]);
      }
      Folders.RemoveAllOfNone(foldersCustom);
      assert ids[|ids|..] == [];
    }

    method AddEveryFolder(docs: seq<Object>) returns (outcome: Folders.Outcome)
      modifies this`foldersCustom, this`folderSignals
      ensures var e := Folders.AddAll(old(foldersCustom), foldersDefaults, identify, docs);
              outcome == e.outcome && Did(e)
    {
      hide Merged, Folders.AddAll, Folders.Add;
      ghost var whole := Folders.AddAll(foldersCustom, foldersDefaults, identify, docs);
      for i := 0 to |docs|
        invariant var rest := Folders.AddAll(foldersCustom, foldersDefaults, identify, docs[i..]);
                  && whole.folders == rest.folders && whole.outcome == rest.outcome
                  && old(folderSignals) + whole.notices == folderSignals + rest.notices
      {
        Folders.AddAllFrom(foldersCustom, foldersDefaults, identify, docs, i);
        outcome := AddFolder(docs[i]);
        if outcome != Folders.Done {
          return;
        }
      }
      outcome := Folders.Done;
      Folders.AddAllOfNone(foldersCustom, foldersDefaults, identify);
      assert docs[|docs|..] == [];
    }
  }
}
