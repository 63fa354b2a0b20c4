/**
  The class `RemoteConfig`: the user interface's cache of the daemon's settings, and the
  notifications it has given to its own listeners.
 */
module RemoteConfigs {
  import opened Globals
  import opened KeyLists

  class RemoteConfig {
    var cachedGlobals: Object
    var globalChanged: seq<Signal>

    constructor ()
      ensures cachedGlobals == map[] && globalChanged == []
    {
      cachedGlobals, globalChanged := map[], [];
    }

    // Exactly the keys that read differently are notified, each once, after the cache is replaced.
    method HandleGlobals(globals: Object) returns (ghost notes: seq<Signal>)
      modifies this
      ensures cachedGlobals == globals && globalChanged == old(globalChanged) + notes
      ensures forall i, j | 0 <= i < j < |notes| :: notes[i].key != notes[j].key
      ensures forall k: string ::
                (exists x | x in notes :: x.key == k) <==> Lookup(globals, k) != Lookup(old(cachedGlobals), k)
      ensures SameReading(Fold(old(cachedGlobals), notes), globals)
    {
      hide Lookup, Fold, Differing;
      var keys := ListOf(globals.Keys + cachedGlobals.Keys);
      var changed := DropEqual(cachedGlobals, globals, keys);
      cachedGlobals := globals;
      notes := Notify(globals, changed);
      for i := 0 to |changed|
        invariant cachedGlobals == globals && globalChanged == old(globalChanged) + notes[..i]
      {
        globalChanged := globalChanged + [Changed(changed[i], Lookup(cachedGlobals, changed[i]))];
      }
      NotificationsRebuild(old(cachedGlobals), globals, keys);
    }

    // The listed keys that read differently; the others are removed from the list, from front to back.
    static method DropEqual(before: Object, after: Object, keys: seq<string>) returns (changed: seq<string>)
      ensures changed == Differing(before, after, keys)
    {
      hide Differing, Lookup;
      changed := keys;
      var it := 0;
      while it < |changed|
        invariant 0 <= it <= |changed|
        invariant Differing(before, after, keys) == changed[..it] + Differing(before, after, changed[it..])
        decreases |changed| - it
      {
        DifferingFrom(before, after, changed, it);
        var key, rest := changed[it], changed[it + 1..];
        if Lookup(after, key) == Lookup(before, key) {
          changed := changed[..it] + rest;
          assert changed[it..] == rest;
        } else {
          it := it + 1;
        }
      }
      DifferingFrom(before, after, changed, it);
    }

    // A change of a setting that the cache already reads is dropped.
    method HandleEvent(key: string, value: Value)
      modifies this
      ensures cachedGlobals == Receive(old(cachedGlobals), Changed(key, value))
      ensures forall k :: Lookup(cachedGlobals, k) == if k == key then value else Lookup(old(cachedGlobals), k)
      ensures var told := if Lookup(old(cachedGlobals), key) == value then [] else [Changed(key, value)];
              globalChanged == old(globalChanged) + told
    {
      if Lookup(cachedGlobals, key) != value {
        cachedGlobals := cachedGlobals[key := value];
        globalChanged := globalChanged + [Changed(key, value)];
      }
    }
  }
}
