/**
  The configured folders, keyed by the hash of their secret, the signals about them, and the folder
  service that keeps one group per configured folder.

  `identify` stands for reading a secret from a setting and hashing it; it fails on a malformed one.
  The functions are the specification of the methods of `Config` and `FolderService`.
 */
module Folders {
  import opened Options
  import opened Globals
  import opened KeyLists

  type FolderId = nat
  type Identify = Value -> Option<FolderId>
  type Store = map<FolderId, Object>

  datatype Outcome = Done | BadSecret | SameKey
  datatype Notice = Added(params: Object) | Removed(id: FolderId)
  datatype Effect = Effect(folders: Store, notices: seq<Notice>, outcome: Outcome)

  // A folder without a secret reads as one whose secret is null.
  function IdOf(identify: Identify, folder: Object): (id: Option<FolderId>)
    ensures "secret" in folder ==> id == identify(folder["secret"])
    ensures "secret" !in folder ==> id == identify(Null)
  {
    identify(Lookup(folder, "secret"))
  }

  // ---------------------------------------------------------------- the store

  function Add(folders: Store, defaults: Object, identify: Identify, f: Object): Effect {
    var id := IdOf(identify, f);
    if id.None? then Effect(folders, [], BadSecret)
    else if id.value in folders then Effect(folders, [], SameKey)
    else Effect(folders[id.value := f], [Added(Merged(f, defaults))], Done)
  }

  // Also a folder that is not there is announced as removed.
  function Remove(folders: Store, id: FolderId): Effect {
    Effect(folders - {id}, [Removed(id)], Done)
  }

  function RemoveAll(folders: Store, ids: seq<FolderId>): Effect
    decreases |ids|
  {
    if ids == [] then Effect(folders, [], Done)
    else
      var first := Remove(folders, ids[0]);
      var rest := RemoveAll(first.folders, ids[1..]);
      rest.(notices := first.notices + rest.notices)
  }

  // Stops at the first folder that is refused.
  function AddAll(folders: Store, defaults: Object, identify: Identify, docs: seq<Object>): Effect
    decreases |docs|
  {
    if docs == [] then Effect(folders, [], Done)
    else
      var first := Add(folders, defaults, identify, docs[0]);
      if !first.outcome.Done? then first
      else
        var rest := AddAll(first.folders, defaults, identify, docs[1..]);
        rest.(notices := first.notices + rest.notices)
  }

  // How the two loops go on from position `i`.
  lemma RemoveAllFrom(folders: Store, ids: seq<FolderId>, i: nat)
    requires i < |ids|
    ensures var rest := RemoveAll(folders - {ids[i]}, ids[i + 1..]);
            RemoveAll(folders, ids[i..]) == rest.(notices := [Removed(ids[i])] + rest.notices)
  {
  }

  lemma RemoveAllOfNone(folders: Store)
    ensures RemoveAll(folders, []) == Effect(folders, [], Done)
  {
  }

  lemma AddAllFrom(folders: Store, defaults: Object, identify: Identify, docs: seq<Object>, i: nat)
    requires i < |docs|
    ensures var first := Add(folders, defaults, identify, docs[i]);
            var rest := AddAll(first.folders, defaults, identify, docs[i + 1..]);
            AddAll(folders, defaults, identify, docs[i..]) ==
              if first.outcome.Done? then rest.(notices := first.notices + rest.notices) else first
  {
  }

  lemma AddAllOfNone(folders: Store, defaults: Object, identify: Identify)
    ensures AddAll(folders, defaults, identify, []) == Effect(folders, [], Done)
  {
  }

  function Import(folders: Store, defaults: Object, identify: Identify, ids: seq<FolderId>, docs: seq<Object>): Effect {
    var cleared := RemoveAll(folders, ids);
    var added := AddAll(cleared.folders, defaults, identify, docs);
    added.(notices := cleared.notices + added.notices)
  }

  // `ids` are the keys of the store, each once.
  predicate Keys(ids: seq<FolderId>, folders: Store) {
    && Once(ids)
    && (forall id | id in ids :: id in folders)
    && (forall id | id in folders :: id in ids)
  }

  function Export(folders: Store, ids: seq<FolderId>): (r: seq<Object>)
    requires forall id | id in ids :: id in folders
    ensures |r| == |ids| && forall i | 0 <= i < |r| :: r[i] == folders[ids[i]]
  {
    seq(|ids|, i requires 0 <= i < |ids| => folders[ids[i]])
  }

  // Each key is the hash of its entry's secret.
  predicate Keyed(folders: Store, identify: Identify) {
    forall id | id in folders :: identify(Lookup(folders[id], "secret")) == Some(id)
  }

  // ---------------------------------------------------------------- importing

  lemma {:induction false} RemoveAllClears(folders: Store, ids: seq<FolderId>)
    ensures RemoveAll(folders, ids).folders == map id | id in folders && id !in ids :: folders[id]
    ensures RemoveAll(folders, ids).outcome == Done
    decreases |ids|
  {
    if ids != [] {
      RemoveAllClears(folders - {ids[0]}, ids[1..]);
      assert forall id :: id in ids <==> id == ids[0] || id in ids[1..];
    }
  }

  predicate Has(identify: Identify, docs: seq<Object>, id: FolderId) {
    exists i | 0 <= i < |docs| :: identify(Lookup(docs[i], "secret")) == Some(id)
  }

  // The documents have secrets, and different ones.
  predicate Importable(identify: Identify, docs: seq<Object>) {
    && (forall i | 0 <= i < |docs| :: identify(Lookup(docs[i], "secret")).Some?)
    && (forall i, j | 0 <= i < j < |docs| ::
          identify(Lookup(docs[i], "secret")) != identify(Lookup(docs[j], "secret")))
  }

  // Adding succeeds exactly if the documents are importable and none of them is already there; then
  // the store has, besides what it had, each document under the hash of its secret.
  lemma {:induction false} AddAllExact(folders: Store, defaults: Object, identify: Identify, docs: seq<Object>)
    ensures var e := AddAll(folders, defaults, identify, docs);
            && (e.outcome == Done <==>
                  && Importable(identify, docs)
                  && forall i | 0 <= i < |docs| :: IdOf(identify, docs[i]).value !in folders)
            && (e.outcome == Done ==>
                  && (forall id :: id in e.folders <==> id in folders || Has(identify, docs, id))
                  && (forall id | id in folders :: e.folders[id] == folders[id])
                  && (forall i | 0 <= i < |docs| :: e.folders[IdOf(identify, docs[i]).value] == docs[i]))
    decreases |docs|
  {
    hide Merged;
    if docs != [] {
      var first := Add(folders, defaults, identify, docs[0]);
      if first.outcome.Done? {
        AddAllExact(first.folders, defaults, identify, docs[1..]);
        AddAllStep(folders, defaults, identify, docs);
      }
    }
  }

  lemma {:induction false} AddAllKeyed(folders: Store, defaults: Object, identify: Identify, docs: seq<Object>)
    requires Keyed(folders, identify)
    ensures Keyed(AddAll(folders, defaults, identify, docs).folders, identify)
    decreases |docs|
  {
    hide Merged;
    if docs != [] {
      var first := Add(folders, defaults, identify, docs[0]);
      AddAllKeyed(first.folders, defaults, identify, docs[1..]);
    }
  }

  lemma AddAllStep(folders: Store, defaults: Object, identify: Identify, docs: seq<Object>)
    requires docs != [] && Add(folders, defaults, identify, docs[0]).outcome.Done?
    ensures var rest := docs[1..];
            var folders' := Add(folders, defaults, identify, docs[0]).folders;
            && (Importable(identify, docs) && (forall i | 0 <= i < |docs| :: IdOf(identify, docs[i]).value !in folders)
                <==>
                Importable(identify, rest) && forall i | 0 <= i < |rest| :: IdOf(identify, rest[i]).value !in folders')
  {
  }

  // Adding stops at the first document that is refused, after exactly those before it.
  lemma {:induction false} AddAllStops(folders: Store, defaults: Object, identify: Identify, docs: seq<Object>)
    returns (n: nat)
    ensures n <= |docs|
    ensures var e, before := AddAll(folders, defaults, identify, docs), AddAll(folders, defaults, identify, docs[..n]);
            && e.folders == before.folders && e.notices == before.notices && before.outcome == Done
            && (e.outcome == Done <==> n == |docs|)
            && (n < |docs| ==> e.outcome == Add(before.folders, defaults, identify, docs[n]).outcome)
    decreases |docs|
  {
    hide Merged;
    n := 0;
    if docs != [] {
      var first := Add(folders, defaults, identify, docs[0]);
      assert docs[..0] == [];
      if first.outcome.Done? {
        n := AddAllStops(first.folders, defaults, identify, docs[1..]);
        n := n + 1;
        assert docs[..n][1..] == docs[1..][..n - 1] && docs[..n][0] == docs[0];
      }
    }
  }

  // What an import leaves, in full: the documents before the first refused one, each under the hash of its secret.
  lemma ImportLeaves(folders: Store, defaults: Object, identify: Identify, ids: seq<FolderId>, docs: seq<Object>)
    returns (n: nat)
    requires Keys(ids, folders)
    ensures n <= |docs| && Importable(identify, docs[..n]) && (n < |docs| ==> !Importable(identify, docs[..n + 1]))
    ensures var e := Import(folders, defaults, identify, ids, docs);
            && (e.outcome == Done <==> n == |docs|)
            && (forall id :: id in e.folders <==> Has(identify, docs[..n], id))
            && (forall i | 0 <= i < n :: identify(Lookup(docs[i], "secret")).Some?)
            && (forall i | 0 <= i < n ::
                  var id := identify(Lookup(docs[i], "secret")).value; id in e.folders && e.folders[id] == docs[i])
  {
    RemoveAllClears(folders, ids);
    assert RemoveAll(folders, ids).folders == map[];
    n := AddAllStops(map[], defaults, identify, docs);
    AddAllExact(map[], defaults, identify, docs[..n]);
    var e := Import(folders, defaults, identify, ids, docs);
    assert e.folders == AddAll(map[], defaults, identify, docs[..n]).folders;
    if n < |docs| {
      AddAllExact(map[], defaults, identify, docs[..n + 1]);
      StopsThere(defaults, identify, docs, n);
    }
    hide AddAll, RemoveAll, Keys;
    forall i | 0 <= i < n
      ensures identify(Lookup(docs[i], "secret")).Some?
      ensures var id := identify(Lookup(docs[i], "secret")).value; id in e.folders && e.folders[id] == docs[i]
    {
      assert docs[..n][i] == docs[i];
    }
  }

  lemma {:induction false} AddAllAppend(folders: Store, defaults: Object, identify: Identify, a: seq<Object>, f: Object)
    requires AddAll(folders, defaults, identify, a).outcome == Done
    ensures AddAll(folders, defaults, identify, a + [f]).outcome ==
            Add(AddAll(folders, defaults, identify, a).folders, defaults, identify, f).outcome
    decreases |a|
  {
    hide Merged;
    if a == [] {
      assert a + [f] == [f] && [f][1..] == [];
    } else {
      assert (a + [f])[1..] == a[1..] + [f] && (a + [f])[0] == a[0];
      AddAllAppend(Add(folders, defaults, identify, a[0]).folders, defaults, identify, a[1..], f);
    }
  }

  lemma StopsThere(defaults: Object, identify: Identify, docs: seq<Object>, n: nat)
    requires n < |docs| && AddAll(map[], defaults, identify, docs[..n]).outcome == Done
    requires Add(AddAll(map[], defaults, identify, docs[..n]).folders, defaults, identify, docs[n]).outcome != Done
    ensures AddAll(map[], defaults, identify, docs[..n + 1]).outcome != Done
  {
    hide AddAll, Add;
    AddAllAppend(map[], defaults, identify, docs[..n], docs[n]);
    assert docs[..n + 1] == docs[..n] + [docs[n]];
  }

  // An import succeeds exactly if the documents have secrets, and different ones; what was there before
  // does not matter.
  lemma ImportIff(folders: Store, defaults: Object, identify: Identify, ids: seq<FolderId>, docs: seq<Object>)
    requires Keys(ids, folders)
    ensures Import(folders, defaults, identify, ids, docs).outcome == Done <==> Importable(identify, docs)
    ensures Keyed(Import(folders, defaults, identify, ids, docs).folders, identify)
  {
    RemoveAllClears(folders, ids);
    assert RemoveAll(folders, ids).folders == map[];
    AddAllExact(map[], defaults, identify, docs);
    AddAllKeyed(map[], defaults, identify, docs);
  }

  lemma ExportImportable(folders: Store, identify: Identify, ids: seq<FolderId>)
    requires Keyed(folders, identify) && Keys(ids, folders)
    ensures Importable(identify, Export(folders, ids))
  {
  }

  // Exporting one store and importing the documents into any other rebuilds the first one.
  lemma RoundTrip(folders: Store, identify: Identify, ids: seq<FolderId>, other: Store, defaults: Object,
                  otherIds: seq<FolderId>)
    requires Keyed(folders, identify) && Keys(ids, folders) && Keys(otherIds, other)
    ensures var e := Import(other, defaults, identify, otherIds, Export(folders, ids));
            e.outcome == Done && e.folders == folders
  {
    var docs := Export(folders, ids);
    RemoveAllClears(other, otherIds);
    assert RemoveAll(other, otherIds).folders == map[];
    hide AddAll, RemoveAll, Keyed, Keys, Export;
    AddExported(folders, identify, ids, defaults);
  }

  lemma AddExported(folders: Store, identify: Identify, ids: seq<FolderId>, defaults: Object)
    requires Keyed(folders, identify) && Keys(ids, folders)
    ensures var e := AddAll(map[], defaults, identify, Export(folders, ids));
            e.outcome == Done && e.folders == folders
  {
    var docs := Export(folders, ids);
    ExportImportable(folders, identify, ids);
    AddAllExact(map[], defaults, identify, docs);
    assert forall i | 0 <= i < |ids| :: ids[i] in folders && IdOf(identify, docs[i]) == Some(ids[i]);
    var e := AddAll(map[], defaults, identify, docs);
    hide AddAll, Keyed, Importable, Keys;
    SameStore(folders, e.folders, identify, ids, docs);
  }

  // A store that holds exactly the documents of another one, under the same keys, is that store.
  lemma SameStore(folders: Store, result: Store, identify: Identify, ids: seq<FolderId>, docs: seq<Object>)
    requires Keys(ids, folders) && |docs| == |ids|
    requires forall i | 0 <= i < |ids| :: ids[i] in folders && docs[i] == folders[ids[i]]
    requires forall i | 0 <= i < |ids| :: IdOf(identify, docs[i]) == Some(ids[i])
    requires forall id :: id in result <==> Has(identify, docs, id)
    requires forall i | 0 <= i < |ids| :: ids[i] in result && result[ids[i]] == docs[i]
    ensures result == folders
  {
    hide IdOf;
    forall id ensures id in result <==> id in folders {
      if id in folders {
        var i :| 0 <= i < |ids| && ids[i] == id;
        assert IdOf(identify, docs[i]) == Some(id);
      }
    }
    forall id | id in folders ensures result[id] == folders[id] {
      var i :| 0 <= i < |ids| && ids[i] == id;
    }
  }

  // ---------------------------------------------------------------- the folder service

  // The groups by folder, with the parameters they were made from. `live` counts the group objects that
  // were made and not yet deleted; `fault` records a removal that finds no group to delete.
  datatype Service = Service(groups: map<FolderId, Object>, live: nat, fault: bool)

  const Empty: Service := Service(map[], 0, false)

  function Init(sv: Service, identify: Identify, params: Object): Service {
    var id := IdOf(identify, params);
    if id.None? then sv.(fault := true)
    else sv.(groups := sv.groups[id.value := params], live := sv.live + 1)
  }

  function Deinit(sv: Service, id: FolderId): Service {
    if id in sv.groups && sv.live > 0 then sv.(groups := sv.groups - {id}, live := sv.live - 1)
    else sv.(fault := true)
  }

  function React(sv: Service, identify: Identify, n: Notice): Service {
    match n
    case Added(params) => Init(sv, identify, params)
    case Removed(id) => Deinit(sv, id)
  }

  function ReactAll(sv: Service, identify: Identify, notices: seq<Notice>): Service
    decreases |notices|
  {
    if notices == [] then sv else ReactAll(React(sv, identify, notices[0]), identify, notices[1..])
  }

  // Exactly one live group per folder, made from its merged parameters.
  ghost predicate Serves(sv: Service, folders: Store, defaults: Object) {
    && !sv.fault
    && sv.groups == Wanted(folders, defaults)
    && sv.live == |sv.groups|
  }

  function Wanted(folders: Store, defaults: Object): map<FolderId, Object> {
    map id | id in folders :: Merged(folders[id], defaults)
  }

  lemma {:induction false} ReactAppend(sv: Service, identify: Identify, a: seq<Notice>, b: seq<Notice>)
    ensures ReactAll(sv, identify, a + b) == ReactAll(ReactAll(sv, identify, a), identify, b)
    decreases |a|
  {
    if a == [] {
      assert a + b == b;
    } else {
      assert (a + b)[1..] == a[1..] + b;
      ReactAppend(React(sv, identify, a[0]), identify, a[1..], b);
    }
  }

  // The defaults hold no secret, so merging keeps the user's.
  lemma MergedKeepsId(identify: Identify, f: Object, defaults: Object)
    requires "secret" !in defaults
    ensures IdOf(identify, Merged(f, defaults)) == IdOf(identify, f)
  {
  }

  lemma ReactOne(sv: Service, identify: Identify, n: Notice)
    ensures ReactAll(sv, identify, [n]) == React(sv, identify, n)
  {
  }

  lemma ReactNone(sv: Service, identify: Identify)
    ensures ReactAll(sv, identify, []) == sv
  {
  }

  lemma WantedChange(folders: Store, defaults: Object, id: FolderId, f: Object)
    ensures Wanted(folders[id := f], defaults) == Wanted(folders, defaults)[id := Merged(f, defaults)]
    ensures Wanted(folders - {id}, defaults) == Wanted(folders, defaults) - {id}
    ensures Wanted(folders, defaults).Keys == folders.Keys
  {
  }

  lemma AddServes(sv: Service, folders: Store, defaults: Object, identify: Identify, f: Object)
    requires Serves(sv, folders, defaults) && "secret" !in defaults
    ensures var e := Add(folders, defaults, identify, f);
            Serves(ReactAll(sv, identify, e.notices), e.folders, defaults)
  {
    hide Merged, Wanted, ReactAll;
    MergedKeepsId(identify, f, defaults);
    ReactOne(sv, identify, Added(Merged(f, defaults)));
    assert ReactAll(sv, identify, []) == sv by { ReactNone(sv, identify); }
    if IdOf(identify, f).Some? {
      WantedChange(folders, defaults, IdOf(identify, f).value, f);
    }
  }

  // Removing a folder keeps the service right exactly if the folder is there; a folder that is not
  // there makes it delete a group it does not have.
  lemma RemoveServesIff(sv: Service, folders: Store, defaults: Object, identify: Identify, id: FolderId)
    requires Serves(sv, folders, defaults)
    ensures var e := Remove(folders, id);
            Serves(ReactAll(sv, identify, e.notices), e.folders, defaults) <==> id in folders
    ensures ReactAll(sv, identify, Remove(folders, id).notices).fault <==> id !in folders
  {
    hide Merged, Wanted, ReactAll;
    ReactOne(sv, identify, Removed(id));
    WantedChange(folders, defaults, id, map[]);
    if id in folders {
      assert sv.groups.Keys == Deinit(sv, id).groups.Keys + {id};
    }
  }

  lemma {:induction false} RemoveAllServes(sv: Service, folders: Store, defaults: Object, identify: Identify,
                                           ids: seq<FolderId>)
    requires Serves(sv, folders, defaults)
    requires (forall id | id in ids :: id in folders) && Once(ids)
    ensures var e := RemoveAll(folders, ids);
            Serves(ReactAll(sv, identify, e.notices), e.folders, defaults)
    decreases |ids|
  {
    if ids != [] {
      var first, rest := Remove(folders, ids[0]), ids[1..];
      assert ids[0] in ids && forall id | id in rest :: id in ids;
      RemoveServesIff(sv, folders, defaults, identify, ids[0]);
      forall id | id in rest ensures id in first.folders {
        var i :| 0 <= i < |rest| && rest[i] == id;
        assert ids[i + 1] == id;
      }
      hide Serves, ReactAll, React;
      RemoveAllServes(ReactAll(sv, identify, first.notices), first.folders, defaults, identify, rest);
      ReactAppend(sv, identify, first.notices, RemoveAll(first.folders, rest).notices);
    }
  }

  // Also if it stops half way, adding keeps the service right.
  lemma {:induction false} AddAllServes(sv: Service, folders: Store, defaults: Object, identify: Identify,
                                        docs: seq<Object>)
    requires Serves(sv, folders, defaults) && "secret" !in defaults
    ensures var e := AddAll(folders, defaults, identify, docs);
            Serves(ReactAll(sv, identify, e.notices), e.folders, defaults)
    decreases |docs|
  {
    if docs != [] {
      var first := Add(folders, defaults, identify, docs[0]);
      AddServes(sv, folders, defaults, identify, docs[0]);
      if first.outcome.Done? {
        AddAllServes(ReactAll(sv, identify, first.notices), first.folders, defaults, identify, docs[1..]);
        ReactAppend(sv, identify, first.notices, AddAll(first.folders, defaults, identify, docs[1..]).notices);
      }
    }
  }

  lemma ImportServes(sv: Service, folders: Store, defaults: Object, identify: Identify, ids: seq<FolderId>,
                     docs: seq<Object>)
    requires Serves(sv, folders, defaults) && "secret" !in defaults && Keys(ids, folders)
    ensures var e := Import(folders, defaults, identify, ids, docs);
            Serves(ReactAll(sv, identify, e.notices), e.folders, defaults)
  {
    var cleared := RemoveAll(folders, ids);
    RemoveAllServes(sv, folders, defaults, identify, ids);
    AddAllServes(ReactAll(sv, identify, cleared.notices), cleared.folders, defaults, identify, docs);
    ReactAppend(sv, identify, cleared.notices, AddAll(cleared.folders, defaults, identify, docs).notices);
  }

  // ---------------------------------------------------------------- before the service is started

  // The groups there are, one live object each, are those of configured folders.
  ghost predicate Partly(sv: Service, folders: Store, defaults: Object) {
    && !sv.fault
    && sv.live == |sv.groups|
    && sv.groups.Keys <= folders.Keys
    && forall id | id in sv.groups :: sv.groups[id] == Merged(folders[id], defaults)
  }

  // A removal failed, or a group object is no longer reachable.
  predicate Leaks(sv: Service) {
    sv.fault || sv.live > |sv.groups|
  }

  lemma ServesIfAll(sv: Service, folders: Store, defaults: Object)
    ensures Serves(sv, folders, defaults) <==> Partly(sv, folders, defaults) && sv.groups.Keys == folders.Keys
    ensures Partly(sv, folders, defaults) ==> !Leaks(sv)
  {
    hide Merged;
    assert sv.groups == Wanted(folders, defaults) ==> sv.groups.Keys == folders.Keys;
  }

  lemma AddPartly(sv: Service, folders: Store, defaults: Object, identify: Identify, f: Object)
    requires Partly(sv, folders, defaults) && "secret" !in defaults
    ensures var e := Add(folders, defaults, identify, f);
            Partly(ReactAll(sv, identify, e.notices), e.folders, defaults)
  {
    hide Merged, ReactAll;
    MergedKeepsId(identify, f, defaults);
    ReactOne(sv, identify, Added(Merged(f, defaults)));
    assert ReactAll(sv, identify, []) == sv by { ReactNone(sv, identify); }
  }

  lemma OneLess(m: map<FolderId, Object>, id: FolderId)
    requires id in m
    ensures (m - {id}).Keys == m.Keys - {id} && |m - {id}| == |m| - 1
  {
    assert m.Keys == (m - {id}).Keys + {id};
    assert |m| == |m.Keys| && |m - {id}| == |(m - {id}).Keys|;
  }

  // A service that has groups for some of the folders only hears of a removal rightly exactly if it
  // has a group for the folder; that the folder is configured is not enough.
  lemma RemovePartlyIff(sv: Service, folders: Store, defaults: Object, identify: Identify, id: FolderId)
    requires Partly(sv, folders, defaults)
    ensures var e := Remove(folders, id);
            Partly(ReactAll(sv, identify, e.notices), e.folders, defaults) <==> id in sv.groups
    ensures ReactAll(sv, identify, Remove(folders, id).notices).fault <==> id !in sv.groups
  {
    hide ReactAll;
    ReactOne(sv, identify, Removed(id));
    if id in sv.groups {
      OneLess(sv.groups, id);
      DeinitPartly(sv, folders, defaults, id);
    }
    hide Merged, Partly;
    assert Partly(Deinit(sv, id), folders - {id}, defaults) ==> !Deinit(sv, id).fault by {
      ServesIfAll(Deinit(sv, id), folders - {id}, defaults);
    }
  }

  lemma DeinitPartly(sv: Service, folders: Store, defaults: Object, id: FolderId)
    requires Partly(sv, folders, defaults) && id in sv.groups
    ensures Partly(Deinit(sv, id), folders - {id}, defaults) && !Deinit(sv, id).fault
  {
    hide Merged;
    OneLess(sv.groups, id);
  }

  lemma ReactKeepsLeak(sv: Service, identify: Identify, n: Notice)
    requires Leaks(sv)
    ensures Leaks(React(sv, identify, n))
  {
    if n.Removed? && n.id in sv.groups {
      assert sv.groups.Keys == (sv.groups - {n.id}).Keys + {n.id};
    }
    if n.Added? && IdOf(identify, n.params).Some? {
      var id := IdOf(identify, n.params).value;
      assert sv.groups[id := n.params].Keys == sv.groups.Keys + {id};
    }
  }

  // What leaks, leaks for ever.
  lemma {:induction false} ReactAllKeepsLeak(sv: Service, identify: Identify, notices: seq<Notice>)
    requires Leaks(sv)
    ensures Leaks(ReactAll(sv, identify, notices))
    decreases |notices|
  {
    hide Leaks;
    if notices != [] {
      ReactKeepsLeak(sv, identify, notices[0]);
      ReactAllKeepsLeak(React(sv, identify, notices[0]), identify, notices[1..]);
    }
  }

  // Clearing the store fails at a folder that has no group.
  lemma {:induction false} RemoveAllLeaks(sv: Service, folders: Store, identify: Identify, ids: seq<FolderId>,
                                          id: FolderId)
    requires id in ids && id !in sv.groups
    ensures Leaks(ReactAll(sv, identify, RemoveAll(folders, ids).notices))
    decreases |ids|
  {
    var notices, sv' := RemoveAll(folders, ids).notices, Deinit(sv, ids[0]);
    assert notices[0] == Removed(ids[0]) && notices[1..] == RemoveAll(folders - {ids[0]}, ids[1..]).notices;
    if sv'.fault {
      ReactAllKeepsLeak(sv', identify, notices[1..]);
    } else {
      assert id in ids[1..];
      RemoveAllLeaks(sv', folders - {ids[0]}, identify, ids[1..], id);
    }
  }

  // An import is heard rightly exactly if every configured folder has a group.
  lemma ImportPartlyIff(sv: Service, folders: Store, defaults: Object, identify: Identify, ids: seq<FolderId>,
                        docs: seq<Object>)
    requires Partly(sv, folders, defaults) && "secret" !in defaults && Keys(ids, folders)
    ensures var e := Import(folders, defaults, identify, ids, docs);
            var sv' := ReactAll(sv, identify, e.notices);
            if sv.groups.Keys == folders.Keys then Partly(sv', e.folders, defaults) else Leaks(sv')
  {
    hide Partly, Serves, Leaks, ReactAll, RemoveAll, AddAll;
    ServesIfAll(sv, folders, defaults);
    var e := Import(folders, defaults, identify, ids, docs);
    if sv.groups.Keys == folders.Keys {
      ImportServes(sv, folders, defaults, identify, ids, docs);
      ServesIfAll(ReactAll(sv, identify, e.notices), e.folders, defaults);
    } else {
      var id :| id in folders && id !in sv.groups by { MissingGroup(sv, folders, defaults); }
      var cleared := RemoveAll(folders, ids);
      var rest := AddAll(cleared.folders, defaults, identify, docs).notices;
      RemoveAllLeaks(sv, folders, identify, ids, id);
      ReactAllKeepsLeak(ReactAll(sv, identify, cleared.notices), identify, rest);
      ReactAppend(sv, identify, cleared.notices, rest);
    }
  }

  lemma MissingGroup(sv: Service, folders: Store, defaults: Object)
    requires Partly(sv, folders, defaults) && sv.groups.Keys != folders.Keys
    ensures exists id :: id in folders && id !in sv.groups
  {
    assert !(folders.Keys <= sv.groups.Keys);
  }

  // ---------------------------------------------------------------- starting the service

  // What the deferred start does: every configured folder is initialised.
  function StartNotices(folders: Store, defaults: Object, ids: seq<FolderId>): (r: seq<Notice>)
    requires forall id | id in ids :: id in folders
    ensures |r| == |ids| && forall i | 0 <= i < |r| :: r[i] == Added(Merged(folders[ids[i]], defaults))
  {
    seq(|ids|, i requires 0 <= i < |ids| => Added(Merged(folders[ids[i]], defaults)))
  }

  // The groups after those of `made` were initialised.
  ghost function Initialised(groups: map<FolderId, Object>, folders: Store, defaults: Object, made: set<FolderId>)
    : map<FolderId, Object>
    requires made <= folders.Keys
  {
    map id | id in groups.Keys + made :: if id in made then Merged(folders[id], defaults) else groups[id]
  }

  lemma InitialisedFirst(groups: map<FolderId, Object>, folders: Store, defaults: Object, id: FolderId,
                         made: set<FolderId>)
    requires id in folders && made <= folders.Keys
    ensures Initialised(groups[id := Merged(folders[id], defaults)], folders, defaults, made) ==
            Initialised(groups, folders, defaults, {id} + made)
  {
    hide Merged;
  }

  lemma InitialisedNone(groups: map<FolderId, Object>, folders: Store, defaults: Object)
    ensures Initialised(groups, folders, defaults, {}) == groups
  {
  }

  lemma {:induction false} StartInits(sv: Service, folders: Store, defaults: Object, identify: Identify,
                                      ids: seq<FolderId>)
    requires Keyed(folders, identify) && "secret" !in defaults && forall id | id in ids :: id in folders
    ensures Members(ids) <= folders.Keys
    ensures ReactAll(sv, identify, StartNotices(folders, defaults, ids)) ==
            sv.(groups := Initialised(sv.groups, folders, defaults, Members(ids)), live := sv.live + |ids|)
    decreases |ids|
  {
    if ids == [] {
      InitialisedNone(sv.groups, folders, defaults);
    } else {
      var sv' := StartFirst(sv, folders, defaults, identify, ids);
      MembersFirst(ids);
      assert ids[0] in ids;
      hide ReactAll, StartNotices, Keyed, Initialised, Merged, Members;
      StartInits(sv', folders, defaults, identify, ids[1..]);
      InitialisedFirst(sv.groups, folders, defaults, ids[0], Members(ids[1..]));
    }
  }

  lemma StartFirst(sv: Service, folders: Store, defaults: Object, identify: Identify, ids: seq<FolderId>)
    returns (sv': Service)
    requires Keyed(folders, identify) && "secret" !in defaults && ids != [] && forall id | id in ids :: id in folders
    ensures sv' == sv.(groups := sv.groups[ids[0] := Merged(folders[ids[0]], defaults)], live := sv.live + 1)
    ensures forall id | id in ids[1..] :: id in folders
    ensures ReactAll(sv, identify, StartNotices(folders, defaults, ids)) ==
              ReactAll(sv', identify, StartNotices(folders, defaults, ids[1..]))
  {
    hide Merged;
    assert ids[0] in ids && forall j | j in ids[1..] :: j in ids;
    MergedKeepsId(identify, folders[ids[0]], defaults);
    sv' := Init(sv, identify, Merged(folders[ids[0]], defaults));
    assert StartNotices(folders, defaults, ids)[1..] == StartNotices(folders, defaults, ids[1..]);
  }

  lemma {:induction false} KeysCount(ids: seq<FolderId>, folders: Store)
    requires Keys(ids, folders)
    ensures |ids| == |folders|
    decreases |ids|
  {
    if ids == [] {
      assert folders.Keys == {};
    } else {
      var id, rest := ids[0], ids[1..];
      assert forall i | 0 <= i < |rest| :: rest[i] == ids[i + 1];
      assert forall j :: j in ids <==> j == id || j in rest;
      assert folders.Keys == (folders - {id}).Keys + {id};
      KeysCount(rest, folders - {id});
    }
  }

  lemma KeysAre(ids: seq<FolderId>, folders: Store)
    requires Keys(ids, folders)
    ensures (forall id | id in ids :: id in folders) && Members(ids) == folders.Keys && |ids| == |folders|
  {
    KeysCount(ids, folders);
    hide Once;
  }

  // Every configured folder has a group after the start, made from its merged parameters.
  lemma StartMakes(sv: Service, folders: Store, defaults: Object, identify: Identify, ids: seq<FolderId>)
    requires Keyed(folders, identify) && "secret" !in defaults && Keys(ids, folders)
    ensures var sv' := ReactAll(sv, identify, StartNotices(folders, defaults, ids));
            && sv'.groups == Initialised(sv.groups, folders, defaults, folders.Keys)
            && sv'.live == sv.live + |folders| && sv'.fault == sv.fault
            && forall id | id in folders :: id in sv'.groups && sv'.groups[id] == Merged(folders[id], defaults)
  {
    hide ReactAll, StartNotices, Keyed, Merged, Keys, Members;
    KeysAre(ids, folders);
    StartInits(sv, folders, defaults, identify, ids);
  }

  // The deferred start leaves exactly one group per folder if and only if no folder was added, and so
  // given a group, between `run` and the start; a group that is there is overwritten and never deleted.
  lemma StartServesIff(sv: Service, folders: Store, defaults: Object, identify: Identify, ids: seq<FolderId>)
    requires Keyed(folders, identify) && "secret" !in defaults && Keys(ids, folders)
    requires !sv.fault && sv.live == |sv.groups| && sv.groups.Keys <= folders.Keys
    ensures var sv' := ReactAll(sv, identify, StartNotices(folders, defaults, ids));
            && sv'.groups == Wanted(folders, defaults)
            && sv'.live == |sv'.groups| + |sv.groups|
            && (Serves(sv', folders, defaults) <==> sv.groups == map[])
  {
    hide Merged, ReactAll, StartNotices, Keyed, Wanted, Initialised, Keys;
    StartMakes(sv, folders, defaults, identify, ids);
    InitialisedAll(sv.groups, folders, defaults);
    assert |sv.groups| == 0 <==> sv.groups == map[];
  }

  lemma InitialisedAll(groups: map<FolderId, Object>, folders: Store, defaults: Object)
    requires groups.Keys <= folders.Keys
    ensures Initialised(groups, folders, defaults, folders.Keys) == Wanted(folders, defaults)
    ensures |Wanted(folders, defaults)| == |folders|
  {
    hide Merged;
    SameSize(Wanted(folders, defaults), folders);
  }

  lemma SameSize(a: map<FolderId, Object>, b: map<FolderId, Object>)
    requires a.Keys == b.Keys
    ensures |a| == |b|
  {
    assert |a| == |a.Keys| && |b| == |b.Keys|;
  }

  // ---------------------------------------------------------------- all runs

  datatype Status = Off | Pending | Running

  datatype Daemon = Daemon(folders: Store, sv: Service, status: Status)

  // `Run` connects the service to the signals, `Start` is its deferred start.
  datatype Act =
    | DoAdd(f: Object)
    | DoRemove(id: FolderId)
    | DoImport(ids: seq<FolderId>, docs: seq<Object>)
    | Run
    | Start(ids: seq<FolderId>)

  predicate CanAct(d: Daemon, a: Act) {
    match a
    case DoImport(ids, _) => Keys(ids, d.folders)
    case Start(ids) => d.status.Pending? && Keys(ids, d.folders)
    case Run => d.status.Off?
    case _ => true
  }

  function Hear(d: Daemon, identify: Identify, e: Effect): Daemon {
    d.(folders := e.folders, sv := if d.status.Off? then d.sv else ReactAll(d.sv, identify, e.notices))
  }

  function Next(d: Daemon, defaults: Object, identify: Identify, a: Act): Daemon
    requires CanAct(d, a)
  {
    match a
    case DoAdd(f) => Hear(d, identify, Add(d.folders, defaults, identify, f))
    case DoRemove(id) => Hear(d, identify, Remove(d.folders, id))
    case DoImport(ids, docs) => Hear(d, identify, Import(d.folders, defaults, identify, ids, docs))
    case Run => d.(status := Pending)
    case Start(ids) => d.(status := Running, sv := ReactAll(d.sv, identify, StartNotices(d.folders, defaults, ids)))
  }

  // What the acts do to the store.
  lemma StoreNext(d: Daemon, defaults: Object, identify: Identify, a: Act) returns (n: nat)
    requires CanAct(d, a)
    ensures a.DoImport? ==> n <= |a.docs| && (n == |a.docs| <==> Importable(identify, a.docs))
    ensures var folders, now := d.folders, Next(d, defaults, identify, a).folders;
            match a
            case DoAdd(f) =>
              var id := identify(Lookup(f, "secret"));
              now == if id.Some? && id.value !in folders then folders[id.value := f] else folders
            case DoRemove(id) => now == folders - {id}
            case DoImport(_, docs) =>
              && (forall id :: id in now <==> Has(identify, docs[..n], id))
              && (forall i | 0 <= i < n && identify(Lookup(docs[i], "secret")).Some? ::
                    var id := identify(Lookup(docs[i], "secret")).value; id in now && now[id] == docs[i])
            case _ => now == folders
  {
    hide ReactAll, Merged;
    n := 0;
    if a.DoImport? {
      n := ImportLeaves(d.folders, defaults, identify, a.ids, a.docs);
      ImportIff(d.folders, defaults, identify, a.ids, a.docs);
      hide Import, Importable, Has, Keys;
    }
  }

  // What may be done without losing a group: while the start is pending, a removal only of a folder that
  // has a group already, an import only if all folders have, and the start itself only if none has; later,
  // a removal only of a folder that is configured.
  predicate Safe(d: Daemon, a: Act) {
    match d.status
    case Off => true
    case Pending =>
      (match a
       case DoRemove(id) => id in d.sv.groups
       case DoImport(_, _) => d.sv.groups.Keys == d.folders.Keys
       case Start(_) => d.sv.groups == map[]
       case _ => true)
    case Running => a.DoRemove? ==> a.id in d.folders
  }

  ghost predicate DaemonInv(d: Daemon, defaults: Object, identify: Identify) {
    match d.status
    case Off => d.sv == Empty
    case Pending => Partly(d.sv, d.folders, defaults)
    case Running => Serves(d.sv, d.folders, defaults)
  }

  // Every change of the store keeps each key the hash of its entry's secret.
  lemma StoreStaysKeyed(d: Daemon, defaults: Object, identify: Identify, a: Act)
    requires CanAct(d, a) && Keyed(d.folders, identify)
    ensures Keyed(Next(d, defaults, identify, a).folders, identify)
  {
    if a.DoImport? {
      ImportIff(d.folders, defaults, identify, a.ids, a.docs);
    }
  }

  // A safe act keeps the invariant, any other one leaks.
  lemma PendingActIff(d: Daemon, defaults: Object, identify: Identify, a: Act)
    requires CanAct(d, a) && d.status.Pending? && DaemonInv(d, defaults, identify)
    requires Keyed(d.folders, identify) && "secret" !in defaults
    ensures var d' := Next(d, defaults, identify, a);
            if Safe(d, a) then DaemonInv(d', defaults, identify) else Leaks(d'.sv)
  {
    match a
    case DoAdd(f) => AddPartly(d.sv, d.folders, defaults, identify, f);
    case DoRemove(id) => RemovePartlyIff(d.sv, d.folders, defaults, identify, id);
    case DoImport(ids, docs) => ImportPartlyIff(d.sv, d.folders, defaults, identify, ids, docs);
    case Start(ids) => StartServesIff(d.sv, d.folders, defaults, identify, ids);
  }

  lemma ActIff(d: Daemon, defaults: Object, identify: Identify, a: Act)
    requires CanAct(d, a) && DaemonInv(d, defaults, identify)
    requires Keyed(d.folders, identify) && "secret" !in defaults
    ensures var d' := Next(d, defaults, identify, a);
            if Safe(d, a) then DaemonInv(d', defaults, identify) else Leaks(d'.sv)
  {
    hide Keyed, Serves, Partly, ReactAll, Wanted, RemoveAll, AddAll;
    match d.status
    case Off => assert Partly(Empty, d.folders, defaults) by { EmptyIsPartly(d.folders, defaults); }
    case Pending => PendingActIff(d, defaults, identify, a);
    case Running =>
      match a
      case DoAdd(f) => AddServes(d.sv, d.folders, defaults, identify, f);
      case DoRemove(id) => RemoveServesIff(d.sv, d.folders, defaults, identify, id);
      case DoImport(ids, docs) => ImportServes(d.sv, d.folders, defaults, identify, ids, docs);
  }

  lemma EmptyIsPartly(folders: Store, defaults: Object)
    ensures Partly(Empty, folders, defaults)
  {
  }

  lemma ActKeepsLeak(d: Daemon, defaults: Object, identify: Identify, a: Act)
    requires CanAct(d, a) && Leaks(d.sv)
    ensures Leaks(Next(d, defaults, identify, a).sv)
  {
    hide Leaks, ReactAll, RemoveAll, AddAll;
    match a
    case DoAdd(f) => ReactAllKeepsLeak(d.sv, identify, Add(d.folders, defaults, identify, f).notices);
    case DoRemove(id) => ReactAllKeepsLeak(d.sv, identify, Remove(d.folders, id).notices);
    case DoImport(ids, docs) =>
      ReactAllKeepsLeak(d.sv, identify, Import(d.folders, defaults, identify, ids, docs).notices);
    case Run =>
    case Start(ids) => ReactAllKeepsLeak(d.sv, identify, StartNotices(d.folders, defaults, ids));
  }

  ghost predicate IsRun(run: seq<Daemon>, acts: seq<Act>, defaults: Object, identify: Identify) {
    && |run| == |acts| + 1
    && run[0] == Daemon(map[], Empty, Off)
    && forall i | 0 <= i < |acts| :: CanAct(run[i], acts[i]) && run[i + 1] == Next(run[i], defaults, identify, acts[i])
  }

  lemma {:induction false} RunStaysKeyed(run: seq<Daemon>, acts: seq<Act>, defaults: Object, identify: Identify, i: nat)
    requires IsRun(run, acts, defaults, identify) && i < |run|
    ensures Keyed(run[i].folders, identify)
    decreases i
  {
    if i > 0 {
      RunStaysKeyed(run, acts, defaults, identify, i - 1);
      StoreStaysKeyed(run[i - 1], defaults, identify, acts[i - 1]);
    }
  }

  // From any configuration a run reaches, exporting and importing into any other one rebuilds the same
  // folders, and no duplicate is reported.
  lemma EveryExportImports(run: seq<Daemon>, acts: seq<Act>, defaults: Object, identify: Identify, i: nat,
                           ids: seq<FolderId>, other: Store, otherIds: seq<FolderId>)
    requires IsRun(run, acts, defaults, identify) && i < |run|
    requires Keys(ids, run[i].folders) && Keys(otherIds, other)
    ensures var e := Import(other, defaults, identify, otherIds, Export(run[i].folders, ids));
            e.outcome == Done && e.folders == run[i].folders
  {
    RunStaysKeyed(run, acts, defaults, identify, i);
    RoundTrip(run[i].folders, identify, ids, other, defaults, otherIds);
  }

  // Every act so far was safe.
  ghost predicate SafeSoFar(run: seq<Daemon>, acts: seq<Act>, i: nat)
    requires |run| == |acts| + 1 && i < |run|
  {
    forall j | 0 <= j < i :: Safe(run[j], acts[j])
  }

  lemma {:induction false} RunIff(run: seq<Daemon>, acts: seq<Act>, defaults: Object, identify: Identify, i: nat)
    requires IsRun(run, acts, defaults, identify) && i < |run| && "secret" !in defaults
    ensures if SafeSoFar(run, acts, i) then DaemonInv(run[i], defaults, identify) else Leaks(run[i].sv)
    decreases i
  {
    hide DaemonInv, Leaks, Safe, Keyed;
    if i == 0 {
      assert DaemonInv(run[0], defaults, identify) by { FirstState(defaults, identify); }
    } else {
      var d, a := run[i - 1], acts[i - 1];
      RunIff(run, acts, defaults, identify, i - 1);
      assert SafeSoFar(run, acts, i) <==> SafeSoFar(run, acts, i - 1) && Safe(d, a);
      if SafeSoFar(run, acts, i - 1) {
        RunStaysKeyed(run, acts, defaults, identify, i - 1);
        ActIff(d, defaults, identify, a);
      } else {
        ActKeepsLeak(d, defaults, identify, a);
      }
    }
  }

  lemma FirstState(defaults: Object, identify: Identify)
    ensures DaemonInv(Daemon(map[], Empty, Off), defaults, identify)
  {
  }

  // In every run, once the service is started: there is exactly one live group per configured folder,
  // made from that folder's merged parameters, if and only if every act so far was safe. Additions,
  // removals and imports are acts, failed ones included.
  lemma OneGroupPerFolder(run: seq<Daemon>, acts: seq<Act>, defaults: Object, identify: Identify, i: nat)
    requires IsRun(run, acts, defaults, identify) && i < |run| && "secret" !in defaults && run[i].status.Running?
    ensures Serves(run[i].sv, run[i].folders, defaults) <==> SafeSoFar(run, acts, i)
    ensures Serves(run[i].sv, run[i].folders, defaults) ==> run[i].sv.groups.Keys == run[i].folders.Keys
  {
    RunIff(run, acts, defaults, identify, i);
    hide Serves, Partly, Leaks, Safe;
    ServesIfAll(run[i].sv, run[i].folders, defaults);
  }

  // A folder that was configured before `run` and is removed before the deferred start makes the service
  // delete a group it does not have yet.
  lemma EarlyRemovalRun(defaults: Object, identify: Identify, f: Object, id: FolderId) returns (run: seq<Daemon>)
    requires IdOf(identify, f) == Some(id)
    ensures IsRun(run, [DoAdd(f), Run, DoRemove(id)], defaults, identify)
    ensures id in run[2].folders && !run[2].sv.fault && run[3].sv.fault
  {
    var acts := [DoAdd(f), Run, DoRemove(id)];
    var d0 := Daemon(map[], Empty, Off);
    var d1 := Next(d0, defaults, identify, acts[0]);
    var d2 := Next(d1, defaults, identify, acts[1]);
    run := [d0, d1, d2, Next(d2, defaults, identify, acts[2])];
    ReactOne(d2.sv, identify, Removed(id));
  }

  // A folder that is added between `run` and the deferred start gets two groups, of which one is lost.
  lemma EarlyAdditionRun(defaults: Object, identify: Identify, f: Object, id: FolderId) returns (run: seq<Daemon>)
    requires IdOf(identify, f) == Some(id) && "secret" !in defaults
    ensures IsRun(run, [Run, DoAdd(f), Start([id])], defaults, identify)
    ensures run[3].sv.live == 2 && run[3].sv.groups.Keys == run[3].folders.Keys == {id}
  {
    var acts := [Run, DoAdd(f), Start([id])];
    var d0 := Daemon(map[], Empty, Off);
    var d1 := Next(d0, defaults, identify, acts[0]);
    MergedKeepsId(identify, f, defaults);
    ReactOne(d1.sv, identify, Added(Merged(f, defaults)));
    var d2 := Next(d1, defaults, identify, acts[1]);
    assert d2.folders == map[id := f] && d2.sv == Service(map[id := Merged(f, defaults)], 1, false);
    assert StartNotices(d2.folders, defaults, [id]) == [Added(Merged(f, defaults))];
    ReactOne(d2.sv, identify, Added(Merged(f, defaults)));
    run := [d0, d1, d2, Next(d2, defaults, identify, acts[2])];
  }
}
