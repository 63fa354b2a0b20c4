/**
  The class `FolderService`: one group per folder, made and deleted as the configuration signals.
 */
module FolderServices {
  import opened Globals
  import Folders
  import opened Configs
  import opened KeyLists

  class FolderService {
    const identify: Folders.Identify
    var groups: map<Folders.FolderId, Object>
    var live: nat
    var fault: bool

    constructor (identify: Folders.Identify)
      ensures View() == Folders.Empty && this.identify == identify
    {
      this.identify := identify;
      groups, live, fault := map[], 0, false;
    }

    function View(): Folders.Service
      reads this
    {
      Folders.Service(groups, live, fault)
    }

    method InitFolder(params: Object)
      modifies this
      ensures View() == Folders.Init(old(View()), identify, params)
      ensures var id := identify(Lookup(params, "secret"));
              if id.None? then fault && groups == old(groups) && live == old(live)
              else groups == old(groups)[id.value := params] && live == old(live) + 1 && fault == old(fault)
    {
      var id := Folders.IdOf(identify, params);
      if id.None? {
        fault := true;
        return;
      }
      live := live + 1;
      groups := groups[id.value := params];
    }

    method DeinitFolder(id: Folders.FolderId)
      modifies this
      ensures View() == Folders.Deinit(old(View()), id)
      ensures if id in old(groups) && old(live) > 0
              then groups == old(groups) - {id} && live == old(live) - 1 && fault == old(fault)
              else groups == old(groups) && live == old(live) && fault
    {
      if id !in groups || live == 0 {
        fault := true;
        return;
      }
      groups := groups - {id};
      live := live - 1;
    }

    // What the deferred start does.
    method Start(config: Config) returns (ghost ids: seq<Folders.FolderId>)
      requires config.identify == identify
      modifies this
      ensures Folders.Keys(ids, config.foldersCustom)
      ensures var notices := Folders.StartNotices(config.foldersCustom, config.foldersDefaults, ids);
              View() == Folders.ReactAll(old(View()), identify, notices)
      ensures Folders.Keyed(config.foldersCustom, identify) && "secret" !in config.foldersDefaults ==>
                && live == old(live) + |config.foldersCustom| && fault == old(fault)
                && forall id | id in config.foldersCustom ::
                     id in groups && groups[id] == Merged(config.foldersCustom[id], config.foldersDefaults)
    {
      hide Folders.Keyed;
      var list := ListOf(config.foldersCustom.Keys);
      ids := list;
      ghost var notices := Folders.StartNotices(config.foldersCustom, config.foldersDefaults, ids);
      for i := 0 to |list|
        invariant Folders.ReactAll(View(), identify, notices[i..]) == Folders.ReactAll(old(View()), identify, notices)
      {
        assert list[i] in list && notices[i..][1..] == notices[i + 1..];
        var params := config.GetFolder(list[i]);
        InitFolder(params);
      }
      if Folders.Keyed(config.foldersCustom, identify) && "secret" !in config.foldersDefaults {
        Folders.StartMakes(old(View()), config.foldersCustom, config.foldersDefaults, identify, ids);
      }
    }

    // Every group is deleted, and none is left over if there was one per folder.
    method Stop()
      modifies this
      ensures !old(fault) && old(live) >= |old(groups)| ==>
                groups == map[] && !fault && live == old(live) - |old(groups)|
    {
      var list := ListOf(groups.Keys);
      ghost var good := !fault && live >= |groups|;
      for i := 0 to |list|
        invariant good ==> !fault && live - |groups| == old(live) - |old(groups)|
        invariant good ==> groups.Keys == Members(list[i..])
      {
        TakeFirst(list, i);
        if good {
          Folders.OneLess(groups, list[i]);
        }
        DeinitFolder(list[i]);
      }
    }

    static lemma TakeFirst(list: seq<Folders.FolderId>, i: nat)
      requires Once(list) && i < |list|
      ensures list[i] in Members(list[i..]) && Members(list[i + 1..]) == Members(list[i..]) - {list[i]}
    {
    }
  }
}
