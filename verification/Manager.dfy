/** The adapter manager's calls, run to completion: the state is changed under the lock, then the request
    that comes out of it is served (components/taxonomy/src/manager.rs). What the adapters say to a request
    is a parameter. */
module Manager {
  import opened Common
  import opened Services
  import opened Selectors
  import opened Requests
  import opened Watching
  import opened Registry
  import opened Topology
  import opened Values
  import opened Backend

  class AdapterManager {
    const backEnd: State

    constructor ()
      ensures fresh(backEnd) && Ready() && backEnd.Watches() == Empty()
      ensures backEnd.Indexes() == Index(map[], map[], map[], map[], map[], map[])
    {
      backEnd := new State();
      new;
      assert Settled(Empty()) && WellKeyed(Empty());
    }

    /** Between two calls: the indexes agree, keys are below the counter, and every live watcher in a
        getter's list has its guard for that getter, unless an adapter has refused it. */
    ghost predicate Ready()
      reads backEnd, backEnd.adapterById.Values, backEnd.serviceById.Values
      reads backEnd.getterById.Values, (set id | id in backEnd.getterById :: backEnd.getterById[id].serviceTags)
      reads backEnd.watchers.Values
    {
      backEnd.Valid() && Steady(backEnd.Watches())
    }

    lemma ReadyMeans()
      ensures Ready() <==> backEnd.Valid() && Steady(backEnd.Watches())
      ensures Ready() ==> WellKeyed(backEnd.Watches()) && Settled(backEnd.Watches())
    {
    }

    // -------------------------------------------------------------- adapters, services, setters

    method AddAdapter(id: Id) returns (r: Result<(), Error>)
      requires Ready()
      modifies backEnd`adapterById
      ensures Ready() && backEnd.Watches() == old(backEnd.Watches())
      ensures r == if id in old(backEnd.adapterById) then Err(DuplicateAdapter(id)) else Ok(())
      ensures var x := old(backEnd.Indexes());
        backEnd.Indexes() == if r.Ok? then WithAdapter(x, id) else x
    {
      hide *;
      ReadyMeans();
      r := backEnd.AddAdapter(id);
      ReadyMeans();
    }

    /** Remove an adapter with its services; no watcher is told, and no guard is dropped. */
    method RemoveAdapter(id: Id) returns (r: Result<(), Error>)
      requires Ready()
      modifies backEnd`adapterById, backEnd`serviceById, backEnd`getterById, backEnd`setterById
      ensures Ready() && r == if id in old(backEnd.adapterById) then Ok(()) else Err(NoSuchAdapter(id))
      ensures r.Err? ==> backEnd.Indexes() == old(backEnd.Indexes()) && backEnd.Watches() == old(backEnd.Watches())
      ensures r.Ok? ==> var x := old(backEnd.Indexes());
        && id in x.adapters && backEnd.Indexes() == WithoutAdapter(x, id)
        && backEnd.Watches() == ServiceRemoved(old(backEnd.Watches()), GettersUnder(x, x.adapters[id].Keys))
    {
      hide *;
      ghost var t := backEnd.Watches();
      ReadyMeans();
      r := backEnd.RemoveAdapter(id);
      if r.Ok? {
        ServiceRemovedSteady(t, GettersUnder(old(backEnd.Indexes()), old(backEnd.Indexes()).adapters[id].Keys));
      }
      ReadyMeans();
    }

    /** Add a service without channels. */
    method AddService(service: Service, stored: Stored) returns (r: Result<(), Error>)
      requires Ready()
      modifies backEnd`serviceById, backEnd.adapterById.Values
      ensures Ready() && backEnd.Watches() == old(backEnd.Watches())
      ensures r.Ok? <==> service.getters == {} && service.setters == {} && service.adapter in backEnd.adapterById
                         && !stored.Unreadable? && service.id !in old(backEnd.serviceById)
      ensures r.Err? ==> backEnd.Indexes() == old(backEnd.Indexes())
      ensures r.Ok? ==>
        && service.id in backEnd.serviceById && fresh(backEnd.serviceById[service.id])
        && var s := backEnd.serviceById[service.id];
           && s.tags.tags == (if stored.Tags? then service.tags + stored.tags else service.tags)
           && backEnd.Indexes() == WithService(old(backEnd.Indexes()), s)
    {
      hide *;
      ReadyMeans();
      r := backEnd.AddService(service, stored);
      ReadyMeans();
    }

    /** Remove a service; no watcher is told, and no guard is dropped. */
    method RemoveService(id: Id) returns (r: Result<(), Error>)
      requires Ready()
      modifies backEnd`serviceById, backEnd`getterById, backEnd`setterById, backEnd.adapterById.Values
      ensures Ready() && r == if id in old(backEnd.serviceById) then Ok(()) else Err(NoSuchService(id))
      ensures r.Err? ==> backEnd.Indexes() == old(backEnd.Indexes()) && backEnd.Watches() == old(backEnd.Watches())
      ensures r.Ok? ==> backEnd.Watches() == ServiceRemoved(old(backEnd.Watches()), old(backEnd.serviceById[id].getters.Keys))
    {
      hide *;
      ghost var t := backEnd.Watches();
      ReadyMeans();
      r := backEnd.RemoveService(id);
      if r.Ok? {
        ServiceRemovedSteady(t, old(backEnd.serviceById[id].getters.Keys));
      }
      ReadyMeans();
    }

    method AddSetter(setter: Channel, stored: Stored) returns (r: Result<(), Error>)
      requires Ready()
      modifies backEnd`setterById, backEnd.serviceById.Values
      ensures Ready() && backEnd.Watches() == old(backEnd.Watches())
      ensures r.Ok? <==> setter.service in backEnd.serviceById && backEnd.serviceById[setter.service].adapter == setter.adapter
                         && setter.id !in old(backEnd.setterById)
      ensures r.Err? ==> backEnd.Indexes() == old(backEnd.Indexes())
      ensures r.Ok? ==>
        && setter.id in backEnd.setterById && fresh(backEnd.setterById[setter.id])
        && setter.service in old(backEnd.Indexes()).serviceSetters
        && backEnd.Indexes() == WithSetter(old(backEnd.Indexes()), backEnd.setterById[setter.id])
    {
      hide *;
      ReadyMeans();
      r := backEnd.AddSetter(setter, stored);
      ReadyMeans();
    }

    method RemoveSetter(id: Id) returns (r: Result<(), Error>)
      requires Ready()
      modifies backEnd`setterById, backEnd.serviceById.Values
      ensures Ready() && backEnd.Watches() == old(backEnd.Watches())
      ensures r == if id in old(backEnd.setterById) then Ok(()) else Err(NoSuchSetter(id))
      ensures r.Ok? ==> var x := old(backEnd.Indexes());
        id in x.setters && x.setters[id].service in x.serviceSetters && backEnd.Indexes() == WithoutSetter(x, id)
    {
      hide *;
      ReadyMeans();
      r := backEnd.RemoveSetter(id);
      ReadyMeans();
    }

    /** Add tags to the selected services or remove them; no watcher is looked at. */
    method RetagServices(sels: seq<ServiceSelector>, tags: set<Id>, add: bool) returns (result: nat)
      requires Ready()
      modifies set s | s in backEnd.serviceById :: backEnd.serviceById[s].tags
      ensures Ready()
      ensures var chosen := ChosenServices(old(backEnd.ServiceViews()), sels);
        var op := Op.RetagServices(chosen, tags, add);
        && result == |chosen|
        && Possible(old(backEnd.Watches()), op) && backEnd.Watches() == Done(old(backEnd.Watches()), op)
    {
      hide *;
      ghost var t := backEnd.Watches();
      ghost var chosen := ChosenServices(backEnd.ServiceViews(), sels);
      ReadyMeans();
      result := backEnd.RetagServices(sels, tags, add);
      RetagIsDone(t, chosen, tags, add);
      DoneSteady(t, Op.RetagServices(chosen, tags, add));
      ReadyMeans();
    }

    lemma RetagIsDone(t: Table, chosen: set<Id>, tags: set<Id>, add: bool)
      ensures Possible(t, Op.RetagServices(chosen, tags, add))
      ensures Done(t, Op.RetagServices(chosen, tags, add)) == ServicesRetagged(t, chosen, tags, add)
    {
    }

    // -------------------------------------------------------------- watches

    /** Watch every getter that matches, now or later. This panics exactly if several targets match one
        registered getter. */
    method WatchValues(targets: seq<Target>, refused: set<Entry>)
      returns (panicked: bool, key: Key, ghost serving: Serving)
      requires Ready()
      modifies backEnd`watchCounter, backEnd`watchers, backEnd.getterById.Values, backEnd.watchers.Values
      ensures key == old(backEnd.watchCounter) && (panicked <==> Overlap(old(backEnd.Watches()), targets))
      ensures !panicked ==> Ready() && serving.refused == refused
      ensures !panicked ==> var op := Op.Watch(targets, serving);
        Possible(old(backEnd.Watches()), op) && backEnd.Watches() == Done(old(backEnd.Watches()), op)
    {
      hide *;
      ghost var t := backEnd.Watches();
      serving := Serving([], {});
      ReadyMeans();
      backEnd.WatchKeys();
      var request;
      panicked, request, key := backEnd.PrepareChannelWatch(targets);
      if !panicked {
        serving := backEnd.RegisterWatches(request, refused);
        WatchIsDone(t, targets, serving);
        DoneSteady(t, Op.Watch(targets, serving));
        ReadyMeans();
      }
    }

    lemma WatchIsDone(t: Table, targets: seq<Target>, serving: Serving)
      requires !Overlap(t, targets) && Serves(serving, WatchAsks(t, targets))
      ensures Possible(t, Op.Watch(targets, serving))
      ensures Done(t, Op.Watch(targets, serving)) == Served(Prepared(t, targets), serving)
    {
    }

    /** The guard of a watch is dropped. */
    method DropGuard(key: Key)
      requires Ready() && key in backEnd.watchers
      modifies backEnd.watchers.Values
      ensures Ready()
      ensures var op := Op.Drop(key);
        Possible(old(backEnd.Watches()), op) && backEnd.Watches() == Done(old(backEnd.Watches()), op)
    {
      hide *;
      ghost var t := backEnd.Watches();
      ReadyMeans();
      backEnd.WatchKeys();
      backEnd.DropGuard(key);
      DropIsDone(t, key);
      DoneSteady(t, Op.Drop(key));
      ReadyMeans();
    }

    lemma DropIsDone(t: Table, key: Key)
      requires key in t.watchers
      ensures Possible(t, Op.Drop(key)) && Done(t, Op.Drop(key)) == Dropped(t, key)
    {
    }

    /** The worker serves the release of a dropped watch. */
    method Release(key: Key)
      requires Ready() && (key in backEnd.watchers ==> backEnd.watchers[key].isDropped)
      modifies backEnd`watchers, backEnd.getterById.Values
      ensures Ready()
      ensures var op := Op.Stop(key);
        Possible(old(backEnd.Watches()), op) && backEnd.Watches() == Done(old(backEnd.Watches()), op)
    {
      hide *;
      ghost var t := backEnd.Watches();
      ReadyMeans();
      StopIsDone(t, key);
      backEnd.StopWatch(key);
      DoneSteady(t, Op.Stop(key));
      ReadyMeans();
    }

    lemma StopIsDone(t: Table, key: Key)
      requires t == backEnd.Watches() && (key in backEnd.watchers ==> backEnd.watchers[key].isDropped)
      ensures Possible(t, Op.Stop(key)) && Done(t, Op.Stop(key)) == Stopped(t, key)
    {
    }

    // -------------------------------------------------------------- getters and their tags

    /** Add a getter; every live watcher that matches it is told and registered. This panics exactly if the
        getter is new and clashes. */
    method AddGetter(getter: Channel, stored: Stored, refused: set<Entry>)
      returns (panicked: bool, r: Result<(), Error>, ghost serving: Serving)
      requires Ready()
      modifies backEnd`getterById, backEnd.serviceById.Values, backEnd.watchers.Values
      ensures r.Ok? <==> getter.service in backEnd.serviceById && backEnd.serviceById[getter.service].adapter == getter.adapter
                         && getter.id !in old(backEnd.getterById)
      ensures r.Err? ==> !panicked && backEnd.Indexes() == old(backEnd.Indexes()) && backEnd.Watches() == old(backEnd.Watches())
      ensures !panicked ==> Ready()
      ensures r.Ok? ==>
        && getter.service in old(backEnd.serviceById)
        && var view := View(getter.(tags := if stored.Tags? then getter.tags + stored.tags else getter.tags),
                            old(backEnd.serviceById[getter.service].tags.tags));
           && (panicked <==> Clashes(Topology.WithGetter(old(backEnd.Watches()), view), getter.id))
           && (!panicked ==>
                 && serving.refused == refused
                 && var op := Op.AddGetter(view, serving);
                    Possible(old(backEnd.Watches()), op) && backEnd.Watches() == Done(old(backEnd.Watches()), op))
    {
      hide *;
      ghost var (t, x) := (backEnd.Watches(), backEnd.Indexes());
      serving := Serving([], {});
      ReadyMeans();
      backEnd.WatchKeys();
      var added;
      panicked, added := backEnd.AddGetter(getter, stored);
      if added.Err? {
        ReadyMeans();
        r := Err(added.error);
      } else {
        if !panicked {
          ghost var full := getter.(tags := if stored.Tags? then getter.tags + stored.tags else getter.tags);
          ghost var view := View(full, backEnd.serviceById[getter.service].tags.tags);
          AddGetterAsks(full, x, t, added.value);
          serving := backEnd.RegisterWatches(added.value, refused);
          AddGetterIsDone(t, view, serving);
          DoneSteady(t, Op.AddGetter(view, serving));
          ReadyMeans();
        }
        r := Ok(());
      }
    }

    lemma AddGetterAsks(getter: Channel, x: Index, t: Table, request: set<Entry>)
      requires backEnd.Added(getter, x, t, request) && getter.id !in t.getters
      ensures getter.service in backEnd.serviceById
      ensures var view := View(getter, backEnd.serviceById[getter.service].tags.tags);
        && view.channel.id == getter.id && getter.id in Topology.WithGetter(t, view).getters
        && backEnd.Watches() == Connected(Topology.WithGetter(t, view), getter.id)
        && request == Asked(Topology.WithGetter(t, view), getter.id)
    {
    }

    lemma AddGetterIsDone(t: Table, view: View, serving: Serving)
      requires view.channel.id !in t.getters && view.channel.id in Topology.WithGetter(t, view).getters
      requires !Clashes(Topology.WithGetter(t, view), view.channel.id)
      requires Serves(serving, Asked(Topology.WithGetter(t, view), view.channel.id))
      ensures Possible(t, Op.AddGetter(view, serving))
      ensures Done(t, Op.AddGetter(view, serving)) == Served(Connected(Topology.WithGetter(t, view), view.channel.id), serving)
    {
    }

    /** Remove a getter; every live watcher that watched it is told and loses its guard. */
    method RemoveGetter(id: Id) returns (r: Result<(), Error>)
      requires Ready()
      modifies backEnd`getterById, backEnd.serviceById.Values, backEnd.watchers.Values, backEnd.getterById.Values
      ensures Ready() && r == if id in old(backEnd.getterById) then Ok(()) else Err(NoSuchGetter(id))
      ensures r.Err? ==> backEnd.Indexes() == old(backEnd.Indexes()) && backEnd.Watches() == old(backEnd.Watches())
      ensures r.Ok? ==> var op := Op.RemoveGetter(id);
        Possible(old(backEnd.Watches()), op) && backEnd.Watches() == Done(old(backEnd.Watches()), op)
    {
      hide *;
      ghost var t := backEnd.Watches();
      ReadyMeans();
      r := backEnd.RemoveGetter(id);
      if r.Ok? {
        RemoveGetterIsDone(t, id);
        DoneSteady(t, Op.RemoveGetter(id));
      }
      ReadyMeans();
    }

    lemma RemoveGetterIsDone(t: Table, id: Id)
      requires id in t.getters
      ensures Possible(t, Op.RemoveGetter(id)) && Done(t, Op.RemoveGetter(id)) == LostGetter(t, id)
    {
    }

    /** Add tags to the selected getters; watchers that match now are told and registered. This panics
        exactly if a getter that the tags are news to clashes. */
    method AddGetterTags(sels: seq<Selector>, tags: set<Id>, refused: set<Entry>)
      returns (panicked: bool, size: nat, ghost order: seq<Id>, ghost serving: Serving)
      requires Ready()
      modifies backEnd.getterById.Values, backEnd.watchers.Values
      ensures var t := old(backEnd.Watches());
        var ids := Selected(t, sels);
        && size == |ids| && Distinct(order) && SetOf(order) == Changed(t, ids, tags) && KnownGetters(t, order)
        && (panicked <==> SomeClash(Tagged(t, ids, tags), order))
      ensures !panicked ==> Ready() && serving.refused == refused
      ensures !panicked ==> var op := Op.AddGetterTags(sels, tags, order, serving);
        Possible(old(backEnd.Watches()), op) && backEnd.Watches() == Done(old(backEnd.Watches()), op)
    {
      hide *;
      ghost var t := backEnd.Watches();
      serving := Serving([], {});
      ReadyMeans();
      var request;
      panicked, request, size, order := backEnd.AddGetterTags(sels, tags);
      if !panicked {
        serving := backEnd.RegisterWatches(request, refused);
        AddTagsIsDone(t, sels, tags, order, serving);
        DoneSteady(t, Op.AddGetterTags(sels, tags, order, serving));
        ReadyMeans();
      }
    }

    lemma AddTagsIsDone(t: Table, sels: seq<Selector>, tags: set<Id>, order: seq<Id>, serving: Serving)
      requires var t1 := Tagged(t, Selected(t, sels), tags);
        && Distinct(order) && SetOf(order) == Changed(t, Selected(t, sels), tags) && KnownGetters(t, order)
        && KnownGetters(t1, order) && !SomeClash(t1, order) && Serves(serving, AskedAll(t1, order))
      ensures var op := Op.AddGetterTags(sels, tags, order, serving);
        Possible(t, op) && Done(t, op) == Served(ConnectedAll(Tagged(t, Selected(t, sels), tags), order), serving)
    {
    }

    /** Take tags from the selected getters; watchers that no longer match are told and lose their guard. */
    method RemoveGetterTags(sels: seq<Selector>, tags: set<Id>) returns (size: nat, ghost order: seq<Id>)
      requires Ready()
      modifies backEnd.getterById.Values, backEnd.watchers.Values
      ensures Ready() && size == |Selected(old(backEnd.Watches()), sels)|
      ensures var op := Op.RemoveGetterTags(sels, tags, order);
        Possible(old(backEnd.Watches()), op) && backEnd.Watches() == Done(old(backEnd.Watches()), op)
    {
      hide *;
      ghost var t := backEnd.Watches();
      ReadyMeans();
      size, order := backEnd.RemoveGetterTags(sels, tags);
      RemoveTagsIsDone(t, sels, tags, order);
      DoneSteady(t, Op.RemoveGetterTags(sels, tags, order));
      ReadyMeans();
    }

    lemma RemoveTagsIsDone(t: Table, sels: seq<Selector>, tags: set<Id>, order: seq<Id>)
      requires Distinct(order) && SetOf(order) == Selected(t, sels) && KnownGetters(t, order)
      ensures var op := Op.RemoveGetterTags(sels, tags, order);
        Possible(t, op) && Done(t, op) == TagsRemoved(t, tags, order)
    {
    }

    // -------------------------------------------------------------- values

    /** Send values; `send` is what the adapters say to the requests they get. */
    method SendValues(keyvalues: seq<Targetted<Value>>, send: Adapters, ghost views: map<Id, View>)
      returns (results: map<Id, Outcome>, ghost order: seq<Id>)
      requires Ready() && views == backEnd.SetterViews()
      ensures IsOrder(SendSpec(views, keyvalues), order)
      ensures results == Merged(SendSpec(views, keyvalues), send, order)
    {
      hide *;
      ReadyMeans();
      var prepared := backEnd.PrepareSendValues(keyvalues);
      results, order := Merge(prepared, send);
      IsOrderMeans(prepared, order);
    }

    lemma IsOrderMeans(prepared: SendRequest, order: seq<Id>)
      ensures IsOrder(prepared, order) <==> Distinct(order) && SetOf(order) == prepared.Keys && Asks(prepared, order)
    {
    }
  }
}
