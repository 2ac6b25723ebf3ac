/** The state of the adapter manager: the device registry with its live watch index
    (components/taxonomy/src/backend.rs). Its methods update shared objects; each is tied to what `Registry`
    and `Topology` say about the same call on values. */
module Backend {
  import opened Common
  import opened Services
  import opened Selectors
  import opened Requests
  import opened Watching
  import opened Registry
  import opened Topology
  import opened Transact
  import opened Values

  datatype Error =
    | DuplicateAdapter(id: Id)
    | NoSuchAdapter(id: Id)
    | InvalidInitialService
    | DuplicateService(id: Id)
    | NoSuchService(id: Id)
    | ConflictingAdapter(expected: Id, actual: Id)
    | DuplicateGetter(id: Id)
    | NoSuchGetter(id: Id)
    | DuplicateSetter(id: Id)
    | NoSuchSetter(id: Id)
    | StorageError

  /** What the tag database says about an id. */
  datatype Stored = NoDatabase | Tags(tags: set<Id>) | Unreadable

  /** A service as an adapter presents it. */
  datatype Service = Service(id: Id, adapter: Id, tags: set<Id>, getters: set<Id>, setters: set<Id>)

  class WatcherData {
    const key: Key
    const targets: seq<Target>
    ghost const initial: set<Id>
    var isDropped: bool
    var guards: map<Id, nat>
    var events: seq<WatchEvent>

    constructor (key: Key, targets: seq<Target>, ghost initial: set<Id>)
      ensures this.key == key && this.targets == targets && this.initial == initial
      ensures !isDropped && guards == map[] && events == [] && View() == Watcher(targets, false, {}, [], initial)
    {
      this.key, this.targets, this.initial := key, targets, initial;
      isDropped, guards, events := false, map[], [];
    }

    ghost function View(): Watcher
      reads this
    {
      Watcher(targets, isDropped, guards.Keys, events, initial)
    }

    /** Keep one more adapter guard for a getter. */
    method PushGuard(id: Id)
      modifies this`guards
      ensures guards == old(guards)[id := if id in old(guards) then old(guards)[id] + 1 else 1]
    {
      guards := guards[id := if id in guards then guards[id] + 1 else 1];
    }
  }

  ghost function GetterTable(getters: map<Id, GetterData>): map<Id, Getter>
    reads getters.Values, set id | id in getters :: getters[id].serviceTags
  {
    map id | id in getters :: Getter(getters[id].View(), getters[id].watchers)
  }

  ghost function WatcherTable(watchers: map<Key, WatcherData>): map<Key, Watcher>
    reads watchers.Values
  {
    map k | k in watchers :: watchers[k].View()
  }

  ghost function ServiceMaps(adapters: map<Id, AdapterData>): (m: map<Id, map<Id, ServiceData>>)
    reads adapters.Values
    ensures m.Keys == adapters.Keys && forall a :: a in adapters ==> m[a] == adapters[a].services
  {
    map a | a in adapters :: adapters[a].services
  }

  ghost function GetterMaps(services: map<Id, ServiceData>): (m: map<Id, map<Id, GetterData>>)
    reads services.Values
    ensures m.Keys == services.Keys && forall s :: s in services ==> m[s] == services[s].getters
  {
    map s | s in services :: services[s].getters
  }

  ghost function SetterMaps(services: map<Id, ServiceData>): (m: map<Id, map<Id, SetterData>>)
    reads services.Values
    ensures m.Keys == services.Keys && forall s :: s in services ==> m[s] == services[s].setters
  {
    map s | s in services :: services[s].setters
  }

  class State {
    var adapterById: map<Id, AdapterData>
    var serviceById: map<Id, ServiceData>
    var getterById: map<Id, GetterData>
    var setterById: map<Id, SetterData>
    var watchCounter: Key
    var watchers: map<Key, WatcherData>

    ghost function Indexes(): Index
      reads this`adapterById, this`serviceById, this`getterById, this`setterById
      reads adapterById.Values, serviceById.Values
    {
      Index(ServiceMaps(adapterById), serviceById, GetterMaps(serviceById), SetterMaps(serviceById),
            getterById, setterById)
    }

    ghost function Watches(): Table
      reads this`getterById, this`watchCounter, this`watchers
      reads getterById.Values, (set id | id in getterById :: getterById[id].serviceTags), watchers.Values
    {
      Table(GetterTable(getterById), WatcherTable(watchers), watchCounter)
    }

    ghost predicate Named()
      reads this`adapterById, this`watchers
    {
      && (forall a :: a in adapterById ==> adapterById[a].id == a)
      && (forall k :: k in watchers ==> watchers[k].key == k)
    }

    ghost predicate Valid()
      reads this`adapterById, this`serviceById, this`getterById, this`setterById, this`watchers
      reads adapterById.Values, serviceById.Values
    {
      Named() && Agree(Indexes())
    }

    lemma ValidMeans()
      ensures Valid() <==> Named() && Agree(Indexes())
      ensures Indexes() == Index(ServiceMaps(adapterById), serviceById, GetterMaps(serviceById), SetterMaps(serviceById),
                                 getterById, setterById)
    {
    }

    constructor ()
      ensures Valid()
      ensures Indexes() == Index(map[], map[], map[], map[], map[], map[]) && Watches() == Empty()
    {
      adapterById, serviceById, getterById, setterById := map[], map[], map[], map[];
      watchCounter, watchers := 0, map[];
    }

    // -------------------------------------------------------------- adapters and services

    method AddAdapter(id: Id) returns (r: Result<(), Error>)
      requires Valid()
      modifies this`adapterById
      ensures Valid()
      ensures r == if id in old(adapterById) then Err(DuplicateAdapter(id)) else Ok(())
      ensures Indexes() == if r.Ok? then WithAdapter(old(Indexes()), id) else old(Indexes())
    {
      hide *;
      ValidMeans();
      ghost var x := Indexes();
      if id in adapterById {
        return Err(DuplicateAdapter(id));
      }
      var adapter := new AdapterData(id);
      adapterById := adapterById[id := adapter];
      WithAdapterAgrees(x, id);
      AdapterInserted(adapter);
      assert Named();
      ValidMeans();
      return Ok(());
    }

    twostate lemma AdapterInserted(new adapter: AdapterData)
      requires old(Named()) && adapterById == old(adapterById)[adapter.id := adapter] && adapter.id !in old(adapterById)
      requires forall a :: a in old(adapterById) ==> adapterById[a].services == old(adapterById[a].services)
      requires serviceById == old(serviceById) && getterById == old(getterById) && setterById == old(setterById)
      requires forall s :: s in serviceById ==>
                 serviceById[s].getters == old(serviceById[s].getters) && serviceById[s].setters == old(serviceById[s].setters)
      requires adapter.services == map[] && watchers == old(watchers)
      ensures Named() && Indexes() == WithAdapter(old(Indexes()), adapter.id)
    {
      assert ServiceMaps(adapterById) == old(ServiceMaps(adapterById))[adapter.id := map[]];
      assert GetterMaps(serviceById) == old(GetterMaps(serviceById));
      assert SetterMaps(serviceById) == old(SetterMaps(serviceById));
    }

    /** Add a service without channels. Whenever this fails every index is as before. */
    method AddService(service: Service, stored: Stored) returns (r: Result<(), Error>)
      requires Valid()
      modifies this`serviceById, adapterById.Values
      ensures Valid()
      ensures r == if service.getters != {} || service.setters != {} then Err(InvalidInitialService)
                   else if service.adapter !in adapterById then Err(NoSuchAdapter(service.adapter))
                   else if stored.Unreadable? then Err(StorageError)
                   else if service.id in old(serviceById) then Err(DuplicateService(service.id))
                   else Ok(())
      ensures r.Err? ==> Indexes() == old(Indexes())
      ensures r.Ok? ==>
        && service.id in serviceById && fresh(serviceById[service.id])
        && var s := serviceById[service.id];
           && s.id == service.id && s.adapter == service.adapter
           && s.tags.tags == (if stored.Tags? then service.tags + stored.tags else service.tags)
           && Indexes() == WithService(old(Indexes()), s)
    {
      hide *;
      if service.getters != {} || service.setters != {} {
        return Err(InvalidInitialService);
      }
      if service.adapter !in adapterById {
        return Err(NoSuchAdapter(service.adapter));
      }
      if stored.Unreadable? {
        return Err(StorageError);
      }
      var tags := if stored.Tags? then service.tags + stored.tags else service.tags;
      var data := new ServiceData(service.id, service.adapter, tags);
      r := RegisterService(data);
    }

    /** Put a new service into the indexes. */
    method RegisterService(data: ServiceData) returns (r: Result<(), Error>)
      requires Valid() && data.adapter in adapterById && data.getters == map[] && data.setters == map[]
      requires forall s :: s in serviceById ==> serviceById[s].tags != data.tags
      modifies this`serviceById, adapterById.Values
      ensures Valid()
      ensures r == if data.id in old(serviceById) then Err(DuplicateService(data.id)) else Ok(())
      ensures r.Err? ==> Indexes() == old(Indexes())
      ensures r.Ok? ==> data.id in serviceById && serviceById[data.id] == data
                        && Indexes() == WithService(old(Indexes()), data)
    {
      hide *;
      ValidMeans();
      ghost var x := Indexes();
      var adapter := adapterById[data.adapter];
      AdapterKnows(x, data.adapter, data.id);
      r := InsertService(adapter, data);
      if r.Ok? {
        WithServiceAgrees(x, data);
        ServiceInserted(adapter, data);
      } else {
        NothingInserted();
      }
      assert Named();
      ValidMeans();
    }

    twostate lemma ServiceInserted(adapter: AdapterData, new data: ServiceData)
      requires adapterById == old(adapterById) && data.adapter in adapterById && adapterById[data.adapter] == adapter
      requires Named()
      requires forall b :: b in adapterById && adapterById[b] != adapter ==> adapterById[b].services == old(adapterById[b].services)
      requires adapter.services == old(adapter.services)[data.id := data]
      requires serviceById == old(serviceById)[data.id := data]
      requires forall s :: s in old(serviceById) && s != data.id ==>
                 serviceById[s].getters == old(serviceById[s].getters) && serviceById[s].setters == old(serviceById[s].setters)
      requires data.getters == map[] && data.setters == map[]
      requires getterById == old(getterById) && setterById == old(setterById)
      ensures Indexes() == WithService(old(Indexes()), data)
    {
      assert ServiceMaps(adapterById)[data.adapter] == old(ServiceMaps(adapterById))[data.adapter][data.id := data];
      assert ServiceMaps(adapterById) == Put(old(ServiceMaps(adapterById)), data.adapter, data.id, data);
      assert GetterMaps(serviceById) == old(GetterMaps(serviceById))[data.id := map[]];
      assert SetterMaps(serviceById) == old(SetterMaps(serviceById))[data.id := map[]];
    }

    twostate lemma NothingInserted()
      requires adapterById == old(adapterById) && serviceById == old(serviceById)
      requires getterById == old(getterById) && setterById == old(setterById)
      requires forall b :: b in adapterById ==> adapterById[b].services == old(adapterById[b].services)
      requires forall s :: s in serviceById ==>
                 serviceById[s].getters == old(serviceById[s].getters) && serviceById[s].setters == old(serviceById[s].setters)
      ensures Indexes() == old(Indexes())
    {
      assert ServiceMaps(adapterById) == old(ServiceMaps(adapterById));
      assert GetterMaps(serviceById) == old(GetterMaps(serviceById));
      assert SetterMaps(serviceById) == old(SetterMaps(serviceById));
    }

    /** Put a service into its adapter and into the index of services, into both or into neither. */
    method InsertService(adapter: AdapterData, data: ServiceData) returns (r: Result<(), Error>)
      modifies this`serviceById, adapter`services
      ensures r == if data.id in old(adapter.services) || data.id in old(serviceById)
                   then Err(DuplicateService(data.id)) else Ok(())
      ensures r.Err? ==> adapter.services == old(adapter.services) && serviceById == old(serviceById)
      ensures r.Ok? ==> adapter.services == old(adapter.services)[data.id := data]
                        && serviceById == old(serviceById)[data.id := data]
    {
      SinglePair(adapter.services, data.id, data);
      SinglePair(serviceById, data.id, data);
      var inAdapter, services := InsertInMap.Start(adapter.services, [(data.id, data)]);
      adapter.services := services;
      if inAdapter.Err? {
        return Err(DuplicateService(inAdapter.error));
      }
      var inServices, byId := InsertInMap.Start(serviceById, [(data.id, data)]);
      serviceById := byId;
      if inServices.Err? {
        adapter.services := inAdapter.value.Drop();
        return Err(DuplicateService(inServices.error));
      }
      inAdapter.value.Commit();
      inServices.value.Commit();
      adapter.services := inAdapter.value.Drop();
      serviceById := inServices.value.Drop();
      return Ok(());
    }

    /** Take a service and its channels out of the three indexes below the adapters. */
    method AuxRemoveService(id: Id) returns (r: Result<Id, Error>)
      modifies this`serviceById, this`getterById, this`setterById
      ensures r.Ok? <==> id in old(serviceById)
      ensures r.Err? ==> r.error == NoSuchService(id) && Indexes() == old(Indexes()) && Watches() == old(Watches())
      ensures r.Ok? ==> var s := old(serviceById)[id];
                && r.value == s.adapter && serviceById == old(serviceById) - {id}
                && getterById == old(getterById) - s.getters.Keys && setterById == old(setterById) - s.setters.Keys
                && Watches() == ServiceRemoved(old(Watches()), s.getters.Keys)
    {
      if id !in serviceById {
        return Err(NoSuchService(id));
      }
      var service := serviceById[id];
      serviceById := serviceById - {id};
      getterById := RemoveAll(getterById, service.getters.Keys);
      setterById := RemoveAll(setterById, service.setters.Keys);
      GettersGone(service.getters.Keys);
      return Ok(service.adapter);
    }

    twostate lemma GettersGone(new ids: set<Id>)
      requires getterById == old(getterById) - ids && watchers == old(watchers) && watchCounter == old(watchCounter)
      requires GetterTable(old(getterById)) == old(GetterTable(getterById))
      requires WatcherTable(watchers) == old(WatcherTable(watchers))
      ensures Watches() == ServiceRemoved(old(Watches()), ids)
    {
    }

    /** Remove a service and its channels. The branches for an inconsistent state are never taken. */
    method RemoveService(id: Id) returns (r: Result<(), Error>)
      requires Valid()
      modifies this`serviceById, this`getterById, this`setterById, adapterById.Values
      ensures Valid()
      ensures r == if id in old(serviceById) then Ok(()) else Err(NoSuchService(id))
      ensures r.Err? ==> Indexes() == old(Indexes()) && Watches() == old(Watches())
      ensures r.Ok? ==> var x := old(Indexes());
                id in x.services && x.services[id].adapter in x.adapters && Indexes() == WithoutService(x, id)
      ensures r.Ok? ==> Watches() == ServiceRemoved(old(Watches()), old(serviceById[id].getters.Keys))
    {
      hide *;
      ValidMeans();
      ghost var x := Indexes();
      if id in serviceById {
        WithoutServiceAgrees(x, id);
        ServiceIsHome(x, id);
      }
      r := DropService(id);
      assert Named();
      ValidMeans();
    }

    /** A registered service is in the list of its registered adapter, and owns the channels that name it. */
    lemma ServiceIsHome(x: Index, id: Id)
      requires Agree(x) && x == Indexes() && id in serviceById
      ensures serviceById[id].adapter in adapterById && id in adapterById[serviceById[id].adapter].services
      ensures serviceById[id].getters.Keys == InParts(getterById, GetterParent(getterById), {id})
      ensures serviceById[id].setters.Keys == InParts(setterById, SetterParent(setterById), {id})
    {
      hide Agree;
      WithoutServiceAgrees(x, id);
      ChannelsOfService(x, id);
    }

    /** Take a service out of the lower indexes, then out of its adapter. */
    method DropService(id: Id) returns (r: Result<(), Error>)
      requires Named()
      requires id in serviceById ==>
        && serviceById[id].adapter in adapterById && id in adapterById[serviceById[id].adapter].services
        && serviceById[id].getters.Keys == InParts(getterById, GetterParent(getterById), {id})
        && serviceById[id].setters.Keys == InParts(setterById, SetterParent(setterById), {id})
      modifies this`serviceById, this`getterById, this`setterById, adapterById.Values
      ensures r == if id in old(serviceById) then Ok(()) else Err(NoSuchService(id))
      ensures r.Err? ==> Indexes() == old(Indexes()) && Watches() == old(Watches())
      ensures r.Ok? ==> old(serviceById)[id].adapter in old(Indexes()).adapters
                        && Indexes() == WithoutService(old(Indexes()), id)
      ensures r.Ok? ==> Watches() == ServiceRemoved(old(Watches()), old(serviceById[id].getters.Keys))
    {
      hide *;
      AdapterKeys();
      var removed := AuxRemoveService(id);
      if removed.Err? {
        return Err(removed.error);
      }
      r := TakeFromAdapter(removed.value, id);
      ServiceDeleted(id, removed.value);
    }

    lemma AdapterKeys()
      ensures Indexes().adapters.Keys == adapterById.Keys
    {
    }

    method TakeFromAdapter(a: Id, id: Id) returns (r: Result<(), Error>)
      requires Named()
      modifies adapterById.Values
      ensures r == if a !in adapterById then Err(NoSuchAdapter(a))
                   else if id !in old(adapterById[a].services) then Err(NoSuchService(id)) else Ok(())
      ensures forall b :: b in adapterById && b != a ==> adapterById[b].services == old(adapterById[b].services)
      ensures a in adapterById ==> adapterById[a].services == old(adapterById[a].services) - {id}
    {
      if a !in adapterById {
        return Err(NoSuchAdapter(a));
      }
      var adapter := adapterById[a];
      if id !in adapter.services {
        return Err(NoSuchService(id));
      }
      adapter.services := adapter.services - {id};
      return Ok(());
    }

    twostate lemma ServiceDeleted(id: Id, new a: Id)
      requires adapterById == old(adapterById) && a in adapterById
      requires id in old(serviceById) && old(serviceById)[id].adapter == a
      requires forall b :: b in adapterById && b != a ==> adapterById[b].services == old(adapterById[b].services)
      requires adapterById[a].services == old(adapterById[a].services) - {id}
      requires serviceById == old(serviceById) - {id}
      requires forall s :: s in serviceById ==>
                 serviceById[s].getters == old(serviceById[s].getters) && serviceById[s].setters == old(serviceById[s].setters)
      requires getterById == old(getterById) - InParts(old(getterById), GetterParent(old(getterById)), {id})
      requires setterById == old(setterById) - InParts(old(setterById), SetterParent(old(setterById)), {id})
      ensures Indexes() == WithoutService(old(Indexes()), id)
    {
      assert ServiceMaps(adapterById) == Cut(old(ServiceMaps(adapterById)), a, id);
      assert GetterMaps(serviceById) == old(GetterMaps(serviceById)) - {id};
      assert SetterMaps(serviceById) == old(SetterMaps(serviceById)) - {id};
    }

    /** Remove an adapter with all its services and their channels. */
    method RemoveAdapter(id: Id) returns (r: Result<(), Error>)
      requires Valid()
      modifies this`adapterById, this`serviceById, this`getterById, this`setterById
      ensures Valid()
      ensures r == if id in old(adapterById) then Ok(()) else Err(NoSuchAdapter(id))
      ensures r.Err? ==> Indexes() == old(Indexes()) && Watches() == old(Watches())
      ensures r.Ok? ==> id in old(Indexes()).adapters && Indexes() == WithoutAdapter(old(Indexes()), id)
      ensures r.Ok? ==> var x := old(Indexes());
                id in x.adapters && Watches() == ServiceRemoved(old(Watches()), GettersUnder(x, x.adapters[id].Keys))
    {
      hide *;
      ValidMeans();
      ghost var x := Indexes();
      if id !in adapterById {
        return Err(NoSuchAdapter(id));
      }
      DropAdapter(id, x);
      WithoutAdapterAgrees(x, id);
      ValidMeans();
      return Ok(());
    }

    /** Take an adapter out of its index, then its services one after the other. */
    method DropAdapter(id: Id, ghost x: Index)
      requires Named() && Agree(x) && x == Indexes() && id in adapterById
      modifies this`adapterById, this`serviceById, this`getterById, this`setterById
      ensures Named() && id in x.adapters && Indexes() == WithoutAdapter(x, id)
      ensures Watches() == ServiceRemoved(old(Watches()), GettersUnder(x, x.adapters[id].Keys))
    {
      hide *;
      ValidMeans();
      var adapter := adapterById[id];
      adapterById := adapterById - {id};
      RemoveServices(adapter.services.Keys, x, id);
      AdapterDeleted(id);
    }

    /** Remove some services of one adapter, one after the other. */
    method RemoveServices(services: set<Id>, ghost x: Index, ghost adapter: Id)
      requires Agree(x) && adapter in x.adapters && services <= x.adapters[adapter].Keys
      requires serviceById == x.services && getterById == x.getters && setterById == x.setters
      requires GetterMaps(serviceById) == x.serviceGetters && SetterMaps(serviceById) == x.serviceSetters
      modifies this`serviceById, this`getterById, this`setterById
      ensures serviceById == x.services - services
      ensures getterById == x.getters - InParts(x.getters, GetterParent(x.getters), services)
      ensures setterById == x.setters - InParts(x.setters, SetterParent(x.setters), services)
      ensures Watches() == ServiceRemoved(old(Watches()), GettersUnder(x, services))
    {
      hide *;
      var todo := services;
      ghost var gone: set<Id> := {};
      NoneInParts(x);
      while todo != {}
        invariant todo + gone == services && todo !! gone
        invariant serviceById == x.services - gone
        invariant getterById == x.getters - InParts(x.getters, GetterParent(x.getters), gone)
        invariant setterById == x.setters - InParts(x.setters, SetterParent(x.setters), gone)
      {
        var id :| id in todo;
        OneMoreGone(x, adapter, gone, id);
        assert x.services[id].getters == x.serviceGetters[id];
        assert x.services[id].setters == x.serviceSetters[id];
        var _ := AuxRemoveService(id);
        todo := todo - {id};
        gone := gone + {id};
      }
      assert gone == services;
      GettersUnderMeans(x, services);
      GettersGone(GettersUnder(x, services));
    }

    twostate lemma AdapterDeleted(id: Id)
      requires id in old(adapterById) && adapterById == old(adapterById) - {id}
      requires forall a :: a in adapterById ==> adapterById[a].services == old(adapterById[a].services)
      requires var ss := old(adapterById[id].services).Keys;
        && serviceById == old(serviceById) - ss
        && getterById == old(getterById) - InParts(old(getterById), GetterParent(old(getterById)), ss)
        && setterById == old(setterById) - InParts(old(setterById), SetterParent(old(setterById)), ss)
      requires forall s :: s in serviceById ==>
                 serviceById[s].getters == old(serviceById[s].getters) && serviceById[s].setters == old(serviceById[s].setters)
      requires old(Named()) && watchers == old(watchers)
      ensures Named() && Indexes() == WithoutAdapter(old(Indexes()), id)
    {
      var ss := old(adapterById[id].services).Keys;
      assert ServiceMaps(adapterById) == old(ServiceMaps(adapterById)) - {id};
      assert GetterMaps(serviceById) == old(GetterMaps(serviceById)) - ss;
      assert SetterMaps(serviceById) == old(SetterMaps(serviceById)) - ss;
    }

    // -------------------------------------------------------------- setters

    /** Put a setter into its service and into the index of setters, into both or into neither. */
    method InsertSetter(service: ServiceData, data: SetterData) returns (r: Result<(), Error>)
      modifies this`setterById, service`setters
      ensures r == if data.id in old(service.setters) || data.id in old(setterById)
                   then Err(DuplicateSetter(data.id)) else Ok(())
      ensures r.Err? ==> service.setters == old(service.setters) && setterById == old(setterById)
      ensures r.Ok? ==> service.setters == old(service.setters)[data.id := data]
                        && setterById == old(setterById)[data.id := data]
    {
      SinglePair(service.setters, data.id, data);
      SinglePair(setterById, data.id, data);
      var inService, setters := InsertInMap.Start(service.setters, [(data.id, data)]);
      service.setters := setters;
      if inService.Err? {
        return Err(DuplicateSetter(inService.error));
      }
      var inSetters, byId := InsertInMap.Start(setterById, [(data.id, data)]);
      setterById := byId;
      if inSetters.Err? {
        service.setters := inService.value.Drop();
        return Err(DuplicateSetter(inSetters.error));
      }
      inService.value.Commit();
      inSetters.value.Commit();
      service.setters := inService.value.Drop();
      setterById := inSetters.value.Drop();
      return Ok(());
    }

    /** Put a new setter of a registered service into the indexes. */
    method RegisterSetter(data: SetterData) returns (r: Result<(), Error>)
      requires Valid() && SetterFits(data, data.id, serviceById)
      modifies this`setterById, serviceById.Values
      ensures Valid()
      ensures r == if data.id in old(setterById) then Err(DuplicateSetter(data.id)) else Ok(())
      ensures r.Err? ==> Indexes() == old(Indexes())
      ensures r.Ok? ==> setterById == old(setterById)[data.id := data] && data.service in old(Indexes()).serviceSetters
                        && Indexes() == Registry.WithSetter(old(Indexes()), data)
    {
      hide *;
      ValidMeans();
      ghost var x := Indexes();
      SetterFitsMeans(data, x);
      ServiceNamesApart(x);
      var service := serviceById[data.service];
      r := InsertSetter(service, data);
      if r.Ok? {
        WithSetterAgrees(x, data);
        SetterInserted(service, data);
      } else {
        NothingInserted();
      }
      assert Named();
      ValidMeans();
    }

    twostate lemma SetterInserted(service: ServiceData, new data: SetterData)
      requires adapterById == old(adapterById) && serviceById == old(serviceById)
      requires data.service in serviceById && serviceById[data.service] == service
      requires forall a :: a in adapterById ==> adapterById[a].services == old(adapterById[a].services)
      requires forall s :: s in serviceById && s != data.service ==> serviceById[s].setters == old(serviceById[s].setters)
      requires forall s :: s in serviceById ==> serviceById[s].getters == old(serviceById[s].getters)
      requires service.setters == old(service.setters)[data.id := data]
      requires setterById == old(setterById)[data.id := data] && getterById == old(getterById)
      ensures data.service in old(Indexes()).serviceSetters
      ensures Indexes() == Registry.WithSetter(old(Indexes()), data)
    {
      assert ServiceMaps(adapterById) == old(ServiceMaps(adapterById));
      assert SetterMaps(serviceById) == Put(old(SetterMaps(serviceById)), data.service, data.id, data);
      assert GetterMaps(serviceById) == old(GetterMaps(serviceById));
    }

    /** Take a setter out of its index, then out of its service. */
    method DropSetter(setter: SetterData) returns (r: Result<(), Error>)
      requires ServicesApart() && setter.id in setterById && setterById[setter.id] == setter
      modifies this`setterById, serviceById.Values
      ensures r == if setter.service !in serviceById then Err(NoSuchService(setter.service))
                   else if setter.id !in old(serviceById[setter.service].setters) then Err(NoSuchSetter(setter.id))
                   else Ok(())
      ensures r.Ok? ==> setter.service in old(Indexes()).serviceSetters
                        && Indexes() == Registry.WithoutSetter(old(Indexes()), setter.id)
    {
      hide *;
      setterById := setterById - {setter.id};
      if setter.service !in serviceById {
        return Err(NoSuchService(setter.service));
      }
      var service := serviceById[setter.service];
      ServiceApart(setter.service);
      if setter.id !in service.setters {
        return Err(NoSuchSetter(setter.id));
      }
      service.setters := service.setters - {setter.id};
      SetterDeleted(setter.id, setter.service);
      return Ok(());
    }

    twostate lemma SetterDeleted(id: Id, new s: Id)
      requires adapterById == old(adapterById) && serviceById == old(serviceById) && s in serviceById
      requires id in old(setterById) && old(setterById)[id].service == s
      requires forall a :: a in adapterById ==> adapterById[a].services == old(adapterById[a].services)
      requires forall t :: t in serviceById && t != s ==> serviceById[t].setters == old(serviceById[t].setters)
      requires forall t :: t in serviceById ==> serviceById[t].getters == old(serviceById[t].getters)
      requires serviceById[s].setters == old(serviceById[s].setters) - {id}
      requires setterById == old(setterById) - {id} && getterById == old(getterById)
      ensures s in old(Indexes()).serviceSetters
      ensures Indexes() == Registry.WithoutSetter(old(Indexes()), id)
    {
      assert ServiceMaps(adapterById) == old(ServiceMaps(adapterById));
      assert SetterMaps(serviceById) == Cut(old(SetterMaps(serviceById)), s, id);
      assert GetterMaps(serviceById) == old(GetterMaps(serviceById));
    }

    /** Add a setter to its service. Whenever this fails every index is as before. */
    method AddSetter(setter: Channel, stored: Stored) returns (r: Result<(), Error>)
      requires Valid()
      modifies this`setterById, serviceById.Values
      ensures Valid()
      ensures r == if setter.service !in serviceById then Err(NoSuchService(setter.service))
                   else if serviceById[setter.service].adapter != setter.adapter
                   then Err(ConflictingAdapter(serviceById[setter.service].adapter, setter.adapter))
                   else if setter.id in old(setterById) then Err(DuplicateSetter(setter.id)) else Ok(())
      ensures r.Err? ==> Indexes() == old(Indexes())
      ensures r.Ok? ==>
        && setter.id in setterById && fresh(setterById[setter.id])
        && setterById[setter.id].View().channel
           == setter.(tags := if stored.Tags? then setter.tags + stored.tags else setter.tags)
        && setter.service in old(Indexes()).serviceSetters
        && Indexes() == Registry.WithSetter(old(Indexes()), setterById[setter.id])
    {
      hide *;
      var tags := if stored.Tags? then setter.tags + stored.tags else setter.tags;
      if setter.service !in serviceById {
        return Err(NoSuchService(setter.service));
      }
      var service := serviceById[setter.service];
      if service.adapter != setter.adapter {
        return Err(ConflictingAdapter(service.adapter, setter.adapter));
      }
      var data := new SetterData(setter.(tags := tags), service.tags);
      SetterFitsService(data);
      r := RegisterSetter(data);
      SetterShows(data);
    }

    lemma SetterFitsService(data: SetterData)
      requires data.service in serviceById && data.adapter == serviceById[data.service].adapter
      requires data.serviceTags == serviceById[data.service].tags
      ensures SetterFits(data, data.id, serviceById)
    {
    }

    lemma SetterShows(data: SetterData)
      ensures data.View().channel == Channel(data.id, data.service, data.adapter, data.kind, data.tags)
    {
    }

    /** Remove a setter. The branches for an inconsistent state are never taken. */
    method RemoveSetter(id: Id) returns (r: Result<(), Error>)
      requires Valid()
      modifies this`setterById, serviceById.Values
      ensures Valid()
      ensures r == if id in old(setterById) then Ok(()) else Err(NoSuchSetter(id))
      ensures r.Err? ==> Indexes() == old(Indexes())
      ensures r.Ok? ==> var x := old(Indexes());
                id in x.setters && x.setters[id].service in x.serviceSetters
                && Indexes() == Registry.WithoutSetter(x, id)
    {
      hide *;
      ValidMeans();
      ghost var x := Indexes();
      if id !in setterById {
        return Err(NoSuchSetter(id));
      }
      var setter := setterById[id];
      SetterIsHome(x, setter, id);
      r := DropSetter(setter);
      assert Named();
      ValidMeans();
    }

    /** A registered setter is in the list of its registered service. */
    lemma SetterIsHome(x: Index, setter: SetterData, id: Id)
      requires Agree(x) && x == Indexes() && id in setterById && setterById[id] == setter
      ensures ServicesApart() && setter.id == id
      ensures setter.service in serviceById && id in serviceById[setter.service].setters
      ensures setter.service in x.serviceSetters && x.setters == setterById && Agree(Registry.WithoutSetter(x, id))
    {
      hide Agree;
      SetterAt(x, id);
      ServicesAreApart(x);
      WithoutSetterAgrees(x, id);
    }

    ghost predicate ServicesApart()
      reads this`serviceById
    {
      forall s, s' :: s in serviceById && s' in serviceById && s != s' ==> serviceById[s] != serviceById[s']
    }

    lemma ServiceNamesApart(x: Index)
      requires Agree(x) && x.services == serviceById
      ensures forall s, s' :: s in serviceById && s' in serviceById && s != s' ==> serviceById[s] != serviceById[s']
    {
    }

    lemma ServicesAreApart(x: Index)
      requires Agree(x) && x.services == serviceById
      ensures ServicesApart()
    {
    }

    // -------------------------------------------------------------- getters

    /** Put a getter into its service and into the index of getters, into both or into neither. */
    method InsertGetter(service: ServiceData, data: GetterData) returns (r: Result<(), Error>)
      modifies this`getterById, service`getters
      ensures r == if data.id in old(service.getters) || data.id in old(getterById)
                   then Err(DuplicateGetter(data.id)) else Ok(())
      ensures r.Err? ==> service.getters == old(service.getters) && getterById == old(getterById)
      ensures r.Ok? ==> service.getters == old(service.getters)[data.id := data]
                        && getterById == old(getterById)[data.id := data]
    {
      SinglePair(service.getters, data.id, data);
      SinglePair(getterById, data.id, data);
      var inService, getters := InsertInMap.Start(service.getters, [(data.id, data)]);
      service.getters := getters;
      if inService.Err? {
        return Err(DuplicateGetter(inService.error));
      }
      var inGetters, byId := InsertInMap.Start(getterById, [(data.id, data)]);
      getterById := byId;
      if inGetters.Err? {
        service.getters := inService.value.Drop();
        return Err(DuplicateGetter(inGetters.error));
      }
      inService.value.Commit();
      inGetters.value.Commit();
      service.getters := inService.value.Drop();
      getterById := inGetters.value.Drop();
      return Ok(());
    }

    /** Put a new getter of a registered service into the indexes. */
    method RegisterGetter(data: GetterData) returns (r: Result<(), Error>)
      requires Valid() && GetterFits(data, data.id, serviceById)
      modifies this`getterById, serviceById.Values
      ensures Valid()
      ensures r == if data.id in old(getterById) then Err(DuplicateGetter(data.id)) else Ok(())
      ensures r.Err? ==> Indexes() == old(Indexes())
      ensures r.Ok? ==> getterById == old(getterById)[data.id := data] && data.service in old(Indexes()).serviceGetters
                        && Indexes() == Registry.WithGetter(old(Indexes()), data)
    {
      hide *;
      ValidMeans();
      ghost var x := Indexes();
      GetterFitsMeans(data, x);
      ServiceNamesApart(x);
      var service := serviceById[data.service];
      r := InsertGetter(service, data);
      if r.Ok? {
        WithGetterAgrees(x, data);
        GetterInserted(service, data);
      } else {
        NothingInserted();
      }
      assert Named();
      ValidMeans();
    }

    twostate lemma GetterInserted(service: ServiceData, new data: GetterData)
      requires adapterById == old(adapterById) && serviceById == old(serviceById)
      requires data.service in serviceById && serviceById[data.service] == service
      requires forall a :: a in adapterById ==> adapterById[a].services == old(adapterById[a].services)
      requires forall s :: s in serviceById && s != data.service ==> serviceById[s].getters == old(serviceById[s].getters)
      requires forall s :: s in serviceById ==> serviceById[s].setters == old(serviceById[s].setters)
      requires service.getters == old(service.getters)[data.id := data]
      requires getterById == old(getterById)[data.id := data] && setterById == old(setterById)
      ensures data.service in old(Indexes()).serviceGetters
      ensures Indexes() == Registry.WithGetter(old(Indexes()), data)
    {
      assert ServiceMaps(adapterById) == old(ServiceMaps(adapterById));
      assert GetterMaps(serviceById) == Put(old(GetterMaps(serviceById)), data.service, data.id, data);
      assert SetterMaps(serviceById) == old(SetterMaps(serviceById));
    }

    twostate lemma GetterDeleted(id: Id, new s: Id)
      requires adapterById == old(adapterById) && serviceById == old(serviceById) && s in serviceById
      requires id in old(getterById) && old(getterById)[id].service == s
      requires forall a :: a in adapterById ==> adapterById[a].services == old(adapterById[a].services)
      requires forall t :: t in serviceById && t != s ==> serviceById[t].getters == old(serviceById[t].getters)
      requires forall t :: t in serviceById ==> serviceById[t].setters == old(serviceById[t].setters)
      requires serviceById[s].getters == old(serviceById[s].getters) - {id}
      requires getterById == old(getterById) - {id} && setterById == old(setterById)
      ensures s in old(Indexes()).serviceGetters
      ensures Indexes() == Registry.WithoutGetter(old(Indexes()), id)
    {
      assert ServiceMaps(adapterById) == old(ServiceMaps(adapterById));
      assert GetterMaps(serviceById) == Cut(old(GetterMaps(serviceById)), s, id);
      assert SetterMaps(serviceById) == old(SetterMaps(serviceById));
    }

    // -------------------------------------------------------------- connecting getters to watchers

    ghost predicate GettersApart()
      reads this`getterById
    {
      forall g, g' :: g in getterById && g' in getterById && g != g' ==> getterById[g] != getterById[g']
    }

    /** Put a watcher into a getter's list; unless the payload is `Never` one registration is asked for. A
        watcher that is in the list already fails an assertion that is on in every build. */
    method StartChannelWatch(key: Key, getter: GetterData, payload: Exactly<Value>)
      returns (panicked: bool, request: set<Entry>)
      requires getter.adapter in adapterById
      modifies getter`watchers
      ensures panicked <==> key in old(getter.watchers)
      ensures getter.watchers == old(getter.watchers) + {key}
      ensures request == if panicked || payload.Never? then {} else {Entry(getter.id, key)}
    {
      if key in getter.watchers {
        assert getter.watchers + {key} == getter.watchers;
        return true, {};
      }
      getter.watchers := getter.watchers + {key};
      if payload.Never? {
        return false, {};
      }
      assert getter.adapter in adapterById;
      return false, {Entry(getter.id, key)};
    }

    /** Every target of the watcher that selects the getter tells the listener and puts the watcher into the
        getter's list. This panics exactly if the watcher is there already or the second time. */
    method ConnectWatcher(watcher: WatcherData, getter: GetterData) returns (panicked: bool, request: set<Entry>)
      requires getter.adapter in adapterById
      modifies getter`watchers, watcher`events
      ensures var n := HitCount(watcher.targets, getter.View());
        panicked <==> n > 1 || (n > 0 && watcher.key in old(getter.watchers))
      ensures !panicked ==>
        && var hit := HitCount(watcher.targets, getter.View()) > 0;
           && getter.watchers == old(getter.watchers) + (if hit then {watcher.key} else {})
           && watcher.events == old(watcher.events) + (if hit then [GetterAdded(getter.id)] else [])
           && request == if Ranged(watcher.targets, getter.View()) then {Entry(getter.id, watcher.key)} else {}
    {
      hide *;
      ghost var v := getter.View();
      var targets := watcher.targets;
      request := {};
      HitNone(v);
      for i := 0 to |targets|
        invariant getter.View() == v && HitCount(targets[..i], v) <= 1
        invariant HitCount(targets[..i], v) > 0 ==> watcher.key !in old(getter.watchers)
        invariant getter.watchers == old(getter.watchers) + if HitCount(targets[..i], v) > 0 then {watcher.key} else {}
        invariant watcher.events == old(watcher.events) + if HitCount(targets[..i], v) > 0 then [GetterAdded(getter.id)] else []
        invariant request == if Ranged(targets[..i], v) then {Entry(getter.id, watcher.key)} else {}
      {
        HitStep(targets, i, v);
        HitCountGrows(targets, i + 1, v);
        ViewSelected(v, targets[i].select);
        if MatchesAny(targets[i].select, getter.View().serviceTags, getter.View().channel) {
          watcher.events := watcher.events + [GetterAdded(getter.id)];
          var clash, more := StartChannelWatch(watcher.key, getter, targets[i].payload);
          if clash {
            return true, {};
          }
          request := request + more;
        }
      }
      assert targets[..|targets|] == targets;
      panicked := false;
    }

    /** A getter is new or has changed: connect it to the live watchers that now match and have no guard
        for it, and tell them. This panics exactly if one of them clashes. */
    method ConnectGetter(getter: GetterData) returns (panicked: bool, request: set<Entry>)
      requires Named() && getter.adapter in adapterById
      modifies getter`watchers, watchers.Values
      ensures var (before, listed, v) := (old(WatcherTable(watchers)), old(getter.watchers), old(getter.View()));
        var joins := JoinsOf(before, getter.id, v);
        && (panicked <==> !NoneClash(before, joins, listed, v))
        && (!panicked ==>
              && getter.watchers == listed + joins
              && WatcherTable(watchers) == Told(before, joins, GetterAdded(getter.id))
              && request == EntriesOf(getter.id, RangedOf(before, joins, v)))
    {
      hide *;
      ghost var before := WatcherTable(watchers);
      ghost var (listed, v) := (getter.watchers, getter.View());
      ghost var joins := JoinsOf(before, getter.id, v);
      request := {};
      var todo := watchers.Keys;
      NoneTold(before, getter.id, GetterAdded(getter.id), listed, v);
      JoinsInWatchers(joins);
      while todo != {}
        invariant todo <= watchers.Keys && getter.View() == v
        invariant NoneClash(before, joins - todo, listed, v)
        invariant getter.watchers == listed + (joins - todo)
        invariant WatcherTable(watchers) == Told(before, joins - todo, GetterAdded(getter.id))
        invariant request == EntriesOf(getter.id, RangedOf(before, joins - todo, v))
      {
        var k :| k in todo;
        ghost var done := joins - todo;
        TestsJoin(before, k, getter, done);
        JoinStep(before, joins, done, k, listed, v, getter.id);
        todo := todo - {k};
        var watcher := watchers[k];
        if getter.id in watcher.guards || watcher.isDropped {
          assert joins - todo == done;
        } else {
          var clash, more := ConnectTold(watcher, getter, before, done);
          if clash {
            return true, {};
          }
          request := request + more;
          assert joins - todo == if k in joins then done + {k} else done;
        }
      }
      assert joins - todo == joins;
      panicked := false;
    }

    /** `ConnectWatcher` for one of the watchers, as seen in the table. */
    method ConnectTold(watcher: WatcherData, getter: GetterData, ghost before: map<Key, Watcher>, ghost done: set<Key>)
      returns (panicked: bool, request: set<Entry>)
      requires Named() && watcher.key in watchers && watchers[watcher.key] == watcher && watcher.key !in done
      requires getter.adapter in adapterById && WatcherTable(watchers) == Told(before, done, GetterAdded(getter.id))
      modifies getter`watchers, watcher`events
      ensures var n := HitCount(watcher.targets, getter.View());
        panicked <==> n > 1 || (n > 0 && watcher.key in old(getter.watchers))
      ensures !panicked ==>
        && var hit := HitCount(watcher.targets, getter.View()) > 0;
           && getter.watchers == old(getter.watchers) + (if hit then {watcher.key} else {})
           && WatcherTable(watchers) == Told(before, if hit then done + {watcher.key} else done, GetterAdded(getter.id))
           && request == if Ranged(watcher.targets, getter.View()) then {Entry(getter.id, watcher.key)} else {}
    {
      hide Told, Ranged, HitCount, Agree;
      panicked, request := ConnectWatcher(watcher, getter);
      if !panicked {
        ToldOneMore(watcher, before, done, GetterAdded(getter.id));
        assert HitCount(watcher.targets, getter.View()) <= 0 ==> WatcherTable(watchers) == old(WatcherTable(watchers));
      }
    }

    twostate lemma ToldOneMore(watcher: WatcherData, new before: map<Key, Watcher>, new done: set<Key>, new event: WatchEvent)
      requires Named() && watchers == old(watchers)
      requires watcher.key in watchers && watchers[watcher.key] == watcher && watcher.key !in done
      requires forall k :: k in watchers && watchers[k] != watcher ==> watchers[k].View() == old(watchers[k].View())
      requires old(WatcherTable(watchers)) == Told(before, done, event)
      ensures watcher.View() == old(watcher.View()).(events := old(watcher.events) + [event])
              ==> WatcherTable(watchers) == Told(before, done + {watcher.key}, event)
      ensures watcher.View() == old(watcher.View()) ==> WatcherTable(watchers) == Told(before, done, event)
    {
    }

    lemma JoinsInWatchers(joins: set<Key>)
      requires exists id, v :: joins == JoinsOf(WatcherTable(watchers), id, v)
      ensures joins <= watchers.Keys && joins - watchers.Keys == {}
    {
    }

    /** The tests on a watcher that the loops make are those that define `JoinsOf`. */
    lemma TestsJoin(before: map<Key, Watcher>, k: Key, getter: GetterData, done: set<Key>)
      requires k in watchers && k !in done && Named()
      requires WatcherTable(watchers) == Told(before, done, GetterAdded(getter.id))
      ensures watchers[k].key == k && k in before && before[k].targets == watchers[k].targets
      ensures k in JoinsOf(before, getter.id, getter.View()) <==>
              getter.id !in watchers[k].guards && !watchers[k].isDropped && HitCount(watchers[k].targets, getter.View()) > 0
    {
      assert WatcherTable(watchers)[k] == watchers[k].View();
      assert Told(before, done, GetterAdded(getter.id)).Keys == before.Keys;
      HitsSelect(watchers[k].targets, getter.View());
    }

    /** A getter is being removed or has lost tags: the live watchers that it leaves are told and lose their
        guard and their place in its list; watchers that are gone are forgotten on the way. */
    method DisconnectGetter(getter: GetterData, isBeingRemoved: bool)
      requires Named()
      modifies getter`watchers, watchers.Values
      ensures var before := old(WatcherTable(watchers));
        var left := LeavesOf(before, old(getter.watchers), old(getter.View()), isBeingRemoved);
        && getter.watchers == old(getter.watchers) * watchers.Keys - left
        && WatcherTable(watchers) == Unguarded(Told(before, left, GetterRemoved(getter.id)), left, getter.id)
    {
      hide *;
      ghost var before := WatcherTable(watchers);
      ghost var left := LeavesOf(before, getter.watchers, getter.View(), isBeingRemoved);
      var keysToDrop: set<Key> := {};
      var todo := getter.watchers;
      NoneLeft(before, getter.id);
      LeavesInWatchers(before, getter.watchers, getter.View(), isBeingRemoved);
      assert left - todo == {} && todo - todo == {};
      while todo != {}
        invariant todo <= getter.watchers == old(getter.watchers)
        invariant keysToDrop == (getter.watchers - todo) - watchers.Keys + (left - todo)
        invariant WatcherTable(watchers)
               == Unguarded(Told(before, left - todo, GetterRemoved(getter.id)), left - todo, getter.id)
      {
        var k :| k in todo;
        ghost var done := left - todo;
        TestsLeave(before, k, getter, isBeingRemoved, done);
        todo := todo - {k};
        if k !in watchers {
          keysToDrop := keysToDrop + {k};
          assert left - todo == done;
          continue;
        }
        var watcher := watchers[k];
        if watcher.isDropped {
          assert left - todo == done;
          continue;
        }
        var shouldDisconnect := isBeingRemoved
          || MissesAny(AllSelectors(watcher.targets), getter.View().serviceTags, getter.View().channel);
        if !shouldDisconnect {
          assert left - todo == done;
          continue;
        }
        assert left - todo == done + {k};
        ForgetOne(watcher, getter.id, before, done);
        keysToDrop := keysToDrop + {k};
      }
      assert left - todo == left;
      getter.watchers := getter.watchers - keysToDrop;
    }

    lemma LeavesInWatchers(before: map<Key, Watcher>, listed: set<Key>, v: View, removed: bool)
      requires before == WatcherTable(watchers)
      ensures LeavesOf(before, listed, v, removed) <= watchers.Keys * listed
    {
    }

    /** The tests on a watcher that the loop makes are those that define `LeavesOf`. */
    lemma TestsLeave(before: map<Key, Watcher>, k: Key, getter: GetterData, removed: bool, done: set<Key>)
      requires k in getter.watchers && k !in done && Named()
      requires WatcherTable(watchers) == Unguarded(Told(before, done, GetterRemoved(getter.id)), done, getter.id)
      ensures k in watchers ==> watchers[k].key == k
      ensures k in LeavesOf(before, getter.watchers, getter.View(), removed) <==>
              && k in watchers && !watchers[k].isDropped
              && (removed || MissesAny(AllSelectors(watchers[k].targets), getter.View().serviceTags, getter.View().channel))
    {
      assert Unguarded(Told(before, done, GetterRemoved(getter.id)), done, getter.id).Keys == before.Keys;
      if k in watchers {
        assert WatcherTable(watchers)[k] == watchers[k].View();
      }
    }

    /** Tell one watcher that a getter is gone and drop its guard. */
    method ForgetOne(watcher: WatcherData, id: Id, ghost before: map<Key, Watcher>, ghost done: set<Key>)
      requires Named() && watcher.key in watchers && watchers[watcher.key] == watcher && watcher.key !in done
      requires WatcherTable(watchers) == Unguarded(Told(before, done, GetterRemoved(id)), done, id)
      modifies watcher`events, watcher`guards
      ensures WatcherTable(watchers)
           == Unguarded(Told(before, done + {watcher.key}, GetterRemoved(id)), done + {watcher.key}, id)
    {
      watcher.events := watcher.events + [GetterRemoved(id)];
      watcher.guards := watcher.guards - {id};
    }

    // -------------------------------------------------------------- the table of watches

    twostate lemma GetterListed(new data: GetterData)
      requires getterById == old(getterById)[data.id := data] && data.id !in old(getterById) && data.watchers == {}
      requires GetterTable(old(getterById)) == old(GetterTable(getterById))
      requires watchers == old(watchers) && WatcherTable(watchers) == old(WatcherTable(watchers))
      requires watchCounter == old(watchCounter) && data.View().channel.id == data.id
      ensures Watches() == Topology.WithGetter(old(Watches()), data.View())
    {
      assert GetterTable(getterById) == old(GetterTable(getterById))[data.id := Getter(data.View(), {})];
    }

    /** Only one getter, and the watchers, have changed. */
    twostate lemma OneGetterChanged(id: Id)
      requires getterById == old(getterById) && watchers == old(watchers) && watchCounter == old(watchCounter)
      requires id in getterById
      requires forall g :: g in getterById && g != id ==>
                 getterById[g].View() == old(getterById[g].View()) && getterById[g].watchers == old(getterById[g].watchers)
      ensures Watches().counter == old(Watches()).counter && Watches().watchers == WatcherTable(watchers)
      ensures Watches().getters == old(Watches()).getters[id := Getter(getterById[id].View(), getterById[id].watchers)]
    {
    }

    lemma WatchesShow(id: Id)
      requires id in getterById
      ensures id in Watches().getters && Watches().getters[id] == Getter(getterById[id].View(), getterById[id].watchers)
      ensures Watches().getters.Keys == getterById.Keys
      ensures Watches().watchers == WatcherTable(watchers) && Watches().watchers.Keys == watchers.Keys
      ensures Joins(Watches(), id) == JoinsOf(WatcherTable(watchers), id, getterById[id].View())
      ensures forall removed :: Leaves(Watches(), id, removed)
                             == LeavesOf(WatcherTable(watchers), getterById[id].watchers, getterById[id].View(), removed)
    {
    }

    /** Connect a registered getter. */
    method GetterMayNeedRegistration(getter: GetterData) returns (panicked: bool, request: set<Entry>)
      requires Named() && GettersApart() && getter.id in getterById && getterById[getter.id] == getter
      requires getter.adapter in adapterById
      modifies getter`watchers, watchers.Values
      ensures getter.id in old(Watches()).getters && (panicked <==> Clashes(old(Watches()), getter.id))
      ensures !panicked ==> Watches() == Connected(old(Watches()), getter.id) && request == Asked(old(Watches()), getter.id)
    {
      hide Agree, JoinsOf, LeavesOf, Told, NoneClash, IsClash, RangedOf;
      WatchesShow(getter.id);
      ClashMeans(Watches(), getter.id);
      panicked, request := ConnectGetter(getter);
      OneGetterChanged(getter.id);
    }

    // -------------------------------------------------------------- adding and removing getters

    /** Getters are registered under their own names, with registered adapters. */
    ghost predicate GettersNamed()
      reads this`getterById, this`adapterById
    {
      && GettersApart()
      && forall g :: g in getterById ==> getterById[g].id == g && getterById[g].adapter in adapterById
    }

    lemma GetterAt(id: Id)
      requires GettersNamed() && id in getterById
      ensures GettersApart() && getterById[id].id == id && getterById[id].adapter in adapterById
    {
    }

    lemma GettersAreNamed(x: Index)
      requires Agree(x) && x.getters == getterById && x.services == serviceById && x.adapters.Keys == adapterById.Keys
      ensures GettersNamed()
    {
    }

    /** A registered getter is in the list of its registered service. */
    lemma GetterIsHome(x: Index, getter: GetterData, id: Id)
      requires Agree(x) && x == Indexes() && id in getterById && getterById[id] == getter
      ensures GettersApart() && ServicesApart() && getter.id == id
      ensures getter.service in serviceById && id in serviceById[getter.service].getters
      ensures getter.service in x.serviceGetters && x.getters == getterById && Agree(Registry.WithoutGetter(x, id))
    {
      hide Agree;
      GettersAreNamed(x);
      GetterAt(id);
      ServicesAreApart(x);
      WithoutGetterAgrees(x, id);
    }

    lemma GetterFitsService(data: GetterData)
      requires data.service in serviceById && data.adapter == serviceById[data.service].adapter
      requires data.serviceTags == serviceById[data.service].tags
      ensures GetterFits(data, data.id, serviceById)
    {
    }

    lemma GetterShows(data: GetterData)
      ensures data.View() == View(Channel(data.id, data.service, data.adapter, data.kind, data.tags), data.serviceTags.tags)
      ensures data.View().channel.id == data.id
    {
    }

    /** Add a getter to its service and connect it. Whenever this fails everything is as before. It panics
        exactly if the getter is new and clashes. */
    method AddGetter(getter: Channel, stored: Stored) returns (panicked: bool, r: Result<set<Entry>, Error>)
      requires Valid()
      modifies this`getterById, serviceById.Values, watchers.Values
      ensures Valid()
      ensures r.Ok? <==> getter.service in serviceById && serviceById[getter.service].adapter == getter.adapter
                         && getter.id !in old(getterById)
      ensures r.Err? ==> r.error == if getter.service !in serviceById then NoSuchService(getter.service)
                                    else if serviceById[getter.service].adapter != getter.adapter
                                    then ConflictingAdapter(serviceById[getter.service].adapter, getter.adapter)
                                    else DuplicateGetter(getter.id)
      ensures r.Err? ==> !panicked && Indexes() == old(Indexes()) && Watches() == old(Watches())
      ensures r.Ok? ==>
        && var full := getter.(tags := if stored.Tags? then getter.tags + stored.tags else getter.tags);
           && (panicked <==> Clashes(Topology.WithGetter(old(Watches()), View(full, serviceById[getter.service].tags.tags)), full.id))
           && (!panicked ==> Added(full, old(Indexes()), old(Watches()), r.value))
    {
      hide *;
      var tags := if stored.Tags? then getter.tags + stored.tags else getter.tags;
      if getter.service !in serviceById {
        return false, Err(NoSuchService(getter.service));
      }
      var service := serviceById[getter.service];
      if service.adapter != getter.adapter {
        return false, Err(ConflictingAdapter(service.adapter, getter.adapter));
      }
      panicked, r := AddToService(getter.(tags := tags));
    }

    /** The getter is in the indexes as a new object, is connected, and `request` is what to ask for. */
    ghost predicate Added(getter: Channel, x: Index, t: Table, request: set<Entry>)
      reads this`adapterById, this`serviceById, this`getterById, this`setterById, this`watchCounter, this`watchers
      reads adapterById.Values, serviceById.Values, (set s | s in serviceById :: serviceById[s].tags)
      reads getterById.Values, (set id | id in getterById :: getterById[id].serviceTags), watchers.Values
    {
      && getter.id in getterById && getter.id !in x.getters
      && getter.service in serviceById && getter.service in x.serviceGetters
      && var data := getterById[getter.id];
         var view := View(getter, serviceById[getter.service].tags.tags);
         var t1 := Topology.WithGetter(t, view);
         && data.View() == view && data.serviceTags == serviceById[getter.service].tags && data.service == getter.service
         && data.id == getter.id
         && Indexes() == Registry.WithGetter(x, data)
         && Watches() == Connected(t1, getter.id)
         && request == Asked(t1, getter.id)
    }

    method AddToService(getter: Channel) returns (panicked: bool, r: Result<set<Entry>, Error>)
      requires Valid() && getter.service in serviceById && serviceById[getter.service].adapter == getter.adapter
      modifies this`getterById, serviceById.Values, watchers.Values
      ensures Valid()
      ensures r.Ok? <==> getter.id !in old(getterById)
      ensures r.Err? ==> !panicked && r.error == DuplicateGetter(getter.id)
                         && Indexes() == old(Indexes()) && Watches() == old(Watches())
      ensures r.Ok? ==>
        && (panicked <==> Clashes(Topology.WithGetter(old(Watches()), View(getter, serviceById[getter.service].tags.tags)), getter.id))
        && (!panicked ==> Added(getter, old(Indexes()), old(Watches()), r.value))
    {
      hide *;
      var data := new GetterData(getter, serviceById[getter.service].tags);
      GetterShows(data);
      panicked, r := Introduce(data);
      if r.Ok? && !panicked {
        GetterIsAdded(data, getter, r.value);
      }
    }

    /** Put a new getter into the indexes and connect it. */
    method Introduce(data: GetterData) returns (panicked: bool, r: Result<set<Entry>, Error>)
      requires Valid() && data.service in serviceById && data.adapter == serviceById[data.service].adapter
      requires data.serviceTags == serviceById[data.service].tags && data.watchers == {}
      modifies this`getterById, serviceById.Values, watchers.Values, data`watchers
      ensures Valid()
      ensures r.Ok? <==> data.id !in old(getterById)
      ensures r.Err? ==> !panicked && r.error == DuplicateGetter(data.id)
                         && Indexes() == old(Indexes()) && Watches() == old(Watches())
      ensures r.Ok? ==> (panicked <==> Clashes(Topology.WithGetter(old(Watches()), data.View()), data.id))
      ensures r.Ok? && !panicked ==>
        && getterById == old(getterById)[data.id := data] && data.service in old(Indexes()).serviceGetters
        && Indexes() == Registry.WithGetter(old(Indexes()), data)
        && var t1 := Topology.WithGetter(old(Watches()), data.View());
           data.id in t1.getters && Watches() == Connected(t1, data.id) && r.value == Asked(t1, data.id)
    {
      hide *;
      GetterShows(data);
      var added := InstallGetter(data);
      if added.Err? {
        return false, Err(added.error);
      }
      var clash, request := ConnectNew(data);
      return clash, Ok(request);
    }

    twostate lemma GetterIsAdded(new data: GetterData, new getter: Channel, request: set<Entry>)
      requires getterById == old(getterById)[data.id := data] && data.id == getter.id && data.id !in old(getterById)
      requires data.service == getter.service && data.service in serviceById
      requires data.serviceTags == serviceById[data.service].tags
      requires data.View() == View(getter, data.serviceTags.tags)
      requires data.service in old(Indexes()).serviceGetters
      requires Indexes() == Registry.WithGetter(old(Indexes()), data)
      requires var t1 := Topology.WithGetter(old(Watches()), data.View());
        && data.id in t1.getters && Watches() == Connected(t1, data.id) && request == Asked(t1, data.id)
      ensures Added(getter, old(Indexes()), old(Watches()), request)
    {
      hide Connected, Asked, Topology.WithGetter, Registry.WithGetter;
    }

    /** Connect a getter that was just put into the indexes. */
    method ConnectNew(getter: GetterData) returns (panicked: bool, request: set<Entry>)
      requires Valid() && getter.id in getterById && getterById[getter.id] == getter
      modifies getter`watchers, watchers.Values
      ensures getter.id in old(Watches()).getters && (panicked <==> Clashes(old(Watches()), getter.id))
      ensures !panicked ==> Watches() == Connected(old(Watches()), getter.id) && request == Asked(old(Watches()), getter.id)
    {
      hide *;
      ValidMeans();
      GettersAreNamed(Indexes());
      GetterAt(getter.id);
      panicked, request := GetterMayNeedRegistration(getter);
    }

    /** Put a new getter into the indexes; no watcher is in its list. */
    method InstallGetter(data: GetterData) returns (r: Result<(), Error>)
      requires Valid() && data.service in serviceById && data.adapter == serviceById[data.service].adapter
      requires data.serviceTags == serviceById[data.service].tags && data.watchers == {}
      modifies this`getterById, serviceById.Values
      ensures Valid()
      ensures r == if data.id in old(getterById) then Err(DuplicateGetter(data.id)) else Ok(())
      ensures r.Err? ==> Indexes() == old(Indexes()) && Watches() == old(Watches())
      ensures r.Ok? ==> getterById == old(getterById)[data.id := data] && data.service in old(Indexes()).serviceGetters
                        && Indexes() == Registry.WithGetter(old(Indexes()), data)
      ensures r.Ok? ==> Watches() == Topology.WithGetter(old(Watches()), data.View())
    {
      hide *;
      GetterFitsService(data);
      GetterShows(data);
      r := RegisterGetter(data);
      if r.Ok? {
        GetterListed(data);
      } else {
        NoGetterListed();
      }
    }

    twostate lemma NoGetterListed()
      requires Indexes() == old(Indexes())
      requires GetterTable(old(getterById)) == old(GetterTable(getterById))
      requires watchers == old(watchers) && WatcherTable(watchers) == old(WatcherTable(watchers))
      requires watchCounter == old(watchCounter)
      ensures Watches() == old(Watches())
    {
      assert getterById == Indexes().getters;
    }

    /** Take a getter out of its index and disconnect it. */
    method ForgetGetter(getter: GetterData)
      requires Named() && GettersApart() && getter.id in getterById && getterById[getter.id] == getter
      modifies this`getterById, watchers.Values, getter`watchers
      ensures getterById == old(getterById) - {getter.id}
      ensures getter.id in old(Watches()).getters && Watches() == LostGetter(old(Watches()), getter.id)
    {
      hide *;
      WatchesShow(getter.id);
      getterById := getterById - {getter.id};
      DisconnectGetter(getter, true);
      GetterForgotten(getter);
    }

    /** Take a getter out of its index, disconnect it, and take it out of its service. */
    method DropGetter(getter: GetterData) returns (r: Result<(), Error>)
      requires Named() && ServicesApart() && GettersApart() && getter.id in getterById && getterById[getter.id] == getter
      modifies this`getterById, serviceById.Values, watchers.Values, getter`watchers
      ensures r == if getter.service !in serviceById then Err(NoSuchService(getter.service))
                   else if getter.id !in old(serviceById[getter.service].getters) then Err(NoSuchGetter(getter.id))
                   else Ok(())
      ensures r.Ok? ==> getter.service in old(Indexes()).serviceGetters
                        && Indexes() == Registry.WithoutGetter(old(Indexes()), getter.id)
      ensures getter.id in old(Watches()).getters && Watches() == LostGetter(old(Watches()), getter.id)
    {
      hide *;
      ForgetGetter(getter);
      if getter.service !in serviceById {
        return Err(NoSuchService(getter.service));
      }
      var service := serviceById[getter.service];
      ServiceApart(getter.service);
      if getter.id !in service.getters {
        return Err(NoSuchGetter(getter.id));
      }
      service.getters := service.getters - {getter.id};
      GetterDeleted(getter.id, getter.service);
      return Ok(());
    }

    lemma ServiceApart(s: Id)
      requires ServicesApart() && s in serviceById
      ensures forall t :: t in serviceById && t != s ==> serviceById[t] != serviceById[s]
    {
    }

    twostate lemma GetterForgotten(getter: GetterData)
      requires getter.id in old(getterById) && old(getterById)[getter.id] == getter && old(GettersApart())
      requires getterById == old(getterById) - {getter.id} && watchers == old(watchers) && watchCounter == old(watchCounter)
      requires forall g :: g in getterById ==>
                 getterById[g].View() == old(getterById[g].View())
                 && (getterById[g] != getter ==> getterById[g].watchers == old(getterById[g].watchers))
      requires var before := old(WatcherTable(watchers));
        var left := LeavesOf(before, old(getter.watchers), old(getter.View()), true);
        WatcherTable(watchers) == Unguarded(Told(before, left, GetterRemoved(getter.id)), left, getter.id)
      ensures getter.id in old(Watches()).getters && Watches() == LostGetter(old(Watches()), getter.id)
    {
      hide Unguarded, Told, LeavesOf;
      var id := getter.id;
      assert GetterTable(getterById) == LostGetter(old(Watches()), id).getters;
    }

    /** Remove a getter. The branches for an inconsistent state are never taken. */
    method RemoveGetter(id: Id) returns (r: Result<(), Error>)
      requires Valid()
      modifies this`getterById, serviceById.Values, watchers.Values, getterById.Values
      ensures Valid()
      ensures r == if id in old(getterById) then Ok(()) else Err(NoSuchGetter(id))
      ensures r.Err? ==> Indexes() == old(Indexes()) && Watches() == old(Watches())
      ensures r.Ok? ==> var x := old(Indexes());
                id in x.getters && x.getters[id].service in x.serviceGetters && Indexes() == Registry.WithoutGetter(x, id)
      ensures r.Ok? ==> id in old(Watches()).getters && Watches() == LostGetter(old(Watches()), id)
    {
      hide *;
      ValidMeans();
      ghost var x := Indexes();
      if id !in getterById {
        return Err(NoSuchGetter(id));
      }
      var getter := getterById[id];
      GetterIsHome(x, getter, id);
      r := DropGetter(getter);
      assert Named();
      ValidMeans();
    }

    // -------------------------------------------------------------- tags of getters

    /** Add tags to a getter; tells whether one was news. */
    method InsertTags(getter: GetterData, tags: set<Id>) returns (hasChanged: bool)
      requires GettersApart() && getter.id in getterById && getterById[getter.id] == getter
      modifies getter`tags
      ensures getter.id in old(Watches()).getters
      ensures var t := old(Watches());
        var g := t.getters[getter.id];
        && (hasChanged <==> !(tags <= TagsOf(g)))
        && Watches() == t.(getters := t.getters[getter.id := WithTags(g, TagsOf(g) + tags)])
    {
      hasChanged := !(tags <= getter.tags);
      getter.tags := getter.tags + tags;
      OneGetterChanged(getter.id);
    }

    /** Disconnect a registered getter from the watchers it does not match. */
    method DisconnectListed(getter: GetterData)
      requires Named() && GettersApart() && getter.id in getterById && getterById[getter.id] == getter
      modifies getter`watchers, watchers.Values
      ensures getter.id in old(Watches()).getters && Watches() == Disconnected(old(Watches()), getter.id, false)
    {
      hide LeavesOf, Told, Unguarded, Agree;
      WatchesShow(getter.id);
      DisconnectGetter(getter, false);
      OneGetterChanged(getter.id);
    }

    /** Take tags from a getter and disconnect it from the watchers it no longer matches. */
    method LoseTags(getter: GetterData, tags: set<Id>)
      requires Named() && GettersApart() && getter.id in getterById && getterById[getter.id] == getter
      modifies getter`tags, getter`watchers, watchers.Values
      ensures getter.id in old(Watches()).getters
      ensures Watches() == Untagged(old(Watches()), getter.id, tags)
    {
      hide LeavesOf, Told, Unguarded, Agree, Disconnected, Named;
      WatchesShow(getter.id);
      getter.tags := getter.tags - tags;
      OneGetterChanged(getter.id);
      DisconnectListed(getter);
    }

    /** Add the tags to every selected getter; the getters they were news to are returned. */
    method TagGetters(sels: seq<Selector>, tags: set<Id>) returns (channels: seq<Id>, size: nat)
      requires GettersNamed()
      modifies getterById.Values
      ensures var t := old(Watches());
        var ids := Selected(t, sels);
        && Watches() == Tagged(t, ids, tags) && size == |ids|
        && Distinct(channels) && SetOf(channels) == Changed(t, ids, tags) && KnownGetters(t, channels)
    {
      hide *;
      ghost var t := Watches();
      ghost var ids := Selected(t, sels);
      SelectedKnown(t, sels);
      channels, size := [], 0;
      var todo := getterById.Keys;
      TaggedNone(t, tags);
      ghost var seen: seq<Id> := [];
      NothingSelected();
      assert ids - todo == {};
      while todo != {}
        invariant todo <= getterById.Keys
        invariant Watches() == Tagged(t, ids - todo, tags)
        invariant Distinct(seen) && SetOf(seen) == ids - todo && size == |seen|
        invariant Distinct(channels) && SetOf(channels) == Changed(t, ids - todo, tags)
      {
        var id :| id in todo;
        OneLessToDo(ids, todo, id);
        var matches, hasChanged := TagOne(id, sels, tags, t, ids - todo);
        todo := todo - {id};
        if hasChanged {
          OrderOneMore(channels, id);
          channels := channels + [id];
        }
        if matches {
          OrderOneMore(seen, id);
          seen := seen + [id];
          size := size + 1;
        }
      }
      assert ids - todo == ids;
      DistinctCounts(seen);
      ChangedAreKnown(t, ids, tags, channels);
    }

    /** Look at one getter, and add the tags if it is selected. */
    method TagOne(id: Id, sels: seq<Selector>, tags: set<Id>, ghost t: Table, ghost done: set<Id>)
      returns (matches: bool, hasChanged: bool)
      requires GettersNamed() && id in getterById && Watches() == Tagged(t, done, tags) && id !in done
      modifies getterById.Values
      ensures matches <==> id in Selected(t, sels)
      ensures var after := done + if matches then {id} else {};
        Watches() == Tagged(t, after, tags)
        && Changed(t, after, tags) == Changed(t, done, tags) + (if hasChanged then {id} else {})
      ensures id !in Changed(t, done, tags)
    {
      hide *;
      var getter := getterById[id];
      GetterAt(id);
      TestsSelected(t, done, id, tags, sels);
      ChangedOneMore(t, done, id, tags);
      matches := MatchesAny(sels, getter.View().serviceTags, getter.View().channel);
      if matches {
        hasChanged := InsertTags(getter, tags);
      } else {
        hasChanged := false;
        assert done + {} == done && Changed(t, done, tags) + {} == Changed(t, done, tags);
      }
    }

    lemma TestsSelected(t: Table, done: set<Id>, id: Id, tags: set<Id>, sels: seq<Selector>)
      requires Watches() == Tagged(t, done, tags) && id in getterById && id !in done
      ensures id in t.getters
      ensures id in Selected(t, sels) <==>
              MatchesAny(sels, getterById[id].View().serviceTags, getterById[id].View().channel)
      ensures var t1 := Tagged(t, done, tags);
        && id in t1.getters && t1.getters[id] == t.getters[id]
        && Tagged(t, done + {id}, tags)
           == t1.(getters := t1.getters[id := WithTags(t1.getters[id], TagsOf(t1.getters[id]) + tags)])
    {
      hide MatchesAny, TagsOf, WithTags;
      WatchesShow(id);
      var (t1, t2) := (Tagged(t, done, tags), Tagged(t, done + {id}, tags));
      assert t1.getters.Keys == t.getters.Keys && t1.getters[id] == t.getters[id];
      forall g | g in t.getters && g != id
        ensures t2.getters[g] == t1.getters[g]
      {
      }
    }

    lemma SelectedKnown(t: Table, sels: seq<Selector>)
      requires t == Watches()
      ensures Selected(t, sels) <= getterById.Keys
    {
    }

    /** See whom each of these getters joins. This panics exactly if one of them clashes. */
    method GettersMayNeedRegistration(ids: seq<Id>) returns (panicked: bool, request: set<Entry>)
      requires Valid() && Distinct(ids) && KnownGetters(Watches(), ids)
      modifies getterById.Values, watchers.Values
      ensures panicked <==> SomeClash(old(Watches()), ids)
      ensures !panicked ==> Watches() == ConnectedAll(old(Watches()), ids) && request == AskedAll(old(Watches()), ids)
    {
      hide *;
      ghost var t := Watches();
      ValidMeans();
      GettersAreNamed(Indexes());
      FoldsOfNone(t);
      WatchKeys();
      request := {};
      for i := 0 to |ids|
        invariant KnownGetters(t, ids[..i])
        invariant !SomeClash(t, ids[..i])
        invariant Watches() == ConnectedAll(t, ids[..i]) && request == AskedAll(t, ids[..i])
      {
        var id := ids[i];
        NextIsKnown(t, ids, i);
        GetterAt(id);
        ConnectedAllClashes(t, ids[..i], id);
        SomeClashStep(t, ids, i);
        FoldOneMore(t, {}, ids[..i], id);
        assert ids[..i + 1] == ids[..i] + [id];
        var clash, more := GetterMayNeedRegistration(getterById[id]);
        if clash {
          return true, {};
        }
        request := request + more;
      }
      assert ids[..|ids|] == ids;
      panicked := false;
    }

    lemma WatchKeys()
      ensures Watches().getters.Keys == getterById.Keys && Watches().watchers.Keys == watchers.Keys
      ensures Watches().counter == watchCounter
    {
    }

    lemma NextIsKnown(t: Table, ids: seq<Id>, i: nat)
      requires i < |ids| && Distinct(ids) && KnownGetters(t, ids) && t.getters.Keys == getterById.Keys
      ensures ids[i] in t.getters && ids[i] in getterById && ids[i] !in ids[..i]
      ensures KnownGetters(t, ids[..i]) && KnownGetters(t, ids[..i + 1])
    {
    }

    /** Add tags to the selected getters and connect those they were news to. This panics exactly if one of
        them now matches a live watcher that is in its list without a guard. */
    method AddGetterTags(sels: seq<Selector>, tags: set<Id>)
      returns (panicked: bool, request: set<Entry>, size: nat, ghost order: seq<Id>)
      requires Valid()
      modifies getterById.Values, watchers.Values
      ensures Valid()
      ensures var t := old(Watches());
        var ids := Selected(t, sels);
        && size == |ids| && Distinct(order) && SetOf(order) == Changed(t, ids, tags) && KnownGetters(t, order)
        && var t1 := Tagged(t, ids, tags);
           && KnownGetters(t1, order)
           && (panicked <==> SomeClash(t1, order))
           && (!panicked ==> Watches() == ConnectedAll(t1, order) && request == AskedAll(t1, order))
    {
      hide *;
      ghost var t := Watches();
      ghost var x := Indexes();
      ValidMeans();
      GettersAreNamed(x);
      var channels;
      channels, size := TagGetters(sels, tags);
      order := channels;
      assert Indexes() == x && Named();
      ValidMeans();
      TaggedKnows(t, Selected(t, sels), tags, channels);
      panicked, request := GettersMayNeedRegistration(channels);
      assert Indexes() == x;
      assert Named();
      ValidMeans();
    }

    /** Take tags from the selected getters and disconnect them where they no longer match. */
    method RemoveGetterTags(sels: seq<Selector>, tags: set<Id>) returns (size: nat, ghost order: seq<Id>)
      requires Valid()
      modifies getterById.Values, watchers.Values
      ensures Valid()
      ensures var t := old(Watches());
        && size == |Selected(t, sels)| && Distinct(order) && SetOf(order) == Selected(t, sels) && KnownGetters(t, order)
        && Watches() == TagsRemoved(t, tags, order)
    {
      hide *;
      ValidMeans();
      GettersAreNamed(Indexes());
      size, order := UntagGetters(sels, tags);
      assert Valid();
    }

    method UntagGetters(sels: seq<Selector>, tags: set<Id>) returns (size: nat, ghost order: seq<Id>)
      requires Named() && GettersNamed()
      modifies getterById.Values, watchers.Values
      ensures var t := old(Watches());
        && size == |Selected(t, sels)| && Distinct(order) && SetOf(order) == Selected(t, sels) && KnownGetters(t, order)
        && Watches() == TagsRemoved(t, tags, order)
    {
      hide *;
      ghost var t := Watches();
      ghost var ids := Selected(t, sels);
      SelectedKnown(t, sels);
      FoldsOfNone(t);
      size, order := 0, [];
      var todo := getterById.Keys;
      assert ids - todo == {};
      while todo != {}
        invariant todo <= getterById.Keys
        invariant Distinct(order) && SetOf(order) == ids - todo && KnownGetters(t, order) && size == |order|
        invariant Watches() == TagsRemoved(t, tags, order)
      {
        var id :| id in todo;
        OneLessToDo(ids, todo, id);
        var matches := UntagOne(id, sels, tags, t, order);
        todo := todo - {id};
        if matches {
          OrderOneMore(order, id);
          order := order + [id];
          size := size + 1;
        } else {
          assert order + [] == order;
        }
      }
      assert ids - todo == ids;
      DistinctCounts(order);
    }

    /** Look at one getter, and take the tags from it if it is selected. */
    method UntagOne(id: Id, sels: seq<Selector>, tags: set<Id>, ghost t: Table, ghost order: seq<Id>)
      returns (matches: bool)
      requires Named() && GettersNamed() && id in getterById && KnownGetters(t, order) && id !in SetOf(order)
      requires Watches() == TagsRemoved(t, tags, order)
      modifies getterById.Values, watchers.Values
      ensures matches <==> id in Selected(t, sels)
      ensures var after := order + if matches then [id] else [];
        KnownGetters(t, after) && Watches() == TagsRemoved(t, tags, after)
    {
      hide *;
      TestsUntagged(t, order, id, tags, sels);
      GetterAt(id);
      FoldOneMore(t, tags, order, id);
      var getter := getterById[id];
      matches := MatchesAny(sels, getter.View().serviceTags, getter.View().channel);
      if matches {
        LoseTags(getter, tags);
      } else {
        assert order + [] == order;
      }
    }

    lemma TestsUntagged(t: Table, order: seq<Id>, id: Id, tags: set<Id>, sels: seq<Selector>)
      requires KnownGetters(t, order) && Watches() == TagsRemoved(t, tags, order) && id in getterById && id !in SetOf(order)
      ensures id in t.getters
      ensures id in Selected(t, sels) <==>
              MatchesAny(sels, getterById[id].View().serviceTags, getterById[id].View().channel)
    {
      hide MatchesAny;
      WatchesShow(id);
      TagsRemovedElsewhere(t, tags, order, id);
    }

    // -------------------------------------------------------------- starting and stopping watches

    /** Create a watcher and put it into the list of every getter that matches now. This panics exactly if
        several of its targets match one getter. */
    method PrepareChannelWatch(targets: seq<Target>) returns (panicked: bool, request: set<Entry>, key: Key)
      requires Valid() && WellKeyed(Watches())
      modifies this`watchCounter, this`watchers, getterById.Values
      ensures Valid()
      ensures key == old(watchCounter) && key in watchers && fresh(watchers[key])
      ensures watchers == old(watchers)[key := watchers[key]]
      ensures panicked <==> Overlap(old(Watches()), targets)
      ensures !panicked ==>
        Watches() == Prepared(old(Watches()), targets) && request == WatchAsks(old(Watches()), targets)
    {
      hide *;
      ghost var t := Watches();
      ValidMeans();
      GettersAreNamed(Indexes());
      KeyIsNew(t);
      WatchKeys();
      ghost var x := Indexes();
      key := CreateWatcher(targets);
      ListingOfNone(t, targets);
      panicked, request := ListAll(targets, t);
      assert Indexes() == x;
      assert Named();
      ValidMeans();
    }

    method CreateWatcher(targets: seq<Target>) returns (key: Key)
      requires Named() && watchCounter !in watchers
      modifies this`watchCounter, this`watchers
      ensures Named() && key == old(watchCounter) && watchCounter == key + 1 && key in watchers && fresh(watchers[key])
      ensures watchers == old(watchers)[key := watchers[key]]
      ensures var t := old(Watches());
        var watcher := Watcher(targets, false, {}, [], Selected(t, AllSelectors(targets)));
        Watches() == Table(t.getters, t.watchers[key := watcher], t.counter + 1)
    {
      hide *;
      key := watchCounter;
      var watcher := new WatcherData(key, targets, Selected(Watches(), AllSelectors(targets)));
      watchCounter := watchCounter + 1;
      watchers := watchers[key := watcher];
      WatcherCreated(watcher);
    }

    lemma KeyIsNew(t: Table)
      requires t == Watches() && WellKeyed(t)
      ensures watchCounter !in watchers && t.counter == watchCounter
      ensures forall g :: g in t.getters ==> t.counter !in t.getters[g].watchers
    {
      WatchKeys();
      assert t.counter !in t.watchers.Keys;
    }

    twostate lemma WatcherCreated(new watcher: WatcherData)
      requires old(Named()) && adapterById == old(adapterById) && getterById == old(getterById)
      requires watcher.key == old(watchCounter) && watchers == old(watchers)[watcher.key := watcher]
      requires watchCounter == old(watchCounter) + 1 && watcher.key !in old(watchers)
      requires GetterTable(getterById) == old(GetterTable(getterById))
      requires forall k :: k in old(watchers) ==> watchers[k].View() == old(watchers[k].View())
      requires watcher.View() == Watcher(watcher.targets, false, {}, [], watcher.initial)
      ensures Named()
      ensures Watches() == Table(old(Watches()).getters, old(Watches()).watchers[watcher.key := watcher.View()],
                                 old(Watches()).counter + 1)
    {
      assert WatcherTable(watchers) == old(WatcherTable(watchers))[watcher.key := watcher.View()];
    }

    /** Put a new watcher into the lists of the getters that match, target by target. */
    method ListAll(targets: seq<Target>, ghost t: Table) returns (panicked: bool, request: set<Entry>)
      requires GettersNamed() && watchCounter > 0 && t.counter == watchCounter - 1
      requires Watches() == Listing(t, targets, {}) && t.getters.Keys == getterById.Keys
      requires forall g :: g in t.getters ==> t.counter !in t.getters[g].watchers
      modifies getterById.Values
      ensures panicked <==> Overlap(t, targets)
      ensures !panicked ==> Watches() == Prepared(t, targets) && request == WatchAsks(t, targets)
    {
      hide *;
      ghost var key := t.counter;
      request := {};
      NoTargets(t);
      EntriesForBoth({}, {}, key);
      PreparedIsListing(t, targets);
      assert targets[..0] == [];
      for i := 0 to |targets|
        invariant !Overlap(t, targets[..i])
        invariant Watches() == Listing(t, targets, Selected(t, AllSelectors(targets[..i])))
        invariant request == EntriesFor(RangedIn(t, targets[..i]), key)
      {
        ghost var (listed, chosen) := (Selected(t, AllSelectors(targets[..i])), Selected(t, targets[i].select));
        TargetStep(t, targets, i);
        EntriesForBoth(RangedIn(t, targets[..i]), if targets[i].payload.Never? then {} else chosen, key);
        EntriesForBoth({}, {}, key);
        var clash, more := ListTarget(targets, i, t, listed);
        if clash {
          return true, {};
        }
        request := request + more;
      }
      assert targets[..|targets|] == targets;
      panicked := false;
    }

    /** Put a new watcher into the lists of the getters that one of its targets selects. */
    method ListTarget(targets: seq<Target>, i: nat, ghost t: Table, ghost listed: set<Id>)
      returns (panicked: bool, request: set<Entry>)
      requires GettersNamed() && watchCounter > 0 && t.counter == watchCounter - 1 && i < |targets|
      requires Watches() == Listing(t, targets, listed) && t.getters.Keys == getterById.Keys
      requires forall g :: g in t.getters ==> t.counter !in t.getters[g].watchers
      modifies getterById.Values
      ensures var chosen := Selected(t, targets[i].select);
        && (panicked <==> !(listed !! chosen))
        && (!panicked ==>
              && Watches() == Listing(t, targets, listed + chosen)
              && request == if targets[i].payload.Never? then {} else EntriesFor(chosen, t.counter))
    {
      hide *;
      ghost var chosen := Selected(t, targets[i].select);
      request := {};
      var todo := getterById.Keys;
      SelectedIn(t, targets[i].select);
      EntriesForBoth({}, {}, t.counter);
      assert chosen - todo == {} && listed + {} == listed;
      while todo != {}
        invariant todo <= getterById.Keys && listed !! chosen - todo
        invariant Watches() == Listing(t, targets, listed + (chosen - todo))
        invariant request == if targets[i].payload.Never? then {} else EntriesFor(chosen - todo, t.counter)
      {
        var id :| id in todo;
        OneLessToDo(chosen, todo, id);
        EntriesForBoth(chosen - todo, {id}, t.counter);
        OneEntryFor(id, t.counter);
        var clash, matches, more := ListOne(id, targets, i, t, listed + (chosen - todo));
        if clash {
          return true, {};
        }
        assert matches ==> listed + (chosen - todo) + {id} == listed + (chosen - (todo - {id}));
        assert !matches ==> chosen - (todo - {id}) == chosen - todo;
        assert request + {} == request;
        todo := todo - {id};
        request := request + more;
      }
      assert chosen - todo == chosen;
      panicked := false;
    }

    /** Look at one getter for one target of a new watcher. */
    method ListOne(id: Id, targets: seq<Target>, i: nat, ghost t: Table, ghost done: set<Id>)
      returns (panicked: bool, matches: bool, request: set<Entry>)
      requires GettersNamed() && id in getterById && watchCounter > 0 && t.counter == watchCounter - 1 && i < |targets|
      requires Watches() == Listing(t, targets, done) && t.getters.Keys == getterById.Keys
      requires t.counter !in t.getters[id].watchers
      modifies getterById.Values
      ensures matches <==> id in Selected(t, targets[i].select)
      ensures panicked <==> matches && id in done
      ensures !panicked ==> Watches() == Listing(t, targets, if matches then done + {id} else done)
      ensures !panicked ==> request == if matches && !targets[i].payload.Never? then {Entry(id, t.counter)} else {}
    {
      hide *;
      GetterAt(id);
      TestsListed(t, targets, i, done, id);
      panicked, request := false, {};
      var getter := getterById[id];
      matches := MatchesAny(targets[i].select, getter.View().serviceTags, getter.View().channel);
      if matches {
        if id !in done {
          ListingOneMore(t, targets, done, id);
        }
        panicked, request := StartListed(watchCounter - 1, getter, targets[i].payload);
      }
    }

    /** `StartChannelWatch` for a registered getter, as seen in the table. */
    method StartListed(key: Key, getter: GetterData, payload: Exactly<Value>) returns (panicked: bool, request: set<Entry>)
      requires GettersApart() && getter.id in getterById && getterById[getter.id] == getter && getter.adapter in adapterById
      modifies getter`watchers
      ensures panicked <==> key in old(getter.watchers)
      ensures request == if panicked || payload.Never? then {} else {Entry(getter.id, key)}
      ensures getter.id in old(Watches()).getters
      ensures var t := old(Watches());
        var g := t.getters[getter.id];
        Watches() == t.(getters := t.getters[getter.id := g.(watchers := g.watchers + {key})])
    {
      panicked, request := StartChannelWatch(key, getter, payload);
      OneGetterChanged(getter.id);
    }

    lemma TestsListed(t: Table, targets: seq<Target>, i: nat, done: set<Id>, id: Id)
      requires Watches() == Listing(t, targets, done) && id in getterById && id in t.getters && i < |targets|
      requires t.counter !in t.getters[id].watchers
      ensures id in Selected(t, targets[i].select) <==>
              MatchesAny(targets[i].select, getterById[id].View().serviceTags, getterById[id].View().channel)
      ensures t.counter in getterById[id].watchers <==> id in done
    {
      hide MatchesAny, Listing;
      WatchesShow(id);
      ListingShows(t, targets, done, id);
    }

    /** The guard of a watch is dropped: its flag is set at once, the rest is left to `StopWatch`. */
    method DropGuard(key: Key)
      requires Valid() && key in watchers
      modifies watchers.Values
      ensures Valid()
      ensures key in old(Watches()).watchers && Watches() == Dropped(old(Watches()), key)
    {
      hide Agree;
      watchers[key].isDropped := true;
      WatcherDropped(key);
      assert Valid();
    }

    twostate lemma WatcherDropped(key: Key)
      requires getterById == old(getterById) && watchers == old(watchers) && watchCounter == old(watchCounter)
      requires GetterTable(getterById) == old(GetterTable(getterById)) && key in watchers
      requires forall k :: k in watchers && k != key ==> watchers[k].View() == old(watchers[k].View())
      requires watchers[key].View() == old(watchers[key].View()).(dropped := true)
      ensures key in old(Watches()).watchers && Watches() == Dropped(old(Watches()), key)
    {
    }

    /** The release of a dropped watch: it leaves the map and the lists of the getters it has guards for. */
    method StopWatch(key: Key)
      requires Valid() && (key in watchers ==> watchers[key].isDropped)
      modifies this`watchers, getterById.Values
      ensures Valid()
      ensures Watches() == Stopped(old(Watches()), key)
    {
      hide *;
      ValidMeans();
      ghost var x := Indexes();
      GettersAreNamed(x);
      if key !in watchers {
        StoppedNone(key);
        return;
      }
      assert watchers[key].isDropped;
      RemoveWatcher(key);
      assert Indexes() == x;
      assert Named();
      ValidMeans();
    }

    /** Take a watcher out of the map and out of the lists of the getters it has guards for. */
    method RemoveWatcher(key: Key)
      requires Named() && GettersNamed() && key in watchers
      modifies this`watchers, getterById.Values
      ensures Named() && Watches() == Stopped(old(Watches()), key)
    {
      hide *;
      var watcher := watchers[key];
      ghost var t := Watches();
      StoppedSome(key);
      WatchKeys();
      watchers := watchers - {key};
      WatcherGone(key);
      UnlistedNone(t, key);
      UnlistAll(watcher.guards.Keys, key, t);
    }

    lemma StoppedNone(key: Key)
      requires key !in watchers
      ensures Watches() == Stopped(Watches(), key)
    {
    }

    lemma StoppedSome(key: Key)
      requires key in watchers
      ensures Stopped(Watches(), key)
           == Table(Unlisted(Watches(), watchers[key].guards.Keys, key), Watches().watchers - {key}, Watches().counter)
    {
    }

    twostate lemma WatcherGone(key: Key)
      requires old(Named()) && adapterById == old(adapterById) && getterById == old(getterById)
      requires watchers == old(watchers) - {key} && watchCounter == old(watchCounter)
      requires GetterTable(getterById) == old(GetterTable(getterById))
      requires forall k :: k in watchers ==> watchers[k].View() == old(watchers[k].View())
      ensures Named()
      ensures Watches() == Table(old(Watches()).getters, old(Watches()).watchers - {key}, old(Watches()).counter)
    {
      assert WatcherTable(watchers) == old(WatcherTable(watchers)) - {key};
    }

    /** Take a watcher out of the lists of these getters; those that are gone are passed over. */
    method UnlistAll(ids: set<Id>, key: Key, ghost t: Table)
      requires GettersNamed() && t.getters.Keys == getterById.Keys
      requires Watches().getters == Unlisted(t, {}, key)
      modifies getterById.Values
      ensures Watches() == Table(Unlisted(t, ids, key), old(Watches()).watchers, old(Watches()).counter)
    {
      hide *;
      var todo := ids;
      ghost var before := Watches();
      assert ids - todo == {};
      while todo != {}
        invariant todo <= ids
        invariant Watches() == Table(Unlisted(t, ids - todo, key), before.watchers, before.counter)
      {
        var id :| id in todo;
        OneLessToDo(ids, todo, id);
        UnlistedOneMore(t, ids - todo, id, key);
        todo := todo - {id};
        if id in getterById {
          GetterAt(id);
          UnlistOne(getterById[id], key);
        }
      }
      assert ids - todo == ids;
    }

    method UnlistOne(getter: GetterData, key: Key)
      requires GettersApart() && getter.id in getterById && getterById[getter.id] == getter
      modifies getter`watchers
      ensures getter.id in old(Watches()).getters
      ensures var t := old(Watches());
        var g := t.getters[getter.id];
        Watches() == t.(getters := t.getters[getter.id := g.(watchers := g.watchers - {key})])
    {
      getter.watchers := getter.watchers - {key};
      OneGetterChanged(getter.id);
    }

    // -------------------------------------------------------------- the worker's registrations

    /** Register the entries of a request. Adapters accept them, and the guards are kept, or turn them down,
        and the listeners are told; `refused` says what they turn down. Entries of watchers that are gone or
        dropped are passed over. */
    method RegisterWatches(request: set<Entry>, refused: set<Entry>) returns (ghost serving: Serving)
      requires Valid()
      modifies watchers.Values
      ensures Valid()
      ensures serving.refused == refused && Serves(serving, request) && Watches() == Served(old(Watches()), serving)
    {
      hide *;
      ValidMeans();
      ghost var order := RegisterAll(request, refused);
      serving := Serving(order, refused);
      ServedMeans(old(Watches()), serving);
      assert Valid();
    }

    method RegisterAll(request: set<Entry>, refused: set<Entry>) returns (ghost order: seq<Entry>)
      requires Named()
      modifies watchers.Values
      ensures Distinct(order) && SetOf(order) == request
      ensures Watches() == RegisteredAll(old(Watches()), order, refused)
    {
      hide *;
      ghost var t := Watches();
      NothingServed(t, refused);
      order := [];
      var todo := request;
      assert request - todo == {};
      while todo != {}
        invariant todo <= request
        invariant Distinct(order) && SetOf(order) == request - todo
        invariant Watches() == RegisteredAll(t, order, refused)
      {
        var entry :| entry in todo;
        assert request - (todo - {entry}) == (request - todo) + {entry} && entry !in request - todo;
        OrderOneMore(order, entry);
        RegisteredOneMore(t, order, refused, entry);
        todo := todo - {entry};
        order := order + [entry];
        RegisterOne(entry, entry in refused);
      }
      assert request - todo == request;
    }

    method RegisterOne(entry: Entry, turnedDown: bool)
      requires Named()
      modifies watchers.Values
      ensures Watches() == Registered(old(Watches()), entry, turnedDown)
    {
      if entry.key !in watchers {
        return;
      }
      var watcher := watchers[entry.key];
      if watcher.isDropped {
        return;
      }
      if turnedDown {
        watcher.events := watcher.events + [InitializationError(entry.id)];
      } else {
        watcher.PushGuard(entry.id);
      }
      WatcherAnswered(entry, turnedDown);
    }

    twostate lemma WatcherAnswered(entry: Entry, new turnedDown: bool)
      requires getterById == old(getterById) && watchers == old(watchers) && watchCounter == old(watchCounter)
      requires GetterTable(getterById) == old(GetterTable(getterById))
      requires entry.key in watchers && !old(watchers[entry.key].isDropped)
      requires forall k :: k in watchers && k != entry.key ==> watchers[k].View() == old(watchers[k].View())
      requires watchers[entry.key].View() == Answered(old(watchers[entry.key].View()), entry.id, turnedDown)
      ensures Watches() == Registered(old(Watches()), entry, turnedDown)
    {
    }

    // -------------------------------------------------------------- tags of services

    /** Every getter's tag cell is that of its service, and no other service's. */
    ghost predicate CellsShared()
      reads this`getterById, this`serviceById
    {
      && (forall g :: g in getterById ==> getterById[g].service in serviceById
                                          && getterById[g].serviceTags == serviceById[getterById[g].service].tags)
      && forall s, s' :: s in serviceById && s' in serviceById && s != s' ==> serviceById[s].tags != serviceById[s'].tags
    }

    lemma CellsAreShared(x: Index)
      requires Agree(x) && x.getters == getterById && x.services == serviceById
      ensures CellsShared()
    {
    }

    ghost function ServiceViews(): map<Id, ServiceLike>
      reads this`serviceById, serviceById.Values, (set s | s in serviceById :: serviceById[s].tags)
      reads set s, g | s in serviceById && g in serviceById[s].getters :: serviceById[s].getters[g]
      reads set s, g | s in serviceById && g in serviceById[s].setters :: serviceById[s].setters[g]
    {
      map s | s in serviceById :: serviceById[s].View()
    }

    lemma ServiceViewKeys()
      ensures ServiceViews().Keys == serviceById.Keys
      ensures forall s :: s in serviceById ==> ServiceViews()[s] == serviceById[s].View()
    {
    }

    /** Add tags to the services that some selector selects, or to all if there is none; or remove them. Every
        getter of these services sees the change through the cell it shares; no watcher is looked at. */
    method RetagServices(sels: seq<ServiceSelector>, tags: set<Id>, add: bool) returns (result: nat)
      requires Valid()
      modifies set s | s in serviceById :: serviceById[s].tags
      ensures Valid()
      ensures var chosen := ChosenServices(old(ServiceViews()), sels);
        && result == |chosen|
        && ServiceViews() == RetaggedViews(old(ServiceViews()), chosen, tags, add)
        && Watches() == ServicesRetagged(old(Watches()), chosen, tags, add)
        && forall s :: s in serviceById ==>
             if s in chosen then TagsChanged(old(serviceById[s].tags.tags), serviceById[s].tags.tags, tags, add)
             else serviceById[s].tags.tags == old(serviceById[s].tags.tags)
    {
      hide *;
      ValidMeans();
      CellsAreShared(Indexes());
      ghost var (views, chosen) := (ServiceViews(), ChosenServices(ServiceViews(), sels));
      CellViews();
      result := RetagAll(sels, tags, add);
      CellViews();
      RetaggedCells(views, chosen, tags, add);
      assert Valid();
    }

    lemma CellViews()
      ensures ServiceViews().Keys == serviceById.Keys
      ensures forall s :: s in serviceById ==> ServiceViews()[s].tags == serviceById[s].tags.tags
    {
    }

    method RetagAll(sels: seq<ServiceSelector>, tags: set<Id>, add: bool) returns (result: nat)
      requires CellsShared()
      modifies set s | s in serviceById :: serviceById[s].tags
      ensures var chosen := ChosenServices(old(ServiceViews()), sels);
        && result == |chosen|
        && ServiceViews() == RetaggedViews(old(ServiceViews()), chosen, tags, add)
        && Watches() == ServicesRetagged(old(Watches()), chosen, tags, add)
    {
      hide *;
      ghost var t := Watches();
      ghost var views := ServiceViews();
      ghost var chosen := ChosenServices(views, sels);
      ghost var seen: seq<Id> := [];
      NothingSelected();
      RetaggedNone(t, tags, add);
      ServiceViewKeys();
      NoneRetagged(views, sels, tags, add);
      var todo := serviceById.Keys;
      result := 0;
      assert chosen - todo == {};
      while todo != {}
        invariant todo <= serviceById.Keys
        invariant Watches() == ServicesRetagged(t, chosen - todo, tags, add)
        invariant ServiceViews() == RetaggedViews(views, chosen - todo, tags, add)
        invariant Distinct(seen) && SetOf(seen) == chosen - todo && result == |seen|
      {
        var s :| s in todo;
        OneLessToDo(chosen, todo, s);
        var matches := RetagOne(s, sels, tags, add, t, views, chosen - todo);
        todo := todo - {s};
        if matches {
          OrderOneMore(seen, s);
          seen := seen + [s];
          result := result + 1;
        }
      }
      assert chosen - todo == chosen;
      DistinctCounts(seen);
    }

    /** Look at one service, and change its tags if it is selected. */
    method RetagOne(s: Id, sels: seq<ServiceSelector>, tags: set<Id>, add: bool,
                    ghost t: Table, ghost views: map<Id, ServiceLike>, ghost done: set<Id>) returns (matches: bool)
      requires CellsShared() && s in serviceById && s in views && s !in done
      requires Watches() == ServicesRetagged(t, done, tags, add) && ServiceViews() == RetaggedViews(views, done, tags, add)
      modifies serviceById[s].tags
      ensures matches <==> s in ChosenServices(views, sels)
      ensures var after := done + if matches then {s} else {};
        Watches() == ServicesRetagged(t, after, tags, add) && ServiceViews() == RetaggedViews(views, after, tags, add)
    {
      hide *;
      ServiceViewKeys();
      TestsService(views, sels, done, s, tags, add);
      RetaggedOneMore(t, done, s, tags, add);
      matches := ServiceSelected(sels, serviceById[s].View());
      if matches {
        ChangeCell(s, tags, add);
      } else {
        assert done + {} == done;
      }
    }

    /** Change the tags in the cell of one service. */
    method ChangeCell(s: Id, tags: set<Id>, add: bool)
      requires CellsShared() && s in serviceById
      modifies serviceById[s].tags
      ensures Watches() == ServicesRetagged(old(Watches()), {s}, tags, add)
      ensures ServiceViews() == RetaggedViews(old(ServiceViews()), {s}, tags, add)
    {
      hide *;
      var cell := serviceById[s].tags;
      CellIsOwn(s);
      cell.tags := NewTags(cell.tags, tags, add);
      CellSeen(s, tags, add);
      serviceById[s].OnlyTagsChanged();
      CellShown(s, tags, add);
    }

    lemma CellIsOwn(s: Id)
      requires CellsShared() && s in serviceById
      ensures forall s' :: s' in serviceById && s' != s ==> serviceById[s'].tags != serviceById[s].tags
    {
    }

    /** The getters of the service see the change of its cell. */
    twostate lemma CellSeen(s: Id, new tags: set<Id>, new add: bool)
      requires CellsShared() && s in serviceById && serviceById == old(serviceById) && getterById == old(getterById)
      requires serviceById[s].tags.tags == NewTags(old(serviceById[s].tags.tags), tags, add)
      requires forall s' :: s' in serviceById && s' != s ==> serviceById[s'].tags.tags == old(serviceById[s'].tags.tags)
      requires forall g :: g in getterById ==>
                 getterById[g].tags == old(getterById[g].tags) && getterById[g].watchers == old(getterById[g].watchers)
      requires watchers == old(watchers) && watchCounter == old(watchCounter)
      requires WatcherTable(watchers) == old(WatcherTable(watchers))
      ensures Watches() == ServicesRetagged(old(Watches()), {s}, tags, add)
    {
      var (t, t') := (old(Watches()), Watches());
      forall g | g in getterById
        ensures t'.getters[g] == ServicesRetagged(t, {s}, tags, add).getters[g]
      {
        assert getterById[g].serviceTags == serviceById[getterById[g].service].tags;
      }
    }

    /** The service shows the change of its cell, and no other service does. */
    twostate lemma CellShown(s: Id, new tags: set<Id>, new add: bool)
      requires s in serviceById && serviceById == old(serviceById)
      requires forall s' :: s' in serviceById && s' != s ==> serviceById[s'].View() == old(serviceById[s'].View())
      requires serviceById[s].View() == old(serviceById[s].View()).(tags := serviceById[s].tags.tags)
      requires serviceById[s].tags.tags == NewTags(old(serviceById[s].View()).tags, tags, add)
      ensures ServiceViews() == RetaggedViews(old(ServiceViews()), {s}, tags, add)
    {
    }

    // -------------------------------------------------------------- requests to adapters

    ghost function SetterViews(): map<Id, View>
      reads this`setterById, setterById.Values, set id | id in setterById :: setterById[id].serviceTags
    {
      map id | id in setterById :: setterById[id].View()
    }

    ghost function GetterViews(): map<Id, View>
      reads this`getterById, getterById.Values, set id | id in getterById :: getterById[id].serviceTags
    {
      map id | id in getterById :: getterById[id].View()
    }

    /** Group by adapter what to send to the setters that the targets address. */
    method PrepareSendValues(keyvalues: seq<Targetted<Value>>) returns (perAdapter: SendRequest)
      requires Valid()
      ensures perAdapter == SendSpec(SetterViews(), keyvalues)
    {
      hide *;
      ghost var views := SetterViews();
      SetterViewKeys();
      perAdapter := map[];
      ghost var seen := AllSaw(views, []);
      NothingSent(views);
      for i := 0 to |keyvalues|
        invariant perAdapter == SendSpec(views, keyvalues[..i])
      {
        assert keyvalues[..i + 1] == keyvalues[..i] + [keyvalues[i]];
        perAdapter := SendOne(keyvalues[i], perAdapter, keyvalues[..i]);
      }
      assert keyvalues[..|keyvalues|] == keyvalues;
    }

    lemma SetterViewKeys()
      ensures SetterViews().Keys == setterById.Keys
      ensures forall id :: id in setterById ==> SetterViews()[id] == setterById[id].View()
    {
    }

    lemma GetterViewKeys()
      ensures GetterViews().Keys == getterById.Keys
      ensures forall id :: id in getterById ==> GetterViews()[id] == getterById[id].View()
    {
    }

    /** One target: every setter it selects gets the value, or a type error. */
    method SendOne(t: Targetted<Value>, before: SendRequest, ghost sent: seq<Targetted<Value>>) returns (perAdapter: SendRequest)
      requires Valid() && before == SendSpec(SetterViews(), sent)
      ensures perAdapter == SendSpec(SetterViews(), sent + [t])
    {
      hide *;
      ValidMeans();
      ghost var views := SetterViews();
      SetterViewKeys();
      perAdapter := before;
      ghost var seen := AllSaw(views, sent);
      SpecIsOf(views, sent);
      var todo := setterById.Keys;
      while todo != {}
        invariant todo <= setterById.Keys && seen.Keys == views.Keys
        invariant forall id :: id in views ==> seen[id] == if id in todo then sent else sent + [t]
        invariant perAdapter == SendOf(views, seen)
      {
        var id :| id in todo;
        SendStep(views, seen, id, t);
        SetterIsTyped(id, t);
        todo := todo - {id};
        var setter := setterById[id];
        if MatchesAny(t.select, setter.View().serviceTags, setter.View().channel) {
          SetterAt(Indexes(), id);
          perAdapter := EnterSend(perAdapter, setter, t.payload);
        }
        seen := seen[id := seen[id] + [t]];
      }
      SawOneMore(views, sent, t, seen);
      SpecIsOf(views, sent + [t]);
    }

    lemma SetterAt(x: Index, id: Id)
      requires Agree(x) && x.setters == setterById && x.adapters.Keys == adapterById.Keys && id in setterById
      ensures setterById[id].id == id && setterById[id].adapter in adapterById
    {
    }

    lemma SetterIsTyped(id: Id, t: Targetted<Value>)
      requires id in setterById
      ensures SetterViews().Keys == setterById.Keys
      ensures SetterViews()[id].SelectedBy(t.select)
         <==> MatchesAny(t.select, setterById[id].View().serviceTags, setterById[id].View().channel)
    {
    }

    /** Enter one checked value under the setter's adapter, which is looked up when it is new. */
    method EnterSend(acc: SendRequest, setter: SetterData, value: Value) returns (perAdapter: SendRequest)
      requires setter.adapter in adapterById
      ensures perAdapter == AddSend(acc, setter.id, setter.View(), value)
    {
      var typ := KindType(setter.kind);
      var (request, failures) := (map[], map[]);
      if setter.adapter in acc {
        request, failures := acc[setter.adapter].request, acc[setter.adapter].failures;
      } else {
        assert setter.adapter in adapterById;
      }
      if TypeOf(value) == typ {
        request := request[setter.id := value];
      } else {
        failures := failures[setter.id := TypeFailure(typ, TypeOf(value))];
      }
      return acc[setter.adapter := Send(request, failures)];
    }

    /** Group by adapter the getters that the selectors select, with their types. */
    method PrepareFetchValues(sels: seq<Selector>) returns (perAdapter: FetchRequest)
      requires Valid()
      ensures perAdapter == FetchSpec(GetterViews(), sels, GetterViews().Keys)
    {
      hide *;
      ValidMeans();
      GettersAreNamed(Indexes());
      ghost var views := GetterViews();
      GetterViewKeys();
      perAdapter := map[];
      NothingFetched(views, sels);
      var todo := getterById.Keys;
      assert views.Keys - todo == {};
      while todo != {}
        invariant todo <= getterById.Keys
        invariant perAdapter == FetchSpec(views, sels, views.Keys - todo)
      {
        var id :| id in todo;
        GetterAt(id);
        OneLessToDo(views.Keys, todo, id);
        FetchStep(views, sels, views.Keys - todo, id);
        GetterIsSelected(id, sels);
        todo := todo - {id};
        var getter := getterById[id];
        if MatchesAny(sels, getter.View().serviceTags, getter.View().channel) {
          perAdapter := EnterFetch(perAdapter, getter);
        }
      }
      assert views.Keys - todo == views.Keys;
    }

    lemma GetterIsSelected(id: Id, sels: seq<Selector>)
      requires id in getterById
      ensures GetterViews().Keys == getterById.Keys
      ensures GetterViews()[id].SelectedBy(sels)
         <==> MatchesAny(sels, getterById[id].View().serviceTags, getterById[id].View().channel)
    {
    }

    method EnterFetch(acc: FetchRequest, getter: GetterData) returns (perAdapter: FetchRequest)
      requires getter.adapter in adapterById
      ensures perAdapter == AddFetch(acc, getter.id, getter.View())
    {
      var typ := KindType(getter.kind);
      if getter.adapter in acc {
        return acc[getter.adapter := acc[getter.adapter][getter.id := typ]];
      }
      assert getter.adapter in adapterById;
      return acc[getter.adapter := map[getter.id := typ]];
    }
  }

  lemma NothingSent(views: map<Id, View>)
    ensures SendSpec(views, []) == map[]
  {
  }

  lemma SpecIsOf(views: map<Id, View>, ts: seq<Targetted<Value>>)
    ensures SendSpec(views, ts) == SendOf(views, AllSaw(views, ts))
    ensures forall id :: id in views ==> AllSaw(views, ts)[id] == ts
  {
  }

  lemma SawOneMore(views: map<Id, View>, sent: seq<Targetted<Value>>, t: Targetted<Value>, seen: Seen)
    requires seen.Keys == views.Keys && forall id :: id in views ==> seen[id] == sent + [t]
    ensures seen == AllSaw(views, sent + [t])
  {
  }

  lemma NothingFetched(views: map<Id, View>, sels: seq<Selector>)
    ensures FetchSpec(views, sels, {}) == map[]
  {
  }

  lemma ListingOfNone(t: Table, targets: seq<Target>)
    ensures Listing(t, targets, {})
         == Table(t.getters, t.watchers[t.counter := Watcher(targets, false, {}, [], Selected(t, AllSelectors(targets)))],
                  t.counter + 1)
  {
  }

  lemma PreparedIsListing(t: Table, targets: seq<Target>)
    ensures Prepared(t, targets) == Listing(t, targets, Selected(t, AllSelectors(targets)))
    ensures WatchAsks(t, targets) == EntriesFor(RangedIn(t, targets), t.counter)
  {
  }

  lemma OneEntryFor(id: Id, key: Key)
    ensures EntriesFor({id}, key) == {Entry(id, key)}
  {
  }

  lemma EntriesForBoth(a: set<Id>, b: set<Id>, key: Key)
    ensures EntriesFor(a + b, key) == EntriesFor(a, key) + EntriesFor(b, key) && EntriesFor({}, key) == {}
  {
  }

  /** What a registered getter shows of a new watch that is being listed. */
  lemma ListingShows(t: Table, targets: seq<Target>, done: set<Id>, id: Id)
    requires id in t.getters && t.counter !in t.getters[id].watchers
    ensures id in Listing(t, targets, done).getters
    ensures Listing(t, targets, done).getters[id].view == t.getters[id].view
    ensures t.counter in Listing(t, targets, done).getters[id].watchers <==> id in done
  {
  }

  lemma SelectedIn(t: Table, sels: seq<Selector>)
    ensures Selected(t, sels) <= t.getters.Keys
  {
  }

  lemma OneLessToDo(ids: set<Id>, todo: set<Id>, id: Id)
    requires id in todo
    ensures ids - (todo - {id}) == ids - todo + if id in ids then {id} else {}
    ensures id !in ids - todo
  {
  }

  lemma NothingSelected()
    ensures SetOf<Id>([]) == {} && Distinct<Id>([])
  {
  }

  lemma ChangedAreKnown(t: Table, ids: set<Id>, tags: set<Id>, order: seq<Id>)
    requires SetOf(order) == Changed(t, ids, tags)
    ensures KnownGetters(t, order)
  {
    forall i | 0 <= i < |order|
      ensures order[i] in t.getters
    {
      assert order[i] in SetOf(order);
    }
  }

  lemma FoldsOfNone(t: Table)
    ensures KnownGetters(t, []) && ConnectedAll(t, []) == t && AskedAll(t, []) == {}
    ensures Distinct<Id>([]) && SetOf<Id>([]) == {} && forall tags :: TagsRemoved(t, tags, []) == t
    ensures !SomeClash(t, [])
  {
  }

  lemma NothingServed(t: Table, refused: set<Entry>)
    ensures RegisteredAll(t, [], refused) == t && Distinct<Entry>([]) && SetOf<Entry>([]) == {}
  {
  }

  lemma ServedMeans(t: Table, serving: Serving)
    ensures Served(t, serving) == RegisteredAll(t, serving.order, serving.refused)
    ensures forall request :: Distinct(serving.order) && SetOf(serving.order) == request ==> Serves(serving, request)
  {
  }

  /** The services among `ids` have their tags changed. */
  function RetaggedViews(views: map<Id, ServiceLike>, ids: set<Id>, tags: set<Id>, add: bool): map<Id, ServiceLike> {
    map s | s in views ::
      if s in ids then views[s].(tags := NewTags(views[s].tags, tags, add)) else views[s]
  }

  lemma RetaggedCells(views: map<Id, ServiceLike>, ids: set<Id>, tags: set<Id>, add: bool)
    ensures var now := RetaggedViews(views, ids, tags, add);
      now.Keys == views.Keys
      && forall s :: s in views ==>
           if s in ids then TagsChanged(views[s].tags, now[s].tags, tags, add) else now[s].tags == views[s].tags
  {
  }

  lemma NoneRetagged(views: map<Id, ServiceLike>, sels: seq<ServiceSelector>, tags: set<Id>, add: bool)
    ensures RetaggedViews(views, {}, tags, add) == views && ChosenServices(views, sels) <= views.Keys
  {
  }

  /** Changing the tags of other services does not change whether this one is selected. */
  lemma TestsService(views: map<Id, ServiceLike>, sels: seq<ServiceSelector>, done: set<Id>, s: Id, tags: set<Id>, add: bool)
    requires s in views && s !in done
    ensures var now := RetaggedViews(views, done, tags, add);
      && s in now && (s in ChosenServices(views, sels) <==> ServiceSelected(sels, now[s]))
      && RetaggedViews(views, done + {s}, tags, add) == RetaggedViews(now, {s}, tags, add)
  {
  }

  lemma TaggedKnows(t: Table, ids: set<Id>, tags: set<Id>, order: seq<Id>)
    requires KnownGetters(t, order)
    ensures KnownGetters(Tagged(t, ids, tags), order)
  {
  }

  lemma HitNone(v: View)
    ensures HitCount([], v) == 0 && !Ranged([], v)
  {
  }

  lemma ViewSelected(v: View, sels: seq<Selector>)
    ensures v.SelectedBy(sels) <==> MatchesAny(sels, v.serviceTags, v.channel)
  {
  }

  /** None of these watchers is in the list, or has several targets that select the channel. */
  ghost predicate NoneClash(watchers: map<Key, Watcher>, keys: set<Key>, listed: set<Key>, v: View) {
    forall k :: k in keys && k in watchers ==> k !in listed && HitCount(watchers[k].targets, v) <= 1
  }

  lemma ClashMeans(t: Table, id: Id)
    requires id in t.getters
    ensures Clashes(t, id) <==> !NoneClash(t.watchers, Joins(t, id), t.getters[id].watchers, t.getters[id].view)
  {
    if !NoneClash(t.watchers, Joins(t, id), t.getters[id].watchers, t.getters[id].view) {
      var k :| k in Joins(t, id) && k in t.watchers
               && !(k !in t.getters[id].watchers && HitCount(t.watchers[k].targets, t.getters[id].view) <= 1);
      assert IsClash(t, id, k);
    }
  }

  lemma JoinStep(watchers: map<Key, Watcher>, joins: set<Key>, done: set<Key>, k: Key, listed: set<Key>, v: View, id: Id)
    requires k in watchers
    ensures NoneClash(watchers, done + {k}, listed, v) <==>
            NoneClash(watchers, done, listed, v) && k !in listed && HitCount(watchers[k].targets, v) <= 1
    ensures k in joins && !(k !in listed && HitCount(watchers[k].targets, v) <= 1) ==> !NoneClash(watchers, joins, listed, v)
    ensures EntriesOf(id, RangedOf(watchers, done + {k}, v))
         == EntriesOf(id, RangedOf(watchers, done, v)) + if Ranged(watchers[k].targets, v) then {Entry(id, k)} else {}
    ensures Ranged(watchers[k].targets, v) ==> HitCount(watchers[k].targets, v) > 0
  {
    HitsSelect(watchers[k].targets, v);
    assert RangedOf(watchers, done + {k}, v) == RangedOf(watchers, done, v) + if Ranged(watchers[k].targets, v) then {k} else {};
    OneMoreEntry(id, RangedOf(watchers, done, v), k);
  }

  lemma NoneTold(watchers: map<Key, Watcher>, id: Id, event: WatchEvent, listed: set<Key>, v: View)
    ensures Told(watchers, {}, event) == watchers && EntriesOf(id, RangedOf(watchers, {}, v)) == {}
    ensures NoneClash(watchers, {}, listed, v)
  {
  }

  lemma NoneLeft(watchers: map<Key, Watcher>, id: Id)
    ensures Unguarded(Told(watchers, {}, GetterRemoved(id)), {}, id) == watchers
  {
  }

  lemma OneMoreEntry(id: Id, keys: set<Key>, k: Key)
    ensures EntriesOf(id, keys + {k}) == EntriesOf(id, keys) + {Entry(id, k)}
  {
  }

  lemma GetterFitsMeans(g: GetterData, x: Index)
    requires Agree(x) && GetterFits(g, g.id, x.services)
    ensures g.service in x.services && g.service in x.serviceGetters
    ensures g.id !in x.getters ==> g.id !in x.serviceGetters[g.service]
  {
  }

  lemma SetterFitsMeans(g: SetterData, x: Index)
    requires Agree(x) && SetterFits(g, g.id, x.services)
    ensures g.service in x.services && g.service in x.serviceSetters
    ensures g.id !in x.setters ==> g.id !in x.serviceSetters[g.service]
  {
  }

  /** The getters of some services. */
  function GettersUnder(x: Index, services: set<Id>): set<Id> {
    InParts(x.getters, GetterParent(x.getters), services)
  }

  lemma GettersUnderMeans(x: Index, services: set<Id>)
    ensures GettersUnder(x, services) == InParts(x.getters, GetterParent(x.getters), services)
  {
  }

  lemma OneMoreGone(x: Index, adapter: Id, gone: set<Id>, s: Id)
    requires Agree(x) && adapter in x.adapters && s in x.adapters[adapter]
    ensures s in x.services && s in x.serviceGetters && s in x.serviceSetters
    ensures x.services - gone - {s} == x.services - (gone + {s})
    ensures x.getters - InParts(x.getters, GetterParent(x.getters), gone) - x.serviceGetters[s].Keys
         == x.getters - InParts(x.getters, GetterParent(x.getters), gone + {s})
    ensures x.setters - InParts(x.setters, SetterParent(x.setters), gone) - x.serviceSetters[s].Keys
         == x.setters - InParts(x.setters, SetterParent(x.setters), gone + {s})
  {
    hide *;
    AdapterKnows(x, adapter, s);
    ChannelsOfService(x, s);
    InPartsUnion(x.getters, GetterParent(x.getters), gone, {s});
    InPartsUnion(x.setters, SetterParent(x.setters), gone, {s});
  }

  lemma NoneInParts(x: Index)
    ensures InParts(x.getters, GetterParent(x.getters), {}) == {}
    ensures InParts(x.setters, SetterParent(x.setters), {}) == {}
  {
  }

  method RemoveAll<T>(m: map<Id, T>, keys: set<Id>) returns (r: map<Id, T>)
    ensures r == m - keys
  {
    r := m;
    var todo := keys;
    while todo != {}
      invariant todo <= keys && r == m - (keys - todo)
    {
      var k :| k in todo;
      r := r - {k};
      todo := todo - {k};
    }
  }
}
