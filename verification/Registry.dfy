/** The four indexes of the device registry and what must agree between them
    (components/taxonomy/src/backend.rs). The indexes hold shared objects; here they are looked at as maps
    of references. */
module Registry {
  import opened Services
  import opened Selectors
  import opened Watching
  import opened Requests

  // ---------------------------------------------------------------- the objects

  /** The tags of a service, in a cell that the service shares with its channels. */
  class TagCell {
    var tags: set<Id>

    constructor (tags: set<Id>)
      ensures this.tags == tags
    {
      this.tags := tags;
    }
  }

  /** A getter. `watchers` are the keys of the watchers that it lists. */
  class GetterData {
    const id: Id
    const service: Id
    const adapter: Id
    const kind: ChannelKind
    const serviceTags: TagCell
    var tags: set<Id>
    var watchers: set<Key>

    constructor (channel: Channel, serviceTags: TagCell)
      ensures id == channel.id && service == channel.service && adapter == channel.adapter && kind == channel.kind
      ensures tags == channel.tags && this.serviceTags == serviceTags && watchers == {}
    {
      id, service, adapter, kind := channel.id, channel.service, channel.adapter, channel.kind;
      tags, watchers := channel.tags, {};
      this.serviceTags := serviceTags;
    }

    function AsChannel(): Channel
      reads this`tags
    {
      Channel(id, service, adapter, kind, tags)
    }

    function View(): View
      reads this`tags, serviceTags
    {
      Requests.View(AsChannel(), serviceTags.tags)
    }
  }

  class SetterData {
    const id: Id
    const service: Id
    const adapter: Id
    const kind: ChannelKind
    const serviceTags: TagCell
    var tags: set<Id>

    constructor (channel: Channel, serviceTags: TagCell)
      ensures id == channel.id && service == channel.service && adapter == channel.adapter && kind == channel.kind
      ensures tags == channel.tags && this.serviceTags == serviceTags
    {
      id, service, adapter, kind := channel.id, channel.service, channel.adapter, channel.kind;
      tags := channel.tags;
      this.serviceTags := serviceTags;
    }

    function AsChannel(): Channel
      reads this`tags
    {
      Channel(id, service, adapter, kind, tags)
    }

    function View(): View
      reads this`tags, serviceTags
    {
      Requests.View(AsChannel(), serviceTags.tags)
    }
  }

  class ServiceData {
    const id: Id
    const adapter: Id
    const tags: TagCell
    var getters: map<Id, GetterData>
    var setters: map<Id, SetterData>

    constructor (id: Id, adapter: Id, tags: set<Id>)
      ensures this.id == id && this.adapter == adapter && fresh(this.tags) && this.tags.tags == tags
      ensures getters == map[] && setters == map[]
    {
      this.id, this.adapter := id, adapter;
      this.tags := new TagCell(tags);
      getters, setters := map[], map[];
    }

    function View(): ServiceLike
      reads this, tags, getters.Values, setters.Values
    {
      ServiceLike(id, tags.tags, set g | g in getters :: getters[g].AsChannel(), set g | g in setters :: setters[g].AsChannel())
    }

    twostate lemma OnlyTagsChanged()
      requires getters == old(getters) && setters == old(setters)
      requires forall g :: g in getters ==> getters[g].AsChannel() == old(getters[g].AsChannel())
      requires forall g :: g in setters ==> setters[g].AsChannel() == old(setters[g].AsChannel())
      ensures View() == old(View()).(tags := tags.tags) && old(View()).tags == old(tags.tags)
    {
    }
  }

  class AdapterData {
    const id: Id
    var services: map<Id, ServiceData>

    constructor (id: Id)
      ensures this.id == id && services == map[]
    {
      this.id := id;
      services := map[];
    }
  }

  // ---------------------------------------------------------------- one level of nesting

  /** `whole` is the disjoint union of the `parts`: the same objects, each in the part of its parent and in
      no other. */
  ghost predicate Nested<T>(parts: map<Id, map<Id, T>>, whole: map<Id, T>, parent: map<Id, Id>) {
    && parent.Keys == whole.Keys
    && (forall c :: c in whole ==> parent[c] in parts && c in parts[parent[c]])
    && (forall p, c :: p in parts && c in parts[p] ==> c in whole && parent[c] == p && whole[c] == parts[p][c])
  }

  lemma NestedIsDisjointUnion<T>(parts: map<Id, map<Id, T>>, whole: map<Id, T>, parent: map<Id, Id>)
    requires Nested(parts, whole, parent)
    ensures forall p, q :: p in parts && q in parts && p != q ==> parts[p].Keys !! parts[q].Keys
    ensures forall c :: c in whole <==> exists p :: p in parts && c in parts[p]
    ensures forall p, c :: p in parts && c in parts[p] ==> whole[c] == parts[p][c]
  {
    forall p, q | p in parts && q in parts && p != q
      ensures parts[p].Keys !! parts[q].Keys
    {
      forall c | c in parts[p]
        ensures c !in parts[q]
      {
        assert parent[c] == p;
      }
    }
    forall c | c in whole
      ensures exists p :: p in parts && c in parts[p]
    {
      assert parent[c] in parts;
    }
  }

  function Put<T>(parts: map<Id, map<Id, T>>, p: Id, c: Id, x: T): map<Id, map<Id, T>>
    requires p in parts
  {
    parts[p := parts[p][c := x]]
  }

  function Cut<T>(parts: map<Id, map<Id, T>>, p: Id, c: Id): map<Id, map<Id, T>>
    requires p in parts
  {
    parts[p := parts[p] - {c}]
  }

  lemma NestedPut<T>(parts: map<Id, map<Id, T>>, whole: map<Id, T>, parent: map<Id, Id>, p: Id, c: Id, x: T)
    requires Nested(parts, whole, parent) && p in parts && c !in whole
    ensures Nested(Put(parts, p, c, x), whole[c := x], parent[c := p])
  {
  }

  lemma NestedNewPart<T>(parts: map<Id, map<Id, T>>, whole: map<Id, T>, parent: map<Id, Id>, p: Id)
    requires Nested(parts, whole, parent) && p !in parts
    ensures Nested(parts[p := map[]], whole, parent)
  {
  }

  lemma NestedDropParts<T>(parts: map<Id, map<Id, T>>, whole: map<Id, T>, parent: map<Id, Id>, ps: set<Id>)
    requires Nested(parts, whole, parent)
    ensures var gone := InParts(whole, parent, ps);
      Nested(parts - ps, whole - gone, parent - gone)
  {
  }

  /** The members whose parent is one of `ps`. */
  function InParts<T>(whole: map<Id, T>, parent: map<Id, Id>, ps: set<Id>): set<Id> {
    set c | c in whole && c in parent && parent[c] in ps
  }

  // ---------------------------------------------------------------- the indexes

  datatype Index = Index(
    adapters: map<Id, map<Id, ServiceData>>,
    services: map<Id, ServiceData>,
    serviceGetters: map<Id, map<Id, GetterData>>,
    serviceSetters: map<Id, map<Id, SetterData>>,
    getters: map<Id, GetterData>,
    setters: map<Id, SetterData>)

  function AdapterOf(services: map<Id, ServiceData>): map<Id, Id> {
    map s | s in services :: services[s].adapter
  }

  function GetterParent(getters: map<Id, GetterData>): map<Id, Id> {
    map g | g in getters :: getters[g].service
  }

  function SetterParent(setters: map<Id, SetterData>): map<Id, Id> {
    map g | g in setters :: setters[g].service
  }

  ghost predicate ServicesAgree(adapters: map<Id, map<Id, ServiceData>>, services: map<Id, ServiceData>) {
    && Nested(adapters, services, AdapterOf(services))
    && (forall s :: s in services ==> services[s].id == s)
    && (forall s, s' :: s in services && s' in services && s != s' ==> services[s].tags != services[s'].tags)
  }

  /** A getter names its service and that service's adapter, and shares its tag cell. */
  predicate GetterFits(g: GetterData, id: Id, services: map<Id, ServiceData>) {
    && g.id == id && g.service in services
    && g.adapter == services[g.service].adapter && g.serviceTags == services[g.service].tags
  }

  predicate SetterFits(g: SetterData, id: Id, services: map<Id, ServiceData>) {
    && g.id == id && g.service in services
    && g.adapter == services[g.service].adapter && g.serviceTags == services[g.service].tags
  }

  ghost predicate GettersAgree(parts: map<Id, map<Id, GetterData>>, getters: map<Id, GetterData>,
                               services: map<Id, ServiceData>) {
    && parts.Keys == services.Keys
    && Nested(parts, getters, GetterParent(getters))
    && (forall g :: g in getters ==> GetterFits(getters[g], g, services))
  }

  ghost predicate SettersAgree(parts: map<Id, map<Id, SetterData>>, setters: map<Id, SetterData>,
                               services: map<Id, ServiceData>) {
    && parts.Keys == services.Keys
    && Nested(parts, setters, SetterParent(setters))
    && (forall g :: g in setters ==> SetterFits(setters[g], g, services))
  }

  /** What must agree: services are the disjoint union of the adapters' services, getters and setters those
      of the services' getters and setters, as the same objects; parents, adapters and tag cells fit. */
  ghost predicate Agree(x: Index) {
    && ServicesAgree(x.adapters, x.services)
    && GettersAgree(x.serviceGetters, x.getters, x.services)
    && SettersAgree(x.serviceSetters, x.setters, x.services)
  }

  /** Every channel's adapter is registered, so the branches for a missing one are never taken. */
  lemma AdaptersAreFound(x: Index, g: Id)
    requires Agree(x)
    ensures g in x.getters ==> x.getters[g].adapter in x.adapters
    ensures g in x.setters ==> x.setters[g].adapter in x.adapters
  {
  }

  /** Indexes that agree are determined by the names of the adapters and the three flat maps. */
  lemma FlatMapsDetermine(x: Index, y: Index)
    requires Agree(x) && Agree(y) && x.adapters.Keys == y.adapters.Keys
    requires x.services == y.services && x.getters == y.getters && x.setters == y.setters
    ensures x == y
  {
    SamePartsOf(x.adapters, y.adapters, x.services, AdapterOf(x.services));
    SamePartsOf(x.serviceGetters, y.serviceGetters, x.getters, GetterParent(x.getters));
    SamePartsOf(x.serviceSetters, y.serviceSetters, x.setters, SetterParent(x.setters));
  }

  lemma SamePartsOf<T>(parts: map<Id, map<Id, T>>, parts': map<Id, map<Id, T>>, whole: map<Id, T>, parent: map<Id, Id>)
    requires Nested(parts, whole, parent) && Nested(parts', whole, parent) && parts.Keys == parts'.Keys
    ensures parts == parts'
  {
    forall p | p in parts
      ensures parts[p] == parts'[p]
    {
      assert forall c :: c in parts[p] <==> c in whole && parent[c] == p;
      assert forall c :: c in parts'[p] <==> c in whole && parent[c] == p;
    }
  }

  lemma AdapterKnows(x: Index, a: Id, s: Id)
    requires Agree(x) && a in x.adapters
    ensures s in x.adapters[a] ==> s in x.services
  {
  }

  // ---------------------------------------------------------------- the effect of each call

  function WithAdapter(x: Index, a: Id): Index {
    x.(adapters := x.adapters[a := map[]])
  }

  function WithService(x: Index, s: ServiceData): Index
    requires s.adapter in x.adapters
  {
    x.(adapters := Put(x.adapters, s.adapter, s.id, s), services := x.services[s.id := s],
       serviceGetters := x.serviceGetters[s.id := map[]], serviceSetters := x.serviceSetters[s.id := map[]])
  }

  /** Some services and all their channels are gone. */
  function WithoutServices(x: Index, ss: set<Id>): Index {
    x.(services := x.services - ss, serviceGetters := x.serviceGetters - ss, serviceSetters := x.serviceSetters - ss,
       getters := x.getters - InParts(x.getters, GetterParent(x.getters), ss),
       setters := x.setters - InParts(x.setters, SetterParent(x.setters), ss))
  }

  function WithoutService(x: Index, s: Id): Index
    requires s in x.services && x.services[s].adapter in x.adapters
  {
    WithoutServices(x, {s}).(adapters := Cut(x.adapters, x.services[s].adapter, s))
  }

  function WithoutAdapter(x: Index, a: Id): Index
    requires a in x.adapters
  {
    WithoutServices(x, x.adapters[a].Keys).(adapters := x.adapters - {a})
  }

  function WithGetter(x: Index, g: GetterData): Index
    requires g.service in x.serviceGetters
  {
    x.(serviceGetters := Put(x.serviceGetters, g.service, g.id, g), getters := x.getters[g.id := g])
  }

  function WithoutGetter(x: Index, id: Id): Index
    requires id in x.getters && x.getters[id].service in x.serviceGetters
  {
    x.(serviceGetters := Cut(x.serviceGetters, x.getters[id].service, id), getters := x.getters - {id})
  }

  function WithSetter(x: Index, g: SetterData): Index
    requires g.service in x.serviceSetters
  {
    x.(serviceSetters := Put(x.serviceSetters, g.service, g.id, g), setters := x.setters[g.id := g])
  }

  function WithoutSetter(x: Index, id: Id): Index
    requires id in x.setters && x.setters[id].service in x.serviceSetters
  {
    x.(serviceSetters := Cut(x.serviceSetters, x.setters[id].service, id), setters := x.setters - {id})
  }

  /** The channels of one service are those that name it as their parent. */
  lemma ChannelsOfService(x: Index, s: Id)
    requires Agree(x) && s in x.services
    ensures s in x.serviceGetters && x.serviceGetters[s].Keys == InParts(x.getters, GetterParent(x.getters), {s})
    ensures s in x.serviceSetters && x.serviceSetters[s].Keys == InParts(x.setters, SetterParent(x.setters), {s})
  {
    PartIsInParts(x.serviceGetters, x.getters, GetterParent(x.getters), s);
    PartIsInParts(x.serviceSetters, x.setters, SetterParent(x.setters), s);
  }

  lemma PartIsInParts<T>(parts: map<Id, map<Id, T>>, whole: map<Id, T>, parent: map<Id, Id>, p: Id)
    requires Nested(parts, whole, parent) && p in parts
    ensures parts[p].Keys == InParts(whole, parent, {p})
  {
  }

  lemma InPartsUnion<T>(whole: map<Id, T>, parent: map<Id, Id>, ps: set<Id>, qs: set<Id>)
    ensures InParts(whole, parent, ps + qs) == InParts(whole, parent, ps) + InParts(whole, parent, qs)
  {
  }

  // ---------------------------------------------------------------- every call keeps the agreement

  lemma WithAdapterAgrees(x: Index, a: Id)
    requires Agree(x) && a !in x.adapters
    ensures var y := WithAdapter(x, a);
      && Agree(y) && y.adapters.Keys == x.adapters.Keys + {a}
      && y.services == x.services && y.getters == x.getters && y.setters == x.setters
  {
    NestedNewPart(x.adapters, x.services, AdapterOf(x.services), a);
  }

  lemma ServicesPut(adapters: map<Id, map<Id, ServiceData>>, services: map<Id, ServiceData>, s: ServiceData)
    requires ServicesAgree(adapters, services) && s.adapter in adapters && s.id !in services
    requires forall t :: t in services ==> services[t].tags != s.tags
    ensures ServicesAgree(Put(adapters, s.adapter, s.id, s), services[s.id := s])
  {
    NestedPut(adapters, services, AdapterOf(services), s.adapter, s.id, s);
    assert AdapterOf(services[s.id := s]) == AdapterOf(services)[s.id := s.adapter];
  }

  lemma GettersOfNewService(parts: map<Id, map<Id, GetterData>>, getters: map<Id, GetterData>,
                            services: map<Id, ServiceData>, s: ServiceData)
    requires GettersAgree(parts, getters, services) && s.id !in services
    ensures GettersAgree(parts[s.id := map[]], getters, services[s.id := s])
  {
  }

  lemma SettersOfNewService(parts: map<Id, map<Id, SetterData>>, setters: map<Id, SetterData>,
                            services: map<Id, ServiceData>, s: ServiceData)
    requires SettersAgree(parts, setters, services) && s.id !in services
    ensures SettersAgree(parts[s.id := map[]], setters, services[s.id := s])
  {
  }

  lemma WithServiceAgrees(x: Index, s: ServiceData)
    requires Agree(x) && s.adapter in x.adapters && s.id !in x.services
    requires forall t :: t in x.services ==> x.services[t].tags != s.tags
    ensures var y := WithService(x, s);
      && Agree(y) && y.adapters.Keys == x.adapters.Keys
      && y.services == x.services[s.id := s] && y.getters == x.getters && y.setters == x.setters
  {
    ServicesPut(x.adapters, x.services, s);
    GettersOfNewService(x.serviceGetters, x.getters, x.services, s);
    SettersOfNewService(x.serviceSetters, x.setters, x.services, s);
  }

  lemma GettersWithout(parts: map<Id, map<Id, GetterData>>, getters: map<Id, GetterData>,
                       services: map<Id, ServiceData>, ss: set<Id>)
    requires GettersAgree(parts, getters, services)
    ensures GettersAgree(parts - ss, getters - InParts(getters, GetterParent(getters), ss), services - ss)
  {
  }

  lemma SettersWithout(parts: map<Id, map<Id, SetterData>>, setters: map<Id, SetterData>,
                       services: map<Id, ServiceData>, ss: set<Id>)
    requires SettersAgree(parts, setters, services)
    ensures SettersAgree(parts - ss, setters - InParts(setters, SetterParent(setters), ss), services - ss)
  {
  }

  lemma ServicesCut(adapters: map<Id, map<Id, ServiceData>>, services: map<Id, ServiceData>, s: Id)
    requires ServicesAgree(adapters, services) && s in services
    ensures services[s].adapter in adapters && s in adapters[services[s].adapter]
    ensures ServicesAgree(Cut(adapters, services[s].adapter, s), services - {s})
  {
  }

  lemma WithoutServiceAgrees(x: Index, s: Id)
    requires Agree(x) && s in x.services
    ensures x.services[s].adapter in x.adapters && s in x.adapters[x.services[s].adapter]
    ensures var y := WithoutService(x, s);
      && Agree(y) && y.adapters.Keys == x.adapters.Keys && y.services == x.services - {s}
      && (forall g :: g in y.getters <==> g in x.getters && x.getters[g].service != s) && y.getters.Items <= x.getters.Items
      && (forall g :: g in y.setters <==> g in x.setters && x.setters[g].service != s) && y.setters.Items <= x.setters.Items
  {
    ServicesCut(x.adapters, x.services, s);
    GettersWithout(x.serviceGetters, x.getters, x.services, {s});
    SettersWithout(x.serviceSetters, x.setters, x.services, {s});
    hide Agree, ServicesAgree, GettersAgree, SettersAgree, InParts;
    MembersGone(x.getters, GetterParent(x.getters), s);
    MembersGone(x.setters, SetterParent(x.setters), s);
  }

  lemma MembersGone<T>(whole: map<Id, T>, parent: map<Id, Id>, p: Id)
    requires parent.Keys == whole.Keys
    ensures var left := whole - InParts(whole, parent, {p});
      (forall c :: c in left <==> c in whole && parent[c] != p) && left.Items <= whole.Items
  {
  }

  lemma ServicesOfLostAdapter(adapters: map<Id, map<Id, ServiceData>>, services: map<Id, ServiceData>, a: Id)
    requires ServicesAgree(adapters, services) && a in adapters
    ensures ServicesAgree(adapters - {a}, services - adapters[a].Keys)
  {
    var ss := adapters[a].Keys;
    NestedDropParts(adapters, services, AdapterOf(services), {a});
    assert InParts(services, AdapterOf(services), {a}) == ss;
    assert AdapterOf(services - ss) == AdapterOf(services) - ss;
  }

  lemma WithoutAdapterAgrees(x: Index, a: Id)
    requires Agree(x) && a in x.adapters
    ensures var y := WithoutAdapter(x, a);
      && Agree(y) && y.adapters.Keys == x.adapters.Keys - {a}
      && (forall s :: s in y.services <==> s in x.services && x.services[s].adapter != a)
      && (forall g :: g in y.getters <==> g in x.getters && x.getters[g].adapter != a)
      && (forall g :: g in y.setters <==> g in x.setters && x.setters[g].adapter != a)
      && y.services.Items <= x.services.Items && y.getters.Items <= x.getters.Items && y.setters.Items <= x.setters.Items
  {
    ServicesOfLostAdapter(x.adapters, x.services, a);
    GettersWithout(x.serviceGetters, x.getters, x.services, x.adapters[a].Keys);
    SettersWithout(x.serviceSetters, x.setters, x.services, x.adapters[a].Keys);
  }

  lemma GettersPut(parts: map<Id, map<Id, GetterData>>, getters: map<Id, GetterData>, services: map<Id, ServiceData>, g: GetterData)
    requires GettersAgree(parts, getters, services) && g.id !in getters && GetterFits(g, g.id, services)
    ensures GettersAgree(Put(parts, g.service, g.id, g), getters[g.id := g], services)
  {
    NestedPut(parts, getters, GetterParent(getters), g.service, g.id, g);
    assert GetterParent(getters[g.id := g]) == GetterParent(getters)[g.id := g.service];
  }

  lemma GettersCut(parts: map<Id, map<Id, GetterData>>, getters: map<Id, GetterData>, services: map<Id, ServiceData>, id: Id)
    requires GettersAgree(parts, getters, services) && id in getters
    ensures getters[id].service in parts && id in parts[getters[id].service]
    ensures GettersAgree(Cut(parts, getters[id].service, id), getters - {id}, services)
  {
  }

  lemma WithGetterAgrees(x: Index, g: GetterData)
    requires Agree(x) && g.id !in x.getters && GetterFits(g, g.id, x.services)
    ensures var y := WithGetter(x, g);
      && Agree(y) && y.adapters == x.adapters && y.services == x.services
      && y.getters == x.getters[g.id := g] && y.setters == x.setters
  {
    GettersPut(x.serviceGetters, x.getters, x.services, g);
  }

  lemma WithoutGetterAgrees(x: Index, id: Id)
    requires Agree(x) && id in x.getters
    ensures x.getters[id].service in x.serviceGetters && id in x.serviceGetters[x.getters[id].service]
    ensures var y := WithoutGetter(x, id);
      && Agree(y) && y.adapters == x.adapters && y.services == x.services
      && y.getters == x.getters - {id} && y.setters == x.setters
  {
    GettersCut(x.serviceGetters, x.getters, x.services, id);
  }

  lemma SettersPut(parts: map<Id, map<Id, SetterData>>, setters: map<Id, SetterData>, services: map<Id, ServiceData>, g: SetterData)
    requires SettersAgree(parts, setters, services) && g.id !in setters && SetterFits(g, g.id, services)
    ensures SettersAgree(Put(parts, g.service, g.id, g), setters[g.id := g], services)
  {
    NestedPut(parts, setters, SetterParent(setters), g.service, g.id, g);
    assert SetterParent(setters[g.id := g]) == SetterParent(setters)[g.id := g.service];
  }

  lemma SettersCut(parts: map<Id, map<Id, SetterData>>, setters: map<Id, SetterData>, services: map<Id, ServiceData>, id: Id)
    requires SettersAgree(parts, setters, services) && id in setters
    ensures setters[id].service in parts && id in parts[setters[id].service]
    ensures SettersAgree(Cut(parts, setters[id].service, id), setters - {id}, services)
  {
  }

  lemma WithSetterAgrees(x: Index, g: SetterData)
    requires Agree(x) && g.id !in x.setters && SetterFits(g, g.id, x.services)
    ensures var y := WithSetter(x, g);
      && Agree(y) && y.adapters == x.adapters && y.services == x.services
      && y.getters == x.getters && y.setters == x.setters[g.id := g]
  {
    SettersPut(x.serviceSetters, x.setters, x.services, g);
  }

  lemma WithoutSetterAgrees(x: Index, id: Id)
    requires Agree(x) && id in x.setters
    ensures x.setters[id].service in x.serviceSetters && id in x.serviceSetters[x.setters[id].service]
    ensures var y := WithoutSetter(x, id);
      && Agree(y) && y.adapters == x.adapters && y.services == x.services
      && y.getters == x.getters && y.setters == x.setters - {id}
  {
    SettersCut(x.serviceSetters, x.setters, x.services, id);
  }
}
