/** Channels and the kinds of data they carry (components/taxonomy/src/services.rs). */
module Services {
  import V = Values

  type Id = string

  datatype ChannelKind =
    | Ready | LightOn | OpenClosed | DoorLocked | Username | Password
    | Countdown | CountEveryInterval | CurrentTime | CurrentTimeOfDay | RemainingTime
    | OvenTemperature
    | AddThinkerbellRule | RemoveThinkerbellRule | ThinkerbellRuleSource | ThinkerbellRuleOn
    | TakeSnapshot | Log | WebPushNotify
    | Extension(vendor: Id, adapter: Id, kind: Id, typ: V.Type)

  function KindType(k: ChannelKind): V.Type {
    match k
    case Ready => V.Type.Unit
    case LightOn => V.Type.OnOff
    case OpenClosed => V.Type.OpenClosed
    case DoorLocked => V.Type.DoorLocked
    case CurrentTime => V.Type.TimeStamp
    case CurrentTimeOfDay => V.Type.Duration
    case RemainingTime => V.Type.Duration
    case Countdown => V.Type.Duration
    case CountEveryInterval => V.Type.Duration
    case OvenTemperature => V.Type.Temperature
    case AddThinkerbellRule => V.Type.ThinkerbellRule
    case RemoveThinkerbellRule => V.Type.Unit
    case ThinkerbellRuleSource => V.Type.String
    case ThinkerbellRuleOn => V.Type.OnOff
    case Log => V.Type.String
    case TakeSnapshot => V.Type.Unit
    case Username => V.Type.String
    case Password => V.Type.String
    case WebPushNotify => V.Type.WebPushNotify
    case Extension(_, _, _, typ) => typ
  }

  /** What a getter or a setter looks like to a selector. */
  datatype Channel = Channel(id: Id, service: Id, adapter: Id, kind: ChannelKind, tags: set<Id>)
}

/** Selectors (components/taxonomy/src/selector.rs, util.rs). */
module Selectors {
  import opened Services

  datatype Exactly<T(==)> = Always | Exactly(value: T) | Never {
    function And(other: Exactly<T>): Exactly<T> {
      match (this, other)
      case (Never, _) => Never
      case (_, Never) => Never
      case (Always, x) => x
      case (x, Always) => x
      case (Exactly(x), Exactly(y)) => if x == y then other else Never
    }

    predicate Accepts(v: T) {
      match this
      case Always => true
      case Exactly(x) => x == v
      case Never => false
    }
  }

  /** A selector of getters or of setters; both have the same fields in the source. */
  datatype Selector = Selector(
    id: Exactly<Id>,
    parent: Exactly<Id>,
    tags: set<Id>,
    serviceTags: set<Id>,
    kind: Exactly<ChannelKind>)
  {
    predicate Matches(actualServiceTags: set<Id>, c: Channel) {
      && id.Accepts(c.id)
      && parent.Accepts(c.service)
      && kind.Accepts(c.kind)
      && tags <= c.tags
      && serviceTags <= actualServiceTags
    }

    function WithId(x: Id): Selector {
      this.(id := id.And(Exactly.Exactly(x)))
    }

    function WithParent(p: Id): Selector {
      this.(parent := parent.And(Exactly.Exactly(p)))
    }

    function WithKind(k: ChannelKind): Selector {
      this.(kind := kind.And(Exactly.Exactly(k)))
    }

    function WithTags(added: set<Id>): Selector {
      this.(tags := tags + added)
    }

    function WithServiceTags(added: set<Id>): Selector {
      this.(serviceTags := serviceTags + added)
    }

    function And(other: Selector): Selector {
      Selector(id.And(other.id), parent.And(other.parent), tags + other.tags,
               serviceTags + other.serviceTags, kind.And(other.kind))
    }
  }

  /** The selector a client starts from. */
  function AnyChannel(): Selector {
    Selector(Always, Always, {}, {}, Always)
  }

  /** It selects every channel, and each way of restricting a selector adds exactly one test. */
  lemma BuildersRestrict(s: Selector, x: Id, tags: set<Id>, serviceTags: set<Id>, c: Channel)
    ensures AnyChannel().Matches(serviceTags, c)
    ensures s.WithId(x).Matches(serviceTags, c) <==> s.Matches(serviceTags, c) && c.id == x
    ensures s.WithParent(x).Matches(serviceTags, c) <==> s.Matches(serviceTags, c) && c.service == x
    ensures s.WithTags(tags).Matches(serviceTags, c) <==> s.Matches(serviceTags, c) && tags <= c.tags
    ensures s.WithServiceTags(tags).Matches(serviceTags, c) <==> s.Matches(serviceTags, c) && tags <= serviceTags
  {
  }

  /** The conjunction of two selectors selects exactly the channels that both select. */
  lemma AndSelectsBoth(a: Selector, b: Selector, serviceTags: set<Id>, c: Channel)
    ensures a.And(b).Matches(serviceTags, c) <==> a.Matches(serviceTags, c) && b.Matches(serviceTags, c)
  {
  }

  /** A selector restricted to a kind selects exactly the channels it selected that have that kind. */
  lemma WithKindRestricts(s: Selector, k: ChannelKind, serviceTags: set<Id>, c: Channel)
    ensures s.WithKind(k).Matches(serviceTags, c) <==> s.Matches(serviceTags, c) && c.kind == k
  {
  }

  predicate MatchesAny(sels: seq<Selector>, serviceTags: set<Id>, c: Channel) {
    exists s :: s in sels && s.Matches(serviceTags, c)
  }

  /** Every selector of the list is restricted to this id. */
  ghost predicate OnlyFor(sels: seq<Selector>, x: Id) {
    forall s :: s in sels ==> IsFor(s, x)
  }

  ghost predicate IsFor(s: Selector, x: Id) {
    exists from: Selector :: s == from.WithId(x)
  }

  lemma SelectsOnly(sels: seq<Selector>, x: Id, serviceTags: set<Id>, c: Channel)
    requires OnlyFor(sels, x) && MatchesAny(sels, serviceTags, c)
    ensures c.id == x
  {
    var s :| s in sels && s.Matches(serviceTags, c);
    assert IsFor(s, x);
    var from: Selector :| s == from.WithId(x);
    BuildersRestrict(from, x, {}, serviceTags, c);
  }

  /** The test by which a watcher is disconnected: some selector of it does not match. */
  predicate MissesAny(sels: seq<Selector>, serviceTags: set<Id>, c: Channel) {
    exists s :: s in sels && !s.Matches(serviceTags, c)
  }

  ghost predicate SameSelection(a: Selector, b: Selector) {
    forall serviceTags, c :: a.Matches(serviceTags, c) <==> b.Matches(serviceTags, c)
  }

  /** All selectors of the list select the same channels, and there is one. */
  ghost predicate Agreeing(sels: seq<Selector>) {
    sels != [] && forall a, b :: a in sels && b in sels ==> SameSelection(a, b)
  }

  /** The test that connects a getter to a watcher (some selector matches) and the one that disconnects it
      (some selector does not) are opposites on every channel exactly for lists whose selectors agree. */
  lemma WatchTestsAgreeExactly(sels: seq<Selector>)
    ensures (forall serviceTags, c :: MatchesAny(sels, serviceTags, c) <==> !MissesAny(sels, serviceTags, c))
       <==> Agreeing(sels)
  {
    if Agreeing(sels) {
      forall serviceTags, c
        ensures MatchesAny(sels, serviceTags, c) <==> !MissesAny(sels, serviceTags, c)
      {
        AgreeingTests(sels, serviceTags, c);
      }
    } else if sels == [] {
      var c := Channel("", "", "", Ready, {});
      assert !MatchesAny(sels, {}, c) && !MissesAny(sels, {}, c);
    } else {
      var a, b :| a in sels && b in sels && !SameSelection(a, b);
      var serviceTags, c :| a.Matches(serviceTags, c) != b.Matches(serviceTags, c);
      assert MatchesAny(sels, serviceTags, c) && MissesAny(sels, serviceTags, c);
    }
  }

  lemma AgreeingTests(sels: seq<Selector>, serviceTags: set<Id>, c: Channel)
    requires Agreeing(sels)
    ensures MatchesAny(sels, serviceTags, c) <==> !MissesAny(sels, serviceTags, c)
  {
    var first := sels[0];
    assert first in sels;
    forall s | s in sels
      ensures s.Matches(serviceTags, c) <==> first.Matches(serviceTags, c)
    {
      assert SameSelection(s, first);
    }
  }

  /** Adding tags to a channel never loses a match, removing some never gains one. */
  lemma MatchingGrowsWithTags(sels: seq<Selector>, serviceTags: set<Id>, c: Channel, tags: set<Id>)
    requires tags >= c.tags && MatchesAny(sels, serviceTags, c)
    ensures MatchesAny(sels, serviceTags, c.(tags := tags))
  {
  }

  /** A service as its selectors see it. */
  datatype ServiceLike = ServiceLike(id: Id, tags: set<Id>, getters: set<Channel>, setters: set<Channel>)

  /** A selector of services. It wants, for each of its selectors of channels, a channel of the service that
      this selects; the service tags such a selector asks for are looked for among the selector's own. */
  datatype ServiceSelector = ServiceSelector(
    id: Exactly<Id>,
    tags: set<Id>,
    getters: seq<Selector>,
    setters: seq<Selector>)
  {
    predicate Matches(s: ServiceLike) {
      && id.Accepts(s.id)
      && tags <= s.tags
      && (forall g :: g in getters ==> exists c :: c in s.getters && g.Matches(tags, c))
      && (forall g :: g in setters ==> exists c :: c in s.setters && g.Matches(tags, c))
    }

    function WithId(x: Id): ServiceSelector {
      this.(id := id.And(Exactly.Exactly(x)))
    }

    function WithTags(added: set<Id>): ServiceSelector {
      this.(tags := tags + added)
    }

    function WithGetters(added: seq<Selector>): ServiceSelector {
      this.(getters := getters + added)
    }

    function WithSetters(added: seq<Selector>): ServiceSelector {
      this.(setters := setters + added)
    }

    function And(other: ServiceSelector): ServiceSelector {
      ServiceSelector(id.And(other.id), tags + other.tags, getters + other.getters, setters + other.setters)
    }

    /** The selectors of channels ask for no service tag that is not asked of the service itself. */
    predicate AsksForItsTags() {
      forall g :: g in getters + setters ==> g.serviceTags <= tags
    }
  }

  /** The selector of services a client starts from. */
  function AnyService(): ServiceSelector {
    ServiceSelector(Always, {}, [], [])
  }

  /** Some of the channels is selected, for an owner with these tags. */
  predicate Offers(channels: set<Channel>, g: Selector, tags: set<Id>) {
    exists c :: c in channels && g.Matches(tags, c)
  }

  /** It selects every service. Asking for an id adds that test. Asking for tags adds that test, for a selector
      that asks nothing of channels. Asking for channels adds the test that the service has one for each. */
  lemma ServiceBuildersRestrict(sel: ServiceSelector, x: Id, tags: set<Id>, g: Selector, s: ServiceLike)
    ensures AnyService().Matches(s)
    ensures sel.WithId(x).Matches(s) <==> sel.Matches(s) && s.id == x
    ensures sel.getters + sel.setters == [] ==> (sel.WithTags(tags).Matches(s) <==> sel.Matches(s) && tags <= s.tags)
    ensures sel.WithGetters([g]).Matches(s) <==> sel.Matches(s) && Offers(s.getters, g, sel.tags)
    ensures sel.WithSetters([g]).Matches(s) <==> sel.Matches(s) && Offers(s.setters, g, sel.tags)
  {
    assert g in sel.WithGetters([g]).getters && g in sel.WithSetters([g]).setters;
    assert forall h :: h in sel.getters ==> h in sel.WithGetters([g]).getters;
    assert forall h :: h in sel.setters ==> h in sel.WithSetters([g]).setters;
  }

  /** The conjunction of two selectors of services selects a service that both select; a service it selects
      is selected by both exactly if each asks of channels only the service tags it asks of the service. */
  lemma ServiceAndExactly(a: ServiceSelector, b: ServiceSelector, s: ServiceLike)
    ensures a.Matches(s) && b.Matches(s) <==> a.And(b).Matches(s) && a.AsksForItsTags() && b.AsksForItsTags()
  {
    var both := a.And(b);
    if a.Matches(s) && b.Matches(s) {
      forall g | g in both.getters
        ensures exists c :: c in s.getters && g.Matches(both.tags, c)
      {
        var c :| c in s.getters && g.Matches(if g in a.getters then a.tags else b.tags, c);
        assert g.Matches(both.tags, c);
      }
      forall g | g in both.setters
        ensures exists c :: c in s.setters && g.Matches(both.tags, c)
      {
        var c :| c in s.setters && g.Matches(if g in a.setters then a.tags else b.tags, c);
        assert g.Matches(both.tags, c);
      }
    }
    if both.Matches(s) && a.AsksForItsTags() && b.AsksForItsTags() {
      PartMatches(a, both, s);
      PartMatches(b, both, s);
    }
  }

  lemma PartMatches(part: ServiceSelector, both: ServiceSelector, s: ServiceLike)
    requires both.Matches(s) && part.AsksForItsTags() && part.tags <= both.tags && part.id.Accepts(s.id)
    requires forall g :: g in part.getters ==> g in both.getters
    requires forall g :: g in part.setters ==> g in both.setters
    ensures part.Matches(s)
  {
    forall g | g in part.getters
      ensures exists c :: c in s.getters && g.Matches(part.tags, c)
    {
      var c :| c in s.getters && g.Matches(both.tags, c);
      assert g in part.getters + part.setters && g.Matches(part.tags, c);
    }
    forall g | g in part.setters
      ensures exists c :: c in s.setters && g.Matches(part.tags, c)
    {
      var c :| c in s.setters && g.Matches(both.tags, c);
      assert g in part.getters + part.setters && g.Matches(part.tags, c);
    }
  }

  /** A conjunction can select a service that one of its parts does not. */
  lemma ServiceAndSelectsMore() returns (a: ServiceSelector, b: ServiceSelector, s: ServiceLike)
    ensures a.And(b).Matches(s) && b.Matches(s) && !a.Matches(s)
  {
    var c := Channel("getter", "service", "adapter", Ready, {});
    var g := Selector(Always, Always, {}, {"tag"}, Always);
    a := ServiceSelector(Always, {}, [g], []);
    b := ServiceSelector(Always, {"tag"}, [], []);
    s := ServiceLike("service", {"tag"}, {c}, {});
    assert g.Matches({"tag"}, c);
    assert !a.AsksForItsTags() by {
      assert g in a.getters + a.setters && "tag" in g.serviceTags;
    }
    ServiceAndExactly(a, b, s);
  }

  /** Without selectors every service is selected. */
  predicate ServiceSelected(sels: seq<ServiceSelector>, s: ServiceLike) {
    sels == [] || exists sel :: sel in sels && sel.Matches(s)
  }

  /** A list that is not empty selects what its parts select; the empty one selects everything. */
  lemma ServiceListsUnite(a: seq<ServiceSelector>, b: seq<ServiceSelector>, sel: ServiceSelector, s: ServiceLike)
    ensures ServiceSelected([], s) && (ServiceSelected([sel], s) <==> sel.Matches(s))
    ensures a != [] && b != [] ==> (ServiceSelected(a + b, s) <==> ServiceSelected(a, s) || ServiceSelected(b, s))
  {
    assert sel in [sel];
    assert forall x :: x in a + b <==> x in a || x in b;
  }

  function ChosenServices(services: map<Id, ServiceLike>, sels: seq<ServiceSelector>): set<Id> {
    set s | s in services && ServiceSelected(sels, services[s])
  }

  /** A call for the service with one id concerns that service and no other; a call with several selectors
      concerns the services of each. */
  lemma ChosenExactly(services: map<Id, ServiceLike>, sels: seq<ServiceSelector>, x: Id)
    requires forall s :: s in services ==> services[s].id == s
    ensures ChosenServices(services, []) == services.Keys
    ensures ChosenServices(services, [AnyService().WithId(x)]) == services.Keys * {x}
    ensures sels != [] ==>
              ChosenServices(services, sels + [AnyService().WithId(x)]) == ChosenServices(services, sels) + services.Keys * {x}
  {
    var one := [AnyService().WithId(x)];
    forall s | s in services
      ensures ServiceSelected(one, services[s]) <==> s == x
      ensures sels != [] ==> (ServiceSelected(sels + one, services[s]) <==> ServiceSelected(sels, services[s]) || s == x)
      ensures ServiceSelected([], services[s])
    {
      ServiceBuildersRestrict(AnyService(), x, {}, AnyChannel(), services[s]);
      ServiceListsUnite(sels, one, one[0], services[s]);
    }
  }

  /** Selectors that ask for no service tag do not look at them. */
  predicate IgnoresServiceTags(sels: seq<Selector>) {
    forall s :: s in sels ==> s.serviceTags == {}
  }

}

/** The grouping of fetch and send requests by adapter (components/taxonomy/src/backend.rs). */
module Requests {
  import opened Common
  import opened Services
  import opened Selectors
  import opened Values

  datatype Targetted<+P> = Targetted(select: seq<Selector>, payload: P)

  /** A registered channel together with the tags of its service. */
  datatype View = View(channel: Channel, serviceTags: set<Id>) {
    predicate SelectedBy(sels: seq<Selector>) {
      MatchesAny(sels, serviceTags, channel)
    }
  }

  datatype TypeFailure = TypeFailure(expected: Type, got: Type)

  /** Per adapter: the values to send, and the setters whose value has the wrong type. */
  datatype Send = Send(request: map<Id, Value>, failures: map<Id, TypeFailure>)

  type SendRequest = map<Id, Send>
  type FetchRequest = map<Id, map<Id, Type>>

  // ---------------------------------------------------------------- flat specification

  predicate WellTyped(v: View, value: Value) {
    TypeOf(value) == KindType(v.channel.kind)
  }

  /** Target `t` addresses the setter with a value of the right (`well`) or of the wrong type. */
  predicate Hits(v: View, t: Targetted<Value>, well: bool) {
    v.SelectedBy(t.select) && WellTyped(v, t.payload) == well
  }

  function LastHit(v: View, ts: seq<Targetted<Value>>, well: bool): Option<Value> {
    if ts == [] then None
    else if Hits(v, ts[|ts| - 1], well) then Some(ts[|ts| - 1].payload)
    else LastHit(v, ts[..|ts| - 1], well)
  }

  /** The last hit is the payload of the last target that hits; there is none iff no target hits. */
  lemma {:induction false} LastHitIsLast(v: View, ts: seq<Targetted<Value>>, well: bool)
    ensures LastHit(v, ts, well).None? <==> forall i :: 0 <= i < |ts| ==> !Hits(v, ts[i], well)
    ensures LastHit(v, ts, well).Some? ==>
      exists i :: 0 <= i < |ts| && Hits(v, ts[i], well) && LastHit(v, ts, well).value == ts[i].payload
                  && forall j :: i < j < |ts| ==> !Hits(v, ts[j], well)
  {
    if ts != [] && !Hits(v, ts[|ts| - 1], well) {
      var front := ts[..|ts| - 1];
      LastHitIsLast(v, front, well);
      if LastHit(v, ts, well).Some? {
        var i :| 0 <= i < |front| && Hits(v, front[i], well) && LastHit(v, front, well).value == front[i].payload
                 && forall j :: i < j < |front| ==> !Hits(v, front[j], well);
        assert ts[i] == front[i];
        forall j | i < j < |ts| ensures !Hits(v, ts[j], well) {
          if j < |front| { assert ts[j] == front[j]; }
        }
      }
    }
  }

  predicate Addressed(v: View, ts: seq<Targetted<Value>>) {
    LastHit(v, ts, true).Some? || LastHit(v, ts, false).Some?
  }

  function Failure(v: View, value: Value): TypeFailure {
    TypeFailure(KindType(v.channel.kind), TypeOf(value))
  }

  type Seen = map<Id, seq<Targetted<Value>>>

  /** The last payload of the right (`well`) or of the wrong type that setter `id` has seen. */
  function Got(views: map<Id, View>, seen: Seen, id: Id, well: bool): Option<Value>
    requires seen.Keys == views.Keys && id in views
  {
    LastHit(views[id], seen[id], well)
  }

  function AdaptersOf(views: map<Id, View>, seen: Seen): set<Id>
    requires seen.Keys == views.Keys
  {
    set id | id in views && Addressed(views[id], seen[id]) :: views[id].channel.adapter
  }

  function RequestOf(views: map<Id, View>, seen: Seen, a: Id): map<Id, Value>
    requires seen.Keys == views.Keys
  {
    map id | id in views && views[id].channel.adapter == a && Got(views, seen, id, true).Some?
      :: Got(views, seen, id, true).value
  }

  function FailuresOf(views: map<Id, View>, seen: Seen, a: Id): map<Id, TypeFailure>
    requires seen.Keys == views.Keys
  {
    map id | id in views && views[id].channel.adapter == a && Got(views, seen, id, false).Some?
      :: Failure(views[id], Got(views, seen, id, false).value)
  }

  /** The request that follows from the flat view when setter `id` has seen the targets `seen[id]`. */
  function SendOf(views: map<Id, View>, seen: Seen): SendRequest
    requires seen.Keys == views.Keys
  {
    var adapters := AdaptersOf(views, seen);
    map a | a in adapters :: Send(RequestOf(views, seen, a), FailuresOf(views, seen, a))
  }

  function AllSaw(views: map<Id, View>, ts: seq<Targetted<Value>>): (seen: Seen)
    ensures seen.Keys == views.Keys
  {
    map id | id in views :: ts
  }

  /** Grouping, stated flat: each adapter's request holds exactly its setters addressed by some target with
      a well-typed value, with the last such value, and its failures exactly those addressed with an
      ill-typed one; adapters without an addressed setter do not occur. */
  function SendSpec(views: map<Id, View>, ts: seq<Targetted<Value>>): SendRequest {
    SendOf(views, AllSaw(views, ts))
  }

  function FetchAdapters(views: map<Id, View>, sels: seq<Selector>, seen: set<Id>): set<Id> {
    set id | id in views && id in seen && views[id].SelectedBy(sels) :: views[id].channel.adapter
  }

  function TypesOf(views: map<Id, View>, sels: seq<Selector>, seen: set<Id>, a: Id): map<Id, Type> {
    map id | id in views && id in seen && views[id].channel.adapter == a && views[id].SelectedBy(sels)
      :: KindType(views[id].channel.kind)
  }

  function FetchSpec(views: map<Id, View>, sels: seq<Selector>, seen: set<Id>): FetchRequest {
    var adapters := FetchAdapters(views, sels, seen);
    map a | a in adapters :: TypesOf(views, sels, seen, a)
  }

  // ---------------------------------------------------------------- one step of the loops

  /** Enter one selected setter with one value into the table of adapters. */
  function AddSend(acc: SendRequest, id: Id, v: View, value: Value): SendRequest {
    var a := v.channel.adapter;
    var entry := if a in acc then acc[a] else Send(map[], map[]);
    acc[a := if WellTyped(v, value) then entry.(request := entry.request[id := value])
             else entry.(failures := entry.failures[id := Failure(v, value)])]
  }

  function AddFetch(acc: FetchRequest, id: Id, v: View): FetchRequest {
    var a := v.channel.adapter;
    acc[a := (if a in acc then acc[a] else map[])[id := KindType(v.channel.kind)]]
  }

  lemma LastHitStep(v: View, ts: seq<Targetted<Value>>, t: Targetted<Value>, well: bool)
    ensures LastHit(v, ts + [t], well) == if Hits(v, t, well) then Some(t.payload) else LastHit(v, ts, well)
  {
  }

  lemma AdaptersStep(views: map<Id, View>, seen: Seen, id: Id, t: Targetted<Value>)
    requires seen.Keys == views.Keys && id in views
    ensures AdaptersOf(views, seen[id := seen[id] + [t]])
         == AdaptersOf(views, seen) + if views[id].SelectedBy(t.select) then {views[id].channel.adapter} else {}
  {
  }

  lemma RequestStep(views: map<Id, View>, seen: Seen, id: Id, t: Targetted<Value>, a: Id)
    requires seen.Keys == views.Keys && id in views
    ensures RequestOf(views, seen[id := seen[id] + [t]], a)
         == if views[id].channel.adapter == a && Hits(views[id], t, true)
            then RequestOf(views, seen, a)[id := t.payload] else RequestOf(views, seen, a)
  {
  }

  lemma FailuresStep(views: map<Id, View>, seen: Seen, id: Id, t: Targetted<Value>, a: Id)
    requires seen.Keys == views.Keys && id in views
    ensures FailuresOf(views, seen[id := seen[id] + [t]], a)
         == if views[id].channel.adapter == a && Hits(views[id], t, false)
            then FailuresOf(views, seen, a)[id := Failure(views[id], t.payload)] else FailuresOf(views, seen, a)
  {
  }

  /** An adapter that does not occur has neither requests nor failures. */
  lemma AbsentAdapterIsEmpty(views: map<Id, View>, seen: Seen, a: Id)
    requires seen.Keys == views.Keys && a !in AdaptersOf(views, seen)
    ensures RequestOf(views, seen, a) == map[] && FailuresOf(views, seen, a) == map[]
  {
  }

  /** Entering a target for one setter refines the flat view in which that setter has seen it. */
  lemma SendStep(views: map<Id, View>, seen: Seen, id: Id, t: Targetted<Value>)
    requires seen.Keys == views.Keys && id in views
    ensures SendOf(views, seen[id := seen[id] + [t]])
         == if views[id].SelectedBy(t.select) then AddSend(SendOf(views, seen), id, views[id], t.payload)
            else SendOf(views, seen)
  {
    hide LastHit, Got, RequestOf, FailuresOf, AdaptersOf, Failure;
    var a := views[id].channel.adapter;
    var seen' := seen[id := seen[id] + [t]];
    AdaptersStep(views, seen, id, t);
    forall b
      ensures RequestOf(views, seen', b)
           == if a == b && Hits(views[id], t, true)
              then RequestOf(views, seen, b)[id := t.payload] else RequestOf(views, seen, b)
      ensures FailuresOf(views, seen', b)
           == if a == b && Hits(views[id], t, false)
              then FailuresOf(views, seen, b)[id := Failure(views[id], t.payload)] else FailuresOf(views, seen, b)
    {
      RequestStep(views, seen, id, t, b);
      FailuresStep(views, seen, id, t, b);
    }
    if a !in AdaptersOf(views, seen) {
      AbsentAdapterIsEmpty(views, seen, a);
    }
  }

  lemma FetchStep(views: map<Id, View>, sels: seq<Selector>, seen: set<Id>, id: Id)
    requires id in views && id !in seen
    ensures FetchSpec(views, sels, seen + {id})
         == if views[id].SelectedBy(sels) then AddFetch(FetchSpec(views, sels, seen), id, views[id])
            else FetchSpec(views, sels, seen)
  {
    var a := views[id].channel.adapter;
    assert FetchAdapters(views, sels, seen + {id})
        == FetchAdapters(views, sels, seen) + if views[id].SelectedBy(sels) then {a} else {};
    forall b
      ensures TypesOf(views, sels, seen + {id}, b)
           == if b == a && views[id].SelectedBy(sels)
              then TypesOf(views, sels, seen, b)[id := KindType(views[id].channel.kind)]
              else TypesOf(views, sels, seen, b)
    {
    }
    if a !in FetchAdapters(views, sels, seen) {
      AbsentFetchIsEmpty(views, sels, seen, a);
    }
  }

  lemma AbsentFetchIsEmpty(views: map<Id, View>, sels: seq<Selector>, seen: set<Id>, a: Id)
    requires a !in FetchAdapters(views, sels, seen)
    ensures TypesOf(views, sels, seen, a) == map[]
  {
  }

  /** The fetch request partitions the selected getters by adapter: each occurs under its own adapter, with
      its own type, and nowhere else. */
  lemma FetchPartitions(views: map<Id, View>, sels: seq<Selector>, id: Id, a: Id)
    ensures var r := FetchSpec(views, sels, views.Keys);
      (a in r && id in r[a]) <==> (id in views && views[id].SelectedBy(sels) && views[id].channel.adapter == a)
    ensures var r := FetchSpec(views, sels, views.Keys);
      a in r ==> r[a] != map[] && (id in r[a] ==> r[a][id] == KindType(views[id].channel.kind))
  {
    var r := FetchSpec(views, sels, views.Keys);
    if a in r {
      var id' :| id' in views && views[id'].SelectedBy(sels) && views[id'].channel.adapter == a;
      assert id' in r[a];
    }
  }

  /** A fetch by selectors that are restricted to one getter asks for no other. */
  lemma FetchConcernsOnly(views: map<Id, View>, sels: seq<Selector>, x: Id, a: Id, id: Id)
    requires OnlyFor(sels, x) && forall i :: i in views ==> views[i].channel.id == i
    ensures var r := FetchSpec(views, sels, views.Keys);
      a in r && id in r[a] ==> id == x
  {
    FetchPartitions(views, sels, id, a);
    if id in views && views[id].SelectedBy(sels) {
      SelectsOnly(sels, x, views[id].serviceTags, views[id].channel);
    }
  }

  /** An adapter gets a part of the request iff some target selects a setter of it. */
  lemma SendAdapters(views: map<Id, View>, ts: seq<Targetted<Value>>, a: Id)
    ensures a in SendSpec(views, ts) <==>
            exists x, i :: x in views && views[x].channel.adapter == a && 0 <= i < |ts| && views[x].SelectedBy(ts[i].select)
  {
    hide LastHit;
    if a in SendSpec(views, ts) {
      var x :| x in views && views[x].channel.adapter == a && Addressed(views[x], ts);
      LastHitMeans(views[x], ts);
      var i :| Takes(views[x], ts, i) || Declines(views[x], ts, i);
      assert views[x].SelectedBy(ts[i].select);
    }
    if x, i :| x in views && views[x].channel.adapter == a && 0 <= i < |ts| && views[x].SelectedBy(ts[i].select) {
      LastHitMeans(views[x], ts);
      assert Takes(views[x], ts, i) || Declines(views[x], ts, i);
      assert Addressed(views[x], ts);
    }
  }

  /** The send request partitions the addressed setters by adapter: a setter is sent the value of the last
      target that selects it with a value of its type, and fails with the last such value of another type. */
  lemma SendPartitions(views: map<Id, View>, ts: seq<Targetted<Value>>, a: Id, id: Id)
    requires a in SendSpec(views, ts)
    ensures var part := SendSpec(views, ts)[a];
      var home := id in views && views[id].channel.adapter == a;
      && (id in part.request <==> home && exists i :: Takes(views[id], ts, i))
      && (id in part.failures <==> home && exists i :: Declines(views[id], ts, i))
      && (id in part.request ==> exists i :: LastTaken(views[id], ts, i) && part.request[id] == ts[i].payload)
      && (id in part.failures ==> part.failures[id].expected == KindType(views[id].channel.kind)
                                  && exists i :: LastDeclined(views[id], ts, i) && part.failures[id].got == TypeOf(ts[i].payload))
  {
    hide LastHit, Takes, Declines, LastTaken, LastDeclined;
    SpecOfAdapter(views, ts, a);
    SentValue(views, ts, a, id);
    if id in views {
      LastHitMeans(views[id], ts);
    }
  }

  /** Target `i` selects the setter, with a value of its type. */
  predicate Takes(v: View, ts: seq<Targetted<Value>>, i: int) {
    0 <= i < |ts| && v.SelectedBy(ts[i].select) && TypeOf(ts[i].payload) == KindType(v.channel.kind)
  }

  /** Target `i` selects the setter, with a value of another type. */
  predicate Declines(v: View, ts: seq<Targetted<Value>>, i: int) {
    0 <= i < |ts| && v.SelectedBy(ts[i].select) && TypeOf(ts[i].payload) != KindType(v.channel.kind)
  }

  predicate LastTaken(v: View, ts: seq<Targetted<Value>>, i: int) {
    Takes(v, ts, i) && forall j :: i < j < |ts| ==> !Takes(v, ts, j)
  }

  predicate LastDeclined(v: View, ts: seq<Targetted<Value>>, i: int) {
    Declines(v, ts, i) && forall j :: i < j < |ts| ==> !Declines(v, ts, j)
  }

  lemma LastHitMeans(v: View, ts: seq<Targetted<Value>>)
    ensures LastHit(v, ts, true).Some? <==> exists i :: Takes(v, ts, i)
    ensures LastHit(v, ts, false).Some? <==> exists i :: Declines(v, ts, i)
    ensures LastHit(v, ts, true).Some? ==> exists i :: LastTaken(v, ts, i) && LastHit(v, ts, true).value == ts[i].payload
    ensures LastHit(v, ts, false).Some? ==> exists i :: LastDeclined(v, ts, i) && LastHit(v, ts, false).value == ts[i].payload
  {
    LastHitIsLast(v, ts, true);
    LastHitIsLast(v, ts, false);
    forall i | 0 <= i < |ts|
      ensures Hits(v, ts[i], true) <==> Takes(v, ts, i)
      ensures Hits(v, ts[i], false) <==> Declines(v, ts, i)
    {
    }
    if LastHit(v, ts, true).Some? {
      var i :| 0 <= i < |ts| && Hits(v, ts[i], true) && LastHit(v, ts, true).value == ts[i].payload
               && forall j :: i < j < |ts| ==> !Hits(v, ts[j], true);
      assert LastTaken(v, ts, i);
    }
    if LastHit(v, ts, false).Some? {
      var i :| 0 <= i < |ts| && Hits(v, ts[i], false) && LastHit(v, ts, false).value == ts[i].payload
               && forall j :: i < j < |ts| ==> !Hits(v, ts[j], false);
      assert LastDeclined(v, ts, i);
    }
  }

  lemma SentValue(views: map<Id, View>, ts: seq<Targetted<Value>>, a: Id, id: Id)
    requires a in SendSpec(views, ts)
    ensures id in SendSpec(views, ts)[a].request ==>
              && id in views && LastHit(views[id], ts, true).Some?
              && SendSpec(views, ts)[a].request[id] == LastHit(views[id], ts, true).value
  {
  }

  /** The values that a setter of each kind is sent. */
  lemma KindsTake(v: View, value: Value)
    ensures var k := v.channel.kind;
      && (k in {Ready, TakeSnapshot, RemoveThinkerbellRule} ==> (WellTyped(v, value) <==> value.Unit?))
      && (k in {LightOn, ThinkerbellRuleOn} ==> (WellTyped(v, value) <==> value.OnOff?))
      && (k == ChannelKind.OpenClosed ==> (WellTyped(v, value) <==> value.OpenClosed?))
      && (k == ChannelKind.DoorLocked ==> (WellTyped(v, value) <==> value.DoorLocked?))
      && (k == CurrentTime ==> (WellTyped(v, value) <==> value.TimeStamp?))
      && (k in {CurrentTimeOfDay, RemainingTime, Countdown, CountEveryInterval} ==> (WellTyped(v, value) <==> value.Duration?))
      && (k == OvenTemperature ==> (WellTyped(v, value) <==> value.Temperature?))
      && (k == AddThinkerbellRule ==> (WellTyped(v, value) <==> value.ThinkerbellRule?))
      && (k in {ThinkerbellRuleSource, Log, Username, Password} ==> (WellTyped(v, value) <==> value.String?))
      && (k == ChannelKind.WebPushNotify ==> (WellTyped(v, value) <==> value.WebPushNotify?))
      && (k.Extension? && k.typ == TypeOf(value) ==> WellTyped(v, value))
  {
  }

  // ---------------------------------------------------------------- the answers

  /** What becomes of one setter's part of a send. */
  datatype Outcome = Accepted | Refused | WrongType(failure: TypeFailure)

  function WrongTypes(failures: map<Id, TypeFailure>): map<Id, Outcome> {
    map id | id in failures :: WrongType(failures[id])
  }

  /** What an adapter says to a request. */
  type Adapters = (Id, map<Id, Value>) -> map<Id, Outcome>

  /** The results that one adapter's part of a request adds: its answer, then the type failures. */
  function Reply(prepared: SendRequest, send: Adapters, a: Id): map<Id, Outcome>
    requires a in prepared
  {
    send(a, prepared[a].request) + WrongTypes(prepared[a].failures)
  }

  predicate Asks(prepared: SendRequest, order: seq<Id>) {
    forall i :: 0 <= i < |order| ==> order[i] in prepared
  }

  function Merged(prepared: SendRequest, send: Adapters, order: seq<Id>): map<Id, Outcome>
    requires Asks(prepared, order)
  {
    if order == [] then map[]
    else Merged(prepared, send, order[..|order| - 1]) + Reply(prepared, send, order[|order| - 1])
  }

  /** Ask the adapters and merge what they say with the failures, in any order. */
  method Merge(prepared: SendRequest, send: Adapters) returns (results: map<Id, Outcome>, ghost order: seq<Id>)
    ensures Distinct(order) && SetOf(order) == prepared.Keys && Asks(prepared, order)
    ensures results == Merged(prepared, send, order)
  {
    results, order := map[], [];
    var todo := prepared.Keys;
    while todo != {}
      invariant todo <= prepared.Keys
      invariant Distinct(order) && SetOf(order) == prepared.Keys - todo && Asks(prepared, order)
      invariant results == Merged(prepared, send, order)
    {
      var a :| a in todo;
      OrderOneMore(order, a);
      assert results + Reply(prepared, send, a)
          == results + send(a, prepared[a].request) + WrongTypes(prepared[a].failures);
      results := results + send(a, prepared[a].request);
      results := results + WrongTypes(prepared[a].failures);
      todo := todo - {a};
      order := order + [a];
    }
  }

  /** The i-th adapter of the order is the last whose part has a result for the setter. */
  predicate LastReply(prepared: SendRequest, send: Adapters, order: seq<Id>, i: int, id: Id)
    requires Asks(prepared, order)
  {
    && 0 <= i < |order| && id in Reply(prepared, send, order[i])
    && forall j :: i < j < |order| ==> id !in Reply(prepared, send, order[j])
  }

  /** A setter has a result iff some adapter's part has one for it, and it is that of the last such adapter. */
  lemma {:induction false} MergedIsLast(prepared: SendRequest, send: Adapters, order: seq<Id>, id: Id)
    requires Asks(prepared, order)
    ensures id in Merged(prepared, send, order) <==> exists i :: LastReply(prepared, send, order, i, id)
    ensures forall i :: LastReply(prepared, send, order, i, id) ==>
                          Merged(prepared, send, order)[id] == Reply(prepared, send, order[i])[id]
  {
    hide Reply;
    if order != [] {
      var front := order[..|order| - 1];
      MergedIsLast(prepared, send, front, id);
      if id in Reply(prepared, send, order[|order| - 1]) {
        assert LastReply(prepared, send, order, |order| - 1, id);
      } else {
        forall i
          ensures LastReply(prepared, send, order, i, id) <==> LastReply(prepared, send, front, i, id)
        {
          assert forall j :: 0 <= j < |front| ==> front[j] == order[j];
        }
      }
    }
  }

  /** What some adapter has a result for, and nothing else, is in the results. */
  lemma {:induction false} MergedHas(prepared: SendRequest, send: Adapters, order: seq<Id>, id: Id)
    requires Asks(prepared, order)
    ensures id in Merged(prepared, send, order) <==> exists a :: a in SetOf(order) && id in Reply(prepared, send, a)
    ensures id in Merged(prepared, send, order) ==>
              exists a :: a in SetOf(order) && id in Reply(prepared, send, a)
                          && Merged(prepared, send, order)[id] == Reply(prepared, send, a)[id]
  {
    hide Reply;
    if order != [] {
      var (front, last) := (order[..|order| - 1], order[|order| - 1]);
      assert order == front + [last] && SetOf(order) == SetOf(front) + {last};
      MergedHas(prepared, send, front, id);
    }
  }

  /** No two adapters' parts have different results for one setter. */
  ghost predicate Agreed(prepared: SendRequest, send: Adapters) {
    forall a, b, id :: a in prepared && b in prepared && id in Reply(prepared, send, a) && id in Reply(prepared, send, b) ==>
                         Reply(prepared, send, a)[id] == Reply(prepared, send, b)[id]
  }

  /** An order in which all adapters of a request are asked. */
  predicate IsOrder(prepared: SendRequest, order: seq<Id>) {
    Distinct(order) && SetOf(order) == prepared.Keys && Asks(prepared, order)
  }

  /** The results do not depend on the order in which the adapters are asked iff their parts agree. */
  lemma MergeIsOrderFreeExactly(prepared: SendRequest, send: Adapters)
    ensures (forall order, order' :: IsOrder(prepared, order) && IsOrder(prepared, order') ==>
                                       Merged(prepared, send, order) == Merged(prepared, send, order'))
       <==> Agreed(prepared, send)
  {
    hide Reply, Merged;
    if Agreed(prepared, send) {
      forall order, order' | IsOrder(prepared, order) && IsOrder(prepared, order')
        ensures Merged(prepared, send, order) == Merged(prepared, send, order')
      {
        AgreedMerge(prepared, send, order, order');
      }
    } else {
      var a, b, id :| a in prepared && b in prepared && id in Reply(prepared, send, a) && id in Reply(prepared, send, b)
                      && Reply(prepared, send, a)[id] != Reply(prepared, send, b)[id];
      var order := OrderEndingIn(prepared, a);
      var order' := OrderEndingIn(prepared, b);
      LastCounts(prepared, send, order, id);
      LastCounts(prepared, send, order', id);
    }
  }

  lemma LastCounts(prepared: SendRequest, send: Adapters, order: seq<Id>, id: Id)
    requires Asks(prepared, order) && order != [] && id in Reply(prepared, send, order[|order| - 1])
    ensures id in Merged(prepared, send, order)
    ensures Merged(prepared, send, order)[id] == Reply(prepared, send, order[|order| - 1])[id]
  {
  }

  lemma AgreedMerge(prepared: SendRequest, send: Adapters, order: seq<Id>, order': seq<Id>)
    requires Agreed(prepared, send) && IsOrder(prepared, order) && IsOrder(prepared, order')
    ensures Merged(prepared, send, order) == Merged(prepared, send, order')
  {
    hide Reply, Merged;
    forall id
      ensures id in Merged(prepared, send, order) <==> id in Merged(prepared, send, order')
      ensures id in Merged(prepared, send, order) ==>
                Merged(prepared, send, order)[id] == Merged(prepared, send, order')[id]
    {
      MergedHas(prepared, send, order, id);
      MergedHas(prepared, send, order', id);
    }
  }

  lemma OrderEndingIn(prepared: SendRequest, a: Id) returns (order: seq<Id>)
    requires a in prepared
    ensures IsOrder(prepared, order) && order != [] && order[|order| - 1] == a
  {
    var front := OrderOf(prepared.Keys - {a});
    OrderOneMore(front, a);
    order := front + [a];
    assert forall i :: 0 <= i < |order| ==> order[i] in SetOf(order);
  }

  /** Every adapter answers only for setters of its own. */
  ghost predicate OwnOnly(views: map<Id, View>, ts: seq<Targetted<Value>>, send: Adapters) {
    forall a, id :: a in SendSpec(views, ts) && id in send(a, SendSpec(views, ts)[a].request) ==>
                      id in views && views[id].channel.adapter == a
  }

  /** The result for one setter: if some target addressed it with an ill-typed value it has failed, with the
      last such value, even if it was sent another one; else its adapter's answer counts, if there is one. */
  function Result(views: map<Id, View>, ts: seq<Targetted<Value>>, send: Adapters, id: Id): Option<Outcome>
    requires id in views
  {
    var (a, failed) := (views[id].channel.adapter, LastHit(views[id], ts, false));
    var spec := SendSpec(views, ts);
    if failed.Some? then Some(WrongType(Failure(views[id], failed.value)))
    else if a in spec && id in send(a, spec[a].request) then Some(send(a, spec[a].request)[id])
    else None
  }

  lemma SpecOfAdapter(views: map<Id, View>, ts: seq<Targetted<Value>>, a: Id)
    requires a in SendSpec(views, ts)
    ensures forall id :: id in SendSpec(views, ts)[a].request <==>
                           id in views && views[id].channel.adapter == a && LastHit(views[id], ts, true).Some?
    ensures forall id :: id in SendSpec(views, ts)[a].failures <==>
                           id in views && views[id].channel.adapter == a && LastHit(views[id], ts, false).Some?
    ensures forall id :: id in SendSpec(views, ts)[a].failures ==>
                           SendSpec(views, ts)[a].failures[id] == Failure(views[id], LastHit(views[id], ts, false).value)
  {
  }

  /** A setter's result is in its own adapter's part and in no other. */
  lemma ReplyIsResult(views: map<Id, View>, ts: seq<Targetted<Value>>, send: Adapters, a: Id, id: Id)
    requires OwnOnly(views, ts, send) && a in SendSpec(views, ts)
    ensures id in Reply(SendSpec(views, ts), send, a) <==>
            id in views && views[id].channel.adapter == a && Result(views, ts, send, id).Some?
    ensures id in Reply(SendSpec(views, ts), send, a) ==>
              Reply(SendSpec(views, ts), send, a)[id] == Result(views, ts, send, id).value
  {
    hide LastHit, SendSpec, Failure;
    SpecOfAdapter(views, ts, a);
  }

  /** If adapters answer only for their own setters, the results are, in any order, those stated per setter. */
  lemma ResultsExactly(views: map<Id, View>, ts: seq<Targetted<Value>>, send: Adapters, order: seq<Id>, id: Id)
    requires OwnOnly(views, ts, send) && IsOrder(SendSpec(views, ts), order)
    ensures var r := Merged(SendSpec(views, ts), send, order);
      && (id in r <==> id in views && Result(views, ts, send, id).Some?)
      && (id in r ==> r[id] == Result(views, ts, send, id).value)
  {
    hide LastHit, Merged, Reply, Failure, OwnOnly, Result, SendSpec;
    var spec := SendSpec(views, ts);
    MergedHas(spec, send, order, id);
    forall a | a in spec
      ensures id in Reply(spec, send, a) <==>
              id in views && views[id].channel.adapter == a && Result(views, ts, send, id).Some?
      ensures id in Reply(spec, send, a) ==> Reply(spec, send, a)[id] == Result(views, ts, send, id).value
    {
      ReplyIsResult(views, ts, send, a, id);
    }
    if id in views && Result(views, ts, send, id).Some? {
      ResultHasAdapter(views, ts, send, id);
    }
  }

  lemma ResultHasAdapter(views: map<Id, View>, ts: seq<Targetted<Value>>, send: Adapters, id: Id)
    requires id in views && Result(views, ts, send, id).Some?
    ensures views[id].channel.adapter in SendSpec(views, ts)
  {
    if LastHit(views[id], ts, false).Some? {
      assert Addressed(views[id], ts) && id in views;
    }
  }

  /** The adapter's part has a result for the setter iff the adapter is sent a value for it or a type failure
      stands for it. */
  predicate AnswersFor(prepared: SendRequest, send: Adapters, a: Id, id: Id) {
    a in prepared ==> (id in Reply(prepared, send, a) <==> id in prepared[a].request || id in prepared[a].failures)
  }

  /** Then a setter has a result exactly if it was addressed, if and only if its adapter answers for it when,
      and only when, it is asked. */
  lemma ResultsAreOfAddressedExactly(views: map<Id, View>, ts: seq<Targetted<Value>>, send: Adapters, order: seq<Id>, id: Id)
    requires OwnOnly(views, ts, send) && IsOrder(SendSpec(views, ts), order)
    ensures var spec := SendSpec(views, ts);
      (id in Merged(spec, send, order) <==> id in views && Addressed(views[id], ts))
      <==> (id in views ==> AnswersFor(spec, send, views[id].channel.adapter, id))
  {
    hide LastHit, Merged, Reply, Failure, OwnOnly, Result, SendSpec;
    ResultsExactly(views, ts, send, order, id);
    if id in views {
      var a := views[id].channel.adapter;
      if Result(views, ts, send, id).Some? {
        ResultHasAdapter(views, ts, send, id);
      }
      if Addressed(views[id], ts) {
        AddressedHasAdapter(views, ts, id);
      }
      if a in SendSpec(views, ts) {
        SpecOfAdapter(views, ts, a);
        ReplyIsResult(views, ts, send, a, id);
      }
    }
  }

  lemma AddressedHasAdapter(views: map<Id, View>, ts: seq<Targetted<Value>>, id: Id)
    requires id in views && Addressed(views[id], ts)
    ensures views[id].channel.adapter in SendSpec(views, ts)
  {
  }

  // ---------------------------------------------------------------- the type check of a fetch

  /** What an adapter says about one getter: a value, that there is none, or an error. */
  datatype Fetched = Value(value: Value) | Nothing | Unavailable | IllTyped(failure: TypeFailure)

  /** A value must have the getter's type. */
  function Check(typ: Type, result: Fetched): Fetched {
    if result.Value? && TypeOf(result.value) != typ then IllTyped(TypeFailure(typ, TypeOf(result.value))) else result
  }

  /** The check as coded: the answers are paired off with the types of the getters asked for, each in the
      order in which its hash map happens to be walked. */
  function Checked(asked: map<Id, Type>, got: map<Id, Fetched>, types: seq<Id>, answers: seq<Id>): map<Id, Fetched>
    requires SetOf(types) == asked.Keys && SetOf(answers) == got.Keys
  {
    CheckedTo(asked, got, types, answers, if |types| < |answers| then |types| else |answers|)
  }

  function CheckedTo(asked: map<Id, Type>, got: map<Id, Fetched>, types: seq<Id>, answers: seq<Id>, n: nat): map<Id, Fetched>
    requires SetOf(types) == asked.Keys && SetOf(answers) == got.Keys && n <= |types| && n <= |answers|
  {
    if n == 0 then map[]
    else
      assert types[n - 1] in SetOf(types) && answers[n - 1] in SetOf(answers);
      CheckedTo(asked, got, types, answers, n - 1)
        [answers[n - 1] := Check(asked[types[n - 1]], got[answers[n - 1]])]
  }

  lemma {:induction false} CheckedToAt(asked: map<Id, Type>, got: map<Id, Fetched>, types: seq<Id>, answers: seq<Id>, n: nat, i: nat)
    requires SetOf(types) == asked.Keys && SetOf(answers) == got.Keys && Distinct(answers)
    requires n <= |types| && n <= |answers| && i < |answers|
    ensures answers[i] in CheckedTo(asked, got, types, answers, n) <==> i < n
    ensures i < n ==> types[i] in asked && answers[i] in got
                      && CheckedTo(asked, got, types, answers, n)[answers[i]] == Check(asked[types[i]], got[answers[i]])
  {
    if n > 0 {
      CheckedToAt(asked, got, types, answers, n - 1, i);
      assert types[n - 1] in SetOf(types) && answers[n - 1] in SetOf(answers);
    }
  }

  ghost predicate IsWalk(keys: set<Id>, order: seq<Id>) {
    Distinct(order) && SetOf(order) == keys
  }

  /** Whatever the orders, the getter's answer is kept, or is an error if it is a value of another type than
      the getter's. */
  ghost predicate CheckedRightly(asked: map<Id, Type>, got: map<Id, Fetched>, id: Id)
    requires id in asked && id in got
  {
    forall types, answers :: IsWalk(asked.Keys, types) && IsWalk(got.Keys, answers) ==>
      && id in Checked(asked, got, types, answers)
      && var r := Checked(asked, got, types, answers)[id];
         if got[id].Value? && TypeOf(got[id].value) != asked[id]
         then r == IllTyped(TypeFailure(asked[id], TypeOf(got[id].value))) else r == got[id]
  }

  /** The check is right for a getter, whatever the orders, exactly if the adapter does not answer for more
      getters than it was asked for and, should it answer with a value, all getters asked for have one type. */
  lemma FetchCheckedExactly(asked: map<Id, Type>, got: map<Id, Fetched>, id: Id)
    requires id in asked && id in got
    ensures CheckedRightly(asked, got, id)
       <==> |got| <= |asked| && (got[id].Value? ==> forall x :: x in asked ==> asked[x] == asked[id])
  {
    hide CheckedRightly;
    if |got| <= |asked| && (got[id].Value? ==> forall x :: x in asked ==> asked[x] == asked[id]) {
      OneTypeIsRight(asked, got, id);
    } else if |got| > |asked| {
      ManyAnswersAreDropped(asked, got, id);
    } else {
      var x :| x in asked && asked[x] != asked[id];
      TypesAreMixed(asked, got, id, x);
    }
  }

  lemma OneTypeIsRight(asked: map<Id, Type>, got: map<Id, Fetched>, id: Id)
    requires id in asked && id in got && |got| <= |asked|
    requires got[id].Value? ==> forall x :: x in asked ==> asked[x] == asked[id]
    ensures CheckedRightly(asked, got, id)
  {
    hide Checked;
    forall types, answers | IsWalk(asked.Keys, types) && IsWalk(got.Keys, answers)
      ensures id in Checked(asked, got, types, answers)
      ensures Checked(asked, got, types, answers)[id] == Check(asked[id], got[id])
    {
      WalkCounts(asked.Keys, types);
      WalkCounts(got.Keys, answers);
      assert id in SetOf(answers);
      var i :| 0 <= i < |answers| && answers[i] == id;
      CheckedAt(asked, got, types, answers, i);
    }
  }

  lemma ManyAnswersAreDropped(asked: map<Id, Type>, got: map<Id, Fetched>, id: Id)
    requires id in asked && id in got && |got| > |asked|
    ensures !CheckedRightly(asked, got, id)
  {
    hide Checked;
    var types := OrderOf(asked.Keys);
    var front := OrderOf(got.Keys - {id});
    OrderOneMore(front, id);
    WalkCounts(asked.Keys, types);
    WalkCounts(got.Keys, front + [id]);
    CheckedAt(asked, got, types, front + [id], |front|);
  }

  lemma TypesAreMixed(asked: map<Id, Type>, got: map<Id, Fetched>, id: Id, x: Id)
    requires id in asked && id in got && got[id].Value? && x in asked && asked[x] != asked[id]
    ensures !CheckedRightly(asked, got, id)
  {
    hide Checked;
    var types := WalkFrom(asked.Keys, x);
    var answers := WalkFrom(got.Keys, id);
    CheckedAt(asked, got, types, answers, 0);
  }

  lemma CheckedAt(asked: map<Id, Type>, got: map<Id, Fetched>, types: seq<Id>, answers: seq<Id>, i: nat)
    requires IsWalk(asked.Keys, types) && IsWalk(got.Keys, answers) && i < |answers|
    ensures answers[i] in Checked(asked, got, types, answers) <==> i < |types|
    ensures i < |types| ==> types[i] in asked && answers[i] in got
                            && Checked(asked, got, types, answers)[answers[i]] == Check(asked[types[i]], got[answers[i]])
  {
    CheckedToAt(asked, got, types, answers, if |types| < |answers| then |types| else |answers|, i);
  }

  lemma WalkCounts(keys: set<Id>, order: seq<Id>)
    requires IsWalk(keys, order)
    ensures |order| == |keys|
  {
    DistinctCounts(order);
  }

  lemma WalkFrom(keys: set<Id>, first: Id) returns (order: seq<Id>)
    requires first in keys
    ensures IsWalk(keys, order) && order != [] && order[0] == first
  {
    var rest := OrderOf(keys - {first});
    order := [first] + rest;
    assert forall i :: 0 <= i < |rest| ==> rest[i] in SetOf(rest);
    assert SetOf(order) == {first} + SetOf(rest);
  }
}
