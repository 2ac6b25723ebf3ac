/** What watching is about: the keys of watches, registrations, and the events listeners are sent. */
module Watching {
  import opened Common
  import opened Services

  type Key = nat

  /** One getter that one watcher is to be registered with. */
  datatype Entry = Entry(id: Id, key: Key)

  datatype WatchEvent =
    | InitializationError(id: Id)
    | GetterAdded(id: Id)
    | GetterRemoved(id: Id)
    | EnterRange(id: Id)
    | ExitRange(id: Id)

  /** How a request is served: in this order, its `refused` entries being turned down by their adapters. */
  datatype Serving = Serving(order: seq<Entry>, refused: set<Entry>)
}

/** The watch index as values: which getters are watched by whom, and what the listeners have been told
    (components/taxonomy/src/backend.rs). Each call runs to completion. */
module Topology {
  import opened Common
  import opened Services
  import opened Selectors
  import opened Requests
  import opened Values
  import opened Watching

  /** A watch asks for the values of the getters that a target selects, unless the payload is `Never`: then
      only for word of getters that come and go. */
  type Target = Targetted<Exactly<Value>>

  function AllSelectors(targets: seq<Target>): seq<Selector> {
    if targets == [] then [] else AllSelectors(targets[..|targets| - 1]) + targets[|targets| - 1].select
  }

  /** How many targets select the channel. */
  function HitCount(targets: seq<Target>, v: View): nat {
    if targets == [] then 0
    else HitCount(targets[..|targets| - 1], v) + if v.SelectedBy(targets[|targets| - 1].select) then 1 else 0
  }

  /** Some target that selects the channel asks for its values. */
  predicate Ranged(targets: seq<Target>, v: View) {
    exists t :: t in targets && !t.payload.Never? && v.SelectedBy(t.select)
  }

  predicate AllRanged(targets: seq<Target>) {
    forall t :: t in targets ==> !t.payload.Never?
  }

  /** `initial` are the getters that matched when the watch started. */
  datatype Watcher = Watcher(
    targets: seq<Target>,
    dropped: bool,
    guards: set<Id>,
    events: seq<WatchEvent>,
    initial: set<Id>)
  {
    function Select(): seq<Selector> {
      AllSelectors(targets)
    }
  }

  datatype Getter = Getter(view: View, watchers: set<Key>)

  datatype Table = Table(getters: map<Id, Getter>, watchers: map<Key, Watcher>, counter: Key)

  predicate Wants(w: Watcher, v: View) {
    v.SelectedBy(w.Select())
  }

  // ---------------------------------------------------------------- what the code does

  /** The live watchers without a guard for getter `id` that a selector connects to it. */
  function JoinsOf(watchers: map<Key, Watcher>, id: Id, v: View): set<Key> {
    set k | k in watchers && !watchers[k].dropped && id !in watchers[k].guards && Wants(watchers[k], v)
  }

  function Joins(t: Table, id: Id): set<Key>
    requires id in t.getters
  {
    JoinsOf(t.watchers, id, t.getters[id].view)
  }

  function Told(watchers: map<Key, Watcher>, keys: set<Key>, event: WatchEvent): map<Key, Watcher> {
    map k | k in watchers ::
      if k in keys then watchers[k].(events := watchers[k].events + [event]) else watchers[k]
  }

  function Unguarded(watchers: map<Key, Watcher>, keys: set<Key>, id: Id): map<Key, Watcher> {
    map k | k in watchers ::
      if k in keys then watchers[k].(guards := watchers[k].guards - {id}) else watchers[k]
  }

  /** A getter is new or has changed: every watcher it joins is told and put into its list. */
  function Connected(t: Table, id: Id): Table
    requires id in t.getters
  {
    var keys := Joins(t, id);
    t.(getters := t.getters[id := t.getters[id].(watchers := t.getters[id].watchers + keys)],
       watchers := Told(t.watchers, keys, GetterAdded(id)))
  }

  /** A watcher that getter `id` would join is in its list already, or has several targets that select it. */
  predicate Clashes(t: Table, id: Id) {
    id in t.getters && exists k :: k in Joins(t, id) && IsClash(t, id, k)
  }

  predicate IsClash(t: Table, id: Id, k: Key)
    requires id in t.getters && k in t.watchers
  {
    k in t.getters[id].watchers || HitCount(t.watchers[k].targets, t.getters[id].view) > 1
  }

  ghost predicate SomeClash(t: Table, order: seq<Id>) {
    exists i :: 0 <= i < |order| && Clashes(t, order[i])
  }

  function EntriesOf(id: Id, keys: set<Key>): set<Entry> {
    set k | k in keys :: Entry(id, k)
  }

  /** The registrations to ask the adapters for. */
  function Asked(t: Table, id: Id): set<Entry>
    requires id in t.getters
  {
    EntriesOf(id, RangedOf(t.watchers, Joins(t, id), t.getters[id].view))
  }

  /** Those of the watchers that ask for the channel's values. */
  function RangedOf(watchers: map<Key, Watcher>, keys: set<Key>, v: View): set<Key> {
    set k | k in keys && k in watchers && Ranged(watchers[k].targets, v)
  }

  /** The live watchers in a getter's list that the getter leaves: all when it is removed, else those with
      a selector that does not match it. */
  function LeavesOf(watchers: map<Key, Watcher>, listed: set<Key>, v: View, removed: bool): set<Key> {
    set k | k in listed && k in watchers && !watchers[k].dropped
            && (removed || MissesAny(watchers[k].Select(), v.serviceTags, v.channel))
  }

  function Leaves(t: Table, id: Id, removed: bool): set<Key>
    requires id in t.getters
  {
    LeavesOf(t.watchers, t.getters[id].watchers, t.getters[id].view, removed)
  }

  /** Every watcher the getter leaves is told, and loses its guard and its place in the getter's list.
      Watchers that are gone are forgotten on the way. */
  function Disconnected(t: Table, id: Id, removed: bool): Table
    requires id in t.getters
  {
    var keys := Leaves(t, id, removed);
    t.(getters := t.getters[id := t.getters[id].(watchers := t.getters[id].watchers * t.watchers.Keys - keys)],
       watchers := Unguarded(Told(t.watchers, keys, GetterRemoved(id)), keys, id))
  }

  function IdsFor(request: set<Entry>, key: Key): set<Id> {
    set e | e in request && e.key == key :: e.id
  }

  /** One entry is served: the watcher gets a guard or, if the adapter refuses, is sent an error. Watchers
      that are gone or dropped are passed over. */
  function Registered(t: Table, e: Entry, turnedDown: bool): Table {
    if e.key !in t.watchers || t.watchers[e.key].dropped then t
    else t.(watchers := t.watchers[e.key := Answered(t.watchers[e.key], e.id, turnedDown)])
  }

  function Answered(w: Watcher, id: Id, turnedDown: bool): Watcher {
    if turnedDown then w.(events := w.events + [InitializationError(id)]) else w.(guards := w.guards + {id})
  }

  function RegisteredAll(t: Table, order: seq<Entry>, refused: set<Entry>): Table {
    if order == [] then t
    else var e := order[|order| - 1];
         Registered(RegisteredAll(t, order[..|order| - 1], refused), e, e in refused)
  }

  function Served(t: Table, serving: Serving): Table {
    RegisteredAll(t, serving.order, serving.refused)
  }

  /** The serving is one of this request. */
  predicate Serves(serving: Serving, request: set<Entry>) {
    Distinct(serving.order) && SetOf(serving.order) == request
  }

  function Selected(t: Table, sels: seq<Selector>): set<Id> {
    set id | id in t.getters && t.getters[id].view.SelectedBy(sels)
  }

  function WithTags(g: Getter, tags: set<Id>): Getter {
    g.(view := g.view.(channel := g.view.channel.(tags := tags)))
  }

  function TagsOf(g: Getter): set<Id> {
    g.view.channel.tags
  }

  // ---------------------------------------------------------------- whole calls

  function Listed(t: Table, ids: set<Id>, key: Key): map<Id, Getter> {
    map id | id in t.getters ::
      if id in ids then t.getters[id].(watchers := t.getters[id].watchers + {key}) else t.getters[id]
  }

  function EntriesFor(ids: set<Id>, key: Key): set<Entry> {
    set id | id in ids :: Entry(id, key)
  }

  /** The new watcher is there, and in the lists of these getters. */
  function Listing(t: Table, targets: seq<Target>, ids: set<Id>): Table {
    Table(Listed(t, ids, t.counter),
          t.watchers[t.counter := Watcher(targets, false, {}, [], Selected(t, AllSelectors(targets)))], t.counter + 1)
  }

  /** `watch_values` up to the request for the adapters. */
  function Prepared(t: Table, targets: seq<Target>): Table {
    Listing(t, targets, Selected(t, AllSelectors(targets)))
  }

  /** The getters whose values some target asks for. */
  function RangedIn(t: Table, targets: seq<Target>): set<Id> {
    set id | id in t.getters && Ranged(targets, t.getters[id].view)
  }

  /** The registrations a new watch asks for. */
  function WatchAsks(t: Table, targets: seq<Target>): set<Entry> {
    EntriesFor(RangedIn(t, targets), t.counter)
  }

  /** Some getter is selected by several targets. */
  predicate Overlap(t: Table, targets: seq<Target>) {
    exists id :: id in t.getters && HitCount(targets, t.getters[id].view) > 1
  }

  function Dropped(t: Table, key: Key): Table
    requires key in t.watchers
  {
    t.(watchers := t.watchers[key := t.watchers[key].(dropped := true)])
  }

  function Unlisted(t: Table, ids: set<Id>, key: Key): map<Id, Getter> {
    map id | id in t.getters ::
      if id in ids then t.getters[id].(watchers := t.getters[id].watchers - {key}) else t.getters[id]
  }

  function Stopped(t: Table, key: Key): Table {
    if key !in t.watchers then t
    else t.(getters := Unlisted(t, t.watchers[key].guards, key), watchers := t.watchers - {key})
  }

  function WithGetter(t: Table, v: View): Table {
    t.(getters := t.getters[v.channel.id := Getter(v, {})])
  }

  function NewGetter(t: Table, v: View, serving: Serving): Table {
    Served(Connected(WithGetter(t, v), v.channel.id), serving)
  }

  /** The new getter does not clash, and the request is served. */
  predicate NewGetterServed(t: Table, v: View, serving: Serving) {
    var t1 := WithGetter(t, v);
    !Clashes(t1, v.channel.id) && Serves(serving, Asked(t1, v.channel.id))
  }

  function WithoutGetter(t: Table, id: Id): Table {
    t.(getters := t.getters - {id})
  }

  function LostGetter(t: Table, id: Id): Table
    requires id in t.getters
  {
    WithoutGetter(Disconnected(t, id, true), id)
  }

  /** The getters among `ids` have got the tags. */
  function Tagged(t: Table, ids: set<Id>, tags: set<Id>): Table {
    t.(getters := map id | id in t.getters ::
         if id in ids then WithTags(t.getters[id], TagsOf(t.getters[id]) + tags) else t.getters[id])
  }

  /** The getters among `ids` that the tags are news to. */
  function Changed(t: Table, ids: set<Id>, tags: set<Id>): set<Id> {
    set id | id in ids && id in t.getters && !(tags <= TagsOf(t.getters[id]))
  }

  predicate KnownGetters(t: Table, order: seq<Id>) {
    forall i :: 0 <= i < |order| ==> order[i] in t.getters
  }

  function ConnectedAll(t: Table, order: seq<Id>): Table
    requires KnownGetters(t, order)
    ensures ConnectedAll(t, order).getters.Keys == t.getters.Keys
  {
    if order == [] then t
    else Connected(ConnectedAll(t, order[..|order| - 1]), order[|order| - 1])
  }

  function AskedAll(t: Table, order: seq<Id>): set<Entry>
    requires KnownGetters(t, order)
  {
    if order == [] then {}
    else AskedAll(t, order[..|order| - 1]) + Asked(ConnectedAll(t, order[..|order| - 1]), order[|order| - 1])
  }

  function TagsAdded(t: Table, ids: set<Id>, tags: set<Id>, order: seq<Id>, serving: Serving): Table
    requires KnownGetters(t, order)
  {
    Served(ConnectedAll(Tagged(t, ids, tags), order), serving)
  }

  /** The tags are news to the getters of `order`, none of which clashes, and the request is served. */
  ghost predicate TagsAddedServed(t: Table, ids: set<Id>, tags: set<Id>, order: seq<Id>, serving: Serving) {
    var t1 := Tagged(t, ids, tags);
    && Distinct(order) && SetOf(order) == Changed(t, ids, tags) && KnownGetters(t, order)
    && !SomeClash(t1, order)
    && Serves(serving, AskedAll(t1, order))
  }

  /** Take tags from one getter and see whom it leaves. */
  function Untagged(t: Table, id: Id, tags: set<Id>): Table
    requires id in t.getters
  {
    Disconnected(t.(getters := t.getters[id := WithTags(t.getters[id], TagsOf(t.getters[id]) - tags)]), id, false)
  }

  function TagsRemoved(t: Table, tags: set<Id>, order: seq<Id>): Table
    requires KnownGetters(t, order)
    ensures TagsRemoved(t, tags, order).getters.Keys == t.getters.Keys
  {
    if order == [] then t
    else Untagged(TagsRemoved(t, tags, order[..|order| - 1]), order[|order| - 1], tags)
  }

  /** Tags were added to or removed from some services; no watcher is looked at. */
  function ServicesRetagged(t: Table, services: set<Id>, tags: set<Id>, add: bool): Table {
    t.(getters := map id | id in t.getters ::
         if t.getters[id].view.channel.service in services then WithServiceTags(t.getters[id], tags, add)
         else t.getters[id])
  }

  function WithServiceTags(g: Getter, tags: set<Id>, add: bool): Getter {
    g.(view := g.view.(serviceTags := NewTags(g.view.serviceTags, tags, add)))
  }

  function NewTags(known: set<Id>, tags: set<Id>, add: bool): set<Id> {
    if add then known + tags else known - tags
  }

  /** A service is removed: its getters go, and no watcher is looked at. */
  function ServiceRemoved(t: Table, ids: set<Id>): Table {
    t.(getters := t.getters - ids)
  }

  // ---------------------------------------------------------------- what it is for

  /** The getters a listener knows of: those it was first told plus added minus removed since. */
  function Replay(initial: set<Id>, events: seq<WatchEvent>): set<Id> {
    if events == [] then initial
    else Known(Replay(initial, events[..|events| - 1]), events[|events| - 1])
  }

  function Known(before: set<Id>, event: WatchEvent): set<Id> {
    if event.GetterAdded? then before + {event.id}
    else if event.GetterRemoved? then before - {event.id}
    else before
  }

  /** The getters that an adapter refused to watch for a listener, and that were neither added nor removed
      since. */
  function Failed(events: seq<WatchEvent>): set<Id> {
    if events == [] then {}
    else StillFailed(Failed(events[..|events| - 1]), events[|events| - 1])
  }

  function StillFailed(before: set<Id>, event: WatchEvent): set<Id> {
    if event.InitializationError? then before + {event.id}
    else if event.GetterRemoved? || event.GetterAdded? then before - {event.id}
    else before
  }

  function AttachedSet(t: Table, key: Key): set<Id> {
    set id | id in t.getters && key in t.getters[id].watchers
  }

  function MatchSet(t: Table, w: Watcher): set<Id> {
    set id | id in t.getters && Wants(w, t.getters[id].view)
  }

  /** The watchers the guarantee is for: live, with selectors that agree and ask for no service tag. */
  ghost predicate Covered(w: Watcher) {
    !w.dropped && Agreeing(w.Select()) && IgnoresServiceTags(w.Select())
  }

  /** What a watcher and its listener know is true: the listener knows of exactly the getters that list the
      watcher, and the watcher has guards for no others, for none that an adapter refused, and for none for
      which a request is under way; if it asks for values everywhere, for all the rest, and if nowhere, for
      none. */
  ghost predicate Tracks(t: Table, key: Key, request: set<Entry>)
    requires key in t.watchers
  {
    var (w, asked) := (t.watchers[key], IdsFor(request, key));
    && Replay(w.initial, w.events) == AttachedSet(t, key)
    && asked + Failed(w.events) + w.guards <= AttachedSet(t, key)
    && asked !! Failed(w.events) && w.guards !! asked + Failed(w.events)
    && (AllRanged(w.targets) ==> w.guards == AttachedSet(t, key) - asked - Failed(w.events))
    && (NoneRanged(w.targets) ==> asked + Failed(w.events) + w.guards == {})
  }

  predicate NoneRanged(targets: seq<Target>) {
    forall t :: t in targets ==> t.payload.Never?
  }

  /** A channel is selected by the selectors of all targets together iff some target selects it. */
  lemma {:induction false} HitsSelect(targets: seq<Target>, v: View)
    ensures v.SelectedBy(AllSelectors(targets)) <==> exists t :: t in targets && v.SelectedBy(t.select)
    ensures v.SelectedBy(AllSelectors(targets)) <==> HitCount(targets, v) > 0
    ensures AllRanged(targets) ==> (Ranged(targets, v) <==> v.SelectedBy(AllSelectors(targets)))
    ensures Ranged(targets, v) ==> v.SelectedBy(AllSelectors(targets))
    ensures NoneRanged(targets) ==> !Ranged(targets, v)
    ensures |targets| <= 1 ==> HitCount(targets, v) <= 1
  {
    if targets != [] {
      var (front, last) := (targets[..|targets| - 1], targets[|targets| - 1]);
      HitsSelect(front, v);
      assert targets == front + [last];
      SelectedByBoth(v, AllSelectors(front), last.select);
      assert |targets| <= 1 ==> front == [];
    }
  }

  lemma HitStep(targets: seq<Target>, i: nat, v: View)
    requires i < |targets|
    ensures HitCount(targets[..i + 1], v) == HitCount(targets[..i], v) + if v.SelectedBy(targets[i].select) then 1 else 0
    ensures v.SelectedBy(AllSelectors(targets[..i + 1]))
       <==> v.SelectedBy(AllSelectors(targets[..i])) || v.SelectedBy(targets[i].select)
    ensures Ranged(targets[..i + 1], v)
       <==> Ranged(targets[..i], v) || (!targets[i].payload.Never? && v.SelectedBy(targets[i].select))
  {
    assert targets[..i + 1] == targets[..i] + [targets[i]] && targets[..i + 1][..i] == targets[..i];
    SelectedByBoth(v, AllSelectors(targets[..i]), targets[i].select);
  }

  lemma {:induction false} HitCountGrows(targets: seq<Target>, i: nat, v: View)
    requires i <= |targets|
    ensures HitCount(targets[..i], v) <= HitCount(targets, v)
    decreases |targets| - i
  {
    if i < |targets| {
      HitStep(targets, i, v);
      HitCountGrows(targets, i + 1, v);
    } else {
      assert targets[..i] == targets;
    }
  }

  lemma SelectedByBoth(v: View, a: seq<Selector>, b: seq<Selector>)
    ensures v.SelectedBy(a + b) <==> v.SelectedBy(a) || v.SelectedBy(b)
  {
    assert forall x :: x in a + b <==> x in a || x in b;
  }

  /** Apart from the getters in `open`, the watcher's getters are exactly those that match it. */
  ghost predicate MatchesBut(t: Table, key: Key, open: set<Id>)
    requires key in t.watchers
  {
    AttachedSet(t, key) - open == MatchSet(t, t.watchers[key]) - open
  }

  /** What a live watcher and its listener know is true; and a covered watcher watches exactly the registered
      getters that match it. */
  ghost predicate Exact(t: Table, key: Key)
    requires key in t.watchers
  {
    && (!t.watchers[key].dropped ==> Tracks(t, key, {}))
    && (Covered(t.watchers[key]) ==> AttachedSet(t, key) == MatchSet(t, t.watchers[key]))
  }

  predicate KeysBelow(keys: set<Key>, bound: Key) {
    forall k :: k in keys ==> k < bound
  }

  predicate WellKeyed(t: Table) {
    && KeysBelow(t.watchers.Keys, t.counter)
    && (forall id :: id in t.getters ==> KeysBelow(t.getters[id].watchers, t.counter))
    && (forall id :: id in t.getters ==> t.getters[id].view.channel.id == id)
  }

  /** What all live watchers and their listeners know is true. */
  ghost predicate AllTracked(t: Table) {
    forall k :: k in t.watchers && !t.watchers[k].dropped ==> Tracks(t, k, {})
  }

  ghost predicate AllExact(t: Table) {
    WellKeyed(t) && forall k :: k in t.watchers ==> Exact(t, k)
  }

  // ---------------------------------------------------------------- connecting

  lemma EventStep(initial: set<Id>, events: seq<WatchEvent>, e: WatchEvent)
    ensures Replay(initial, events + [e]) == Known(Replay(initial, events), e)
    ensures Failed(events + [e]) == StillFailed(Failed(events), e)
  {
  }

  lemma IdsForAsked(t: Table, id: Id, request: set<Entry>, key: Key)
    requires id in t.getters
    ensures IdsFor(request + Asked(t, id), key)
         == IdsFor(request, key) + if key in RangedOf(t.watchers, Joins(t, id), t.getters[id].view) then {id} else {}
  {
    var keys := RangedOf(t.watchers, Joins(t, id), t.getters[id].view);
    if key in keys {
      assert Entry(id, key) in Asked(t, id);
    }
    forall e | e in Asked(t, id) && e.key == key
      ensures key in keys && e.id == id
    {
    }
  }

  lemma ConnectedSets(t: Table, id: Id, key: Key)
    requires id in t.getters && key in t.watchers
    ensures var t' := Connected(t, id);
      && AttachedSet(t', key) == AttachedSet(t, key) + (if key in Joins(t, id) then {id} else {})
      && (forall w :: MatchSet(t', w) == MatchSet(t, w))
  {
  }

  /** Connecting a getter without a clash keeps what is known true, counting the requests. */
  lemma ConnectedTracks(t: Table, id: Id, key: Key, request: set<Entry>)
    requires id in t.getters && key in t.watchers && Tracks(t, key, request) && !Clashes(t, id)
    ensures Tracks(Connected(t, id), key, request + Asked(t, id))
  {
    var w := t.watchers[key];
    IdsForAsked(t, id, request, key);
    ConnectedSets(t, id, key);
    HitsSelect(w.targets, t.getters[id].view);
    if key in Joins(t, id) {
      EventStep(w.initial, w.events, GetterAdded(id));
      assert !IsClash(t, id, key);
      assert id !in AttachedSet(t, key);
    }
  }

  /** A live watcher is connected if it matches; it had no guard unless it already was. */
  lemma ConnectedMatches(t: Table, id: Id, key: Key, request: set<Entry>, open: set<Id>)
    requires id in t.getters && key in t.watchers && !t.watchers[key].dropped
    requires Tracks(t, key, request) && MatchesBut(t, key, open)
    requires id in AttachedSet(t, key) ==> Wants(t.watchers[key], t.getters[id].view)
    ensures MatchesBut(Connected(t, id), key, open - {id})
    ensures AttachedSet(t, key) <= MatchSet(t, t.watchers[key]) ==>
              AttachedSet(Connected(t, id), key) <= MatchSet(Connected(t, id), Connected(t, id).watchers[key])
  {
    ConnectedSets(t, id, key);
    assert Connected(t, id).watchers[key].targets == t.watchers[key].targets;
    var (attached, matching) := (AttachedSet(t, key), MatchSet(t, t.watchers[key]));
    assert MatchSet(Connected(t, id), Connected(t, id).watchers[key]) == matching;
    assert id in t.watchers[key].guards ==> id in attached;
    assert AttachedSet(Connected(t, id), key) == if id in matching then attached + {id} else attached;
    CloseOne(attached, matching, open, id);
  }

  lemma CloseOne(attached: set<Id>, matching: set<Id>, open: set<Id>, id: Id)
    requires attached - open == matching - open && (id in attached ==> id in matching)
    ensures (if id in matching then attached + {id} else attached) - (open - {id}) == matching - (open - {id})
  {
    forall x | x != id && x !in open
      ensures x in attached <==> x in matching
    {
      assert x in attached - open <==> x in matching - open;
    }
  }

  // ---------------------------------------------------------------- serving requests

  /** Serving an entry changes no getter, and no watcher but its own. */
  lemma RegisteredSets(t: Table, e: Entry, turnedDown: bool, key: Key)
    requires key in t.watchers
    ensures var t' := Registered(t, e, turnedDown);
      && t'.getters == t.getters && t'.watchers.Keys == t.watchers.Keys && t'.counter == t.counter
      && (e.key != key ==> t'.watchers[key] == t.watchers[key])
      && t'.watchers[key].(guards := {}, events := []) == t.watchers[key].(guards := {}, events := [])
      && AttachedSet(t', key) == AttachedSet(t, key)
      && MatchSet(t', t'.watchers[key]) == MatchSet(t, t.watchers[key])
  {
  }

  /** An entry of the request under way is served: it leaves the request. */
  lemma RegisteredTracks(t: Table, e: Entry, turnedDown: bool, key: Key, rest: set<Entry>)
    requires key in t.watchers && !t.watchers[key].dropped && e !in rest && Tracks(t, key, rest + {e})
    ensures Tracks(Registered(t, e, turnedDown), key, rest)
  {
    hide AttachedSet, MatchSet, Replay, Failed;
    var w := t.watchers[key];
    RegisteredSets(t, e, turnedDown, key);
    IdsForOneMore(rest, e, key);
    EventStep(w.initial, w.events, InitializationError(e.id));
  }

  lemma IdsForOneMore(rest: set<Entry>, e: Entry, key: Key)
    requires e !in rest
    ensures IdsFor(rest + {e}, key) == IdsFor(rest, key) + if e.key == key then {e.id} else {}
    ensures e.key == key ==> e.id !in IdsFor(rest, key)
  {
    forall e' | e' in rest && e'.key == e.key
      ensures e'.id != e.id
    {
      assert e' == Entry(e'.id, e'.key) && e == Entry(e.id, e.key);
    }
  }

  lemma {:induction false} RegisteredAllKeeps(t: Table, order: seq<Entry>, refused: set<Entry>)
    ensures var t' := RegisteredAll(t, order, refused);
      t'.getters == t.getters && t'.watchers.Keys == t.watchers.Keys && t'.counter == t.counter
  {
    if order != [] {
      RegisteredAllKeeps(t, order[..|order| - 1], refused);
    }
  }

  lemma {:induction false} RegisteredAllSets(t: Table, order: seq<Entry>, refused: set<Entry>, key: Key)
    requires key in t.watchers
    ensures var t' := RegisteredAll(t, order, refused);
      && t'.getters == t.getters && t'.watchers.Keys == t.watchers.Keys && t'.counter == t.counter
      && t'.watchers[key].(guards := {}, events := []) == t.watchers[key].(guards := {}, events := [])
      && AttachedSet(t', key) == AttachedSet(t, key)
      && MatchSet(t', t'.watchers[key]) == MatchSet(t, t.watchers[key])
  {
    if order != [] {
      var front := order[..|order| - 1];
      RegisteredAllSets(t, front, refused, key);
      RegisteredSets(RegisteredAll(t, front, refused), order[|order| - 1], order[|order| - 1] in refused, key);
    }
  }

  lemma {:induction false} RegisteredAllTracks(t: Table, order: seq<Entry>, refused: set<Entry>, key: Key, rest: set<Entry>)
    requires key in t.watchers && !t.watchers[key].dropped && Distinct(order) && SetOf(order) !! rest
    requires Tracks(t, key, SetOf(order) + rest)
    ensures key in RegisteredAll(t, order, refused).watchers && Tracks(RegisteredAll(t, order, refused), key, rest)
  {
    hide Tracks, AttachedSet, MatchSet;
    if order == [] {
      assert SetOf(order) + rest == rest;
    } else {
      var (front, e) := (order[..|order| - 1], order[|order| - 1]);
      assert order == front + [e];
      assert SetOf(order) + rest == SetOf(front) + (rest + {e}) && e !in SetOf(front);
      RegisteredAllTracks(t, front, refused, key, rest + {e});
      RegisteredAllSets(t, front, refused, key);
      RegisteredTracks(RegisteredAll(t, front, refused), e, e in refused, key, rest);
    }
  }

  /** Once its request is served a live watcher and its listener know the truth again. */
  lemma ServedTracks(t: Table, serving: Serving, key: Key, request: set<Entry>)
    requires key in t.watchers && Serves(serving, request)
    ensures var t' := Served(t, serving);
      && key in t'.watchers && t'.watchers[key].targets == t.watchers[key].targets
      && t'.watchers[key].dropped == t.watchers[key].dropped
      && AttachedSet(t', key) == AttachedSet(t, key)
      && MatchSet(t', t'.watchers[key]) == MatchSet(t, t.watchers[key])
      && (!t.watchers[key].dropped && Tracks(t, key, request) ==> Tracks(t', key, {}))
  {
    hide Tracks, AttachedSet, MatchSet;
    RegisteredAllSets(t, serving.order, serving.refused, key);
    if !t.watchers[key].dropped && Tracks(t, key, request) {
      assert request + {} == request;
      RegisteredAllTracks(t, serving.order, serving.refused, key, {});
    }
  }

  // ---------------------------------------------------------------- disconnecting

  lemma DisconnectedSets(t: Table, id: Id, removed: bool, key: Key)
    requires id in t.getters && key in t.watchers
    ensures var t' := Disconnected(t, id, removed);
      && AttachedSet(t', key) == AttachedSet(t, key) - (if key in Leaves(t, id, removed) then {id} else {})
      && t'.watchers[key].targets == t.watchers[key].targets
      && MatchSet(t', t'.watchers[key]) == MatchSet(t, t.watchers[key])
  {
  }

  lemma DisconnectedTracks(t: Table, id: Id, removed: bool, key: Key)
    requires id in t.getters && key in t.watchers && Tracks(t, key, {})
    ensures Tracks(Disconnected(t, id, removed), key, {})
  {
    var w := t.watchers[key];
    DisconnectedSets(t, id, removed, key);
    assert IdsFor({}, key) == {};
    if key in Leaves(t, id, removed) {
      EventStep(w.initial, w.events, GetterRemoved(id));
    }
  }

  /** A covered watcher loses a getter that stays registered exactly if it no longer matches. */
  lemma LeavesExactly(t: Table, id: Id, key: Key)
    requires id in t.getters && key in t.watchers && Covered(t.watchers[key])
    ensures key in Leaves(t, id, false)
       <==> key in t.getters[id].watchers && !Wants(t.watchers[key], t.getters[id].view)
  {
    AgreeingTests(t.watchers[key].Select(), t.getters[id].view.serviceTags, t.getters[id].view.channel);
  }

  // ---------------------------------------------------------------- every call keeps the guarantee

  lemma PreparedOld(t: Table, targets: seq<Target>, key: Key)
    requires WellKeyed(t) && key in t.watchers && Tracks(t, key, {})
    ensures var t' := Prepared(t, targets);
      && key != t.counter && t'.watchers[key] == t.watchers[key]
      && Tracks(t', key, WatchAsks(t, targets))
      && AttachedSet(t', key) == AttachedSet(t, key)
      && MatchSet(t', t.watchers[key]) == MatchSet(t, t.watchers[key])
  {
    var t' := Prepared(t, targets);
    assert AttachedSet(t', key) == AttachedSet(t, key);
    assert IdsFor(WatchAsks(t, targets), key) == {} == IdsFor({}, key);
  }

  lemma PreparedNew(t: Table, targets: seq<Target>)
    requires WellKeyed(t)
    ensures var (t', ids) := (Prepared(t, targets), Selected(t, AllSelectors(targets)));
      && Tracks(t', t.counter, WatchAsks(t, targets))
      && AttachedSet(t', t.counter) == ids == MatchSet(t', t'.watchers[t.counter])
  {
    var (t', ids, asked) := (Prepared(t, targets), Selected(t, AllSelectors(targets)), RangedIn(t, targets));
    forall id | id in t.getters
      ensures t.counter !in t.getters[id].watchers
      ensures id in asked ==> id in ids
      ensures AllRanged(targets) && id in ids ==> id in asked
      ensures NoneRanged(targets) ==> id !in asked
    {
      HitsSelect(targets, t.getters[id].view);
    }
    assert AttachedSet(t', t.counter) == ids;
    assert MatchSet(t', t'.watchers[t.counter]) == ids;
    forall id | id in asked
      ensures id in IdsFor(WatchAsks(t, targets), t.counter)
    {
      assert Entry(id, t.counter) in WatchAsks(t, targets);
    }
    assert IdsFor(WatchAsks(t, targets), t.counter) == asked;
  }

  lemma WatchedExact(t: Table, targets: seq<Target>, serving: Serving, key: Key)
    requires AllExact(t) && Serves(serving, WatchAsks(t, targets))
    requires key in Served(Prepared(t, targets), serving).watchers
    ensures Exact(Served(Prepared(t, targets), serving), key)
  {
    var t1 := Prepared(t, targets);
    RegisteredAllKeeps(t1, serving.order, serving.refused);
    if key == t.counter {
      PreparedNew(t, targets);
    } else if !t.watchers[key].dropped {
      PreparedOld(t, targets, key);
    }
    ServedTracks(t1, serving, key, WatchAsks(t, targets));
  }

  lemma DroppedExact(t: Table, dropped: Key, key: Key)
    requires dropped in t.watchers && key in t.watchers && Exact(t, key)
    ensures Exact(Dropped(t, dropped), key)
  {
  }

  lemma StoppedExact(t: Table, stopped: Key, key: Key)
    requires key in t.watchers && key != stopped && Exact(t, key)
    ensures Exact(Stopped(t, stopped), key)
  {
  }

  lemma NewGetterExact(t: Table, v: View, serving: Serving, key: Key)
    requires v.channel.id !in t.getters && key in t.watchers && Exact(t, key) && NewGetterServed(t, v, serving)
    ensures key in NewGetter(t, v, serving).watchers && Exact(NewGetter(t, v, serving), key)
  {
    var (id, t1) := (v.channel.id, WithGetter(t, v));
    var t2 := Connected(t1, id);
    ServedTracks(t2, serving, key, Asked(t1, id));
    if !t.watchers[key].dropped {
      assert AttachedSet(t1, key) == AttachedSet(t, key);
      ConnectedTracks(t1, id, key, {});
      assert {} + Asked(t1, id) == Asked(t1, id);
    }
    if Covered(t.watchers[key]) {
      assert MatchSet(t1, t.watchers[key]) - {id} == MatchSet(t, t.watchers[key]) - {id};
      ConnectedMatches(t1, id, key, {}, {id});
      assert {id} - {id} == {};
      Closed(t2, key);
    }
  }

  lemma Closed(t: Table, key: Key)
    requires key in t.watchers && MatchesBut(t, key, {})
    ensures AttachedSet(t, key) == MatchSet(t, t.watchers[key])
  {
    var none: set<Id> := {};
    assert AttachedSet(t, key) - none == AttachedSet(t, key);
    assert MatchSet(t, t.watchers[key]) - none == MatchSet(t, t.watchers[key]);
  }

  lemma WithoutSets(t: Table, id: Id, key: Key, w: Watcher)
    ensures AttachedSet(WithoutGetter(t, id), key) == AttachedSet(t, key) - {id}
    ensures MatchSet(WithoutGetter(t, id), w) == MatchSet(t, w) - {id}
  {
  }

  lemma LeftWhenRemoved(t: Table, id: Id, key: Key)
    requires id in t.getters && key in t.watchers && !t.watchers[key].dropped
    ensures AttachedSet(Disconnected(t, id, true), key) == AttachedSet(t, key) - {id}
  {
  }

  lemma DisconnectedKeeps(t: Table, id: Id, removed: bool, key: Key)
    requires id in t.getters && key in t.watchers
    ensures var t' := Disconnected(t, id, removed);
      && key in t'.watchers && t'.watchers[key].targets == t.watchers[key].targets
      && t'.watchers[key].dropped == t.watchers[key].dropped && t'.watchers[key].initial == t.watchers[key].initial
    ensures removed ==> LostGetter(t, id).watchers == Disconnected(t, id, true).watchers
  {
  }

  lemma LostGetterExact(t: Table, id: Id, key: Key)
    requires id in t.getters && key in t.watchers && Exact(t, key)
    ensures key in LostGetter(t, id).watchers && Exact(LostGetter(t, id), key)
  {
    hide Disconnected, AttachedSet, MatchSet, Replay, Failed, IdsFor, LeavesOf;
    DisconnectedKeeps(t, id, true, key);
    if !t.watchers[key].dropped {
      var t1 := Disconnected(t, id, true);
      DisconnectedTracks(t, id, true, key);
      LeftWhenRemoved(t, id, key);
      DisconnectedSets(t, id, true, key);
      WithoutSets(t1, id, key, t1.watchers[key]);
      assert LostGetter(t, id).watchers == t1.watchers;
      assert AttachedSet(LostGetter(t, id), key) == AttachedSet(t1, key);
    }
  }

  lemma UntaggedExact(t: Table, id: Id, tags: set<Id>, key: Key)
    requires id in t.getters && key in t.watchers && Exact(t, key)
    ensures Exact(Untagged(t, id, tags), key)
  {
    var w := t.watchers[key];
    var g := t.getters[id];
    var g' := WithTags(g, TagsOf(g) - tags);
    var t1 := t.(getters := t.getters[id := g']);
    if !w.dropped {
      assert AttachedSet(t1, key) == AttachedSet(t, key);
      DisconnectedTracks(t1, id, false, key);
    }
    if Covered(w) {
      DisconnectedSets(t1, id, false, key);
      LeavesExactly(t1, id, key);
      if Wants(w, g'.view) {
        MatchingGrowsWithTags(w.Select(), g.view.serviceTags, g'.view.channel, TagsOf(g));
        assert g'.view.channel.(tags := TagsOf(g)) == g.view.channel;
      }
      assert id in AttachedSet(t, key) <==> Wants(w, g.view);
      assert MatchSet(t1, w) == MatchSet(t, w) - (if Wants(w, g'.view) then {} else {id});
    }
  }

  lemma {:induction false} TagsRemovedExact(t: Table, tags: set<Id>, order: seq<Id>, key: Key)
    requires KnownGetters(t, order) && key in t.watchers && Exact(t, key)
    ensures key in TagsRemoved(t, tags, order).watchers && Exact(TagsRemoved(t, tags, order), key)
  {
    if order != [] {
      TagsRemovedExact(t, tags, order[..|order| - 1], key);
      UntaggedExact(TagsRemoved(t, tags, order[..|order| - 1]), order[|order| - 1], tags, key);
    }
  }

  lemma TaggedSets(t: Table, ids: set<Id>, tags: set<Id>, key: Key)
    requires key in t.watchers && Exact(t, key)
    ensures var (t1, w) := (Tagged(t, ids, tags), t.watchers[key]);
      && (!w.dropped ==> Tracks(t1, key, {}))
      && (Covered(w) ==> MatchesBut(t1, key, Changed(t, ids, tags)) && AttachedSet(t1, key) <= MatchSet(t1, w))
  {
  }

  lemma {:induction false} ConnectedAllTracks(t: Table, order: seq<Id>, key: Key)
    requires KnownGetters(t, order) && key in t.watchers && Distinct(order) && !SomeClash(t, order)
    requires Tracks(t, key, {})
    ensures var t' := ConnectedAll(t, order);
      key in t'.watchers && Tracks(t', key, AskedAll(t, order))
  {
    hide Tracks;
    if order != [] {
      var (front, id) := (order[..|order| - 1], order[|order| - 1]);
      LastClash(t, order);
      ConnectedAllTracks(t, front, key);
      ConnectedTracks(ConnectedAll(t, front), id, key, AskedAll(t, front));
    }
  }

  lemma LastClash(t: Table, order: seq<Id>)
    requires KnownGetters(t, order) && Distinct(order) && order != []
    ensures var front := order[..|order| - 1];
      Distinct(front) && (SomeClash(t, order) <==> SomeClash(t, front) || Clashes(ConnectedAll(t, front), order[|order| - 1]))
  {
    var i := |order| - 1;
    assert order[i] !in order[..i] && order[..i + 1] == order;
    ConnectedAllClashes(t, order[..i], order[i]);
    SomeClashStep(t, order, i);
  }

  lemma {:induction false} ConnectedAllMatches(t: Table, order: seq<Id>, key: Key, open: set<Id>)
    requires KnownGetters(t, order) && key in t.watchers && Distinct(order) && !SomeClash(t, order)
    requires !t.watchers[key].dropped && Tracks(t, key, {}) && MatchesBut(t, key, open)
    requires AttachedSet(t, key) <= MatchSet(t, t.watchers[key])
    ensures var t' := ConnectedAll(t, order);
      && key in t'.watchers && t'.watchers[key].dropped == t.watchers[key].dropped
      && MatchesBut(t', key, open - SetOf(order)) && AttachedSet(t', key) <= MatchSet(t', t'.watchers[key])
  {
    hide Tracks, Joins, JoinsOf, Distinct, Clashes, SomeClash, AskedAll, MatchesBut;
    if order == [] {
      assert open - SetOf(order) == open;
    } else {
      var (front, id) := (order[..|order| - 1], order[|order| - 1]);
      LastClash(t, order);
      ConnectedAllMatches(t, front, key, open);
      ConnectedAllTracks(t, front, key);
      var t1 := ConnectedAll(t, front);
      ConnectedMatches(t1, id, key, AskedAll(t, front), open - SetOf(front));
      assert order == front + [id];
      assert (open - SetOf(front)) - {id} == open - SetOf(order);
    }
  }

  lemma TagsAddedExact(t: Table, ids: set<Id>, tags: set<Id>, order: seq<Id>, serving: Serving, key: Key)
    requires TagsAddedServed(t, ids, tags, order, serving) && key in t.watchers && Exact(t, key)
    ensures key in TagsAdded(t, ids, tags, order, serving).watchers
    ensures Exact(TagsAdded(t, ids, tags, order, serving), key)
  {
    var t1 := Tagged(t, ids, tags);
    var t2 := ConnectedAll(t1, order);
    ConnectedAllKeeps(t1, order, key);
    ServedTracks(t2, serving, key, AskedAll(t1, order));
    TaggedSets(t, ids, tags, key);
    if !t.watchers[key].dropped {
      ConnectedAllTracks(t1, order, key);
    }
    if Covered(t.watchers[key]) {
      ConnectedAllMatches(t1, order, key, SetOf(order));
      assert SetOf(order) - SetOf(order) == {};
      Closed(t2, key);
    }
  }

  /** Connecting changes neither the selectors of a watcher nor whether it is dropped. */
  lemma {:induction false} ConnectedAllKeeps(t: Table, order: seq<Id>, key: Key)
    requires KnownGetters(t, order) && key in t.watchers
    ensures var t' := ConnectedAll(t, order);
      && key in t'.watchers && t'.watchers[key].targets == t.watchers[key].targets
      && t'.watchers[key].dropped == t.watchers[key].dropped
  {
    if order != [] {
      ConnectedAllKeeps(t, order[..|order| - 1], key);
    }
  }

  lemma ServicesRetaggedExact(t: Table, services: set<Id>, tags: set<Id>, add: bool, key: Key)
    requires key in t.watchers && Exact(t, key)
    ensures Exact(ServicesRetagged(t, services, tags, add), key)
  {
  }

  // ---------------------------------------------------------------- whole runs

  /** A completed call. The orders are those in which the code comes across the getters concerned, the
      servings say what the adapters answered. */
  datatype Op =
    | Watch(targets: seq<Target>, serving: Serving)
    | Drop(key: Key)
    | Stop(key: Key)
    | AddGetter(view: View, serving: Serving)
    | RemoveGetter(id: Id)
    | AddGetterTags(sels: seq<Selector>, tags: set<Id>, order: seq<Id>, serving: Serving)
    | RemoveGetterTags(sels: seq<Selector>, tags: set<Id>, order: seq<Id>)
    | RetagServices(services: set<Id>, tags: set<Id>, add: bool)

  ghost predicate Possible(t: Table, op: Op) {
    match op
    case Watch(targets, serving) => !Overlap(t, targets) && Serves(serving, WatchAsks(t, targets))
    case Drop(key) => key in t.watchers
    case Stop(key) => key in t.watchers ==> t.watchers[key].dropped
    case AddGetter(view, serving) => view.channel.id !in t.getters && NewGetterServed(t, view, serving)
    case RemoveGetter(id) => id in t.getters
    case AddGetterTags(sels, tags, order, serving) => TagsAddedServed(t, Selected(t, sels), tags, order, serving)
    case RemoveGetterTags(sels, tags, order) =>
      Distinct(order) && SetOf(order) == Selected(t, sels) && KnownGetters(t, order)
    case RetagServices(_, _, _) => true
  }

  ghost function Done(t: Table, op: Op): Table
    requires Possible(t, op)
  {
    match op
    case Watch(targets, serving) => Served(Prepared(t, targets), serving)
    case Drop(key) => Dropped(t, key)
    case Stop(key) => Stopped(t, key)
    case AddGetter(view, serving) => NewGetter(t, view, serving)
    case RemoveGetter(id) => LostGetter(t, id)
    case AddGetterTags(sels, tags, order, serving) => TagsAdded(t, Selected(t, sels), tags, order, serving)
    case RemoveGetterTags(_, tags, order) => TagsRemoved(t, tags, order)
    case RetagServices(services, tags, add) => ServicesRetagged(t, services, tags, add)
  }

  lemma DoneExact(t: Table, op: Op, key: Key)
    requires AllExact(t) && Possible(t, op) && key in Done(t, op).watchers
    requires key in t.watchers || op.Watch?
    ensures Exact(Done(t, op), key)
  {
    match op
    case Watch(targets, serving) => WatchedExact(t, targets, serving, key);
    case Drop(dropped) => DroppedExact(t, dropped, key);
    case Stop(stopped) => StoppedExact(t, stopped, key);
    case AddGetter(view, serving) => NewGetterExact(t, view, serving, key);
    case RemoveGetter(id) => LostGetterExact(t, id, key);
    case AddGetterTags(sels, tags, order, serving) =>
      TagsAddedExact(t, Selected(t, sels), tags, order, serving, key);
    case RemoveGetterTags(_, tags, order) => TagsRemovedExact(t, tags, order, key);
    case RetagServices(services, tags, add) => ServicesRetaggedExact(t, services, tags, add, key);
  }

  lemma ServedWellKeyed(t: Table, serving: Serving)
    requires WellKeyed(t)
    ensures WellKeyed(Served(t, serving)) && Served(t, serving).watchers.Keys == t.watchers.Keys
  {
    RegisteredAllKeeps(t, serving.order, serving.refused);
  }

  lemma ConnectedWellKeyed(t: Table, id: Id)
    requires WellKeyed(t) && id in t.getters
    ensures WellKeyed(Connected(t, id)) && Connected(t, id).watchers.Keys == t.watchers.Keys
  {
  }

  lemma DisconnectedWellKeyed(t: Table, id: Id, removed: bool)
    requires WellKeyed(t) && id in t.getters
    ensures WellKeyed(Disconnected(t, id, removed))
    ensures Disconnected(t, id, removed).watchers.Keys == t.watchers.Keys
  {
  }

  lemma {:induction false} ConnectedAllWellKeyed(t: Table, order: seq<Id>)
    requires WellKeyed(t) && KnownGetters(t, order)
    ensures WellKeyed(ConnectedAll(t, order)) && ConnectedAll(t, order).watchers.Keys == t.watchers.Keys
  {
    if order != [] {
      ConnectedAllWellKeyed(t, order[..|order| - 1]);
      ConnectedWellKeyed(ConnectedAll(t, order[..|order| - 1]), order[|order| - 1]);
    }
  }

  lemma {:induction false} TagsRemovedWellKeyed(t: Table, tags: set<Id>, order: seq<Id>)
    requires WellKeyed(t) && KnownGetters(t, order)
    ensures WellKeyed(TagsRemoved(t, tags, order)) && TagsRemoved(t, tags, order).watchers.Keys == t.watchers.Keys
  {
    if order != [] {
      var (front, id) := (order[..|order| - 1], order[|order| - 1]);
      TagsRemovedWellKeyed(t, tags, front);
      var t1 := TagsRemoved(t, tags, front);
      DisconnectedWellKeyed(t1.(getters := t1.getters[id := WithTags(t1.getters[id], TagsOf(t1.getters[id]) - tags)]),
                            id, false);
    }
  }

  lemma DoneWellKeyed(t: Table, op: Op)
    requires WellKeyed(t) && Possible(t, op)
    ensures WellKeyed(Done(t, op))
    ensures Done(t, op).watchers.Keys <= t.watchers.Keys + if op.Watch? then {t.counter} else {}
    ensures op.Stop? ==> op.key !in Done(t, op).watchers
  {
    match op
    case Watch(targets, serving) =>
      ServedWellKeyed(Prepared(t, targets), serving);
    case AddGetter(view, serving) =>
      var t1 := WithGetter(t, view);
      ConnectedWellKeyed(t1, view.channel.id);
      ServedWellKeyed(Connected(t1, view.channel.id), serving);
    case RemoveGetter(id) =>
      DisconnectedWellKeyed(t, id, true);
    case AddGetterTags(sels, tags, order, serving) =>
      var t1 := Tagged(t, Selected(t, sels), tags);
      ConnectedAllWellKeyed(t1, order);
      ServedWellKeyed(ConnectedAll(t1, order), serving);
    case RemoveGetterTags(_, tags, order) =>
      TagsRemovedWellKeyed(t, tags, order);
    case _ =>
  }

  function Empty(): Table {
    Table(map[], map[], 0)
  }

  ghost predicate IsRun(tables: seq<Table>, ops: seq<Op>) {
    && |tables| == |ops| + 1
    && tables[0] == Empty()
    && (forall i :: 0 <= i < |ops| ==> Possible(tables[i], ops[i]) && tables[i + 1] == Done(tables[i], ops[i]))
  }

  /** A completed call keeps the guarantee for every watcher. */
  lemma DoneAllExact(t: Table, op: Op)
    requires AllExact(t) && Possible(t, op)
    ensures AllExact(Done(t, op))
  {
    DoneWellKeyed(t, op);
    forall k | k in Done(t, op).watchers
      ensures Exact(Done(t, op), k)
    {
      DoneExact(t, op, k);
    }
  }

  /** After any run of calls without a panic that add, remove and retag getters, retag services, and start and
      stop watches, whatever the adapters answer: a live watcher that asks for values holds a guard for exactly
      the getters that list it and that no adapter refused, and one that asks for none holds none; the getters
      it started with, plus those its listener was told were added, minus those it was told were removed, are
      the getters that list it; and for a covered watcher these are exactly the registered getters that match. */
  lemma {:induction false} RunsAreExact(tables: seq<Table>, ops: seq<Op>, n: nat)
    requires IsRun(tables, ops) && n <= |ops|
    ensures AllExact(tables[n])
    ensures forall k :: k in tables[n].watchers && !tables[n].watchers[k].dropped ==>
              var w := tables[n].watchers[k];
              && AttachedSet(tables[n], k) == Replay(w.initial, w.events)
              && w.guards <= AttachedSet(tables[n], k) - Failed(w.events)
              && (AllRanged(w.targets) ==> w.guards == AttachedSet(tables[n], k) - Failed(w.events))
              && (NoneRanged(w.targets) ==> w.guards == {})
    ensures forall k :: k in tables[n].watchers && Covered(tables[n].watchers[k]) ==>
              AttachedSet(tables[n], k) == MatchSet(tables[n], tables[n].watchers[k])
  {
    if n > 0 {
      RunsAreExact(tables, ops, n - 1);
      DoneAllExact(tables[n - 1], ops[n - 1]);
    }
    forall k | k in tables[n].watchers && !tables[n].watchers[k].dropped
      ensures Tracks(tables[n], k, {}) && IdsFor({}, k) == {}
    {
      assert Exact(tables[n], k);
      assert IdsFor({}, k) == {};
    }
  }

  // ---------------------------------------------------------------- what each call does to getters and lists

  /** The getters registered after a call are those before it, but for the one that it adds or removes. */
  lemma GettersAfter(t: Table, op: Op, id: Id)
    requires Possible(t, op)
    ensures id in Done(t, op).getters <==>
            (op.AddGetter? && id == op.view.channel.id) || (id in t.getters && !(op.RemoveGetter? && id == op.id))
  {
    match op
    case Watch(targets, serving) => RegisteredAllKeeps(Prepared(t, targets), serving.order, serving.refused);
    case AddGetter(view, serving) =>
      RegisteredAllKeeps(Connected(WithGetter(t, view), view.channel.id), serving.order, serving.refused);
    case AddGetterTags(sels, tags, order, serving) =>
      RegisteredAllKeeps(ConnectedAll(Tagged(t, Selected(t, sels), tags), order), serving.order, serving.refused);
    case _ =>
  }

  /** The call names the getter's tags, or those of its service, for a change. */
  predicate Retags(t: Table, op: Op, v: View) {
    match op
    case AddGetterTags(sels, _, _, _) => v.SelectedBy(sels)
    case RemoveGetterTags(sels, _, _) => v.SelectedBy(sels)
    case RetagServices(services, _, _) => v.channel.service in services
    case _ => false
  }

  /** All of the tags are there, or none; whatever else there was still is. */
  predicate TagsChanged(before: set<Id>, after: set<Id>, tags: set<Id>, add: bool) {
    && (if add then tags <= after else tags !! after)
    && forall x :: x in before + after && x !in tags ==> x in before && x in after
  }

  /** A getter that stays registered shows a change exactly if the call names its tags or those of its service:
      then it has all of the tags given, or none, and everything else about it is as before. */
  lemma ViewsAfter(t: Table, op: Op, id: Id)
    requires Possible(t, op) && id in t.getters && id in Done(t, op).getters
    ensures var (v, v') := (t.getters[id].view, Done(t, op).getters[id].view);
      if !Retags(t, op, v) then v' == v
      else if op.RetagServices? then
        v'.channel == v.channel && TagsChanged(v.serviceTags, v'.serviceTags, op.tags, op.add)
      else
        && v'.serviceTags == v.serviceTags && v'.channel == v.channel.(tags := v'.channel.tags)
        && TagsChanged(v.channel.tags, v'.channel.tags, op.tags, op.AddGetterTags?)
  {
    match op
    case Watch(targets, serving) => RegisteredAllKeeps(Prepared(t, targets), serving.order, serving.refused);
    case AddGetter(view, serving) =>
      RegisteredAllKeeps(Connected(WithGetter(t, view), view.channel.id), serving.order, serving.refused);
    case AddGetterTags(sels, tags, order, serving) =>
      var t1 := Tagged(t, Selected(t, sels), tags);
      RegisteredAllKeeps(ConnectedAll(t1, order), serving.order, serving.refused);
      ConnectedAllViews(t1, order, id);
    case RemoveGetterTags(sels, tags, order) =>
      TagsRemovedView(t, tags, order, id);
      assert id in Selected(t, sels) <==> id in SetOf(order);
    case _ =>
  }

  /** A new getter shows what it was added with. */
  lemma NewGetterView(t: Table, view: View, serving: Serving)
    requires Possible(t, Op.AddGetter(view, serving))
    ensures var t' := Done(t, Op.AddGetter(view, serving));
      view.channel.id in t'.getters && t'.getters[view.channel.id].view == view
  {
    RegisteredAllKeeps(Connected(WithGetter(t, view), view.channel.id), serving.order, serving.refused);
  }

  lemma {:induction false} ConnectedAllViews(t: Table, order: seq<Id>, id: Id)
    requires KnownGetters(t, order) && id in t.getters
    ensures ConnectedAll(t, order).getters[id].view == t.getters[id].view
  {
    if order != [] {
      ConnectedAllViews(t, order[..|order| - 1], id);
    }
  }

  lemma {:induction false} TagsRemovedView(t: Table, tags: set<Id>, order: seq<Id>, id: Id)
    requires KnownGetters(t, order) && id in t.getters
    ensures var (v, v') := (t.getters[id].view, TagsRemoved(t, tags, order).getters[id].view);
      && (id !in order ==> v' == v)
      && (id in order ==>
            v' == v.(channel := v.channel.(tags := v'.channel.tags)) && TagsChanged(v.channel.tags, v'.channel.tags, tags, false))
  {
    if order != [] {
      TagsRemovedView(t, tags, order[..|order| - 1], id);
      assert order == order[..|order| - 1] + [order[|order| - 1]];
    }
  }

  /** A watcher whose guard is dropped keeps what it had, and is told nothing more, in whatever call. */
  lemma DroppedIsLeftAlone(t: Table, op: Op, key: Key)
    requires WellKeyed(t) && Possible(t, op) && key in t.watchers && key in Done(t, op).watchers
    ensures t.watchers[key].dropped ==> Done(t, op).watchers[key] == t.watchers[key]
    ensures op == Op.Drop(key) ==> Done(t, op).watchers[key] == t.watchers[key].(dropped := true)
    ensures op.Drop? && op.key != key ==> Done(t, op).watchers[key] == t.watchers[key]
  {
    if t.watchers[key].dropped {
      match op
      case Watch(targets, serving) => RegisteredAllLeaves(Prepared(t, targets), serving.order, serving.refused, key);
      case AddGetter(view, serving) =>
        RegisteredAllLeaves(Connected(WithGetter(t, view), view.channel.id), serving.order, serving.refused, key);
      case AddGetterTags(sels, tags, order, serving) =>
        var t1 := Tagged(t, Selected(t, sels), tags);
        ConnectedAllLeaves(t1, order, key);
        RegisteredAllLeaves(ConnectedAll(t1, order), serving.order, serving.refused, key);
      case RemoveGetterTags(_, tags, order) => TagsRemovedLeaves(t, tags, order, key);
      case _ =>
    }
  }

  lemma {:induction false} RegisteredAllLeaves(t: Table, order: seq<Entry>, refused: set<Entry>, key: Key)
    requires key in t.watchers && t.watchers[key].dropped
    ensures key in RegisteredAll(t, order, refused).watchers && RegisteredAll(t, order, refused).watchers[key] == t.watchers[key]
  {
    if order != [] {
      RegisteredAllLeaves(t, order[..|order| - 1], refused, key);
    }
  }

  lemma {:induction false} ConnectedAllLeaves(t: Table, order: seq<Id>, key: Key)
    requires KnownGetters(t, order) && key in t.watchers && t.watchers[key].dropped
    ensures key in ConnectedAll(t, order).watchers && ConnectedAll(t, order).watchers[key] == t.watchers[key]
  {
    if order != [] {
      ConnectedAllLeaves(t, order[..|order| - 1], key);
    }
  }

  lemma {:induction false} TagsRemovedLeaves(t: Table, tags: set<Id>, order: seq<Id>, key: Key)
    requires KnownGetters(t, order) && key in t.watchers && t.watchers[key].dropped
    ensures key in TagsRemoved(t, tags, order).watchers && TagsRemoved(t, tags, order).watchers[key] == t.watchers[key]
  {
    if order != [] {
      TagsRemovedLeaves(t, tags, order[..|order| - 1], key);
    }
  }

  /** Over runs: once its guard is dropped a watcher is told nothing more, and gets and loses no guard, until
      its release; after that it is gone for good. */
  lemma {:induction false} DroppedIsSilent(tables: seq<Table>, ops: seq<Op>, i: nat, n: nat, key: Key)
    requires IsRun(tables, ops) && i < n <= |ops| && ops[i] == Op.Drop(key)
    ensures key in tables[i].watchers && key < tables[n].counter
    ensures key in tables[n].watchers ==> tables[n].watchers[key] == tables[i].watchers[key].(dropped := true)
    ensures key in tables[n].watchers <==> forall m :: i < m < n ==> ops[m] != Op.Stop(key)
  {
    var (t, op) := (tables[n - 1], ops[n - 1]);
    RunsAreExact(tables, ops, n - 1);
    CountersGrow(t, op);
    if n > i + 1 {
      DroppedIsSilent(tables, ops, i, n - 1, key);
      WatchersAfter(t, op, key);
    }
    if key in t.watchers && key in tables[n].watchers {
      DroppedIsLeftAlone(t, op, key);
    }
  }

  lemma CountersGrow(t: Table, op: Op)
    requires WellKeyed(t) && Possible(t, op)
    ensures t.counter <= Done(t, op).counter
  {
    match op
    case Watch(targets, serving) => RegisteredAllKeeps(Prepared(t, targets), serving.order, serving.refused);
    case AddGetter(view, serving) =>
      RegisteredAllKeeps(Connected(WithGetter(t, view), view.channel.id), serving.order, serving.refused);
    case AddGetterTags(sels, tags, order, serving) =>
      var t1 := Tagged(t, Selected(t, sels), tags);
      ConnectedAllCounter(t1, order);
      RegisteredAllKeeps(ConnectedAll(t1, order), serving.order, serving.refused);
    case RemoveGetterTags(_, tags, order) => TagsRemovedCounter(t, tags, order);
    case _ =>
  }

  lemma {:induction false} ConnectedAllCounter(t: Table, order: seq<Id>)
    requires KnownGetters(t, order)
    ensures ConnectedAll(t, order).counter == t.counter
  {
    if order != [] {
      ConnectedAllCounter(t, order[..|order| - 1]);
    }
  }

  lemma {:induction false} TagsRemovedCounter(t: Table, tags: set<Id>, order: seq<Id>)
    requires KnownGetters(t, order)
    ensures TagsRemoved(t, tags, order).counter == t.counter
  {
    if order != [] {
      TagsRemovedCounter(t, tags, order[..|order| - 1]);
    }
  }

  /** The watchers after a call are those before it, but for the one that it starts, which is live, or releases. */
  lemma WatchersAfter(t: Table, op: Op, key: Key)
    requires WellKeyed(t) && Possible(t, op)
    ensures key in Done(t, op).watchers <==>
            (op.Watch? && key == t.counter) || (key in t.watchers && op != Op.Stop(key))
    ensures op.Watch? ==>
              && t.counter in Done(t, op).watchers
              && var w := Done(t, op).watchers[t.counter];
                 !w.dropped && w.targets == op.targets && w.initial == Selected(t, AllSelectors(op.targets))
  {
    match op
    case Watch(targets, serving) =>
      RegisteredAllKeeps(Prepared(t, targets), serving.order, serving.refused);
      RegisteredAllSets(Prepared(t, targets), serving.order, serving.refused, t.counter);
    case AddGetter(view, serving) =>
      RegisteredAllKeeps(Connected(WithGetter(t, view), view.channel.id), serving.order, serving.refused);
    case AddGetterTags(sels, tags, order, serving) =>
      var t1 := Tagged(t, Selected(t, sels), tags);
      ConnectedAllKeys(t1, order);
      RegisteredAllKeeps(ConnectedAll(t1, order), serving.order, serving.refused);
    case RemoveGetterTags(_, tags, order) => TagsRemovedWellKeyed(t, tags, order);
    case _ =>
  }

  /** A release takes the watcher out of the lists of the getters it has guards for, and out of no other; the
      other watchers keep their places. */
  lemma ReleaseLeavesLists(t: Table, key: Key, id: Id, k: Key)
    requires Possible(t, Op.Stop(key)) && id in t.getters
    ensures var t' := Done(t, Op.Stop(key));
      && id in t'.getters
      && (k in t'.getters[id].watchers <==>
          k in t.getters[id].watchers && !(k == key && key in t.watchers && id in t.watchers[key].guards))
  {
  }

  /** A watch whose selectors are all restricted to one getter concerns no other: it is listed by no other when
      it starts, asks for no other registration, and is connected to no other later. */
  lemma WatchConcernsOnly(t: Table, targets: seq<Target>, x: Id, id: Id)
    requires WellKeyed(t) && OnlyFor(AllSelectors(targets), x) && id in t.getters && id != x
    ensures t.counter !in Prepared(t, targets).getters[id].watchers && Entry(id, t.counter) !in WatchAsks(t, targets)
    ensures forall k :: k in t.watchers && t.watchers[k].targets == targets ==> k !in Joins(t, id)
  {
    var v := t.getters[id].view;
    if v.SelectedBy(AllSelectors(targets)) {
      SelectsOnly(AllSelectors(targets), x, v.serviceTags, v.channel);
    }
    HitsSelect(targets, v);
  }

  // ---------------------------------------------------------------- what removing a service breaks

  /** Removing getters with their service, which looks at no watcher, keeps the guarantee of a covered
      watcher exactly if none of these getters matches it. */
  lemma ServiceRemovedExactly(t: Table, ids: set<Id>, key: Key)
    requires key in t.watchers && Covered(t.watchers[key]) && Exact(t, key)
    ensures Exact(ServiceRemoved(t, ids), key) <==> MatchSet(t, t.watchers[key]) !! ids
  {
  }

  /** A getter that comes back after its service was removed is watched again exactly if it matches and no
      guard for it was left. For a watcher that asks for values everywhere none was left exactly if the getter
      did not match before or an adapter had refused it. */
  lemma LeftGuardBlocksReturn(t: Table, ids: set<Id>, v: View, serving: Serving, key: Key)
    requires key in t.watchers && Covered(t.watchers[key]) && Exact(t, key) && v.channel.id in ids
    ensures var (id, w) := (v.channel.id, t.watchers[key]);
      && (id in AttachedSet(NewGetter(ServiceRemoved(t, ids), v, serving), key) <==> Wants(w, v) && id !in w.guards)
      && (AllRanged(w.targets) ==> (id !in w.guards <==> id !in MatchSet(t, w) || id in Failed(w.events)))
  {
    var (t1, id) := (WithGetter(ServiceRemoved(t, ids), v), v.channel.id);
    assert IdsFor({}, key) == {};
    assert key in Joins(t1, id) <==> Wants(t.watchers[key], v) && id !in t.watchers[key].guards;
    RegisteredAllSets(Connected(t1, id), serving.order, serving.refused, key);
    ConnectedSets(t1, id, key);
  }

  // ---------------------------------------------------------------- no watcher is connected twice

  /** The live watchers in a getter's list that ask for values everywhere have a guard for it, unless an
      adapter has refused it. */
  ghost predicate SettledGetter(t: Table, id: Id)
    requires id in t.getters
  {
    forall k :: k in t.getters[id].watchers && k in t.watchers && !t.watchers[k].dropped && AllRanged(t.watchers[k].targets) ==>
                  HasAnswer(t.watchers[k], id)
  }

  /** The watcher has a guard for the getter, or its listener an error. */
  predicate HasAnswer(w: Watcher, id: Id) {
    id in w.guards || id in Failed(w.events)
  }

  ghost predicate Settled(t: Table) {
    forall id :: id in t.getters ==> SettledGetter(t, id)
  }

  /** A live watcher that wants the getter and has no guard for it: its listener knows of the getter already,
      or several of its targets select it. */
  predicate KnownOrTwice(t: Table, id: Id, key: Key) {
    && id in t.getters && key in t.watchers && !t.watchers[key].dropped
    && var (w, v) := (t.watchers[key], t.getters[id].view);
       && id !in w.guards && Wants(w, v)
       && (id in Replay(w.initial, w.events) || HitCount(w.targets, v) > 1)
  }

  /** A new getter clashes exactly with the live watchers several of whose targets select it, unless a guard
      for it was left with them. */
  lemma NewClashesExactly(t: Table, v: View)
    ensures Clashes(WithGetter(t, v), v.channel.id) <==>
            exists k :: k in t.watchers && !t.watchers[k].dropped && v.channel.id !in t.watchers[k].guards
                        && HitCount(t.watchers[k].targets, v) > 1
  {
    var (t1, id) := (WithGetter(t, v), v.channel.id);
    forall k | k in t.watchers
      ensures k in Joins(t1, id) && IsClash(t1, id, k) <==>
              !t.watchers[k].dropped && id !in t.watchers[k].guards && HitCount(t.watchers[k].targets, v) > 1
    {
      HitsSelect(t.watchers[k].targets, v);
    }
  }

  /** If what all live watchers know is true, a getter clashes exactly with those that want it without a guard
      although they know of it, or several times over. */
  lemma ClashesExactly(t: Table, id: Id)
    requires id in t.getters && AllTracked(t)
    ensures Clashes(t, id) <==> exists k :: KnownOrTwice(t, id, k)
  {
    forall k | k in t.watchers && !t.watchers[k].dropped
      ensures k in t.getters[id].watchers <==> id in Replay(t.watchers[k].initial, t.watchers[k].events)
    {
      assert Tracks(t, k, {});
      assert id in AttachedSet(t, k) <==> k in t.getters[id].watchers;
    }
    if k :| KnownOrTwice(t, id, k) {
      assert k in Joins(t, id) && IsClash(t, id, k);
    }
    if Clashes(t, id) {
      var k :| k in Joins(t, id) && IsClash(t, id, k);
      assert KnownOrTwice(t, id, k);
    }
  }

  /** A watcher that asks for values everywhere knows of a getter without a guard for it exactly if an adapter
      has refused it; one that asks for none never has a guard. */
  lemma UnguardedExactly(t: Table, key: Key, id: Id)
    requires key in t.watchers && !t.watchers[key].dropped && Tracks(t, key, {})
    ensures var w := t.watchers[key];
      && (AllRanged(w.targets) ==>
            (id in Replay(w.initial, w.events) && id !in w.guards <==> id in Failed(w.events)))
      && (NoneRanged(w.targets) ==> id !in w.guards)
  {
    assert IdsFor({}, key) == {};
  }

  /** Between completed calls adding tags panics exactly if one of the getters that the tags are news to now
      clashes so. */
  lemma TagsPanicExactly(t: Table, ids: set<Id>, tags: set<Id>, order: seq<Id>)
    requires AllExact(t) && KnownGetters(t, order)
    ensures var t1 := Tagged(t, ids, tags);
      SomeClash(t1, order) <==> exists i, k :: 0 <= i < |order| && KnownOrTwice(t1, order[i], k)
  {
    var t1 := Tagged(t, ids, tags);
    forall k | k in t1.watchers && !t1.watchers[k].dropped
      ensures Tracks(t1, k, {})
    {
      TaggedSets(t, ids, tags, k);
    }
    forall i | 0 <= i < |order|
      ensures Clashes(t1, order[i]) <==> exists k :: KnownOrTwice(t1, order[i], k)
    {
      ClashesExactly(t1, order[i]);
    }
  }

  /** A watcher that asks for no values and knows of a getter that it wants makes every call panic that adds
      tags news to that getter. */
  lemma TopologyWatchPanics(t: Table, ids: set<Id>, tags: set<Id>, order: seq<Id>, i: nat, key: Key)
    requires AllExact(t) && KnownGetters(t, order) && i < |order| && key in t.watchers && !t.watchers[key].dropped
    requires var w := t.watchers[key];
      && NoneRanged(w.targets) && Wants(w, t.getters[order[i]].view) && order[i] in Replay(w.initial, w.events)
    ensures SomeClash(Tagged(t, ids, tags), order)
  {
    var (t1, w, g) := (Tagged(t, ids, tags), t.watchers[key], t.getters[order[i]]);
    UnguardedExactly(t, key, order[i]);
    MatchingGrowsWithTags(w.Select(), g.view.serviceTags, g.view.channel, TagsOf(g) + tags);
    TagsPanicExactly(t, ids, tags, order);
    assert KnownOrTwice(t1, order[i], key);
  }

  predicate OnePlainTarget(targets: seq<Target>) {
    |targets| <= 1 && AllRanged(targets)
  }

  /** All watchers have one target and ask for values, and no adapter has refused any. */
  ghost predicate Plain(t: Table) {
    forall k :: k in t.watchers ==> OnePlainTarget(t.watchers[k].targets) && Failed(t.watchers[k].events) == {}
  }

  lemma SomeClashStep(t: Table, order: seq<Id>, i: nat)
    requires i < |order|
    ensures SomeClash(t, order[..i + 1]) <==> SomeClash(t, order[..i]) || Clashes(t, order[i])
    ensures Clashes(t, order[i]) ==> SomeClash(t, order)
  {
    if k :| 0 <= k < |order[..i]| && Clashes(t, order[..i][k]) {
      assert order[..i + 1][k] == order[k];
    }
    if Clashes(t, order[i]) {
      assert order[..i + 1][i] == order[i];
    }
  }

  /** Connecting some getters changes nothing about the others. */
  lemma ConnectedAllClashes(t: Table, order: seq<Id>, id: Id)
    requires KnownGetters(t, order) && id in t.getters && id !in order
    ensures Joins(ConnectedAll(t, order), id) == Joins(t, id)
    ensures Clashes(ConnectedAll(t, order), id) <==> Clashes(t, id)
  {
    var t' := ConnectedAll(t, order);
    ConnectedAllElsewhere(t, order, id);
    ConnectedAllKeys(t, order);
    forall k | k in t.watchers
      ensures k in Joins(t', id) <==> k in Joins(t, id)
    {
      ConnectedAllGuards(t, order, k);
      ConnectedAllKeeps(t, order, k);
    }
  }

  lemma {:induction false} ConnectedAllElsewhere(t: Table, order: seq<Id>, id: Id)
    requires KnownGetters(t, order) && id in t.getters && id !in order
    ensures ConnectedAll(t, order).getters[id] == t.getters[id]
  {
    if order != [] {
      ConnectedAllElsewhere(t, order[..|order| - 1], id);
    }
  }

  lemma {:induction false} ConnectedAllGuards(t: Table, order: seq<Id>, k: Key)
    requires KnownGetters(t, order) && k in t.watchers
    ensures k in ConnectedAll(t, order).watchers
    ensures ConnectedAll(t, order).watchers[k].guards == t.watchers[k].guards
    ensures ConnectedAll(t, order).watchers[k].dropped == t.watchers[k].dropped
  {
    if order != [] {
      ConnectedAllGuards(t, order[..|order| - 1], k);
    }
  }

  lemma {:induction false} ConnectedAllKeys(t: Table, order: seq<Id>)
    requires KnownGetters(t, order)
    ensures ConnectedAll(t, order).watchers.Keys == t.watchers.Keys
  {
    if order != [] {
      ConnectedAllKeys(t, order[..|order| - 1]);
      assert Connected(ConnectedAll(t, order[..|order| - 1]), order[|order| - 1]).watchers.Keys == t.watchers.Keys;
    }
  }

  /** A getter is settled counting the entries of a request that is under way. */
  ghost predicate SettledBut(t: Table, id: Id, request: set<Entry>)
    requires id in t.getters
  {
    forall k :: k in t.getters[id].watchers && k in t.watchers && !t.watchers[k].dropped && AllRanged(t.watchers[k].targets) ==>
                  Entry(id, k) in request || HasAnswer(t.watchers[k], id)
  }

  lemma AnsweredHasAnswer(w: Watcher, e: Id, turnedDown: bool, id: Id)
    requires e == id || HasAnswer(w, id)
    ensures HasAnswer(Answered(w, e, turnedDown), id)
  {
    EventStep({}, w.events, InitializationError(e));
  }

  lemma RegisteredSettles(t: Table, id: Id, e: Entry, turnedDown: bool, rest: set<Entry>)
    requires id in t.getters && SettledBut(t, id, rest + {e})
    ensures SettledBut(Registered(t, e, turnedDown), id, rest)
  {
    hide HasAnswer, Answered;
    var t' := Registered(t, e, turnedDown);
    forall k | k in t'.getters[id].watchers && k in t'.watchers && !t'.watchers[k].dropped && AllRanged(t'.watchers[k].targets)
      ensures Entry(id, k) in rest || HasAnswer(t'.watchers[k], id)
    {
      assert !t.watchers[k].dropped && t.watchers[k].targets == t'.watchers[k].targets by {
        RegisteredSets(t, e, turnedDown, k);
      }
      if k == e.key && Entry(id, k) !in rest {
        AnsweredHasAnswer(t.watchers[k], e.id, turnedDown, id);
      }
    }
  }

  lemma {:induction false} RegisteredAllSettles(t: Table, order: seq<Entry>, refused: set<Entry>, id: Id, rest: set<Entry>)
    requires id in t.getters && SettledBut(t, id, SetOf(order) + rest)
    ensures id in RegisteredAll(t, order, refused).getters && SettledBut(RegisteredAll(t, order, refused), id, rest)
  {
    hide SettledBut, Registered;
    if order == [] {
      assert SetOf(order) + rest == rest;
    } else {
      var (front, e) := (order[..|order| - 1], order[|order| - 1]);
      assert order == front + [e];
      assert SetOf(order) + rest == SetOf(front) + (rest + {e});
      RegisteredAllSettles(t, front, refused, id, rest + {e});
      RegisteredAllKeeps(t, order, refused);
      RegisteredSettles(RegisteredAll(t, front, refused), id, e, e in refused, rest);
    }
  }

  lemma ServedSettles(t: Table, id: Id, serving: Serving, request: set<Entry>)
    requires id in t.getters && SettledBut(t, id, request) && Serves(serving, request)
    ensures id in Served(t, serving).getters && SettledGetter(Served(t, serving), id)
  {
    assert request + {} == request;
    RegisteredAllSettles(t, serving.order, serving.refused, id, {});
  }

  lemma ConnectedSettledBut(t: Table, id: Id, x: Id, request: set<Entry>)
    requires id in t.getters && x in t.getters && SettledBut(t, x, request)
    ensures SettledBut(Connected(t, id), x, request + Asked(t, id))
  {
    var t' := Connected(t, id);
    forall k | k in t'.getters[x].watchers && k in t'.watchers && !t'.watchers[k].dropped && AllRanged(t'.watchers[k].targets)
      ensures Entry(x, k) in request + Asked(t, id) || HasAnswer(t'.watchers[k], x)
    {
      if k in Joins(t, id) {
        EventStep({}, t.watchers[k].events, GetterAdded(id));
        HitsSelect(t.watchers[k].targets, t.getters[id].view);
        assert Entry(id, k) in Asked(t, id);
      }
    }
  }

  lemma {:induction false} ConnectedAllSettledBut(t: Table, order: seq<Id>, x: Id)
    requires KnownGetters(t, order) && x in t.getters && SettledGetter(t, x)
    ensures SettledBut(ConnectedAll(t, order), x, AskedAll(t, order))
  {
    if order != [] {
      var front := order[..|order| - 1];
      ConnectedAllSettledBut(t, front, x);
      ConnectedSettledBut(ConnectedAll(t, front), order[|order| - 1], x, AskedAll(t, front));
    }
  }

  lemma DisconnectedSettled(t: Table, id: Id, removed: bool)
    requires id in t.getters && Settled(t)
    ensures Settled(Disconnected(t, id, removed))
  {
    var t' := Disconnected(t, id, removed);
    forall x, k | x in t'.getters && k in t'.getters[x].watchers && k in t'.watchers && !t'.watchers[k].dropped
                  && AllRanged(t'.watchers[k].targets)
      ensures HasAnswer(t'.watchers[k], x)
    {
      assert SettledGetter(t, x);
      if k in Leaves(t, id, removed) {
        EventStep({}, t.watchers[k].events, GetterRemoved(id));
      }
    }
  }

  lemma {:induction false} TagsRemovedSettled(t: Table, tags: set<Id>, order: seq<Id>)
    requires KnownGetters(t, order) && Settled(t)
    ensures Settled(TagsRemoved(t, tags, order))
  {
    if order != [] {
      var (front, id) := (order[..|order| - 1], order[|order| - 1]);
      TagsRemovedSettled(t, tags, front);
      var t1 := TagsRemoved(t, tags, front);
      var t2 := t1.(getters := t1.getters[id := WithTags(t1.getters[id], TagsOf(t1.getters[id]) - tags)]);
      forall x | x in t2.getters
        ensures SettledGetter(t2, x)
      {
        assert SettledGetter(t1, x);
      }
      DisconnectedSettled(t2, id, false);
    }
  }

  lemma WatchedSettled(t: Table, targets: seq<Target>, serving: Serving)
    requires WellKeyed(t) && Settled(t) && Serves(serving, WatchAsks(t, targets))
    ensures Settled(Served(Prepared(t, targets), serving))
  {
    var t1 := Prepared(t, targets);
    RegisteredAllKeeps(t1, serving.order, serving.refused);
    forall x | x in t1.getters
      ensures SettledGetter(Served(t1, serving), x)
    {
      assert SettledGetter(t, x);
      HitsSelect(targets, t.getters[x].view);
      assert x in RangedIn(t, targets) ==> Entry(x, t.counter) in WatchAsks(t, targets);
      ServedSettles(t1, x, serving, WatchAsks(t, targets));
    }
  }

  lemma NewGetterSettled(t: Table, v: View, serving: Serving)
    requires v.channel.id !in t.getters && Settled(t) && NewGetterServed(t, v, serving)
    ensures Settled(NewGetter(t, v, serving))
  {
    var (id, t1) := (v.channel.id, WithGetter(t, v));
    RegisteredAllKeeps(Connected(t1, id), serving.order, serving.refused);
    forall x | x in t1.getters
      ensures SettledGetter(NewGetter(t, v, serving), x)
    {
      assert x != id ==> SettledGetter(t, x);
      ConnectedSettledBut(t1, id, x, {});
      assert {} + Asked(t1, id) == Asked(t1, id);
      ServedSettles(Connected(t1, id), x, serving, Asked(t1, id));
    }
  }

  lemma TagsAddedSettled(t: Table, ids: set<Id>, tags: set<Id>, order: seq<Id>, serving: Serving)
    requires TagsAddedServed(t, ids, tags, order, serving) && Settled(t)
    ensures Settled(TagsAdded(t, ids, tags, order, serving))
  {
    var t1 := Tagged(t, ids, tags);
    RegisteredAllKeeps(ConnectedAll(t1, order), serving.order, serving.refused);
    forall x | x in t1.getters
      ensures SettledGetter(TagsAdded(t, ids, tags, order, serving), x)
    {
      assert SettledGetter(t, x);
      ConnectedAllSettledBut(t1, order, x);
      ServedSettles(ConnectedAll(t1, order), x, serving, AskedAll(t1, order));
    }
  }

  /** Every completed call keeps all getters settled. */
  lemma DoneSettled(t: Table, op: Op)
    requires WellKeyed(t) && Settled(t) && Possible(t, op)
    ensures Settled(Done(t, op))
  {
    match op
    case Watch(targets, serving) => WatchedSettled(t, targets, serving);
    case AddGetter(view, serving) => NewGetterSettled(t, view, serving);
    case RemoveGetter(id) => DisconnectedSettled(t, id, true); WithoutGetterSettled(Disconnected(t, id, true), id);
    case AddGetterTags(sels, tags, order, serving) => TagsAddedSettled(t, Selected(t, sels), tags, order, serving);
    case RemoveGetterTags(_, tags, order) => TagsRemovedSettled(t, tags, order);
    case _ =>
      forall x | x in Done(t, op).getters
        ensures SettledGetter(Done(t, op), x)
      {
        assert SettledGetter(t, x);
      }
  }

  lemma WithoutGetterSettled(t: Table, id: Id)
    requires Settled(t)
    ensures Settled(WithoutGetter(t, id))
  {
  }

  /** What holds between two completed calls, for all watchers. */
  ghost predicate Steady(t: Table) {
    WellKeyed(t) && Settled(t)
  }

  lemma DoneSteady(t: Table, op: Op)
    requires Steady(t) && Possible(t, op)
    ensures Steady(Done(t, op))
  {
    DoneWellKeyed(t, op);
    DoneSettled(t, op);
  }

  /** Removing getters with their service keeps what holds between calls. */
  lemma ServiceRemovedSteady(t: Table, ids: set<Id>)
    requires Steady(t)
    ensures Steady(ServiceRemoved(t, ids))
  {
  }

  // ---------------------------------------------------------------- adapters that refuse nothing

  /** If all getters are settled, no adapter has refused any, and all watchers have one target and ask for
      values, adding tags never panics. */
  lemma SettledNeverClashes(t: Table, ids: set<Id>, tags: set<Id>, order: seq<Id>)
    requires Settled(t) && Plain(t) && KnownGetters(t, order)
    ensures !SomeClash(Tagged(t, ids, tags), order)
  {
    var t1 := Tagged(t, ids, tags);
    forall i, k | 0 <= i < |order| && k in Joins(t1, order[i])
      ensures !IsClash(t1, order[i], k)
    {
      assert SettledGetter(t, order[i]) && OnePlainTarget(t.watchers[k].targets);
      HitsSelect(t.watchers[k].targets, t1.getters[order[i]].view);
    }
  }

  /** No adapter refuses anything in this call, and it starts no watch but one with one target that asks for
      values. */
  predicate AllAccepted(op: Op) {
    match op
    case Watch(targets, serving) => OnePlainTarget(targets) && SetOf(serving.order) !! serving.refused
    case AddGetter(_, serving) => SetOf(serving.order) !! serving.refused
    case AddGetterTags(_, _, _, serving) => SetOf(serving.order) !! serving.refused
    case _ => true
  }

  lemma ConnectedPlain(t: Table, id: Id)
    requires id in t.getters && Plain(t)
    ensures Plain(Connected(t, id))
  {
    forall k | k in t.watchers
      ensures Failed(Connected(t, id).watchers[k].events) == {}
    {
      EventStep({}, t.watchers[k].events, GetterAdded(id));
    }
  }

  lemma DisconnectedPlain(t: Table, id: Id, removed: bool)
    requires id in t.getters && Plain(t)
    ensures Plain(Disconnected(t, id, removed))
  {
    forall k | k in t.watchers
      ensures Failed(Disconnected(t, id, removed).watchers[k].events) == {}
    {
      EventStep({}, t.watchers[k].events, GetterRemoved(id));
    }
  }

  lemma {:induction false} ConnectedAllPlain(t: Table, order: seq<Id>)
    requires KnownGetters(t, order) && Plain(t)
    ensures Plain(ConnectedAll(t, order))
  {
    if order != [] {
      ConnectedAllPlain(t, order[..|order| - 1]);
      ConnectedPlain(ConnectedAll(t, order[..|order| - 1]), order[|order| - 1]);
    }
  }

  lemma {:induction false} TagsRemovedPlain(t: Table, tags: set<Id>, order: seq<Id>)
    requires KnownGetters(t, order) && Plain(t)
    ensures Plain(TagsRemoved(t, tags, order))
  {
    if order != [] {
      var (front, id) := (order[..|order| - 1], order[|order| - 1]);
      TagsRemovedPlain(t, tags, front);
      var t1 := TagsRemoved(t, tags, front);
      var t2 := t1.(getters := t1.getters[id := WithTags(t1.getters[id], TagsOf(t1.getters[id]) - tags)]);
      DisconnectedPlain(t2, id, false);
    }
  }

  lemma {:induction false} RegisteredAllPlain(t: Table, order: seq<Entry>, refused: set<Entry>)
    requires Plain(t) && SetOf(order) !! refused
    ensures Plain(RegisteredAll(t, order, refused))
  {
    if order != [] {
      assert forall e :: e in order[..|order| - 1] ==> e in order;
      RegisteredAllPlain(t, order[..|order| - 1], refused);
      assert order[|order| - 1] in SetOf(order);
    }
  }

  lemma DonePlain(t: Table, op: Op)
    requires Possible(t, op) && AllAccepted(op) && Plain(t)
    ensures Plain(Done(t, op))
  {
    match op
    case Watch(targets, serving) => RegisteredAllPlain(Prepared(t, targets), serving.order, serving.refused);
    case AddGetter(view, serving) =>
      var t1 := WithGetter(t, view);
      ConnectedPlain(t1, view.channel.id);
      RegisteredAllPlain(Connected(t1, view.channel.id), serving.order, serving.refused);
    case RemoveGetter(id) => DisconnectedPlain(t, id, true);
    case AddGetterTags(sels, tags, order, serving) =>
      var t1 := Tagged(t, Selected(t, sels), tags);
      ConnectedAllPlain(t1, order);
      RegisteredAllPlain(ConnectedAll(t1, order), serving.order, serving.refused);
    case RemoveGetterTags(_, tags, order) => TagsRemovedPlain(t, tags, order);
    case _ =>
  }

  /** In a run in which no adapter refuses anything live watchers hold a guard for exactly the getters that
      list them, and the next call that adds tags does not panic. */
  lemma {:induction false} AcceptingRunsNeverPanic(tables: seq<Table>, ops: seq<Op>, n: nat)
    requires IsRun(tables, ops) && n <= |ops| && forall i :: 0 <= i < n ==> AllAccepted(ops[i])
    ensures Plain(tables[n]) && Settled(tables[n])
    ensures forall k :: k in tables[n].watchers && !tables[n].watchers[k].dropped ==>
              tables[n].watchers[k].guards == AttachedSet(tables[n], k)
    ensures forall ids, tags, order :: KnownGetters(tables[n], order) ==> !SomeClash(Tagged(tables[n], ids, tags), order)
  {
    if n > 0 {
      AcceptingRunsNeverPanic(tables, ops, n - 1);
      RunsAreExact(tables, ops, n - 1);
      DonePlain(tables[n - 1], ops[n - 1]);
      DoneSettled(tables[n - 1], ops[n - 1]);
    }
    RunsAreExact(tables, ops, n);
    forall ids, tags, order | KnownGetters(tables[n], order)
      ensures !SomeClash(Tagged(tables[n], ids, tags), order)
    {
      SettledNeverClashes(tables[n], ids, tags, order);
    }
  }

  // ---------------------------------------------------------------- one turn of each loop

  lemma ChangedOneMore(t: Table, ids: set<Id>, id: Id, tags: set<Id>)
    requires id in t.getters && id !in ids
    ensures Changed(t, ids + {id}, tags)
         == Changed(t, ids, tags) + if tags <= TagsOf(t.getters[id]) then {} else {id}
    ensures id !in Changed(t, ids, tags)
  {
  }

  lemma TaggedNone(t: Table, tags: set<Id>)
    ensures Tagged(t, {}, tags) == t && Changed(t, {}, tags) == {}
  {
  }

  lemma {:induction false} TagsRemovedElsewhere(t: Table, tags: set<Id>, order: seq<Id>, id: Id)
    requires KnownGetters(t, order) && id in t.getters && id !in order
    ensures TagsRemoved(t, tags, order).getters[id] == t.getters[id]
  {
    if order != [] {
      TagsRemovedElsewhere(t, tags, order[..|order| - 1], id);
    }
  }

  lemma FoldOneMore(t: Table, tags: set<Id>, order: seq<Id>, id: Id)
    requires KnownGetters(t, order) && id in t.getters
    ensures KnownGetters(t, order + [id])
    ensures TagsRemoved(t, tags, order + [id]) == Untagged(TagsRemoved(t, tags, order), id, tags)
    ensures ConnectedAll(t, order + [id]) == Connected(ConnectedAll(t, order), id)
    ensures AskedAll(t, order + [id]) == AskedAll(t, order) + Asked(ConnectedAll(t, order), id)
  {
  }

  lemma RegisteredOneMore(t: Table, order: seq<Entry>, refused: set<Entry>, e: Entry)
    ensures RegisteredAll(t, order + [e], refused) == Registered(RegisteredAll(t, order, refused), e, e in refused)
  {
  }

  lemma ListingOneMore(t: Table, targets: seq<Target>, ids: set<Id>, id: Id)
    requires id in t.getters && id !in ids
    ensures var t1 := Listing(t, targets, ids);
      && id in t1.getters && t1.getters[id] == t.getters[id]
      && Listing(t, targets, ids + {id})
         == t1.(getters := t1.getters[id := t1.getters[id].(watchers := t1.getters[id].watchers + {t.counter})])
    ensures EntriesFor(ids + {id}, t.counter) == EntriesFor(ids, t.counter) + {Entry(id, t.counter)}
  {
  }

  lemma TargetStep(t: Table, targets: seq<Target>, i: nat)
    requires i < |targets|
    ensures var (listed, chosen) := (Selected(t, AllSelectors(targets[..i])), Selected(t, targets[i].select));
      && Selected(t, AllSelectors(targets[..i + 1])) == listed + chosen
      && RangedIn(t, targets[..i + 1]) == RangedIn(t, targets[..i]) + (if targets[i].payload.Never? then {} else chosen)
      && (Overlap(t, targets[..i + 1]) <==> Overlap(t, targets[..i]) || !(listed !! chosen))
      && (!(listed !! chosen) ==> Overlap(t, targets))
  {
    var (listed, chosen) := (Selected(t, AllSelectors(targets[..i])), Selected(t, targets[i].select));
    forall id | id in t.getters
      ensures id in Selected(t, AllSelectors(targets[..i + 1])) <==> id in listed + chosen
      ensures id in RangedIn(t, targets[..i + 1])
         <==> id in RangedIn(t, targets[..i]) + (if targets[i].payload.Never? then {} else chosen)
      ensures HitCount(targets[..i + 1], t.getters[id].view) > 1
         <==> HitCount(targets[..i], t.getters[id].view) > 1 || (id in listed && id in chosen)
      ensures id in listed && id in chosen ==> HitCount(targets, t.getters[id].view) > 1
    {
      var v := t.getters[id].view;
      HitStep(targets, i, v);
      HitsSelect(targets[..i], v);
      HitCountGrows(targets, i + 1, v);
    }
    if Overlap(t, targets[..i + 1]) && !Overlap(t, targets[..i]) {
      var id :| id in t.getters && HitCount(targets[..i + 1], t.getters[id].view) > 1;
      assert id in listed && id in chosen;
    }
  }

  lemma NoTargets(t: Table)
    ensures Selected(t, AllSelectors([])) == {} && RangedIn(t, []) == {} && !Overlap(t, [])
  {
  }

  lemma UnlistedOneMore(t: Table, ids: set<Id>, id: Id, key: Key)
    requires id !in ids
    ensures id !in t.getters ==> Unlisted(t, ids + {id}, key) == Unlisted(t, ids, key)
    ensures id in t.getters ==> var l := Unlisted(t, ids, key);
              && id in l && Unlisted(t, ids + {id}, key) == l[id := l[id].(watchers := l[id].watchers - {key})]
  {
  }

  lemma UnlistedNone(t: Table, key: Key)
    ensures Unlisted(t, {}, key) == t.getters
  {
  }

  lemma RetaggedOneMore(t: Table, services: set<Id>, s: Id, tags: set<Id>, add: bool)
    requires s !in services
    ensures ServicesRetagged(t, services + {s}, tags, add)
         == ServicesRetagged(ServicesRetagged(t, services, tags, add), {s}, tags, add)
  {
  }

  lemma RetaggedNone(t: Table, tags: set<Id>, add: bool)
    ensures ServicesRetagged(t, {}, tags, add) == t
  {
  }
}
