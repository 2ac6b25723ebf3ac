/** The life of watches under every interleaving of the clients' calls and the thread that serves `Start`
    and `Release` (components/taxonomy/src/backend.rs, components/taxonomy/src/manager.rs). Each step is
    what one thread does under one lock, or one access to a flag or a channel. */
module WatchProtocol {
  import opened Common
  import opened Services
  import opened Watching

  /** A registration at an adapter, alive until its guard is dropped. */
  datatype Guard = Guard(number: nat, entry: Entry)

  datatype WatchOp = Start(entries: seq<Entry>) | Release(key: Key)

  /** The worker holds the guards it got until it commits them. */
  datatype Worker =
    | Idle
    | Starting(todo: seq<Entry>, held: set<Guard>)
    | Registering(entry: Entry, todo: seq<Entry>, held: set<Guard>)

  /** `prepared` are the requests that clients have built under the lock and not sent yet. `handled`,
      `refused` and `forwarded` record what has happened: releases served, registrations that adapters
      have refused, and range events passed on to listeners. */
  datatype State = State(
    counter: Key,
    watchMap: set<Key>,
    dropped: set<Key>,
    released: set<Key>,
    getters: map<Id, set<Key>>,
    guards: set<Guard>,
    prepared: seq<seq<Entry>>,
    queue: seq<WatchOp>,
    worker: Worker,
    nextGuard: nat,
    panicked: bool,
    handled: set<Key>,
    refused: set<Entry>,
    forwarded: seq<Entry>)

  datatype Step =
    | Watch(ids: seq<Id>)
    | AddGetter(id: Id, joined: seq<Key>)
    | AddGetterTags(changed: seq<Entry>)
    | RemoveGetter(id: Id)
    | RemoveGetterTags(id: Id, left: set<Key>)
    | Submit(request: nat)
    | MarkDropped(key: Key)
    | SendRelease(key: Key)
    | Take
    | CheckEntry
    | Register(accepted: bool)
    | Commit
    | Event(id: Id, key: Key)

  function Initial(): State {
    State(0, {}, {}, {}, map[], {}, [], [], Idle, 0, false, {}, {}, [])
  }

  predicate Live(s: State, key: Key) {
    key in s.watchMap && key !in s.dropped
  }

  predicate Guarded(s: State, entry: Entry) {
    exists g :: g in s.guards && g.entry == entry
  }

  /** The watchers that a new or changed getter is looked up against: the live ones without a guard for it. */
  predicate Eligible(s: State, id: Id, keys: seq<Key>) {
    Distinct(keys) && forall i :: 0 <= i < |keys| ==> Live(s, keys[i]) && !Guarded(s, Entry(id, keys[i]))
  }

  /** A registered getter that has got new tags may join this watcher. */
  predicate CanJoin(s: State, entry: Entry) {
    entry.id in s.getters && Live(s, entry.key) && !Guarded(s, entry)
  }

  predicate Enabled(s: State, step: Step) {
    !s.panicked &&
    match step
    case Watch(ids) => Distinct(ids) && forall i :: 0 <= i < |ids| ==> ids[i] in s.getters
    case AddGetter(id, keys) => id !in s.getters && Eligible(s, id, keys)
    case AddGetterTags(changed) => Distinct(changed) && forall i :: 0 <= i < |changed| ==> CanJoin(s, changed[i])
    case RemoveGetter(id) => id in s.getters
    case RemoveGetterTags(id, keys) => id in s.getters && keys <= s.getters[id]
    case Submit(request) => request < |s.prepared|
    case MarkDropped(key) => key < s.counter && key !in s.dropped
    case SendRelease(key) => key in s.dropped && key !in s.released
    case Take => s.worker.Idle? && s.queue != []
    case CheckEntry => s.worker.Starting? && s.worker.todo != []
    case Register(_) => s.worker.Registering?
    case Commit => s.worker.Starting? && s.worker.todo == []
    case Event(_, _) => true
  }

  // ---------------------------------------------------------------- the effect of each step

  function EntriesOfIds(ids: seq<Id>, key: Key): (r: seq<Entry>)
    ensures |r| == |ids| && forall i :: 0 <= i < |r| ==> r[i] == Entry(ids[i], key)
  {
    seq(|ids|, i requires 0 <= i < |ids| => Entry(ids[i], key))
  }

  function EntriesOfKeys(id: Id, keys: seq<Key>): (r: seq<Entry>)
    ensures |r| == |keys| && forall i :: 0 <= i < |r| ==> r[i] == Entry(id, keys[i])
  {
    seq(|keys|, i requires 0 <= i < |keys| => Entry(id, keys[i]))
  }

  /** An empty request is not sent. */
  function Request(entries: seq<Entry>): seq<seq<Entry>> {
    if entries == [] then [] else [entries]
  }

  function Elements(keys: seq<Key>): set<Key> {
    set k | k in keys
  }

  function Attach(getters: map<Id, set<Key>>, ids: seq<Id>, key: Key): map<Id, set<Key>> {
    map id | id in getters :: if id in ids then getters[id] + {key} else getters[id]
  }

  function KeysFor(entries: seq<Entry>, id: Id): set<Key> {
    set e | e in entries && e.id == id :: e.key
  }

  function AttachAll(getters: map<Id, set<Key>>, entries: seq<Entry>): map<Id, set<Key>> {
    map id | id in getters :: getters[id] + KeysFor(entries, id)
  }

  /** Some watcher to be joined is in the getter's list already. */
  predicate Clash(s: State, changed: seq<Entry>) {
    exists e :: e in changed && e.id in s.getters && e.key in s.getters[e.id]
  }

  function Detach(getters: map<Id, set<Key>>, ids: set<Id>, key: Key): map<Id, set<Key>> {
    map id | id in getters :: if id in ids then getters[id] - {key} else getters[id]
  }

  /** The guards of a getter with these watchers. */
  function GuardsOf(guards: set<Guard>, id: Id, keys: set<Key>): set<Guard> {
    set g | g in guards && g.entry.id == id && g.entry.key in keys
  }

  function GuardsOfKey(guards: set<Guard>, key: Key): set<Guard> {
    set g | g in guards && g.entry.key == key
  }

  function IdsOfKey(guards: set<Guard>, key: Key): set<Id> {
    set g | g in guards && g.entry.key == key :: g.entry.id
  }

  /** The watchers among `keys` that are told and lose their guard: the live ones. */
  function ToDisconnect(s: State, keys: set<Key>): set<Key> {
    set k | k in keys && Live(s, k)
  }

  /** What is left of a getter's watchers: those gone from the map are forgotten on the way. */
  function StillAttached(s: State, id: Id, keys: set<Key>): set<Key>
    requires id in s.getters
  {
    set k | k in s.getters[id] && k in s.watchMap && !(k in keys && Live(s, k))
  }

  function Released(s: State, key: Key): State {
    if key !in s.watchMap then s
    else s.(watchMap := s.watchMap - {key},
            getters := Detach(s.getters, IdsOfKey(s.guards, key), key),
            guards := s.guards - GuardsOfKey(s.guards, key))
  }

  /** The guards among these whose watcher can still be reached. */
  function Reachable(held: set<Guard>, watchMap: set<Key>): set<Guard> {
    set g | g in held && g.entry.key in watchMap
  }

  function Answered(s: State, accepted: bool): State
    requires s.worker.Registering?
  {
    var (entry, todo, held) := (s.worker.entry, s.worker.todo, s.worker.held);
    if accepted
    then s.(worker := Starting(todo, held + {Guard(s.nextGuard, entry)}), nextGuard := s.nextGuard + 1)
    else s.(worker := Starting(todo, held), refused := s.refused + {entry})
  }

  /** The coded test before a registration: the watcher is still in the map and its flag is not set. */
  function Checked(s: State): State
    requires s.worker.Starting? && s.worker.todo != []
  {
    var (entry, rest, held) := (s.worker.todo[0], s.worker.todo[1..], s.worker.held);
    s.(worker := if Live(s, entry.key) then Registering(entry, rest, held) else Starting(rest, held))
  }

  function Next(s: State, step: Step): State
    requires Enabled(s, step)
  {
    match step
    case Watch(ids) =>
      s.(counter := s.counter + 1, watchMap := s.watchMap + {s.counter},
         getters := Attach(s.getters, ids, s.counter),
         prepared := s.prepared + Request(EntriesOfIds(ids, s.counter)))
    case AddGetter(id, keys) =>
      s.(getters := s.getters[id := Elements(keys)], prepared := s.prepared + Request(EntriesOfKeys(id, keys)))
    case AddGetterTags(changed) =>
      // A watcher that already is in the getter's list fails an assertion that is on in every build.
      if Clash(s, changed) then s.(panicked := true)
      else s.(getters := AttachAll(s.getters, changed), prepared := s.prepared + Request(changed))
    case RemoveGetter(id) =>
      s.(getters := s.getters - {id},
         guards := s.guards - GuardsOf(s.guards, id, ToDisconnect(s, s.getters[id])))
    case RemoveGetterTags(id, keys) =>
      s.(getters := s.getters[id := StillAttached(s, id, keys)],
         guards := s.guards - GuardsOf(s.guards, id, ToDisconnect(s, keys)))
    case Submit(request) =>
      s.(prepared := s.prepared[..request] + s.prepared[request + 1..],
         queue := s.queue + [Start(s.prepared[request])])
    case MarkDropped(key) => s.(dropped := s.dropped + {key})
    case SendRelease(key) => s.(released := s.released + {key}, queue := s.queue + [Release(key)])
    case Take =>
      var s' := s.(queue := s.queue[1..]);
      (match s.queue[0]
       case Start(entries) => s'.(worker := Starting(entries, {}))
       case Release(key) => Released(s', key).(handled := s.handled + {key}))
    case CheckEntry => Checked(s)
    case Register(accepted) => Answered(s, accepted)
    case Commit => s.(guards := s.guards + Reachable(s.worker.held, s.watchMap), worker := Idle)
    case Event(id, key) => if key in s.dropped then s else s.(forwarded := s.forwarded + [Entry(id, key)])
  }

  ghost predicate IsRun(states: seq<State>, steps: seq<Step>) {
    && |states| == |steps| + 1
    && states[0] == Initial()
    && (forall i :: 0 <= i < |steps| ==> Enabled(states[i], steps[i]) && states[i + 1] == Next(states[i], steps[i]))
  }

  // ---------------------------------------------------------------- what every step keeps

  function Held(s: State): set<Guard> {
    if s.worker.Idle? then {} else s.worker.held
  }

  /** Every registration that is alive at some adapter: its guard is stored in a watcher or held by the
      worker. */
  function AliveGuards(s: State): set<Guard> {
    s.guards + Held(s)
  }

  predicate Below(keys: set<Key>, bound: Key) {
    forall k :: k in keys ==> k < bound
  }

  ghost predicate KeysIssued(s: State) {
    && Below(s.watchMap, s.counter)
    && Below(s.dropped, s.counter)
    && s.handled <= s.dropped
    && s.handled !! s.watchMap
    && ReleasesAreOfDropped(s.queue, s.dropped)
  }

  ghost predicate ReleasesAreOfDropped(queue: seq<WatchOp>, dropped: set<Key>) {
    forall op :: op in queue && op.Release? ==> op.key in dropped
  }

  ghost predicate GuardsOwned(s: State) {
    && (forall g :: g in AliveGuards(s) ==> g.entry.key in s.watchMap)
    && (s.worker.Registering? ==> s.worker.entry.key in s.watchMap)
  }

  lemma NextKeysIssued(s: State, step: Step)
    requires KeysIssued(s) && Enabled(s, step)
    ensures KeysIssued(Next(s, step))
  {
  }

  lemma NextGuardsOwned(s: State, step: Step)
    requires GuardsOwned(s) && Enabled(s, step)
    ensures GuardsOwned(Next(s, step))
  {
  }

  lemma {:induction false} RunsKeepInvariant(states: seq<State>, steps: seq<Step>, n: nat)
    requires IsRun(states, steps) && n <= |steps|
    ensures KeysIssued(states[n]) && GuardsOwned(states[n])
  {
    if n > 0 {
      RunsKeepInvariant(states, steps, n - 1);
      NextKeysIssued(states[n - 1], steps[n - 1]);
      NextGuardsOwned(states[n - 1], steps[n - 1]);
    }
  }

  /** The assertion of `stop_watch`, that the flag of a watch to release is set, never fails. */
  lemma ReleasedAreDropped(states: seq<State>, steps: seq<Step>, n: nat)
    requires IsRun(states, steps) && n < |steps| && steps[n] == Take && states[n].queue[0].Release?
    ensures states[n].queue[0].key in states[n].dropped
  {
    RunsKeepInvariant(states, steps, n);
    assert states[n].queue[0] in states[n].queue;
  }

  // ---------------------------------------------------------------- keys

  lemma Monotone(s: State, step: Step)
    requires Enabled(s, step)
    ensures var s' := Next(s, step);
      s.counter <= s'.counter && s.dropped <= s'.dropped && s.handled <= s'.handled
  {
  }

  lemma {:induction false} RunsAreMonotone(states: seq<State>, steps: seq<Step>, i: nat, j: nat)
    requires IsRun(states, steps) && i <= j <= |steps|
    ensures states[i].counter <= states[j].counter
    ensures states[i].dropped <= states[j].dropped && states[i].handled <= states[j].handled
  {
    if i < j {
      RunsAreMonotone(states, steps, i, j - 1);
      Monotone(states[j - 1], steps[j - 1]);
    }
  }

  /** In every interleaving a key that one call of `watch_values` got is never given to another. */
  lemma KeysAreNeverReissued(states: seq<State>, steps: seq<Step>, i: nat, j: nat)
    requires IsRun(states, steps) && i < j < |steps| && steps[i].Watch? && steps[j].Watch?
    ensures states[i + 1].watchMap == states[i].watchMap + {states[i].counter}
    ensures states[j + 1].watchMap == states[j].watchMap + {states[j].counter}
    ensures states[i].counter < states[j].counter
  {
    RunsAreMonotone(states, steps, i + 1, j);
  }

  // ---------------------------------------------------------------- silence after the drop

  /** What a run has forwarded for a key. */
  function ForwardedFor(events: seq<Entry>, key: Key): seq<Entry> {
    if events == [] then []
    else
      var last := events[|events| - 1];
      ForwardedFor(events[..|events| - 1], key) + if last.key == key then [last] else []
  }

  /** In every interleaving, once the guard of a watch is dropped no range event is forwarded to its
      listener any more, whatever the adapters still send and however late the release is served. */
  lemma {:induction false} SilentAfterDrop(states: seq<State>, steps: seq<Step>, i: nat, j: nat, key: Key)
    requires IsRun(states, steps) && i <= j <= |steps| && key in states[i].dropped
    ensures ForwardedFor(states[j].forwarded, key) == ForwardedFor(states[i].forwarded, key)
  {
    if i < j {
      SilentAfterDrop(states, steps, i, j - 1, key);
      RunsAreMonotone(states, steps, i, j - 1);
      SilentStep(states[j - 1], steps[j - 1], key);
    }
  }

  lemma SilentStep(s: State, step: Step, key: Key)
    requires Enabled(s, step) && key in s.dropped
    ensures ForwardedFor(Next(s, step).forwarded, key) == ForwardedFor(s.forwarded, key)
  {
    if step.Event? && step.key !in s.dropped {
      var longer := s.forwarded + [Entry(step.id, step.key)];
      assert longer[..|longer| - 1] == s.forwarded;
      assert ForwardedFor(s.forwarded, key) + [] == ForwardedFor(s.forwarded, key);
    }
  }

  // ---------------------------------------------------------------- nothing survives the release

  /** In every interleaving, once `Release(key)` is handled no registration of that key is alive at any
      adapter, then and at any later time; requests for the key that arrive later register nothing. */
  lemma NothingSurvivesRelease(states: seq<State>, steps: seq<Step>, i: nat, j: nat, key: Key)
    requires IsRun(states, steps) && i < j <= |steps|
    requires steps[i] == Take && states[i].queue[0] == Release(key)
    ensures GuardsOfKey(AliveGuards(states[j]), key) == {}
    ensures key !in states[j].watchMap
  {
    assert key in states[i + 1].handled;
    RunsAreMonotone(states, steps, i + 1, j);
    RunsKeepInvariant(states, steps, j);
  }

  // ---------------------------------------------------------------- no request is lost

  /** The request to register an entry is on its way. */
  ghost predicate Pending(s: State, entry: Entry) {
    || (exists i :: 0 <= i < |s.prepared| && entry in s.prepared[i])
    || (exists i :: 0 <= i < |s.queue| && s.queue[i].Start? && entry in s.queue[i].entries)
    || (!s.worker.Idle? && entry in s.worker.todo)
    || (s.worker.Registering? && entry == s.worker.entry)
    || (exists g :: g in Held(s) && g.entry == entry)
  }

  /** A live watcher in a getter's list has a registration, or one on its way, or was refused one. */
  ghost predicate Accounted(s: State, entry: Entry) {
    (Listed(s, entry) && Live(s, entry.key))
    ==> Pending(s, entry) || Guarded(s, entry) || entry in s.refused
  }

  /** The requests that were sent or prepared for an entry before a step are still there after it, or the
      step has served them. */
  lemma PendingStep(s: State, step: Step, entry: Entry)
    requires GuardsOwned(s) && Enabled(s, step) && Pending(s, entry) && Live(Next(s, step), entry.key)
    ensures var s' := Next(s, step);
      Pending(s', entry) || Guarded(s', entry) || entry in s'.refused
  {
    var s' := Next(s, step);
    if i :| 0 <= i < |s.prepared| && entry in s.prepared[i] {
      PreparedStep(s, step, entry, i);
    } else if i :| 0 <= i < |s.queue| && s.queue[i].Start? && entry in s.queue[i].entries {
      QueuedStep(s, step, entry, i);
    } else {
      WorkerStep(s, step, entry);
    }
  }

  lemma PreparedStep(s: State, step: Step, entry: Entry, i: nat)
    requires Enabled(s, step) && i < |s.prepared| && entry in s.prepared[i]
    ensures Pending(Next(s, step), entry)
  {
    var s' := Next(s, step);
    if step.Submit? {
      var r := step.request;
      if i == r {
        assert s'.queue[|s.queue|] == Start(s.prepared[r]);
      } else {
        assert s'.prepared[if i < r then i else i - 1] == s.prepared[i];
      }
    } else {
      assert s'.prepared[i] == s.prepared[i];
    }
  }

  lemma QueuedStep(s: State, step: Step, entry: Entry, i: nat)
    requires Enabled(s, step) && i < |s.queue| && s.queue[i].Start? && entry in s.queue[i].entries
    ensures Pending(Next(s, step), entry)
  {
    var s' := Next(s, step);
    if step.Take? {
      if i == 0 {
        assert s'.worker == Starting(s.queue[0].entries, {});
      } else {
        assert s'.queue[i - 1] == s.queue[i];
      }
    } else {
      assert s'.queue[i] == s.queue[i];
    }
  }

  lemma WorkerStep(s: State, step: Step, entry: Entry)
    requires GuardsOwned(s) && Enabled(s, step) && Live(Next(s, step), entry.key)
    requires !s.worker.Idle?
    requires entry in s.worker.todo || (s.worker.Registering? && entry == s.worker.entry)
             || exists g :: g in s.worker.held && g.entry == entry
    ensures var s' := Next(s, step);
      Pending(s', entry) || Guarded(s', entry) || entry in s'.refused
  {
  }

  lemma GuardedStep(s: State, step: Step, entry: Entry)
    requires Enabled(s, step) && Guarded(s, entry)
    requires entry.id in Next(s, step).getters && entry.key in Next(s, step).getters[entry.id]
    requires Live(Next(s, step), entry.key)
    ensures Guarded(Next(s, step), entry)
  {
  }

  /** A step that puts a watcher into a getter's list prepares the request for it. */
  lemma AttachedStep(s: State, step: Step, entry: Entry)
    requires KeysIssued(s) && Enabled(s, step)
    requires entry.id in Next(s, step).getters && entry.key in Next(s, step).getters[entry.id]
    requires !(entry.id in s.getters && entry.key in s.getters[entry.id])
    ensures Pending(Next(s, step), entry)
  {
    var s' := Next(s, step);
    var last := |s.prepared|;
    if step.Watch? {
      var i :| 0 <= i < |step.ids| && step.ids[i] == entry.id;
      assert EntriesOfIds(step.ids, s.counter)[i] == entry;
      assert s'.prepared[last] == EntriesOfIds(step.ids, s.counter);
    } else if step.AddGetter? {
      var i :| 0 <= i < |step.joined| && step.joined[i] == entry.key;
      assert EntriesOfKeys(step.id, step.joined)[i] == entry;
      assert s'.prepared[last] == EntriesOfKeys(step.id, step.joined);
    } else {
      assert entry in step.changed;
      assert s'.prepared[last] == step.changed;
    }
  }

  /** A getter's list names only issued keys. */
  ghost predicate ListsIssued(s: State) {
    forall id, k :: id in s.getters && k in s.getters[id] ==> k < s.counter
  }

  lemma NextAccounted(s: State, step: Step, entry: Entry)
    requires KeysIssued(s) && GuardsOwned(s) && ListsIssued(s) && Enabled(s, step)
    requires Accounted(s, entry)
    ensures Accounted(Next(s, step), entry)
  {
    var s' := Next(s, step);
    if entry.id in s'.getters && entry.key in s'.getters[entry.id] && Live(s', entry.key) {
      if !(entry.id in s.getters && entry.key in s.getters[entry.id]) {
        AttachedStep(s, step, entry);
      } else if Pending(s, entry) {
        PendingStep(s, step, entry);
      } else if Guarded(s, entry) {
        GuardedStep(s, step, entry);
      }
    }
  }

  lemma NextListsIssued(s: State, step: Step)
    requires KeysIssued(s) && ListsIssued(s) && Enabled(s, step)
    ensures ListsIssued(Next(s, step))
  {
  }

  /** In every interleaving no request is lost: a live watcher in a registered getter's list is registered
      at the adapter, or its request is on its way, or the adapter has refused it. */
  lemma {:induction false} NoRequestIsLost(states: seq<State>, steps: seq<Step>, n: nat, entry: Entry)
    requires IsRun(states, steps) && n <= |steps|
    ensures ListsIssued(states[n]) && Accounted(states[n], entry)
  {
    if n > 0 {
      NoRequestIsLost(states, steps, n - 1, entry);
      RunsKeepInvariant(states, steps, n - 1);
      NextListsIssued(states[n - 1], steps[n - 1]);
      NextAccounted(states[n - 1], steps[n - 1], entry);
    }
  }

  ghost predicate Quiet(s: State) {
    s.prepared == [] && s.queue == [] && s.worker.Idle?
  }

  /** Once the worker has caught up, every live watcher of a getter is registered or was refused. */
  lemma QuietMeansRegistered(states: seq<State>, steps: seq<Step>, n: nat, entry: Entry)
    requires IsRun(states, steps) && n <= |steps| && Quiet(states[n])
    requires entry.id in states[n].getters && entry.key in states[n].getters[entry.id] && Live(states[n], entry.key)
    ensures Guarded(states[n], entry) || entry in states[n].refused
  {
    NoRequestIsLost(states, steps, n, entry);
  }

  // ---------------------------------------------------------------- two races

  /** Adding tags fails its internal assertion exactly if one of the live watchers that now match already
      is in the getter's list without a registration; its request is then still on its way, or was refused. */
  lemma AddTagsPanicsExactly(states: seq<State>, steps: seq<Step>, n: nat)
    requires IsRun(states, steps) && n < |steps| && steps[n].AddGetterTags?
    ensures states[n + 1].panicked <==>
      exists e :: e in steps[n].changed && e.key in states[n].getters[e.id]
                  && !Guarded(states[n], e) && (Pending(states[n], e) || e in states[n].refused)
  {
    var (s, changed) := (states[n], steps[n].changed);
    forall e | e in changed && e.key in s.getters[e.id]
      ensures Live(s, e.key) && !Guarded(s, e)
      ensures Pending(s, e) || e in s.refused
    {
      var i :| 0 <= i < |changed| && changed[i] == e;
      assert CanJoin(s, changed[i]);
      NoRequestIsLost(states, steps, n, e);
    }
    assert states[n + 1].panicked <==> Clash(s, changed);
  }

  /** The entry has a registration that is alive at its adapter. */
  ghost predicate Registered(s: State, entry: Entry) {
    exists g :: g in AliveGuards(s) && g.entry == entry
  }

  predicate Accepts(s: State, step: Step, entry: Entry) {
    step == Register(true) && s.worker.Registering? && s.worker.entry == entry
  }

  /** The watcher is in the getter's list. */
  predicate Listed(s: State, entry: Entry) {
    entry.id in s.getters && entry.key in s.getters[entry.id]
  }

  /** The watcher leaves the getter's list in step `i` and is not in it again up to moment `j`. */
  predicate LeavesList(states: seq<State>, i: nat, j: nat, entry: Entry)
    requires i < j < |states|
  {
    Listed(states[i], entry) && forall m :: i < m <= j ==> !Listed(states[m], entry)
  }

  /** A key that is live was live ever since it was issued. */
  lemma {:induction false} WasLive(states: seq<State>, steps: seq<Step>, i: nat, j: nat, key: Key)
    requires IsRun(states, steps) && i <= j <= |steps| && Live(states[j], key) && key < states[i].counter
    ensures Live(states[i], key)
  {
    if i < j {
      RunsAreMonotone(states, steps, i, j - 1);
      WasLiveBefore(states[j - 1], steps[j - 1], key);
      WasLive(states, steps, i, j - 1, key);
    }
  }

  lemma WasLiveBefore(s: State, step: Step, key: Key)
    requires Enabled(s, step) && Live(Next(s, step), key) && key < s.counter
    ensures Live(s, key)
  {
  }

  /** A watcher that is not in the list after a step got no new request in it. */
  lemma NoNewRequest(s: State, step: Step, entry: Entry)
    requires Enabled(s, step) && Pending(Next(s, step), entry) && !Listed(Next(s, step), entry)
    ensures Pending(s, entry)
  {
    var s' := Next(s, step);
    if i :| 0 <= i < |s'.prepared| && entry in s'.prepared[i] {
      WasPrepared(s, step, entry, i);
    } else if i :| 0 <= i < |s'.queue| && s'.queue[i].Start? && entry in s'.queue[i].entries {
      WasQueued(s, step, entry, i);
    } else {
      WasAtWorker(s, step, entry);
    }
  }

  lemma WasPrepared(s: State, step: Step, entry: Entry, i: nat)
    requires Enabled(s, step) && i < |Next(s, step).prepared| && entry in Next(s, step).prepared[i]
    requires !Listed(Next(s, step), entry)
    ensures Pending(s, entry)
  {
    var s' := Next(s, step);
    if step.Submit? {
      assert s'.prepared[i] == s.prepared[if i < step.request then i else i + 1];
    } else if i < |s.prepared| {
      assert s'.prepared[i] == s.prepared[i];
    }
  }

  lemma WasQueued(s: State, step: Step, entry: Entry, i: nat)
    requires Enabled(s, step) && i < |Next(s, step).queue|
    requires Next(s, step).queue[i].Start? && entry in Next(s, step).queue[i].entries
    ensures Pending(s, entry)
  {
    var s' := Next(s, step);
    if step.Take? {
      assert s'.queue[i] == s.queue[i + 1];
    } else if i < |s.queue| {
      assert s'.queue[i] == s.queue[i];
    } else {
      assert step.Submit? && entry in s.prepared[step.request];
    }
  }

  lemma WasAtWorker(s: State, step: Step, entry: Entry)
    requires Enabled(s, step) && !Next(s, step).worker.Idle?
    requires var w := Next(s, step).worker;
      entry in w.todo || (w.Registering? && entry == w.entry) || exists g :: g in w.held && g.entry == entry
    ensures Pending(s, entry)
  {
    if step.Take? {
      assert s.queue[0].Start?;
    }
  }

  /** A watcher that is not in the list gets a registration only by being accepted, and loses none. */
  lemma RegisteredStep(s: State, step: Step, entry: Entry)
    requires GuardsOwned(s) && Enabled(s, step) && !Listed(s, entry) && Live(Next(s, step), entry.key)
    ensures Registered(Next(s, step), entry) <==> Registered(s, entry) || Accepts(s, step, entry)
  {
    var s' := Next(s, step);
    if Accepts(s, step, entry) {
      assert Guard(s.nextGuard, entry) in AliveGuards(s');
    }
    if g :| g in AliveGuards(s) && g.entry == entry {
      assert g in AliveGuards(s');
    }
    if g :| g in AliveGuards(s') && g.entry == entry {
      assert g in AliveGuards(s) || (step == Register(true) && g == Guard(s.nextGuard, s.worker.entry));
    }
  }

  ghost predicate HeldFor(s: State, entry: Entry) {
    exists g :: g in Held(s) && g.entry == entry
  }

  /** The step that takes a live watcher out of the list drops the guards it has, not those under way. */
  lemma LeavingDropsGuards(s: State, step: Step, entry: Entry)
    requires Enabled(s, step) && Listed(s, entry) && !Listed(Next(s, step), entry) && Live(Next(s, step), entry.key)
    ensures step.RemoveGetter? || step.RemoveGetterTags?
    ensures !Guarded(Next(s, step), entry)
    ensures Registered(Next(s, step), entry) <==> HeldFor(s, entry)
  {
    assert Held(Next(s, step)) == Held(s);
  }

  /** Some adapter accepts the entry between two moments of a run. */
  ghost predicate AcceptedIn(states: seq<State>, steps: seq<Step>, i: nat, j: nat, entry: Entry)
    requires i <= j <= |steps| < |states|
  {
    exists m :: i <= m < j && Accepts(states[m], steps[m], entry)
  }

  lemma AcceptedInStep(states: seq<State>, steps: seq<Step>, i: nat, j: nat, entry: Entry)
    requires i < j <= |steps| < |states|
    ensures AcceptedIn(states, steps, i, j, entry)
       <==> AcceptedIn(states, steps, i, j - 1, entry) || Accepts(states[j - 1], steps[j - 1], entry)
  {
  }

  /** The registrations at moment `j` of an entry that left the list in step `i`. */
  lemma {:induction false} RegisteredSince(states: seq<State>, steps: seq<Step>, i: nat, j: nat, entry: Entry)
    requires IsRun(states, steps) && i < j <= |steps|
    requires LeavesList(states, i, j, entry) && Live(states[j], entry.key)
    ensures Registered(states[j], entry) <==> HeldFor(states[i], entry) || AcceptedIn(states, steps, i, j, entry)
  {
    var (s, step) := (states[j - 1], steps[j - 1]);
    RunsKeepInvariant(states, steps, j - 1);
    AcceptedInStep(states, steps, i, j, entry);
    if j == i + 1 {
      LeavingDropsGuards(s, step, entry);
    } else {
      NoRequestIsLost(states, steps, i, entry);
      RunsAreMonotone(states, steps, i, j - 1);
      WasLive(states, steps, j - 1, j, entry.key);
      RegisteredSince(states, steps, i, j - 1, entry);
      RegisteredStep(s, step, entry);
    }
  }

  /** The entry has a guard or a request under way. */
  ghost predicate Open(s: State, entry: Entry) {
    Pending(s, entry) || Guarded(s, entry)
  }

  /** An entry that is not in the list stays open or is refused, and does not open anew. */
  lemma OpenStep(s: State, step: Step, entry: Entry)
    requires GuardsOwned(s) && Enabled(s, step) && Live(Next(s, step), entry.key)
    requires !Listed(s, entry) && !Listed(Next(s, step), entry)
    ensures Open(Next(s, step), entry) ==> Open(s, entry)
    ensures Open(s, entry) ==> Open(Next(s, step), entry) || entry in Next(s, step).refused
  {
    var s' := Next(s, step);
    if Pending(s', entry) {
      NoNewRequest(s, step, entry);
    } else if g :| g in s'.guards && g.entry == entry {
      assert g in s.guards || g in Held(s);
    }
    if Pending(s, entry) {
      PendingStep(s, step, entry);
    } else if g :| g in s.guards && g.entry == entry {
      assert g in s'.guards;
    }
  }

  lemma LeavingKeepsRequests(s: State, step: Step, entry: Entry)
    requires GuardsOwned(s) && Enabled(s, step) && Live(Next(s, step), entry.key)
    requires Listed(s, entry) && !Listed(Next(s, step), entry)
    ensures Open(Next(s, step), entry) ==> Pending(s, entry)
    ensures Pending(s, entry) ==> Open(Next(s, step), entry) || entry in Next(s, step).refused
  {
    hide Next, Pending, Listed;
    LeavingDropsGuards(s, step, entry);
    if Pending(s, entry) {
      PendingStep(s, step, entry);
    } else if Pending(Next(s, step), entry) {
      NoNewRequest(s, step, entry);
    }
  }

  lemma {:induction false} OpenSince(states: seq<State>, steps: seq<Step>, i: nat, j: nat, entry: Entry)
    requires IsRun(states, steps) && i < j <= |steps|
    requires LeavesList(states, i, j, entry) && Live(states[j], entry.key)
    ensures Open(states[j], entry) ==> Pending(states[i], entry)
    ensures Pending(states[i], entry) ==> Open(states[j], entry) || entry in states[j].refused
  {
    hide Open, Pending, Guarded, Enabled, Next, Live;
    var (s, step) := (states[j - 1], steps[j - 1]);
    RunsKeepInvariant(states, steps, j - 1);
    if j == i + 1 {
      LeavingKeepsRequests(s, step, entry);
    } else {
      NoRequestIsLost(states, steps, i, entry);
      RunsAreMonotone(states, steps, i, j - 1);
      WasLive(states, steps, j - 1, j, entry.key);
      OpenSince(states, steps, i, j - 1, entry);
      OpenStep(s, step, entry);
      RefusalsStay(s, step);
    }
  }

  lemma RefusalsStay(s: State, step: Step)
    requires Enabled(s, step)
    ensures s.refused <= Next(s, step).refused
  {
  }

  /** Exactly when a removal leaves a guard behind. A live watcher leaves a getter's list, as the getter is
      removed or loses tags, and is not in it again: once the worker has caught up the watcher has a guard
      for the getter iff some adapter has accepted its request since, or before and not yet committed.
      Without a refusal this is so iff its request was under way when it left. */
  lemma RemovalLeavesGuardExactly(states: seq<State>, steps: seq<Step>, i: nat, j: nat, entry: Entry)
    requires IsRun(states, steps) && i < j <= |steps| && Quiet(states[j])
    requires LeavesList(states, i, j, entry) && Live(states[j], entry.key)
    ensures Guarded(states[j], entry) <==> HeldFor(states[i], entry) || AcceptedIn(states, steps, i, j, entry)
    ensures Guarded(states[j], entry) ==> Pending(states[i], entry)
    ensures entry !in states[j].refused ==> (Guarded(states[j], entry) <==> Pending(states[i], entry))
  {
    RegisteredSince(states, steps, i, j, entry);
    OpenSince(states, steps, i, j, entry);
    assert AliveGuards(states[j]) == states[j].guards;
    assert !Pending(states[j], entry);
  }

  /** Exactly when a returning getter can be watched: a call that adds it can put a live watcher into its
      list iff the watcher has no guard left for it. */
  lemma ReturnIsWatchedExactly(s: State, entry: Entry)
    requires entry.id !in s.getters && Live(s, entry.key) && !s.panicked
    ensures (exists joined :: Enabled(s, AddGetter(entry.id, joined))
                              && entry.key in Next(s, AddGetter(entry.id, joined)).getters[entry.id])
       <==> !Guarded(s, entry)
  {
    if joined :| Enabled(s, AddGetter(entry.id, joined)) && entry.key in Next(s, AddGetter(entry.id, joined)).getters[entry.id] {
      var i :| 0 <= i < |joined| && joined[i] == entry.key;
      assert !Guarded(s, Entry(entry.id, joined[i]));
    }
    if !Guarded(s, entry) {
      assert Enabled(s, AddGetter(entry.id, [entry.key]));
      assert entry.key in Elements([entry.key]);
    }
  }

  /** One schedule of this: a getter is removed while the worker registers a watch for it. The
      watcher keeps a guard for a getter that is not there, and when the getter comes back the watcher is
      not looked at, so that it does not watch the new getter. */
  lemma RemovalDuringStart(s: State, rejoined: seq<Key>)
    requires s.worker.Registering? && s.worker.todo == [] && !s.panicked && GuardsOwned(s)
    requires var (id, key) := (s.worker.entry.id, s.worker.entry.key);
      id in s.getters && Live(s, key)
    ensures var (id, key) := (s.worker.entry.id, s.worker.entry.key);
      && var s1 := Next(s, RemoveGetter(id));
         && Enabled(s1, Register(true))
         && var s2 := Next(s1, Register(true));
            && Enabled(s2, Commit)
            && var s3 := Next(s2, Commit);
               && id !in s3.getters && Guarded(s3, Entry(id, key)) && Live(s3, key)
               && (Enabled(s3, AddGetter(id, rejoined)) ==>
                     && key !in rejoined
                     && key !in Next(s3, AddGetter(id, rejoined)).getters[id])
  {
  }

  /** A run that gets there: one getter, one watcher, and the worker in the middle of its request. */
  function StageSteps(id: Id): seq<Step> {
    [AddGetter(id, []), Watch([id]), Submit(0), Take, CheckEntry]
  }

  function Stage(id: Id, n: nat): State {
    var entry := Entry(id, 0);
    if n == 0 then Initial()
    else if n == 1 then Initial().(getters := map[id := {}])
    else
      var s := Initial().(counter := 1, watchMap := {0}, getters := map[id := {0}]);
      if n == 2 then s.(prepared := [[entry]])
      else if n == 3 then s.(queue := [Start([entry])])
      else s.(worker := if n == 4 then Starting([entry], {}) else Registering(entry, [], {}))
  }

  lemma StageWatch(id: Id)
    ensures Enabled(Stage(id, 1), Watch([id])) && Next(Stage(id, 1), Watch([id])) == Stage(id, 2)
  {
    var s := Stage(id, 1);
    assert EntriesOfIds([id], 0) == [Entry(id, 0)];
    assert id in [id] && s.getters[id] + {0} == {0};
    assert Attach(s.getters, [id], 0) == map[id := {0}];
  }

  lemma StageStep(id: Id, n: nat)
    requires n < 5
    ensures Enabled(Stage(id, n), StageSteps(id)[n])
    ensures Next(Stage(id, n), StageSteps(id)[n]) == Stage(id, n + 1)
  {
    var entry := Entry(id, 0);
    if n == 0 {
      assert Elements([]) == {};
    } else if n == 1 {
      StageWatch(id);
    } else if n == 2 {
      assert [[entry]][..0] + [[entry]][1..] == [];
    } else if n == 4 {
      assert Live(Stage(id, 4), 0) && [entry][1..] == [];
    }
  }

  lemma RegisteringIsReachable(id: Id) returns (states: seq<State>)
    ensures IsRun(states, StageSteps(id))
    ensures |states| == 6 && states[5] == Stage(id, 5)
    ensures var s := states[5];
      && s.worker == Registering(Entry(id, 0), [], {}) && !s.panicked
      && id in s.getters && Live(s, 0)
  {
    states := seq(6, n requires 0 <= n < 6 => Stage(id, n));
    forall n | 0 <= n < 5
      ensures Enabled(states[n], StageSteps(id)[n]) && states[n + 1] == Next(states[n], StageSteps(id)[n])
    {
      StageStep(id, n);
    }
  }

  /** From there both races come about: adding tags now panics, and a removal now leaves a guard behind. */
  lemma EarlyTagsPanic(id: Id) returns (states: seq<State>)
    ensures IsRun(states, StageSteps(id) + [AddGetterTags([Entry(id, 0)])])
    ensures states[6].panicked
  {
    var run := RegisteringIsReachable(id);
    var (s, step) := (run[5], AddGetterTags([Entry(id, 0)]));
    assert Clash(s, [Entry(id, 0)]) by {
      assert s == Stage(id, 5);
      assert Entry(id, 0) in [Entry(id, 0)];
    }
    assert !Guarded(s, Entry(id, 0));
    states := run + [Next(s, step)];
  }

  lemma RemovalLeavesGuard(id: Id) returns (states: seq<State>)
    ensures IsRun(states, StageSteps(id) + [RemoveGetter(id), Register(true), Commit])
    ensures Quiet(states[8]) && id !in states[8].getters && Live(states[8], 0) && Guarded(states[8], Entry(id, 0))
  {
    var run := RegisteringIsReachable(id);
    var s := run[5];
    var s1 := Next(s, RemoveGetter(id));
    var s2 := Next(s1, Register(true));
    assert Guard(s1.nextGuard, Entry(id, 0)) in s2.worker.held;
    var s3 := Next(s2, Commit);
    assert Guard(s1.nextGuard, Entry(id, 0)) in s3.guards;
    states := run + [s1, s2, s3];
  }

  /** The steps from there to the end of the watch: it is registered, an event is passed on, the getter leaves it,
      its guard is dropped, and its release is handled. */
  function LifeSteps(id: Id): (steps: seq<Step>)
    ensures |steps| == 7
  {
    [Register(true), Commit, Event(id, 0), RemoveGetterTags(id, {0}), MarkDropped(0), SendRelease(0), Take]
  }

  function LifeStage(id: Id, n: nat): State {
    var (entry, start) := (Entry(id, 0), Stage(id, 5).(nextGuard := 1));
    var guard := Guard(0, entry);
    if n == 0 then Stage(id, 5)
    else if n == 1 then start.(worker := Starting([], {guard}))
    else if n == 2 then start.(worker := Idle, guards := {guard})
    else
      var s := start.(worker := Idle, forwarded := [entry]);
      if n == 3 then s.(guards := {guard})
      else
        var left := s.(getters := map[id := {}]);
        if n == 4 then left
        else if n == 5 then left.(dropped := {0})
        else if n == 6 then left.(dropped := {0}, released := {0}, queue := [Release(0)])
        else left.(dropped := {0}, released := {0}, watchMap := {}, handled := {0})
  }

  lemma LifeStep(id: Id, n: nat)
    requires n < 7
    ensures Enabled(LifeStage(id, n), LifeSteps(id)[n])
    ensures Next(LifeStage(id, n), LifeSteps(id)[n]) == LifeStage(id, n + 1)
  {
    if n < 3 {
      RegisteringStep(id, n);
    } else if n == 3 {
      LeavingStep(id);
    } else if n == 6 {
      ReleasingStep(id);
    }
  }

  lemma RegisteringStep(id: Id, n: nat)
    requires n < 3
    ensures Enabled(LifeStage(id, n), LifeSteps(id)[n])
    ensures Next(LifeStage(id, n), LifeSteps(id)[n]) == LifeStage(id, n + 1)
  {
    var (s, entry) := (LifeStage(id, n), Entry(id, 0));
    if n == 0 {
      assert {} + {Guard(0, entry)} == {Guard(0, entry)};
    } else if n == 1 {
      assert Reachable(s.worker.held, s.watchMap) == {Guard(0, entry)};
    }
  }

  lemma LeavingStep(id: Id)
    ensures Enabled(LifeStage(id, 3), RemoveGetterTags(id, {0}))
    ensures Next(LifeStage(id, 3), RemoveGetterTags(id, {0})) == LifeStage(id, 4)
  {
    var (s, entry) := (LifeStage(id, 3), Entry(id, 0));
    assert ToDisconnect(s, {0}) == {0} && StillAttached(s, id, {0}) == {};
    assert GuardsOf(s.guards, id, {0}) == {Guard(0, entry)};
    assert s.getters[id := {}] == map[id := {}];
  }

  lemma ReleasingStep(id: Id)
    ensures Enabled(LifeStage(id, 6), Take) && Next(LifeStage(id, 6), Take) == LifeStage(id, 7)
  {
    var s := LifeStage(id, 6);
    assert IdsOfKey(s.guards, 0) == {} && GuardsOfKey(s.guards, 0) == {};
    assert Detach(s.getters, {}, 0) == s.getters;
  }

  lemma LifeOfAWatch(id: Id) returns (states: seq<State>)
    ensures IsRun(states, StageSteps(id) + LifeSteps(id))
    ensures Guarded(states[7], Entry(id, 0)) && states[8].forwarded == [Entry(id, 0)]
    ensures states[9].guards == {} && states[12].handled == {0} && states[12].watchMap == {} && Quiet(states[12])
  {
    states := seq(13, n requires 0 <= n < 13 => if n < 5 then Stage(id, n) else LifeStage(id, n - 5));
    forall n | 0 <= n < 12
      ensures Enabled(states[n], (StageSteps(id) + LifeSteps(id))[n])
      ensures states[n + 1] == Next(states[n], (StageSteps(id) + LifeSteps(id))[n])
    {
      if n < 5 {
        StageStep(id, n);
      } else {
        LifeStep(id, n - 5);
      }
    }
    assert states[7] == LifeStage(id, 2) && states[8] == LifeStage(id, 3);
    assert states[9] == LifeStage(id, 4) && states[12] == LifeStage(id, 7);
    assert Guard(0, Entry(id, 0)) in states[7].guards;
  }

  /** Registrations have numbers of their own: those that are alive have different ones, all below the next. */
  lemma {:induction false} RegistrationsAreNumbered(states: seq<State>, steps: seq<Step>, n: nat)
    requires IsRun(states, steps) && n <= |steps|
    ensures forall g :: g in AliveGuards(states[n]) ==> g.number < states[n].nextGuard
    ensures forall g, h :: g in AliveGuards(states[n]) && h in AliveGuards(states[n]) && g.number == h.number ==> g == h
  {
    if n > 0 {
      RegistrationsAreNumbered(states, steps, n - 1);
      NumbersStep(states[n - 1], steps[n - 1]);
    }
  }

  lemma NumbersStep(s: State, step: Step)
    requires Enabled(s, step)
    ensures s.nextGuard <= Next(s, step).nextGuard
    ensures forall g :: g in AliveGuards(Next(s, step)) && g !in AliveGuards(s) ==>
              g.number == s.nextGuard < Next(s, step).nextGuard
  {
  }

  // ---------------------------------------------------------------- what each step changes

  /** The call puts the watcher into the getter's list. */
  predicate Names(s: State, step: Step, e: Entry) {
    match step
    case Watch(ids) => e.key == s.counter && e.id in ids
    case AddGetter(id, keys) => e.id == id && e.key in keys
    case AddGetterTags(changed) => e in changed && !Clash(s, changed)
    case _ => false
  }

  /** The call takes a getter away from a watcher in its list. */
  predicate Parts(s: State, step: Step, e: Entry) {
    match step
    case RemoveGetter(id) => e.id == id
    case RemoveGetterTags(id, keys) => e.id == id && (e.key !in s.watchMap || (e.key in keys && e.key !in s.dropped))
    case _ => false
  }

  /** The worker takes up the release of the watch. */
  predicate Releases(s: State, step: Step, key: Key) {
    step.Take? && s.queue != [] && s.queue[0] == Release(key)
  }

  /** A watcher enters a getter's list exactly if a call puts it there, and then a registration is asked for; it
      leaves the list exactly if a call takes the getter away from it, or its release is served while it has a
      guard for the getter. */
  lemma ListsChangeExactly(s: State, step: Step, e: Entry)
    requires Enabled(s, step) && KeysIssued(s) && ListsIssued(s)
    ensures var s' := Next(s, step);
      && (!Listed(s, e) ==> (Listed(s', e) <==> Names(s, step, e)))
      && (Names(s, step, e) ==> Listed(s', e) && exists i :: 0 <= i < |s'.prepared| && e in s'.prepared[i])
      && (Listed(s, e) ==> (!Listed(s', e) <==>
            Parts(s, step, e) || (Releases(s, step, e.key) && e.key in s.watchMap && Guarded(s, e))))
  {
    hide KeysIssued, Clash;
    var s' := Next(s, step);
    if Names(s, step, e) {
      assert s'.prepared[|s.prepared|] == s'.prepared[|s'.prepared| - 1];
      assert e in s'.prepared[|s.prepared|] by {
        if step.Watch? {
          var i :| 0 <= i < |step.ids| && step.ids[i] == e.id;
          assert EntriesOfIds(step.ids, s.counter)[i] == e;
        } else if step.AddGetter? {
          var i :| 0 <= i < |step.joined| && step.joined[i] == e.key;
          assert EntriesOfKeys(step.id, step.joined)[i] == e;
        }
      }
    }
    if Listed(s, e) && Releases(s, step, e.key) && e.key in s.watchMap {
      assert e.id in IdsOfKey(s.guards, e.key) <==> Guarded(s, e);
    }
  }

  /** A stored guard is dropped exactly if a live watcher loses the getter by a call, or its watcher's release is
      served; and the guards stored are exactly those that a commit finds a watcher for. */
  lemma GuardsChangeExactly(s: State, step: Step, g: Guard)
    requires Enabled(s, step)
    ensures var s' := Next(s, step);
      && (g in s.guards ==> (g !in s'.guards <==>
            || (step == RemoveGetter(g.entry.id) && Listed(s, g.entry) && Live(s, g.entry.key))
            || (step.RemoveGetterTags? && step.id == g.entry.id && g.entry.key in step.left && Live(s, g.entry.key))
            || (Releases(s, step, g.entry.key) && g.entry.key in s.watchMap)))
      && (g !in s.guards ==> (g in s'.guards <==>
            step.Commit? && g in s.worker.held && g.entry.key in s.watchMap))
  {
  }

  /** A registration is started exactly for an entry whose watch is neither released nor flagged. */
  lemma RegistersLiveExactly(s: State, step: Step)
    requires Enabled(s, step) && step.CheckEntry?
    ensures var s' := Next(s, step);
      && (s'.worker.Registering? <==> s.worker.todo[0].key in s.watchMap && s.worker.todo[0].key !in s.dropped)
      && (s'.worker.Registering? ==> s'.worker.entry == s.worker.todo[0])
      && s'.worker.todo == s.worker.todo[1..] && s'.worker.held == s.worker.held
  {
  }

  function WorkLeft(w: Worker): nat {
    match w
    case Idle => 0
    case Starting(todo, _) => 2 * |todo| + 1
    case Registering(_, todo, _) => 2 * |todo| + 2
  }

  /** Once the worker has taken up a request of `n` entries it can go on until it is idle again, which it is after
      at most `2 * n + 1` steps of its own, whatever else happens meanwhile. */
  lemma WorkerAdvances(s: State, step: Step)
    requires Enabled(s, step)
    ensures var (left, left') := (WorkLeft(s.worker), WorkLeft(Next(s, step).worker));
      if step.CheckEntry? || step.Register? || step.Commit? then left' < left
      else if step.Take? then
        left == 0 && left' == (if s.queue[0].Start? then 2 * |s.queue[0].entries| + 1 else 0)
      else left' == left
    ensures !s.worker.Idle? ==> Enabled(s, CheckEntry) || Enabled(s, Register(true)) || Enabled(s, Commit)
  {
  }

  /** What has been sent to the worker in the first `n` steps, in order. */
  ghost function Sent(states: seq<State>, steps: seq<Step>, n: nat): seq<WatchOp>
    requires n <= |steps| < |states|
  {
    if n == 0 then [] else Sent(states, steps, n - 1) + SentIn(states[n - 1], steps[n - 1])
  }

  function SentIn(s: State, step: Step): seq<WatchOp> {
    if step.Submit? && step.request < |s.prepared| then [Start(s.prepared[step.request])]
    else if step.SendRelease? then [Release(step.key)] else []
  }

  /** What the worker has taken up in the first `n` steps, in order. */
  ghost function Taken(states: seq<State>, steps: seq<Step>, n: nat): seq<WatchOp>
    requires n <= |steps| < |states|
  {
    if n == 0 then []
    else Taken(states, steps, n - 1)
         + if steps[n - 1].Take? && states[n - 1].queue != [] then [states[n - 1].queue[0]] else []
  }

  /** The worker takes up what it is sent in the order in which it was sent, all of it. */
  lemma {:induction false} ServedInOrder(states: seq<State>, steps: seq<Step>, n: nat)
    requires IsRun(states, steps) && n <= |steps|
    ensures Sent(states, steps, n) == Taken(states, steps, n) + states[n].queue
  {
    if n > 0 {
      ServedInOrder(states, steps, n - 1);
      QueueStep(states[n - 1], steps[n - 1]);
      var (taken, queue) := (Taken(states, steps, n - 1), states[n - 1].queue);
      if steps[n - 1].Take? {
        assert queue == [queue[0]] + states[n].queue;
        assert taken + ([queue[0]] + states[n].queue) == (taken + [queue[0]]) + states[n].queue;
      } else {
        assert taken + [] == taken;
        assert (taken + queue) + SentIn(states[n - 1], steps[n - 1]) == taken + (queue + SentIn(states[n - 1], steps[n - 1]));
      }
    }
  }

  lemma QueueStep(s: State, step: Step)
    requires Enabled(s, step)
    ensures Next(s, step).queue == (if step.Take? then s.queue[1..] else s.queue) + SentIn(s, step)
  {
  }

  /** A release that was sent is in the queue or has been handled; handled are only those that were sent. */
  lemma {:induction false} ReleasesAreHandled(states: seq<State>, steps: seq<Step>, n: nat, key: Key)
    requires IsRun(states, steps) && n <= |steps|
    ensures key in states[n].released <==> key in states[n].handled || Release(key) in states[n].queue
  {
    if n > 0 {
      ReleasesAreHandled(states, steps, n - 1, key);
      ReleaseStep(states[n - 1], steps[n - 1], key);
    }
  }

  lemma ReleaseStep(s: State, step: Step, key: Key)
    requires Enabled(s, step) && (key in s.released <==> key in s.handled || Release(key) in s.queue)
    ensures var s' := Next(s, step);
      key in s'.released <==> key in s'.handled || Release(key) in s'.queue
  {
    var s' := Next(s, step);
    if step.Take? {
      assert s.queue == [s.queue[0]] + s.queue[1..];
    }
  }

  /** The range events that came, in the first `n` steps, while their watch was not flagged. */
  ghost function Unflagged(states: seq<State>, steps: seq<Step>, n: nat): seq<Entry>
    requires n <= |steps| < |states|
  {
    if n == 0 then []
    else Unflagged(states, steps, n - 1)
         + if steps[n - 1].Event? && steps[n - 1].key !in states[n - 1].dropped
           then [Entry(steps[n - 1].id, steps[n - 1].key)] else []
  }

  /** The listeners are passed on exactly these, in order. */
  lemma {:induction false} EventsPassExactly(states: seq<State>, steps: seq<Step>, n: nat)
    requires IsRun(states, steps) && n <= |steps|
    ensures states[n].forwarded == Unflagged(states, steps, n)
  {
    if n > 0 {
      EventsPassExactly(states, steps, n - 1);
    }
  }
}
