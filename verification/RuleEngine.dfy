/** The Thinkerbell interpreter: one thread that serves its own message queue, fires the statements of a
    rule on rising edges, and delays conditions by cancellable timers (components/thinkerbell/src/run.rs). */
module RuleEngine {
  import opened Common
  import opened Services
  import opened Compiler
  import opened Watching

  // ---------------------------------------------------------------- data

  datatype Op =
    | Update(event: WatchEvent, r: nat, c: nat)
    | UpdateCondition(id: Id, isMet: bool, r: nat, c: nat)
    | Stop

  datatype ExecutionEvent =
    | ChannelError(id: Id)
    | TimerStart(r: nat, c: nat)
    | TimerCancel(r: nat, c: nat)
    | Sent(r: nat, statement: nat)

  datatype ConditionState = ConditionState(matchIsMet: bool, perGetter: set<Id>, duration: Option<int>)

  datatype RuleState = RuleState(ruleIsMet: bool, perCondition: seq<ConditionState>, ongoingTimer: Option<nat>)

  /** The state of a running script. `timers` are the live timers with the message each will send;
      dropping a timer's guard takes it out. */
  datatype Task = Task(
    perRule: seq<RuleState>,
    queue: seq<Op>,
    events: seq<ExecutionEvent>,
    timers: map<nat, Op>,
    nextTimer: nat,
    running: bool)

  /** How the matches of a rule are put together. */
  type Aggregate = seq<bool> -> bool

  /** The aggregate as the interpreter codes it: some match is met. */
  predicate SomeMet(matches: seq<bool>) {
    exists i :: 0 <= i < |matches| && matches[i]
  }

  /** The aggregate as the language documents it: every match is met. */
  predicate AllMet(matches: seq<bool>) {
    forall i :: 0 <= i < |matches| ==> matches[i]
  }

  function Matches(rule: RuleState): (m: seq<bool>)
    ensures |m| == |rule.perCondition|
    ensures forall c :: 0 <= c < |m| ==> m[c] == rule.perCondition[c].matchIsMet
  {
    seq(|rule.perCondition|, c requires 0 <= c < |rule.perCondition| => rule.perCondition[c].matchIsMet)
  }

  // ---------------------------------------------------------------- one message

  predicate InRange(perRule: seq<RuleState>, r: nat, c: nat) {
    r < |perRule| && c < |perRule[r].perCondition|
  }

  /** One getter of one condition changes; nothing happens if it already was in that state. */
  function UpdateRule(rule: RuleState, id: Id, isMet: bool, c: nat, agg: Aggregate): RuleState
    requires c < |rule.perCondition|
  {
    var cond := rule.perCondition[c];
    if (id in cond.perGetter) == isMet then rule
    else
      var perGetter := if isMet then cond.perGetter + {id} else cond.perGetter - {id};
      var cond' := cond.(perGetter := perGetter, matchIsMet := isMet || |perGetter| > 0);
      var rule' := rule.(perCondition := rule.perCondition[c := cond']);
      rule'.(ruleIsMet := agg(Matches(rule')))
  }

  /** The statements of rule `r`, run one after the other. */
  function SentAll(r: nat, n: nat): (s: seq<ExecutionEvent>)
    ensures |s| == n && forall i :: 0 <= i < n ==> s[i] == Sent(r, i)
  {
    seq(n, i requires 0 <= i < n => Sent(r, i))
  }

  function ApplyCondition(script: Script, t: Task, id: Id, isMet: bool, r: nat, c: nat, agg: Aggregate): Task
    requires InRange(t.perRule, r, c) && |script.rules| == |t.perRule|
  {
    var rule := t.perRule[r];
    var rule' := UpdateRule(rule, id, isMet, c, agg);
    t.(perRule := t.perRule[r := rule'],
       events := t.events + if !rule.ruleIsMet && rule'.ruleIsMet then SentAll(r, |script.rules[r].execute|) else [])
  }

  /** Dropping the guard of a rule's timer, if there is one. */
  function Cancelled(t: Task, r: nat): map<nat, Op>
    requires r < |t.perRule|
  {
    if t.perRule[r].ongoingTimer.Some? then t.timers - {t.perRule[r].ongoingTimer.value} else t.timers
  }

  function ApplyUpdate(t: Task, event: WatchEvent, r: nat, c: nat): Task
    requires InRange(t.perRule, r, c)
  {
    match event
    case InitializationError(id) => t.(events := t.events + [ChannelError(id)])
    case GetterRemoved(id) => t.(queue := t.queue + [UpdateCondition(id, false, r, c)])
    case GetterAdded(_) => t
    case EnterRange(id) =>
      if t.perRule[r].perCondition[c].duration.None? then t.(queue := t.queue + [UpdateCondition(id, true, r, c)])
      else t.(timers := Cancelled(t, r)[t.nextTimer := UpdateCondition(id, true, r, c)],
              perRule := t.perRule[r := t.perRule[r].(ongoingTimer := Some(t.nextTimer))],
              nextTimer := t.nextTimer + 1,
              events := t.events + [TimerStart(r, c)])
    case ExitRange(id) =>
      t.(timers := Cancelled(t, r),
         perRule := t.perRule[r := t.perRule[r].(ongoingTimer := None)],
         events := t.events + if t.perRule[r].ongoingTimer.Some? then [TimerCancel(r, c)] else [],
         queue := t.queue + [UpdateCondition(id, false, r, c)])
  }

  predicate WellFormed(script: Script, t: Task) {
    && |t.perRule| == |script.rules|
    && (forall r :: 0 <= r < |t.perRule| ==> |t.perRule[r].perCondition| == |script.rules[r].conditions|)
    && (forall op :: op in t.queue && !op.Stop? ==> InRange(t.perRule, op.r, op.c))
    && (forall k :: k in t.timers ==> t.timers[k].UpdateCondition? && InRange(t.perRule, t.timers[k].r, t.timers[k].c))
  }

  /** The body of the message loop, for the message at the head of the queue. Leaving the loop drops the
      guards of all timers. */
  function Served(script: Script, t: Task, agg: Aggregate): Task
    requires WellFormed(script, t) && t.queue != []
  {
    var op := t.queue[0];
    assert op in t.queue;
    var t' := t.(queue := t.queue[1..]);
    match op
    case Stop => t'.(running := false, timers := map[])
    case UpdateCondition(id, isMet, r, c) => ApplyCondition(script, t', id, isMet, r, c, agg)
    case Update(event, r, c) => ApplyUpdate(t', event, r, c)
  }

  // ---------------------------------------------------------------- the interpreter thread

  class ExecutionTask {
    const script: Script
    var perRule: seq<RuleState>
    var queue: seq<Op>
    var events: seq<ExecutionEvent>
    var timers: map<nat, Op>
    var nextTimer: nat
    var running: bool

    ghost function View(): Task
      reads this
    {
      Task(perRule, queue, events, timers, nextTimer, running)
    }

    ghost predicate Valid()
      reads this
    {
      WellFormed(script, View())
    }

    constructor (script: Script)
      ensures this.script == script && Valid() && View() == Initial(script)
    {
      this.script := script;
      perRule := InitialRules(script);
      queue, events, timers, nextTimer, running := [], [], map[], 0, true;
    }

    /** One turn of the message loop. */
    method Serve()
      requires Valid() && queue != []
      modifies this
      ensures Valid() && View() == Served(script, old(View()), SomeMet)
    {
      ServedIsWellFormed(script, View(), SomeMet);
      var msg := queue[0];
      assert msg in queue;
      queue := queue[1..];
      match msg {
        case Stop =>
          running, timers := false, map[];
        case UpdateCondition(id, isMet, r, c) =>
          UpdateConditions(id, isMet, r, c);
        case Update(event, r, c) =>
          match event {
            case InitializationError(channel) =>
              events := events + [ChannelError(channel)];
            case GetterRemoved(id) =>
              queue := queue + [UpdateCondition(id, false, r, c)];
            case GetterAdded(_) =>
            case EnterRange(id) =>
              if perRule[r].perCondition[c].duration.None? {
                queue := queue + [UpdateCondition(id, true, r, c)];
              } else {
                StartTimer(id, r, c);
              }
            case ExitRange(id) =>
              if perRule[r].ongoingTimer.Some? {
                timers := timers - {perRule[r].ongoingTimer.value};
                perRule := perRule[r := perRule[r].(ongoingTimer := None)];
                events := events + [TimerCancel(r, c)];
              }
              assert perRule == old(perRule)[r := old(perRule)[r].(ongoingTimer := None)];
              queue := queue + [UpdateCondition(id, false, r, c)];
          }
      }
    }

    /** Start the timer of a rule; storing its guard drops the guard of the timer before it. */
    method StartTimer(id: Id, r: nat, c: nat)
      requires InRange(perRule, r, c)
      modifies this`timers, this`perRule, this`nextTimer, this`events
      ensures timers == Cancelled(old(View()), r)[old(nextTimer) := UpdateCondition(id, true, r, c)]
      ensures perRule == old(perRule)[r := old(perRule)[r].(ongoingTimer := Some(old(nextTimer)))]
      ensures nextTimer == old(nextTimer) + 1 && events == old(events) + [TimerStart(r, c)]
    {
      var guard := nextTimer;
      nextTimer := nextTimer + 1;
      var previous := perRule[r].ongoingTimer;
      perRule := perRule[r := perRule[r].(ongoingTimer := Some(guard))];
      if previous.Some? {
        timers := timers - {previous.value};
      }
      timers := timers[guard := UpdateCondition(id, true, r, c)];
      events := events + [TimerStart(r, c)];
    }

    /** A getter has just entered or left the range of a condition. */
    method UpdateConditions(id: Id, getterIsMet: bool, r: nat, c: nat)
      requires InRange(perRule, r, c) && |perRule| == |script.rules|
      modifies this`perRule, this`events
      ensures View() == ApplyCondition(script, old(View()), id, getterIsMet, r, c, SomeMet)
    {
      ghost var rule := perRule[r];
      var cond := perRule[r].perCondition[c];
      var wasMet := id in cond.perGetter;
      var perGetter := if getterIsMet then cond.perGetter + {id} else cond.perGetter - {id};
      if wasMet == getterIsMet {
        assert events + [] == events;
        return;
      }
      cond := cond.(perGetter := perGetter);
      var someGetterIsMet := getterIsMet || |cond.perGetter| > 0;
      cond := cond.(matchIsMet := someGetterIsMet);
      perRule := perRule[r := perRule[r].(perCondition := perRule[r].perCondition[c := cond])];
      ghost var updated := perRule[r];

      var conditionIsMet := FindMet(perRule[r]);
      var conditionWasMet := perRule[r].ruleIsMet;
      perRule := perRule[r := perRule[r].(ruleIsMet := conditionIsMet)];
      assert UpdateRule(rule, id, getterIsMet, c, SomeMet) == updated.(ruleIsMet := conditionIsMet);
      assert perRule == old(perRule)[r := updated.(ruleIsMet := conditionIsMet)];

      if !conditionWasMet && conditionIsMet {
        Fire(r);
      } else {
        assert events + [] == events;
      }
    }

    /** Run the statements of a rule. */
    method Fire(r: nat)
      requires r < |script.rules|
      modifies this`events
      ensures events == old(events) + SentAll(r, |script.rules[r].execute|)
    {
      assert events + SentAll(r, 0) == events;
      for statement := 0 to |script.rules[r].execute|
        invariant events == old(events) + SentAll(r, statement)
      {
        events := events + [Sent(r, statement)];
        assert SentAll(r, statement + 1) == SentAll(r, statement) + [Sent(r, statement)];
      }
    }

    /** Whether the search for a met condition finds one. */
    method FindMet(rule: RuleState) returns (found: bool)
      ensures found == SomeMet(Matches(rule))
    {
      for c := 0 to |rule.perCondition|
        invariant forall k :: 0 <= k < c ==> !rule.perCondition[k].matchIsMet
      {
        if rule.perCondition[c].matchIsMet {
          assert Matches(rule)[c];
          return true;
        }
      }
      return false;
    }
  }

  // ---------------------------------------------------------------- runs

  function InitialRule(rule: Rule): RuleState {
    RuleState(false,
              seq(|rule.conditions|, c requires 0 <= c < |rule.conditions| =>
                ConditionState(false, {}, rule.conditions[c].duration)),
              None)
  }

  function InitialRules(script: Script): seq<RuleState> {
    seq(|script.rules|, r requires 0 <= r < |script.rules| => InitialRule(script.rules[r]))
  }

  function Initial(script: Script): Task {
    Task(InitialRules(script), [], [], map[], 0, true)
  }

  /** What can happen next: the adapter manager reports an event of a condition's watch, a live timer
      expires, the owner asks to stop, or the thread serves a message. */
  datatype Step = Deliver(event: WatchEvent, r: nat, c: nat) | Expire(timer: nat) | RequestStop | Serve

  predicate Enabled(t: Task, step: Step) {
    match step
    case Deliver(_, r, c) => InRange(t.perRule, r, c)
    case Expire(timer) => timer in t.timers
    case RequestStop => true
    case Serve => t.running && t.queue != []
  }

  function Next(script: Script, t: Task, step: Step, agg: Aggregate): Task
    requires WellFormed(script, t) && Enabled(t, step)
  {
    match step
    case Deliver(event, r, c) => t.(queue := t.queue + [Update(event, r, c)])
    case Expire(timer) => t.(queue := t.queue + [t.timers[timer]], timers := t.timers - {timer})
    case RequestStop => t.(queue := t.queue + [Stop])
    case Serve => Served(script, t, agg)
  }

  lemma ServedIsWellFormed(script: Script, t: Task, agg: Aggregate)
    requires WellFormed(script, t) && t.queue != []
    ensures WellFormed(script, Served(script, t, agg))
  {
    var op := t.queue[0];
    assert op in t.queue;
    var t' := t.(queue := t.queue[1..]);
    assert forall q :: q in t'.queue ==> q in t.queue;
    assert WellFormed(script, t');
    if op.Update? {
      UpdateIsWellFormed(script, t', op.event, op.r, op.c);
    }
  }

  lemma UpdateIsWellFormed(script: Script, t: Task, event: WatchEvent, r: nat, c: nat)
    requires WellFormed(script, t) && InRange(t.perRule, r, c)
    ensures WellFormed(script, ApplyUpdate(t, event, r, c))
  {
  }

  lemma NextIsWellFormed(script: Script, t: Task, step: Step, agg: Aggregate)
    requires WellFormed(script, t) && Enabled(t, step)
    ensures WellFormed(script, Next(script, t, step, agg))
  {
    if step.Serve? {
      ServedIsWellFormed(script, t, agg);
    }
  }

  /** `states` is the run of the script under `steps`. */
  ghost predicate IsRun(script: Script, states: seq<Task>, steps: seq<Step>, agg: Aggregate) {
    && |states| == |steps| + 1
    && states[0] == Initial(script)
    && (forall i :: 0 <= i < |steps| ==> WellFormed(script, states[i]) && Enabled(states[i], steps[i])
                                         && states[i + 1] == Next(script, states[i], steps[i], agg))
  }

  // ---------------------------------------------------------------- rising edges, for any aggregate

  predicate RuleConsistent(rule: RuleState, agg: Aggregate) {
    && (forall c :: 0 <= c < |rule.perCondition| ==>
          (rule.perCondition[c].matchIsMet <==> rule.perCondition[c].perGetter != {}))
    && rule.ruleIsMet == agg(Matches(rule))
  }

  predicate Consistent(t: Task, agg: Aggregate) {
    forall r :: 0 <= r < |t.perRule| ==> RuleConsistent(t.perRule[r], agg)
  }

  /** No rule starts out met. */
  predicate Grounded(script: Script, agg: Aggregate) {
    forall r :: 0 <= r < |script.rules| ==> !agg(Matches(InitialRule(script.rules[r])))
  }

  lemma SomeMetIsGrounded(script: Script)
    ensures Grounded(script, SomeMet)
  {
  }

  lemma UpdateRuleConsistent(rule: RuleState, id: Id, isMet: bool, c: nat, agg: Aggregate)
    requires c < |rule.perCondition| && RuleConsistent(rule, agg)
    ensures RuleConsistent(UpdateRule(rule, id, isMet, c, agg), agg)
  {
  }

  lemma TimerKeepsRuleConsistent(rule: RuleState, timer: Option<nat>, agg: Aggregate)
    requires RuleConsistent(rule, agg)
    ensures RuleConsistent(rule.(ongoingTimer := timer), agg)
    ensures Matches(rule.(ongoingTimer := timer)) == Matches(rule)
  {
  }

  lemma NextConsistent(script: Script, t: Task, step: Step, agg: Aggregate)
    requires WellFormed(script, t) && Enabled(t, step) && Consistent(t, agg)
    ensures Consistent(Next(script, t, step, agg), agg)
  {
    if step.Serve? {
      var op := t.queue[0];
      assert op in t.queue;
      if op.UpdateCondition? {
        UpdateRuleConsistent(t.perRule[op.r], op.id, op.isMet, op.c, agg);
      } else if op.Update? {
        TimerKeepsRuleConsistent(t.perRule[op.r], Some(t.nextTimer), agg);
        TimerKeepsRuleConsistent(t.perRule[op.r], None, agg);
      }
    }
  }

  /** In every state of every run a match is met exactly if some getter is in its set, and a rule exactly
      if the aggregate of its matches holds. */
  lemma {:induction false} RunsAreConsistent(script: Script, states: seq<Task>, steps: seq<Step>, agg: Aggregate, n: nat)
    requires IsRun(script, states, steps, agg) && Grounded(script, agg) && n <= |steps|
    ensures WellFormed(script, states[n]) && Consistent(states[n], agg)
  {
    if n > 0 {
      RunsAreConsistent(script, states, steps, agg, n - 1);
      NextIsWellFormed(script, states[n - 1], steps[n - 1], agg);
      NextConsistent(script, states[n - 1], steps[n - 1], agg);
    }
  }

  /** The statements of rule `r` that have been run, in order. */
  function SentOf(events: seq<ExecutionEvent>, r: nat): seq<ExecutionEvent> {
    if events == [] then []
    else
      var last := events[|events| - 1];
      SentOf(events[..|events| - 1], r) + if last.Sent? && last.r == r then [last] else []
  }

  lemma {:induction false} SentOfAppend(a: seq<ExecutionEvent>, b: seq<ExecutionEvent>, r: nat)
    ensures SentOf(a + b, r) == SentOf(a, r) + SentOf(b, r)
  {
    if b == [] {
      assert a + b == a;
    } else {
      var n := |b| - 1;
      SentOfAppend(a, b[..n], r);
      assert (a + b)[..|a + b| - 1] == a + b[..n];
    }
  }

  lemma SentOfOne(r: nat, i: nat, r': nat)
    ensures SentOf([Sent(r, i)], r') == if r == r' then [Sent(r, i)] else []
  {
    assert [Sent(r, i)][..0] == [];
  }

  lemma {:induction false} SentOfSentAll(r: nat, n: nat, r': nat)
    ensures SentOf(SentAll(r, n), r') == if r == r' then SentAll(r, n) else []
  {
    if n > 0 {
      SentOfSentAll(r, n - 1, r');
      assert SentAll(r, n) == SentAll(r, n - 1) + [Sent(r, n - 1)];
      SentOfAppend(SentAll(r, n - 1), [Sent(r, n - 1)], r');
      SentOfOne(r, n - 1, r');
    }
  }

  predicate Holds(t: Task, r: nat, agg: Aggregate) {
    r < |t.perRule| && agg(Matches(t.perRule[r]))
  }

  predicate Rises(t: Task, t': Task, r: nat, agg: Aggregate) {
    !Holds(t, r, agg) && Holds(t', r, agg)
  }

  /** A step that does not change the matches of any rule runs no statement. */
  lemma QuietStep(script: Script, t: Task, step: Step, r: nat, agg: Aggregate)
    requires WellFormed(script, t) && Enabled(t, step) && r < |t.perRule|
    requires step.Serve? ==> !t.queue[0].UpdateCondition?
    ensures var t' := Next(script, t, step, agg);
      Matches(t'.perRule[r]) == Matches(t.perRule[r]) && SentOf(t'.events, r) == SentOf(t.events, r)
  {
    var t' := Next(script, t, step, agg);
    if step.Serve? && t.queue[0].Update? {
      assert t.queue[0] in t.queue;
      var added := t'.events[|t.events|..];
      assert t'.events == t.events + added;
      SentOfAppend(t.events, added, r);
      if added != [] {
        assert added[..|added| - 1] == [];
      }
    }
  }

  /** A step runs the statements of a rule, all of them and once, exactly if it is a rising edge of the
      rule's aggregate. */
  lemma StepFiresOnRise(script: Script, t: Task, step: Step, r: nat, agg: Aggregate)
    requires WellFormed(script, t) && Enabled(t, step) && Consistent(t, agg) && r < |t.perRule|
    ensures var t' := Next(script, t, step, agg);
      SentOf(t'.events, r)
      == SentOf(t.events, r) + if Rises(t, t', r, agg) then SentAll(r, |script.rules[r].execute|) else []
  {
    var t' := Next(script, t, step, agg);
    if step.Serve? && t.queue[0].UpdateCondition? {
      var op := t.queue[0];
      assert op in t.queue;
      var n := |script.rules[op.r].execute|;
      UpdateRuleConsistent(t.perRule[op.r], op.id, op.isMet, op.c, agg);
      SentOfAppend(t.events, SentAll(op.r, n), r);
      SentOfSentAll(op.r, n, r);
      assert t.events + [] == t.events;
    } else {
      QuietStep(script, t, step, r, agg);
      assert SentOf(t.events, r) + [] == SentOf(t.events, r);
    }
  }

  function Repeat(block: seq<ExecutionEvent>, times: nat): seq<ExecutionEvent> {
    if times == 0 then [] else Repeat(block, times - 1) + block
  }

  /** How often the aggregate of rule `r` has risen in the first `n` steps. */
  ghost function RisingEdges(states: seq<Task>, r: nat, n: nat, agg: Aggregate): nat
    requires n < |states|
  {
    if n == 0 then 0
    else RisingEdges(states, r, n - 1, agg) + if Rises(states[n - 1], states[n], r, agg) then 1 else 0
  }

  /** Over any run, under any aggregate, the statements of a rule have been run exactly once, all and in
      order, for each rising edge of the rule's aggregate: it must have been false in between. */
  lemma {:induction false} FiresOncePerRisingEdge(script: Script, states: seq<Task>, steps: seq<Step>, agg: Aggregate, r: nat, n: nat)
    requires IsRun(script, states, steps, agg) && Grounded(script, agg) && r < |script.rules| && n <= |steps|
    ensures SentOf(states[n].events, r)
         == Repeat(SentAll(r, |script.rules[r].execute|), RisingEdges(states, r, n, agg))
  {
    if n > 0 {
      FiresOncePerRisingEdge(script, states, steps, agg, r, n - 1);
      RunsAreConsistent(script, states, steps, agg, n - 1);
      StepFiresOnRise(script, states[n - 1], steps[n - 1], r, agg);
    }
  }

  // ---------------------------------------------------------------- stopping

  predicate ServesStop(t: Task, step: Step) {
    step.Serve? && t.queue != [] && t.queue[0] == Stop
  }

  /** Serving a stop is final: nothing is served after it, no rule changes, no statement is run and nothing is
      reported, and no timer is live. */
  lemma {:induction false} StopIsFinal(script: Script, states: seq<Task>, steps: seq<Step>, agg: Aggregate, i: nat, n: nat)
    requires IsRun(script, states, steps, agg) && i < n <= |steps| && ServesStop(states[i], steps[i])
    ensures !states[n].running && states[n].timers == map[]
    ensures states[n].perRule == states[i].perRule && states[n].events == states[i].events
    ensures forall m :: i < m < n ==> !steps[m].Serve?
  {
    if n > i + 1 {
      StopIsFinal(script, states, steps, agg, i, n - 1);
    }
  }

  /** A script is running as long as no stop was served, whether one waits in the queue or not. */
  lemma {:induction false} RunsUntilStopped(script: Script, states: seq<Task>, steps: seq<Step>, agg: Aggregate, n: nat)
    requires IsRun(script, states, steps, agg) && n <= |steps|
    ensures states[n].running <==> forall i :: 0 <= i < n ==> !ServesStop(states[i], steps[i])
  {
    if n > 0 {
      RunsUntilStopped(script, states, steps, agg, n - 1);
      RunningStep(script, states[n - 1], steps[n - 1], agg);
    }
  }

  /** A script that is asked to stop can do so. */
  lemma StopsOnRequest(script: Script, agg: Aggregate) returns (states: seq<Task>)
    ensures IsRun(script, states, [RequestStop, Serve], agg) && states[1].running && !states[2].running
  {
    var s0 := Initial(script);
    assert WellFormed(script, s0) && Enabled(s0, RequestStop);
    var s1 := Next(script, s0, RequestStop, agg);
    assert s1 == s0.(queue := [Stop]);
    assert WellFormed(script, s1) && Enabled(s1, Serve);
    states := [s0, s1, Next(script, s1, Serve, agg)];
    assert ServesStop(s1, Serve);
  }

  lemma RunningStep(script: Script, t: Task, step: Step, agg: Aggregate)
    requires WellFormed(script, t) && Enabled(t, step)
    ensures Next(script, t, step, agg).running <==> t.running && !ServesStop(t, step)
  {
  }

  /** The coded aggregate is the documented one exactly for rules with a single condition. */
  lemma CodedAggregateIsDocumentedExactly(n: nat)
    ensures (forall m: seq<bool> :: |m| == n ==> SomeMet(m) == AllMet(m)) <==> n == 1
  {
    if n == 0 {
      assert AllMet([]) && !SomeMet([]);
    } else if n == 1 {
      forall m: seq<bool> | |m| == n
        ensures SomeMet(m) == AllMet(m)
      {
        assert SomeMet(m) <==> m[0];
      }
    } else {
      var m := seq(n, i => i == 0);
      assert m[0] && !m[1];
    }
  }

  // ---------------------------------------------------------------- two hops through the queue keep the order

  /** One change of the met set of a condition. */
  datatype Change = Change(id: Id, isMet: bool, r: nat, c: nat)

  function ChangeOf(event: WatchEvent, r: nat, c: nat): seq<Change> {
    match event
    case EnterRange(id) => [Change(id, true, r, c)]
    case ExitRange(id) => [Change(id, false, r, c)]
    case GetterRemoved(id) => [Change(id, false, r, c)]
    case _ => []
  }

  /** The range events delivered so far. */
  function Delivered(steps: seq<Step>): seq<Change> {
    if steps == [] then []
    else
      var last := steps[|steps| - 1];
      Delivered(steps[..|steps| - 1]) + if last.Deliver? then ChangeOf(last.event, last.r, last.c) else []
  }

  /** The changes that wait in the queue as events (first hop) or as condition updates (second hop). */
  function Waiting(queue: seq<Op>, secondHop: bool): seq<Change> {
    if queue == [] then [] else OpChange(queue[0], secondHop) + Waiting(queue[1..], secondHop)
  }

  function OpChange(op: Op, secondHop: bool): seq<Change> {
    match op
    case Update(event, r, c) => if secondHop then [] else ChangeOf(event, r, c)
    case UpdateCondition(id, isMet, r, c) => if secondHop then [Change(id, isMet, r, c)] else []
    case Stop => []
  }

  lemma {:induction false} WaitingAppend(queue: seq<Op>, op: Op, secondHop: bool)
    ensures Waiting(queue + [op], secondHop) == Waiting(queue, secondHop) + OpChange(op, secondHop)
  {
    var longer := queue + [op];
    if queue == [] {
      assert longer[0] == op && longer[1..] == [];
      assert OpChange(op, secondHop) + [] == [] + OpChange(op, secondHop);
    } else {
      WaitingAppend(queue[1..], op, secondHop);
      assert longer[0] == queue[0] && longer[1..] == queue[1..] + [op];
      Concat3(OpChange(queue[0], secondHop), Waiting(queue[1..], secondHop), OpChange(op, secondHop));
    }
  }

  lemma Concat3<T>(x: seq<T>, y: seq<T>, z: seq<T>)
    ensures x + (y + z) == (x + y) + z
  {
  }

  /** The condition updates served in the first `n` steps. */
  ghost function Applied(states: seq<Task>, steps: seq<Step>, n: nat): seq<Change>
    requires n <= |steps| < |states|
  {
    if n == 0 then []
    else Applied(states, steps, n - 1)
         + if steps[n - 1].Serve? && states[n - 1].queue != [] then OpChange(states[n - 1].queue[0], true) else []
  }

  /** No condition of the script has a duration. */
  ghost predicate UntimedScript(script: Script) {
    forall r, c :: 0 <= r < |script.rules| && 0 <= c < |script.rules[r].conditions| ==>
                     script.rules[r].conditions[c].duration.None?
  }

  /** No condition has a duration, and no timer is live. */
  ghost predicate Untimed(t: Task) {
    && t.timers == map[]
    && (forall r: nat, c: nat :: InRange(t.perRule, r, c) ==> t.perRule[r].perCondition[c].duration.None?)
  }

  lemma NextUntimed(script: Script, t: Task, step: Step, agg: Aggregate)
    requires WellFormed(script, t) && Enabled(t, step) && Untimed(t)
    ensures Untimed(Next(script, t, step, agg))
  {
  }

  /** The changes in the queue, oldest first: the condition updates, then the events. */
  function InFlight(queue: seq<Op>): seq<Change> {
    Waiting(queue, true) + Waiting(queue, false)
  }

  /** An event or a stop request at the end of the queue is the youngest change in flight. */
  lemma EventQueuesLast(queue: seq<Op>, op: Op)
    requires !op.UpdateCondition?
    ensures InFlight(queue + [op]) == InFlight(queue) + OpChange(op, false)
  {
    WaitingAppend(queue, op, true);
    WaitingAppend(queue, op, false);
    assert Waiting(queue, true) + [] == Waiting(queue, true);
    assert (Waiting(queue, true) + Waiting(queue, false)) + OpChange(op, false)
        == Waiting(queue, true) + (Waiting(queue, false) + OpChange(op, false));
  }

  /** An event leaves the head of the queue for its end, as a condition update. */
  lemma SecondHopKeepsOrder(rest: seq<Op>, event: WatchEvent, r: nat, c: nat, moved: Op)
    requires moved.UpdateCondition? && ChangeOf(event, r, c) == OpChange(moved, true)
    ensures InFlight([Update(event, r, c)] + rest) == InFlight(rest + [moved])
  {
    var op := Update(event, r, c);
    assert ([op] + rest)[1..] == rest;
    WaitingAppend(rest, moved, true);
    WaitingAppend(rest, moved, false);
    var (w, v, m) := (Waiting(rest, true), Waiting(rest, false), OpChange(moved, true));
    assert Waiting([op] + rest, true) == [] + w == w;
    assert v + [] == v;
    assert w + (m + v) == (w + m) + v;
  }

  /** Serving the head of the queue takes out the change it applies, the oldest one, and nothing else. */
  lemma ServeKeepsOrder(script: Script, t: Task, agg: Aggregate)
    requires WellFormed(script, t) && Untimed(t) && t.queue != []
    ensures InFlight(t.queue) == OpChange(t.queue[0], true) + InFlight(Served(script, t, agg).queue)
  {
    var op, rest := t.queue[0], t.queue[1..];
    assert op in t.queue && t.queue == [op] + rest;
    if op.Update? && ChangeOf(op.event, op.r, op.c) != [] {
      var moved := UpdateCondition(op.event.id, op.event.EnterRange?, op.r, op.c);
      assert Served(script, t, agg).queue == rest + [moved];
      SecondHopKeepsOrder(rest, op.event, op.r, op.c, moved);
    } else {
      assert Served(script, t, agg).queue == rest;
      HeadIsOldest(t.queue);
    }
  }

  lemma HeadIsOldest(queue: seq<Op>)
    requires queue != [] && OpChange(queue[0], false) == []
    ensures InFlight(queue) == OpChange(queue[0], true) + InFlight(queue[1..])
  {
  }

  /** One step moves changes forward without overtaking: what a step delivers goes to the end of what is
      in flight, what it applies comes from the front. */
  lemma NextKeepsOrder(script: Script, t: Task, step: Step, agg: Aggregate)
    requires WellFormed(script, t) && Enabled(t, step) && Untimed(t)
    ensures InFlight(t.queue) + (if step.Deliver? then ChangeOf(step.event, step.r, step.c) else [])
         == (if step.Serve? then OpChange(t.queue[0], true) else []) + InFlight(Next(script, t, step, agg).queue)
  {
    if step.Deliver? {
      EventQueuesLast(t.queue, Update(step.event, step.r, step.c));
    } else if step.RequestStop? {
      EventQueuesLast(t.queue, Stop);
    } else if step.Serve? {
      ServeKeepsOrder(script, t, agg);
    }
  }

  /** At any moment the events delivered are: the condition updates applied, then those in the queue, then
      the events in the queue. The detour of every event through the queue never reorders them. */
  lemma {:induction false} QueueKeepsOrder(script: Script, states: seq<Task>, steps: seq<Step>, agg: Aggregate, n: nat)
    requires IsRun(script, states, steps, agg) && n <= |steps|
    requires UntimedScript(script)
    ensures WellFormed(script, states[n]) && Untimed(states[n])
    ensures Delivered(steps[..n]) == Applied(states, steps, n) + InFlight(states[n].queue)
  {
    if n == 0 {
      assert steps[..0] == [];
    } else {
      QueueKeepsOrder(script, states, steps, agg, n - 1);
      var t, step := states[n - 1], steps[n - 1];
      NextIsWellFormed(script, t, step, agg);
      NextUntimed(script, t, step, agg);
      NextKeepsOrder(script, t, step, agg);
      assert steps[..n][..n - 1] == steps[..n - 1];
      var added := if step.Deliver? then ChangeOf(step.event, step.r, step.c) else [];
      var served := if step.Serve? then OpChange(t.queue[0], true) else [];
      Regroup(Applied(states, steps, n - 1), InFlight(t.queue), added, served, InFlight(states[n].queue));
    }
  }

  lemma Regroup<T>(applied: seq<T>, before: seq<T>, added: seq<T>, served: seq<T>, after: seq<T>)
    requires before + added == served + after
    ensures (applied + before) + added == (applied + served) + after
  {
    assert (applied + before) + added == applied + (before + added);
    assert (applied + served) + after == applied + (served + after);
  }

  /** The getters whose last change for condition (r, c) made it met. */
  function MetSet(changes: seq<Change>, r: nat, c: nat): set<Id> {
    if changes == [] then {}
    else
      Changed(MetSet(changes[..|changes| - 1], r, c), changes[|changes| - 1], r, c)
  }

  /** Change `i` puts the getter into the met set of (r, c) and no later change takes it out. */
  predicate LastEntry(changes: seq<Change>, i: nat, id: Id, r: nat, c: nat) {
    && i < |changes| && changes[i] == Change(id, true, r, c)
    && Change(id, false, r, c) !in changes[i..]
  }

  /** Membership in the met set is decided by the last change of that getter. */
  lemma {:induction false} MetSetIsLastChange(changes: seq<Change>, id: Id, r: nat, c: nat)
    ensures id in MetSet(changes, r, c) <==> exists i :: LastEntry(changes, i, id, r, c)
  {
    if changes != [] {
      var n := |changes| - 1;
      MetSetIsLastChange(changes[..n], id, r, c);
      if i :| LastEntry(changes, i, id, r, c) {
        LastEntryShorter(changes, i, id, r, c);
      }
      if changes[n] == Change(id, true, r, c) {
        assert LastEntry(changes, n, id, r, c);
      }
      if changes[n] != Change(id, false, r, c) {
        if i :| LastEntry(changes[..n], i, id, r, c) {
          LastEntryLonger(changes, i, id, r, c);
        }
      }
    }
  }

  lemma LastEntryShorter(changes: seq<Change>, i: nat, id: Id, r: nat, c: nat)
    requires changes != [] && LastEntry(changes, i, id, r, c)
    ensures changes[|changes| - 1] != Change(id, false, r, c)
    ensures i == |changes| - 1 || LastEntry(changes[..|changes| - 1], i, id, r, c)
  {
  }

  lemma LastEntryLonger(changes: seq<Change>, i: nat, id: Id, r: nat, c: nat)
    requires changes != [] && LastEntry(changes[..|changes| - 1], i, id, r, c)
    requires changes[|changes| - 1] != Change(id, false, r, c)
    ensures LastEntry(changes, i, id, r, c)
  {
  }

  /** What one change does to the met set of condition (r, c). */
  function Changed(met: set<Id>, change: Change, r: nat, c: nat): set<Id> {
    if change.r != r || change.c != c then met
    else if change.isMet then met + {change.id} else met - {change.id}
  }

  lemma MetSetAppend(changes: seq<Change>, last: Change, r: nat, c: nat)
    ensures MetSet(changes + [last], r, c) == Changed(MetSet(changes, r, c), last, r, c)
  {
  }

  /** A step changes a met set only by serving a condition update. */
  lemma NextChanges(script: Script, t: Task, step: Step, agg: Aggregate, r: nat, c: nat)
    requires WellFormed(script, t) && Enabled(t, step) && InRange(t.perRule, r, c)
    ensures var t' := Next(script, t, step, agg);
      && InRange(t'.perRule, r, c)
      && var met, met' := t.perRule[r].perCondition[c].perGetter, t'.perRule[r].perCondition[c].perGetter;
         if step.Serve? && t.queue[0].UpdateCondition?
         then met' == Changed(met, OpChange(t.queue[0], true)[0], r, c)
         else met' == met
  {
    hide ApplyUpdate;
    if step.Serve? {
      var op := t.queue[0];
      assert op in t.queue;
      if op.Update? {
        UpdateKeepsConditions(t.(queue := t.queue[1..]), op.event, op.r, op.c);
      }
    }
  }

  lemma UpdateKeepsConditions(t: Task, event: WatchEvent, r: nat, c: nat)
    requires InRange(t.perRule, r, c)
    ensures var t' := ApplyUpdate(t, event, r, c);
      && |t'.perRule| == |t.perRule|
      && forall r' :: 0 <= r' < |t.perRule| ==> t'.perRule[r'].perCondition == t.perRule[r'].perCondition
  {
  }

  /** The met sets are those of the condition updates applied so far. */
  lemma {:induction false} AppliedDecides(script: Script, states: seq<Task>, steps: seq<Step>, agg: Aggregate, n: nat, r: nat, c: nat)
    requires IsRun(script, states, steps, agg) && n <= |steps|
    requires r < |script.rules| && c < |script.rules[r].conditions|
    ensures InRange(states[n].perRule, r, c)
    ensures states[n].perRule[r].perCondition[c].perGetter == MetSet(Applied(states, steps, n), r, c)
  {
    if n > 0 {
      AppliedDecides(script, states, steps, agg, n - 1, r, c);
      var t, step := states[n - 1], steps[n - 1];
      NextChanges(script, t, step, agg, r, c);
      var before := Applied(states, steps, n - 1);
      if step.Serve? && t.queue[0].UpdateCondition? {
        MetSetAppend(before, OpChange(t.queue[0], true)[0], r, c);
      } else {
        assert before + [] == before;
      }
    }
  }

  /** In any run of a script without durations, once the queue is drained the met set of each condition is
      exactly the set of getters whose last range event was an entry. */
  lemma DrainedQueueIsUpToDate(script: Script, states: seq<Task>, steps: seq<Step>, agg: Aggregate, r: nat, c: nat)
    requires IsRun(script, states, steps, agg)
    requires UntimedScript(script)
    requires r < |script.rules| && c < |script.rules[r].conditions|
    requires states[|steps|].queue == []
    ensures InRange(states[|steps|].perRule, r, c)
    ensures states[|steps|].perRule[r].perCondition[c].perGetter == MetSet(Delivered(steps), r, c)
  {
    var n := |steps|;
    QueueKeepsOrder(script, states, steps, agg, n);
    AppliedDecides(script, states, steps, agg, n, r, c);
    assert steps[..n] == steps;
    assert Applied(states, steps, n) + InFlight(states[n].queue) == Applied(states, steps, n);
  }

  // ---------------------------------------------------------------- timers

  /** Live timers are the ones whose guard their rule still holds. */
  predicate TimersGuarded(t: Task) {
    && (forall k :: k in t.timers ==>
          && k < t.nextTimer
          && t.timers[k].UpdateCondition? && t.timers[k].isMet
          && InRange(t.perRule, t.timers[k].r, t.timers[k].c)
          && t.perRule[t.timers[k].r].ongoingTimer == Some(k))
    && (forall r :: 0 <= r < |t.perRule| && t.perRule[r].ongoingTimer.Some? ==> t.perRule[r].ongoingTimer.value < t.nextTimer)
  }

  lemma NextTimersGuarded(script: Script, t: Task, step: Step, agg: Aggregate)
    requires WellFormed(script, t) && Enabled(t, step) && TimersGuarded(t)
    ensures TimersGuarded(Next(script, t, step, agg))
  {
    if step.Serve? {
      assert t.queue[0] in t.queue;
      if t.queue[0].Update? {
        UpdateTimersGuarded(t.(queue := t.queue[1..]), t.queue[0].event, t.queue[0].r, t.queue[0].c);
      }
    }
  }

  lemma UpdateTimersGuarded(t: Task, event: WatchEvent, r: nat, c: nat)
    requires TimersGuarded(t) && InRange(t.perRule, r, c)
    ensures TimersGuarded(ApplyUpdate(t, event, r, c))
  {
    hide Cancelled;
    CancelledIsOthers(t, r);
  }

  /** Dropping a rule's guard leaves the timers of the other rules. */
  lemma CancelledIsOthers(t: Task, r: nat)
    requires TimersGuarded(t) && r < |t.perRule|
    ensures forall k :: k in Cancelled(t, r) ==> k in t.timers && t.timers[k].r != r
    ensures forall k :: k in Cancelled(t, r) ==> Cancelled(t, r)[k] == t.timers[k]
  {
  }

  lemma {:induction false} RunsGuardTimers(script: Script, states: seq<Task>, steps: seq<Step>, agg: Aggregate, n: nat)
    requires IsRun(script, states, steps, agg) && n <= |steps|
    ensures WellFormed(script, states[n]) && TimersGuarded(states[n])
  {
    if n > 0 {
      RunsGuardTimers(script, states, steps, agg, n - 1);
      NextIsWellFormed(script, states[n - 1], steps[n - 1], agg);
      NextTimersGuarded(script, states[n - 1], steps[n - 1], agg);
    }
  }

  /** In every state of every run each rule has at most one live timer, the one whose guard it holds. */
  lemma OneTimerPerRule(script: Script, states: seq<Task>, steps: seq<Step>, agg: Aggregate, n: nat, k: nat, k': nat)
    requires IsRun(script, states, steps, agg) && n <= |steps| && k in states[n].timers && k' in states[n].timers
    ensures states[n].timers[k].UpdateCondition? && states[n].timers[k'].UpdateCondition?
    ensures states[n].timers[k].r == states[n].timers[k'].r ==> k == k'
  {
    RunsGuardTimers(script, states, steps, agg, n);
  }

  predicate Timed(t: Task, r: nat, c: nat) {
    InRange(t.perRule, r, c) && t.perRule[r].perCondition[c].duration.Some?
  }

  /** The step serves an entry into a timed range: it starts timer `t.nextTimer` for that getter. */
  predicate StartsTimer(t: Task, step: Step, id: Id, r: nat, c: nat) {
    step.Serve? && t.queue != [] && t.queue[0] == Update(EnterRange(id), r, c) && Timed(t, r, c)
  }

  /** The step serves an exit, or an entry into a timed range, of rule `r`. */
  predicate TouchesTimer(t: Task, step: Step, r: nat) {
    && step.Serve? && t.queue != [] && t.queue[0].Update? && t.queue[0].r == r
    && (t.queue[0].event.ExitRange? || (t.queue[0].event.EnterRange? && Timed(t, r, t.queue[0].c)))
  }

  /** Timer `k` was started at step `i` for the message it now holds, and nothing touched its rule since. */
  ghost predicate Origin(states: seq<Task>, steps: seq<Step>, i: nat, n: nat, k: nat, id: Id, r: nat, c: nat)
    requires n <= |steps| < |states|
  {
    && i < n
    && StartsTimer(states[i], steps[i], id, r, c) && states[i].nextTimer == k
    && forall j :: i < j < n ==> !TouchesTimer(states[j], steps[j], r)
  }

  /** A timer that is live after a step was live before it with an untouched rule, or was just started. */
  lemma TimerPersists(script: Script, t: Task, step: Step, agg: Aggregate, k: nat)
    requires WellFormed(script, t) && Enabled(t, step) && TimersGuarded(t)
    requires k in Next(script, t, step, agg).timers
    ensures var m := Next(script, t, step, agg).timers[k];
      && m.UpdateCondition?
      && ((k in t.timers && t.timers[k] == m && !TouchesTimer(t, step, m.r))
          || (StartsTimer(t, step, m.id, m.r, m.c) && t.nextTimer == k))
  {
    hide Cancelled;
    if step.Serve? {
      assert t.queue[0] in t.queue;
      if t.queue[0].Update? {
        var t1 := t.(queue := t.queue[1..]);
        CancelledIsOthers(t1, t.queue[0].r);
      }
    }
  }

  lemma {:induction false} TimerOrigin(script: Script, states: seq<Task>, steps: seq<Step>, agg: Aggregate, n: nat, k: nat)
    returns (i: nat)
    requires IsRun(script, states, steps, agg) && n <= |steps| && k in states[n].timers
    ensures var m := states[n].timers[k];
      m.UpdateCondition? && m.isMet && Origin(states, steps, i, n, k, m.id, m.r, m.c)
  {
    hide IsRun, StartsTimer, TouchesTimer;
    TimerIsMet(script, states, steps, agg, n, k);
    TimerBefore(script, states, steps, agg, n, k);
    var m := states[n].timers[k];
    if StartsTimer(states[n - 1], steps[n - 1], m.id, m.r, m.c) && states[n - 1].nextTimer == k {
      i := n - 1;
    } else {
      i := TimerOrigin(script, states, steps, agg, n - 1, k);
    }
  }

  lemma TimerIsMet(script: Script, states: seq<Task>, steps: seq<Step>, agg: Aggregate, n: nat, k: nat)
    requires IsRun(script, states, steps, agg) && n <= |steps| && k in states[n].timers
    ensures states[n].timers[k].UpdateCondition? && states[n].timers[k].isMet && k < states[n].nextTimer
  {
    RunsGuardTimers(script, states, steps, agg, n);
  }

  /** A live timer was live with the same message one step before, or has just been started. */
  lemma TimerBefore(script: Script, states: seq<Task>, steps: seq<Step>, agg: Aggregate, n: nat, k: nat)
    requires IsRun(script, states, steps, agg) && n <= |steps| && k in states[n].timers
    ensures n > 0 && |states| == |steps| + 1
    ensures var m := states[n].timers[k];
      && m.UpdateCondition?
      && ((k in states[n - 1].timers && states[n - 1].timers[k] == m && !TouchesTimer(states[n - 1], steps[n - 1], m.r))
          || (StartsTimer(states[n - 1], steps[n - 1], m.id, m.r, m.c) && states[n - 1].nextTimer == k))
  {
    hide Next, TimersGuarded, StartsTimer, TouchesTimer;
    RunsGuardTimers(script, states, steps, agg, n - 1);
    TimerPersists(script, states[n - 1], steps[n - 1], agg, k);
  }

  // ---------------------------------------------------------------- what is reported

  /** The channel errors among the events, in order. */
  function ErrorsOf(events: seq<ExecutionEvent>): seq<Id> {
    if events == [] then []
    else
      var last := events[|events| - 1];
      ErrorsOf(events[..|events| - 1]) + if last.ChannelError? then [last.id] else []
  }

  /** The last word about the timer of rule `r`. */
  function LastTimer(events: seq<ExecutionEvent>, r: nat): Option<ExecutionEvent> {
    if events == [] then None
    else
      var last := events[|events| - 1];
      if (last.TimerStart? || last.TimerCancel?) && last.r == r then Some(last) else LastTimer(events[..|events| - 1], r)
  }

  function TimersStarted(events: seq<ExecutionEvent>): nat {
    if events == [] then 0
    else TimersStarted(events[..|events| - 1]) + if events[|events| - 1].TimerStart? then 1 else 0
  }

  /** A timer is said to be cancelled only when it was said to be started, and not yet to be cancelled. */
  predicate CancelsFollowStarts(events: seq<ExecutionEvent>) {
    forall i :: 0 <= i < |events| && events[i].TimerCancel? ==>
                  var before := LastTimer(events[..i], events[i].r); before.Some? && before.value.TimerStart?
  }

  /** Statements say nothing about channels and timers. */
  lemma {:induction false} SentSaysNothing(events: seq<ExecutionEvent>, r: nat, n: nat, r': nat)
    ensures ErrorsOf(events + SentAll(r, n)) == ErrorsOf(events)
    ensures LastTimer(events + SentAll(r, n), r') == LastTimer(events, r')
    ensures TimersStarted(events + SentAll(r, n)) == TimersStarted(events)
    ensures CancelsFollowStarts(events) ==> CancelsFollowStarts(events + SentAll(r, n))
  {
    var longer := events + SentAll(r, n);
    if n == 0 {
      assert longer == events;
    } else {
      SentSaysNothing(events, r, n - 1, r');
      assert longer[..|longer| - 1] == events + SentAll(r, n - 1);
      CancelsStep(events + SentAll(r, n - 1), Sent(r, n - 1));
      assert longer == (events + SentAll(r, n - 1)) + [Sent(r, n - 1)];
    }
  }

  lemma CancelsStep(events: seq<ExecutionEvent>, e: ExecutionEvent)
    ensures CancelsFollowStarts(events + [e]) <==>
            && CancelsFollowStarts(events)
            && (e.TimerCancel? ==> LastTimer(events, e.r).Some? && LastTimer(events, e.r).value.TimerStart?)
  {
    assert (events + [e])[..|events|] == events;
    forall i | 0 <= i < |events|
      ensures (events + [e])[..i] == events[..i] && (events + [e])[i] == events[i]
    {
    }
  }

  lemma OneMoreEvent(events: seq<ExecutionEvent>, e: ExecutionEvent, r: nat)
    ensures ErrorsOf(events + [e]) == ErrorsOf(events) + if e.ChannelError? then [e.id] else []
    ensures LastTimer(events + [e], r) == if (e.TimerStart? || e.TimerCancel?) && e.r == r then Some(e) else LastTimer(events, r)
    ensures TimersStarted(events + [e]) == TimersStarted(events) + if e.TimerStart? then 1 else 0
  {
    assert (events + [e])[..|events|] == events;
  }

  /** The client has been told the truth about the timers: as many were started as it was told, the last word
      about a rule's timer is a start exactly if the rule holds a guard, and it names the condition of the
      rule's live timer. */
  predicate TimersTold(t: Task) {
    && TimersStarted(t.events) == t.nextTimer && CancelsFollowStarts(t.events)
    && forall r :: 0 <= r < |t.perRule| ==>
         && var last := LastTimer(t.events, r);
            && (t.perRule[r].ongoingTimer.Some? <==> last.Some? && last.value.TimerStart?)
            && forall k :: k in t.timers && t.timers[k].UpdateCondition? && t.timers[k].r == r ==>
                             last == Some(TimerStart(r, t.timers[k].c))
  }

  lemma EventTold(t: Task, t': Task, e: ExecutionEvent)
    requires t'.events == t.events + [e]
    ensures CancelsFollowStarts(t'.events) <==>
            && CancelsFollowStarts(t.events)
            && (e.TimerCancel? ==> LastTimer(t.events, e.r).Some? && LastTimer(t.events, e.r).value.TimerStart?)
    ensures TimersStarted(t'.events) == TimersStarted(t.events) + if e.TimerStart? then 1 else 0
    ensures forall r :: LastTimer(t'.events, r)
                     == if (e.TimerStart? || e.TimerCancel?) && e.r == r then Some(e) else LastTimer(t.events, r)
  {
    CancelsStep(t.events, e);
    OneMoreEvent(t.events, e, 0);
    forall r
      ensures LastTimer(t'.events, r)
           == if (e.TimerStart? || e.TimerCancel?) && e.r == r then Some(e) else LastTimer(t.events, r)
    {
      OneMoreEvent(t.events, e, r);
    }
  }

  lemma UpdateTold(t: Task, event: WatchEvent, r: nat, c: nat)
    requires TimersGuarded(t) && TimersTold(t) && InRange(t.perRule, r, c)
    ensures TimersTold(ApplyUpdate(t, event, r, c))
  {
    hide Cancelled, LastTimer, TimersStarted, CancelsFollowStarts;
    var t' := ApplyUpdate(t, event, r, c);
    CancelledIsOthers(t, r);
    if event.InitializationError? {
      EventTold(t, t', ChannelError(event.id));
    } else if event.EnterRange? && t.perRule[r].perCondition[c].duration.Some? {
      EventTold(t, t', TimerStart(r, c));
    } else if event.ExitRange? && t.perRule[r].ongoingTimer.Some? {
      EventTold(t, t', TimerCancel(r, c));
    } else if event.ExitRange? {
      assert t'.events == t.events;
    }
  }

  lemma NextTold(script: Script, t: Task, step: Step, agg: Aggregate)
    requires WellFormed(script, t) && Enabled(t, step) && TimersGuarded(t) && TimersTold(t)
    ensures TimersTold(Next(script, t, step, agg))
  {
    hide LastTimer, TimersStarted, CancelsFollowStarts;
    if step.Serve? {
      var op := t.queue[0];
      assert op in t.queue;
      if op.Update? {
        UpdateTold(t.(queue := t.queue[1..]), op.event, op.r, op.c);
      } else if op.UpdateCondition? {
        var n := |script.rules[op.r].execute|;
        forall r
          ensures LastTimer(t.events + SentAll(op.r, n), r) == LastTimer(t.events, r)
        {
          SentSaysNothing(t.events, op.r, n, r);
        }
        SentSaysNothing(t.events, op.r, n, 0);
        assert t.events + [] == t.events;
      }
    }
  }

  /** In every state of every run the client has been told the truth about the timers. */
  lemma {:induction false} TimersAreReported(script: Script, states: seq<Task>, steps: seq<Step>, agg: Aggregate, n: nat)
    requires IsRun(script, states, steps, agg) && n <= |steps|
    ensures TimersTold(states[n])
  {
    if n > 0 {
      TimersAreReported(script, states, steps, agg, n - 1);
      RunsGuardTimers(script, states, steps, agg, n - 1);
      NextTold(script, states[n - 1], steps[n - 1], agg);
    }
  }

  lemma TimerNumbers(script: Script, t: Task, step: Step, agg: Aggregate, k: nat)
    requires WellFormed(script, t) && Enabled(t, step) && TimersGuarded(t) && k < t.nextTimer
    ensures var t' := Next(script, t, step, agg);
      && k < t'.nextTimer && (k in t'.timers ==> k in t.timers) && (step == Expire(k) ==> k !in t'.timers)
  {
  }

  /** A timer expires once: it is not live ever after. */
  lemma {:induction false} TimerExpiresOnce(script: Script, states: seq<Task>, steps: seq<Step>, agg: Aggregate,
                                            i: nat, n: nat, k: nat)
    requires IsRun(script, states, steps, agg) && i < n <= |steps| && steps[i] == Expire(k)
    ensures k !in states[n].timers && k < states[n].nextTimer
  {
    hide Next, TimersGuarded, WellFormed;
    RunsGuardTimers(script, states, steps, agg, n - 1);
    if n > i + 1 {
      TimerExpiresOnce(script, states, steps, agg, i, n - 1, k);
    } else {
      TimerIsMet(script, states, steps, agg, i, k);
    }
    TimerNumbers(script, states[n - 1], steps[n - 1], agg, k);
  }

  /** A step reports the start of a timer for a condition exactly if it serves an entry that starts one, and
      its end exactly if it serves an exit from that condition while the rule holds a guard. */
  lemma TimerReportsExactly(script: Script, t: Task, step: Step, agg: Aggregate, r: nat, c: nat)
    requires WellFormed(script, t) && Enabled(t, step)
    ensures var t' := Next(script, t, step, agg);
      && t.events <= t'.events
      && var added := t'.events[|t.events|..];
         && (TimerStart(r, c) in added <==> exists id :: StartsTimer(t, step, id, r, c))
         && (TimerCancel(r, c) in added <==>
             exists id :: step.Serve? && t.queue[0] == Update(ExitRange(id), r, c) && t.perRule[r].ongoingTimer.Some?)
  {
    var t' := Next(script, t, step, agg);
    if step.Serve? {
      var op := t.queue[0];
      assert op in t.queue;
      if op.Update? && op.event.EnterRange? && op.r == r && op.c == c {
        assert Timed(t, r, c) ==> StartsTimer(t, step, op.event.id, r, c);
      }
      if op.Update? && op.event.ExitRange? && op.r == r && op.c == c {
        assert op == Update(ExitRange(op.event.id), r, c);
      }
    }
  }

  /** The initialization errors served in the first `n` steps. */
  ghost function ErrorsServed(states: seq<Task>, steps: seq<Step>, n: nat): seq<Id>
    requires n <= |steps| < |states|
  {
    if n == 0 then []
    else ErrorsServed(states, steps, n - 1) + ErrorServed(states[n - 1], steps[n - 1])
  }

  function ErrorServed(t: Task, step: Step): seq<Id> {
    if step.Serve? && t.queue != [] && t.queue[0].Update? && t.queue[0].event.InitializationError?
    then [t.queue[0].event.id] else []
  }

  /** The client is told of exactly the initialization errors served, in order. */
  lemma {:induction false} ErrorsAreReported(script: Script, states: seq<Task>, steps: seq<Step>, agg: Aggregate, n: nat)
    requires IsRun(script, states, steps, agg) && n <= |steps|
    ensures ErrorsOf(states[n].events) == ErrorsServed(states, steps, n)
  {
    if n > 0 {
      ErrorsAreReported(script, states, steps, agg, n - 1);
      ErrorStep(script, states[n - 1], steps[n - 1], agg);
    }
  }

  lemma ErrorStep(script: Script, t: Task, step: Step, agg: Aggregate)
    requires WellFormed(script, t) && Enabled(t, step)
    ensures ErrorsOf(Next(script, t, step, agg).events) == ErrorsOf(t.events) + ErrorServed(t, step)
  {
    hide ErrorsOf;
    assert ErrorsOf(t.events) + [] == ErrorsOf(t.events);
    if step.Serve? {
      var op := t.queue[0];
      assert op in t.queue && t.events + [] == t.events;
      if op.Update? {
        var event := op.event;
        OneMoreEvent(t.events, if event.InitializationError? then ChannelError(event.id)
                               else if event.ExitRange? then TimerCancel(op.r, op.c) else TimerStart(op.r, op.c), 0);
      } else if op.UpdateCondition? {
        SentSaysNothing(t.events, op.r, |script.rules[op.r].execute|, 0);
      }
    }
  }

  /** The messages a step appends to the queue. */
  function Enqueued(t: Task, step: Step): seq<Op> {
    match step
    case Deliver(event, r, c) => [Update(event, r, c)]
    case Expire(k) => if k in t.timers then [t.timers[k]] else []
    case RequestStop => [Stop]
    case Serve =>
      if t.queue == [] || !t.queue[0].Update? then []
      else
        var (event, r, c) := (t.queue[0].event, t.queue[0].r, t.queue[0].c);
        match event
        case GetterRemoved(id) => [UpdateCondition(id, false, r, c)]
        case ExitRange(id) => [UpdateCondition(id, false, r, c)]
        case EnterRange(id) => if Timed(t, r, c) then [] else [UpdateCondition(id, true, r, c)]
        case _ => []
  }

  lemma EnqueuedIsAppended(script: Script, t: Task, step: Step, agg: Aggregate)
    requires WellFormed(script, t) && Enabled(t, step)
    ensures Next(script, t, step, agg).queue
         == (if step.Serve? then t.queue[1..] else t.queue) + Enqueued(t, step)
  {
  }

  /** With a duration set, a "met" update enters the queue only when a timer expires that an entry of the
      same getter into the range of the same condition started; between start and expiry no exit and no
      other timed entry of that rule was served. */
  lemma MetUpdatesComeFromTimers(script: Script, states: seq<Task>, steps: seq<Step>, agg: Aggregate,
                                 j: nat, id: Id, r: nat, c: nat)
    returns (i: nat)
    requires IsRun(script, states, steps, agg) && j < |steps|
    requires Timed(states[j], r, c) && UpdateCondition(id, true, r, c) in Enqueued(states[j], steps[j])
    ensures steps[j].Expire? && Origin(states, steps, i, j, steps[j].timer, id, r, c)
  {
    assert steps[j].Expire?;
    i := TimerOrigin(script, states, steps, agg, j, steps[j].timer);
  }

  // ---------------------------------------------------------------- a removed getter

  /** What the condition updates in the queue make of getter `id` in the met set of (r, c), if anything. */
  function LastUpdate(queue: seq<Op>, id: Id, r: nat, c: nat): Option<bool> {
    if queue == [] then None
    else
      var (front, op) := (queue[..|queue| - 1], queue[|queue| - 1]);
      if IsFor(op, id, r, c) then Some(op.isMet) else LastUpdate(front, id, r, c)
  }

  predicate IsFor(op: Op, id: Id, r: nat, c: nat) {
    op.UpdateCondition? && op.id == id && op.r == r && op.c == c
  }

  lemma LastUpdateAppend(queue: seq<Op>, op: Op, id: Id, r: nat, c: nat)
    ensures LastUpdate(queue + [op], id, r, c) == if IsFor(op, id, r, c) then Some(op.isMet) else LastUpdate(queue, id, r, c)
  {
    assert (queue + [op])[..|queue|] == queue;
  }

  lemma {:induction false} LastUpdateTail(queue: seq<Op>, id: Id, r: nat, c: nat)
    requires queue != []
    ensures LastUpdate(queue, id, r, c)
         == if LastUpdate(queue[1..], id, r, c).Some? then LastUpdate(queue[1..], id, r, c)
            else if IsFor(queue[0], id, r, c) then Some(queue[0].isMet) else None
  {
    var n := |queue| - 1;
    if n > 0 {
      LastUpdateTail(queue[..n], id, r, c);
      assert queue[..n][1..] == queue[1..][..n - 1];
      assert queue[1..][n - 1] == queue[n];
    }
  }

  predicate IsMember(t: Task, id: Id, r: nat, c: nat)
    requires InRange(t.perRule, r, c)
  {
    id in t.perRule[r].perCondition[c].perGetter
  }

  /** Whether the getter will be in the met set once the condition updates in the queue are applied. */
  predicate Fate(t: Task, id: Id, r: nat, c: nat)
    requires InRange(t.perRule, r, c)
  {
    var last := LastUpdate(t.queue, id, r, c);
    if last.Some? then last.value else IsMember(t, id, r, c)
  }

  /** A step changes the fate of a getter only by the message it appends. */
  lemma FateStep(script: Script, t: Task, step: Step, agg: Aggregate, id: Id, r: nat, c: nat)
    requires WellFormed(script, t) && Enabled(t, step) && InRange(t.perRule, r, c)
    ensures var t' := Next(script, t, step, agg);
      && InRange(t'.perRule, r, c)
      && var added := Enqueued(t, step);
         Fate(t', id, r, c) == if added != [] && IsFor(added[0], id, r, c) then added[0].isMet else Fate(t, id, r, c)
  {
    NextChanges(script, t, step, agg, r, c);
    EnqueuedIsAppended(script, t, step, agg);
    hide Next, WellFormed;
    var (added, rest) := (Enqueued(t, step), if step.Serve? then t.queue[1..] else t.queue);
    if added == [] {
      assert rest + added == rest;
    } else {
      assert added == [added[0]];
      LastUpdateAppend(rest, added[0], id, r, c);
    }
    if step.Serve? {
      LastUpdateTail(t.queue, id, r, c);
    }
  }

  /** The step serves an event by which getter `id` enters, leaves or loses condition (r, c). */
  predicate ServesEventOf(t: Task, step: Step, id: Id, r: nat, c: nat) {
    && step.Serve? && t.queue != [] && t.queue[0].Update? && t.queue[0].r == r && t.queue[0].c == c
    && t.queue[0].event in {EnterRange(id), ExitRange(id), GetterRemoved(id)}
  }

  ghost predicate Undisturbed(states: seq<Task>, steps: seq<Step>, i: nat, n: nat, id: Id, r: nat, c: nat)
    requires i <= n <= |steps| < |states|
  {
    forall m :: i <= m < n ==> !ServesEventOf(states[m], steps[m], id, r, c)
  }

  predicate IsTimerOf(t: Task, k: nat, id: Id, r: nat, c: nat) {
    k in t.timers && t.timers[k] == UpdateCondition(id, true, r, c)
  }

  /** A timer that is live for the triple at moment `i` expires before moment `n`. */
  ghost predicate ExpiresIn(states: seq<Task>, steps: seq<Step>, i: nat, n: nat, id: Id, r: nat, c: nat)
    requires i <= n <= |steps| < |states|
  {
    exists m :: i <= m < n && steps[m].Expire? && IsTimerOf(states[i], steps[m].timer, id, r, c)
  }

  lemma TimersOnlyGrow(script: Script, t: Task, step: Step, agg: Aggregate)
    requires WellFormed(script, t) && Enabled(t, step)
    ensures t.nextTimer <= Next(script, t, step, agg).nextTimer
  {
  }

  lemma {:induction false} NextTimerGrows(script: Script, states: seq<Task>, steps: seq<Step>, agg: Aggregate, i: nat, n: nat)
    requires IsRun(script, states, steps, agg) && i <= n <= |steps|
    ensures states[i].nextTimer <= states[n].nextTimer
  {
    hide Next, WellFormed, Enabled;
    if i < n {
      TimersOnlyGrow(script, states[n - 1], steps[n - 1], agg);
      NextTimerGrows(script, states, steps, agg, i, n - 1);
    }
  }

  /** A timer that is live at both moments stands for the same message at both. */
  lemma {:induction false} TimerKeepsMessage(script: Script, states: seq<Task>, steps: seq<Step>, agg: Aggregate,
                                             i: nat, n: nat, k: nat)
    requires IsRun(script, states, steps, agg) && i <= n <= |steps| && k in states[i].timers && k in states[n].timers
    ensures states[n].timers[k] == states[i].timers[k]
  {
    hide *;
    if i < n {
      TimerIsMet(script, states, steps, agg, i, k);
      TimerBefore(script, states, steps, agg, n, k);
      NextTimerGrows(script, states, steps, agg, i, n - 1);
      TimerKeepsMessage(script, states, steps, agg, i, n - 1, k);
    }
  }

  /** While no entry of the getter is served, no timer is started for it. */
  lemma {:induction false} TimerWasLive(script: Script, states: seq<Task>, steps: seq<Step>, agg: Aggregate,
                                        i: nat, n: nat, k: nat, id: Id, r: nat, c: nat)
    requires IsRun(script, states, steps, agg) && i <= n <= |steps| && Undisturbed(states, steps, i, n, id, r, c)
    requires IsTimerOf(states[n], k, id, r, c)
    ensures IsTimerOf(states[i], k, id, r, c)
  {
    hide IsRun, TouchesTimer, Timed;
    if i < n {
      TimerBefore(script, states, steps, agg, n, k);
      assert !ServesEventOf(states[n - 1], steps[n - 1], id, r, c);
      TimerWasLive(script, states, steps, agg, i, n - 1, k, id, r, c);
    }
  }

  /** The only message about the getter that a step appends while no event of it is served comes from a
      timer, and makes it met. */
  lemma EnqueuedFromTimer(t: Task, step: Step, id: Id, r: nat, c: nat)
    requires Enabled(t, step) && TimersGuarded(t) && !ServesEventOf(t, step, id, r, c)
    ensures var added := Enqueued(t, step);
      && (added != [] && IsFor(added[0], id, r, c) ==> added[0].isMet)
      && (added != [] && IsFor(added[0], id, r, c) <==> step.Expire? && IsTimerOf(t, step.timer, id, r, c))
  {
  }

  /** While no event of a getter is served its fate is what it was, or it is met by the expiry of a timer
      that was live before. */
  lemma {:induction false} FateSince(script: Script, states: seq<Task>, steps: seq<Step>, agg: Aggregate,
                                     i: nat, n: nat, id: Id, r: nat, c: nat)
    requires IsRun(script, states, steps, agg) && i <= n <= |steps| && Undisturbed(states, steps, i, n, id, r, c)
    requires InRange(states[i].perRule, r, c)
    ensures InRange(states[n].perRule, r, c)
    ensures Fate(states[n], id, r, c) <==> Fate(states[i], id, r, c) || ExpiresIn(states, steps, i, n, id, r, c)
  {
    hide Fate, IsMember, ServesEventOf, ExpiresIn, IsTimerOf, Enqueued, IsFor, Next, TimersGuarded, WellFormed, InRange;
    if i < n {
      var (t, step) := (states[n - 1], steps[n - 1]);
      FateSince(script, states, steps, agg, i, n - 1, id, r, c);
      RunsGuardTimers(script, states, steps, agg, n - 1);
      FateStep(script, t, step, agg, id, r, c);
      EnqueuedFromTimer(t, step, id, r, c);
      ExpiresStep(script, states, steps, agg, i, n, id, r, c);
    } else {
      NothingExpires(states, steps, i, id, r, c);
    }
  }

  lemma NothingExpires(states: seq<Task>, steps: seq<Step>, i: nat, id: Id, r: nat, c: nat)
    requires i <= |steps| < |states|
    ensures !ExpiresIn(states, steps, i, i, id, r, c)
  {
  }

  lemma ExpiresStep(script: Script, states: seq<Task>, steps: seq<Step>, agg: Aggregate,
                    i: nat, n: nat, id: Id, r: nat, c: nat)
    requires IsRun(script, states, steps, agg) && i < n <= |steps| && Undisturbed(states, steps, i, n - 1, id, r, c)
    ensures ExpiresIn(states, steps, i, n, id, r, c) <==>
            ExpiresIn(states, steps, i, n - 1, id, r, c)
            || (steps[n - 1].Expire? && IsTimerOf(states[n - 1], steps[n - 1].timer, id, r, c))
  {
    hide Next, WellFormed, ServesEventOf;
    var step := steps[n - 1];
    if step.Expire? {
      assert Enabled(states[n - 1], step);
      hide IsRun;
      if IsTimerOf(states[n - 1], step.timer, id, r, c) {
        TimerWasLive(script, states, steps, agg, i, n - 1, step.timer, id, r, c);
      }
      if IsTimerOf(states[i], step.timer, id, r, c) {
        TimerKeepsMessage(script, states, steps, agg, i, n - 1, step.timer);
      }
    }
  }

  /** Exactly when a removed getter still makes a condition met. After its removal is served and no further
      event of it, once the queue is drained the getter is in the met set iff a timer that was live for it
      at the removal has expired since. */
  lemma MetAfterRemovalExactly(script: Script, states: seq<Task>, steps: seq<Step>, agg: Aggregate,
                               i: nat, n: nat, id: Id, r: nat, c: nat)
    requires IsRun(script, states, steps, agg) && i < n <= |steps|
    requires steps[i].Serve? && states[i].queue[0] == Update(GetterRemoved(id), r, c)
    requires Undisturbed(states, steps, i + 1, n, id, r, c) && states[n].queue == []
    ensures InRange(states[n].perRule, r, c)
    ensures IsMember(states[n], id, r, c) <==> ExpiresIn(states, steps, i, n, id, r, c)
  {
    var t := states[i];
    assert t.queue[0] in t.queue;
    FateStep(script, t, Serve, agg, id, r, c);
    FateSince(script, states, steps, agg, i + 1, n, id, r, c);
    assert states[i + 1].timers == t.timers;
    if ExpiresIn(states, steps, i, n, id, r, c) {
      var m :| i <= m < n && steps[m].Expire? && IsTimerOf(t, steps[m].timer, id, r, c);
      assert IsTimerOf(states[i + 1], steps[m].timer, id, r, c);
    }
    if ExpiresIn(states, steps, i + 1, n, id, r, c) {
      var m :| i + 1 <= m < n && steps[m].Expire? && IsTimerOf(states[i + 1], steps[m].timer, id, r, c);
      assert IsTimerOf(t, steps[m].timer, id, r, c);
    }
  }

  /** An exit, in contrast, is final: it stops the rule's timer. */
  lemma NotMetAfterExit(script: Script, states: seq<Task>, steps: seq<Step>, agg: Aggregate,
                        i: nat, n: nat, id: Id, r: nat, c: nat)
    requires IsRun(script, states, steps, agg) && i < n <= |steps|
    requires steps[i].Serve? && states[i].queue[0] == Update(ExitRange(id), r, c)
    requires Undisturbed(states, steps, i + 1, n, id, r, c) && states[n].queue == []
    ensures InRange(states[n].perRule, r, c) && !IsMember(states[n], id, r, c)
  {
    var t := states[i];
    assert t.queue[0] in t.queue;
    FateStep(script, t, Serve, agg, id, r, c);
    FateSince(script, states, steps, agg, i + 1, n, id, r, c);
    RunsGuardTimers(script, states, steps, agg, i + 1);
    assert states[i + 1].perRule[r].ongoingTimer == None;
  }

  /** A run in which it does: a getter has entered a timed range and is removed. */
  lemma RemovalRun(script: Script, agg: Aggregate, id: Id, r: nat, c: nat) returns (states: seq<Task>, steps: seq<Step>)
    requires r < |script.rules| && c < |script.rules[r].conditions| && script.rules[r].conditions[c].duration.Some?
    ensures IsRun(script, states, steps, agg) && |steps| == 3
    ensures states[3].running && states[3].queue == [Update(GetterRemoved(id), r, c)]
    ensures states[3].timers == map[0 := UpdateCondition(id, true, r, c)]
  {
    var s0 := Initial(script);
    var s1 := s0.(queue := [Update(EnterRange(id), r, c)]);
    assert WellFormed(script, s0) && Next(script, s0, Deliver(EnterRange(id), r, c), agg) == s1;
    var s2 := EnteredOnce(script, s1, agg, id, r, c);
    var s3 := s2.(queue := [Update(GetterRemoved(id), r, c)]);
    assert Next(script, s2, Deliver(GetterRemoved(id), r, c), agg) == s3;
    states := [s0, s1, s2, s3];
    steps := [Deliver(EnterRange(id), r, c), Serve, Deliver(GetterRemoved(id), r, c)];
  }

  lemma EnteredOnce(script: Script, t: Task, agg: Aggregate, id: Id, r: nat, c: nat) returns (t': Task)
    requires r < |script.rules| && c < |script.rules[r].conditions| && script.rules[r].conditions[c].duration.Some?
    requires t == Initial(script).(queue := [Update(EnterRange(id), r, c)])
    ensures WellFormed(script, t) && Enabled(t, Serve) && t' == Next(script, t, Serve, agg) && WellFormed(script, t')
    ensures t'.running && t'.queue == [] && t'.timers == map[0 := UpdateCondition(id, true, r, c)] && t'.nextTimer == 1
    ensures InRange(t'.perRule, r, c)
  {
    t' := Next(script, t, Serve, agg);
    NextIsWellFormed(script, t, Serve, agg);
  }

  /** From there the removal is served and the condition not met, then the timer expires and it is met. */
  lemma RemovalLeavesTimer(script: Script, t: Task, agg: Aggregate, k: nat, id: Id, r: nat, c: nat)
    requires WellFormed(script, t) && t.running && k in t.timers && t.timers[k] == UpdateCondition(id, true, r, c)
    requires t.queue == [Update(GetterRemoved(id), r, c)]
    ensures var t1 := Next(script, t, Serve, agg);
      && Enabled(t1, Serve) && WellFormed(script, t1)
      && var t2 := Next(script, t1, Serve, agg);
         && id !in t2.perRule[r].perCondition[c].perGetter
         && Enabled(t2, Expire(k)) && WellFormed(script, t2)
         && var t3 := Next(script, t2, Expire(k), agg);
            && Enabled(t3, Serve) && WellFormed(script, t3)
            && id in Next(script, t3, Serve, agg).perRule[r].perCondition[c].perGetter
  {
    assert t.queue[0] in t.queue;
    var t1 := Next(script, t, Serve, agg);
    NextIsWellFormed(script, t, Serve, agg);
    assert t1.queue == [UpdateCondition(id, false, r, c)];
    var t2 := Next(script, t1, Serve, agg);
    NextIsWellFormed(script, t1, Serve, agg);
    assert t2.queue == [] && t2.timers == t.timers;
    var t3 := Next(script, t2, Expire(k), agg);
    NextIsWellFormed(script, t2, Expire(k), agg);
    assert t3.queue == [UpdateCondition(id, true, r, c)];
  }
}
