/** A child process that a thread restarts until told to shut down (src/managed_process.rs): the delays
    between restarts, and the two threads that share the kill signal and the process id. */
module RestartDelays {
  import opened Common

  /** Times and delays are in nanoseconds. */
  const SECOND: nat := 1_000_000_000

  const RESTART_TIME_THRESHOLD: nat := 5 * SECOND

  datatype Delays = Delays(restartCount: nat, startTime: Option<nat>, backoff: nat)

  /** What one exit of the child at `endTime` makes of the delays, with `now` the clock's next reading. */
  function Exited(d: Delays, threshold: nat, endTime: nat, now: nat): Delays
  {
    Delays(d.restartCount + 1, Some(now),
           if d.startTime.None? then d.backoff
           else if endTime - d.startTime.value < threshold then d.backoff + 1 else 1)
  }

  /** The delay before the next start. */
  function Delay(d: Delays, threshold: nat, endTime: nat): nat
  {
    if d.startTime.Some? && endTime - d.startTime.value < threshold
    then (d.backoff + 1) * (d.backoff + 1) / 2 * SECOND else 0
  }

  class Backoff {
    var restartCount: nat
    const restartThreshold: nat
    var startTime: Option<nat>
    var backoff: nat

    ghost function View(): Delays
      reads this
    {
      Delays(restartCount, startTime, backoff)
    }

    constructor (restartThreshold: nat)
      ensures this.restartThreshold == restartThreshold && View() == Delays(0, None, 1)
    {
      this.restartThreshold := restartThreshold;
      restartCount, startTime, backoff := 0, None, 1;
    }

    /** The child has exited at `endTime`: how long to wait before starting it again. */
    method NextBackoff(endTime: nat, now: nat) returns (delay: nat)
      requires startTime.Some? ==> startTime.value <= endTime
      modifies this
      ensures View() == Exited(old(View()), restartThreshold, endTime, now)
      ensures delay == Delay(old(View()), restartThreshold, endTime)
    {
      if startTime.Some? {
        if endTime - startTime.value < restartThreshold {
          backoff := backoff + 1;
          delay := backoff * backoff / 2 * SECOND;
        } else {
          backoff := 1;
          delay := 0;
        }
      } else {
        delay := 0;
      }
      restartCount := restartCount + 1;
      startTime := Some(now);
    }
  }

  /** One turn of the restart loop: the child exits at `endTime`, the clock is read again at `now`. */
  datatype Exit = Exit(endTime: nat, now: nat)

  function After(exits: seq<Exit>, threshold: nat): Delays
  {
    if exits == [] then Delays(0, None, 1)
    else
      var (before, last) := (exits[..|exits| - 1], exits[|exits| - 1]);
      Exited(After(before, threshold), threshold, last.endTime, last.now)
  }

  function LastDelay(exits: seq<Exit>, threshold: nat): nat
  {
    if exits == [] then 0
    else
      var (before, last) := (exits[..|exits| - 1], exits[|exits| - 1]);
      Delay(After(before, threshold), threshold, last.endTime)
  }

  /** The clock does not run backwards, and the thread sleeps out each delay before it starts the child. */
  predicate Possible(exits: seq<Exit>, threshold: nat) {
    exits != [] ==>
      var (before, last) := (exits[..|exits| - 1], exits[|exits| - 1]);
      && Possible(before, threshold)
      && last.endTime <= last.now
      && (var start := After(before, threshold).startTime;
          start.Some? ==> start.value + LastDelay(before, threshold) <= last.endTime)
  }

  /** The delay is half the square of the number the class keeps, whenever there is one. */
  lemma {:induction false} DelayIsHalfSquare(exits: seq<Exit>, threshold: nat)
    ensures var b := After(exits, threshold).backoff;
      b >= 1 && LastDelay(exits, threshold) == if b == 1 then 0 else b * b / 2 * SECOND
    ensures var d := After(exits, threshold);
      && d.restartCount == |exits| && (d.startTime.None? <==> exits == [])
      && (exits != [] ==> d.startTime.value == exits[|exits| - 1].now)
  {
    if exits != [] {
      DelayIsHalfSquare(exits[..|exits| - 1], threshold);
    }
  }

  /** The start of a run is taken before the sleep, so a run includes the delay before it. Hence the delays
      do not grow without bound: with the threshold of five seconds they are 0, 2, 4 or 8 seconds, and a
      delay of 8 seconds is followed by none. */
  lemma {:induction false} DelaysAreBounded(exits: seq<Exit>)
    requires Possible(exits, RESTART_TIME_THRESHOLD)
    ensures 1 <= After(exits, RESTART_TIME_THRESHOLD).backoff <= 4
    ensures LastDelay(exits, RESTART_TIME_THRESHOLD) in {0, 2 * SECOND, 4 * SECOND, 8 * SECOND}
    ensures exits != [] && LastDelay(exits[..|exits| - 1], RESTART_TIME_THRESHOLD) == 8 * SECOND
            ==> LastDelay(exits, RESTART_TIME_THRESHOLD) == 0
  {
  }

  /** Each of these delays comes about: a child that exits at once, every time, is started again after none, 2,
      4 and 8 seconds. */
  lemma DelaysAreReached() returns (exits: seq<Exit>)
    ensures |exits| == 4 && Possible(exits, RESTART_TIME_THRESHOLD)
    ensures LastDelay(exits[..1], RESTART_TIME_THRESHOLD) == 0 && LastDelay(exits[..2], RESTART_TIME_THRESHOLD) == 2 * SECOND
    ensures LastDelay(exits[..3], RESTART_TIME_THRESHOLD) == 4 * SECOND
    ensures LastDelay(exits, RESTART_TIME_THRESHOLD) == 8 * SECOND
  {
    exits := [Exit(0, 0), Exit(0, 0), Exit(2 * SECOND, 2 * SECOND), Exit(6 * SECOND, 6 * SECOND)];
    var t := RESTART_TIME_THRESHOLD;
    assert exits[..1][..0] == [] && exits[..2][..1] == exits[..1] && exits[..3][..2] == exits[..2] && exits[..4] == exits;
    assert After(exits[..1], t) == Delays(1, Some(0), 1) && Possible(exits[..1], t);
    assert After(exits[..2], t) == Delays(2, Some(0), 2) && Possible(exits[..2], t);
    assert After(exits[..3], t) == Delays(3, Some(2 * SECOND), 3) && Possible(exits[..3], t);
  }
}

module ManagedProcess {
  import opened Common

  type Pid = nat

  /** Where the restart loop's thread is. */
  datatype LoopPc =
    | AtTop
    | HoldsKill
    | HoldsBoth
    | Waiting(child: Pid)
    | Sleeping
    | Ended
    | LoopPanicked

  /** Where the thread that calls `shutdown` is. */
  datatype ShutPc =
    | NotAsked
    | LockedKill
    | KillSet
    | LockedPid
    | GotPid(pid: Pid)
    | MustKill(pid: Pid)
    | Joining
    | Done
    | ShutPanicked

  datatype Owner = Nobody | Loop | Shutdown

  datatype Status = Running | Zombie

  /** `alive` are the children that no wait has collected yet; `spawned` all children ever, in order. A
      thread that panics under the locks poisons both. */
  datatype State = State(
    kill: bool,
    pid: Option<Pid>,
    killLock: Owner,
    pidLock: Owner,
    poisoned: bool,
    loop: LoopPc,
    shut: ShutPc,
    alive: map<Pid, Status>,
    spawned: seq<Pid>)

  datatype Step =
    | LoopLocksKill
    | LoopLocksPid
    | SeesKill
    | Spawns(child: Pid)
    | SpawnFails
    | Waited
    | WaitFails
    | Wakes
    | ChildExits(child: Pid)
    | ShutLocksKill
    | SetsKill
    | ShutLocksPid
    | ReadsPid
    | TriesWait
    | Kills
    | Joins
  {
    predicate OfLoop() {
      LoopLocksKill? || LoopLocksPid? || SeesKill? || Spawns? || SpawnFails? || Waited? || WaitFails? || Wakes?
    }

    predicate OfShutdown() {
      ShutLocksKill? || SetsKill? || ShutLocksPid? || ReadsPid? || TriesWait? || Kills? || Joins?
    }
  }

  function Initial(): State {
    State(false, None, Nobody, Nobody, false, AtTop, NotAsked, map[], [])
  }

  predicate Enabled(s: State, step: Step) {
    match step
    case LoopLocksKill => s.loop.AtTop? && s.killLock.Nobody?
    case LoopLocksPid => s.loop.HoldsKill? && s.pidLock.Nobody?
    case SeesKill => s.loop.HoldsBoth? && s.kill
    case Spawns(child) => s.loop.HoldsBoth? && !s.kill && child !in s.alive
    case SpawnFails => s.loop.HoldsBoth? && !s.kill
    case Waited => s.loop.Waiting? && s.loop.child in s.alive && s.alive[s.loop.child].Zombie?
    case WaitFails => s.loop.Waiting? && s.loop.child !in s.alive
    case Wakes => s.loop.Sleeping?
    case ChildExits(child) => child in s.alive
    case ShutLocksKill => s.shut.NotAsked? && s.killLock.Nobody?
    case SetsKill => s.shut.LockedKill?
    case ShutLocksPid => s.shut.KillSet? && s.pidLock.Nobody?
    case ReadsPid => s.shut.LockedPid?
    case TriesWait => s.shut.GotPid?
    case Kills => s.shut.MustKill?
    case Joins => s.shut.Joining? && (s.loop.Ended? || s.loop.LoopPanicked?)
  }

  function Next(s: State, step: Step): State
    requires Enabled(s, step)
  {
    match step
    case LoopLocksKill => if s.poisoned then s.(loop := LoopPanicked) else s.(loop := HoldsKill, killLock := Loop)
    case LoopLocksPid => s.(loop := HoldsBoth, pidLock := Loop)
    case SeesKill => s.(loop := Ended, pid := None, killLock := Nobody, pidLock := Nobody)
    case Spawns(child) =>
      s.(loop := Waiting(child), pid := Some(child), killLock := Nobody, pidLock := Nobody,
         alive := s.alive[child := Running], spawned := s.spawned + [child])
    case SpawnFails => s.(loop := LoopPanicked, killLock := Nobody, pidLock := Nobody, poisoned := true)
    case Waited => s.(loop := Sleeping, alive := s.alive - {s.loop.child})
    case WaitFails => s.(loop := LoopPanicked)
    case Wakes => s.(loop := AtTop)
    case ChildExits(child) => s.(alive := s.alive[child := Zombie])
    case ShutLocksKill => if s.poisoned then s.(shut := ShutPanicked) else s.(shut := LockedKill, killLock := Shutdown)
    case SetsKill => s.(shut := KillSet, kill := true, killLock := Nobody)
    case ShutLocksPid => if s.poisoned then s.(shut := ShutPanicked) else s.(shut := LockedPid, pidLock := Shutdown)
    case ReadsPid =>
      s.(shut := if s.pid.Some? then GotPid(s.pid.value) else Joining, pidLock := Nobody)
    case TriesWait =>
      var p := s.shut.pid;
      if p !in s.alive then s.(shut := Joining)
      else if s.alive[p].Zombie? then s.(shut := Joining, alive := s.alive - {p})
      else s.(shut := MustKill(p))
    case Kills =>
      var p := s.shut.pid;
      s.(shut := Joining, alive := if p in s.alive then s.alive[p := Zombie] else s.alive)
    case Joins => s.(shut := if s.loop.Ended? then Done else ShutPanicked)
  }

  ghost predicate IsRun(states: seq<State>, steps: seq<Step>) {
    && |states| == |steps| + 1
    && states[0] == Initial()
    && (forall i :: 0 <= i < |steps| ==> Enabled(states[i], steps[i]) && states[i + 1] == Next(states[i], steps[i]))
  }

  // ---------------------------------------------------------------- the invariant

  predicate LocksHeld(s: State) {
    && (s.killLock == Loop <==> s.loop.HoldsKill? || s.loop.HoldsBoth?)
    && (s.pidLock == Loop <==> s.loop.HoldsBoth?)
    && (s.killLock == Shutdown <==> s.shut.LockedKill?)
    && (s.pidLock == Shutdown <==> s.shut.LockedPid?)
    && (s.poisoned ==> s.loop.LoopPanicked?)
    && ((s.shut.NotAsked? || s.shut.LockedKill?) ==> !s.kill)
    && (s.shut.KillSet? || s.shut.LockedPid? || s.shut.GotPid? || s.shut.MustKill? || s.shut.Joining? ==> s.kill)
  }

  predicate ChildrenTracked(s: State) {
    && (forall p :: p in s.alive ==> s.loop == Waiting(p))
    && (s.loop.Waiting? ==> s.pid == Some(s.loop.child))
    && (s.pid.Some? ==> s.spawned != [] && s.pid.value == s.spawned[|s.spawned| - 1])
    && (s.pid.None? ==> s.loop.Ended? || s.spawned == [])
    && (s.shut.GotPid? || s.shut.MustKill? ==> s.spawned != [] && s.shut.pid == s.spawned[|s.spawned| - 1])
  }

  lemma NextInvariant(s: State, step: Step)
    requires LocksHeld(s) && ChildrenTracked(s) && Enabled(s, step)
    ensures LocksHeld(Next(s, step)) && ChildrenTracked(Next(s, step))
  {
  }

  lemma {:induction false} RunsKeepInvariant(states: seq<State>, steps: seq<Step>, n: nat)
    requires IsRun(states, steps) && n <= |steps|
    ensures LocksHeld(states[n]) && ChildrenTracked(states[n])
  {
    if n > 0 {
      RunsKeepInvariant(states, steps, n - 1);
      NextInvariant(states[n - 1], steps[n - 1]);
    }
  }

  /** In every interleaving at most one child runs, it is the last one spawned, and none is left when the
      loop's thread has ended, however it ended. */
  lemma OneChild(states: seq<State>, steps: seq<Step>, n: nat, p: Pid)
    requires IsRun(states, steps) && n <= |steps| && p in states[n].alive
    ensures states[n].alive.Keys == {p} && states[n].spawned != []
    ensures p == states[n].spawned[|states[n].spawned| - 1]
    ensures !states[n].loop.Ended? && !states[n].loop.LoopPanicked?
  {
    RunsKeepInvariant(states, steps, n);
  }

  /** After the kill signal a step spawns nothing, forgets the stored id or keeps it, and a step of the
      loop brings the loop closer to its end. */
  lemma KillIsFinal(s: State, step: Step)
    requires s.kill && Enabled(s, step)
    ensures var s' := Next(s, step);
      && s'.kill && s'.spawned == s.spawned && (s.pid.None? ==> s'.pid.None?) && !step.Spawns? && !step.SpawnFails?
      && Rank(s'.loop) + (if step.OfLoop() then 1 else 0) <= Rank(s.loop)
  {
  }

  /** In every interleaving no child is spawned once the kill signal is set. */
  lemma {:induction false} NoSpawnAfterKill(states: seq<State>, steps: seq<Step>, i: nat, j: nat)
    requires IsRun(states, steps) && i <= j <= |steps| && states[i].kill
    ensures states[j].kill && states[j].spawned == states[i].spawned
    ensures forall m :: i <= m < j ==> !steps[m].Spawns? && !steps[m].SpawnFails?
  {
    if i < j {
      NoSpawnAfterKill(states, steps, i, j - 1);
      KillIsFinal(states[j - 1], steps[j - 1]);
    }
  }

  /** The process id that `shutdown` reads after setting the kill signal is that of the last child there
      will ever be; if it reads none, then no child runs then or later. */
  lemma {:induction false} ReadPidIsFinal(states: seq<State>, steps: seq<Step>, i: nat, j: nat)
    requires IsRun(states, steps) && i < j <= |steps| && steps[i] == ReadsPid
    ensures states[i].kill
    ensures states[i].pid.Some? ==>
      states[j].spawned != [] && states[i].pid.value == states[j].spawned[|states[j].spawned| - 1]
    ensures states[i].pid.None? ==> states[j].alive == map[]
  {
    RunsKeepInvariant(states, steps, i);
    NoSpawnAfterKill(states, steps, i, j);
    if states[i].pid.None? {
      NoneStaysNone(states, steps, i, j);
      RunsKeepInvariant(states, steps, j);
    }
  }

  lemma {:induction false} NoneStaysNone(states: seq<State>, steps: seq<Step>, i: nat, j: nat)
    requires IsRun(states, steps) && i <= j <= |steps| && states[i].kill && states[i].pid.None?
    ensures states[j].kill && states[j].pid.None?
  {
    if i < j {
      NoneStaysNone(states, steps, i, j - 1);
      KillIsFinal(states[j - 1], steps[j - 1]);
    }
  }

  /** The signal goes to the last child spawned, and only while `shutdown` has the kill signal set. */
  lemma SignalsLastChild(states: seq<State>, steps: seq<Step>, i: nat)
    requires IsRun(states, steps) && i < |steps| && steps[i] == Kills
    ensures states[i].kill && states[i].spawned != []
    ensures states[i].shut.pid == states[i].spawned[|states[i].spawned| - 1]
  {
    RunsKeepInvariant(states, steps, i);
  }

  predicate Finished(s: State) {
    && (s.loop.Ended? ==> s.pid.None? && s.kill)
    && (s.shut.Done? ==> s.loop.Ended? && s.kill)
  }

  lemma NextFinished(s: State, step: Step)
    requires LocksHeld(s) && Finished(s) && Enabled(s, step)
    ensures Finished(Next(s, step))
  {
  }

  /** The loop ends only after the kill signal. When `shutdown` has returned, the loop has ended, no child runs,
      and the stored id is none. */
  lemma {:induction false} ShutdownIsComplete(states: seq<State>, steps: seq<Step>, n: nat)
    requires IsRun(states, steps) && n <= |steps|
    ensures Finished(states[n])
    ensures states[n].shut.Done? ==> states[n].alive == map[] && states[n].pid.None?
  {
    RunsKeepInvariant(states, steps, n);
    if n > 0 {
      ShutdownIsComplete(states, steps, n - 1);
      RunsKeepInvariant(states, steps, n - 1);
      NextFinished(states[n - 1], steps[n - 1]);
    }
  }

  // ---------------------------------------------------------------- who collects the child

  /** `shutdown` finds that the child has exited and collects it, before the loop's wait has. */
  predicate Collects(s: State, step: Step) {
    step.TriesWait? && s.shut.GotPid? && s.shut.pid in s.alive && s.alive[s.shut.pid].Zombie?
  }

  /** A spawn has failed, or `shutdown` has collected the child. */
  ghost predicate Spoiled(states: seq<State>, steps: seq<Step>, n: nat)
    requires n <= |steps| < |states|
  {
    exists m :: 0 <= m < n && (steps[m].SpawnFails? || Collects(states[m], steps[m]))
  }

  lemma SpoiledStep(s: State, step: Step)
    requires LocksHeld(s) && ChildrenTracked(s) && Enabled(s, step)
    ensures var (lost, s') := (s.loop.Waiting? && s.loop.child !in s.alive, Next(s, step));
      && ((s'.loop.LoopPanicked? || (s'.loop.Waiting? && s'.loop.child !in s'.alive)) <==>
          s.loop.LoopPanicked? || lost || step.SpawnFails? || Collects(s, step))
      && (s'.shut.ShutPanicked? ==> s.shut.ShutPanicked? || s.loop.LoopPanicked?)
      && (s'.shut.Done? ==> s.shut.Done? || s.loop.Ended?)
      && (s.loop.Ended? ==> s'.loop.Ended?)
  {
  }

  /** In every interleaving the loop's thread panics, or waits for a child that is not there to collect and is
      about to, exactly if a spawn has failed or `shutdown` has collected the child. Then `shutdown` never
      returns but by a panic, and in no other case does it panic. */
  lemma {:induction false} PanicsExactly(states: seq<State>, steps: seq<Step>, n: nat)
    requires IsRun(states, steps) && n <= |steps|
    ensures Spoiled(states, steps, n) <==>
            states[n].loop.LoopPanicked? || (states[n].loop.Waiting? && states[n].loop.child !in states[n].alive)
    ensures states[n].shut.ShutPanicked? ==> Spoiled(states, steps, n)
    ensures states[n].shut.Done? ==> !Spoiled(states, steps, n)
  {
    if n > 0 {
      PanicsExactly(states, steps, n - 1);
      RunsKeepInvariant(states, steps, n - 1);
      SpoiledStep(states[n - 1], steps[n - 1]);
      ShutdownIsComplete(states, steps, n);
      assert Spoiled(states, steps, n) <==>
             Spoiled(states, steps, n - 1) || steps[n - 1].SpawnFails? || Collects(states[n - 1], steps[n - 1]);
    }
  }

  /** A run in which `shutdown` collects the child and panics. */
  lemma CollectingPanics() returns (states: seq<State>)
    ensures IsRun(states, CollectingSteps()) && states[11].shut.ShutPanicked?
    ensures forall m :: 0 <= m < 11 ==> !CollectingSteps()[m].SpawnFails?
  {
    states := seq(12, n requires 0 <= n < 12 => CollectingStage(n));
    forall n | 0 <= n < 11
      ensures Enabled(states[n], CollectingSteps()[n]) && states[n + 1] == Next(states[n], CollectingSteps()[n])
    {
      CollectingStep(n);
    }
  }

  function CollectingSteps(): (steps: seq<Step>)
    ensures |steps| == 11
  {
    [LoopLocksKill, LoopLocksPid, Spawns(7), ChildExits(7), ShutLocksKill, SetsKill, ShutLocksPid, ReadsPid,
     TriesWait, WaitFails, Joins]
  }

  lemma CollectingStep(n: nat)
    requires n < 11
    ensures Enabled(CollectingStage(n), CollectingSteps()[n])
    ensures CollectingStage(n + 1) == Next(CollectingStage(n), CollectingSteps()[n])
  {
  }

  function CollectingStage(n: nat): State {
    var spawned := State(false, Some(7), Nobody, Nobody, false, Waiting(7), NotAsked, map[7 := Running], [7]);
    var exited := spawned.(alive := map[7 := Zombie]);
    if n == 0 then Initial()
    else if n == 1 then Initial().(loop := HoldsKill, killLock := Loop)
    else if n == 2 then Initial().(loop := HoldsBoth, killLock := Loop, pidLock := Loop)
    else if n == 3 then spawned
    else if n == 4 then exited
    else if n == 5 then exited.(shut := LockedKill, killLock := Shutdown)
    else if n == 6 then exited.(shut := KillSet, kill := true)
    else if n == 7 then exited.(shut := LockedPid, kill := true, pidLock := Shutdown)
    else if n == 8 then exited.(shut := GotPid(7), kill := true)
    else if n == 9 then exited.(shut := Joining, kill := true, alive := map[])
    else if n == 10 then exited.(shut := Joining, kill := true, alive := map[], loop := LoopPanicked)
    else exited.(shut := ShutPanicked, kill := true, alive := map[], loop := LoopPanicked)
  }

  predicate NoneRuns(s: State) {
    forall p :: p in s.alive ==> s.alive[p].Zombie?
  }

  lemma NoneRunsStep(s: State, step: Step)
    requires LocksHeld(s) && ChildrenTracked(s) && Enabled(s, step) && s.kill
    ensures NoneRuns(s) || step.Kills? ==> NoneRuns(Next(s, step))
  {
  }

  /** Once the signal is sent no child runs any more. */
  lemma {:induction false} KilledNoneRuns(states: seq<State>, steps: seq<Step>, i: nat, j: nat)
    requires IsRun(states, steps) && i < j <= |steps| && steps[i] == Kills
    ensures states[j].kill && NoneRuns(states[j])
  {
    hide Next, Enabled, NoneRuns;
    SignalsLastChild(states, steps, i);
    RunsKeepInvariant(states, steps, j - 1);
    NoSpawnAfterKill(states, steps, i, j);
    NoSpawnAfterKill(states, steps, i, j - 1);
    NoneRunsStep(states[j - 1], steps[j - 1]);
    if i + 1 < j {
      KilledNoneRuns(states, steps, i, j - 1);
    }
  }

  /** The locks are poisoned exactly if a spawn has failed; then a thread that takes one panics, and `shutdown`
      sets no signal. */
  lemma {:induction false} PoisonedExactly(states: seq<State>, steps: seq<Step>, n: nat)
    requires IsRun(states, steps) && n <= |steps|
    ensures states[n].poisoned <==> exists m :: 0 <= m < n && steps[m].SpawnFails?
    ensures n < |steps| && states[n].poisoned && (steps[n].ShutLocksKill? || steps[n].ShutLocksPid?) ==>
              states[n + 1].shut.ShutPanicked? && states[n + 1].kill == states[n].kill
  {
    if n > 0 {
      PoisonedExactly(states, steps, n - 1);
    }
  }

  /** The child has exited by itself, or the signal was sent to it. */
  predicate Dies(s: State, step: Step, p: Pid) {
    step == ChildExits(p) || (step.Kills? && s.shut.MustKill? && s.shut.pid == p)
  }

  /** A child that is no longer there, or waits to be collected, has died. */
  lemma {:induction false} GoneHaveDied(states: seq<State>, steps: seq<Step>, n: nat, p: Pid)
    requires IsRun(states, steps) && n <= |steps| && p in states[n].spawned
    requires p in states[n].alive ==> states[n].alive[p].Zombie?
    ensures exists m :: 0 <= m < n && Dies(states[m], steps[m], p)
  {
    hide Next, Enabled, Dies;
    if n > 0 && !Dies(states[n - 1], steps[n - 1], p) {
      DeathStep(states[n - 1], steps[n - 1], p);
      GoneHaveDied(states, steps, n - 1, p);
    }
  }

  lemma DeathStep(s: State, step: Step, p: Pid)
    requires Enabled(s, step) && !Dies(s, step, p) && p in Next(s, step).spawned
    requires p in Next(s, step).alive ==> Next(s, step).alive[p].Zombie?
    ensures p in s.spawned && (p in s.alive ==> s.alive[p].Zombie?)
  {
  }

  /** `shutdown` sends the signal exactly if it finds the child still running, and else does not. */
  lemma KillsRunningExactly(s: State, step: Step)
    requires Enabled(s, step) && step.TriesWait?
    ensures Next(s, step).shut
         == if s.shut.pid in s.alive && s.alive[s.shut.pid].Running? then MustKill(s.shut.pid) else Joining
  {
  }

  // ---------------------------------------------------------------- it does end

  predicate AwaitsChild(s: State) {
    s.loop.Waiting? && s.loop.child in s.alive && s.alive[s.loop.child].Running?
  }

  predicate Over(s: State) {
    s.loop.Ended? || s.loop.LoopPanicked?
  }

  /** The two threads never block each other: unless the loop is over or waits for a running child, the
      loop can go on, or `shutdown` holds the lock it waits for and can go on. */
  lemma NeverStuck(states: seq<State>, steps: seq<Step>, n: nat) returns (step: Step)
    requires IsRun(states, steps) && n <= |steps| && !Over(states[n]) && !AwaitsChild(states[n])
    ensures Enabled(states[n], step)
    ensures step.OfLoop() || (step.OfShutdown() && Shutdown in {states[n].killLock, states[n].pidLock})
  {
    RunsKeepInvariant(states, steps, n);
    var s := states[n];
    match s.loop
    case AtTop => step := if s.killLock.Nobody? then LoopLocksKill else SetsKill;
    case HoldsKill => step := if s.pidLock.Nobody? then LoopLocksPid else ReadsPid;
    case HoldsBoth => step := if s.kill then SeesKill else Spawns(0);
    case Waiting(child) => step := if child in s.alive then Waited else WaitFails;
    case Sleeping => step := Wakes;
  }

  function Rank(pc: LoopPc): nat {
    match pc
    case Waiting(_) => 5
    case Sleeping => 4
    case AtTop => 3
    case HoldsKill => 2
    case HoldsBoth => 1
    case _ => 0
  }

  function LoopSteps(steps: seq<Step>): nat {
    if steps == [] then 0
    else LoopSteps(steps[..|steps| - 1]) + if steps[|steps| - 1].OfLoop() then 1 else 0
  }

  /** From any state with the kill signal set, the loop's thread takes at most five more steps. */
  lemma {:induction false} EndsWithinFiveSteps(states: seq<State>, steps: seq<Step>, i: nat, j: nat)
    requires IsRun(states, steps) && i <= j <= |steps| && states[i].kill
    ensures LoopSteps(steps[i..j]) + Rank(states[j].loop) <= Rank(states[i].loop) <= 5
  {
    if i == j {
      assert steps[i..j] == [];
    } else {
      EndsWithinFiveSteps(states, steps, i, j - 1);
      NoSpawnAfterKill(states, steps, i, j - 1);
      KillIsFinal(states[j - 1], steps[j - 1]);
      assert steps[i..j][..j - i - 1] == steps[i..j - 1];
    }
  }

  function ShutRank(pc: ShutPc): nat {
    match pc
    case NotAsked => 7
    case LockedKill => 6
    case KillSet => 5
    case LockedPid => 4
    case GotPid(_) => 3
    case MustKill(_) => 2
    case Joining => 1
    case _ => 0
  }

  function ShutSteps(steps: seq<Step>): nat {
    if steps == [] then 0
    else ShutSteps(steps[..|steps| - 1]) + if steps[|steps| - 1].OfShutdown() then 1 else 0
  }

  /** In every interleaving `shutdown` takes at most seven steps. */
  lemma {:induction false} ShutdownTakesSevenSteps(states: seq<State>, steps: seq<Step>, n: nat)
    requires IsRun(states, steps) && n <= |steps|
    ensures ShutSteps(steps[..n]) + ShutRank(states[n].shut) <= 7
  {
    if n == 0 {
      assert steps[..n] == [];
    } else {
      hide Next, Enabled, ShutRank;
      ShutdownTakesSevenSteps(states, steps, n - 1);
      ShutStep(states[n - 1], steps[n - 1]);
      assert steps[..n][..n - 1] == steps[..n - 1];
    }
  }

  lemma ShutStep(s: State, step: Step)
    requires Enabled(s, step)
    ensures ShutRank(Next(s, step).shut) + (if step.OfShutdown() then 1 else 0) <= ShutRank(s.shut)
  {
  }
}
