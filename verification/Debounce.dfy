/** The `debounce` decorator: every notification restarts a timer, and the function is called when
    notifications stop coming in. Calls run in the timers' own threads. */
module Debounce {
  import opened Common

  datatype Status = Waiting | Cancelled | Running | Finished

  /** The timer that a notification set, with the notification's arguments. */
  datatype Timer<Args> = Timer(at: nat, args: Args, status: Status)

  /** A call of the decorated function: whose timer fired, when, and how many notifications there had
      been by then. */
  datatype Call = Call(timer: nat, time: nat, seen: nat)

  /** Timer i was set by notification i; `slot` is func.timer. */
  datatype State<Args> = State(now: nat, slot: Option<nat>, timers: seq<Timer<Args>>, calls: seq<Call>)

  /** Time passes; a notification comes in; a timer that has run its time starts its call; a call ends. */
  datatype Step<Args> = Wait(d: nat) | Notify(args: Args) | Fire(i: nat) | End(i: nat)

  predicate Enabled(seconds: nat, s: State, step: Step) {
    match step
    case Fire(i) => i < |s.timers| && s.timers[i].status == Waiting && s.now >= s.timers[i].at + seconds
    case End(i) => i < |s.timers| && s.timers[i].status == Running
    case _ => true
  }

  /** Timer.cancel: a timer whose call has started is not stopped by it. */
  function Cancel<Args>(timers: seq<Timer<Args>>, slot: Option<nat>): (r: seq<Timer<Args>>)
    ensures |r| == |timers|
  {
    if slot.Some? && slot.value < |timers| && timers[slot.value].status == Waiting
    then timers[slot.value := timers[slot.value].(status := Cancelled)]
    else timers
  }

  function Next<Args>(seconds: nat, s: State<Args>, step: Step<Args>): State<Args> {
    if !Enabled(seconds, s, step) then s
    else
      match step
      case Wait(d) => s.(now := s.now + d)
      case Notify(args) =>
        s.(timers := Cancel(s.timers, s.slot) + [Timer(s.now, args, Waiting)], slot := Some(|s.timers|))
      case Fire(i) =>
        s.(timers := s.timers[i := s.timers[i].(status := Running)],
           calls := s.calls + [Call(i, s.now, |s.timers|)])
      case End(i) => s.(timers := s.timers[i := s.timers[i].(status := Finished)], slot := None)
  }

  function Run<Args>(seconds: nat, s: State<Args>, steps: seq<Step<Args>>): State<Args>
    decreases |steps|
  {
    if steps == [] then s else Run(seconds, Next(seconds, s, steps[0]), steps[1..])
  }

  function Start<Args>(now: nat): State<Args> {
    State(now, None, [], [])
  }

  // ---------- The decorator ----------

  class Debouncer<Args(==)> {
    const seconds: nat
    var now: nat
    var slot: Option<nat>
    var timers: seq<Timer<Args>>
    var calls: seq<Call>

    constructor (seconds: nat, now: nat)
      ensures this.seconds == seconds && Current() == Start(now)
    {
      this.seconds, this.now, slot, timers, calls := seconds, now, None, [], [];
    }

    function Current(): State<Args>
      reads this
    {
      State(now, slot, timers, calls)
    }

    /** The wrapper: cancel the timer in func.timer, if there is one, then set and start a new one. */
    method Wrapper(args: Args)
      modifies this
      ensures Current() == Next(seconds, old(Current()), Notify(args))
    {
      if slot.Some? {
        timers := Cancel(timers, slot);
      }
      slot := Some(|timers|);
      timers := timers + [Timer(now, args, Waiting)];
    }

    /** A timer's thread runs out and enters `call`. */
    method CallBegins(i: nat)
      requires Enabled(seconds, Current(), Fire(i))
      modifies this
      ensures Current() == Next(seconds, old(Current()), Fire(i))
    {
      calls := calls + [Call(i, now, |timers|)];
      timers := timers[i := timers[i].(status := Running)];
    }

    /** The decorated function has returned; `call` clears func.timer, whichever timer is in it. */
    method CallEnds(i: nat)
      requires Enabled(seconds, Current(), End(i))
      modifies this
      ensures Current() == Next(seconds, old(Current()), End(i))
    {
      timers := timers[i := timers[i].(status := Finished)];
      slot := None;
    }
  }

  // ---------- Every run ----------

  predicate Fired<Args>(t: Timer<Args>) {
    t.status == Running || t.status == Finished
  }

  ghost predicate TimersOk(s: State) {
    && (s.slot.Some? ==> s.slot.value < |s.timers|)
    && (forall i, j :: 0 <= i <= j < |s.timers| ==> s.timers[i].at <= s.timers[j].at <= s.now)
    && (s.timers != [] ==> s.timers[|s.timers| - 1].status != Cancelled)
  }

  ghost predicate CallsOk(seconds: nat, s: State) {
    && (forall k :: 0 <= k < |s.calls| ==> CallOk(seconds, s, s.calls[k]))
    && (forall k, l :: 0 <= k < l < |s.calls| ==> s.calls[k].seen <= s.calls[l].seen)
  }

  ghost predicate Invariant(seconds: nat, s: State) {
    && TimersOk(s)
    && CallsOk(seconds, s)
    && (forall i :: 0 <= i < |s.timers| && Fired(s.timers[i]) ==> CallOf(s, i))
  }

  /** Timer i's call has started. */
  ghost predicate CallOf(s: State, i: nat) {
    exists k :: 0 <= k < |s.calls| && s.calls[k].timer == i
  }

  /** A call starts no earlier than its timer says, and notifications it did not see came later. */
  ghost predicate CallOk(seconds: nat, s: State, c: Call) {
    && c.timer < c.seen <= |s.timers| && c.time <= s.now
    && Fired(s.timers[c.timer]) && c.time >= s.timers[c.timer].at + seconds
    && forall i :: c.seen <= i < |s.timers| ==> s.timers[i].at >= c.time
  }

  lemma NextKeepsTimers<Args>(seconds: nat, s: State<Args>, step: Step<Args>)
    requires TimersOk(s)
    ensures TimersOk(Next(seconds, s, step))
  {
  }

  lemma NextMoves<Args>(seconds: nat, s: State<Args>, step: Step<Args>)
    ensures var s' := Next(seconds, s, step);
            && s'.now >= s.now && |s'.timers| >= |s.timers| && s.calls <= s'.calls
            && (forall i :: 0 <= i < |s.timers| ==>
                  s'.timers[i].at == s.timers[i].at && (Fired(s.timers[i]) ==> Fired(s'.timers[i])))
            && (forall i :: |s.timers| <= i < |s'.timers| ==> s'.timers[i].at == s.now)
  {
  }

  lemma NextKeepsCalls<Args>(seconds: nat, s: State<Args>, step: Step<Args>)
    requires TimersOk(s) && CallsOk(seconds, s)
    ensures CallsOk(seconds, Next(seconds, s, step))
  {
    var s' := Next(seconds, s, step);
    NextMoves(seconds, s, step);
    forall k | 0 <= k < |s.calls| ensures CallOk(seconds, s', s.calls[k]) {
      hide Next, TimersOk;
      assert CallOk(seconds, s, s.calls[k]);
    }
    if step.Fire? && Enabled(seconds, s, step) {
      assert CallOk(seconds, s', s'.calls[|s.calls|]);
      forall k | 0 <= k < |s.calls| ensures s.calls[k].seen <= |s.timers| {
        assert CallOk(seconds, s, s.calls[k]);
      }
    }
  }

  lemma NextKeepsFired<Args>(seconds: nat, s: State<Args>, step: Step<Args>)
    requires forall i :: 0 <= i < |s.timers| && Fired(s.timers[i]) ==> CallOf(s, i)
    ensures var s' := Next(seconds, s, step);
            forall i :: 0 <= i < |s'.timers| && Fired(s'.timers[i]) ==> CallOf(s', i)
  {
    var s' := Next(seconds, s, step);
    forall i | 0 <= i < |s'.timers| && Fired(s'.timers[i]) ensures CallOf(s', i) {
      if i < |s.timers| && Fired(s.timers[i]) {
        var k :| 0 <= k < |s.calls| && s.calls[k].timer == i;
        assert s'.calls[k] == s.calls[k];
      } else {
        assert s'.calls[|s.calls|].timer == i;
      }
    }
  }

  lemma NextKeepsInvariant<Args>(seconds: nat, s: State<Args>, step: Step<Args>)
    requires Invariant(seconds, s)
    ensures Invariant(seconds, Next(seconds, s, step))
  {
    hide Next, TimersOk, CallsOk, CallOf;
    NextKeepsTimers(seconds, s, step);
    NextKeepsCalls(seconds, s, step);
    NextKeepsFired(seconds, s, step);
  }

  lemma {:induction false} RunKeepsInvariant<Args>(seconds: nat, s: State<Args>, steps: seq<Step<Args>>)
    requires Invariant(seconds, s)
    ensures Invariant(seconds, Run(seconds, s, steps))
    decreases |steps|
  {
    hide Invariant, Next;
    if steps != [] {
      NextKeepsInvariant(seconds, s, steps[0]);
      RunKeepsInvariant(seconds, Next(seconds, s, steps[0]), steps[1..]);
    }
  }

  /** In every run, calls overlapping notifications or not, each notification has been followed by the
      start of a call, or a timer set at or after it is still waiting: none is lost. */
  lemma NoNotificationIsLost<Args>(seconds: nat, start: nat, steps: seq<Step<Args>>, e: nat)
    ensures var s := Run(seconds, Start<Args>(start), steps);
            e < |s.timers| ==>
              || (exists k :: 0 <= k < |s.calls| && e < s.calls[k].seen)
              || (exists i :: e <= i < |s.timers| && s.timers[i].status == Waiting)
  {
    RunKeepsInvariant(seconds, Start<Args>(start), steps);
    var s := Run(seconds, Start<Args>(start), steps);
    if e < |s.timers| {
      var last := |s.timers| - 1;
      if s.timers[last].status != Waiting {
        assert Fired(s.timers[last]) && CallOf(s, last);
        var k :| 0 <= k < |s.calls| && s.calls[k].timer == last;
        assert CallOk(seconds, s, s.calls[k]);
      }
    }
  }

  // ---------- Runs in which no call clears a newer timer ----------

  /** Ending a call sets func.timer to None; the step is clean if that does not forget a waiting timer. */
  predicate Clean(seconds: nat, s: State, step: Step) {
    Enabled(seconds, s, step) && step.End? && s.slot.Some? && s.slot.value < |s.timers| ==>
      s.timers[s.slot.value].status != Waiting
  }

  predicate CleanRun<Args>(seconds: nat, s: State<Args>, steps: seq<Step<Args>>)
    decreases |steps|
  {
    steps == [] || (Clean(seconds, s, steps[0]) && CleanRun(seconds, Next(seconds, s, steps[0]), steps[1..]))
  }

  /** At most one timer waits, the newest, and it is the one in func.timer; calls come from the newest
      notification of their time and are `seconds` apart. */
  ghost predicate Debounced(seconds: nat, s: State) {
    && (forall i :: 0 <= i < |s.timers| && s.timers[i].status == Waiting ==> s.slot == Some(i) && i == |s.timers| - 1)
    && (forall k :: 0 <= k < |s.calls| ==> s.calls[k].timer == s.calls[k].seen - 1)
    && (forall k, l :: 0 <= k < l < |s.calls| ==> s.calls[k].time + seconds <= s.calls[l].time)
  }

  lemma NextKeepsDebounced<Args>(seconds: nat, s: State<Args>, step: Step<Args>)
    requires Invariant(seconds, s) && Debounced(seconds, s) && Clean(seconds, s, step)
    ensures Debounced(seconds, Next(seconds, s, step))
  {
    if step.Fire? && Enabled(seconds, s, step) {
      forall k | 0 <= k < |s.calls| ensures s.calls[k].time + seconds <= s.now {
        assert CallOk(seconds, s, s.calls[k]);
      }
    }
  }

  lemma {:induction false} RunKeepsDebounced<Args>(seconds: nat, s: State<Args>, steps: seq<Step<Args>>)
    requires Invariant(seconds, s) && Debounced(seconds, s) && CleanRun(seconds, s, steps)
    ensures Debounced(seconds, Run(seconds, s, steps))
    decreases |steps|
  {
    hide Invariant, Next, Debounced, Clean;
    if steps != [] {
      NextKeepsInvariant(seconds, s, steps[0]);
      NextKeepsDebounced(seconds, s, steps[0]);
      RunKeepsDebounced(seconds, Next(seconds, s, steps[0]), steps[1..]);
    }
  }

  // ---------- Timers that fire on time ----------

  /** Time does not pass a waiting timer's deadline. */
  ghost predicate Prompt(seconds: nat, s: State, step: Step) {
    step.Wait? ==>
      forall i :: 0 <= i < |s.timers| && s.timers[i].status == Waiting ==> s.now + step.d <= s.timers[i].at + seconds
  }

  ghost predicate PromptRun<Args>(seconds: nat, s: State<Args>, steps: seq<Step<Args>>)
    decreases |steps|
  {
    steps == [] || (Prompt(seconds, s, steps[0]) && PromptRun(seconds, Next(seconds, s, steps[0]), steps[1..]))
  }

  ghost predicate OnTime(seconds: nat, s: State) {
    && (forall i :: 0 <= i < |s.timers| && s.timers[i].status == Waiting ==> s.now <= s.timers[i].at + seconds)
    && (forall k :: 0 <= k < |s.calls| ==>
          s.calls[k].timer < |s.timers| && s.calls[k].time == s.timers[s.calls[k].timer].at + seconds)
  }

  lemma {:induction false} RunKeepsOnTime<Args>(seconds: nat, s: State<Args>, steps: seq<Step<Args>>)
    requires OnTime(seconds, s) && PromptRun(seconds, s, steps)
    ensures OnTime(seconds, Run(seconds, s, steps))
    decreases |steps|
  {
    if steps != [] {
      NextKeepsOnTime(seconds, s, steps[0]);
      hide OnTime, Next, Prompt;
      RunKeepsOnTime(seconds, Next(seconds, s, steps[0]), steps[1..]);
    }
  }

  lemma NextKeepsOnTime<Args>(seconds: nat, s: State<Args>, step: Step<Args>)
    requires OnTime(seconds, s) && Prompt(seconds, s, step)
    ensures OnTime(seconds, Next(seconds, s, step))
  {
  }

  /** When no call clears a newer timer: at most one timer waits at any moment, calls start at least
      `seconds` apart, and each call gets the arguments of the last notification before it, no earlier than
      `seconds` after that; exactly then, if timers fire on time. */
  lemma CallsAreDebounced<Args>(seconds: nat, start: nat, steps: seq<Step<Args>>)
    requires CleanRun(seconds, Start<Args>(start), steps)
    ensures var s := Run(seconds, Start<Args>(start), steps);
            && (forall i, j ::
                  0 <= i < j < |s.timers| ==> s.timers[i].status != Waiting || s.timers[j].status != Waiting)
            && (forall k, l :: 0 <= k < l < |s.calls| ==> s.calls[k].time + seconds <= s.calls[l].time)
            && (forall k :: 0 <= k < |s.calls| ==>
                  var c := s.calls[k];
                  && 0 <= c.seen - 1 < |s.timers| && c.timer == c.seen - 1
                  && c.time >= s.timers[c.seen - 1].at + seconds
                  && (PromptRun(seconds, Start<Args>(start), steps) ==> c.time == s.timers[c.seen - 1].at + seconds))
  {
    hide Run, CleanRun, PromptRun;
    RunKeepsInvariant(seconds, Start<Args>(start), steps);
    RunKeepsDebounced(seconds, Start<Args>(start), steps);
    if PromptRun(seconds, Start<Args>(start), steps) {
      RunKeepsOnTime(seconds, Start<Args>(start), steps);
    }
    var s := Run(seconds, Start<Args>(start), steps);
    forall k | 0 <= k < |s.calls| ensures CallOk(seconds, s, s.calls[k]) {
    }
  }

  // ---------- Whose arguments a call gets ----------

  /** The arguments of the notifications among some steps, in order. */
  function Notifications<Args>(steps: seq<Step<Args>>): seq<Args> {
    if steps == [] then []
    else (match steps[0] case Notify(args) => [args] case _ => []) + Notifications(steps[1..])
  }

  function ArgsOf<Args>(timers: seq<Timer<Args>>): (r: seq<Args>)
    ensures |r| == |timers| && forall i :: 0 <= i < |timers| ==> r[i] == timers[i].args
  {
    seq(|timers|, i requires 0 <= i < |timers| => timers[i].args)
  }

  lemma NextNotifies<Args>(seconds: nat, s: State<Args>, step: Step<Args>)
    ensures ArgsOf(Next(seconds, s, step).timers) == ArgsOf(s.timers) + Notifications([step])
  {
    assert [step][1..] == [] && Notifications([step][1..]) == [];
    var before, after := ArgsOf(s.timers), ArgsOf(Next(seconds, s, step).timers);
    if step.Notify? {
      assert Notifications([step]) == [step.args];
    }
    assert |after| == |before| + |Notifications([step])|;
  }

  /** In every run there is one timer for each notification, in order and with its arguments. */
  lemma {:induction false} TimersCarryArguments<Args>(seconds: nat, s: State<Args>, steps: seq<Step<Args>>)
    ensures ArgsOf(Run(seconds, s, steps).timers) == ArgsOf(s.timers) + Notifications(steps)
    decreases |steps|
  {
    hide Next, ArgsOf;
    if steps == [] {
      assert ArgsOf(s.timers) + [] == ArgsOf(s.timers);
    } else {
      NextNotifies(seconds, s, steps[0]);
      TimersCarryArguments(seconds, Next(seconds, s, steps[0]), steps[1..]);
      FirstNotification(steps);
    }
  }

  lemma FirstNotification<Args>(steps: seq<Step<Args>>)
    requires steps != []
    ensures Notifications(steps) == Notifications([steps[0]]) + Notifications(steps[1..])
  {
    assert [steps[0]][1..] == [] && Notifications([steps[0]][1..]) == [];
  }

  /** The call that starts at step p. */
  predicate StartsAt<Args>(seconds: nat, start: nat, steps: seq<Step<Args>>, p: nat) {
    p < |steps| && steps[p].Fire? && Enabled(seconds, Run(seconds, Start<Args>(start), steps[..p]), steps[p])
  }

  /** When no call clears a newer timer, the timer that fires at step p was set by the last notification before
      that step, and carries its arguments into the call. */
  lemma CallGetsLastArguments<Args>(seconds: nat, start: nat, steps: seq<Step<Args>>, p: nat)
    requires CleanRun(seconds, Start<Args>(start), steps) && StartsAt(seconds, start, steps, p)
    ensures var given := Notifications(steps[..p]);
            var before := Run(seconds, Start<Args>(start), steps[..p]);
            var after := Run(seconds, Start<Args>(start), steps[..p + 1]);
            && given != [] && |before.timers| == |given| && steps[p].i == |given| - 1
            && before.timers[steps[p].i].args == given[|given| - 1]
            && after.calls == before.calls + [Call(|given| - 1, before.now, |given|)]
  {
    hide Run, CleanRun, Next, Debounced, Notifications, ArgsOf, Invariant;
    var before := Run(seconds, Start<Args>(start), steps[..p]);
    CleanUpTo(seconds, start, steps, p);
    NewestFires(seconds, before, steps[p]);
    RunPlusOne(seconds, Start<Args>(start), steps, p);
    var given := Notifications(steps[..p]);
    assert ArgsOf(before.timers)[|given| - 1] == given[|given| - 1];
  }

  lemma CleanUpTo<Args>(seconds: nat, start: nat, steps: seq<Step<Args>>, p: nat)
    requires CleanRun(seconds, Start<Args>(start), steps) && p <= |steps|
    ensures var before := Run(seconds, Start<Args>(start), steps[..p]);
            Debounced(seconds, before) && ArgsOf(before.timers) == Notifications(steps[..p])
  {
    hide Run, CleanRun, Debounced, Invariant;
    var s0 := Start<Args>(start);
    assert steps == steps[..p] + steps[p..];
    RunTwo(seconds, s0, steps[..p], steps[p..]);
    StartIsDebounced<Args>(seconds, start);
    RunKeepsDebounced(seconds, s0, steps[..p]);
    TimersCarryArguments(seconds, s0, steps[..p]);
    assert ArgsOf(s0.timers) + Notifications(steps[..p]) == Notifications(steps[..p]);
  }

  lemma RunPlusOne<Args>(seconds: nat, s: State<Args>, steps: seq<Step<Args>>, p: nat)
    requires p < |steps|
    ensures Run(seconds, s, steps[..p + 1]) == Next(seconds, Run(seconds, s, steps[..p]), steps[p])
  {
    hide Run, CleanRun, Next, Clean;
    assert steps[..p + 1] == steps[..p] + [steps[p]];
    RunTwo(seconds, s, steps[..p], [steps[p]]);
    var before := Run(seconds, s, steps[..p]);
    RunOne(seconds, before, [steps[p]], steps[p], []);
    EmptyRun(seconds, Next(seconds, before, steps[p]));
  }

  lemma StartIsDebounced<Args>(seconds: nat, start: nat)
    ensures Invariant(seconds, Start<Args>(start)) && Debounced(seconds, Start<Args>(start))
  {
  }

  lemma NewestFires<Args>(seconds: nat, s: State<Args>, step: Step<Args>)
    requires Debounced(seconds, s) && step.Fire? && Enabled(seconds, s, step)
    ensures s.timers != [] && step.i == |s.timers| - 1
    ensures Next(seconds, s, step).calls == s.calls + [Call(step.i, s.now, |s.timers|)]
  {
  }

  // ---------- Calls that are atomic with respect to notifications ----------

  predicate CallUnderWay(s: State) {
    exists i :: 0 <= i < |s.timers| && s.timers[i].status == Running
  }

  /** No notification comes in while a call is under way. */
  predicate AtomicRun<Args>(seconds: nat, s: State<Args>, steps: seq<Step<Args>>)
    decreases |steps|
  {
    steps == [] ||
    ((steps[0].Notify? ==> !CallUnderWay(s)) && AtomicRun(seconds, Next(seconds, s, steps[0]), steps[1..]))
  }

  /** While a call is under way no timer waits, so its end forgets none. */
  ghost predicate CallsAlone(s: State) {
    CallUnderWay(s) ==> forall i :: 0 <= i < |s.timers| ==> s.timers[i].status != Waiting
  }

  lemma NextKeepsCallsAlone<Args>(seconds: nat, s: State<Args>, step: Step<Args>)
    requires Debounced(seconds, s) && CallsAlone(s)
    requires step.Notify? ==> !CallUnderWay(s)
    ensures Clean(seconds, s, step) && CallsAlone(Next(seconds, s, step))
  {
    var s' := Next(seconds, s, step);
    if CallUnderWay(s') {
      var i :| 0 <= i < |s'.timers| && s'.timers[i].status == Running;
      assert !step.Fire? || !Enabled(seconds, s, step) ==> i < |s.timers| && s.timers[i].status == Running;
    }
  }

  lemma {:induction false} AtomicStaysClean<Args>(seconds: nat, s: State<Args>, steps: seq<Step<Args>>)
    requires Invariant(seconds, s) && Debounced(seconds, s) && CallsAlone(s) && AtomicRun(seconds, s, steps)
    ensures CleanRun(seconds, s, steps)
    decreases |steps|
  {
    hide Invariant, Next, Debounced, CallsAlone, Clean;
    if steps != [] {
      NextKeepsCallsAlone(seconds, s, steps[0]);
      NextKeepsInvariant(seconds, s, steps[0]);
      NextKeepsDebounced(seconds, s, steps[0]);
      AtomicStaysClean(seconds, Next(seconds, s, steps[0]), steps[1..]);
    }
  }

  /** Calls that are atomic with respect to notifications never clear a newer timer, so everything said of
      clean runs holds of them. */
  lemma AtomicRunIsClean<Args>(seconds: nat, start: nat, steps: seq<Step<Args>>)
    requires AtomicRun(seconds, Start<Args>(start), steps)
    ensures CleanRun(seconds, Start<Args>(start), steps)
  {
    AtomicStaysClean(seconds, Start<Args>(start), steps);
  }

  // ---------- A run that is not clean ----------

  lemma RunOne<Args>(seconds: nat, s: State<Args>, steps: seq<Step<Args>>, step: Step<Args>, more: seq<Step<Args>>)
    requires steps == [step] + more
    ensures Run(seconds, s, steps) == Run(seconds, Next(seconds, s, step), more)
    ensures CleanRun(seconds, s, steps) <==> Clean(seconds, s, step) && CleanRun(seconds, Next(seconds, s, step), more)
  {
    assert steps[0] == step && steps[1..] == more;
  }

  lemma {:induction false} RunTwo<Args>(seconds: nat, s: State<Args>, a: seq<Step<Args>>, b: seq<Step<Args>>)
    ensures Run(seconds, s, a + b) == Run(seconds, Run(seconds, s, a), b)
    ensures CleanRun(seconds, s, a + b) <==> CleanRun(seconds, s, a) && CleanRun(seconds, Run(seconds, s, a), b)
    decreases |a|
  {
    hide Next, Clean;
    if a == [] {
      assert a + b == b;
    } else {
      RunOne(seconds, s, a, a[0], a[1..]);
      RunOne(seconds, s, a + b, a[0], a[1..] + b);
      RunTwo(seconds, Next(seconds, s, a[0]), a[1..], b);
    }
  }

  /** A notification, during whose call the next one comes in before the call ends. */
  function Overlap<Args>(seconds: nat, a: Args): seq<Step<Args>> {
    [Notify(a), Wait(seconds), Fire(0), Notify(a), End(0)]
  }

  /** One more notification, and both timers run out. */
  function Aftermath<Args>(seconds: nat, a: Args): seq<Step<Args>>
    requires seconds >= 2
  {
    [Wait(1), Notify(a), Wait(seconds - 1), Fire(1), Wait(1), Fire(2)]
  }

  lemma OverlapForgetsTimer<Args>(seconds: nat, a: Args)
    ensures var s := Run(seconds, Start<Args>(0), Overlap(seconds, a));
            && !CleanRun(seconds, Start<Args>(0), Overlap(seconds, a))
            && s == State(seconds, None, [Timer(0, a, Finished), Timer(seconds, a, Waiting)], [Call(0, seconds, 1)])
  {
    hide Run, CleanRun;
    var s0 := Start<Args>(0);
    var s1 := State(0, Some(0), [Timer(0, a, Waiting)], []);
    var s2 := s1.(now := seconds);
    var s3 := State(seconds, Some(0), [Timer(0, a, Running)], [Call(0, seconds, 1)]);
    var s4 := State(seconds, Some(1), [Timer(0, a, Running), Timer(seconds, a, Waiting)], [Call(0, seconds, 1)]);
    assert Next(seconds, s0, Notify(a)) == s1 && Next(seconds, s1, Wait(seconds)) == s2;
    assert Next(seconds, s2, Fire(0)) == s3 && Next(seconds, s3, Notify(a)) == s4;
    RunOne(seconds, s0, [Notify(a), Wait(seconds), Fire(0), Notify(a), End(0)],
           Notify(a), [Wait(seconds), Fire(0), Notify(a), End(0)]);
    RunOne(seconds, s1, [Wait(seconds), Fire(0), Notify(a), End(0)], Wait(seconds), [Fire(0), Notify(a), End(0)]);
    RunOne(seconds, s2, [Fire(0), Notify(a), End(0)], Fire(0), [Notify(a), End(0)]);
    RunOne(seconds, s3, [Notify(a), End(0)], Notify(a), [End(0)]);
    RunOne(seconds, s4, [End(0)], End(0), []);
    EmptyRun(seconds, Next(seconds, s4, End(0)));
  }

  lemma EmptyRun<Args>(seconds: nat, s: State<Args>)
    ensures Run(seconds, s, []) == s && CleanRun(seconds, s, [])
  {
  }

  lemma AftermathCallsTwice<Args>(seconds: nat, a: Args)
    requires seconds >= 2
    ensures var s := State(seconds, None, [Timer(0, a, Finished), Timer(seconds, a, Waiting)], [Call(0, seconds, 1)]);
            Run(seconds, s, Aftermath(seconds, a)).calls ==
            [Call(0, seconds, 1), Call(1, 2 * seconds, 3), Call(2, 2 * seconds + 1, 3)]
  {
    hide Run, CleanRun;
    var t := [Timer(0, a, Finished), Timer(seconds, a, Waiting)];
    var s0 := State(seconds, None, t, [Call(0, seconds, 1)]);
    var s1 := s0.(now := seconds + 1);
    var s2 := s1.(slot := Some(2), timers := t + [Timer(seconds + 1, a, Waiting)]);
    var s3 := s2.(now := 2 * seconds);
    var s4 := Next(seconds, s3, Fire(1));
    var s5 := Next(seconds, s4, Wait(1));
    assert Next(seconds, s1, Notify(a)) == s2;
    assert s5.calls == [Call(0, seconds, 1), Call(1, 2 * seconds, 3)];
    RunOne(seconds, s0, [Wait(1), Notify(a), Wait(seconds - 1), Fire(1), Wait(1), Fire(2)],
           Wait(1), [Notify(a), Wait(seconds - 1), Fire(1), Wait(1), Fire(2)]);
    RunOne(seconds, s1, [Notify(a), Wait(seconds - 1), Fire(1), Wait(1), Fire(2)],
           Notify(a), [Wait(seconds - 1), Fire(1), Wait(1), Fire(2)]);
    RunOne(seconds, s2, [Wait(seconds - 1), Fire(1), Wait(1), Fire(2)], Wait(seconds - 1), [Fire(1), Wait(1), Fire(2)]);
    RunOne(seconds, s3, [Fire(1), Wait(1), Fire(2)], Fire(1), [Wait(1), Fire(2)]);
    RunOne(seconds, s4, [Wait(1), Fire(2)], Wait(1), [Fire(2)]);
    RunOne(seconds, s5, [Fire(2)], Fire(2), []);
    EmptyRun(seconds, Next(seconds, s5, Fire(2)));
  }

  /** Without that hypothesis calls can come too close, whatever the interval: a call that ends after a
      new notification forgets the new timer, the next notification does not cancel it, and both fire. */
  lemma OverlappingCallsComeTooClose<Args>(seconds: nat, a: Args)
    requires seconds >= 2
    ensures var steps := Overlap(seconds, a) + Aftermath(seconds, a);
            var s := Run(seconds, Start<Args>(0), steps);
            && !CleanRun(seconds, Start<Args>(0), steps)
            && |s.calls| == 3 && s.calls[2].time == s.calls[1].time + 1 < s.calls[1].time + seconds
  {
    hide Run, CleanRun, Overlap, Aftermath;
    RunTwo(seconds, Start<Args>(0), Overlap(seconds, a), Aftermath(seconds, a));
    OverlapForgetsTimer(seconds, a);
    AftermathCallsTwice(seconds, a);
  }

  // ---------- Exactly when the end of a call is harmless ----------

  ghost predicate Spaced(seconds: nat, s: State) {
    forall k, l :: 0 <= k < l < |s.calls| ==> s.calls[k].time + seconds <= s.calls[l].time
  }

  /** Every continuation in which no further call clears a newer timer keeps the calls apart. */
  ghost predicate StaysSpaced<Args(!new)>(seconds: nat, s: State<Args>) {
    forall more :: CleanRun(seconds, s, more) ==> Spaced(seconds, Run(seconds, s, more))
  }

  /** The end of a call leaves calls `seconds` apart from then on if and only if it does not clear a
      timer that still waits. */
  lemma HarmlessIffClean<Args(!new)>(seconds: nat, s: State<Args>, i: nat, a: Args)
    requires seconds >= 1 && Invariant(seconds, s) && Debounced(seconds, s) && Enabled(seconds, s, End(i))
    ensures StaysSpaced(seconds, Next(seconds, s, End(i))) <==> Clean(seconds, s, End(i))
  {
    hide Invariant, Run, CleanRun, Next;
    var after := Next(seconds, s, End(i));
    if Clean(seconds, s, End(i)) {
      NextKeepsInvariant(seconds, s, End(i));
      NextKeepsDebounced(seconds, s, End(i));
      forall more | CleanRun(seconds, after, more) ensures Spaced(seconds, Run(seconds, after, more)) {
        RunKeepsDebounced(seconds, after, more);
      }
    } else {
      Forgets(seconds, s, i);
      var more := FourSteps(seconds, a, s.slot.value, |s.timers|);
      ForgottenTimerFiresToo(seconds, after, s.slot.value, a);
      assert CleanRun(seconds, after, more) && !Spaced(seconds, Run(seconds, after, more));
    }
  }

  lemma Forgets<Args>(seconds: nat, s: State<Args>, i: nat)
    requires Invariant(seconds, s) && Enabled(seconds, s, End(i)) && !Clean(seconds, s, End(i))
    ensures var after := Next(seconds, s, End(i));
            && TimersOk(after) && after.slot.None? && |after.timers| == |s.timers|
            && s.slot.value < |s.timers| && after.timers[s.slot.value].status == Waiting
  {
  }

  /** A notification comes in, time passes, and two timers fire one right after the other. */
  function FourSteps<Args>(seconds: nat, a: Args, t: nat, n: nat): seq<Step<Args>> {
    [Notify(a), Wait(seconds), Fire(t), Fire(n)]
  }

  lemma ForgottenTimerFiresToo<Args>(seconds: nat, s: State<Args>, t: nat, a: Args)
    requires seconds >= 1 && TimersOk(s) && s.slot.None? && t < |s.timers| && s.timers[t].status == Waiting
    ensures var more := FourSteps(seconds, a, t, |s.timers|);
            CleanRun(seconds, s, more) && !Spaced(seconds, Run(seconds, s, more))
  {
    hide Run, CleanRun, Next;
    var n := |s.timers|;
    var s1, s2, s3, s4 := NotifyWaitFireFire(seconds, s, t, a);
    RunOne(seconds, s, FourSteps(seconds, a, t, n), Notify(a), [Wait(seconds), Fire(t), Fire(n)]);
    RunOne(seconds, s1, [Wait(seconds), Fire(t), Fire(n)], Wait(seconds), [Fire(t), Fire(n)]);
    RunOne(seconds, s2, [Fire(t), Fire(n)], Fire(t), [Fire(n)]);
    RunOne(seconds, s3, [Fire(n)], Fire(n), []);
    EmptyRun(seconds, s4);
    assert s4.calls[|s.calls|].time == s4.calls[|s.calls| + 1].time;
  }

  lemma NotifyWaitFireFire<Args>(seconds: nat, s: State<Args>, t: nat, a: Args)
      returns (s1: State<Args>, s2: State<Args>, s3: State<Args>, s4: State<Args>)
    requires TimersOk(s) && s.slot.None? && t < |s.timers| && s.timers[t].status == Waiting
    ensures s1 == Next(seconds, s, Notify(a)) && s2 == Next(seconds, s1, Wait(seconds))
    ensures s3 == Next(seconds, s2, Fire(t)) && s4 == Next(seconds, s3, Fire(|s.timers|))
    ensures |s4.calls| == |s.calls| + 2 && s4.calls[|s.calls|].time == s4.calls[|s.calls| + 1].time
  {
    s1 := Next(seconds, s, Notify(a));
    s2 := Next(seconds, s1, Wait(seconds));
    s3 := Next(seconds, s2, Fire(t));
    s4 := Next(seconds, s3, Fire(|s.timers|));
  }
}
