/** The frontend's run hook: a small state record that `startTask` sets to
    running, a one-second interval advances by ten percent, a ten-second
    timeout completes, and `resetTask` returns to idle. The timers are a pool
    of pending events; nothing ever cancels an earlier run's events. */
module Taskflow {
  import opened Schemas

  datatype RunStatus = Idle | Running | Completed | Error

  datatype TaskflowState = TaskflowState(isRunning: bool, progress: int, status: RunStatus, message: Option<string>)

  /** `isRunning` mirrors the status. */
  predicate Consistent(s: TaskflowState) {
    s.isRunning <==> s.status == RunStatus.Running
  }

  predicate InRange(s: TaskflowState) {
    0 <= s.progress <= 100
  }

  /** The state `useState` starts from, and the one `resetTask` sets. */
  const Initial: TaskflowState := TaskflowState(false, 0, Idle, None)

  /** The state `startTask` sets first, whatever came before. */
  const Started: TaskflowState := TaskflowState(true, 0, RunStatus.Running, Some("Starting task..."))

  /** The state the completion timeout sets. */
  const Finished: TaskflowState := TaskflowState(false, 100, RunStatus.Completed, Some("Task completed successfully!"))

  /** The state the `catch` branch of `startTask` sets; `error` is the message
      of a thrown `Error`, absent for any other thrown value. */
  function Failed(error: Option<string>): (r: TaskflowState)
    ensures Consistent(r) && InRange(r) && r.status == Error && r.message.Some?
  {
    TaskflowState(false, 0, Error, Some(error.GetOr("An error occurred")))
  }

  // ---------------------------------------------------------------------------
  // Decimal rendering of the progress in the tick message

  function Digit(d: nat): (c: char)
    requires d < 10
    ensures '0' <= c <= '9'
  {
    (48 + d) as char
  }

  function DigitValue(c: char): (d: nat)
    requires '0' <= c <= '9'
    ensures d < 10 && Digit(d) == c
  {
    c as int - 48
  }

  predicate IsDigits(s: string) {
    forall i :: 0 <= i < |s| ==> '0' <= s[i] <= '9'
  }

  /** The decimal form of a whole number, as a template literal renders it. */
  function NatToString(n: nat): (r: string)
    ensures |r| > 0 && IsDigits(r)
    ensures |r| > 1 ==> r[0] != '0'
  {
    if n < 10 then [Digit(n)] else NatToString(n / 10) + [Digit(n % 10)]
  }

  function IntToString(n: int): string {
    if n < 0 then "-" + NatToString(-n) else NatToString(n)
  }

  /** Reading a string of digits back as a number. */
  function ParseDigits(s: string): nat
    requires IsDigits(s)
  {
    if s == [] then 0 else ParseDigits(s[..|s| - 1]) * 10 + DigitValue(s[|s| - 1])
  }

  /** The rendering is faithful: reading it back gives the number. */
  lemma {:induction false} ParseNatToString(n: nat)
    ensures ParseDigits(NatToString(n)) == n
  {
    var r := NatToString(n);
    if n >= 10 {
      ParseNatToString(n / 10);
      assert r[..|r| - 1] == NatToString(n / 10);
    }
  }

  /** Distinct progress values give distinct tick messages. */
  lemma ProgressMessageInjective(p: nat, q: nat)
    requires ProgressMessage(p) == ProgressMessage(q)
    ensures p == q
  {
    var a, b := ProgressMessage(p), ProgressMessage(q);
    assert NatToString(p) == a[14..|a| - 1];
    assert NatToString(q) == b[14..|b| - 1];
    ParseNatToString(p);
    ParseNatToString(q);
  }

  function ProgressMessage(p: int): string {
    "Processing... " + IntToString(p) + "%"
  }

  // ---------------------------------------------------------------------------
  // The tick

  /** The interval's updater: ten percent more, capped at 100, with the new
      figure in the message; the status and `isRunning` are kept. */
  function Ticked(prev: TaskflowState): (r: TaskflowState)
    ensures r.status == prev.status && r.isRunning == prev.isRunning
    ensures Consistent(prev) ==> Consistent(r)
    ensures r.progress <= 100
    ensures prev.progress <= 100 ==> prev.progress <= r.progress
    ensures InRange(prev) ==> InRange(r)
    ensures prev.progress <= 90 ==> r.progress == prev.progress + 10
    ensures prev.progress >= 90 ==> r.progress == 100
    ensures r.message == Some(ProgressMessage(r.progress))
  {
    var p := if prev.progress + 10 < 100 then prev.progress + 10 else 100;
    prev.(progress := p, message := Some(ProgressMessage(p)))
  }

  function TickedTimes(s: TaskflowState, k: nat): TaskflowState {
    if k == 0 then s else Ticked(TickedTimes(s, k - 1))
  }

  /** From a fresh start, `k` ticks show `10 k` percent, up to 100; the
      tenth tick reaches 100 and later ticks stay there. */
  lemma {:induction false} TicksFromStart(k: nat)
    ensures TickedTimes(Started, k).progress == if 10 * k < 100 then 10 * k else 100
    ensures TickedTimes(Started, k).status == RunStatus.Running && Consistent(TickedTimes(Started, k))
  {
    if k > 0 {
      TicksFromStart(k - 1);
    }
  }

  /** Every state the hook's transitions produce keeps `isRunning` in step
      with the status and the progress within 0..100. */
  lemma TransitionsKeepInvariant(s: TaskflowState, error: Option<string>)
    requires Consistent(s) && InRange(s)
    ensures Consistent(Initial) && InRange(Initial)
    ensures Consistent(Started) && InRange(Started)
    ensures Consistent(Finished) && InRange(Finished)
    ensures Consistent(Ticked(s)) && InRange(Ticked(s))
    ensures Consistent(Failed(error)) && InRange(Failed(error))
  {
  }

  // ---------------------------------------------------------------------------
  // The hook with its timers

  /** A scheduled callback, tagged by the `startTask` call that scheduled it. */
  datatype Timer = Interval(run: nat) | Timeout(run: nat)

  class TaskflowHook {
    var state: TaskflowState
    /** The callbacks still scheduled. */
    var pending: set<Timer>
    /** How many times `startTask` has been called. */
    var runs: nat

    ghost predicate Valid()
      reads this
    {
      && Consistent(state) && InRange(state)
      && forall t :: t in pending ==> t.run < runs
    }

    constructor ()
      ensures Valid() && state == Initial && pending == {} && runs == 0
    {
      state := Initial;
      pending := {};
      runs := 0;
    }

    /** `startTask`: sets the running state and schedules this run's interval
        and timeout, leaving every earlier run's callbacks scheduled. */
    method StartTask(prompt: string)
      requires Valid()
      modifies this
      ensures Valid()
      ensures state == Started
      ensures runs == old(runs) + 1
      ensures pending == old(pending) + {Interval(old(runs)), Timeout(old(runs))}
    {
      state := Started;
      pending := pending + {Interval(runs), Timeout(runs)};
      runs := runs + 1;
    }

    /** One firing of run `run`'s interval. */
    method Tick(run: nat)
      requires Valid() && Interval(run) in pending
      modifies this
      ensures Valid()
      ensures state == Ticked(old(state))
      ensures old(state.progress) <= state.progress
      ensures pending == old(pending) && runs == old(runs)
    {
      state := Ticked(state);
    }

    /** Run `run`'s timeout: clears its own interval and completes, whatever
        the current state and whichever run is current. */
    method Complete(run: nat)
      requires Valid() && Timeout(run) in pending
      modifies this
      ensures Valid()
      ensures state == Finished
      ensures pending == old(pending) - {Interval(run), Timeout(run)}
      ensures runs == old(runs)
    {
      pending := pending - {Interval(run), Timeout(run)};
      state := Finished;
    }

    /** `resetTask`: back to the initial state; scheduled callbacks stay. */
    method ResetTask()
      requires Valid()
      modifies this
      ensures Valid()
      ensures state == Initial
      ensures pending == old(pending) && runs == old(runs)
    {
      state := Initial;
    }
  }

  /** A run started, reset and started again is still completed by the first
      run's timeout, which also leaves the second run's timers scheduled. */
  method StaleCompletion() returns (h: TaskflowHook)
    ensures h.Valid()
    ensures h.state == Finished && h.runs == 2
    ensures h.pending == {Interval(1), Timeout(1)}
  {
    h := new TaskflowHook();
    h.StartTask("first");
    h.ResetTask();
    h.StartTask("second");
    h.Complete(0);
  }

  /** After the first run's timeout has completed the hook, the second run's
      interval still fires: the status stays completed but the message turns
      back into a progress message. */
  method TickAfterCompletion() returns (h: TaskflowHook)
    ensures h.Valid()
    ensures h.state.status == RunStatus.Completed && !h.state.isRunning && h.state.progress == 100
    ensures h.state.message == Some(ProgressMessage(100))
  {
    h := new TaskflowHook();
    h.StartTask("first");
    h.StartTask("second");
    h.Complete(0);
    h.Tick(1);
  }
}
