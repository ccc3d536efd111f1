/**
  The task executor and the keyboard stream on one core as a state machine: one
  transition per queue operation, atomic operation or instruction of the
  executor, with interrupts firing at any point where the interrupt flag is on.
 */
module Executors {
  import opened Options

  /** Capacity of the ready queue and of the scancode queue. */
  const CAPACITY: int := 100

  /** Where the executor stands. */
  datatype Pc =
    | Pop              // run_ready_tasks, about to pop the ready queue
    | Polling(t: int)  // inside the poll of a task other than the keyboard task
    | Create           // keyboard task, first poll: about to create the scancode queue
    | First            // poll_next, about to pop the scancode queue
    | Register         // it was empty, about to register the waker
    | Second           // about to pop once more
    | TakeWaker        // found a scancode after registering, about to clear the waker
    | Idle1            // sleep_if_idle, about to test the ready queue
    | Count            // disable_interrupts, about to increment the disable count
    | Cli              // about to clear the interrupt flag
    | Idle2            // about to test the ready queue again
    | CountHalt        // enable_interrupts_and_hlt, about to decrement the count
    | Halt(was: int)   // about to test the count and `sti; hlt`
    | CountBack        // enable_interrupts, about to decrement the count
    | Sti(was: int)    // about to test the count and `sti`

  /** `pushed` and `yielded` record the scancodes accepted by the handler and those given to the task. */
  datatype Machine = Machine(
    flag: bool, count: int, halted: bool, panicked: bool, pc: Pc,
    ready: seq<int>, tasks: set<int>,
    created: bool, scancodes: seq<int>, waker: Option<int>,
    pushed: seq<int>, yielded: seq<int>)

  datatype Event =
    | Key(code: int)     // keyboard interrupt
    | Timer              // any other interrupt
    | Step               // next operation of the executor
    | Wake(t: int)       // the task being polled wakes a task
    | Finish             // the task being polled completes

  /** The executor just before `run`, with the keyboard task among the spawned ones and interrupts on. */
  predicate Spawned(m: Machine, kbd: int) {
    && m.flag && m.count == 0 && !m.halted && !m.panicked && m.pc == Pop
    && kbd in m.tasks && kbd in m.ready && |m.ready| <= CAPACITY
    && !m.created && m.scancodes == [] && m.waker == None && m.pushed == [] && m.yielded == []
  }

  predicate Enabled(m: Machine, e: Event) {
    && !m.panicked
    && match e
       case Key(_) => m.flag
       case Timer => m.flag
       case Step => !m.halted
       case Wake(_) => !m.halted && m.pc.Polling?
       case Finish => !m.halted && m.pc.Polling?
  }

  /** `TaskWaker::wake_task`: the push panics if the ready queue is full. */
  function WakeTask(m: Machine, t: int): Machine {
    if |m.ready| == CAPACITY then m.(panicked := true) else m.(ready := m.ready + [t])
  }

  /** `add_scancode`, which runs to completion with interrupts off. */
  function AddScancode(m: Machine, code: int): Machine {
    if !m.created then m
    else if |m.scancodes| == CAPACITY then m
    else
      var n := m.(scancodes := m.scancodes + [code], pushed := m.pushed + [code]);
      match n.waker
      case None => n
      case Some(t) => WakeTask(n.(waker := None), t)
  }

  function Yield(m: Machine): Machine
    requires m.scancodes != []
  {
    m.(scancodes := m.scancodes[1..], yielded := m.yielded + [m.scancodes[0]])
  }

  /** One operation of the executor. */
  function Advance(m: Machine, kbd: int): Machine {
    match m.pc
    case Pop =>
      if m.ready == [] then m.(pc := Idle1)
      else
        var t, n := m.ready[0], m.(ready := m.ready[1..]);
        if t !in m.tasks then n
        else if t != kbd then n.(pc := Polling(t))
        else n.(pc := if m.created then First else Create)
    case Polling(_) => m.(pc := Pop)
    case Create => m.(created := true, pc := First)
    case First => if m.scancodes != [] then Yield(m) else m.(pc := Register)
    case Register => m.(waker := Some(kbd), pc := Second)
    case Second => if m.scancodes != [] then Yield(m).(pc := TakeWaker) else m.(pc := Pop)
    case TakeWaker => m.(waker := None, pc := First)
    case Idle1 => m.(pc := if m.ready == [] then Count else Pop)
    case Count => m.(count := m.count + 1, pc := Cli)
    case Cli => m.(flag := false, pc := Idle2)
    case Idle2 => m.(pc := if m.ready == [] then CountHalt else CountBack)
    case CountHalt => m.(count := m.count - 1, pc := Halt(m.count))
    case Halt(was) => if was == 1 then m.(flag := true, halted := true, pc := Pop) else m.(pc := Pop)
    case CountBack => m.(count := m.count - 1, pc := Sti(m.count))
    case Sti(was) => if was == 1 then m.(flag := true, pc := Pop) else m.(pc := Pop)
  }

  function Next(m: Machine, kbd: int, e: Event): Machine
    requires Enabled(m, e)
  {
    match e
    case Key(code) => AddScancode(m.(halted := false), code)
    case Timer => m.(halted := false)
    case Step => Advance(m, kbd)
    case Wake(t) => WakeTask(m, t)
    case Finish => m.(tasks := m.tasks - {m.pc.t}, pc := Pop)
  }

  // ---------- invariant ----------

  /** The keyboard task is being polled. */
  predicate BeingPolled(m: Machine) {
    m.pc.Create? || m.pc.First? || m.pc.Register? || m.pc.Second? || m.pc.TakeWaker?
  }

  /** The disable count and the flag at each point of the executor. */
  predicate FlagOk(m: Machine) {
    match m.pc
    case Cli => m.flag && m.count == 1
    case Idle2 => !m.flag && m.count == 1
    case CountHalt => !m.flag && m.count == 1
    case CountBack => !m.flag && m.count == 1
    case Halt(was) => !m.flag && m.count == 0 && was == 1
    case Sti(was) => !m.flag && m.count == 0 && was == 1
    case _ => m.flag && m.count == 0
  }

  /** A parked keyboard task is queued, or its waker is set and there is nothing to read. */
  predicate ParkedOk(m: Machine, kbd: int) {
    if BeingPolled(m) then m.pc.Second? ==> m.waker == Some(kbd) || kbd in m.ready
    else kbd in m.ready || (m.created && m.waker == Some(kbd) && m.scancodes == [])
  }

  predicate Inv(m: Machine, kbd: int) {
    && FlagOk(m)
    && |m.ready| <= CAPACITY && |m.scancodes| <= CAPACITY
    && kbd in m.tasks
    && (m.waker == None || m.waker == Some(kbd))
    && (!m.created ==> m.scancodes == [] && m.waker == None && m.pushed == [])
    && (m.pc.Polling? ==> m.pc.t != kbd && m.pc.t in m.tasks)
    && (m.pc.Create? ==> !m.created)
    && (m.pc.First? || m.pc.Register? || m.pc.Second? || m.pc.TakeWaker? ==> m.created)
    && (m.pc.CountHalt? || m.pc.Halt? ==> m.ready == [])
    && (m.pc.CountBack? || m.pc.Sti? ==> m.ready != [])
    && (m.halted ==> m.pc == Pop && m.ready == [])
    && m.yielded + m.scancodes == m.pushed
    && (!m.panicked ==> ParkedOk(m, kbd))
  }

  lemma SpawnedInv(m: Machine, kbd: int)
    requires Spawned(m, kbd)
    ensures Inv(m, kbd)
  {
  }

  lemma KeyInv(m: Machine, kbd: int, code: int)
    requires Inv(m, kbd) && Enabled(m, Key(code))
    ensures Inv(Next(m, kbd, Key(code)), kbd)
  {
    if m.created && |m.scancodes| < CAPACITY {
      assert m.yielded + (m.scancodes + [code]) == m.pushed + [code];
    }
  }

  lemma YieldOrder(m: Machine)
    requires m.scancodes != [] && m.yielded + m.scancodes == m.pushed
    ensures Yield(m).yielded + Yield(m).scancodes == m.pushed
  {
    assert m.scancodes == [m.scancodes[0]] + m.scancodes[1..];
  }

  lemma PopInv(m: Machine, kbd: int)
    requires Inv(m, kbd) && Enabled(m, Step) && m.pc.Pop?
    ensures Inv(Advance(m, kbd), kbd)
  {
    if m.ready != [] {
      assert m.ready == [m.ready[0]] + m.ready[1..];
    }
  }

  lemma PollInv(m: Machine, kbd: int)
    requires Inv(m, kbd) && Enabled(m, Step) && BeingPolled(m)
    ensures Inv(Advance(m, kbd), kbd)
  {
    if m.scancodes != [] {
      YieldOrder(m);
    }
  }

  lemma AdvanceInv(m: Machine, kbd: int)
    requires Inv(m, kbd) && Enabled(m, Step)
    ensures Inv(Advance(m, kbd), kbd)
  {
    if m.pc.Pop? {
      PopInv(m, kbd);
    } else if BeingPolled(m) {
      PollInv(m, kbd);
    }
  }

  lemma StepInv(m: Machine, kbd: int, e: Event)
    requires Inv(m, kbd) && Enabled(m, e)
    ensures Inv(Next(m, kbd, e), kbd)
  {
    match e
    case Key(code) => KeyInv(m, kbd, code);
    case Timer =>
    case Step => AdvanceInv(m, kbd);
    case Wake(t) =>
    case Finish =>
  }

  // ---------- whole runs ----------

  predicate LegalRun(m: Machine, kbd: int, es: seq<Event>)
    decreases |es|
  {
    es == [] || (Enabled(m, es[0]) && LegalRun(Next(m, kbd, es[0]), kbd, es[1..]))
  }

  function Run(m: Machine, kbd: int, es: seq<Event>): Machine
    requires LegalRun(m, kbd, es)
    decreases |es|
  {
    if es == [] then m else Run(Next(m, kbd, es[0]), kbd, es[1..])
  }

  lemma {:induction false} RunInv(m: Machine, kbd: int, es: seq<Event>)
    requires Inv(m, kbd) && LegalRun(m, kbd, es)
    ensures Inv(Run(m, kbd, es), kbd)
    decreases |es|
  {
    if es != [] {
      StepInv(m, kbd, es[0]);
      RunInv(Next(m, kbd, es[0]), kbd, es[1..]);
    }
  }

  /**
    No lost wakeup: whatever the interleaving, a halted core has nothing to do.
    The ready queue and the scancode queue are empty, everything accepted has been
    delivered, the waker is set, and interrupts are on so the next key wakes it.
   */
  lemma NoLostWakeup(m: Machine, kbd: int, es: seq<Event>)
    requires Spawned(m, kbd) && LegalRun(m, kbd, es) && Run(m, kbd, es).halted && !Run(m, kbd, es).panicked
    ensures var n := Run(m, kbd, es);
            && n.flag && n.ready == [] && n.created && n.scancodes == [] && n.waker == Some(kbd)
            && n.yielded == n.pushed
  {
    SpawnedInv(m, kbd);
    RunInv(m, kbd, es);
  }

  function Accepted(m: Machine, kbd: int, es: seq<Event>): seq<int>
    requires LegalRun(m, kbd, es)
    decreases |es|
  {
    if es == [] then []
    else
      (if es[0].Key? && m.created && |m.scancodes| != CAPACITY then [es[0].code] else []) +
      Accepted(Next(m, kbd, es[0]), kbd, es[1..])
  }

  lemma {:induction false} PushedIsAccepted(m: Machine, kbd: int, es: seq<Event>)
    requires LegalRun(m, kbd, es)
    ensures Run(m, kbd, es).pushed == m.pushed + Accepted(m, kbd, es)
    decreases |es|
  {
    if es != [] {
      var n := Next(m, kbd, es[0]);
      PushedIsAccepted(n, kbd, es[1..]);
      PushedStep(m, kbd, es[0]);
    }
  }

  lemma PushedStep(m: Machine, kbd: int, e: Event)
    requires Enabled(m, e)
    ensures Next(m, kbd, e).pushed ==
            m.pushed + (if e.Key? && m.created && |m.scancodes| != CAPACITY then [e.code] else [])
  {
  }

  /** Exactly once and in order: what the task has been given, then what is queued, is what the handler accepted. */
  lemma DeliveredInOrder(m: Machine, kbd: int, es: seq<Event>)
    requires Spawned(m, kbd) && LegalRun(m, kbd, es)
    ensures Run(m, kbd, es).yielded + Run(m, kbd, es).scancodes == Accepted(m, kbd, es)
  {
    SpawnedInv(m, kbd);
    RunInv(m, kbd, es);
    PushedIsAccepted(m, kbd, es);
  }

  // ---------- the ready queue ----------

  /** The key is accepted while the waker is set and the keyboard task is past registering it but still running. */
  predicate LateKey(m: Machine, e: Event) {
    e.Key? && m.created && |m.scancodes| != CAPACITY && m.waker.Some? && (m.pc.Second? || m.pc.TakeWaker?)
  }

  /** The wakeups of a run that can lengthen the ready queue for good. */
  function Extra(m: Machine, kbd: int, es: seq<Event>): int
    requires LegalRun(m, kbd, es)
    decreases |es|
  {
    if es == [] then 0
    else (if es[0].Wake? || LateKey(m, es[0]) then 1 else 0) + Extra(Next(m, kbd, es[0]), kbd, es[1..])
  }

  /** Entries of the ready queue, and the one that the keyboard task will still account for. */
  function Load(m: Machine): int {
    |m.ready| + (if BeingPolled(m) then 1 else 0) +
    (if m.waker.Some? && !m.pc.Second? && !m.pc.TakeWaker? then 1 else 0)
  }

  lemma LoadStep(m: Machine, kbd: int, e: Event)
    requires Inv(m, kbd) && Enabled(m, e)
    ensures Load(Next(m, kbd, e)) <= Load(m) + (if e.Wake? || LateKey(m, e) then 1 else 0)
    ensures Next(m, kbd, e).panicked ==> CAPACITY < Load(m) + (if e.Wake? || LateKey(m, e) then 1 else 0)
  {
  }

  lemma {:induction false} LoadRun(m: Machine, kbd: int, es: seq<Event>)
    requires Inv(m, kbd) && LegalRun(m, kbd, es) && Load(m) + Extra(m, kbd, es) <= CAPACITY && !m.panicked
    ensures !Run(m, kbd, es).panicked
    decreases |es|
  {
    if es != [] {
      ExtraNonNegative(Next(m, kbd, es[0]), kbd, es[1..]);
      LoadStep(m, kbd, es[0]);
      StepInv(m, kbd, es[0]);
      LoadRun(Next(m, kbd, es[0]), kbd, es[1..]);
    }
  }

  lemma {:induction false} ExtraNonNegative(m: Machine, kbd: int, es: seq<Event>)
    requires LegalRun(m, kbd, es)
    ensures 0 <= Extra(m, kbd, es)
    decreases |es|
  {
    if es != [] {
      ExtraNonNegative(Next(m, kbd, es[0]), kbd, es[1..]);
    }
  }

  /**
    The ready queue never overflows in a run whose spawned tasks, wakeups by
    tasks and late keys are together no more than its capacity.
   */
  lemma NoOverflow(m: Machine, kbd: int, es: seq<Event>)
    requires Spawned(m, kbd) && LegalRun(m, kbd, es) && |m.ready| + Extra(m, kbd, es) <= CAPACITY
    ensures !Run(m, kbd, es).panicked
  {
    SpawnedInv(m, kbd);
    LoadRun(m, kbd, es);
  }

  predicate KeysAndSteps(es: seq<Event>) {
    forall i :: 0 <= i < |es| ==> es[i].Key? || es[i].Step?
  }

  /** Some run of keys and executor steps alone ends in the panic of a full ready queue. */
  ghost predicate Overflows(m: Machine, kbd: int) {
    exists es :: LegalRun(m, kbd, es) && KeysAndSteps(es) && Run(m, kbd, es).panicked
  }

  lemma OverflowsAfter(m: Machine, kbd: int, e: Event)
    requires Enabled(m, e) && (e.Key? || e.Step?) && Overflows(Next(m, kbd, e), kbd)
    ensures Overflows(m, kbd)
  {
    var n := Next(m, kbd, e);
    var es :| LegalRun(n, kbd, es) && KeysAndSteps(es) && Run(n, kbd, es).panicked;
    var fs := [e] + es;
    assert fs[0] == e && fs[1..] == es;
    assert LegalRun(m, kbd, fs) && Run(m, kbd, fs) == Run(n, kbd, es);
  }

  /** The keyboard task is about to look for a scancode and there is none. */
  predicate Dry(m: Machine) {
    m.pc.First? && m.flag && !m.halted && !m.panicked && m.created && m.scancodes == []
  }

  /**
    One round: the task finds nothing and registers its waker, a key lands, the
    task takes it at once. It is back where it was, with one entry more in the
    ready queue; with the queue full the key panics.
   */
  lemma LateKeyGrows(m: Machine, kbd: int, code: int)
    requires Dry(m) && |m.ready| <= CAPACITY
    ensures var r := Advance(Advance(m, kbd), kbd);
            var k := AddScancode(r, code);
            && Enabled(m, Step) && Enabled(Advance(m, kbd), Step)
            && Enabled(r, Key(code)) && Next(r, kbd, Key(code)) == k
            && (k.panicked <==> |m.ready| == CAPACITY)
            && (|m.ready| < CAPACITY ==>
                && Enabled(k, Step) && Enabled(Advance(k, kbd), Step)
                && var n := Advance(Advance(k, kbd), kbd);
                   Dry(n) && n.ready == m.ready + [kbd] && n.yielded == m.yielded + [code])
  {
  }

  lemma {:induction false} DryOverflows(m: Machine, kbd: int)
    requires Dry(m) && |m.ready| <= CAPACITY
    ensures Overflows(m, kbd)
    decreases CAPACITY - |m.ready|
  {
    LateKeyGrows(m, kbd, 0);
    var r := Advance(Advance(m, kbd), kbd);
    var k := AddScancode(r, 0);
    if |m.ready| == CAPACITY {
      assert LegalRun(k, kbd, []) && Run(k, kbd, []) == k;
    } else {
      DryOverflows(Advance(Advance(k, kbd), kbd), kbd);
      OverflowsAfter(Advance(k, kbd), kbd, Step);
      OverflowsAfter(k, kbd, Step);
    }
    OverflowsAfter(r, kbd, Key(0));
    OverflowsAfter(Advance(m, kbd), kbd, Step);
    OverflowsAfter(m, kbd, Step);
  }

  /** From every start the keyboard alone can fill the ready queue and panic in its handler. */
  lemma KeyboardCanOverflow(m: Machine, kbd: int)
    requires Spawned(m, kbd)
    ensures Overflows(m, kbd)
  {
    StartOverflows(m, kbd);
  }

  lemma {:induction false} StartOverflows(m: Machine, kbd: int)
    requires m.pc.Pop? && m.flag && !m.halted && !m.panicked && !m.created && m.scancodes == []
    requires kbd in m.tasks && kbd in m.ready && |m.ready| <= CAPACITY
    ensures Overflows(m, kbd)
    decreases |m.ready|
  {
    var n := Advance(m, kbd);
    if m.ready[0] == kbd {
      DryOverflows(Advance(n, kbd), kbd);
      OverflowsAfter(n, kbd, Step);
    } else {
      assert m.ready == [m.ready[0]] + m.ready[1..];
      if m.ready[0] in m.tasks {
        StartOverflows(Advance(n, kbd), kbd);
        OverflowsAfter(n, kbd, Step);
      } else {
        StartOverflows(n, kbd);
      }
    }
    OverflowsAfter(m, kbd, Step);
  }

  // ---------- progress ----------

  function Rank(pc: Pc, idle: bool): int {
    match pc
    case Polling(_) => 20
    case TakeWaker => 19
    case Create => 18
    case First => 17
    case Register => 16
    case Second => 15
    case Pop => 8
    case Idle1 => if idle then 7 else 14
    case Count => if idle then 6 else 13
    case Cli => if idle then 5 else 12
    case Idle2 => if idle then 4 else 11
    case CountHalt => 3
    case Halt(_) => 2
    case CountBack => 10
    case Sti(_) => 9
  }

  /** Bounds the operations left until the core halts if nothing more arrives. */
  function Work(m: Machine): int {
    |m.scancodes| * 4000 + |m.ready| * 32 + Rank(m.pc, m.ready == [])
  }

  lemma WorkDecreases(m: Machine, kbd: int)
    requires Inv(m, kbd) && Enabled(m, Step)
    ensures Advance(m, kbd).halted || Work(Advance(m, kbd)) < Work(m)
    ensures 0 <= Work(m) && !Advance(m, kbd).panicked && Advance(m, kbd).pushed == m.pushed
  {
  }

  /** The executor left to itself: no interrupts and no wakeups by other tasks. */
  function Settle(m: Machine, kbd: int): Machine
    requires Inv(m, kbd) && !m.panicked
    decreases if m.halted then 0 else Work(m) + 1
  {
    if m.halted then m
    else
      WorkDecreases(m, kbd);
      AdvanceInv(m, kbd);
      Settle(Advance(m, kbd), kbd)
  }

  /** Left to itself from any reachable state the executor delivers every accepted scancode and then halts. */
  lemma {:induction false} SettlesWithEverythingDelivered(m: Machine, kbd: int)
    requires Inv(m, kbd) && !m.panicked
    ensures var r := Settle(m, kbd);
            r.halted && r.yielded == m.pushed && r.scancodes == [] && r.ready == []
    decreases if m.halted then 0 else Work(m) + 1
  {
    if !m.halted {
      WorkDecreases(m, kbd);
      AdvanceInv(m, kbd);
      SettlesWithEverythingDelivered(Advance(m, kbd), kbd);
    }
  }

  /** A key that finds the core asleep wakes it and is delivered; any other interrupt wakes it too. */
  lemma HaltedKeyIsDelivered(m: Machine, kbd: int, code: int)
    requires Inv(m, kbd) && m.halted && !m.panicked
    ensures Enabled(m, Timer) && !Next(m, kbd, Timer).halted && Enabled(Next(m, kbd, Timer), Step)
    ensures Enabled(m, Key(code)) && !Next(m, kbd, Key(code)).halted && !Next(m, kbd, Key(code)).panicked
    ensures Inv(Next(m, kbd, Key(code)), kbd)
    ensures Settle(Next(m, kbd, Key(code)), kbd).yielded == m.yielded + [code]
  {
    KeyInv(m, kbd, code);
    assert m.yielded + m.scancodes == m.yielded;
    SettlesWithEverythingDelivered(Next(m, kbd, Key(code)), kbd);
  }

  /** The executor turns interrupts off only after it saw an empty ready queue, and halts only with an empty one. */
  lemma SleepsOnlyWhenIdle(m: Machine, kbd: int, e: Event)
    requires Inv(m, kbd) && Enabled(m, e)
    ensures Next(m, kbd, e).pc.Count? && !m.pc.Count? ==> m.ready == []
    ensures Next(m, kbd, e).halted ==> Next(m, kbd, e).ready == []
  {
    StepInv(m, kbd, e);
  }

  // ---------- the order of tasks ----------

  /** The task that is being polled. */
  function PolledTask(pc: Pc, kbd: int): Option<int> {
    match pc
    case Polling(t) => Some(t)
    case Create => Some(kbd)
    case First => Some(kbd)
    case Register => Some(kbd)
    case Second => Some(kbd)
    case TakeWaker => Some(kbd)
    case _ => None
  }

  /** The task id that an event takes off the ready queue. */
  function TakenBy(m: Machine, e: Event): seq<int> {
    if e.Step? && m.pc.Pop? && m.ready != [] then [m.ready[0]] else []
  }

  /** The task id that an event asks to be polled, if there is room for it. */
  function WokenBy(m: Machine, e: Event): seq<int> {
    if |m.ready| == CAPACITY then []
    else
      match e
      case Wake(t) => [t]
      case Key(_) => if m.created && |m.scancodes| != CAPACITY && m.waker.Some? then [m.waker.value] else []
      case _ => []
  }

  /** The task whose poll starts between two states. */
  function PollStarted(m: Machine, n: Machine, kbd: int): seq<int> {
    if PolledTask(m.pc, kbd).None? && PolledTask(n.pc, kbd).Some? then [PolledTask(n.pc, kbd).value] else []
  }

  /** The task that completes in an event. */
  function CompletedBy(m: Machine, e: Event): seq<int> {
    if e.Finish? && m.pc.Polling? then [m.pc.t] else []
  }

  function Taken(m: Machine, kbd: int, es: seq<Event>): seq<int>
    requires LegalRun(m, kbd, es)
    decreases |es|
  {
    if es == [] then [] else TakenBy(m, es[0]) + Taken(Next(m, kbd, es[0]), kbd, es[1..])
  }

  function Woken(m: Machine, kbd: int, es: seq<Event>): seq<int>
    requires LegalRun(m, kbd, es)
    decreases |es|
  {
    if es == [] then [] else WokenBy(m, es[0]) + Woken(Next(m, kbd, es[0]), kbd, es[1..])
  }

  /** The polls of a run, in order. */
  function Polls(m: Machine, kbd: int, es: seq<Event>): seq<int>
    requires LegalRun(m, kbd, es)
    decreases |es|
  {
    if es == [] then []
    else
      var n := Next(m, kbd, es[0]);
      PollStarted(m, n, kbd) + Polls(n, kbd, es[1..])
  }

  /** The ids taken off the queue while their task existed. */
  function TakenLive(m: Machine, kbd: int, es: seq<Event>): seq<int>
    requires LegalRun(m, kbd, es)
    decreases |es|
  {
    if es == [] then [] else Existing(TakenBy(m, es[0]), m.tasks) + TakenLive(Next(m, kbd, es[0]), kbd, es[1..])
  }

  /** The ids whose task exists. */
  function Existing(ids: seq<int>, tasks: set<int>): seq<int> {
    if ids == [] then [] else (if ids[0] in tasks then [ids[0]] else []) + Existing(ids[1..], tasks)
  }

  function Completed(m: Machine, kbd: int, es: seq<Event>): seq<int>
    requires LegalRun(m, kbd, es)
    decreases |es|
  {
    if es == [] then [] else CompletedBy(m, es[0]) + Completed(Next(m, kbd, es[0]), kbd, es[1..])
  }

  lemma ReadyStep(m: Machine, kbd: int, e: Event)
    requires Enabled(m, e)
    ensures TakenBy(m, e) + Next(m, kbd, e).ready == m.ready + WokenBy(m, e)
  {
    if e.Step? && m.pc.Pop? && m.ready != [] {
      assert [m.ready[0]] + m.ready[1..] == m.ready;
    }
  }

  lemma {:induction false} ReadyOrder(m: Machine, kbd: int, es: seq<Event>)
    requires LegalRun(m, kbd, es)
    ensures Taken(m, kbd, es) + Run(m, kbd, es).ready == m.ready + Woken(m, kbd, es)
    decreases |es|
  {
    if es == [] {
      assert [] + m.ready == m.ready + [];
    } else {
      var n := Next(m, kbd, es[0]);
      ReadyStep(m, kbd, es[0]);
      ReadyOrder(n, kbd, es[1..]);
      Chain(TakenBy(m, es[0]), Taken(n, kbd, es[1..]), Run(m, kbd, es).ready,
            m.ready, WokenBy(m, es[0]), Woken(n, kbd, es[1..]), n.ready);
    }
  }

  lemma Chain(a: seq<int>, b: seq<int>, r: seq<int>, q: seq<int>, c: seq<int>, d: seq<int>, mid: seq<int>)
    requires b + r == mid + d && a + mid == q + c
    ensures (a + b) + r == q + (c + d)
  {
    assert (a + b) + r == a + (b + r) == a + (mid + d) == (a + mid) + d == (q + c) + d == q + (c + d);
  }

  /**
    First in, first out: in every run, the ids taken off the ready queue followed by
    those still in it are those spawned followed by those woken, in order.
   */
  lemma TasksInOrder(m: Machine, kbd: int, es: seq<Event>)
    requires Spawned(m, kbd) && LegalRun(m, kbd, es)
    ensures Taken(m, kbd, es) + Run(m, kbd, es).ready == m.ready + Woken(m, kbd, es)
  {
    ReadyOrder(m, kbd, es);
  }

  lemma PollStep(m: Machine, kbd: int, e: Event)
    requires Enabled(m, e)
    ensures PollStarted(m, Next(m, kbd, e), kbd) == Existing(TakenBy(m, e), m.tasks)
  {
    var taken := TakenBy(m, e);
    if taken != [] {
      assert taken[1..] == [];
    }
  }

  /** In every run, a task is polled each time its id is taken off the queue, and only then, if it still exists. */
  lemma {:induction false} PolledExactly(m: Machine, kbd: int, es: seq<Event>)
    requires LegalRun(m, kbd, es)
    ensures Polls(m, kbd, es) == TakenLive(m, kbd, es)
    decreases |es|
  {
    if es != [] {
      PollStep(m, kbd, es[0]);
      PolledExactly(Next(m, kbd, es[0]), kbd, es[1..]);
    }
  }

  /** In every run, exactly the tasks that have completed are gone. */
  lemma {:induction false} TasksStayUntilDone(m: Machine, kbd: int, es: seq<Event>, t: int)
    requires LegalRun(m, kbd, es)
    ensures t in Run(m, kbd, es).tasks <==> t in m.tasks && t !in Completed(m, kbd, es)
    decreases |es|
  {
    if es != [] {
      var n := Next(m, kbd, es[0]);
      TasksStayUntilDone(n, kbd, es[1..], t);
      TaskStep(m, kbd, es[0], t);
    }
  }

  lemma TaskStep(m: Machine, kbd: int, e: Event, t: int)
    requires Enabled(m, e)
    ensures t in Next(m, kbd, e).tasks <==> t in m.tasks && t !in CompletedBy(m, e)
  {
  }

  predicate OnlySteps(es: seq<Event>) {
    forall i :: 0 <= i < |es| ==> es[i].Step?
  }

  /** The executor left to itself is a run of its own steps. */
  lemma {:induction false} SettleIsRun(m: Machine, kbd: int) returns (es: seq<Event>)
    requires Inv(m, kbd) && !m.panicked
    ensures OnlySteps(es) && LegalRun(m, kbd, es) && Run(m, kbd, es) == Settle(m, kbd)
    decreases if m.halted then 0 else Work(m) + 1
  {
    if m.halted {
      es := [];
    } else {
      WorkDecreases(m, kbd);
      AdvanceInv(m, kbd);
      var rest := SettleIsRun(Advance(m, kbd), kbd);
      es := [Step] + rest;
      assert es[0] == Step && es[1..] == rest;
    }
  }

  lemma {:induction false} StepsPoll(m: Machine, kbd: int, es: seq<Event>)
    requires LegalRun(m, kbd, es) && OnlySteps(es)
    ensures Woken(m, kbd, es) == [] && Run(m, kbd, es).tasks == m.tasks
    ensures TakenLive(m, kbd, es) == Existing(Taken(m, kbd, es), m.tasks)
    decreases |es|
  {
    if es != [] {
      assert es[0].Step? && OnlySteps(es[1..]);
      var n := Next(m, kbd, es[0]);
      StepKeepsTasks(m, kbd);
      StepsPoll(n, kbd, es[1..]);
      ExistingConcat(TakenBy(m, es[0]), Taken(n, kbd, es[1..]), m.tasks);
    }
  }

  lemma StepKeepsTasks(m: Machine, kbd: int)
    requires Enabled(m, Step)
    ensures WokenBy(m, Step) == [] && Next(m, kbd, Step).tasks == m.tasks
  {
  }

  lemma ExistingConcat(a: seq<int>, b: seq<int>, tasks: set<int>)
    requires |a| <= 1
    ensures Existing(a + b, tasks) == Existing(a, tasks) + Existing(b, tasks)
  {
    if a == [] {
      assert a + b == b;
    } else {
      assert (a + b)[0] == a[0] && (a + b)[1..] == b && a[1..] == [];
    }
  }

  /** Left to itself from any reachable state the executor polls every queued task that still exists, in order. */
  lemma SettlesWithEveryTaskPolled(m: Machine, kbd: int) returns (es: seq<Event>)
    requires Inv(m, kbd) && !m.panicked
    ensures LegalRun(m, kbd, es) && Run(m, kbd, es) == Settle(m, kbd)
    ensures Polls(m, kbd, es) == Existing(m.ready, m.tasks)
  {
    es := SettleIsRun(m, kbd);
    SettlesWithEverythingDelivered(m, kbd);
    ReadyOrder(m, kbd, es);
    StepsPoll(m, kbd, es);
    PolledExactly(m, kbd, es);
    assert Taken(m, kbd, es) + [] == Taken(m, kbd, es) && m.ready + [] == m.ready;
  }
}
