/**
  One core's interrupt bookkeeping as a state machine: the interrupt flag, the
  disable count, the interrupt depth, and a stack of contexts (the thread and the
  handlers that interrupted it), one transition per atomic operation or instruction.
 */
module CoreLocals {
  import opened TicketLocks

  /** The disable count is a 64-bit counter that wraps around. */
  const COUNTER: int := 0x1_0000_0000_0000_0000

  /** Where a context stands in a lock operation, an interrupt operation, or handler entry and exit. */
  datatype Pc =
    | Ready
    | CountUp(k: int)              // passed the assertion of `lock`, about to increment the disable count
    | Cli(k: int)                  // counted, about to clear the interrupt flag
    | Taking(k: int)               // about to take a ticket
    | Waiting(k: int, c: Call)     // between taking the ticket and owning the lock
    | Unlocking(k: int, c: Call)   // owner cleared, lock not yet passed on
    | CountDown(k: int)            // lock passed on, about to decrement the disable count
    | DisableCli                   // in `disable_interrupts`, counted, about to clear the flag
    | Testing(was: int)            // decremented the count from `was`, about to read the interrupt depth
    | Sti                          // about to set the interrupt flag
    | Entry                        // a handler before it raises the interrupt depth
    | Exit                         // a handler after it lowered the depth, about to IRET
    | Dead(k: int, c: Call)        // panicked with a detected deadlock
    | ReadWait(k: int, c: Call)    // in `read`, spinning on the compare-exchange
    | ReadDown(k: int)             // dropped a read guard, about to decrement the disable count
    | Refused                      // panicked: preemptable lock used in an interrupt

  /**
    `holds` maps the exclusive guards of the context (of ticket locks, and write
    guards of reader-writer locks) to their locks, `reading` maps its read guards to
    theirs, and `explicit` counts its `disable_interrupts` calls.
   */
  datatype Frame = Frame(holds: map<Call, int>, reading: map<Call, int>, explicit: int, pc: Pc, savedFlag: bool)

  datatype Core = Core(flag: bool, count: int, depth: int, stack: seq<Frame>)

  /** A core after boot: interrupts off, one outstanding disable. */
  const BOOTED: Core := Core(false, 1, 0, [Frame(map[], map[], 1, Ready, false)])

  datatype Act =
    | Begin(k: int)
    | Increment
    | ClearFlag
    | Ticket(c: Call)
    | Acquire
    | Deadlock
    | Drop(c: Call)
    | Advanced
    | Decrement
    | Test
    | SetFlag
    | Disable
    | Enable
    | Interrupt
    | IncDepth
    | DecDepth
    | Iret
    | Read(k: int, c: Call)
    | ReadDone
    | DropRead(c: Call)

  function Up(n: int): int {
    if n + 1 == COUNTER then 0 else n + 1
  }

  function Down(n: int): int {
    if n == 0 then COUNTER - 1 else n - 1
  }

  function Top(s: Core): Frame
    requires s.stack != []
  {
    s.stack[|s.stack| - 1]
  }

  function SetTop(s: Core, f: Frame): Core
    requires s.stack != []
  {
    s.(stack := s.stack[|s.stack| - 1 := f])
  }

  function Goto(s: Core, pc: Pc): Core
    requires s.stack != []
  {
    SetTop(s, Top(s).(pc := pc))
  }

  /**
    What a context can do as far as its core is concerned; whether a lock lets it in
    is up to the lock (`Kernels`, `RwKernels`). `pre[k]` says whether lock `k` is
    preemptable. Guards are dropped before a handler returns, and there are fewer
    than 2^64 nested sections.
   */
  predicate Can(s: Core, pre: seq<bool>, a: Act) {
    && s.stack != []
    && var f := Top(s);
       match a
       case Begin(k) => f.pc.Ready? && 0 <= k < |pre|
       case Increment => f.pc.CountUp? && TotalOpen(s.stack, pre) + 1 < COUNTER
       case ClearFlag => f.pc.Cli? || f.pc.DisableCli?
       case Ticket(c) => f.pc.Taking? && c !in f.holds
       case Acquire => f.pc.Waiting?
       case Deadlock => f.pc.Waiting?
       case Drop(c) => f.pc.Ready? && c in f.holds
       case Advanced => f.pc.Unlocking? && 0 <= f.pc.k < |pre|
       case Decrement => f.pc.CountDown? || f.pc.ReadDown?
       case Test => f.pc.Testing?
       case SetFlag => f.pc.Sti?
       case Disable => f.pc.Ready? && TotalOpen(s.stack, pre) + 1 < COUNTER
       case Enable => f.pc.Ready? && f.explicit > 0
       case Interrupt => s.flag
       case IncDepth => f.pc.Entry?
       case DecDepth => f.pc.Ready? && |s.stack| > 1 && f.holds == map[] && f.reading == map[] && f.explicit == 0
       case Iret => f.pc.Exit? && |s.stack| > 1
       case Read(k, c) => f.pc.Ready? && 0 <= k < |pre| && c !in f.reading
       case ReadDone => f.pc.ReadWait?
       case DropRead(c) => f.pc.Ready? && c in f.reading && 0 <= f.reading[c] < |pre|
  }

  function Do(s: Core, pre: seq<bool>, a: Act): Core
    requires Can(s, pre, a)
  {
    var f := Top(s);
    match a
    case Begin(k) => Goto(s, if pre[k] && s.depth > 0 then Refused else if pre[k] then Taking(k) else CountUp(k))
    case Increment => Goto(s.(count := Up(s.count)), Cli(f.pc.k))
    case ClearFlag => Goto(s.(flag := false), if f.pc.Cli? then Taking(f.pc.k) else Ready)
    case Ticket(c) => Goto(s, Waiting(f.pc.k, c))
    case Acquire => SetTop(s, f.(holds := f.holds[f.pc.c := f.pc.k], pc := Ready))
    case Deadlock => Goto(s, Dead(f.pc.k, f.pc.c))
    case Drop(c) => SetTop(s, f.(holds := f.holds - {c}, pc := Unlocking(f.holds[c], c)))
    case Advanced => Goto(s, if pre[f.pc.k] then Ready else CountDown(f.pc.k))
    case Decrement => Goto(s.(count := Down(s.count)), Testing(s.count))
    case Test => Goto(s, if f.pc.was == 1 && s.depth == 0 then Sti else Ready)
    case SetFlag => Goto(s.(flag := true), Ready)
    case Disable => SetTop(s.(count := Up(s.count)), f.(explicit := f.explicit + 1, pc := DisableCli))
    case Enable => SetTop(s.(count := Down(s.count)), f.(explicit := f.explicit - 1, pc := Testing(s.count)))
    case Interrupt => s.(flag := false, stack := s.stack + [Frame(map[], map[], 0, Entry, s.flag)])
    case IncDepth => Goto(s.(depth := s.depth + 1), Ready)
    case DecDepth => Goto(s.(depth := s.depth - 1), Exit)
    case Iret => s.(flag := f.savedFlag, stack := s.stack[..|s.stack| - 1])
    case Read(k, c) => Goto(s, ReadWait(k, c))
    case ReadDone => SetTop(s, f.(reading := f.reading[f.pc.c := f.pc.k], pc := Ready))
    case DropRead(c) =>
      var k := f.reading[c];
      SetTop(s, f.(reading := f.reading - {c}, pc := if pre[k] then Ready else ReadDown(k)))
  }

  // ---------- counting critical sections ----------

  /** Guards of the context on non-preemptable locks. */
  function Pinned(f: Frame, pre: seq<bool>): set<Call> {
    set c | c in f.holds && 0 <= f.holds[c] < |pre| && !pre[f.holds[c]]
  }

  /** Whether the program counter lies inside a counted section without a guard. */
  function Section(pc: Pc, pre: seq<bool>): int {
    match pc
    case Cli(_) => 1
    case CountDown(_) => 1
    case Taking(k) => if 0 <= k < |pre| && !pre[k] then 1 else 0
    case Waiting(k, _) => if 0 <= k < |pre| && !pre[k] then 1 else 0
    case Unlocking(k, _) => if 0 <= k < |pre| && !pre[k] then 1 else 0
    case Dead(k, _) => if 0 <= k < |pre| && !pre[k] then 1 else 0
    case _ => 0
  }

  /** The disable count a context accounts for. */
  function Open(f: Frame, pre: seq<bool>): int {
    f.explicit + |Pinned(f, pre)| + Section(f.pc, pre)
  }

  function TotalOpen(stack: seq<Frame>, pre: seq<bool>): int {
    if stack == [] then 0 else Open(stack[0], pre) + TotalOpen(stack[1..], pre)
  }

  /** At a point where interrupts may be on: nothing counted, or one count whose `cli` is still to come. */
  predicate Quiet(f: Frame, pre: seq<bool>) {
    Open(f, pre) == 0 || (Open(f, pre) == 1 && (f.pc.Cli? || f.pc.DisableCli?))
  }

  predicate FrameOk(f: Frame, pre: seq<bool>) {
    && 0 <= f.explicit
    && (forall c :: c in f.holds ==> 0 <= f.holds[c] < |pre|)
    && (f.pc.DisableCli? ==> f.explicit >= 1)
    && match f.pc
       case CountUp(k) => 0 <= k < |pre| && !pre[k]
       case Cli(k) => 0 <= k < |pre| && !pre[k]
       case CountDown(k) => 0 <= k < |pre| && !pre[k]
       case Taking(k) => 0 <= k < |pre|
       case Waiting(k, c) => 0 <= k < |pre| && c !in f.holds
       case Unlocking(k, c) => 0 <= k < |pre| && c !in f.holds
       case Dead(k, c) => 0 <= k < |pre| && c !in f.holds
       case ReadDown(_) => false
       case _ => true
  }

  /** The thread is running: no handler is active. */
  predicate ThreadOk(s: Core, pre: seq<bool>)
    requires |s.stack| == 1
  {
    var f := s.stack[0];
    && s.depth == 0 && s.count == Open(f, pre)
    && !f.pc.Entry? && !f.pc.Exit? && !f.pc.Refused?
    && (s.flag ==> Quiet(f, pre))
    && (f.pc.Testing? ==> !s.flag && f.pc.was == s.count + 1)
    && (f.pc.Sti? ==> !s.flag && s.count == 0)
    && (Open(f, pre) == 0 && !f.pc.Testing? && !f.pc.Sti? ==> s.flag)
  }

  /** A handler uses non-preemptable locks only. */
  predicate HandlerLocks(f: Frame, pre: seq<bool>) {
    && (forall c :: c in f.holds ==> 0 <= f.holds[c] < |pre| && !pre[f.holds[c]])
    && match f.pc
       case Taking(k) => 0 <= k < |pre| && !pre[k]
       case Waiting(k, _) => 0 <= k < |pre| && !pre[k]
       case Unlocking(k, _) => 0 <= k < |pre| && !pre[k]
       case Dead(k, _) => 0 <= k < |pre| && !pre[k]
       case _ => true
  }

  /** A handler is running on top of the thread it interrupted. */
  predicate HandlerOk(s: Core, pre: seq<bool>)
    requires |s.stack| == 2
  {
    var f, h := s.stack[0], s.stack[1];
    && !s.flag && h.savedFlag
    && s.depth == (if h.pc.Entry? || h.pc.Exit? then 0 else 1)
    && s.count == Open(f, pre) + Open(h, pre)
    && Quiet(f, pre) && !f.pc.Entry? && !f.pc.Exit? && !f.pc.Refused? && !f.pc.Testing? && !f.pc.Sti?
    && !h.pc.Sti? && HandlerLocks(h, pre)
    && (h.pc.Entry? || h.pc.Exit? ==> h.holds == map[] && h.reading == map[] && h.explicit == 0)
  }

  predicate CoreOk(s: Core, pre: seq<bool>) {
    && 1 <= |s.stack| <= 2
    && (forall i :: 0 <= i < |s.stack| ==> FrameOk(s.stack[i], pre))
    && (|s.stack| == 1 ==> ThreadOk(s, pre))
    && (|s.stack| == 2 ==> HandlerOk(s, pre))
  }

  // ---------- every step keeps the discipline ----------

  lemma PinnedAdd(f: Frame, pre: seq<bool>, c: Call, k: int)
    requires c !in f.holds && 0 <= k < |pre|
    ensures |Pinned(f.(holds := f.holds[c := k]), pre)| == |Pinned(f, pre)| + (if pre[k] then 0 else 1)
  {
    var g := f.(holds := f.holds[c := k]);
    if pre[k] {
      assert Pinned(g, pre) == Pinned(f, pre);
    } else {
      assert Pinned(g, pre) == Pinned(f, pre) + {c};
    }
  }

  lemma PinnedRemove(f: Frame, pre: seq<bool>, c: Call)
    requires c in f.holds && 0 <= f.holds[c] < |pre|
    ensures |Pinned(f.(holds := f.holds - {c}), pre)| == |Pinned(f, pre)| - (if pre[f.holds[c]] then 0 else 1)
  {
    var g := f.(holds := f.holds - {c});
    assert g.(holds := g.holds[c := f.holds[c]]) == f by {
      assert g.holds[c := f.holds[c]] == f.holds;
    }
    PinnedAdd(g, pre, c, f.holds[c]);
  }

  /** Guards do not depend on the program counter or the explicit count. */
  lemma PinnedSame(f: Frame, g: Frame, pre: seq<bool>)
    requires f.holds == g.holds
    ensures Pinned(f, pre) == Pinned(g, pre)
  {
  }

  /** A read guard that is dropped is on a preemptable lock. */
  predicate Balanced(s: Core, pre: seq<bool>, a: Act)
    requires Can(s, pre, a)
  {
    a.DropRead? ==> pre[Top(s).reading[a.c]]
  }

  /** By how much an operation changes the number of open sections. */
  function Delta(a: Act): int {
    if a.Increment? || a.Disable? then 1 else if a.Decrement? || a.Enable? then -1 else 0
  }

  lemma TopFrame(s: Core, pre: seq<bool>, a: Act)
    requires s.stack != [] && FrameOk(Top(s), pre) && Can(s, pre, a) && !a.Interrupt? && !a.Iret? && Balanced(s, pre, a)
    ensures var t := Do(s, pre, a);
            && |t.stack| == |s.stack| && FrameOk(Top(t), pre) && Top(t).savedFlag == Top(s).savedFlag
            && (forall i :: 0 <= i < |s.stack| - 1 ==> t.stack[i] == s.stack[i])
            && t.count == (if Delta(a) == 1 then Up(s.count) else if Delta(a) == -1 then Down(s.count) else s.count)
  {
  }

  /** By how much the guards, the explicit sections and the point of the running context change. */
  lemma TopPinned(s: Core, pre: seq<bool>, a: Act)
    requires s.stack != [] && FrameOk(Top(s), pre) && Can(s, pre, a) && !a.Interrupt? && !a.Iret? && Balanced(s, pre, a)
    ensures var t := Do(s, pre, a);
            && t.stack != []
            && |Pinned(Top(t), pre)| - |Pinned(Top(s), pre)| ==
               (if a.Acquire? && !pre[Top(s).pc.k] then 1
                else if a.Drop? && !pre[Top(s).holds[a.c]] then -1 else 0)
  {
    var t, f := Do(s, pre, a), Top(s);
    if a.Acquire? {
      PinnedAdd(f, pre, f.pc.c, f.pc.k);
      PinnedSame(Top(t), f.(holds := f.holds[f.pc.c := f.pc.k]), pre);
    } else if a.Drop? {
      PinnedRemove(f, pre, a.c);
      PinnedSame(Top(t), f.(holds := f.holds - {a.c}), pre);
    } else {
      PinnedSame(Top(t), f, pre);
    }
  }

  /** How the top context changes in one step that neither pushes nor pops. */
  lemma TopStep(s: Core, pre: seq<bool>, a: Act)
    requires s.stack != [] && FrameOk(Top(s), pre) && Can(s, pre, a) && !a.Interrupt? && !a.Iret? && Balanced(s, pre, a)
    ensures var t := Do(s, pre, a);
            && |t.stack| == |s.stack| && FrameOk(Top(t), pre)
            && (forall i :: 0 <= i < |s.stack| - 1 ==> t.stack[i] == s.stack[i])
            && Open(Top(t), pre) - Open(Top(s), pre) == Delta(a)
            && Top(t).savedFlag == Top(s).savedFlag
            && t.count == (if Delta(a) == 1 then Up(s.count) else if Delta(a) == -1 then Down(s.count) else s.count)
  {
    TopFrame(s, pre, a);
    TopPinned(s, pre, a);
  }

  /** The counter does not wrap where the operations are enabled and the count is right. */
  lemma CountStep(s: Core, pre: seq<bool>, a: Act)
    requires s.stack != [] && FrameOk(Top(s), pre) && Can(s, pre, a) && s.count == TotalOpen(s.stack, pre)
    requires Open(Top(s), pre) <= s.count
    ensures Delta(a) == 1 ==> Up(s.count) == s.count + 1
    ensures Delta(a) == -1 ==> Down(s.count) == s.count - 1
  {
    OpenBounds(Top(s), pre);
  }

  lemma TotalOne(f: Frame, pre: seq<bool>)
    ensures TotalOpen([f], pre) == Open(f, pre)
  {
    assert [f][1..] == [];
  }

  lemma TotalTwo(f: Frame, h: Frame, pre: seq<bool>)
    ensures TotalOpen([f, h], pre) == Open(f, pre) + Open(h, pre)
  {
    assert [f, h][1..] == [h];
    TotalOne(h, pre);
  }

  lemma OpenBounds(f: Frame, pre: seq<bool>)
    requires FrameOk(f, pre)
    ensures 0 <= f.explicit <= Open(f, pre) && 0 <= Section(f.pc, pre) <= Open(f, pre)
    ensures |Pinned(f, pre)| <= Open(f, pre)
  {
  }

  lemma ThreadStep(s: Core, pre: seq<bool>, a: Act)
    requires CoreOk(s, pre) && |s.stack| == 1 && Can(s, pre, a) && !a.Interrupt? && Balanced(s, pre, a)
    ensures CoreOk(Do(s, pre, a), pre)
  {
    TopStep(s, pre, a);
    OpenBounds(s.stack[0], pre);
    OpenBounds(Do(s, pre, a).stack[0], pre);
    assert s.stack == [s.stack[0]];
    TotalOne(s.stack[0], pre);
    CountStep(s, pre, a);
  }

  lemma HandlerStep(s: Core, pre: seq<bool>, a: Act)
    requires CoreOk(s, pre) && |s.stack| == 2 && Can(s, pre, a) && !a.Iret? && Balanced(s, pre, a)
    ensures CoreOk(Do(s, pre, a), pre)
  {
    TopStep(s, pre, a);
    var t := Do(s, pre, a);
    OpenBounds(s.stack[1], pre);
    OpenBounds(s.stack[0], pre);
    assert s.stack == [s.stack[0], s.stack[1]];
    TotalTwo(s.stack[0], s.stack[1], pre);
    CountStep(s, pre, a);
    assert t.stack[0] == s.stack[0] && HandlerLocks(t.stack[1], pre);
  }

  lemma EmptyHandler(f: Frame, pre: seq<bool>)
    requires f.holds == map[] && f.explicit == 0 && (f.pc.Entry? || f.pc.Exit?)
    ensures Open(f, pre) == 0
  {
    assert Pinned(f, pre) == {};
  }

  lemma InterruptStep(s: Core, pre: seq<bool>)
    requires CoreOk(s, pre) && Can(s, pre, Interrupt)
    ensures CoreOk(Do(s, pre, Interrupt), pre)
  {
    var t := Do(s, pre, Interrupt);
    EmptyHandler(t.stack[1], pre);
  }

  lemma IretStep(s: Core, pre: seq<bool>)
    requires CoreOk(s, pre) && Can(s, pre, Iret)
    ensures CoreOk(Do(s, pre, Iret), pre)
  {
    EmptyHandler(s.stack[1], pre);
  }

  /** Every atomic operation of every context keeps the discipline, read guards of non-preemptable locks aside. */
  lemma StepOk(s: Core, pre: seq<bool>, a: Act)
    requires CoreOk(s, pre) && Can(s, pre, a) && Balanced(s, pre, a)
    ensures CoreOk(Do(s, pre, a), pre)
  {
    if a.Interrupt? {
      InterruptStep(s, pre);
    } else if a.Iret? {
      IretStep(s, pre);
    } else if |s.stack| == 1 {
      ThreadStep(s, pre, a);
    } else {
      HandlerStep(s, pre, a);
    }
  }

  lemma BootedOk(pre: seq<bool>)
    ensures CoreOk(BOOTED, pre)
  {
    assert Pinned(BOOTED.stack[0], pre) == {};
  }

  predicate LegalRun(s: Core, pre: seq<bool>, acts: seq<Act>)
    decreases |acts|
  {
    acts == [] || (Can(s, pre, acts[0]) && LegalRun(Do(s, pre, acts[0]), pre, acts[1..]))
  }

  function Run(s: Core, pre: seq<bool>, acts: seq<Act>): Core
    requires LegalRun(s, pre, acts)
    decreases |acts|
  {
    if acts == [] then s else Run(Do(s, pre, acts[0]), pre, acts[1..])
  }

  /** Only locks in `readable` are taken for reading. */
  predicate ReadsIn(readable: set<int>, acts: seq<Act>) {
    forall i :: 0 <= i < |acts| && acts[i].Read? ==> acts[i].k in readable
  }

  predicate AllPreemptable(readable: set<int>, pre: seq<bool>) {
    forall k :: k in readable && 0 <= k < |pre| ==> pre[k]
  }

  predicate FrameGuardsIn(f: Frame, readable: set<int>) {
    && (forall c :: c in f.reading ==> f.reading[c] in readable)
    && (f.pc.ReadWait? ==> f.pc.k in readable)
  }

  predicate GuardsIn(s: Core, readable: set<int>) {
    forall j :: 0 <= j < |s.stack| ==> FrameGuardsIn(s.stack[j], readable)
  }

  lemma GuardsStep(s: Core, pre: seq<bool>, a: Act, readable: set<int>)
    requires Can(s, pre, a) && GuardsIn(s, readable) && (a.Read? ==> a.k in readable)
    ensures GuardsIn(Do(s, pre, a), readable)
    ensures AllPreemptable(readable, pre) ==> Balanced(s, pre, a)
  {
    var t, top := Do(s, pre, a), |s.stack| - 1;
    assert FrameGuardsIn(s.stack[top], readable);
    forall j | 0 <= j < |t.stack| ensures FrameGuardsIn(t.stack[j], readable) {
      assert j < top ==> t.stack[j] == s.stack[j];
    }
  }

  /** The discipline holds after every run whose read guards are all on preemptable locks. */
  lemma {:induction false} RunOk(s: Core, pre: seq<bool>, readable: set<int>, acts: seq<Act>)
    requires CoreOk(s, pre) && GuardsIn(s, readable) && AllPreemptable(readable, pre)
    requires LegalRun(s, pre, acts) && ReadsIn(readable, acts)
    ensures CoreOk(Run(s, pre, acts), pre)
    decreases |acts|
  {
    if acts != [] {
      assert acts[0].Read? ==> acts[0].k in readable;
      GuardsStep(s, pre, acts[0], readable);
      StepOk(s, pre, acts[0]);
      assert ReadsIn(readable, acts[1..]);
      RunOk(Do(s, pre, acts[0]), pre, readable, acts[1..]);
    }
  }

  // ---------- what the discipline gives ----------

  /** A context at a quiet point holds no non-preemptable lock and waits for none. */
  lemma QuietHoldsNothing(f: Frame, pre: seq<bool>)
    requires FrameOk(f, pre) && Quiet(f, pre)
    ensures Pinned(f, pre) == {}
    ensures forall c :: c in f.holds ==> 0 <= f.holds[c] < |pre| && pre[f.holds[c]]
    ensures f.pc.Waiting? || f.pc.Unlocking? ==> pre[f.pc.k]
  {
    assert |Pinned(f, pre)| == 0;
    forall c | c in f.holds ensures pre[f.holds[c]] {
      assert c !in Pinned(f, pre);
    }
  }

  /** Interrupts are on only while the thread runs, holds no non-preemptable lock and is not in between having one. */
  predicate Undisturbed(s: Core, pre: seq<bool>) {
    s.flag ==>
      && |s.stack| == 1
      && (forall c :: c in s.stack[0].holds ==> 0 <= s.stack[0].holds[c] < |pre| && pre[s.stack[0].holds[c]])
      && (s.stack[0].pc.Waiting? || s.stack[0].pc.Unlocking? ==> 0 <= s.stack[0].pc.k < |pre| && pre[s.stack[0].pc.k])
  }

  /** With every section of the thread closed and no restore under way, interrupts are on. */
  predicate Restored(s: Core, pre: seq<bool>) {
    |s.stack| == 1 && Open(s.stack[0], pre) == 0 && !s.stack[0].pc.Testing? && !s.stack[0].pc.Sti? ==> s.flag
  }

  lemma CoreOkGives(s: Core, pre: seq<bool>)
    requires CoreOk(s, pre)
    ensures Undisturbed(s, pre) && Restored(s, pre)
  {
    if s.flag {
      QuietHoldsNothing(s.stack[0], pre);
    }
  }

  /** Handlers never preempt a holder, in any run whose read guards are all on preemptable locks. */
  lemma HandlersNeverPreemptHolder(pre: seq<bool>, readable: set<int>, acts: seq<Act>)
    requires LegalRun(BOOTED, pre, acts) && ReadsIn(readable, acts) && AllPreemptable(readable, pre)
    ensures Undisturbed(Run(BOOTED, pre, acts), pre)
  {
    BootedOk(pre);
    RunOk(BOOTED, pre, readable, acts);
    CoreOkGives(Run(BOOTED, pre, acts), pre);
  }

  /** Interrupts are never left off, and the 64-bit count is the number of open sections, in any such run. */
  lemma FlagComesBack(pre: seq<bool>, readable: set<int>, acts: seq<Act>)
    requires LegalRun(BOOTED, pre, acts) && ReadsIn(readable, acts) && AllPreemptable(readable, pre)
    ensures Restored(Run(BOOTED, pre, acts), pre)
    ensures Run(BOOTED, pre, acts).count == TotalOpen(Run(BOOTED, pre, acts).stack, pre)
  {
    BootedOk(pre);
    RunOk(BOOTED, pre, readable, acts);
    var s := Run(BOOTED, pre, acts);
    CoreOkGives(s, pre);
    CountIsTotal(s, pre);
  }

  lemma CountIsTotal(s: Core, pre: seq<bool>)
    requires CoreOk(s, pre)
    ensures s.count == TotalOpen(s.stack, pre)
  {
    if |s.stack| == 1 {
      assert s.stack == [s.stack[0]];
      TotalOne(s.stack[0], pre);
    } else {
      assert s.stack == [s.stack[0], s.stack[1]];
      TotalTwo(s.stack[0], s.stack[1], pre);
    }
  }

  // ---------- what holds in every run, whatever is read ----------

  /** A handler is on its way to, or has, non-preemptable locks only. */
  predicate HandlerPath(f: Frame, pre: seq<bool>) {
    && HandlerLocks(f, pre)
    && (f.pc.CountUp? || f.pc.Cli? ==> 0 <= f.pc.k < |pre| && !pre[f.pc.k])
  }

  /** The contexts of a core and its interrupt depth, without the disable count. */
  predicate Shape(s: Core, pre: seq<bool>) {
    && 1 <= |s.stack| <= 2
    && !s.stack[0].pc.Entry? && !s.stack[0].pc.Exit? && !s.stack[0].pc.Refused?
    && (|s.stack| == 1 ==> s.depth == 0)
    && (|s.stack| == 2 ==>
        var h := s.stack[1];
        && !s.flag && h.savedFlag && !h.pc.Sti? && HandlerPath(h, pre)
        && s.depth == (if h.pc.Entry? || h.pc.Exit? then 0 else 1)
        && (h.pc.Entry? || h.pc.Exit? ==> h.holds == map[] && h.reading == map[]))
  }

  lemma ShapeStep(s: Core, pre: seq<bool>, a: Act)
    requires Shape(s, pre) && Can(s, pre, a)
    ensures Shape(Do(s, pre, a), pre)
  {
  }

  lemma {:induction false} ShapeRun(s: Core, pre: seq<bool>, acts: seq<Act>)
    requires Shape(s, pre) && LegalRun(s, pre, acts)
    ensures Shape(Run(s, pre, acts), pre)
    decreases |acts|
  {
    if acts != [] {
      ShapeStep(s, pre, acts[0]);
      ShapeRun(Do(s, pre, acts[0]), pre, acts[1..]);
    }
  }

  /** The assertion of `lock` stops handlers from using a preemptable lock, and never stops a thread. */
  lemma OnlyHandlersAreRefused(pre: seq<bool>, acts: seq<Act>, i: int)
    requires LegalRun(BOOTED, pre, acts) && 0 <= i < |Run(BOOTED, pre, acts).stack|
    ensures var f := Run(BOOTED, pre, acts).stack[i];
            && (f.pc.Refused? ==> i == 1)
            && (i == 1 ==> forall c :: c in f.holds ==> 0 <= f.holds[c] < |pre| && !pre[f.holds[c]])
  {
    ShapeRun(BOOTED, pre, acts);
  }

  /** Handlers do not nest, and a handler always finds the flag off, in any run. */
  lemma HandlersDoNotNest(pre: seq<bool>, acts: seq<Act>)
    requires LegalRun(BOOTED, pre, acts) && |Run(BOOTED, pre, acts).stack| > 1
    ensures !Run(BOOTED, pre, acts).flag && |Run(BOOTED, pre, acts).stack| == 2
    ensures Run(BOOTED, pre, acts).stack[1].savedFlag
  {
    ShapeRun(BOOTED, pre, acts);
  }
}
