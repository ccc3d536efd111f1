/**
  Cores and reader-writer locks together: any number of cores, every context reading
  and writing under any number of locks, interrupts firing whenever the flag
  allows. Each event is one load, compare-exchange, store or core operation.
  Other locks are left to the cores and let in at any time (`Kernels` has them),
  and read guards need not be on preemptable locks.
 */
module RwKernels {
  import TicketLocks
  import CoreLocals
  import CoreRuns
  import RwLocks
  import Stalls

  type Call = TicketLocks.Call

  /** `rws` holds the reader-writer locks among all locks. */
  datatype Kernel = Kernel(cores: seq<CoreLocals.Core>, rws: map<int, RwLocks.Lock>)

  /** What the running context of a core does next. */
  datatype Move =
    | Other(a: CoreLocals.Act)     // an operation that touches no reader-writer lock
    | TryWrite(k: int)             // `try_lock`: loads the count and goes on to `lock` if it is 0
    | StartWrite(c: Call)
    | Swap
    | DropWrite(c: Call)
    | StartRead(k: int, c: Call)
    | Load
    | Exchange
    | DropRead(c: Call)

  datatype Event = Event(i: int, move: Move)

  function Running(s: Kernel, i: int): CoreLocals.Frame
    requires 0 <= i < |s.cores| && s.cores[i].stack != []
  {
    CoreLocals.Top(s.cores[i])
  }

  /** The operation of the core belongs to a reader-writer lock. */
  predicate Touches(s: Kernel, f: CoreLocals.Frame, a: CoreLocals.Act) {
    match a
    case Ticket(_) => f.pc.Taking? && f.pc.k in s.rws
    case Acquire => f.pc.Waiting? && f.pc.k in s.rws
    case Deadlock => f.pc.Waiting? && f.pc.k in s.rws
    case Drop(c) => c in f.holds && f.holds[c] in s.rws
    case Read(_, _) => true
    case ReadDone => true
    case DropRead(_) => true
    case _ => false
  }

  predicate Owned(c: Call, i: int, level: int) {
    c.core == i && c.level == level
  }

  /** A call identity that the running context can use. */
  predicate Fresh(s: Kernel, i: int, c: Call)
    requires 0 <= i < |s.cores|
  {
    Owned(c, i, |s.cores[i].stack| - 1) && forall k :: k in s.rws ==> c !in s.rws[k].callers
  }

  predicate Enabled(s: Kernel, pre: seq<bool>, e: Event) {
    && 0 <= e.i < |s.cores| && s.cores[e.i].stack != []
    && var core := s.cores[e.i];
       var f := CoreLocals.Top(core);
       match e.move
       case Other(a) => CoreLocals.Can(core, pre, a) && !Touches(s, f, a)
       case TryWrite(k) => f.pc.Ready? && 0 <= k < |pre| && k in s.rws
       case StartWrite(c) =>
         && CoreLocals.Can(core, pre, CoreLocals.Ticket(c)) && f.pc.k in s.rws && Fresh(s, e.i, c)
         && RwLocks.Enabled(s.rws[f.pc.k], RwLocks.StartWrite(c))
       case Swap => f.pc.Waiting? && f.pc.k in s.rws && RwLocks.Enabled(s.rws[f.pc.k], RwLocks.Swap(f.pc.c))
       case DropWrite(c) =>
         && CoreLocals.Can(core, pre, CoreLocals.Drop(c)) && f.holds[c] in s.rws
         && RwLocks.Enabled(s.rws[f.holds[c]], RwLocks.DropWrite(c))
       case StartRead(k, c) =>
         && CoreLocals.Can(core, pre, CoreLocals.Read(k, c)) && k in s.rws && Fresh(s, e.i, c)
         && RwLocks.Enabled(s.rws[k], RwLocks.StartRead(c))
       case Load => f.pc.ReadWait? && f.pc.k in s.rws && RwLocks.Enabled(s.rws[f.pc.k], RwLocks.Load(f.pc.c))
       case Exchange => f.pc.ReadWait? && f.pc.k in s.rws && RwLocks.Enabled(s.rws[f.pc.k], RwLocks.Exchange(f.pc.c))
       case DropRead(c) =>
         && CoreLocals.Can(core, pre, CoreLocals.DropRead(c)) && f.reading[c] in s.rws
         && RwLocks.Enabled(s.rws[f.reading[c]], RwLocks.DropRead(c))
  }

  /** The event changes no reader-writer lock. */
  predicate CoreOnly(m: Move) {
    m.Other? || m.TryWrite?
  }

  /** The lock an event changes, and the step it takes. */
  function LockPart(s: Kernel, pre: seq<bool>, e: Event): (r: (int, RwLocks.Step))
    requires Enabled(s, pre, e) && !CoreOnly(e.move)
    ensures r.0 in s.rws && RwLocks.Enabled(s.rws[r.0], r.1)
  {
    var f := Running(s, e.i);
    match e.move
    case StartWrite(c) => (f.pc.k, RwLocks.StartWrite(c))
    case Swap => (f.pc.k, RwLocks.Swap(f.pc.c))
    case DropWrite(c) => (f.holds[c], RwLocks.DropWrite(c))
    case StartRead(k, c) => (k, RwLocks.StartRead(c))
    case Load => (f.pc.k, RwLocks.Load(f.pc.c))
    case Exchange => (f.pc.k, RwLocks.Exchange(f.pc.c))
    case DropRead(c) => (f.reading[c], RwLocks.DropRead(c))
  }

  /** What the event does to the core: a compare-exchange lets the context on if it succeeds. */
  function CorePart(s: Kernel, pre: seq<bool>, e: Event): CoreLocals.Core
    requires Enabled(s, pre, e)
  {
    var core := s.cores[e.i];
    var f := CoreLocals.Top(core);
    match e.move
    case Other(a) => CoreLocals.Do(core, pre, a)
    case TryWrite(k) => if s.rws[k].count == 0 then CoreLocals.Do(core, pre, CoreLocals.Begin(k)) else core
    case StartWrite(c) => CoreLocals.Do(core, pre, CoreLocals.Ticket(c))
    case Swap => if s.rws[f.pc.k].count == 0 then CoreLocals.Do(core, pre, CoreLocals.Acquire) else core
    case DropWrite(c) => CoreLocals.Do(core, pre, CoreLocals.Drop(c))
    case StartRead(k, c) => CoreLocals.Do(core, pre, CoreLocals.Read(k, c))
    case Load => core
    case Exchange =>
      var l := s.rws[f.pc.k];
      if l.count == l.callers[f.pc.c].seen then CoreLocals.Do(core, pre, CoreLocals.ReadDone) else core
    case DropRead(c) => CoreLocals.Do(core, pre, CoreLocals.DropRead(c))
  }

  function With(s: Kernel, i: int, core: CoreLocals.Core, rws: map<int, RwLocks.Lock>): Kernel
    requires 0 <= i < |s.cores|
  {
    Kernel(s.cores[i := core], rws)
  }

  function Next(s: Kernel, pre: seq<bool>, e: Event): Kernel
    requires Enabled(s, pre, e)
  {
    if CoreOnly(e.move) then With(s, e.i, CorePart(s, pre, e), s.rws)
    else
      var (k, st) := LockPart(s, pre, e);
      With(s, e.i, CorePart(s, pre, e), s.rws[k := RwLocks.Next(s.rws[k], st)])
  }

  // ---------- contexts and locks agree ----------

  /** What the context has to do with lock `k` by call `c`: owns it, reads it, waits to own it, waits to read it. */
  function FrameView(f: CoreLocals.Frame, k: int, c: Call): (bool, bool, bool, bool) {
    (c in f.holds && f.holds[c] == k, c in f.reading && f.reading[c] == k,
     f.pc == CoreLocals.Waiting(k, c), f.pc == CoreLocals.ReadWait(k, c))
  }

  /** What the lock says about the call. */
  function LockView(l: RwLocks.Lock, c: Call): (bool, bool, bool, bool) {
    if c !in l.callers then (false, false, false, false)
    else
      var p := l.callers[c];
      (p.Writing?, p.Reading?, p.Locking?, p.Loading? || p.Loaded?)
  }

  predicate Addressable(s: Kernel, c: Call) {
    0 <= c.core < |s.cores| && 0 <= c.level < |s.cores[c.core].stack|
  }

  predicate CallOk(s: Kernel, k: int, c: Call)
    requires k in s.rws
  {
    if Addressable(s, c) then FrameView(s.cores[c.core].stack[c.level], k, c) == LockView(s.rws[k], c)
    else c !in s.rws[k].callers
  }

  /** A context only has calls of its own, reads reader-writer locks only, and is empty when it comes and goes. */
  predicate FrameOk(ids: set<int>, f: CoreLocals.Frame, i: int, level: int) {
    && (forall c :: c in f.holds && f.holds[c] in ids ==> Owned(c, i, level))
    && (forall c :: c in f.reading ==> f.reading[c] in ids && Owned(c, i, level))
    && (f.pc.Waiting? ==> f.pc.c !in f.holds && (f.pc.k in ids ==> Owned(f.pc.c, i, level)))
    && (f.pc.ReadWait? ==> f.pc.c !in f.reading && f.pc.k in ids && Owned(f.pc.c, i, level))
    && (f.pc.Entry? || f.pc.Exit? ==> f.holds == map[] && f.reading == map[])
  }

  ghost predicate Inv(s: Kernel) {
    && (forall k :: k in s.rws ==> RwLocks.Inv(s.rws[k]))
    && (forall i, j :: 0 <= i < |s.cores| && 0 <= j < |s.cores[i].stack| ==>
          FrameOk(s.rws.Keys, s.cores[i].stack[j], i, j))
    && (forall k, c :: k in s.rws ==> CallOk(s, k, c))
  }

  // ---------- preservation ----------

  /** Nothing but the running context changes. */
  predicate TopOnly(s: CoreLocals.Core, t: CoreLocals.Core) {
    |s.stack| == |t.stack| > 0 && forall j :: 0 <= j < |s.stack| - 1 ==> s.stack[j] == t.stack[j]
  }

  /** Apart from call `c` of lock `k`, the context has the same to do with all reader-writer locks. */
  ghost predicate OneView(ids: set<int>, f: CoreLocals.Frame, g: CoreLocals.Frame, k: int, c: Call) {
    forall m, d :: m in ids && (m != k || d != c) ==> FrameView(f, m, d) == FrameView(g, m, d)
  }

  ghost predicate SameView(ids: set<int>, f: CoreLocals.Frame, g: CoreLocals.Frame) {
    forall m, d :: m in ids ==> FrameView(f, m, d) == FrameView(g, m, d)
  }

  /** A change of the running context that its locks do not see. */
  lemma CoreKeeps(s: Kernel, i: int, core: CoreLocals.Core)
    requires Inv(s) && 0 <= i < |s.cores| && TopOnly(s.cores[i], core)
    requires SameView(s.rws.Keys, CoreLocals.Top(s.cores[i]), CoreLocals.Top(core))
    requires FrameOk(s.rws.Keys, CoreLocals.Top(core), i, |core.stack| - 1)
    ensures Inv(With(s, i, core, s.rws))
  {
    var t := With(s, i, core, s.rws);
    forall n, j | 0 <= n < |t.cores| && 0 <= j < |t.cores[n].stack|
      ensures FrameOk(t.rws.Keys, t.cores[n].stack[j], n, j)
    {
      assert FrameOk(s.rws.Keys, s.cores[n].stack[j], n, j);
    }
    forall k, c | k in t.rws ensures CallOk(t, k, c) {
      assert CallOk(s, k, c);
    }
  }

  /** The step changes the phase of one call. */
  lemma LockOthers(l: RwLocks.Lock, st: RwLocks.Step, d: Call)
    requires RwLocks.Enabled(l, st) && d != st.c
    ensures LockView(RwLocks.Next(l, st), d) == LockView(l, d)
    ensures d in RwLocks.Next(l, st).callers <==> d in l.callers
  {
  }

  lemma CallOkAfter(s: Kernel, i: int, core: CoreLocals.Core, k: int, st: RwLocks.Step, m: int, d: Call)
    requires 0 <= i < |s.cores| && k in s.rws && m in s.rws && CallOk(s, m, d) && RwLocks.Enabled(s.rws[k], st)
    requires TopOnly(s.cores[i], core) && Owned(st.c, i, |core.stack| - 1)
    requires OneView(s.rws.Keys, CoreLocals.Top(s.cores[i]), CoreLocals.Top(core), k, st.c)
    requires FrameView(CoreLocals.Top(core), k, st.c) == LockView(RwLocks.Next(s.rws[k], st), st.c)
    ensures CallOk(With(s, i, core, s.rws[k := RwLocks.Next(s.rws[k], st)]), m, d)
  {
    if d != st.c {
      LockOthers(s.rws[k], st, d);
    }
  }

  /** An event on one call of one lock that keeps the two sides of that call together keeps everything together. */
  lemma LockKeeps(s: Kernel, i: int, core: CoreLocals.Core, k: int, st: RwLocks.Step)
    requires Inv(s) && 0 <= i < |s.cores| && k in s.rws && RwLocks.Enabled(s.rws[k], st)
    requires TopOnly(s.cores[i], core) && Owned(st.c, i, |core.stack| - 1)
    requires OneView(s.rws.Keys, CoreLocals.Top(s.cores[i]), CoreLocals.Top(core), k, st.c)
    requires FrameView(CoreLocals.Top(core), k, st.c) == LockView(RwLocks.Next(s.rws[k], st), st.c)
    requires FrameOk(s.rws.Keys, CoreLocals.Top(core), i, |core.stack| - 1)
    ensures Inv(With(s, i, core, s.rws[k := RwLocks.Next(s.rws[k], st)]))
  {
    var t := With(s, i, core, s.rws[k := RwLocks.Next(s.rws[k], st)]);
    assert t.rws.Keys == s.rws.Keys;
    RwLocks.StepInv(s.rws[k], st);
    forall n, j | 0 <= n < |t.cores| && 0 <= j < |t.cores[n].stack|
      ensures FrameOk(t.rws.Keys, t.cores[n].stack[j], n, j)
    {
      assert FrameOk(s.rws.Keys, s.cores[n].stack[j], n, j);
    }
    forall m, d | m in t.rws ensures CallOk(t, m, d) {
      assert CallOk(s, m, d);
      CallOkAfter(s, i, core, k, st, m, d);
    }
  }

  // ---------- each event ----------

  lemma TopFacts(s: Kernel, i: int)
    requires Inv(s) && 0 <= i < |s.cores| && s.cores[i].stack != []
    ensures FrameOk(s.rws.Keys, Running(s, i), i, |s.cores[i].stack| - 1)
  {
    var j := |s.cores[i].stack| - 1;
    assert FrameOk(s.rws.Keys, s.cores[i].stack[j], i, j);
  }

  lemma TopView(s: Kernel, i: int, k: int, c: Call)
    requires Inv(s) && 0 <= i < |s.cores| && s.cores[i].stack != [] && k in s.rws
    requires Owned(c, i, |s.cores[i].stack| - 1)
    ensures FrameView(Running(s, i), k, c) == LockView(s.rws[k], c)
  {
    assert CallOk(s, k, c);
  }

  /** The context is not waiting for a reader-writer lock. */
  predicate QuietPc(ids: set<int>, pc: CoreLocals.Pc) {
    !pc.ReadWait? && (pc.Waiting? ==> pc.k !in ids)
  }

  /** The two contexts have the same guards on reader-writer locks. */
  ghost predicate SameGuards(ids: set<int>, f: CoreLocals.Frame, g: CoreLocals.Frame) {
    && f.reading == g.reading
    && (forall d :: (d in f.holds && f.holds[d] in ids) <==> (d in g.holds && g.holds[d] in ids))
    && (forall d :: d in f.holds && d in g.holds && f.holds[d] in ids ==> f.holds[d] == g.holds[d])
  }

  lemma QuietView(ids: set<int>, f: CoreLocals.Frame, g: CoreLocals.Frame, i: int, level: int)
    requires QuietPc(ids, f.pc) && QuietPc(ids, g.pc) && SameGuards(ids, f, g) && FrameOk(ids, f, i, level)
    requires g.pc.Waiting? ==> g.pc.c !in g.holds
    requires g.pc.Entry? || g.pc.Exit? ==> g.holds == map[] && g.reading == map[]
    ensures SameView(ids, f, g) && FrameOk(ids, g, i, level)
  {
  }

  lemma Below(core: CoreLocals.Core, pre: seq<bool>, a: CoreLocals.Act)
    requires CoreLocals.Can(core, pre, a) && !a.Interrupt? && !a.Iret?
    ensures TopOnly(core, CoreLocals.Do(core, pre, a))
  {
  }

  lemma OtherGuards(s: Kernel, core: CoreLocals.Core, pre: seq<bool>, a: CoreLocals.Act)
    requires CoreLocals.Can(core, pre, a) && !Touches(s, CoreLocals.Top(core), a) && !a.Interrupt? && !a.Iret?
    requires a.Acquire? ==> CoreLocals.Top(core).pc.c !in CoreLocals.Top(core).holds
    ensures var t := CoreLocals.Do(core, pre, a);
            t.stack != [] && SameGuards(s.rws.Keys, CoreLocals.Top(core), CoreLocals.Top(t))
  {
    var f, g := CoreLocals.Top(core), CoreLocals.Top(CoreLocals.Do(core, pre, a));
    if !a.Acquire? && !a.Drop? {
      assert g.holds == f.holds;
    }
  }

  lemma OtherPc(s: Kernel, core: CoreLocals.Core, pre: seq<bool>, a: CoreLocals.Act)
    requires CoreLocals.Can(core, pre, a) && !Touches(s, CoreLocals.Top(core), a) && !a.Interrupt? && !a.Iret?
    ensures var t := CoreLocals.Do(core, pre, a);
            && QuietPc(s.rws.Keys, CoreLocals.Top(core).pc)
            && t.stack != [] && QuietPc(s.rws.Keys, CoreLocals.Top(t).pc)
            && (CoreLocals.Top(t).pc.Waiting? ==> a.Ticket? && CoreLocals.Top(t).pc.c == a.c)
            && !CoreLocals.Top(t).pc.Entry? && (CoreLocals.Top(t).pc.Exit? ==> a.DecDepth?)
  {
  }

  lemma OtherTop(s: Kernel, core: CoreLocals.Core, pre: seq<bool>, a: CoreLocals.Act, i: int)
    requires CoreLocals.Can(core, pre, a) && !Touches(s, CoreLocals.Top(core), a) && !a.Interrupt? && !a.Iret?
    requires FrameOk(s.rws.Keys, CoreLocals.Top(core), i, |core.stack| - 1)
    ensures TopOnly(core, CoreLocals.Do(core, pre, a))
    ensures SameView(s.rws.Keys, CoreLocals.Top(core), CoreLocals.Top(CoreLocals.Do(core, pre, a)))
    ensures FrameOk(s.rws.Keys, CoreLocals.Top(CoreLocals.Do(core, pre, a)), i, |core.stack| - 1)
  {
    Below(core, pre, a);
    OtherGuards(s, core, pre, a);
    OtherPc(s, core, pre, a);
    var f, g := CoreLocals.Top(core), CoreLocals.Top(CoreLocals.Do(core, pre, a));
    assert a.Ticket? || a.DecDepth? ==> g.holds == f.holds;
    QuietView(s.rws.Keys, f, g, i, |core.stack| - 1);
  }

  lemma InterruptInv(s: Kernel, pre: seq<bool>, i: int)
    requires Inv(s) && 0 <= i < |s.cores| && CoreLocals.Can(s.cores[i], pre, CoreLocals.Interrupt)
    ensures Inv(With(s, i, CoreLocals.Do(s.cores[i], pre, CoreLocals.Interrupt), s.rws))
  {
    var t := With(s, i, CoreLocals.Do(s.cores[i], pre, CoreLocals.Interrupt), s.rws);
    forall n, j | 0 <= n < |t.cores| && 0 <= j < |t.cores[n].stack|
      ensures FrameOk(t.rws.Keys, t.cores[n].stack[j], n, j)
    {
      if j < |s.cores[n].stack| {
        assert FrameOk(s.rws.Keys, s.cores[n].stack[j], n, j);
      }
    }
    forall k, c | k in t.rws ensures CallOk(t, k, c) {
      assert CallOk(s, k, c);
    }
  }

  lemma IretInv(s: Kernel, pre: seq<bool>, i: int)
    requires Inv(s) && 0 <= i < |s.cores| && CoreLocals.Can(s.cores[i], pre, CoreLocals.Iret)
    ensures Inv(With(s, i, CoreLocals.Do(s.cores[i], pre, CoreLocals.Iret), s.rws))
  {
    var t := With(s, i, CoreLocals.Do(s.cores[i], pre, CoreLocals.Iret), s.rws);
    TopFacts(s, i);
    forall n, j | 0 <= n < |t.cores| && 0 <= j < |t.cores[n].stack|
      ensures FrameOk(t.rws.Keys, t.cores[n].stack[j], n, j)
    {
      assert FrameOk(s.rws.Keys, s.cores[n].stack[j], n, j);
    }
    forall k, c | k in t.rws ensures CallOk(t, k, c) {
      assert CallOk(s, k, c);
      assert RwLocks.Inv(s.rws[k]);
    }
  }

  lemma OtherInv(s: Kernel, pre: seq<bool>, i: int, a: CoreLocals.Act)
    requires Inv(s) && 0 <= i < |s.cores| && CoreLocals.Can(s.cores[i], pre, a) && !Touches(s, Running(s, i), a)
    ensures Inv(With(s, i, CoreLocals.Do(s.cores[i], pre, a), s.rws))
  {
    if a.Interrupt? {
      InterruptInv(s, pre, i);
    } else if a.Iret? {
      IretInv(s, pre, i);
    } else {
      TopFacts(s, i);
      OtherTop(s, s.cores[i], pre, a, i);
      CoreKeeps(s, i, CoreLocals.Do(s.cores[i], pre, a));
    }
  }

  /** What is to show of an event on a lock: the running context changes by one call, and agrees with the lock on it. */
  ghost predicate CallMoves(s: Kernel, pre: seq<bool>, e: Event)
    requires Enabled(s, pre, e) && !CoreOnly(e.move)
  {
    var (k, st) := LockPart(s, pre, e);
    var core, j := CorePart(s, pre, e), |s.cores[e.i].stack| - 1;
    && TopOnly(s.cores[e.i], core) && Owned(st.c, e.i, j)
    && OneView(s.rws.Keys, Running(s, e.i), CoreLocals.Top(core), k, st.c)
    && FrameOk(s.rws.Keys, CoreLocals.Top(core), e.i, j)
    && FrameView(CoreLocals.Top(core), k, st.c) == LockView(RwLocks.Next(s.rws[k], st), st.c)
  }

  lemma StartWriteMoves(s: Kernel, pre: seq<bool>, e: Event)
    requires Inv(s) && Enabled(s, pre, e) && e.move.StartWrite?
    ensures CallMoves(s, pre, e)
  {
    TopFacts(s, e.i);
    var (k, st) := LockPart(s, pre, e);
    Below(s.cores[e.i], pre, CoreLocals.Ticket(st.c));
    TopView(s, e.i, k, st.c);
  }

  lemma StartReadMoves(s: Kernel, pre: seq<bool>, e: Event)
    requires Inv(s) && Enabled(s, pre, e) && e.move.StartRead?
    ensures CallMoves(s, pre, e)
  {
    TopFacts(s, e.i);
    var (k, st) := LockPart(s, pre, e);
    Below(s.cores[e.i], pre, CoreLocals.Read(k, st.c));
    TopView(s, e.i, k, st.c);
  }

  lemma AcquiredFrame(ids: set<int>, core: CoreLocals.Core, pre: seq<bool>, i: int)
    requires CoreLocals.Can(core, pre, CoreLocals.Acquire) && FrameOk(ids, CoreLocals.Top(core), i, |core.stack| - 1)
    requires CoreLocals.Top(core).pc.k in ids
    ensures var f, t := CoreLocals.Top(core), CoreLocals.Do(core, pre, CoreLocals.Acquire);
            && TopOnly(core, t) && FrameOk(ids, CoreLocals.Top(t), i, |core.stack| - 1)
            && OneView(ids, f, CoreLocals.Top(t), f.pc.k, f.pc.c)
            && FrameView(CoreLocals.Top(t), f.pc.k, f.pc.c) == (true, FrameView(f, f.pc.k, f.pc.c).1, false, false)
  {
    Below(core, pre, CoreLocals.Acquire);
  }

  lemma SwapMoves(s: Kernel, pre: seq<bool>, e: Event)
    requires Inv(s) && Enabled(s, pre, e) && e.move.Swap?
    ensures CallMoves(s, pre, e)
  {
    TopFacts(s, e.i);
    var f := Running(s, e.i);
    AcquiredFrame(s.rws.Keys, s.cores[e.i], pre, e.i);
    TopView(s, e.i, f.pc.k, f.pc.c);
  }

  lemma ReadFrame(ids: set<int>, core: CoreLocals.Core, pre: seq<bool>, i: int)
    requires CoreLocals.Can(core, pre, CoreLocals.ReadDone) && FrameOk(ids, CoreLocals.Top(core), i, |core.stack| - 1)
    ensures var f, t := CoreLocals.Top(core), CoreLocals.Do(core, pre, CoreLocals.ReadDone);
            && TopOnly(core, t) && FrameOk(ids, CoreLocals.Top(t), i, |core.stack| - 1)
            && OneView(ids, f, CoreLocals.Top(t), f.pc.k, f.pc.c)
            && FrameView(CoreLocals.Top(t), f.pc.k, f.pc.c) == (FrameView(f, f.pc.k, f.pc.c).0, true, false, false)
  {
    Below(core, pre, CoreLocals.ReadDone);
  }

  lemma LoadMoves(s: Kernel, pre: seq<bool>, e: Event)
    requires Inv(s) && Enabled(s, pre, e) && e.move.Load?
    ensures CallMoves(s, pre, e)
  {
    TopFacts(s, e.i);
    var (k, st) := LockPart(s, pre, e);
    TopView(s, e.i, k, st.c);
  }

  lemma ExchangeMoves(s: Kernel, pre: seq<bool>, e: Event)
    requires Inv(s) && Enabled(s, pre, e) && e.move.Exchange?
    ensures CallMoves(s, pre, e)
  {
    TopFacts(s, e.i);
    var f := Running(s, e.i);
    ReadFrame(s.rws.Keys, s.cores[e.i], pre, e.i);
    TopView(s, e.i, f.pc.k, f.pc.c);
  }

  lemma DropWriteMoves(s: Kernel, pre: seq<bool>, e: Event)
    requires Inv(s) && Enabled(s, pre, e) && e.move.DropWrite?
    ensures CallMoves(s, pre, e)
  {
    TopFacts(s, e.i);
    var (k, st) := LockPart(s, pre, e);
    Below(s.cores[e.i], pre, CoreLocals.Drop(st.c));
    TopView(s, e.i, k, st.c);
  }

  lemma DropReadMoves(s: Kernel, pre: seq<bool>, e: Event)
    requires Inv(s) && Enabled(s, pre, e) && e.move.DropRead?
    ensures CallMoves(s, pre, e)
  {
    TopFacts(s, e.i);
    var (k, st) := LockPart(s, pre, e);
    Below(s.cores[e.i], pre, CoreLocals.DropRead(st.c));
    TopView(s, e.i, k, st.c);
    assert RwLocks.Inv(s.rws[k]);
    assert st.c in RwLocks.Readers(s.rws[k]);
  }

  lemma CallMovesInv(s: Kernel, pre: seq<bool>, e: Event)
    requires Inv(s) && Enabled(s, pre, e) && !CoreOnly(e.move) && CallMoves(s, pre, e)
    ensures Inv(Next(s, pre, e))
  {
    var (k, st) := LockPart(s, pre, e);
    LockKeeps(s, e.i, CorePart(s, pre, e), k, st);
  }

  lemma StepInv(s: Kernel, pre: seq<bool>, e: Event)
    requires Inv(s) && Enabled(s, pre, e)
    ensures Inv(Next(s, pre, e))
  {
    match e.move
    case Other(a) => OtherInv(s, pre, e.i, a);
    case TryWrite(k) =>
      if s.rws[k].count == 0 {
        OtherInv(s, pre, e.i, CoreLocals.Begin(k));
      } else {
        assert With(s, e.i, s.cores[e.i], s.rws) == s;
      }
    case StartWrite(_) => StartWriteMoves(s, pre, e); CallMovesInv(s, pre, e);
    case Swap => SwapMoves(s, pre, e); CallMovesInv(s, pre, e);
    case DropWrite(_) => DropWriteMoves(s, pre, e); CallMovesInv(s, pre, e);
    case StartRead(_, _) => StartReadMoves(s, pre, e); CallMovesInv(s, pre, e);
    case Load => LoadMoves(s, pre, e); CallMovesInv(s, pre, e);
    case Exchange => ExchangeMoves(s, pre, e); CallMovesInv(s, pre, e);
    case DropRead(_) => DropReadMoves(s, pre, e); CallMovesInv(s, pre, e);
  }

  // ---------- whole runs ----------

  predicate LegalRun(s: Kernel, pre: seq<bool>, es: seq<Event>)
    decreases |es|
  {
    es == [] || (Enabled(s, pre, es[0]) && LegalRun(Next(s, pre, es[0]), pre, es[1..]))
  }

  function Run(s: Kernel, pre: seq<bool>, es: seq<Event>): Kernel
    requires LegalRun(s, pre, es)
    decreases |es|
  {
    if es == [] then s else Run(Next(s, pre, es[0]), pre, es[1..])
  }

  /** All locks free, all `n` cores just booted; the locks `ids` are reader-writer locks. */
  function Booted(ids: set<int>, n: nat): Kernel {
    Kernel(seq(n, i => CoreLocals.BOOTED), map k | k in ids :: RwLocks.FREE)
  }

  lemma BootedInv(ids: set<int>, n: nat)
    ensures Inv(Booted(ids, n))
  {
    assert RwLocks.Readers(RwLocks.FREE) == {} && RwLocks.Writers(RwLocks.FREE) == {};
  }

  lemma {:induction false} RunInv(s: Kernel, pre: seq<bool>, es: seq<Event>)
    requires Inv(s) && LegalRun(s, pre, es)
    ensures Inv(Run(s, pre, es)) && Run(s, pre, es).rws.Keys == s.rws.Keys
    decreases |es|
  {
    if es != [] {
      StepInv(s, pre, es[0]);
      RunInv(Next(s, pre, es[0]), pre, es[1..]);
    }
  }

  // ---------- one writer or any readers, over all cores and contexts ----------

  /** Context `j` of core `i` has the write guard `c` on lock `k`. */
  predicate Owns(s: Kernel, i: int, j: int, k: int, c: Call) {
    && 0 <= i < |s.cores| && 0 <= j < |s.cores[i].stack|
    && c in s.cores[i].stack[j].holds && s.cores[i].stack[j].holds[c] == k
  }

  /** Context `j` of core `i` has the read guard `c` on lock `k`. */
  predicate Reads(s: Kernel, i: int, j: int, k: int, c: Call) {
    && 0 <= i < |s.cores| && 0 <= j < |s.cores[i].stack|
    && c in s.cores[i].stack[j].reading && s.cores[i].stack[j].reading[c] == k
  }

  lemma OwnsIsWriting(s: Kernel, i: int, j: int, k: int, c: Call)
    requires Inv(s) && k in s.rws && Owns(s, i, j, k, c)
    ensures c in RwLocks.Writers(s.rws[k]) && Owned(c, i, j)
  {
    assert FrameOk(s.rws.Keys, s.cores[i].stack[j], i, j);
    assert CallOk(s, k, c);
  }

  lemma ReadsIsReading(s: Kernel, i: int, j: int, k: int, c: Call)
    requires Inv(s) && k in s.rws && Reads(s, i, j, k, c)
    ensures c in RwLocks.Readers(s.rws[k]) && Owned(c, i, j)
  {
    assert FrameOk(s.rws.Keys, s.cores[i].stack[j], i, j);
    assert CallOk(s, k, c);
  }

  lemma GuardOfCall(s: Kernel, k: int, c: Call)
    requires Inv(s) && k in s.rws
    ensures c in RwLocks.Writers(s.rws[k]) ==> Owns(s, c.core, c.level, k, c)
    ensures c in RwLocks.Readers(s.rws[k]) ==> Reads(s, c.core, c.level, k, c)
  {
    assert CallOk(s, k, c);
  }

  /** Two write guards on a lock, anywhere, are the same guard of the same context. */
  lemma OneWriter(s: Kernel, k: int, i: int, j: int, c: Call, n: int, m: int, d: Call)
    requires Inv(s) && k in s.rws && Owns(s, i, j, k, c) && Owns(s, n, m, k, d)
    ensures c == d && i == n && j == m
  {
    OwnsIsWriting(s, i, j, k, c);
    OwnsIsWriting(s, n, m, k, d);
    assert RwLocks.Inv(s.rws[k]);
    RwLocks.SingleElement(RwLocks.Writers(s.rws[k]), c);
  }

  /** A write guard and a read guard never exist together, anywhere. */
  lemma WriterAlone(s: Kernel, k: int, i: int, j: int, c: Call, n: int, m: int, d: Call)
    requires Inv(s) && k in s.rws && Owns(s, i, j, k, c)
    ensures !Reads(s, n, m, k, d)
  {
    OwnsIsWriting(s, i, j, k, c);
    assert RwLocks.Inv(s.rws[k]);
    if Reads(s, n, m, k, d) {
      ReadsIsReading(s, n, m, k, d);
    }
  }

  /** The guards that contexts have, as the lock counts them. */
  ghost predicate GuardsOf(s: Kernel, k: int, owners: set<Call>, readers: set<Call>) {
    && (forall c :: c in owners <==> exists i, j :: Owns(s, i, j, k, c))
    && (forall c :: c in readers <==> exists i, j :: Reads(s, i, j, k, c))
  }

  lemma GuardsAre(s: Kernel, k: int)
    requires Inv(s) && k in s.rws
    ensures GuardsOf(s, k, RwLocks.Writers(s.rws[k]), RwLocks.Readers(s.rws[k]))
  {
    forall c ensures c in RwLocks.Writers(s.rws[k]) <==> exists i, j :: Owns(s, i, j, k, c) {
      GuardOfCall(s, k, c);
      forall i, j | Owns(s, i, j, k, c) ensures c in RwLocks.Writers(s.rws[k]) {
        OwnsIsWriting(s, i, j, k, c);
      }
    }
    forall c ensures c in RwLocks.Readers(s.rws[k]) <==> exists i, j :: Reads(s, i, j, k, c) {
      GuardOfCall(s, k, c);
      forall i, j | Reads(s, i, j, k, c) ensures c in RwLocks.Readers(s.rws[k]) {
        ReadsIsReading(s, i, j, k, c);
      }
    }
  }

  /**
    In every run of every number of cores: with `owners` and `readers` the guards that
    all contexts of all cores have on a lock, there is one owner and no reader and
    the count is -1, or no owner and the count is the number of readers.
   */
  lemma OneWriterOrReaders(pre: seq<bool>, ids: set<int>, n: nat, es: seq<Event>, k: int)
    returns (owners: set<Call>, readers: set<Call>)
    requires LegalRun(Booted(ids, n), pre, es) && k in ids
    ensures var s := Run(Booted(ids, n), pre, es);
            && k in s.rws && GuardsOf(s, k, owners, readers)
            && if s.rws[k].count == -1 then |owners| == 1 && readers == {}
               else owners == {} && s.rws[k].count == |readers|
  {
    BootedInv(ids, n);
    RunInv(Booted(ids, n), pre, es);
    var s := Run(Booted(ids, n), pre, es);
    owners, readers := RwLocks.Writers(s.rws[k]), RwLocks.Readers(s.rws[k]);
    GuardsAre(s, k);
    assert RwLocks.Inv(s.rws[k]);
  }

  // ---------- who gets in ----------

  /** `lock` finds the count at 0 if and only if no context of any core has a guard on the lock. */
  lemma FreeExactly(s: Kernel, k: int)
    requires Inv(s) && k in s.rws
    ensures s.rws[k].count == 0 <==>
            forall i :: 0 <= i < |s.cores| ==> CoreRuns.NoReader(s.cores[i], k) && CoreRuns.NoWriter(s.cores[i], k)
  {
    OpenExactly(s, k);
    NoReaders(s, k);
    assert RwLocks.Inv(s.rws[k]);
  }

  lemma NoReaders(s: Kernel, k: int)
    requires Inv(s) && k in s.rws
    ensures RwLocks.Readers(s.rws[k]) == {} <==> forall i :: 0 <= i < |s.cores| ==> CoreRuns.NoReader(s.cores[i], k)
  {
    forall c | c in RwLocks.Readers(s.rws[k])
      ensures 0 <= c.core < |s.cores| && !CoreRuns.NoReader(s.cores[c.core], k)
    {
      GuardOfCall(s, k, c);
    }
    forall i, j, c | Reads(s, i, j, k, c) ensures RwLocks.Readers(s.rws[k]) != {} {
      ReadsIsReading(s, i, j, k, c);
    }
    if RwLocks.Readers(s.rws[k]) == {} {
      forall i, j, c | 0 <= i < |s.cores| && 0 <= j < |s.cores[i].stack| && c in s.cores[i].stack[j].reading
        ensures s.cores[i].stack[j].reading[c] != k
      {
        assert !Reads(s, i, j, k, c);
      }
    }
  }

  /** `read` finds the count open if and only if no context of any core owns the lock. */
  lemma OpenExactly(s: Kernel, k: int)
    requires Inv(s) && k in s.rws
    ensures s.rws[k].count >= 0 <==> forall i :: 0 <= i < |s.cores| ==> CoreRuns.NoWriter(s.cores[i], k)
  {
    var ws := RwLocks.Writers(s.rws[k]);
    assert RwLocks.Inv(s.rws[k]);
    assert s.rws[k].count >= 0 <==> ws == {};
    forall c | c in ws ensures 0 <= c.core < |s.cores| && !CoreRuns.NoWriter(s.cores[c.core], k) {
      GuardOfCall(s, k, c);
    }
    forall i, j, c | Owns(s, i, j, k, c) ensures ws != {} {
      OwnsIsWriting(s, i, j, k, c);
    }
    if ws == {} {
      forall i, j, c | 0 <= i < |s.cores| && 0 <= j < |s.cores[i].stack| && c in s.cores[i].stack[j].holds
        ensures s.cores[i].stack[j].holds[c] != k
      {
        assert !Owns(s, i, j, k, c);
      }
    }
  }

  /** `try_lock` gives up, changing nothing, exactly when some context of some core has a guard on the lock. */
  lemma TryWriteExact(s: Kernel, pre: seq<bool>, e: Event)
    requires Inv(s) && Enabled(s, pre, e) && e.move.TryWrite?
    ensures CorePart(s, pre, e).stack != []
    ensures CoreLocals.Top(CorePart(s, pre, e)).pc.Ready? <==>
            exists i, j, c :: Owns(s, i, j, e.move.k, c) || Reads(s, i, j, e.move.k, c)
    ensures CoreLocals.Top(CorePart(s, pre, e)).pc.Ready? ==> Next(s, pre, e) == s
  {
    var k := e.move.k;
    var l := s.rws[k];
    assert RwLocks.Inv(l);
    forall i, j, c | Owns(s, i, j, k, c) || Reads(s, i, j, k, c) ensures l.count != 0 {
      if Owns(s, i, j, k, c) {
        OwnsIsWriting(s, i, j, k, c);
      } else {
        ReadsIsReading(s, i, j, k, c);
      }
    }
    if l.count != 0 {
      SomeGuard(s, k);
      assert With(s, e.i, s.cores[e.i], s.rws) == s;
    }
  }

  lemma SomeGuard(s: Kernel, k: int)
    requires Inv(s) && k in s.rws && s.rws[k].count != 0
    ensures exists i, j, c :: Owns(s, i, j, k, c) || Reads(s, i, j, k, c)
  {
    var l := s.rws[k];
    assert RwLocks.Inv(l);
    if l.count == -1 {
      var c :| c in RwLocks.Writers(l);
      GuardOfCall(s, k, c);
    } else {
      var c :| c in RwLocks.Readers(l);
      GuardOfCall(s, k, c);
    }
  }

  // ---------- stuck handlers ----------

  /** A handler of core `i` waits for a reader-writer lock that its own core has. */
  predicate Stuck(s: Kernel, i: int) {
    && 0 <= i < |s.cores| && !s.cores[i].flag
    && var core := s.cores[i];
       (Stalls.StuckReader(core) || Stalls.StuckWriter(core)) && core.stack[1].pc.k in s.rws
  }

  /** The only operations of a stuck context are loads and compare-exchanges that fail. */
  lemma StuckMoves(s: Kernel, pre: seq<bool>, e: Event)
    requires Inv(s) && Enabled(s, pre, e) && Stuck(s, e.i)
    ensures e.move.Swap? || e.move.Load? || e.move.Exchange?
  {
  }

  lemma StuckFails(s: Kernel, pre: seq<bool>, e: Event)
    requires Inv(s) && Enabled(s, pre, e) && Stuck(s, e.i) && (e.move.Swap? || e.move.Load? || e.move.Exchange?)
    ensures CorePart(s, pre, e) == s.cores[e.i]
  {
    var k := s.cores[e.i].stack[1].pc.k;
    OpenExactly(s, k);
    FreeExactly(s, k);
  }

  lemma StuckStep(s: Kernel, pre: seq<bool>, e: Event, i: int)
    requires Inv(s) && Enabled(s, pre, e) && Stuck(s, i)
    ensures Stuck(Next(s, pre, e), i) && Next(s, pre, e).cores[i] == s.cores[i]
  {
    if e.i == i {
      StuckMoves(s, pre, e);
      StuckFails(s, pre, e);
    }
    assert Next(s, pre, e).rws.Keys == s.rws.Keys;
  }

  /** It waits for ever, whatever the other cores do. */
  lemma {:induction false} StuckForEver(s: Kernel, pre: seq<bool>, es: seq<Event>, i: int)
    requires Inv(s) && LegalRun(s, pre, es) && Stuck(s, i)
    ensures Stuck(Run(s, pre, es), i) && Run(s, pre, es).cores[i] == s.cores[i]
    decreases |es|
  {
    if es != [] {
      StuckStep(s, pre, es[0], i);
      StepInv(s, pre, es[0]);
      StuckForEver(Next(s, pre, es[0]), pre, es[1..], i);
    }
  }

  // ---------- every lock by itself ----------

  /** What an event does to lock `k`: one step or nothing. */
  function StepOn(s: Kernel, pre: seq<bool>, e: Event, k: int): seq<RwLocks.Step>
    requires Enabled(s, pre, e)
  {
    if !CoreOnly(e.move) && LockPart(s, pre, e).0 == k then [LockPart(s, pre, e).1] else []
  }

  /** The steps of a whole run on lock `k`. */
  function StepsOn(s: Kernel, pre: seq<bool>, es: seq<Event>, k: int): seq<RwLocks.Step>
    requires LegalRun(s, pre, es)
    decreases |es|
  {
    if es == [] then [] else StepOn(s, pre, es[0], k) + StepsOn(Next(s, pre, es[0]), pre, es[1..], k)
  }

  /** Seen from one reader-writer lock every run of the machine is a run of that lock alone. */
  lemma {:induction false} LockRuns(s: Kernel, pre: seq<bool>, es: seq<Event>, k: int)
    requires LegalRun(s, pre, es) && k in s.rws
    ensures k in Run(s, pre, es).rws
    ensures RwLocks.LegalRun(s.rws[k], StepsOn(s, pre, es, k))
    ensures RwLocks.Run(s.rws[k], StepsOn(s, pre, es, k)) == Run(s, pre, es).rws[k]
    decreases |es|
  {
    if es != [] {
      var t := Next(s, pre, es[0]);
      var rest := StepsOn(t, pre, es[1..], k);
      LockRuns(t, pre, es[1..], k);
      if !CoreOnly(es[0].move) && LockPart(s, pre, es[0]).0 == k {
        var st := LockPart(s, pre, es[0]).1;
        assert ([st] + rest)[0] == st && ([st] + rest)[1..] == rest;
      } else {
        assert [] + rest == rest;
      }
    }
  }
}
