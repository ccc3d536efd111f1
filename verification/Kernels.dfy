/**
  Cores and locks together: any number of cores and locks, every context running
  any sequence of lock and unlock calls, interrupts firing whenever the flag allows.
  Each event is one atomic operation. The first locks are ticket locks; the
  further ones are reader-writer locks, seen from the core's side only and let in
  at any time (`RwKernels` adds the locks themselves). Read guards are on
  preemptable locks (`ReadGuards` shows that this is needed).
 */
module Kernels {
  import opened TicketLocks
  import CoreLocals

  datatype Kernel = Kernel(locks: seq<Lock>, cores: seq<CoreLocals.Core>)

  /** What the running context of a core does next. */
  datatype Move =
    | Local(a: CoreLocals.Act)   // an operation on core state only
    | TryBegin(k: int)           // `try_lock`: loads `owner` and goes on to `lock` if it is free
    | TakeTicket(c: Call)
    | PollTicket
    | CheckOwner
    | StoreOwner
    | ClearOwner(c: Call)
    | PassOn
    | Rw(a: CoreLocals.Act)      // taking or releasing a reader-writer lock for writing

  datatype Event = Event(i: int, move: Move)

  /** Operations that touch no lock. */
  predicate IsLocal(a: CoreLocals.Act) {
    !a.Ticket? && !a.Acquire? && !a.Deadlock? && !a.Drop? && !a.Advanced?
  }

  /** The lock a write-side operation of the running context is about. */
  function RwIndex(f: CoreLocals.Frame, a: CoreLocals.Act): int {
    match a
    case Ticket(_) => if f.pc.Taking? then f.pc.k else -1
    case Acquire => if f.pc.Waiting? then f.pc.k else -1
    case Drop(c) => if c in f.holds then f.holds[c] else -1
    case Advanced => if f.pc.Unlocking? then f.pc.k else -1
    case _ => -1
  }

  /** A call identity that the context can use: its own, and not in use with any lock. */
  predicate FreshCall(s: Kernel, i: int, c: Call)
    requires 0 <= i < |s.cores|
  {
    c.core == i && c.level == |s.cores[i].stack| - 1 && forall k :: 0 <= k < |s.locks| ==> c !in s.locks[k].calls
  }

  function Running(s: Kernel, i: int): CoreLocals.Frame
    requires 0 <= i < |s.cores| && s.cores[i].stack != []
  {
    CoreLocals.Top(s.cores[i])
  }

  predicate ValidPc(s: Kernel, pc: CoreLocals.Pc) {
    (pc.Taking? || pc.Waiting? || pc.Unlocking?) && 0 <= pc.k < |s.locks|
  }

  predicate Enabled(s: Kernel, pre: seq<bool>, e: Event) {
    && 0 <= e.i < |s.cores| && s.cores[e.i].stack != []
    && var core := s.cores[e.i];
       var f := CoreLocals.Top(core);
       match e.move
       case Local(a) =>
         && IsLocal(a) && CoreLocals.Can(core, pre, a) && CoreLocals.Balanced(core, pre, a)
         && (a.Read? ==> |s.locks| <= a.k)
       case TryBegin(k) => f.pc.Ready? && 0 <= k < |pre| && k < |s.locks|
       case TakeTicket(c) =>
         && f.pc.Taking? && ValidPc(s, f.pc) && FreshCall(s, e.i, c)
         && TicketLocks.Enabled(s.locks[f.pc.k], Take(c)) && CoreLocals.Can(core, pre, CoreLocals.Ticket(c))
       case PollTicket => f.pc.Waiting? && ValidPc(s, f.pc) && TicketLocks.Enabled(s.locks[f.pc.k], Poll(f.pc.c))
       case CheckOwner => f.pc.Waiting? && ValidPc(s, f.pc) && TicketLocks.Enabled(s.locks[f.pc.k], Check(f.pc.c))
       case StoreOwner => f.pc.Waiting? && ValidPc(s, f.pc) && TicketLocks.Enabled(s.locks[f.pc.k], Enter(f.pc.c))
       case ClearOwner(c) =>
         && CoreLocals.Can(core, pre, CoreLocals.Drop(c)) && 0 <= f.holds[c] < |s.locks|
         && TicketLocks.Enabled(s.locks[f.holds[c]], Clear(c))
       case PassOn =>
         && f.pc.Unlocking? && ValidPc(s, f.pc) && CoreLocals.Can(core, pre, CoreLocals.Advanced)
         && TicketLocks.Enabled(s.locks[f.pc.k], Advance(f.pc.c))
       case Rw(a) =>
         && CoreLocals.Can(core, pre, a) && |s.locks| <= RwIndex(f, a)
         && (a.Ticket? ==> FreshCall(s, e.i, a.c))
  }

  /** The event leaves all ticket locks alone. */
  predicate CoreOnly(m: Move) {
    m.Local? || m.TryBegin? || m.Rw?
  }

  function WithCore(s: Kernel, i: int, core: CoreLocals.Core): Kernel
    requires 0 <= i < |s.cores|
  {
    s.(cores := s.cores[i := core])
  }

  function WithBoth(s: Kernel, i: int, core: CoreLocals.Core, k: int, l: Lock): Kernel
    requires 0 <= i < |s.cores| && 0 <= k < |s.locks|
  {
    Kernel(s.locks[k := l], s.cores[i := core])
  }

  /** The lock operation of an event, if it has one: the lock and the step. */
  function LockPart(s: Kernel, pre: seq<bool>, e: Event): (int, Step)
    requires Enabled(s, pre, e) && !CoreOnly(e.move)
  {
    var f := Running(s, e.i);
    match e.move
    case TakeTicket(c) => (f.pc.k, Take(c))
    case PollTicket => (f.pc.k, Poll(f.pc.c))
    case CheckOwner => (f.pc.k, Check(f.pc.c))
    case StoreOwner => (f.pc.k, Enter(f.pc.c))
    case ClearOwner(c) => (f.holds[c], Clear(c))
    case PassOn => (f.pc.k, Advance(f.pc.c))
  }

  /** What the same event does to the core. */
  function CorePart(s: Kernel, pre: seq<bool>, e: Event): CoreLocals.Core
    requires Enabled(s, pre, e)
  {
    var core := s.cores[e.i];
    var f := CoreLocals.Top(core);
    match e.move
    case Local(a) => CoreLocals.Do(core, pre, a)
    case TryBegin(k) => if s.locks[k].owner == NO_OWNER then CoreLocals.Do(core, pre, CoreLocals.Begin(k)) else core
    case TakeTicket(c) => CoreLocals.Do(core, pre, CoreLocals.Ticket(c))
    case PollTicket => core
    case CheckOwner =>
      if SeesItself(s.locks[f.pc.k], f.pc.c) then CoreLocals.Do(core, pre, CoreLocals.Deadlock) else core
    case StoreOwner => CoreLocals.Do(core, pre, CoreLocals.Acquire)
    case ClearOwner(c) => CoreLocals.Do(core, pre, CoreLocals.Drop(c))
    case PassOn => CoreLocals.Do(core, pre, CoreLocals.Advanced)
    case Rw(a) => CoreLocals.Do(core, pre, a)
  }

  function Next(s: Kernel, pre: seq<bool>, e: Event): Kernel
    requires Enabled(s, pre, e)
  {
    if CoreOnly(e.move) then WithCore(s, e.i, CorePart(s, pre, e))
    else
      var (k, st) := LockPart(s, pre, e);
      WithBoth(s, e.i, CorePart(s, pre, e), k, TicketLocks.Next(s.locks[k], st))
  }

  // ---------- contexts and calls agree ----------

  /** The context that made call `c` exists. */
  predicate Addressable(s: Kernel, c: Call) {
    0 <= c.core < |s.cores| && 0 <= c.level < |s.cores[c.core].stack|
  }

  /** The context `f` is where the lock says its call `c` is. */
  predicate Matched(f: CoreLocals.Frame, l: Lock, k: int, c: Call) {
    && ((c in f.holds && f.holds[c] == k) <==> (c in l.calls && l.calls[c].Holding?))
    && (f.pc == CoreLocals.Waiting(k, c) <==>
        (c in l.calls && (l.calls[c].Spinning? || l.calls[c].Checking? || l.calls[c].Granted?)))
    && (f.pc == CoreLocals.Unlocking(k, c) <==> (c in l.calls && l.calls[c].Releasing?))
    && (f.pc == CoreLocals.Dead(k, c) <==> (c in l.calls && l.calls[c].Panicked?))
  }

  predicate CallOk(s: Kernel, k: int, c: Call)
    requires 0 <= k < |s.locks|
  {
    if Addressable(s, c) then Matched(s.cores[c.core].stack[c.level], s.locks[k], k, c)
    else c !in s.locks[k].calls
  }

  /** A context only has calls of its own. */
  predicate OwnCalls(f: CoreLocals.Frame, i: int, level: int) {
    && (forall c :: c in f.holds ==> c.core == i && c.level == level)
    && (f.pc.Waiting? || f.pc.Unlocking? || f.pc.Dead? ==> f.pc.c.core == i && f.pc.c.level == level)
  }

  ghost predicate Inv(s: Kernel, pre: seq<bool>) {
    && |s.locks| <= |pre| && |s.cores| <= 256
    && (forall i :: 0 <= i < |s.cores| ==> CoreLocals.CoreOk(s.cores[i], pre))
    && (forall k :: 0 <= k < |s.locks| ==> TicketLocks.Inv(s.locks[k]))
    && (forall i, j :: 0 <= i < |s.cores| && 0 <= j < |s.cores[i].stack| ==> OwnCalls(s.cores[i].stack[j], i, j))
    && (forall k, c :: 0 <= k < |s.locks| ==> CallOk(s, k, c))
  }

  // ---------- preservation ----------

  predicate CallPc(pc: CoreLocals.Pc) {
    pc.Waiting? || pc.Unlocking? || pc.Dead?
  }

  /** The two contexts have the same guards and the same call under way. */
  predicate SameCalls(f: CoreLocals.Frame, g: CoreLocals.Frame) {
    f.holds == g.holds && (f.pc == g.pc || (!CallPc(f.pc) && !CallPc(g.pc)))
  }

  predicate SameFrames(s: CoreLocals.Core, t: CoreLocals.Core) {
    |s.stack| == |t.stack| && forall j :: 0 <= j < |s.stack| ==> SameCalls(s.stack[j], t.stack[j])
  }

  lemma LocalFrames(s: CoreLocals.Core, pre: seq<bool>, a: CoreLocals.Act)
    requires CoreLocals.Can(s, pre, a) && IsLocal(a) && !a.Interrupt? && !a.Iret?
    ensures SameFrames(s, CoreLocals.Do(s, pre, a))
  {
    LocalBelow(s, pre, a);
    LocalTop(s, pre, a);
    var t := CoreLocals.Do(s, pre, a);
    forall j | 0 <= j < |s.stack| ensures SameCalls(s.stack[j], t.stack[j]) {
    }
  }

  lemma LocalBelow(s: CoreLocals.Core, pre: seq<bool>, a: CoreLocals.Act)
    requires CoreLocals.Can(s, pre, a) && !a.Interrupt? && !a.Iret?
    ensures TopOnly(s, CoreLocals.Do(s, pre, a))
  {
  }

  lemma LocalHolds(s: CoreLocals.Core, pre: seq<bool>, a: CoreLocals.Act)
    requires CoreLocals.Can(s, pre, a) && IsLocal(a) && !a.Interrupt? && !a.Iret?
    ensures var t := CoreLocals.Do(s, pre, a); t.stack != [] && CoreLocals.Top(t).holds == CoreLocals.Top(s).holds
  {
  }

  lemma LocalPc(s: CoreLocals.Core, pre: seq<bool>, a: CoreLocals.Act)
    requires CoreLocals.Can(s, pre, a) && IsLocal(a) && !a.Interrupt? && !a.Iret?
    ensures var t := CoreLocals.Do(s, pre, a); t.stack != [] && !CallPc(CoreLocals.Top(t).pc)
  {
  }

  lemma LocalTop(s: CoreLocals.Core, pre: seq<bool>, a: CoreLocals.Act)
    requires CoreLocals.Can(s, pre, a) && IsLocal(a) && !a.Interrupt? && !a.Iret?
    ensures var t := CoreLocals.Do(s, pre, a); t.stack != [] && SameCalls(CoreLocals.Top(s), CoreLocals.Top(t))
  {
    LocalHolds(s, pre, a);
    LocalPc(s, pre, a);
    assert !CallPc(CoreLocals.Top(s).pc);
  }

  lemma StepLock(l: Lock, st: Step)
    requires TicketLocks.Inv(l) && TicketLocks.Enabled(l, st)
    ensures TicketLocks.Inv(TicketLocks.Next(l, st))
  {
    var q :| Queue(l, q);
    StepQueue(l, q, st);
  }

  /** A core-only event that keeps every context's calls keeps the agreement. */
  lemma SameFramesInv(s: Kernel, pre: seq<bool>, i: int, core: CoreLocals.Core)
    requires Inv(s, pre) && 0 <= i < |s.cores| && SameFrames(s.cores[i], core) && CoreLocals.CoreOk(core, pre)
    ensures Inv(WithCore(s, i, core), pre)
  {
    var t := WithCore(s, i, core);
    forall n, j | 0 <= n < |t.cores| && 0 <= j < |t.cores[n].stack| ensures OwnCalls(t.cores[n].stack[j], n, j) {
      assert OwnCalls(s.cores[n].stack[j], n, j);
      assert n == i ==> SameCalls(s.cores[i].stack[j], core.stack[j]);
    }
    forall k, c | 0 <= k < |t.locks| ensures CallOk(t, k, c) {
      assert CallOk(s, k, c);
      assert c.core == i && 0 <= c.level < |core.stack| ==> SameCalls(s.cores[i].stack[c.level], core.stack[c.level]);
    }
  }

  lemma InterruptInv(s: Kernel, pre: seq<bool>, i: int)
    requires Inv(s, pre) && 0 <= i < |s.cores| && CoreLocals.Can(s.cores[i], pre, CoreLocals.Interrupt)
    ensures Inv(WithCore(s, i, CoreLocals.Do(s.cores[i], pre, CoreLocals.Interrupt)), pre)
  {
    CoreLocals.StepOk(s.cores[i], pre, CoreLocals.Interrupt);
    var t := WithCore(s, i, CoreLocals.Do(s.cores[i], pre, CoreLocals.Interrupt));
    forall n, j | 0 <= n < |t.cores| && 0 <= j < |t.cores[n].stack| ensures OwnCalls(t.cores[n].stack[j], n, j) {
      if j < |s.cores[n].stack| {
        assert OwnCalls(s.cores[n].stack[j], n, j);
      }
    }
    forall k, c | 0 <= k < |t.locks| ensures CallOk(t, k, c) {
      assert CallOk(s, k, c);
    }
  }

  lemma IretInv(s: Kernel, pre: seq<bool>, i: int)
    requires Inv(s, pre) && 0 <= i < |s.cores| && CoreLocals.Can(s.cores[i], pre, CoreLocals.Iret)
    ensures Inv(WithCore(s, i, CoreLocals.Do(s.cores[i], pre, CoreLocals.Iret)), pre)
  {
    CoreLocals.StepOk(s.cores[i], pre, CoreLocals.Iret);
    var t := WithCore(s, i, CoreLocals.Do(s.cores[i], pre, CoreLocals.Iret));
    assert CoreLocals.HandlerOk(s.cores[i], pre);
    forall n, j | 0 <= n < |t.cores| && 0 <= j < |t.cores[n].stack| ensures OwnCalls(t.cores[n].stack[j], n, j) {
      assert OwnCalls(s.cores[n].stack[j], n, j);
    }
    forall k, c | 0 <= k < |t.locks| ensures CallOk(t, k, c) {
      assert CallOk(s, k, c);
    }
  }

  /** What a lock event changes: one call of one lock, and the context that made it. */
  ghost predicate OneCall(f: CoreLocals.Frame, g: CoreLocals.Frame, k: int, c: Call) {
    && (forall d :: d != c ==>
          (d in f.holds <==> d in g.holds) && (d in f.holds && d in g.holds ==> f.holds[d] == g.holds[d]))
    && (c in f.holds ==> f.holds[c] == k) && (c in g.holds ==> g.holds[c] == k)
    && (CallPc(f.pc) ==> f.pc.k == k && f.pc.c == c)
    && (CallPc(g.pc) ==> g.pc.k == k && g.pc.c == c)
  }

  ghost predicate OneCallOfLock(l: Lock, m: Lock, c: Call) {
    forall d :: d != c ==>
      (d in l.calls <==> d in m.calls) && (d in l.calls && d in m.calls ==> l.calls[d] == m.calls[d])
  }

  lemma LockOthers(l: Lock, st: Step)
    requires TicketLocks.Enabled(l, st)
    ensures OneCallOfLock(l, TicketLocks.Next(l, st), st.c)
  {
  }

  predicate TopOnly(s: CoreLocals.Core, t: CoreLocals.Core) {
    |s.stack| == |t.stack| > 0 && forall j :: 0 <= j < |s.stack| - 1 ==> s.stack[j] == t.stack[j]
  }

  lemma MatchedOther(f: CoreLocals.Frame, g: CoreLocals.Frame, l: Lock, l': Lock, m: int, d: Call, k: int, c: Call)
    requires OneCall(f, g, k, c) && Matched(f, l, m, d) && (m != k || d != c)
    requires if m == k then OneCallOfLock(l, l', c) else l' == l
    ensures Matched(g, l', m, d)
  {
  }

  lemma CallOkAfter(s: Kernel, i: int, core: CoreLocals.Core, k: int, l: Lock, c: Call, m: int, d: Call)
    requires 0 <= i < |s.cores| && 0 <= k < |s.locks| && 0 <= m < |s.locks| && CallOk(s, m, d)
    requires TopOnly(s.cores[i], core) && c.core == i && c.level == |core.stack| - 1
    requires OneCall(CoreLocals.Top(s.cores[i]), CoreLocals.Top(core), k, c) && OneCallOfLock(s.locks[k], l, c)
    requires Matched(CoreLocals.Top(core), l, k, c)
    ensures CallOk(WithBoth(s, i, core, k, l), m, d)
  {
    if d.core == i && d.level == |core.stack| - 1 {
      if m != k || d != c {
        var l' := WithBoth(s, i, core, k, l).locks[m];
        MatchedOther(CoreLocals.Top(s.cores[i]), CoreLocals.Top(core), s.locks[m], l', m, d, k, c);
      }
    } else {
      assert m == k ==> (d in s.locks[k].calls <==> d in l.calls);
    }
  }

  lemma OwnCallsAfter(f: CoreLocals.Frame, g: CoreLocals.Frame, k: int, c: Call, i: int, j: int)
    requires OneCall(f, g, k, c) && OwnCalls(f, i, j) && c.core == i && c.level == j
    ensures OwnCalls(g, i, j)
  {
    forall d | d in g.holds ensures d.core == i && d.level == j {
      assert d != c ==> d in f.holds;
    }
  }

  lemma AllOwnCalls(s: Kernel, pre: seq<bool>, i: int, core: CoreLocals.Core, k: int, c: Call)
    requires Inv(s, pre) && 0 <= i < |s.cores|
    requires TopOnly(s.cores[i], core) && c.core == i && c.level == |core.stack| - 1
    requires OneCall(CoreLocals.Top(s.cores[i]), CoreLocals.Top(core), k, c)
    ensures var cores := s.cores[i := core];
            forall n, j :: 0 <= n < |cores| && 0 <= j < |cores[n].stack| ==> OwnCalls(cores[n].stack[j], n, j)
  {
    var cores := s.cores[i := core];
    forall n, j | 0 <= n < |cores| && 0 <= j < |cores[n].stack| ensures OwnCalls(cores[n].stack[j], n, j) {
      assert OwnCalls(s.cores[n].stack[j], n, j);
      if n == i && j == |core.stack| - 1 {
        OwnCallsAfter(s.cores[i].stack[j], core.stack[j], k, c, i, j);
      }
    }
  }

  /** An event on one call of one lock that keeps the two sides of that call together keeps everything together. */
  lemma LockEventInv(s: Kernel, pre: seq<bool>, i: int, core: CoreLocals.Core, k: int, l: Lock, c: Call)
    requires Inv(s, pre) && 0 <= i < |s.cores| && 0 <= k < |s.locks|
    requires CoreLocals.CoreOk(core, pre) && TicketLocks.Inv(l)
    requires TopOnly(s.cores[i], core) && c.core == i && c.level == |core.stack| - 1
    requires OneCall(CoreLocals.Top(s.cores[i]), CoreLocals.Top(core), k, c) && OneCallOfLock(s.locks[k], l, c)
    requires Matched(CoreLocals.Top(core), l, k, c)
    ensures Inv(WithBoth(s, i, core, k, l), pre)
  {
    var t := WithBoth(s, i, core, k, l);
    AllOwnCalls(s, pre, i, core, k, c);
    forall m, d | 0 <= m < |t.locks| ensures CallOk(t, m, d) {
      assert CallOk(s, m, d);
      CallOkAfter(s, i, core, k, l, c, m, d);
    }
  }

  // ---------- each event ----------

  lemma TopFacts(s: Kernel, pre: seq<bool>, i: int)
    requires Inv(s, pre) && 0 <= i < |s.cores|
    ensures s.cores[i].stack != []
    ensures var f := Running(s, i); var j := |s.cores[i].stack| - 1;
            CoreLocals.FrameOk(f, pre) && OwnCalls(f, i, j) && CoreLocals.CoreOk(s.cores[i], pre)
  {
    assert CoreLocals.CoreOk(s.cores[i], pre);
    var j := |s.cores[i].stack| - 1;
    assert OwnCalls(s.cores[i].stack[j], i, j);
  }

  /** What the running context and its lock agree on about call `c`. */
  lemma TopMatched(s: Kernel, pre: seq<bool>, i: int, k: int, c: Call)
    requires Inv(s, pre) && 0 <= i < |s.cores| && s.cores[i].stack != [] && 0 <= k < |s.locks|
    requires c.core == i && c.level == |s.cores[i].stack| - 1
    ensures Matched(Running(s, i), s.locks[k], k, c)
  {
    assert CallOk(s, k, c);
  }

  /** The core's side of taking, owning, dropping and passing on a lock changes one call of the running context. */
  lemma CoreOneCall(core: CoreLocals.Core, pre: seq<bool>, a: CoreLocals.Act, k: int, c: Call)
    requires CoreLocals.Can(core, pre, a) && CoreLocals.FrameOk(CoreLocals.Top(core), pre)
    requires match a
             case Ticket(d) => CoreLocals.Top(core).pc.k == k && d == c
             case Acquire => CoreLocals.Top(core).pc == CoreLocals.Waiting(k, c)
             case Deadlock => CoreLocals.Top(core).pc == CoreLocals.Waiting(k, c)
             case Drop(d) => d == c && CoreLocals.Top(core).holds[d] == k
             case Advanced => CoreLocals.Top(core).pc == CoreLocals.Unlocking(k, c)
             case _ => false
    ensures TopOnly(core, CoreLocals.Do(core, pre, a))
    ensures OneCall(CoreLocals.Top(core), CoreLocals.Top(CoreLocals.Do(core, pre, a)), k, c)
  {
  }

  lemma TakeInv(s: Kernel, pre: seq<bool>, e: Event)
    requires Inv(s, pre) && Enabled(s, pre, e) && e.move.TakeTicket?
    ensures Inv(Next(s, pre, e), pre)
  {
    TopFacts(s, pre, e.i);
    var core, f, c := s.cores[e.i], Running(s, e.i), e.move.c;
    var l := s.locks[f.pc.k];
    TopMatched(s, pre, e.i, f.pc.k, c);
    CoreLocals.StepOk(core, pre, CoreLocals.Ticket(c));
    CoreOneCall(core, pre, CoreLocals.Ticket(c), f.pc.k, c);
    StepLock(l, Take(c));
    LockOthers(l, Take(c));
    LockEventInv(s, pre, e.i, CorePart(s, pre, e), f.pc.k, TicketLocks.Next(l, Take(c)), c);
  }

  lemma SpinInv(s: Kernel, pre: seq<bool>, e: Event)
    requires Inv(s, pre) && Enabled(s, pre, e) && (e.move.PollTicket? || e.move.CheckOwner?)
    ensures Inv(Next(s, pre, e), pre)
  {
    TopFacts(s, pre, e.i);
    var core, f := s.cores[e.i], Running(s, e.i);
    var k, c := f.pc.k, f.pc.c;
    var st := LockPart(s, pre, e).1;
    TopMatched(s, pre, e.i, k, c);
    if e.move.CheckOwner? && SeesItself(s.locks[k], c) {
      CoreLocals.StepOk(core, pre, CoreLocals.Deadlock);
      CoreOneCall(core, pre, CoreLocals.Deadlock, k, c);
    }
    StepLock(s.locks[k], st);
    LockOthers(s.locks[k], st);
    LockEventInv(s, pre, e.i, CorePart(s, pre, e), k, TicketLocks.Next(s.locks[k], st), c);
  }

  lemma AcquireInv(s: Kernel, pre: seq<bool>, e: Event)
    requires Inv(s, pre) && Enabled(s, pre, e) && e.move.StoreOwner?
    ensures Inv(Next(s, pre, e), pre)
  {
    TopFacts(s, pre, e.i);
    var core, f := s.cores[e.i], Running(s, e.i);
    var k, c := f.pc.k, f.pc.c;
    TopMatched(s, pre, e.i, k, c);
    CoreLocals.StepOk(core, pre, CoreLocals.Acquire);
    CoreOneCall(core, pre, CoreLocals.Acquire, k, c);
    StepLock(s.locks[k], Enter(c));
    LockOthers(s.locks[k], Enter(c));
    LockEventInv(s, pre, e.i, CorePart(s, pre, e), k, TicketLocks.Next(s.locks[k], Enter(c)), c);
  }

  lemma ClearInv(s: Kernel, pre: seq<bool>, e: Event)
    requires Inv(s, pre) && Enabled(s, pre, e) && e.move.ClearOwner?
    ensures Inv(Next(s, pre, e), pre)
  {
    TopFacts(s, pre, e.i);
    var core, f, c := s.cores[e.i], Running(s, e.i), e.move.c;
    var k := f.holds[c];
    TopMatched(s, pre, e.i, k, c);
    CoreLocals.StepOk(core, pre, CoreLocals.Drop(c));
    CoreOneCall(core, pre, CoreLocals.Drop(c), k, c);
    StepLock(s.locks[k], Clear(c));
    LockOthers(s.locks[k], Clear(c));
    LockEventInv(s, pre, e.i, CorePart(s, pre, e), k, TicketLocks.Next(s.locks[k], Clear(c)), c);
  }

  lemma PassInv(s: Kernel, pre: seq<bool>, e: Event)
    requires Inv(s, pre) && Enabled(s, pre, e) && e.move.PassOn?
    ensures Inv(Next(s, pre, e), pre)
  {
    TopFacts(s, pre, e.i);
    var core, f := s.cores[e.i], Running(s, e.i);
    var k, c := f.pc.k, f.pc.c;
    TopMatched(s, pre, e.i, k, c);
    CoreLocals.StepOk(core, pre, CoreLocals.Advanced);
    CoreOneCall(core, pre, CoreLocals.Advanced, k, c);
    StepLock(s.locks[k], Advance(c));
    LockOthers(s.locks[k], Advance(c));
    LockEventInv(s, pre, e.i, CorePart(s, pre, e), k, TicketLocks.Next(s.locks[k], Advance(c)), c);
  }

  lemma LocalInv(s: Kernel, pre: seq<bool>, e: Event, a: CoreLocals.Act)
    requires Inv(s, pre) && 0 <= e.i < |s.cores| && IsLocal(a)
    requires CoreLocals.Can(s.cores[e.i], pre, a) && CoreLocals.Balanced(s.cores[e.i], pre, a)
    ensures Inv(WithCore(s, e.i, CoreLocals.Do(s.cores[e.i], pre, a)), pre)
  {
    if a.Interrupt? {
      InterruptInv(s, pre, e.i);
    } else if a.Iret? {
      IretInv(s, pre, e.i);
    } else {
      CoreLocals.StepOk(s.cores[e.i], pre, a);
      LocalFrames(s.cores[e.i], pre, a);
      SameFramesInv(s, pre, e.i, CoreLocals.Do(s.cores[e.i], pre, a));
    }
  }

  lemma RwInv(s: Kernel, pre: seq<bool>, e: Event)
    requires Inv(s, pre) && Enabled(s, pre, e) && e.move.Rw?
    ensures Inv(Next(s, pre, e), pre)
  {
    TopFacts(s, pre, e.i);
    var core, f, a := s.cores[e.i], Running(s, e.i), e.move.a;
    var n := RwIndex(f, a);
    var c := if a.Ticket? || a.Drop? then a.c else f.pc.c;
    CoreLocals.StepOk(core, pre, a);
    CoreOneCall(core, pre, a, n, c);
    RwKeeps(s, pre, e.i, CoreLocals.Do(core, pre, a), n, c);
  }

  /** A change of one call of a lock that is not a ticket lock keeps everything together. */
  lemma RwKeeps(s: Kernel, pre: seq<bool>, i: int, core: CoreLocals.Core, n: int, c: Call)
    requires Inv(s, pre) && 0 <= i < |s.cores| && |s.locks| <= n && CoreLocals.CoreOk(core, pre)
    requires TopOnly(s.cores[i], core) && c.core == i && c.level == |core.stack| - 1
    requires OneCall(CoreLocals.Top(s.cores[i]), CoreLocals.Top(core), n, c)
    ensures Inv(WithCore(s, i, core), pre)
  {
    var t := WithCore(s, i, core);
    AllOwnCalls(s, pre, i, core, n, c);
    forall k, d | 0 <= k < |t.locks| ensures CallOk(t, k, d) {
      assert CallOk(s, k, d);
      if d.core == i && d.level == |core.stack| - 1 {
        MatchedOther(CoreLocals.Top(s.cores[i]), CoreLocals.Top(core), s.locks[k], s.locks[k], k, d, n, c);
      }
    }
  }

  lemma StepInv(s: Kernel, pre: seq<bool>, e: Event)
    requires Inv(s, pre) && Enabled(s, pre, e)
    ensures Inv(Next(s, pre, e), pre)
  {
    match e.move
    case Local(a) => LocalInv(s, pre, e, a);
    case TryBegin(k) =>
      if s.locks[k].owner == NO_OWNER {
        LocalInv(s, pre, e, CoreLocals.Begin(k));
      } else {
        assert WithCore(s, e.i, s.cores[e.i]) == s;
      }
    case TakeTicket(_) => TakeInv(s, pre, e);
    case PollTicket => SpinInv(s, pre, e);
    case CheckOwner => SpinInv(s, pre, e);
    case StoreOwner => AcquireInv(s, pre, e);
    case ClearOwner(_) => ClearInv(s, pre, e);
    case PassOn => PassInv(s, pre, e);
    case Rw(_) => RwInv(s, pre, e);
  }

  // ---------- whole runs ----------

  predicate LegalRun(s: Kernel, pre: seq<bool>, es: seq<Event>)
    decreases |es|
  {
    es == [] || (Enabled(s, pre, es[0]) && LegalRun(Next(s, pre, es[0]), pre, es[1..]))
  }

  function Run(s: Kernel, pre: seq<bool>, es: seq<Event>): Kernel
    requires LegalRun(s, pre, es)
    decreases |es|
  {
    if es == [] then s else Run(Next(s, pre, es[0]), pre, es[1..])
  }

  /** All `m` ticket locks free, all `n` cores just booted. */
  function Booted(m: int, n: int): Kernel
    requires 0 <= m && 0 <= n
  {
    Kernel(seq(m, k => UNLOCKED), seq(n, i => CoreLocals.BOOTED))
  }

  lemma BootedInv(pre: seq<bool>, m: int, n: int)
    requires 0 <= m <= |pre| && 0 <= n <= 256
    ensures Inv(Booted(m, n), pre)
  {
    CoreLocals.BootedOk(pre);
    assert Queue(UNLOCKED, []);
  }

  lemma {:induction false} RunInv(s: Kernel, pre: seq<bool>, es: seq<Event>)
    requires Inv(s, pre) && LegalRun(s, pre, es)
    ensures Inv(Run(s, pre, es), pre)
    decreases |es|
  {
    if es != [] {
      StepInv(s, pre, es[0]);
      RunInv(Next(s, pre, es[0]), pre, es[1..]);
    }
  }

  /** Context `j` of core `i` holds a guard on lock `k`. */
  predicate Holds(s: Kernel, i: int, j: int, k: int, c: Call) {
    && 0 <= i < |s.cores| && 0 <= j < |s.cores[i].stack|
    && c in s.cores[i].stack[j].holds && s.cores[i].stack[j].holds[c] == k
  }

  lemma HoldsIsHolding(s: Kernel, pre: seq<bool>, i: int, j: int, k: int, c: Call)
    requires Inv(s, pre) && Holds(s, i, j, k, c) && k < |s.locks|
    ensures 0 <= k < |s.locks| && c in s.locks[k].calls && s.locks[k].calls[c].Holding? && c.core == i && c.level == j
  {
    assert OwnCalls(s.cores[i].stack[j], i, j);
    assert CoreLocals.CoreOk(s.cores[i], pre) && CoreLocals.FrameOk(s.cores[i].stack[j], pre);
    assert CallOk(s, k, c);
  }

  /** One holder in the whole machine: two guards on a lock, anywhere, are the same guard of the same context. */
  lemma OneHolder(s: Kernel, pre: seq<bool>, i: int, j: int, c: Call, n: int, m: int, d: Call, k: int)
    requires Inv(s, pre) && Holds(s, i, j, k, c) && Holds(s, n, m, k, d) && k < |s.locks|
    ensures c == d && i == n && j == m
  {
    HoldsIsHolding(s, pre, i, j, k, c);
    HoldsIsHolding(s, pre, n, m, k, d);
    MutualExclusion(s.locks[k], c, d);
  }

  /** A handler and the thread below it never hold or want the same lock. */
  lemma HandlerApart(s: Kernel, pre: seq<bool>, i: int, k: int, c: Call)
    requires Inv(s, pre) && 0 <= i < |s.cores| && |s.cores[i].stack| == 2
    requires s.cores[i].stack[1].pc.Waiting? && s.cores[i].stack[1].pc.k == k
    ensures !Holds(s, i, 0, k, c)
  {
    assert CoreLocals.CoreOk(s.cores[i], pre) && CoreLocals.HandlerOk(s.cores[i], pre);
    assert CoreLocals.FrameOk(s.cores[i].stack[0], pre);
    CoreLocals.QuietHoldsNothing(s.cores[i].stack[0], pre);
  }

  /**
    A deadlock report is always a real one, and a real one is always reported at
    the next check: the context panics if and only if it is itself the holder, so
    never because of another core or of the thread a handler interrupted.
   */
  lemma DeadlockMeansReentrant(s: Kernel, pre: seq<bool>, e: Event)
    requires Inv(s, pre) && Enabled(s, pre, e) && e.move.CheckOwner?
    ensures Running(Next(s, pre, e), e.i).pc.Dead? <==>
              exists d :: d in Running(s, e.i).holds && Running(s, e.i).holds[d] == Running(s, e.i).pc.k
  {
    var i, f, top := e.i, Running(s, e.i), |s.cores[e.i].stack| - 1;
    TopFacts(s, pre, i);
    PanicIsExact(s.locks[f.pc.k], f.pc.c);
    if SeesItself(s.locks[f.pc.k], f.pc.c) {
      ReporterHolds(s, pre, i, f.pc.k, f.pc.c);
    }
    forall d | d in f.holds && f.holds[d] == f.pc.k ensures SeesItself(s.locks[f.pc.k], f.pc.c) {
      HoldsIsHolding(s, pre, i, top, f.pc.k, d);
    }
  }

  /** If a call of the waiting context's core holds the lock, it is a call of that very context. */
  lemma ReporterHolds(s: Kernel, pre: seq<bool>, i: int, k: int, c: Call)
    requires Inv(s, pre) && 0 <= i < |s.cores| && 0 <= k < |s.locks| && s.cores[i].stack != []
    requires Running(s, i).pc == CoreLocals.Waiting(k, c) && c.core == i
    requires exists d :: d in s.locks[k].calls && s.locks[k].calls[d].Holding? && d.core == c.core
    ensures exists d :: d in Running(s, i).holds && Running(s, i).holds[d] == k
  {
    var d :| d in s.locks[k].calls && s.locks[k].calls[d].Holding? && d.core == c.core;
    assert CallOk(s, k, d);
    assert Holds(s, i, d.level, k, d);
    assert CoreLocals.CoreOk(s.cores[i], pre);
    if d.level != |s.cores[i].stack| - 1 {
      HandlerApart(s, pre, i, k, d);
    }
  }

  /** `try_lock` gives up at once exactly when some context holds the lock; otherwise it goes on as `lock`. */
  lemma TryLockExact(s: Kernel, pre: seq<bool>, e: Event)
    requires Inv(s, pre) && Enabled(s, pre, e) && e.move.TryBegin?
    ensures Running(Next(s, pre, e), e.i).pc.Ready? <==> exists i, j, c :: Holds(s, i, j, e.move.k, c)
    ensures Running(Next(s, pre, e), e.i).pc.Ready? ==> Next(s, pre, e) == s
  {
    var l := s.locks[e.move.k];
    assert TicketLocks.Inv(l);
    OwnerIsHolder(l);
    if l.owner != NO_OWNER {
      var c :| c in l.calls && l.calls[c].Holding?;
      assert CallOk(s, e.move.k, c);
      assert Holds(s, c.core, c.level, e.move.k, c);
      assert WithCore(s, e.i, s.cores[e.i]) == s;
    }
    forall i, j, c | Holds(s, i, j, e.move.k, c) ensures l.owner != NO_OWNER {
      HoldsIsHolding(s, pre, i, j, e.move.k, c);
    }
  }

  /** Context `j` of core `i` asks for lock `k`, by call `c`, while it holds it by call `d`. */
  predicate Reentrant(s: Kernel, i: int, j: int, k: int, c: Call, d: Call) {
    && k < |s.locks| && Holds(s, i, j, k, d) && c != d
    && (s.cores[i].stack[j].pc == CoreLocals.Waiting(k, c) || s.cores[i].stack[j].pc == CoreLocals.Dead(k, c))
  }

  /** A step leaves the contexts below the running one alone. */
  lemma BelowKept(core: CoreLocals.Core, pre: seq<bool>, a: CoreLocals.Act, j: int)
    requires CoreLocals.Can(core, pre, a) && 0 <= j < |core.stack| && (j < |core.stack| - 1 || a.Interrupt?)
    ensures j < |CoreLocals.Do(core, pre, a).stack| && CoreLocals.Do(core, pre, a).stack[j] == core.stack[j]
  {
  }

  lemma EventKeepsBelow(s: Kernel, pre: seq<bool>, e: Event, j: int)
    requires Enabled(s, pre, e) && 0 <= j < |s.cores[e.i].stack|
    requires j < |s.cores[e.i].stack| - 1 || e.move == Local(CoreLocals.Interrupt)
    ensures j < |CorePart(s, pre, e).stack| && CorePart(s, pre, e).stack[j] == s.cores[e.i].stack[j]
  {
    var core := s.cores[e.i];
    match e.move
    case Local(a) => BelowKept(core, pre, a, j);
    case TryBegin(k) => BelowKept(core, pre, CoreLocals.Begin(k), j);
    case TakeTicket(c) => BelowKept(core, pre, CoreLocals.Ticket(c), j);
    case PollTicket =>
    case CheckOwner => BelowKept(core, pre, CoreLocals.Deadlock, j);
    case StoreOwner => BelowKept(core, pre, CoreLocals.Acquire, j);
    case ClearOwner(c) => BelowKept(core, pre, CoreLocals.Drop(c), j);
    case PassOn => BelowKept(core, pre, CoreLocals.Advanced, j);
    case Rw(a) => BelowKept(core, pre, a, j);
  }

  /** The only moves of a re-entrant caller itself are to look at the counters again or to panic. */
  lemma ReentrantMove(s: Kernel, pre: seq<bool>, e: Event, j: int, k: int, c: Call, d: Call)
    requires Inv(s, pre) && Enabled(s, pre, e) && Reentrant(s, e.i, j, k, c, d)
    requires j == |s.cores[e.i].stack| - 1 && e.move != Local(CoreLocals.Interrupt)
    ensures e.move.PollTicket? || e.move.CheckOwner?
  {
    if e.move.StoreOwner? {
      HoldsIsHolding(s, pre, e.i, j, k, d);
      MutualExclusion(s.locks[k], c, d);
    }
  }

  lemma ReentrantLooks(s: Kernel, pre: seq<bool>, e: Event, j: int, k: int, c: Call, d: Call)
    requires Enabled(s, pre, e) && Reentrant(s, e.i, j, k, c, d) && (e.move.PollTicket? || e.move.CheckOwner?)
    requires j == |s.cores[e.i].stack| - 1
    ensures Reentrant(Next(s, pre, e), e.i, j, k, c, d)
  {
  }

  lemma ReentrantStep(s: Kernel, pre: seq<bool>, e: Event, i: int, j: int, k: int, c: Call, d: Call)
    requires Inv(s, pre) && Enabled(s, pre, e) && Reentrant(s, i, j, k, c, d)
    ensures Reentrant(Next(s, pre, e), i, j, k, c, d)
  {
    if e.i == i {
      if j < |s.cores[i].stack| - 1 || e.move == Local(CoreLocals.Interrupt) {
        EventKeepsBelow(s, pre, e, j);
      } else {
        ReentrantMove(s, pre, e, j, k, c, d);
        ReentrantLooks(s, pre, e, j, k, c, d);
      }
    }
  }

  /** A re-entrant caller never gets the lock: it spins or panics, whatever else happens. */
  lemma {:induction false} ReentrantNeverAcquires(s: Kernel, pre: seq<bool>, es: seq<Event>,
                                                  i: int, j: int, k: int, c: Call, d: Call)
    requires Inv(s, pre) && LegalRun(s, pre, es) && Reentrant(s, i, j, k, c, d)
    ensures Reentrant(Run(s, pre, es), i, j, k, c, d)
    decreases |es|
  {
    if es != [] {
      ReentrantStep(s, pre, es[0], i, j, k, c, d);
      StepInv(s, pre, es[0]);
      ReentrantNeverAcquires(Next(s, pre, es[0]), pre, es[1..], i, j, k, c, d);
    }
  }

  /**
    In every run of every number of cores an interrupt only ever preempts a thread
    that holds no non-preemptable lock, ticket lock or reader-writer lock.
   */
  lemma PreemptionIsSafe(pre: seq<bool>, m: int, n: int, es: seq<Event>, i: int, k: int, c: Call)
    requires 0 <= m <= |pre| && 0 <= n <= 256 && LegalRun(Booted(m, n), pre, es)
    requires var s := Run(Booted(m, n), pre, es);
             0 <= i < |s.cores| && s.cores[i].flag && 0 <= k < |pre| && !pre[k]
    ensures forall j :: !Holds(Run(Booted(m, n), pre, es), i, j, k, c)
  {
    BootedInv(pre, m, n);
    RunInv(Booted(m, n), pre, es);
    var s := Run(Booted(m, n), pre, es);
    assert CoreLocals.CoreOk(s.cores[i], pre) && CoreLocals.FrameOk(s.cores[i].stack[0], pre);
    CoreLocals.QuietHoldsNothing(s.cores[i].stack[0], pre);
  }

  // ---------- every lock by itself ----------

  /** What an event does to ticket lock `k`: one step or nothing. */
  function StepOn(s: Kernel, pre: seq<bool>, e: Event, k: int): seq<Step>
    requires Enabled(s, pre, e)
  {
    if !CoreOnly(e.move) && LockPart(s, pre, e).0 == k then [LockPart(s, pre, e).1] else []
  }

  /** The steps of a whole run on ticket lock `k`. */
  function StepsOn(s: Kernel, pre: seq<bool>, es: seq<Event>, k: int): seq<Step>
    requires LegalRun(s, pre, es)
    decreases |es|
  {
    if es == [] then [] else StepOn(s, pre, es[0], k) + StepsOn(Next(s, pre, es[0]), pre, es[1..], k)
  }

  /** Seen from one ticket lock every run of the machine is a run of that lock alone, so all its theorems apply. */
  lemma {:induction false} LockRuns(s: Kernel, pre: seq<bool>, es: seq<Event>, k: int)
    requires LegalRun(s, pre, es) && 0 <= k < |s.locks|
    ensures |Run(s, pre, es).locks| == |s.locks|
    ensures TicketLocks.LegalRun(s.locks[k], StepsOn(s, pre, es, k))
    ensures TicketLocks.Run(s.locks[k], StepsOn(s, pre, es, k)) == Run(s, pre, es).locks[k]
    decreases |es|
  {
    if es != [] {
      var t := Next(s, pre, es[0]);
      var rest := StepsOn(t, pre, es[1..], k);
      LockRuns(t, pre, es[1..], k);
      if !CoreOnly(es[0].move) && LockPart(s, pre, es[0]).0 == k {
        var st := LockPart(s, pre, es[0]).1;
        assert ([st] + rest)[0] == st && ([st] + rest)[1..] == rest;
      } else {
        assert [] + rest == rest;
      }
    }
  }

  // ---------- when `try_lock` waits ----------

  /**
    A context that takes a ticket and later looks at the counters for the first
    time has to spin if and only if not all the calls outstanding when it took
    the ticket have been released in between, whatever else happens.
   */
  lemma FirstPollWaits(s: Kernel, pre: seq<bool>, i: int, k: int, c: Call, es: seq<Event>, u: Kernel)
    requires Enabled(s, pre, Event(i, TakeTicket(c))) && Running(s, i).pc.k == k && TicketLocks.Inv(s.locks[k])
    requires var t := Next(s, pre, Event(i, TakeTicket(c)));
             LegalRun(t, pre, es) && Run(t, pre, es) == u && NotBy(c, StepsOn(t, pre, es, k))
    requires Enabled(u, pre, Event(i, PollTicket)) && Running(u, i).pc == CoreLocals.Waiting(k, c)
    ensures var l := Next(u, pre, Event(i, PollTicket)).locks[k];
            && c in l.calls
            && (l.calls[c].Checking? <==>
                Releases(StepsOn(Next(s, pre, Event(i, TakeTicket(c))), pre, es, k)) != |s.locks[k].calls|)
  {
    var t := Next(s, pre, Event(i, TakeTicket(c)));
    LockRuns(t, pre, es, k);
    TicketLocks.FirstPollWaits(s.locks[k], c, StepsOn(t, pre, es, k));
  }

  lemma RunCons(s: Kernel, pre: seq<bool>, e: Event, es: seq<Event>)
    requires Enabled(s, pre, e) && LegalRun(Next(s, pre, e), pre, es)
    ensures LegalRun(s, pre, [e] + es) && Run(s, pre, [e] + es) == Run(Next(s, pre, e), pre, es)
  {
    assert ([e] + es)[0] == e && ([e] + es)[1..] == es;
  }

  /** The context of core `i` is not about to take a ticket of any lock but `k`. */
  predicate Heading(s: Kernel, i: int, k: int) {
    && 0 <= i < |s.cores| && s.cores[i].stack != []
    && var pc := Running(s, i).pc;
       (pc.Taking? || pc.CountUp? || pc.Cli? ==> pc.k == k)
  }

  lemma HeadingStep(s: Kernel, pre: seq<bool>, e: Event, k: int)
    requires Enabled(s, pre, e) && Heading(s, e.i, k)
    requires Approaches(e.move, k)
    ensures Heading(Next(s, pre, e), e.i, k) && Next(s, pre, e).locks == s.locks
  {
  }

  /** A `try_lock` of lock `k` by core `i` with nothing in between, up to taking a ticket. */
  predicate Opening(es: seq<Event>, i: int, k: int) {
    && es != [] && es[0] == Event(i, TryBegin(k)) && OnTheWay(es, i, k)
  }

  predicate OnTheWay(es: seq<Event>, i: int, k: int) {
    forall j :: 0 <= j < |es| ==> es[j].i == i && Approaches(es[j].move, k)
  }

  predicate Approaches(m: Move, k: int) {
    m == TryBegin(k) || m == Local(CoreLocals.Increment) || m == Local(CoreLocals.ClearFlag)
  }

  lemma {:induction false} HeadingRun(s: Kernel, pre: seq<bool>, es: seq<Event>, i: int, k: int)
    requires LegalRun(s, pre, es) && Heading(s, i, k) && OnTheWay(es, i, k)
    ensures Heading(Run(s, pre, es), i, k) && Run(s, pre, es).locks == s.locks
    decreases |es|
  {
    if es != [] {
      HeadingStep(s, pre, es[0], k);
      HeadingRun(Next(s, pre, es[0]), pre, es[1..], i, k);
    }
  }

  lemma TakeAndPoll(s: Kernel, pre: seq<bool>, i: int, k: int, c: Call)
    requires Enabled(s, pre, Event(i, TakeTicket(c))) && Heading(s, i, k)
    requires 0 <= k < |s.locks| && TicketLocks.Inv(s.locks[k])
    ensures var t := Next(s, pre, Event(i, TakeTicket(c)));
            && Enabled(t, pre, Event(i, PollTicket))
            && var l := Next(t, pre, Event(i, PollTicket)).locks[k];
               && c in l.calls
               && (l.calls[c].Checking? <==> s.locks[k].calls != map[])
               && (l.calls[c].Checking? <==> s.locks[k].current != s.locks[k].next)
  {
    NewTicketDistance(s.locks[k], c);
    TicketLocks.FirstPollWaits(s.locks[k], c, []);
  }

  lemma TryStarts(s: Kernel, pre: seq<bool>, i: int, k: int, es: seq<Event>)
    requires Opening(es, i, k) && LegalRun(s, pre, es)
    ensures Heading(s, i, k)
  {
  }

  /**
    A `try_lock` that is not refused is not always immediate: it has to wait if and
    only if some ticket is outstanding at that moment, that is, if a caller has
    taken a ticket but not yet stored `owner`, or has cleared `owner` but not yet
    passed the lock on.
   */
  lemma {:induction false} TryLockWaitsExactly(s: Kernel, pre: seq<bool>, i: int, k: int, c: Call, es: seq<Event>, u: Kernel)
    requires 0 <= k < |s.locks| && TicketLocks.Inv(s.locks[k]) && Opening(es, i, k) && LegalRun(s, pre, es)
    requires Run(s, pre, es) == u && Enabled(u, pre, Event(i, TakeTicket(c)))
    ensures var t := Next(u, pre, Event(i, TakeTicket(c)));
            && Enabled(t, pre, Event(i, PollTicket))
            && var w := Next(t, pre, Event(i, PollTicket));
               && k < |w.locks| && c in w.locks[k].calls
               && (w.locks[k].calls[c].Checking? <==> s.locks[k].calls != map[])
               && (w.locks[k].calls[c].Checking? <==> s.locks[k].current != s.locks[k].next)
  {
    TryStarts(s, pre, i, k, es);
    HeadingRun(s, pre, es, i, k);
    TakeAndPoll(u, pre, i, k, c);
  }

  // ---------- a run in which it waits ----------

  const FIRST: Call := Call(0, 0, 0)
  const SECOND: Call := Call(1, 0, 0)

  /** A booted core with its thread at `pc`. */
  function At(pc: CoreLocals.Pc): CoreLocals.Core {
    CoreLocals.Core(false, 1, 0, [CoreLocals.Frame(map[], map[], 1, pc, false)])
  }

  /** Core 0 takes a ticket and sees it is its turn; core 1 then tries. */
  const LATE_TRY: seq<Event> :=
    [Event(0, Local(CoreLocals.Begin(0)))] + ([Event(0, TakeTicket(FIRST))] + ([Event(0, PollTicket)] +
    ([Event(1, TryBegin(0))] + ([Event(1, TakeTicket(SECOND))] + ([Event(1, PollTicket)] + [])))))

  /** Core 0 has its turn but has not stored `owner`; `calls` may hold a call of core 1 as well. */
  function Turn(next: int, calls: map<Call, Phase>, pc: CoreLocals.Pc): Kernel {
    Kernel([Lock(0, next, NO_OWNER, map[FIRST := Granted(0)] + calls)], [At(CoreLocals.Waiting(0, FIRST)), At(pc)])
  }

  // the states of the run
  const HEADED: Kernel := Kernel([UNLOCKED], [At(CoreLocals.Taking(0)), At(CoreLocals.Ready)])
  const DRAWN: Kernel := Kernel([Lock(0, 1, NO_OWNER, map[FIRST := Spinning(0)])],
                                [At(CoreLocals.Waiting(0, FIRST)), At(CoreLocals.Ready)])
  const GRANTED: Kernel := Turn(1, map[], CoreLocals.Ready)
  const PASSED: Kernel := Turn(1, map[], CoreLocals.Taking(0))
  const LATE: Kernel := Turn(2, map[SECOND := Spinning(1)], CoreLocals.Waiting(0, SECOND))
  const WAITS: Kernel := Turn(2, map[SECOND := Checking(1)], CoreLocals.Waiting(0, SECOND))

  predicate Goes(s: Kernel, e: Event, t: Kernel) {
    Enabled(s, [true], e) && Next(s, [true], e) == t
  }

  lemma FirstBegins()
    ensures Goes(Booted(1, 2), Event(0, Local(CoreLocals.Begin(0))), HEADED)
  {
    var s := Booted(1, 2);
    assert s.cores == [At(CoreLocals.Ready), At(CoreLocals.Ready)] && s.locks == [UNLOCKED];
    var t := Next(s, [true], Event(0, Local(CoreLocals.Begin(0))));
    assert t.cores[0].stack == HEADED.cores[0].stack;
    assert t.cores == HEADED.cores;
  }

  lemma FirstTakes()
    ensures Goes(HEADED, Event(0, TakeTicket(FIRST)), DRAWN)
  {
    var t := Next(HEADED, [true], Event(0, TakeTicket(FIRST)));
    assert t.locks[0].calls == map[FIRST := Spinning(0)];
    assert t.cores[0].stack == DRAWN.cores[0].stack;
    assert t.cores == DRAWN.cores && t.locks == DRAWN.locks;
  }

  lemma FirstGranted()
    ensures Goes(DRAWN, Event(0, PollTicket), GRANTED)
  {
    var t := Next(DRAWN, [true], Event(0, PollTicket));
    assert t.locks[0].calls == map[FIRST := Granted(0)] + map[];
    assert t.cores == GRANTED.cores && t.locks == GRANTED.locks;
  }

  lemma SecondPasses()
    ensures Goes(GRANTED, Event(1, TryBegin(0)), PASSED)
  {
    var t := Next(GRANTED, [true], Event(1, TryBegin(0)));
    assert t.cores[1].stack == PASSED.cores[1].stack;
    assert t.cores == PASSED.cores;
  }

  lemma SecondEnabled()
    ensures Enabled(PASSED, [true], Event(1, TakeTicket(SECOND)))
  {
    assert SECOND !in map[FIRST := Granted(0)] + map[];
  }

  lemma SecondTakes()
    ensures Goes(PASSED, Event(1, TakeTicket(SECOND)), LATE)
  {
    SecondEnabled();
    var t := Next(PASSED, [true], Event(1, TakeTicket(SECOND)));
    assert t.locks[0].calls == LATE.locks[0].calls;
    assert t.cores[1].stack == LATE.cores[1].stack;
    assert t.cores == LATE.cores && t.locks == LATE.locks;
  }

  lemma SecondWaits()
    ensures Goes(LATE, Event(1, PollTicket), WAITS)
  {
    var t := Next(LATE, [true], Event(1, PollTicket));
    assert t.locks[0].calls == WAITS.locks[0].calls;
    assert t.cores == WAITS.cores && t.locks == WAITS.locks;
  }

  /** Such a wait happens: the second core tries while the first is between its grant and storing `owner`. */
  lemma TryLockCanWait()
    ensures LegalRun(Booted(1, 2), [true], LATE_TRY)
    ensures var t := Run(Booted(1, 2), [true], LATE_TRY);
            |t.locks| == 1 && SECOND in t.locks[0].calls && t.locks[0].calls[SECOND].Checking?
  {
    SecondWaits();
    assert LegalRun(WAITS, [true], []) && Run(WAITS, [true], []) == WAITS;
    RunCons(LATE, [true], Event(1, PollTicket), []);
    var e5 := [Event(1, PollTicket)] + [];
    SecondTakes();
    RunCons(PASSED, [true], Event(1, TakeTicket(SECOND)), e5);
    var e4 := [Event(1, TakeTicket(SECOND))] + e5;
    SecondPasses();
    RunCons(GRANTED, [true], Event(1, TryBegin(0)), e4);
    var e3 := [Event(1, TryBegin(0))] + e4;
    FirstGranted();
    RunCons(DRAWN, [true], Event(0, PollTicket), e3);
    var e2 := [Event(0, PollTicket)] + e3;
    FirstTakes();
    RunCons(HEADED, [true], Event(0, TakeTicket(FIRST)), e2);
    FirstBegins();
    RunCons(Booted(1, 2), [true], Event(0, Local(CoreLocals.Begin(0))), [Event(0, TakeTicket(FIRST))] + e2);
  }
}
