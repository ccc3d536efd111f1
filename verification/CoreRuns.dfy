/**
  Runs of one core under a usage policy: which locks its thread and its handlers
  take and read, with the core's own guards in the way where a lock is exclusive.
 */
module CoreRuns {
  import opened TicketLocks
  import opened CoreLocals

  /** The locks that threads and handlers take exclusively and for reading. */
  datatype Usage = Usage(threadLocks: set<int>, threadReads: set<int>, handlerLocks: set<int>, handlerReads: set<int>)

  /** No context of the core has an exclusive guard on lock `k`. */
  predicate NoWriter(s: Core, k: int) {
    forall j, c :: 0 <= j < |s.stack| && c in s.stack[j].holds ==> s.stack[j].holds[c] != k
  }

  /** No context of the core has a read guard on lock `k`. */
  predicate NoReader(s: Core, k: int) {
    forall j, c :: 0 <= j < |s.stack| && c in s.stack[j].reading ==> s.stack[j].reading[c] != k
  }

  /**
    The guards of the core itself do not stand in the way. The locks see to that:
    `Kernels.OneHolder`, `RwKernels.FreeExactly` and `RwKernels.OpenExactly`.
   */
  predicate Unblocked(s: Core, pre: seq<bool>, a: Act)
    requires Can(s, pre, a)
  {
    match a
    case Acquire => NoReader(s, Top(s).pc.k) && NoWriter(s, Top(s).pc.k)
    case Deadlock => !NoWriter(s, Top(s).pc.k)
    case ReadDone => NoWriter(s, Top(s).pc.k)
    case _ => true
  }

  predicate Allowed(s: Core, pre: seq<bool>, use: Usage, a: Act)
    requires Can(s, pre, a)
  {
    && Unblocked(s, pre, a)
    && (a.Begin? ==> a.k in if |s.stack| == 1 then use.threadLocks else use.handlerLocks)
    && (a.Read? ==> a.k in if |s.stack| == 1 then use.threadReads else use.handlerReads)
  }

  predicate Follows(s: Core, pre: seq<bool>, use: Usage, acts: seq<Act>)
    requires CoreLocals.LegalRun(s, pre, acts)
    decreases |acts|
  {
    acts == [] || (Allowed(s, pre, use, acts[0]) && Follows(Do(s, pre, acts[0]), pre, use, acts[1..]))
  }

  ghost predicate ReachedBy(pre: seq<bool>, use: Usage, acts: seq<Act>, s: Core) {
    && CoreLocals.LegalRun(BOOTED, pre, acts) && Follows(BOOTED, pre, use, acts)
    && CoreLocals.Run(BOOTED, pre, acts) == s
  }

  /** A state that some run from boot leads to. */
  ghost predicate Reached(pre: seq<bool>, use: Usage, s: Core) {
    exists acts :: ReachedBy(pre, use, acts, s)
  }

  lemma {:induction false} RunSnoc(s: Core, pre: seq<bool>, use: Usage, acts: seq<Act>, a: Act)
    requires CoreLocals.LegalRun(s, pre, acts) && Follows(s, pre, use, acts)
    requires var t := CoreLocals.Run(s, pre, acts); Can(t, pre, a) && Allowed(t, pre, use, a)
    ensures CoreLocals.LegalRun(s, pre, acts + [a]) && Follows(s, pre, use, acts + [a])
    ensures CoreLocals.Run(s, pre, acts + [a]) == Do(CoreLocals.Run(s, pre, acts), pre, a)
    decreases |acts|
  {
    if acts == [] {
      assert acts + [a] == [a] && [a][1..] == [];
      assert CoreLocals.LegalRun(Do(s, pre, a), pre, []) && Follows(Do(s, pre, a), pre, use, []);
      assert CoreLocals.Run(Do(s, pre, a), pre, []) == Do(s, pre, a);
    } else {
      RunSnoc(Do(s, pre, acts[0]), pre, use, acts[1..], a);
      assert (acts + [a])[0] == acts[0] && (acts + [a])[1..] == acts[1..] + [a];
    }
  }

  predicate Same(s: Core, t: Core) {
    s.flag == t.flag && s.count == t.count && s.depth == t.depth && s.stack == t.stack
  }

  lemma ReachStep(pre: seq<bool>, use: Usage, s: Core, a: Act, t: Core)
    requires Reached(pre, use, s) && Can(s, pre, a) && Allowed(s, pre, use, a) && Same(Do(s, pre, a), t)
    ensures Reached(pre, use, t)
  {
    var acts :| ReachedBy(pre, use, acts, s);
    RunSnoc(BOOTED, pre, use, acts, a);
    assert ReachedBy(pre, use, acts + [a], t);
  }

  lemma ReachBoot(pre: seq<bool>, use: Usage)
    ensures Reached(pre, use, BOOTED)
  {
    assert ReachedBy(pre, use, [], BOOTED);
  }

  // ---------- every reached state keeps the policy ----------

  predicate Among(k: int, ks: set<int>, pre: seq<bool>) {
    k in ks && 0 <= k < |pre|
  }

  predicate FrameUses(f: Frame, pre: seq<bool>, locks: set<int>, shared: set<int>) {
    && (forall c :: c in f.holds ==> Among(f.holds[c], locks, pre))
    && (forall c :: c in f.reading ==> Among(f.reading[c], shared, pre))
    && match f.pc
       case CountUp(k) => Among(k, locks, pre)
       case Cli(k) => Among(k, locks, pre)
       case Taking(k) => Among(k, locks, pre)
       case Waiting(k, _) => Among(k, locks, pre)
       case Unlocking(k, _) => Among(k, locks, pre)
       case ReadWait(k, _) => Among(k, shared, pre)
       case _ => true
  }

  predicate Uses(s: Core, pre: seq<bool>, use: Usage) {
    && (|s.stack| >= 1 ==> FrameUses(s.stack[0], pre, use.threadLocks, use.threadReads))
    && (|s.stack| >= 2 ==> FrameUses(s.stack[1], pre, use.handlerLocks, use.handlerReads))
  }

  lemma UsesStep(s: Core, pre: seq<bool>, use: Usage, a: Act)
    requires Shape(s, pre) && Uses(s, pre, use) && Can(s, pre, a) && Allowed(s, pre, use, a)
    ensures Uses(Do(s, pre, a), pre, use)
  {
    if !a.Interrupt? && !a.Iret? {
      var thread := |s.stack| == 1;
      TopUses(s, pre, a, if thread then use.threadLocks else use.handlerLocks,
              if thread then use.threadReads else use.handlerReads);
    }
  }

  lemma TopUses(s: Core, pre: seq<bool>, a: Act, locks: set<int>, shared: set<int>)
    requires Can(s, pre, a) && FrameUses(Top(s), pre, locks, shared) && !a.Interrupt? && !a.Iret?
    requires (a.Begin? ==> a.k in locks) && (a.Read? ==> a.k in shared)
    ensures var t := Do(s, pre, a);
            && |t.stack| == |s.stack| && FrameUses(Top(t), pre, locks, shared)
            && (forall j :: 0 <= j < |s.stack| - 1 ==> t.stack[j] == s.stack[j])
  {
  }

  lemma {:induction false} UsesRun(s: Core, pre: seq<bool>, use: Usage, acts: seq<Act>)
    requires Shape(s, pre) && Uses(s, pre, use) && CoreLocals.LegalRun(s, pre, acts) && Follows(s, pre, use, acts)
    ensures Shape(CoreLocals.Run(s, pre, acts), pre) && Uses(CoreLocals.Run(s, pre, acts), pre, use)
    decreases |acts|
  {
    if acts != [] {
      ShapeStep(s, pre, acts[0]);
      UsesStep(s, pre, use, acts[0]);
      UsesRun(Do(s, pre, acts[0]), pre, use, acts[1..]);
    }
  }

  lemma ReachedUses(pre: seq<bool>, use: Usage, s: Core)
    requires Reached(pre, use, s)
    ensures Shape(s, pre) && Uses(s, pre, use)
  {
    var acts :| ReachedBy(pre, use, acts, s);
    UsesRun(BOOTED, pre, use, acts);
  }

  // ---------- states on the way ----------

  const CALL: Call := Call(0, 0, 0)
  const HANDLER_CALL: Call := Call(0, 1, 0)

  /** A thread alone at `pc`, with guards `holds`, read guards `reading` and no explicit section. */
  function Alone(flag: bool, count: int, holds: map<Call, int>, reading: map<Call, int>, pc: Pc): Core {
    Core(flag, count, 0, [Frame(holds, reading, 0, pc, false)])
  }

  /** The same thread interrupted between two operations, and a handler on top of it. */
  function Handling(count: int, below: map<Call, int>, belowReading: map<Call, int>,
                    holds: map<Call, int>, reading: map<Call, int>, pc: Pc): Core {
    Core(false, count, if pc.Entry? || pc.Exit? then 0 else 1,
         [Frame(below, belowReading, 0, Ready, false), Frame(holds, reading, 0, pc, true)])
  }

  lemma AloneTotal(s: Core, pre: seq<bool>)
    requires |s.stack| == 1 && s.stack[0].holds == map[]
    ensures TotalOpen(s.stack, pre) == s.stack[0].explicit + Section(s.stack[0].pc, pre)
  {
    assert s.stack == [s.stack[0]];
    TotalOne(s.stack[0], pre);
    assert Pinned(s.stack[0], pre) == {};
  }

  lemma HandlingTotal(s: Core, pre: seq<bool>)
    requires |s.stack| == 2 && s.stack[0].holds == map[] && s.stack[1].holds == map[]
    requires s.stack[0].explicit == 0 && s.stack[0].pc.Ready? && s.stack[1].explicit == 0
    ensures TotalOpen(s.stack, pre) == Section(s.stack[1].pc, pre)
  {
    assert s.stack == [s.stack[0], s.stack[1]];
    TotalTwo(s.stack[0], s.stack[1], pre);
    assert Pinned(s.stack[0], pre) == {} && Pinned(s.stack[1], pre) == {};
  }

  /** Booting ends with interrupts on and nothing held. */
  lemma ReachIdle(pre: seq<bool>, use: Usage)
    ensures Reached(pre, use, Alone(true, 0, map[], map[], Ready))
  {
    var testing, setting := Alone(false, 0, map[], map[], Testing(1)), Alone(false, 0, map[], map[], Sti);
    ReachBoot(pre, use);
    ReachStep(pre, use, BOOTED, Enable, testing);
    ReachStep(pre, use, testing, Test, setting);
    ReachStep(pre, use, setting, SetFlag, Alone(true, 0, map[], map[], Ready));
  }

  /** With interrupts on a handler gets to run between any two operations of the thread. */
  lemma ReachHandler(pre: seq<bool>, use: Usage, count: int, holds: map<Call, int>, reading: map<Call, int>)
    requires Reached(pre, use, Alone(true, count, holds, reading, Ready))
    ensures Reached(pre, use, Handling(count, holds, reading, map[], map[], Ready))
  {
    var entry := Handling(count, holds, reading, map[], map[], Entry);
    ReachStep(pre, use, Alone(true, count, holds, reading, Ready), Interrupt, entry);
    ReachStep(pre, use, entry, IncDepth, Handling(count, holds, reading, map[], map[], Ready));
  }

  /** And returns to where it interrupted. */
  lemma ReachReturn(pre: seq<bool>, use: Usage, count: int, holds: map<Call, int>, reading: map<Call, int>)
    requires Reached(pre, use, Handling(count, holds, reading, map[], map[], Ready))
    ensures Reached(pre, use, Alone(true, count, holds, reading, Ready))
  {
    var exit := Handling(count, holds, reading, map[], map[], Exit);
    ReachStep(pre, use, Handling(count, holds, reading, map[], map[], Ready), DecDepth, exit);
    ReachStep(pre, use, exit, Iret, Alone(true, count, holds, reading, Ready));
  }
}
