/**
  Read guards and the interrupt state: `read` enters its critical section without
  counting, the drop leaves it with a decrement unless the lock is preemptable.
  This module gives the exact conditions under which that is harmless, and what
  happens otherwise.
 */
module ReadGuards {
  import opened TicketLocks
  import opened CoreLocals
  import opened CoreRuns

  // ---------- one guard ----------

  /**
    The drop of a read guard, by a thread or by a handler, leaves the disable count
    equal to the number of open sections if and only if the lock is preemptable.
   */
  lemma DropKeepsCount(s: Core, pre: seq<bool>, c: Call)
    requires CoreOk(s, pre) && Can(s, pre, DropRead(c)) && s.count < COUNTER
    ensures var preemptable := pre[Top(s).reading[c]];
            var t := Do(s, pre, DropRead(c));
            var u := if preemptable then t else Do(t, pre, Decrement);
            u.count == TotalOpen(u.stack, pre) <==> preemptable
  {
    CountIsTotal(s, pre);
    var t := Do(s, pre, DropRead(c));
    var u := if pre[Top(s).reading[c]] then t else Do(t, pre, Decrement);
    PinnedSame(Top(u), Top(s), pre);
    assert Open(Top(u), pre) == Open(Top(s), pre);
    if |s.stack| == 1 {
      assert s.stack == [s.stack[0]] && u.stack == [u.stack[0]];
      TotalOne(s.stack[0], pre);
      TotalOne(u.stack[0], pre);
    } else {
      assert s.stack == [s.stack[0], s.stack[1]] && u.stack == [s.stack[0], u.stack[1]];
      TotalTwo(s.stack[0], s.stack[1], pre);
      TotalTwo(u.stack[0], u.stack[1], pre);
    }
  }

  /**
    A thread that drops a read guard of a non-preemptable lock turns interrupts on
    exactly when one section is open; if that section is a lock it holds, the
    holder can then be interrupted.
   */
  lemma DropEndsOnlySection(s: Core, pre: seq<bool>, c: Call)
    requires CoreOk(s, pre) && |s.stack| == 1 && Can(s, pre, DropRead(c)) && !pre[Top(s).reading[c]]
    ensures var t := Do(Do(Do(s, pre, DropRead(c)), pre, Decrement), pre, Test);
            && (Can(t, pre, SetFlag) <==> s.count == 1)
            && (s.count == 1 && s.stack[0].explicit == 0 ==> !Undisturbed(Do(t, pre, SetFlag), pre))
  {
    if s.count == 1 && s.stack[0].explicit == 0 {
      assert |Pinned(s.stack[0], pre)| == 1;
      var d :| d in Pinned(s.stack[0], pre);
      var u := Do(Do(Do(Do(s, pre, DropRead(c)), pre, Decrement), pre, Test), pre, SetFlag);
      assert u.flag && d in u.stack[0].holds && u.stack[0].holds[d] == s.stack[0].holds[d];
    }
  }

  // ---------- runs that go wrong ----------

  /** A thread reads lock `k` with interrupts on. */
  lemma ReachReading(pre: seq<bool>, use: Usage, k: int)
    requires k in use.threadReads && 0 <= k < |pre|
    ensures Reached(pre, use, Alone(true, 0, map[], map[CALL := k], Ready))
  {
    var waiting := Alone(true, 0, map[], map[], ReadWait(k, CALL));
    ReachIdle(pre, use);
    ReachStep(pre, use, Alone(true, 0, map[], map[], Ready), Read(k, CALL), waiting);
    ReachStep(pre, use, waiting, ReadDone, Alone(true, 0, map[], map[CALL := k], Ready));
  }

  /** So does a handler. */
  lemma ReachHandlerReading(pre: seq<bool>, use: Usage, k: int)
    requires k in use.handlerReads && 0 <= k < |pre|
    ensures Reached(pre, use, Handling(0, map[], map[], map[], map[HANDLER_CALL := k], Ready))
  {
    var idle, waiting := Handling(0, map[], map[], map[], map[], Ready),
                         Handling(0, map[], map[], map[], map[], ReadWait(k, HANDLER_CALL));
    ReachIdle(pre, use);
    ReachHandler(pre, use, 0, map[], map[]);
    ReachStep(pre, use, idle, Read(k, HANDLER_CALL), waiting);
    ReachStep(pre, use, waiting, ReadDone, Handling(0, map[], map[], map[], map[HANDLER_CALL := k], Ready));
  }

  /** Interrupts on, nothing open, and the disable count wrapped below zero. */
  const WRAPPED: Core := Alone(true, COUNTER - 1, map[], map[], Ready)

  /** Dropping the guard of a non-preemptable lock wraps the disable count. */
  lemma ReachWrapped(pre: seq<bool>, use: Usage, k: int)
    requires k in use.threadReads && 0 <= k < |pre| && !pre[k]
    ensures Reached(pre, use, WRAPPED)
  {
    var down, testing := Alone(true, 0, map[], map[], ReadDown(k)), Alone(true, COUNTER - 1, map[], map[], Testing(0));
    ReachReading(pre, use, k);
    assert map[CALL := k] - {CALL} == map[];
    ReachStep(pre, use, Alone(true, 0, map[], map[CALL := k], Ready), DropRead(CALL), down);
    ReachStep(pre, use, down, Decrement, testing);
    ReachStep(pre, use, testing, Test, WRAPPED);
  }

  lemma ReachHandlerWrapped(pre: seq<bool>, use: Usage, k: int)
    requires k in use.handlerReads && 0 <= k < |pre| && !pre[k]
    ensures Reached(pre, use, WRAPPED)
  {
    var down := Handling(0, map[], map[], map[], map[], ReadDown(k));
    var testing := Handling(COUNTER - 1, map[], map[], map[], map[], Testing(0));
    ReachHandlerReading(pre, use, k);
    assert map[HANDLER_CALL := k] - {HANDLER_CALL} == map[];
    ReachStep(pre, use, Handling(0, map[], map[], map[], map[HANDLER_CALL := k], Ready), DropRead(HANDLER_CALL), down);
    ReachStep(pre, use, down, Decrement, testing);
    ReachStep(pre, use, testing, Test, Handling(COUNTER - 1, map[], map[], map[], map[], Ready));
    ReachReturn(pre, use, COUNTER - 1, map[], map[]);
  }

  /** Every lock that is read, by threads or by handlers, is preemptable. */
  predicate ReadsPreemptable(use: Usage, pre: seq<bool>) {
    AllPreemptable(use.threadReads + use.handlerReads, pre)
  }

  lemma ReachUnbalanced(pre: seq<bool>, use: Usage)
    requires !ReadsPreemptable(use, pre)
    ensures Reached(pre, use, WRAPPED)
  {
    var k :| k in use.threadReads + use.handlerReads && 0 <= k < |pre| && !pre[k];
    if k in use.threadReads {
      ReachWrapped(pre, use, k);
    } else {
      ReachHandlerWrapped(pre, use, k);
    }
  }

  /** From there the next non-preemptable lock is held at a count of 0. */
  lemma ReachHolding(pre: seq<bool>, use: Usage, k: int)
    requires Reached(pre, use, WRAPPED) && k in use.threadLocks && 0 <= k < |pre| && !pre[k]
    ensures Reached(pre, use, Alone(false, 0, map[CALL := k], map[], Ready))
  {
    var up, cli := Alone(true, COUNTER - 1, map[], map[], CountUp(k)), Alone(true, 0, map[], map[], Cli(k));
    ReachStep(pre, use, WRAPPED, Begin(k), up);
    AloneTotal(up, pre);
    ReachStep(pre, use, up, Increment, cli);
    var taking, waiting := Alone(false, 0, map[], map[], Taking(k)), Alone(false, 0, map[], map[], Waiting(k, CALL));
    ReachStep(pre, use, cli, ClearFlag, taking);
    ReachStep(pre, use, taking, Ticket(CALL), waiting);
    ReachStep(pre, use, waiting, Acquire, Alone(false, 0, map[CALL := k], map[], Ready));
  }

  lemma HoldingTotal(s: Core, pre: seq<bool>, k: int)
    requires |s.stack| == 1 && s.stack[0].holds == map[CALL := k] && s.stack[0].pc.Ready? && s.stack[0].explicit == 0
    requires 0 <= k < |pre| && !pre[k]
    ensures TotalOpen(s.stack, pre) == 1
  {
    assert s.stack == [s.stack[0]];
    TotalOne(s.stack[0], pre);
    assert Pinned(s.stack[0], pre) == {CALL};
  }

  lemma ReachNested(pre: seq<bool>, use: Usage, k: int)
    requires Reached(pre, use, WRAPPED) && k in use.threadLocks && 0 <= k < |pre| && !pre[k]
    ensures Reached(pre, use, Core(false, 1, 0, [Frame(map[CALL := k], map[], 1, Ready, false)]))
  {
    var h, s := map[CALL := k], Alone(false, 0, map[CALL := k], map[], Ready);
    var cli := Core(false, 1, 0, [Frame(h, map[], 1, DisableCli, false)]);
    ReachHolding(pre, use, k);
    HoldingTotal(s, pre, k);
    ReachStep(pre, use, s, Disable, cli);
    ReachStep(pre, use, cli, ClearFlag, Core(false, 1, 0, [Frame(h, map[], 1, Ready, false)]));
  }

  /** The thread holds lock `k` alone, with interrupts on. */
  function Exposed(k: int): Core {
    Alone(true, 0, map[CALL := k], map[], Ready)
  }

  /** Interrupts come on while the lock is held: one disable and enable inside the section is enough. */
  lemma ReachExposed(pre: seq<bool>, use: Usage, k: int)
    requires Reached(pre, use, WRAPPED) && k in use.threadLocks && 0 <= k < |pre| && !pre[k]
    ensures Reached(pre, use, Exposed(k)) && !Undisturbed(Exposed(k), pre) && Can(Exposed(k), pre, Interrupt)
  {
    var h := map[CALL := k];
    var testing, setting := Alone(false, 0, h, map[], Testing(1)), Alone(false, 0, h, map[], Sti);
    ReachNested(pre, use, k);
    ReachStep(pre, use, Core(false, 1, 0, [Frame(h, map[], 1, Ready, false)]), Enable, testing);
    ReachStep(pre, use, testing, Test, setting);
    ReachStep(pre, use, setting, SetFlag, Exposed(k));
    assert CALL in Exposed(k).stack[0].holds;
  }

  /** Nothing is open any more and interrupts are off. */
  const SWITCHED_OFF: Core := Alone(false, COUNTER - 1, map[], map[], Ready)

  /** Or one disable and enable outside all sections leaves interrupts off. */
  lemma ReachSwitchedOff(pre: seq<bool>, use: Usage)
    requires Reached(pre, use, WRAPPED)
    ensures Reached(pre, use, SWITCHED_OFF) && !Restored(SWITCHED_OFF, pre)
  {
    var cli := Core(true, 0, 0, [Frame(map[], map[], 1, DisableCli, false)]);
    var off := Core(false, 0, 0, [Frame(map[], map[], 1, Ready, false)]);
    var testing := Alone(false, COUNTER - 1, map[], map[], Testing(0));
    AloneTotal(WRAPPED, pre);
    ReachStep(pre, use, WRAPPED, Disable, cli);
    ReachStep(pre, use, cli, ClearFlag, off);
    ReachStep(pre, use, off, Enable, testing);
    ReachStep(pre, use, testing, Test, SWITCHED_OFF);
    AloneTotal(SWITCHED_OFF, pre);
    TotalOne(SWITCHED_OFF.stack[0], pre);
  }

  // ---------- the exact conditions ----------

  lemma {:induction false} FollowsReadsIn(s: Core, pre: seq<bool>, use: Usage, acts: seq<Act>)
    requires CoreLocals.LegalRun(s, pre, acts) && Follows(s, pre, use, acts)
    ensures ReadsIn(use.threadReads + use.handlerReads, acts)
    decreases |acts|
  {
    if acts != [] {
      FollowsReadsIn(Do(s, pre, acts[0]), pre, use, acts[1..]);
      forall i | 0 <= i < |acts| && acts[i].Read? ensures acts[i].k in use.threadReads + use.handlerReads {
        assert i > 0 ==> acts[i] == acts[1..][i - 1];
      }
    }
  }

  lemma PreemptableReadersSafe(pre: seq<bool>, use: Usage, s: Core)
    requires ReadsPreemptable(use, pre) && Reached(pre, use, s)
    ensures Undisturbed(s, pre) && Restored(s, pre)
  {
    var acts :| ReachedBy(pre, use, acts, s);
    FollowsReadsIn(BOOTED, pre, use, acts);
    HandlersNeverPreemptHolder(pre, use.threadReads + use.handlerReads, acts);
    FlagComesBack(pre, use.threadReads + use.handlerReads, acts);
  }

  /**
    Over all runs, handlers never preempt a holder if and only if every lock that is
    ever read is preemptable, or every lock that threads take is.
   */
  lemma HoldersSafeExactly(pre: seq<bool>, use: Usage)
    ensures (forall s :: Reached(pre, use, s) ==> Undisturbed(s, pre)) <==>
            ReadsPreemptable(use, pre) || AllPreemptable(use.threadLocks, pre)
  {
    if ReadsPreemptable(use, pre) {
      forall s | Reached(pre, use, s) ensures Undisturbed(s, pre) {
        PreemptableReadersSafe(pre, use, s);
      }
    } else if AllPreemptable(use.threadLocks, pre) {
      forall s | Reached(pre, use, s) ensures Undisturbed(s, pre) {
        ReachedUses(pre, use, s);
      }
    } else {
      var k :| k in use.threadLocks && 0 <= k < |pre| && !pre[k];
      ReachUnbalanced(pre, use);
      ReachExposed(pre, use, k);
    }
  }

  /** Over all runs, interrupts are never left off if and only if every lock that is ever read is preemptable. */
  lemma FlagComesBackExactly(pre: seq<bool>, use: Usage)
    ensures (forall s :: Reached(pre, use, s) ==> Restored(s, pre)) <==> ReadsPreemptable(use, pre)
  {
    if ReadsPreemptable(use, pre) {
      forall s | Reached(pre, use, s) ensures Restored(s, pre) {
        PreemptableReadersSafe(pre, use, s);
      }
    } else {
      ReachUnbalanced(pre, use);
      ReachSwitchedOff(pre, use);
    }
  }
}
