/**
  Handlers that wait for a lock which their own core will never give up: a `read`
  of a lock that is owned below, or a `lock` of one that is read below. The lock
  has no deadlock check there, so the core stands still.
 */
module Stalls {
  import opened TicketLocks
  import opened CoreLocals
  import opened CoreRuns
  import opened ReadGuards

  /** A handler waits to read a lock that a context of its core owns. */
  predicate StuckReader(s: Core) {
    |s.stack| == 2 && s.stack[1].pc.ReadWait? && !NoWriter(s, s.stack[1].pc.k)
  }

  /** A handler waits to own a lock that a context of its core reads. */
  predicate StuckWriter(s: Core) {
    |s.stack| == 2 && s.stack[1].pc.Waiting? && !NoReader(s, s.stack[1].pc.k)
  }

  // ---------- they stay stuck ----------

  /** A stuck writer never gets the lock, whatever its core does. */
  lemma {:induction false} StuckWriterStays(s: Core, pre: seq<bool>, use: Usage, acts: seq<Act>)
    requires Shape(s, pre) && |s.stack| == 2 && CoreLocals.LegalRun(s, pre, acts) && Follows(s, pre, use, acts)
    requires (s.stack[1].pc.Waiting? && !NoReader(s, s.stack[1].pc.k)) || s.stack[1].pc.Dead?
    ensures var t := CoreLocals.Run(s, pre, acts);
            && |t.stack| == 2 && t.stack[0] == s.stack[0] && t.stack[1].holds == s.stack[1].holds
            && (t.stack[1].pc.Waiting? || t.stack[1].pc.Dead?)
    decreases |acts|
  {
    if acts != [] {
      assert Allowed(s, pre, use, acts[0]);
      assert acts[0].Deadlock?;
      ShapeStep(s, pre, acts[0]);
      StuckWriterStays(Do(s, pre, acts[0]), pre, use, acts[1..]);
    }
  }

  // ---------- runs to them ----------

  /** The thread owns the preemptable lock `k` with interrupts on. */
  lemma ReachOwner(pre: seq<bool>, use: Usage, k: int)
    requires k in use.threadLocks && 0 <= k < |pre| && pre[k]
    ensures Reached(pre, use, Exposed(k))
  {
    var taking, waiting := Alone(true, 0, map[], map[], Taking(k)), Alone(true, 0, map[], map[], Waiting(k, CALL));
    ReachIdle(pre, use);
    ReachStep(pre, use, Alone(true, 0, map[], map[], Ready), Begin(k), taking);
    ReachStep(pre, use, taking, Ticket(CALL), waiting);
    ReachStep(pre, use, waiting, Acquire, Exposed(k));
  }

  /** A handler reads a lock that the thread owns; if it is not preemptable, after an earlier read wrapped the count. */
  lemma ReachStuckReader(pre: seq<bool>, use: Usage, k: int) returns (s: Core)
    requires k in use.threadLocks && k in use.handlerReads && 0 <= k < |pre|
    ensures Reached(pre, use, s) && StuckReader(s)
  {
    if pre[k] {
      ReachOwner(pre, use, k);
    } else {
      ReachHandlerWrapped(pre, use, k);
      ReachExposed(pre, use, k);
    }
    var below := map[CALL := k];
    ReachHandler(pre, use, 0, below, map[]);
    s := Handling(0, below, map[], map[], map[], ReadWait(k, HANDLER_CALL));
    ReachStep(pre, use, Handling(0, below, map[], map[], map[], Ready), Read(k, HANDLER_CALL), s);
    assert CALL in s.stack[0].holds;
  }

  /** A handler on its way to a lock, up to the wait for it. */
  lemma ReachWaiting(pre: seq<bool>, use: Usage, k: int, below: map<Call, int>, reading: map<Call, int>)
    requires k in use.handlerLocks && 0 <= k < |pre| && !pre[k]
    requires Reached(pre, use, Handling(0, map[], below, map[], reading, Ready))
    ensures Reached(pre, use, Handling(1, map[], below, map[], reading, Waiting(k, HANDLER_CALL)))
  {
    var up := Handling(0, map[], below, map[], reading, CountUp(k));
    var cli := Handling(1, map[], below, map[], reading, Cli(k));
    var taking := Handling(1, map[], below, map[], reading, Taking(k));
    ReachStep(pre, use, Handling(0, map[], below, map[], reading, Ready), Begin(k), up);
    HandlingTotal(up, pre);
    ReachStep(pre, use, up, Increment, cli);
    ReachStep(pre, use, cli, ClearFlag, taking);
    var waiting := Handling(1, map[], below, map[], reading, Waiting(k, HANDLER_CALL));
    ReachStep(pre, use, taking, Ticket(HANDLER_CALL), waiting);
  }

  /** A handler reads a lock that it owns itself. */
  lemma ReachSelfReader(pre: seq<bool>, use: Usage, k: int) returns (s: Core)
    requires k in use.handlerLocks && k in use.handlerReads && 0 <= k < |pre| && !pre[k]
    ensures Reached(pre, use, s) && StuckReader(s)
  {
    var waiting := Handling(1, map[], map[], map[], map[], Waiting(k, HANDLER_CALL));
    var own := map[HANDLER_CALL := k];
    ReachIdle(pre, use);
    ReachHandler(pre, use, 0, map[], map[]);
    ReachWaiting(pre, use, k, map[], map[]);
    ReachStep(pre, use, waiting, Acquire, Handling(1, map[], map[], own, map[], Ready));
    s := Handling(1, map[], map[], own, map[], ReadWait(k, HANDLER_CALL));
    ReachStep(pre, use, Handling(1, map[], map[], own, map[], Ready), Read(k, HANDLER_CALL), s);
    assert HANDLER_CALL in s.stack[1].holds;
  }

  /** A handler locks what the interrupted thread, or the handler itself, reads. */
  lemma ReachStuckWriter(pre: seq<bool>, use: Usage, k: int) returns (s: Core)
    requires k in use.handlerLocks && (k in use.threadReads || k in use.handlerReads) && 0 <= k < |pre| && !pre[k]
    ensures Reached(pre, use, s) && StuckWriter(s)
  {
    if k in use.threadReads {
      var below := map[CALL := k];
      ReachReading(pre, use, k);
      ReachHandler(pre, use, 0, map[], below);
      ReachWaiting(pre, use, k, below, map[]);
      s := Handling(1, map[], below, map[], map[], Waiting(k, HANDLER_CALL));
      assert CALL in s.stack[0].reading;
    } else {
      var own := map[HANDLER_CALL := k];
      ReachHandlerReading(pre, use, k);
      ReachWaiting(pre, use, k, map[], own);
      s := Handling(1, map[], map[], map[], own, Waiting(k, HANDLER_CALL));
      assert HANDLER_CALL in s.stack[1].reading;
    }
  }

  // ---------- the exact conditions ----------

  /** Nothing that handlers read is owned by threads, or by handlers that get so far. */
  predicate ReadsClear(use: Usage, pre: seq<bool>) {
    forall k :: k in use.handlerReads && 0 <= k < |pre| ==>
      k !in use.threadLocks && !(k in use.handlerLocks && !pre[k])
  }

  /** Nothing non-preemptable that handlers lock is read. */
  predicate LocksClear(use: Usage, pre: seq<bool>) {
    forall k :: k in use.handlerLocks && 0 <= k < |pre| && !pre[k] ==>
      k !in use.threadReads && k !in use.handlerReads
  }

  lemma ClearReaderMoves(pre: seq<bool>, use: Usage, s: Core)
    requires Reached(pre, use, s) && ReadsClear(use, pre)
    ensures !StuckReader(s)
  {
    ReachedUses(pre, use, s);
    if |s.stack| == 2 && s.stack[1].pc.ReadWait? {
      assert Among(s.stack[1].pc.k, use.handlerReads, pre);
      forall j, c | 0 <= j < |s.stack| && c in s.stack[j].holds ensures s.stack[j].holds[c] != s.stack[1].pc.k {
        assert Among(s.stack[j].holds[c], if j == 0 then use.threadLocks else use.handlerLocks, pre);
      }
    }
  }

  /** Over all runs, no handler ever waits to read what its core owns if and only if the policy is clear of it. */
  lemma ReadersMoveExactly(pre: seq<bool>, use: Usage)
    ensures (forall s :: Reached(pre, use, s) ==> !StuckReader(s)) <==> ReadsClear(use, pre)
  {
    if ReadsClear(use, pre) {
      forall s | Reached(pre, use, s) ensures !StuckReader(s) {
        ClearReaderMoves(pre, use, s);
      }
    } else {
      var k :| k in use.handlerReads && 0 <= k < |pre| &&
               (k in use.threadLocks || (k in use.handlerLocks && !pre[k]));
      var s;
      if k in use.threadLocks {
        s := ReachStuckReader(pre, use, k);
      } else {
        s := ReachSelfReader(pre, use, k);
      }
      assert Reached(pre, use, s) && StuckReader(s);
    }
  }

  lemma ClearWriterMoves(pre: seq<bool>, use: Usage, s: Core)
    requires Reached(pre, use, s) && LocksClear(use, pre)
    ensures !StuckWriter(s)
  {
    ReachedUses(pre, use, s);
    if |s.stack| == 2 && s.stack[1].pc.Waiting? {
      assert Among(s.stack[1].pc.k, use.handlerLocks, pre) && !pre[s.stack[1].pc.k];
      forall j, c | 0 <= j < |s.stack| && c in s.stack[j].reading ensures s.stack[j].reading[c] != s.stack[1].pc.k {
        assert Among(s.stack[j].reading[c], if j == 0 then use.threadReads else use.handlerReads, pre);
      }
    }
  }

  /** Over all runs, no handler ever waits to own what its core reads if and only if the policy is clear of it. */
  lemma WritersMoveExactly(pre: seq<bool>, use: Usage)
    ensures (forall s :: Reached(pre, use, s) ==> !StuckWriter(s)) <==> LocksClear(use, pre)
  {
    if LocksClear(use, pre) {
      forall s | Reached(pre, use, s) ensures !StuckWriter(s) {
        ClearWriterMoves(pre, use, s);
      }
    } else {
      var k :| k in use.handlerLocks && 0 <= k < |pre| && !pre[k] && (k in use.threadReads || k in use.handlerReads);
      var s := ReachStuckWriter(pre, use, k);
      assert Reached(pre, use, s) && StuckWriter(s);
    }
  }

  /** With no policy about who takes which lock, readers never get stuck if and only if nothing is ever read. */
  lemma NoPolicy(pre: seq<bool>, readable: set<int>, locks: set<int>)
    requires forall k :: 0 <= k < |pre| ==> k in locks
    ensures (forall s :: Reached(pre, Usage(locks, readable, locks, readable), s) ==> !StuckReader(s)) <==>
            (forall k :: 0 <= k < |pre| ==> k !in readable)
  {
    ReadersMoveExactly(pre, Usage(locks, readable, locks, readable));
  }
}
