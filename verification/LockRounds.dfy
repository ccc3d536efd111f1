/**
  Getting a ticket lock and letting go of it on the machine of `Kernels`: a context
  whose turn it is gets the lock, and dropping a guard releases it and hands it over.
 */
module LockRounds {
  import opened TicketLocks
  import CoreLocals
  import opened Kernels

  function Level(s: Kernel, i: int): int
    requires 0 <= i < |s.cores|
  {
    |s.cores[i].stack| - 1
  }

  /** The running context of core `i` waits for ticket lock `k` by call `c`. */
  predicate Awaits(s: Kernel, i: int, k: int, c: Call) {
    && 0 <= i < |s.cores| && s.cores[i].stack != [] && 0 <= k < |s.locks|
    && Running(s, i).pc == CoreLocals.Waiting(k, c)
  }

  /** The running context of core `i` is between two operations and holds ticket lock `k` by call `c`. */
  predicate CanDrop(s: Kernel, i: int, k: int, c: Call) {
    && 0 <= i < |s.cores| && s.cores[i].stack != [] && 0 <= k < |s.locks|
    && Running(s, i).pc.Ready? && Holds(s, i, Level(s, i), k, c)
  }

  // ---------- getting in ----------

  lemma AwaitedPhase(s: Kernel, pre: seq<bool>, i: int, k: int, c: Call)
    requires Kernels.Inv(s, pre) && Awaits(s, i, k, c)
    ensures c in s.locks[k].calls && c.core == i && c.level == Level(s, i) && TicketLocks.Inv(s.locks[k])
    ensures s.locks[k].calls[c].Spinning? || s.locks[k].calls[c].Checking? || s.locks[k].calls[c].Granted?
  {
    TopFacts(s, pre, i);
    TopMatched(s, pre, i, k, c);
  }

  /** The owner check of a context whose turn it is sends it back to the counters. */
  lemma TurnChecks(s: Kernel, pre: seq<bool>, i: int, k: int, c: Call)
    requires Kernels.Inv(s, pre) && Awaits(s, i, k, c) && AtHead(s.locks[k], c) && s.locks[k].calls[c].Checking?
    ensures Kernels.Enabled(s, pre, Event(i, CheckOwner))
    ensures var t := Kernels.Next(s, pre, Event(i, CheckOwner));
            Kernels.Inv(t, pre) && Awaits(t, i, k, c) && AtHead(t.locks[k], c) && t.locks[k].calls[c].Spinning?
  {
    AwaitedPhase(s, pre, i, k, c);
    HeadIsUnopposed(s.locks[k], c);
    Kernels.StepInv(s, pre, Event(i, CheckOwner));
  }

  /** Its next look at the counters lets it out of the spin loop. */
  lemma TurnPolls(s: Kernel, pre: seq<bool>, i: int, k: int, c: Call)
    requires Kernels.Inv(s, pre) && Awaits(s, i, k, c) && AtHead(s.locks[k], c) && s.locks[k].calls[c].Spinning?
    ensures Kernels.Enabled(s, pre, Event(i, PollTicket))
    ensures var t := Kernels.Next(s, pre, Event(i, PollTicket));
            Kernels.Inv(t, pre) && Awaits(t, i, k, c) && AtHead(t.locks[k], c) && t.locks[k].calls[c].Granted?
  {
    AwaitedPhase(s, pre, i, k, c);
    PollIsExact(s.locks[k], c);
    Kernels.StepInv(s, pre, Event(i, PollTicket));
  }

  /** It then becomes the owner and goes on with the guard. */
  lemma TurnEnters(s: Kernel, pre: seq<bool>, i: int, k: int, c: Call)
    requires Kernels.Inv(s, pre) && Awaits(s, i, k, c)
    requires c in s.locks[k].calls && s.locks[k].calls[c].Granted?
    ensures Kernels.Enabled(s, pre, Event(i, StoreOwner))
    ensures var t := Kernels.Next(s, pre, Event(i, StoreOwner));
            Kernels.Inv(t, pre) && CanDrop(t, i, k, c) && t.locks[k].owner == i
  {
    AwaitedPhase(s, pre, i, k, c);
    Kernels.StepInv(s, pre, Event(i, StoreOwner));
  }

  /** What is left to do for a context whose turn it is. */
  function TurnSteps(ph: Phase, i: int): seq<Event> {
    match ph
    case Checking(_) => [Event(i, CheckOwner)] + ([Event(i, PollTicket)] + ([Event(i, StoreOwner)] + []))
    case Spinning(_) => [Event(i, PollTicket)] + ([Event(i, StoreOwner)] + [])
    case _ => [Event(i, StoreOwner)] + []
  }

  /**
    A context that waits and is first in line gets the lock by its own steps alone:
    from wherever it stands in the spin loop, they are enabled and end with the guard.
   */
  lemma TurnAcquires(s: Kernel, pre: seq<bool>, i: int, k: int, c: Call)
    requires Kernels.Inv(s, pre) && Awaits(s, i, k, c) && AtHead(s.locks[k], c)
    ensures Kernels.LegalRun(s, pre, TurnSteps(s.locks[k].calls[c], i))
    ensures CanDrop(Kernels.Run(s, pre, TurnSteps(s.locks[k].calls[c], i)), i, k, c)
    decreases if s.locks[k].calls[c].Checking? then 2 else if s.locks[k].calls[c].Spinning? then 1 else 0
  {
    AwaitedPhase(s, pre, i, k, c);
    match s.locks[k].calls[c]
    case Checking(_) =>
      TurnChecks(s, pre, i, k, c);
      var t := Kernels.Next(s, pre, Event(i, CheckOwner));
      TurnAcquires(t, pre, i, k, c);
      RunCons(s, pre, Event(i, CheckOwner), TurnSteps(t.locks[k].calls[c], i));
    case Spinning(_) =>
      TurnPolls(s, pre, i, k, c);
      var t := Kernels.Next(s, pre, Event(i, PollTicket));
      TurnAcquires(t, pre, i, k, c);
      RunCons(s, pre, Event(i, PollTicket), TurnSteps(t.locks[k].calls[c], i));
    case _ =>
      TurnEnters(s, pre, i, k, c);
      RunCons(s, pre, Event(i, StoreOwner), []);
  }

  // ---------- letting go ----------

  lemma DropClears(s: Kernel, pre: seq<bool>, i: int, k: int, c: Call)
    requires Kernels.Inv(s, pre) && CanDrop(s, i, k, c)
    ensures TicketLocks.Inv(s.locks[k]) && TicketLocks.Enabled(s.locks[k], Clear(c))
    ensures Kernels.Enabled(s, pre, Event(i, ClearOwner(c)))
    ensures var t := Kernels.Next(s, pre, Event(i, ClearOwner(c)));
            && Kernels.Inv(t, pre) && t.locks == s.locks[k := TicketLocks.Next(s.locks[k], Clear(c))]
            && |t.cores| == |s.cores| && t.cores[i].stack != [] && Running(t, i).pc == CoreLocals.Unlocking(k, c)
            && (forall n :: 0 <= n < |s.cores| && n != i ==> t.cores[n] == s.cores[n])
  {
    HoldsIsHolding(s, pre, i, Level(s, i), k, c);
    Kernels.StepInv(s, pre, Event(i, ClearOwner(c)));
  }

  lemma DropPasses(s: Kernel, pre: seq<bool>, i: int, k: int, c: Call)
    requires Kernels.Inv(s, pre) && 0 <= i < |s.cores| && s.cores[i].stack != [] && 0 <= k < |s.locks|
    requires Running(s, i).pc == CoreLocals.Unlocking(k, c)
    ensures Kernels.Enabled(s, pre, Event(i, PassOn)) && TicketLocks.Enabled(s.locks[k], Advance(c))
    ensures var t := Kernels.Next(s, pre, Event(i, PassOn));
            && Kernels.Inv(t, pre) && t.locks == s.locks[k := TicketLocks.Next(s.locks[k], Advance(c))]
            && |t.cores| == |s.cores| && t.cores[i].stack != []
            && Running(t, i).pc == (if pre[k] then CoreLocals.Ready else CoreLocals.CountDown(k))
            && (forall n :: 0 <= n < |s.cores| && n != i ==> t.cores[n] == s.cores[n])
  {
    TopFacts(s, pre, i);
    TopMatched(s, pre, i, k, c);
    Kernels.StepInv(s, pre, Event(i, PassOn));
  }

  lemma NobodyHolds(s: Kernel, pre: seq<bool>, k: int)
    requires Kernels.Inv(s, pre) && 0 <= k < |s.locks| && s.locks[k].owner == NO_OWNER
    ensures forall n, j, d :: !Holds(s, n, j, k, d)
  {
    assert TicketLocks.Inv(s.locks[k]);
    OwnerIsHolder(s.locks[k]);
    forall n, j, d ensures !Holds(s, n, j, k, d) {
      if Holds(s, n, j, k, d) {
        HoldsIsHolding(s, pre, n, j, k, d);
      }
    }
  }

  /**
    Dropping a guard always works and releases the lock: after the first event no
    context of any core holds it, after the second the call is gone, the turn is one
    further, and all others in line have come one closer.
   */
  lemma DropReleases(s: Kernel, pre: seq<bool>, i: int, k: int, c: Call)
    requires Kernels.Inv(s, pre) && CanDrop(s, i, k, c)
    ensures Kernels.Enabled(s, pre, Event(i, ClearOwner(c)))
    ensures var t := Kernels.Next(s, pre, Event(i, ClearOwner(c)));
            && k < |t.locks| && t.locks[k].owner == NO_OWNER && (forall n, j, d :: !Holds(t, n, j, k, d))
            && Kernels.Enabled(t, pre, Event(i, PassOn))
            && var u := Kernels.Next(t, pre, Event(i, PassOn));
               && Kernels.Inv(u, pre) && |u.locks| == |s.locks|
               && (forall m :: 0 <= m < |s.locks| && m != k ==> u.locks[m] == s.locks[m])
               && u.locks[k].calls == s.locks[k].calls - {c} && u.locks[k].current == Bump(s.locks[k].current)
               && (forall d :: d in u.locks[k].calls ==>
                     Distance(u.locks[k].current, u.locks[k].calls[d].ticket) ==
                     Distance(s.locks[k].current, s.locks[k].calls[d].ticket) - 1)
  {
    DropClears(s, pre, i, k, c);
    ReleaseHandsOver(s.locks[k], c);
    var t := Kernels.Next(s, pre, Event(i, ClearOwner(c)));
    NobodyHolds(t, pre, k);
    DropPasses(t, pre, i, k, c);
  }

  /** Both events of a drop. */
  ghost predicate Drops(s: Kernel, pre: seq<bool>, i: int, c: Call, u: Kernel) {
    && Kernels.Enabled(s, pre, Event(i, ClearOwner(c)))
    && var t := Kernels.Next(s, pre, Event(i, ClearOwner(c)));
       Kernels.Enabled(t, pre, Event(i, PassOn)) && Kernels.Next(t, pre, Event(i, PassOn)) == u
  }

  lemma DropLeavesOthers(s: Kernel, pre: seq<bool>, i: int, k: int, c: Call, n: int, u: Kernel)
    requires Kernels.Inv(s, pre) && CanDrop(s, i, k, c) && Drops(s, pre, i, c, u) && 0 <= n < |s.cores| && n != i
    ensures |u.cores| == |s.cores| && u.cores[n] == s.cores[n] && |u.locks| == |s.locks|
  {
  }

  lemma PollOfWaiter(u: Kernel, pre: seq<bool>, n: int, k: int, d: Call)
    requires Kernels.Inv(u, pre) && Awaits(u, n, k, d) && d in u.locks[k].calls && u.locks[k].calls[d].Spinning?
    ensures Kernels.Enabled(u, pre, Event(n, PollTicket))
    ensures var l := Kernels.Next(u, pre, Event(n, PollTicket)).locks[k];
            d in l.calls && (l.calls[d].Granted? <==> AtHead(u.locks[k], d))
  {
    AwaitedPhase(u, pre, n, k, d);
    PollIsExact(u.locks[k], d);
  }

  /**
    Hand-over: after the drop, a context of another core that spins on the lock is let
    in at its next look at the counters if and only if it was next in line, and since
    someone is in line someone is next.
   */
  lemma DropHandsOver(s: Kernel, pre: seq<bool>, i: int, k: int, c: Call, n: int, d: Call, u: Kernel)
    requires Kernels.Inv(s, pre) && CanDrop(s, i, k, c) && Drops(s, pre, i, c, u)
    requires n != i && Awaits(s, n, k, d) && d in s.locks[k].calls && s.locks[k].calls[d].Spinning?
    ensures Awaits(u, n, k, d) && Kernels.Enabled(u, pre, Event(n, PollTicket)) && exists h :: AtHead(u.locks[k], h)
    ensures var l := Kernels.Next(u, pre, Event(n, PollTicket)).locks[k];
            && d in l.calls
            && (l.calls[d].Granted? <==> Distance(s.locks[k].current, s.locks[k].calls[d].ticket) == 1)
  {
    DropLeavesOthers(s, pre, i, k, c, n, u);
    DropReleases(s, pre, i, k, c);
    HoldsIsHolding(s, pre, i, Level(s, i), k, c);
    PollOfWaiter(u, pre, n, k, d);
    AwaitedPhase(u, pre, n, k, d);
    OneHead(u.locks[k]);
  }
}
