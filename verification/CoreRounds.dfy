/**
  An undisturbed round of `lock` and `unlock`, seen from the core and from the lock: it
  runs through and leaves both as they were, the interrupt flag and the disable
  count included, but for the two ticket counters.
 */
module CoreRounds {
  import opened TicketLocks
  import opened CoreLocals

  // ---------- the core ----------

  /** Core `base` with another flag, count and running context. */
  function CoreAt(base: Core, flag: bool, count: int, f: Frame): Core
    requires base.stack != []
  {
    Core(flag, count, base.depth, base.stack[|base.stack| - 1 := f])
  }

  lemma SetTopAt(base: Core, flag: bool, count: int, f: Frame, g: Frame)
    requires base.stack != []
    ensures Top(CoreAt(base, flag, count, f)) == f
    ensures SetTop(CoreAt(base, flag, count, f), g) == CoreAt(base, flag, count, g)
  {
    var t := |base.stack| - 1;
    assert base.stack[t := f][t := g] == base.stack[t := g];
  }

  /** The context is between two operations and the books of the core are in order. */
  predicate ReadyNow(core: Core, pre: seq<bool>) {
    && 1 <= |core.stack| <= 2 && Top(core).pc.Ready? && core.count >= 0
    && (core.flag <==> core.count == 0 && core.depth == 0)
    && core.count == TotalOpen(core.stack, pre) < COUNTER - 1
  }

  lemma ReadyFlag(core: Core, pre: seq<bool>)
    requires CoreOk(core, pre) && Top(core).pc.Ready?
    ensures core.count >= 0 && (core.flag <==> core.count == 0 && core.depth == 0)
  {
    OpenBounds(core.stack[0], pre);
    if |core.stack| == 2 {
      OpenBounds(core.stack[1], pre);
    }
  }

  lemma CoreOpens(core: Core, pre: seq<bool>, k: int)
    requires ReadyNow(core, pre) && 0 <= k < |pre| && !pre[k]
    ensures var f := Top(core);
            var c1 := CoreAt(core, core.flag, core.count, f.(pc := CountUp(k)));
            var c2 := CoreAt(core, core.flag, core.count + 1, f.(pc := Cli(k)));
            && Can(core, pre, Begin(k)) && Do(core, pre, Begin(k)) == c1
            && Can(c1, pre, Increment) && Do(c1, pre, Increment) == c2
            && Can(c2, pre, ClearFlag)
            && Do(c2, pre, ClearFlag) ==
               CoreAt(core, false, core.count + 1, f.(pc := Taking(k)))
  {
    var f := Top(core);
    OpenSame(core, pre, k);
    SetTopAt(core, core.flag, core.count + 1, f.(pc := CountUp(k)), f.(pc := Cli(k)));
    SetTopAt(core, false, core.count + 1, f.(pc := Cli(k)), f.(pc := Taking(k)));
  }

  lemma OpenSame(core: Core, pre: seq<bool>, k: int)
    requires 1 <= |core.stack| <= 2 && Top(core).pc.Ready?
    ensures var f := Top(core);
            TotalOpen(CoreAt(core, core.flag, core.count, f.(pc := CountUp(k))).stack, pre) ==
            TotalOpen(core.stack, pre)
  {
    var f := Top(core);
    var g := f.(pc := CountUp(k));
    PinnedSame(f, g, pre);
    var t := CoreAt(core, core.flag, core.count, g);
    if |core.stack| == 1 {
      assert core.stack == [f] && t.stack == [g];
      TotalOne(f, pre);
      TotalOne(g, pre);
    } else {
      assert core.stack == [core.stack[0], f] && t.stack == [core.stack[0], g];
      TotalTwo(core.stack[0], f, pre);
      TotalTwo(core.stack[0], g, pre);
    }
  }

  lemma CoreBegins(core: Core, pre: seq<bool>, k: int)
    requires core.stack != [] && Top(core).pc.Ready? && 0 <= k < |pre| && pre[k] && core.depth == 0
    ensures Can(core, pre, Begin(k))
    ensures Do(core, pre, Begin(k)) ==
            CoreAt(core, core.flag, core.count, Top(core).(pc := Taking(k)))
  {
  }

  /** The running context takes a ticket, becomes the owner, drops the guard and passes the lock on. */
  lemma CoreHolds(base: Core, pre: seq<bool>, k: int, c: Call, flag: bool, count: int)
    requires base.stack != [] && 0 <= k < |pre| && c !in Top(base).holds && Top(base).pc.Ready?
    ensures var f := Top(base);
            var c1, c2 := CoreAt(base, flag, count, f.(pc := Taking(k))),
                          CoreAt(base, flag, count, f.(pc := Waiting(k, c)));
            var c3, c4 := CoreAt(base, flag, count, f.(holds := f.holds[c := k])),
                          CoreAt(base, flag, count, f.(pc := Unlocking(k, c)));
            && Can(c1, pre, Ticket(c)) && Do(c1, pre, Ticket(c)) == c2
            && Can(c2, pre, Acquire) && Do(c2, pre, Acquire) == c3
            && Can(c3, pre, Drop(c)) && Do(c3, pre, Drop(c)) == c4
            && Can(c4, pre, Advanced)
            && Do(c4, pre, Advanced) ==
               CoreAt(base, flag, count, f.(pc := if pre[k] then Ready else CountDown(k)))
  {
    var f := Top(base);
    var g := f.(holds := f.holds[c := k]);
    assert g.holds - {c} == f.holds;
    SetTopAt(base, flag, count, f.(pc := Taking(k)), f.(pc := Waiting(k, c)));
    SetTopAt(base, flag, count, f.(pc := Waiting(k, c)), g);
    SetTopAt(base, flag, count, g, f.(pc := Unlocking(k, c)));
    SetTopAt(base, flag, count, f.(pc := Unlocking(k, c)),
             f.(pc := if pre[k] then Ready else CountDown(k)));
  }

  lemma CoreCloses(base: Core, pre: seq<bool>, k: int, flag: bool, count: int)
    requires base.stack != [] && 0 <= k < |pre| && !pre[k] && 0 <= count
    ensures var f := Top(base);
            var c1 := CoreAt(base, flag, count + 1, f.(pc := CountDown(k)));
            var c2 := CoreAt(base, flag, count, f.(pc := Testing(count + 1)));
            var c3 := CoreAt(base, flag, count, f.(pc := Sti));
            && Can(c1, pre, Decrement) && Do(c1, pre, Decrement) == c2
            && Can(c2, pre, Test)
            && Do(c2, pre, Test) ==
               (if count == 0 && base.depth == 0 then c3 else CoreAt(base, flag, count, f.(pc := Ready)))
            && Can(c3, pre, SetFlag)
            && Do(c3, pre, SetFlag) == CoreAt(base, true, count, f.(pc := Ready))
  {
    var f := Top(base);
    var g := f.(pc := Testing(count + 1));
    SetTopAt(base, flag, count, f.(pc := CountDown(k)), g);
    SetTopAt(base, flag, count + 1, f.(pc := CountDown(k)), g);
    SetTopAt(base, flag, count, g, f.(pc := Sti));
    SetTopAt(base, flag, count, g, f.(pc := Ready));
    SetTopAt(base, true, count, f.(pc := Sti), f.(pc := Ready));
    SetTopAt(base, flag, count, f.(pc := Sti), f.(pc := Ready));
  }

  /** From the ticket to the guard. */
  function AcquireActs(c: Call): seq<Act> {
    [Ticket(c)] + ([Acquire] + [])
  }

  /** `lock` of lock `k`, counting and clearing the flag if it is not preemptable. */
  function LockActs(pre: seq<bool>, k: int, c: Call): seq<Act>
    requires 0 <= k < |pre|
  {
    if pre[k] then [Begin(k)] + AcquireActs(c)
    else [Begin(k)] + ([Increment] + ([ClearFlag] + AcquireActs(c)))
  }

  /** The end of a counted section, with interrupts on if it is the last of a thread. */
  function CloseActs(last: bool): seq<Act> {
    [Decrement] + ([Test] + if last then [SetFlag] + [] else [])
  }

  /** The drop of the guard. */
  function UnlockActs(pre: seq<bool>, k: int, c: Call, last: bool): seq<Act>
    requires 0 <= k < |pre|
  {
    [Drop(c)] + ([Advanced] + if pre[k] then [] else CloseActs(last))
  }

  /** The operations are enabled one after the other and lead from `s` to `t`. */
  predicate Leads(s: Core, pre: seq<bool>, acts: seq<Act>, t: Core) {
    CoreLocals.LegalRun(s, pre, acts) && CoreLocals.Run(s, pre, acts) == t
  }

  lemma LeadsCons(s: Core, pre: seq<bool>, a: Act, acts: seq<Act>, t: Core)
    requires Can(s, pre, a) && Leads(Do(s, pre, a), pre, acts, t)
    ensures Leads(s, pre, [a] + acts, t)
  {
    assert ([a] + acts)[0] == a && ([a] + acts)[1..] == acts;
  }

  /** The core while the context holds the lock. */
  function Held(core: Core, pre: seq<bool>, k: int, c: Call): Core
    requires core.stack != [] && 0 <= k < |pre|
  {
    var f := Top(core);
    CoreAt(core, core.flag && pre[k], if pre[k] then core.count else core.count + 1, f.(holds := f.holds[c := k]))
  }

  lemma CoreLocks(core: Core, pre: seq<bool>, k: int, c: Call)
    requires ReadyNow(core, pre) && 0 <= k < |pre| && c !in Top(core).holds && (pre[k] ==> core.depth == 0)
    ensures Leads(core, pre, LockActs(pre, k, c), Held(core, pre, k, c))
  {
    var f, held := Top(core), Held(core, pre, k, c);
    CoreHolds(core, pre, k, c, held.flag, held.count);
    assert Leads(held, pre, [], held);
    LeadsCons(CoreAt(core, held.flag, held.count, f.(pc := Waiting(k, c))), pre, Acquire, [], held);
    LeadsCons(CoreAt(core, held.flag, held.count, f.(pc := Taking(k))), pre, Ticket(c), [Acquire] + [], held);
    if pre[k] {
      CoreBegins(core, pre, k);
      LeadsCons(core, pre, Begin(k), AcquireActs(c), held);
    } else {
      CoreOpens(core, pre, k);
      LeadsCons(CoreAt(core, core.flag, core.count + 1, f.(pc := Cli(k))), pre, ClearFlag, AcquireActs(c), held);
      LeadsCons(CoreAt(core, core.flag, core.count, f.(pc := CountUp(k))), pre, Increment,
                [ClearFlag] + AcquireActs(c), held);
      LeadsCons(core, pre, Begin(k), [Increment] + ([ClearFlag] + AcquireActs(c)), held);
    }
  }

  lemma CoreTests(core: Core, pre: seq<bool>, k: int)
    requires ReadyNow(core, pre) && 0 <= k < |pre| && !pre[k]
    ensures Leads(CoreAt(core, false, core.count, Top(core).(pc := Testing(core.count + 1))), pre,
                  [Test] + if core.flag then [SetFlag] + [] else [], core)
  {
    var f := Top(core);
    CoreCloses(core, pre, k, false, core.count);
    assert CoreAt(core, core.flag, core.count, f.(pc := Ready)) == core;
    assert Leads(core, pre, [], core);
    if core.flag {
      LeadsCons(CoreAt(core, false, core.count, f.(pc := Sti)), pre, SetFlag, [], core);
      LeadsCons(CoreAt(core, false, core.count, f.(pc := Testing(core.count + 1))), pre, Test, [SetFlag] + [], core);
    } else {
      LeadsCons(CoreAt(core, false, core.count, f.(pc := Testing(core.count + 1))), pre, Test, [], core);
    }
  }

  lemma CoreClosesSection(core: Core, pre: seq<bool>, k: int)
    requires ReadyNow(core, pre) && 0 <= k < |pre| && !pre[k]
    ensures Leads(CoreAt(core, false, core.count + 1, Top(core).(pc := CountDown(k))), pre, CloseActs(core.flag), core)
  {
    CoreCloses(core, pre, k, false, core.count);
    CoreTests(core, pre, k);
    LeadsCons(CoreAt(core, false, core.count + 1, Top(core).(pc := CountDown(k))), pre, Decrement,
              [Test] + if core.flag then [SetFlag] + [] else [], core);
  }

  lemma CoreUnlocks(core: Core, pre: seq<bool>, k: int, c: Call)
    requires ReadyNow(core, pre) && 0 <= k < |pre| && c !in Top(core).holds && (pre[k] ==> core.depth == 0)
    ensures Leads(Held(core, pre, k, c), pre, UnlockActs(pre, k, c, core.flag), core)
  {
    var f, held := Top(core), Held(core, pre, k, c);
    var last := if pre[k] then [] else CloseActs(core.flag);
    CoreHolds(core, pre, k, c, held.flag, held.count);
    if pre[k] {
      assert CoreAt(core, core.flag, core.count, f.(pc := Ready)) == core;
      assert Leads(core, pre, [], core);
    } else {
      CoreClosesSection(core, pre, k);
    }
    LeadsCons(CoreAt(core, held.flag, held.count, f.(pc := Unlocking(k, c))), pre, Advanced, last, core);
    LeadsCons(held, pre, Drop(c), [Advanced] + last, core);
  }

  /**
    The core's side of a round, by a thread or a handler: `lock` and `unlock` run
    through, in between the context holds the lock with interrupts off unless it is
    preemptable, and in the end the core is exactly as it was.
   */
  lemma {:induction false} CoreRound(core: Core, pre: seq<bool>, k: int, c: Call)
    requires CoreOk(core, pre) && Top(core).pc.Ready? && 0 <= k < |pre| && c !in Top(core).holds
    requires (pre[k] ==> core.depth == 0) && TotalOpen(core.stack, pre) + 1 < COUNTER
    ensures CoreLocals.LegalRun(core, pre, LockActs(pre, k, c))
    ensures var t := CoreLocals.Run(core, pre, LockActs(pre, k, c));
            && t.stack != [] && Top(t).holds == Top(core).holds[c := k] && t.flag == (core.flag && pre[k])
            && CoreLocals.LegalRun(t, pre, UnlockActs(pre, k, c, core.flag))
            && CoreLocals.Run(t, pre, UnlockActs(pre, k, c, core.flag)) == core
  {
    ReadyFlag(core, pre);
    CountIsTotal(core, pre);
    CoreLocks(core, pre, k, c);
    CoreUnlocks(core, pre, k, c);
  }

  // ---------- the lock ----------

  /** The lock while `c` alone has it, at phase `ph`. */
  function With(l: Lock, owner: int, c: Call, ph: Phase): Lock {
    Lock(l.current, Bump(l.next), owner, map[c := ph])
  }

  /** The lock after a whole round. */
  function Used(l: Lock): Lock {
    Lock(Bump(l.current), Bump(l.next), NO_OWNER, map[])
  }

  /** A free lock: `Inv` gives that its counters are equal and nobody is the owner. */
  lemma FreeLock(l: Lock)
    requires TicketLocks.Inv(l) && l.calls == map[]
    ensures l.current == l.next && l.owner == NO_OWNER
  {
    var q :| Queue(l, q);
    CallCount(l, q);
  }

  lemma FreeLockSteps(l: Lock, c: Call)
    requires l.current == l.next && l.owner == NO_OWNER && l.calls == map[] && 0 <= c.core < 256
    ensures var t := l.current;
            var l1, l2 := With(l, NO_OWNER, c, Spinning(t)), With(l, NO_OWNER, c, Granted(t));
            var l3, l4 := With(l, c.core, c, Holding(t)), With(l, NO_OWNER, c, Releasing(t));
            && TicketLocks.Enabled(l, Take(c)) && TicketLocks.Next(l, Take(c)) == l1
            && TicketLocks.Enabled(l1, Poll(c)) && TicketLocks.Next(l1, Poll(c)) == l2
            && TicketLocks.Enabled(l2, Enter(c)) && TicketLocks.Next(l2, Enter(c)) == l3
            && TicketLocks.Enabled(l3, Clear(c)) && TicketLocks.Next(l3, Clear(c)) == l4
            && TicketLocks.Enabled(l4, Advance(c)) && TicketLocks.Next(l4, Advance(c)) == Used(l)
  {
    var l4 := With(l, NO_OWNER, c, Releasing(l.current));
    assert l4.calls - {c} == map[];
  }

  /** The lock's side of a round: a free lock is granted at once, and in the end only its counters have moved. */
  lemma {:induction false} LockRound(l: Lock, c: Call)
    requires TicketLocks.Inv(l) && l.calls == map[] && 0 <= c.core < 256
    ensures TicketLocks.LegalRun(l, [Take(c)] + ([Poll(c)] + ([Enter(c)] + [])))
    ensures var t := TicketLocks.Run(l, [Take(c)] + ([Poll(c)] + ([Enter(c)] + [])));
            && t.owner == c.core && t.calls == map[c := Holding(l.current)]
            && TicketLocks.LegalRun(t, [Clear(c)] + ([Advance(c)] + []))
            && TicketLocks.Run(t, [Clear(c)] + ([Advance(c)] + [])) == Used(l)
  {
    FreeLock(l);
    FreeLockSteps(l, c);
    var t := l.current;
    var l1, l2 := With(l, NO_OWNER, c, Spinning(t)), With(l, NO_OWNER, c, Granted(t));
    var l3, l4 := With(l, c.core, c, Holding(t)), With(l, NO_OWNER, c, Releasing(t));
    StepCons(l2, Enter(c), []);
    StepCons(l1, Poll(c), [Enter(c)] + []);
    StepCons(l, Take(c), [Poll(c)] + ([Enter(c)] + []));
    StepCons(l4, Advance(c), []);
    StepCons(l3, Clear(c), [Advance(c)] + []);
  }

  lemma StepCons(l: Lock, st: Step, steps: seq<Step>)
    requires TicketLocks.Enabled(l, st) && TicketLocks.LegalRun(TicketLocks.Next(l, st), steps)
    ensures TicketLocks.LegalRun(l, [st] + steps)
    ensures TicketLocks.Run(l, [st] + steps) == TicketLocks.Run(TicketLocks.Next(l, st), steps)
  {
    assert ([st] + steps)[0] == st && ([st] + steps)[1..] == steps;
  }
}
