/**
  The ticket lock as a state machine: one transition per atomic operation of
  `lock` and `unlock`, interleaved in any order over any number of callers.
 */
module TicketLocks {
  import opened Sequences

  /** Tickets are 64-bit counters that wrap around. */
  const TICKETS: int := 0x1_0000_0000_0000_0000

  /** The value of `owner` while nobody holds the lock. */
  const NO_OWNER: int := 0xFFFF

  /** One invocation of `lock`, by the context at nesting `level` of `core`. */
  datatype Call = Call(core: int, level: int, id: int)

  /** Where an invocation stands between taking a ticket and giving the lock back. */
  datatype Phase =
    | Spinning(ticket: int)   // about to load `current_ticket`
    | Checking(ticket: int)   // saw another ticket, about to load `owner`
    | Granted(ticket: int)    // saw its own ticket, about to store `owner`
    | Holding(ticket: int)    // the guard is alive
    | Releasing(ticket: int)  // `owner` is cleared, about to advance `current_ticket`
    | Panicked(ticket: int)   // reported a deadlock

  datatype Lock = Lock(current: int, next: int, owner: int, calls: map<Call, Phase>)

  datatype Step =
    | Take(c: Call)      // next_ticket.fetch_add
    | Poll(c: Call)      // current_ticket.load
    | Check(c: Call)     // owner.load, possibly panic
    | Enter(c: Call)     // owner.store(core id)
    | Clear(c: Call)     // owner.store(!0)
    | Advance(c: Call)   // current_ticket.fetch_add

  const UNLOCKED: Lock := Lock(0, 0, NO_OWNER, map[])

  /** `Take` assumes fewer than 2^64 outstanding tickets; core ids are bytes. */
  predicate Enabled(s: Lock, st: Step) {
    match st
    case Take(c) => c !in s.calls && 0 <= c.core < 256 && |s.calls| + 1 < TICKETS
    case Poll(c) => c in s.calls && s.calls[c].Spinning?
    case Check(c) => c in s.calls && s.calls[c].Checking?
    case Enter(c) => c in s.calls && s.calls[c].Granted?
    case Clear(c) => c in s.calls && s.calls[c].Holding?
    case Advance(c) => c in s.calls && s.calls[c].Releasing?
  }

  function Bump(t: int): int {
    if t + 1 == TICKETS then 0 else t + 1
  }

  /** Whether the owner check of `c` reports a deadlock. */
  predicate SeesItself(s: Lock, c: Call) {
    s.owner != NO_OWNER && s.owner == c.core
  }

  function Next(s: Lock, st: Step): Lock
    requires Enabled(s, st)
  {
    match st
    case Take(c) => s.(next := Bump(s.next), calls := s.calls[c := Spinning(s.next)])
    case Poll(c) =>
      var t := s.calls[c].ticket;
      s.(calls := s.calls[c := if s.current == t then Granted(t) else Checking(t)])
    case Check(c) =>
      var t := s.calls[c].ticket;
      s.(calls := s.calls[c := if SeesItself(s, c) then Panicked(t) else Spinning(t)])
    case Enter(c) => s.(owner := c.core, calls := s.calls[c := Holding(s.calls[c].ticket)])
    case Clear(c) => s.(owner := NO_OWNER, calls := s.calls[c := Releasing(s.calls[c].ticket)])
    case Advance(c) => s.(current := Bump(s.current), calls := s.calls - {c})
  }

  // ---------- the queue behind the counters ----------

  predicate Critical(p: Phase) {
    p.Granted? || p.Holding? || p.Releasing?
  }

  /** `current + i` on wrapping counters. */
  function Ahead(current: int, i: int): int {
    if current + i < TICKETS then current + i else current + i - TICKETS
  }

  predicate Seated(s: Lock, q: seq<Call>, i: int)
    requires 0 <= i < |q|
  {
    && q[i] in s.calls
    && s.calls[q[i]].ticket == Ahead(s.current, i)
    && (i > 0 ==> !Critical(s.calls[q[i]]))
    && 0 <= q[i].core < 256
  }

  predicate Listed(s: Lock, q: seq<Call>, c: Call) {
    c in s.calls <==> c in q
  }

  /**
    `q` lists the outstanding invocations in the order of their `fetch_add`s:
    they hold the consecutive tickets from `current` up to `next`, and only the
    first can be past the spin loop.
   */
  ghost predicate Queue(s: Lock, q: seq<Call>) {
    && 0 <= s.current < TICKETS && |q| < TICKETS
    && s.next == Ahead(s.current, |q|)
    && Distinct(q)
    && (forall c :: Listed(s, q, c))
    && (forall i :: 0 <= i < |q| ==> Seated(s, q, i))
    && s.owner == (if q != [] && q[0] in s.calls && s.calls[q[0]].Holding? then q[0].core else NO_OWNER)
  }

  ghost predicate Inv(s: Lock) {
    exists q :: Queue(s, q)
  }

  function After(q: seq<Call>, st: Step): seq<Call> {
    match st
    case Take(c) => q + [c]
    case Advance(c) => if q != [] then q[1..] else q
    case _ => q
  }

  lemma CallCount(s: Lock, q: seq<Call>)
    requires Distinct(q) && forall c :: Listed(s, q, c)
    ensures |s.calls| == |q|
  {
    MemberCount(q);
    assert s.calls.Keys == Members(q) by {
      forall c ensures c in s.calls.Keys <==> c in q { assert Listed(s, q, c); }
    }
  }

  lemma Find(s: Lock, q: seq<Call>, c: Call) returns (i: int)
    requires Queue(s, q) && c in s.calls
    ensures 0 <= i < |q| && q[i] == c && Seated(s, q, i)
  {
    assert Listed(s, q, c);
    i :| 0 <= i < |q| && q[i] == c;
  }

  lemma OnlyFirstIsCurrent(s: Lock, q: seq<Call>, i: int)
    requires Queue(s, q) && 0 <= i < |q|
    ensures q[i] in s.calls && (s.calls[q[i]].ticket == s.current <==> i == 0)
  {
    assert Seated(s, q, i);
  }

  /** A call past the spin loop is the first in the queue. */
  lemma CriticalIsFirst(s: Lock, q: seq<Call>, c: Call)
    requires Queue(s, q) && c in s.calls && Critical(s.calls[c])
    ensures q != [] && q[0] == c
  {
    var i := Find(s, q, c);
    assert Seated(s, q, i);
  }

  lemma TakeQueue(s: Lock, q: seq<Call>, c: Call)
    requires Queue(s, q) && Enabled(s, Take(c))
    ensures Queue(Next(s, Take(c)), q + [c])
  {
    var t, r := Next(s, Take(c)), q + [c];
    CallCount(s, q);
    assert Listed(s, q, c);
    forall d ensures Listed(t, r, d) {
      assert Listed(s, q, d);
    }
    forall i | 0 <= i < |r| ensures Seated(t, r, i) {
      if i < |q| {
        assert Seated(s, q, i);
        assert r[i] == q[i];
      }
    }
    assert q != [] ==> r[0] == q[0];
  }

  lemma PhaseQueue(s: Lock, q: seq<Call>, st: Step)
    requires Queue(s, q) && Enabled(s, st) && !st.Take? && !st.Advance?
    ensures Queue(Next(s, st), q)
  {
    var t, c := Next(s, st), st.c;
    assert Listed(s, q, c);
    forall d ensures Listed(t, q, d) {
      assert Listed(s, q, d);
    }
    if st.Enter? || st.Clear? {
      CriticalIsFirst(s, q, c);
    }
    forall i | 0 <= i < |q| ensures Seated(t, q, i) {
      assert Seated(s, q, i);
      OnlyFirstIsCurrent(s, q, i);
    }
    assert Seated(s, q, 0) && Seated(t, q, 0);
  }

  lemma AdvanceQueue(s: Lock, q: seq<Call>, c: Call)
    requires Queue(s, q) && Enabled(s, Advance(c))
    ensures q != [] && q[0] == c && Queue(Next(s, Advance(c)), q[1..])
  {
    CriticalIsFirst(s, q, c);
    var t, r := Next(s, Advance(c)), q[1..];
    forall d ensures Listed(t, r, d) {
      assert Listed(s, q, d);
    }
    forall i | 0 <= i < |r| ensures Seated(t, r, i) {
      assert Seated(s, q, i + 1);
      assert r[i] == q[i + 1];
    }
    if r != [] {
      assert Seated(s, q, 1) && Seated(t, r, 0);
    }
  }

  lemma StepQueue(s: Lock, q: seq<Call>, st: Step)
    requires Queue(s, q) && Enabled(s, st)
    ensures Queue(Next(s, st), After(q, st))
  {
    match st
    case Take(c) => TakeQueue(s, q, c);
    case Advance(c) => AdvanceQueue(s, q, c);
    case _ => PhaseQueue(s, q, st);
  }

  // ---------- what the queue gives at every step ----------

  /** `t - current` on wrapping counters: how many releases `t` is away from being served. */
  function Distance(current: int, t: int): int {
    if current <= t then t - current else t - current + TICKETS
  }

  /** At most one invocation is past the spin loop. */
  lemma MutualExclusion(s: Lock, c: Call, d: Call)
    requires Inv(s) && c in s.calls && d in s.calls && Critical(s.calls[c]) && Critical(s.calls[d])
    ensures c == d
  {
    var q :| Queue(s, q);
    CriticalIsFirst(s, q, c);
    CriticalIsFirst(s, q, d);
  }

  /** Outstanding tickets are distinct and lie in the cyclic window from `current` to `next`. */
  lemma TicketWindow(s: Lock, c: Call, d: Call)
    requires Inv(s) && c in s.calls && d in s.calls
    ensures Distance(s.current, s.calls[c].ticket) < Distance(s.current, s.next)
    ensures s.calls[c].ticket == s.calls[d].ticket ==> c == d
  {
    var q :| Queue(s, q);
    var i := Find(s, q, c);
    var j := Find(s, q, d);
    assert Seated(s, q, i) && Seated(s, q, j);
  }

  /** `owner` names the core of the call that holds the lock, and nothing else. */
  lemma OwnerIsHolder(s: Lock)
    requires Inv(s)
    ensures s.owner != NO_OWNER <==> exists c :: c in s.calls && s.calls[c].Holding?
    ensures forall c :: c in s.calls && s.calls[c].Holding? ==> s.owner == c.core
  {
    var q :| Queue(s, q);
    if q != [] {
      assert Seated(s, q, 0);
    }
    forall c | c in s.calls && s.calls[c].Holding? ensures s.owner == c.core != NO_OWNER {
      CriticalIsFirst(s, q, c);
    }
    if s.owner != NO_OWNER {
      assert q[0] in s.calls && s.calls[q[0]].Holding?;
    }
  }

  /** The deadlock report is exact: it comes if and only if a call of the same core holds the lock at that moment. */
  lemma PanicIsExact(s: Lock, c: Call)
    requires Inv(s) && Enabled(s, Check(c))
    ensures Next(s, Check(c)).calls[c].Panicked? <==>
              exists d :: d in s.calls && s.calls[d].Holding? && d.core == c.core
  {
    OwnerIsHolder(s);
  }

  /** While `d` is past the spin loop nobody else can be admitted. */
  lemma HolderBlocks(s: Lock, c: Call, d: Call)
    requires Inv(s) && Enabled(s, Poll(c)) && d in s.calls && Critical(s.calls[d])
    ensures Next(s, Poll(c)).calls[c].Checking?
  {
    var q :| Queue(s, q);
    CriticalIsFirst(s, q, d);
    var i := Find(s, q, c);
    OnlyFirstIsCurrent(s, q, i);
  }

  // ---------- whole runs ----------

  /** All `fetch_add`s so far, all admissions so far, and the number of releases. */
  datatype History = History(requests: seq<Call>, grants: seq<Call>, releases: int)

  const NOTHING: History := History([], [], 0)

  predicate Admits(s: Lock, st: Step) {
    st.Poll? && st.c in s.calls && s.calls[st.c].ticket == s.current
  }

  function Record(h: History, s: Lock, st: Step): History {
    match st
    case Take(c) => h.(requests := h.requests + [c])
    case Poll(c) => if Admits(s, st) then h.(grants := h.grants + [c]) else h
    case Advance(_) => h.(releases := h.releases + 1)
    case _ => h
  }

  predicate LegalRun(s: Lock, steps: seq<Step>)
    decreases |steps|
  {
    steps == [] || (Enabled(s, steps[0]) && LegalRun(Next(s, steps[0]), steps[1..]))
  }

  function Run(s: Lock, steps: seq<Step>): Lock
    requires LegalRun(s, steps)
    decreases |steps|
  {
    if steps == [] then s else Run(Next(s, steps[0]), steps[1..])
  }

  function RunHistory(h: History, s: Lock, steps: seq<Step>): History
    requires LegalRun(s, steps)
    decreases |steps|
  {
    if steps == [] then h else RunHistory(Record(h, s, steps[0]), Next(s, steps[0]), steps[1..])
  }

  /** Whether the first in the queue is past the spin loop. */
  function Inside(s: Lock, q: seq<Call>): (n: int) {
    if q != [] && q[0] in s.calls && Critical(s.calls[q[0]]) then 1 else 0
  }

  ghost predicate Consistent(s: Lock, h: History) {
    && 0 <= h.releases <= |h.requests|
    && var q := h.requests[h.releases..];
       Queue(s, q) && h.grants == h.requests[..h.releases + Inside(s, q)]
  }

  lemma RecordTake(s: Lock, h: History, c: Call)
    requires Consistent(s, h) && Enabled(s, Take(c))
    ensures Consistent(Next(s, Take(c)), Record(h, s, Take(c)))
  {
    var q := h.requests[h.releases..];
    TakeQueue(s, q, c);
    TakeInside(s, q, c);
    AppendSlices(h.requests, h.releases, h.releases + Inside(s, q), c);
    ConsistentBy(Next(s, Take(c)), Record(h, s, Take(c)), q + [c]);
  }

  lemma ConsistentBy(s: Lock, h: History, q: seq<Call>)
    requires 0 <= h.releases <= |h.requests| && q == h.requests[h.releases..]
    requires Queue(s, q) && h.grants == h.requests[..h.releases + Inside(s, q)]
    ensures Consistent(s, h)
  {
  }

  lemma AppendSlices(r: seq<Call>, lo: int, hi: int, c: Call)
    requires 0 <= lo <= hi <= |r|
    ensures (r + [c])[lo..] == r[lo..] + [c] && (r + [c])[..hi] == r[..hi]
  {
  }

  lemma TakeInside(s: Lock, q: seq<Call>, c: Call)
    requires Queue(s, q) && Enabled(s, Take(c))
    ensures Inside(Next(s, Take(c)), q + [c]) == Inside(s, q)
  {
    if q != [] {
      assert Seated(s, q, 0) && (q + [c])[0] == q[0];
    }
  }

  lemma RecordAdvance(s: Lock, h: History, c: Call)
    requires Consistent(s, h) && Enabled(s, Advance(c))
    ensures Consistent(Next(s, Advance(c)), Record(h, s, Advance(c)))
  {
    var q := h.requests[h.releases..];
    AdvanceQueue(s, q, c);
    assert h.requests[h.releases + 1..] == q[1..];
    AdvanceInside(s, q, c);
  }

  lemma AdvanceInside(s: Lock, q: seq<Call>, c: Call)
    requires Queue(s, q) && Enabled(s, Advance(c)) && q != [] && q[0] == c
    ensures Inside(s, q) == 1 && Inside(Next(s, Advance(c)), q[1..]) == 0
  {
    if |q| > 1 {
      assert Seated(s, q, 1);
    }
  }

  lemma RecordPhase(s: Lock, h: History, st: Step)
    requires Consistent(s, h) && Enabled(s, st) && !st.Take? && !st.Advance?
    ensures Consistent(Next(s, st), Record(h, s, st))
  {
    var q := h.requests[h.releases..];
    PhaseQueue(s, q, st);
    PhaseInside(s, q, st);
    if Admits(s, st) {
      assert q[0] == h.requests[h.releases];
      assert h.requests[..h.releases + 1] == h.requests[..h.releases] + [q[0]];
    }
  }

  lemma PhaseInside(s: Lock, q: seq<Call>, st: Step)
    requires Queue(s, q) && Enabled(s, st) && !st.Take? && !st.Advance?
    ensures if Admits(s, st) then q != [] && q[0] == st.c && Inside(s, q) == 0 && Inside(Next(s, st), q) == 1
            else Inside(Next(s, st), q) == Inside(s, q)
  {
    var i := Find(s, q, st.c);
    assert Seated(s, q, 0) && Seated(s, q, i);
    OnlyFirstIsCurrent(s, q, i);
  }

  lemma RecordConsistent(s: Lock, h: History, st: Step)
    requires Consistent(s, h) && Enabled(s, st)
    ensures Consistent(Next(s, st), Record(h, s, st))
  {
    match st
    case Take(c) => RecordTake(s, h, c);
    case Advance(c) => RecordAdvance(s, h, c);
    case _ => RecordPhase(s, h, st);
  }

  lemma {:induction false} RunConsistent(s: Lock, h: History, steps: seq<Step>)
    requires Consistent(s, h) && LegalRun(s, steps)
    ensures Consistent(Run(s, steps), RunHistory(h, s, steps))
    decreases |steps|
  {
    if steps != [] {
      RecordConsistent(s, h, steps[0]);
      RunConsistent(Next(s, steps[0]), Record(h, s, steps[0]), steps[1..]);
    }
  }

  /** First come, first served: in every run the admissions are a prefix of the requests, in the same order. */
  lemma Fifo(steps: seq<Step>)
    requires LegalRun(UNLOCKED, steps)
    ensures RunHistory(NOTHING, UNLOCKED, steps).grants <= RunHistory(NOTHING, UNLOCKED, steps).requests
    ensures Inv(Run(UNLOCKED, steps))
  {
    assert NOTHING.requests[0..] == [];
    RunConsistent(UNLOCKED, NOTHING, steps);
  }

  function Releases(steps: seq<Step>): int {
    if steps == [] then 0 else (if steps[0].Advance? then 1 else 0) + Releases(steps[1..])
  }

  predicate NeverReleased(c: Call, steps: seq<Step>) {
    forall i :: 0 <= i < |steps| ==> steps[i] != Advance(c)
  }

  lemma DistanceStep(s: Lock, c: Call, st: Step)
    requires Inv(s) && c in s.calls && Enabled(s, st) && st != Advance(c)
    ensures var t := Next(s, st);
            && Inv(t) && c in t.calls && t.calls[c].ticket == s.calls[c].ticket
            && Distance(t.current, t.calls[c].ticket) ==
               Distance(s.current, s.calls[c].ticket) - (if st.Advance? then 1 else 0)
  {
    var q :| Queue(s, q);
    StepQueue(s, q, st);
    var i := Find(s, q, c);
    assert Seated(s, q, i);
    if st.Advance? {
      AdvanceQueue(s, q, st.c);
      assert Seated(Next(s, st), q[1..], i - 1);
    }
  }

  /**
    Bounded waiting: however the other callers interleave, a waiter is served
    after exactly as many releases as its ticket was ahead of `current`.
   */
  lemma {:induction false} BoundedWaiting(s: Lock, steps: seq<Step>, c: Call)
    requires Inv(s) && LegalRun(s, steps) && c in s.calls && NeverReleased(c, steps)
    ensures var t := Run(s, steps);
            && c in t.calls && t.calls[c].ticket == s.calls[c].ticket
            && Distance(t.current, t.calls[c].ticket) == Distance(s.current, s.calls[c].ticket) - Releases(steps)
            && (t.calls[c].ticket == t.current <==> Releases(steps) == Distance(s.current, s.calls[c].ticket))
            && (Critical(t.calls[c]) ==> Releases(steps) == Distance(s.current, s.calls[c].ticket))
    decreases |steps|
  {
    if steps == [] {
      var q :| Queue(s, q);
      var i := Find(s, q, c);
      OnlyFirstIsCurrent(s, q, i);
      assert Seated(s, q, i);
    } else {
      assert steps[0] != Advance(c);
      DistanceStep(s, c, steps[0]);
      BoundedWaiting(Next(s, steps[0]), steps[1..], c);
    }
  }

  // ---------- when a caller has to wait ----------

  predicate NotBy(c: Call, steps: seq<Step>) {
    forall i :: 0 <= i < |steps| ==> steps[i].c != c
  }

  lemma {:induction false} PhaseKept(s: Lock, steps: seq<Step>, c: Call)
    requires LegalRun(s, steps) && c in s.calls && NotBy(c, steps)
    ensures c in Run(s, steps).calls && Run(s, steps).calls[c] == s.calls[c]
    decreases |steps|
  {
    if steps != [] {
      assert steps[0].c != c;
      PhaseKept(Next(s, steps[0]), steps[1..], c);
    }
  }

  /** A new ticket is as far from being served as there are calls outstanding. */
  lemma NewTicketDistance(s: Lock, c: Call)
    requires Inv(s) && Enabled(s, Take(c))
    ensures var t := Next(s, Take(c));
            && Inv(t) && c in t.calls && t.calls[c].Spinning?
            && Distance(t.current, t.calls[c].ticket) == |s.calls|
            && (s.current != s.next <==> |s.calls| > 0)
  {
    var q :| Queue(s, q);
    CallCount(s, q);
    TakeQueue(s, q, c);
    assert Seated(Next(s, Take(c)), q + [c], |q|);
  }

  /**
    The first look at the counters after taking a ticket finds another ticket in
    turn, so that the caller spins, if and only if not all the calls outstanding
    before it have been released meanwhile.
   */
  lemma FirstPollWaits(s: Lock, c: Call, steps: seq<Step>)
    requires Inv(s) && Enabled(s, Take(c)) && LegalRun(Next(s, Take(c)), steps) && NotBy(c, steps)
    ensures var u := Run(Next(s, Take(c)), steps);
            && Enabled(u, Poll(c))
            && (Next(u, Poll(c)).calls[c].Checking? <==> Releases(steps) != |s.calls|)
  {
    var t := Next(s, Take(c));
    NewTicketDistance(s, c);
    PhaseKept(t, steps, c);
    assert NeverReleased(c, steps);
    BoundedWaiting(t, steps, c);
  }

  // ---------- release and hand-over ----------

  /** The first in line. */
  predicate AtHead(s: Lock, c: Call) {
    c in s.calls && Distance(s.current, s.calls[c].ticket) == 0
  }

  lemma HeadTicket(s: Lock, c: Call)
    requires Inv(s) && c in s.calls
    ensures AtHead(s, c) <==> s.calls[c].ticket == s.current
  {
    var q :| Queue(s, q);
    var i := Find(s, q, c);
    assert Seated(s, q, i);
  }

  /** If anyone is in line there is one first in line, and only one. */
  lemma OneHead(s: Lock)
    requires Inv(s)
    ensures s.calls != map[] <==> exists c :: AtHead(s, c)
    ensures forall c, d :: AtHead(s, c) && AtHead(s, d) ==> c == d
  {
    var q :| Queue(s, q);
    if q != [] {
      assert Seated(s, q, 0);
      assert AtHead(s, q[0]);
    } else {
      forall c ensures c !in s.calls { assert Listed(s, q, c); }
      assert s.calls == map[];
    }
    forall c, d | AtHead(s, c) && AtHead(s, d) ensures c == d {
      HeadTicket(s, c);
      HeadTicket(s, d);
      TicketWindow(s, c, d);
    }
  }

  /** A caller leaves the spin loop at its next look at the counters if and only if it is first in line. */
  lemma PollIsExact(s: Lock, c: Call)
    requires Inv(s) && Enabled(s, Poll(c))
    ensures Next(s, Poll(c)).calls[c].Granted? <==> AtHead(s, c)
  {
    HeadTicket(s, c);
  }

  /** While the first in line has not stored `owner`, nobody is the owner, so its owner check only sends it on. */
  lemma HeadIsUnopposed(s: Lock, c: Call)
    requires Inv(s) && AtHead(s, c) && !s.calls[c].Holding?
    ensures s.owner == NO_OWNER
    ensures Enabled(s, Check(c)) ==> Next(s, Check(c)).calls[c].Spinning? && AtHead(Next(s, Check(c)), c)
  {
    var q :| Queue(s, q);
    var i := Find(s, q, c);
    OnlyFirstIsCurrent(s, q, i);
  }

  /**
    Dropping a guard releases the lock: first nobody is the owner any more, then the
    call is gone, the turn is one further and everyone else one closer to it.
   */
  lemma ReleaseHandsOver(s: Lock, c: Call)
    requires Inv(s) && Enabled(s, Clear(c))
    ensures var t := Next(s, Clear(c));
            && t.owner == NO_OWNER && (forall d :: d in t.calls ==> !t.calls[d].Holding?)
            && Inv(t) && Enabled(t, Advance(c))
            && var u := Next(t, Advance(c));
               && Inv(u) && u.calls == s.calls - {c} && u.current == Bump(s.current) && u.owner == NO_OWNER
               && (forall d :: d in u.calls ==>
                     Distance(u.current, u.calls[d].ticket) == Distance(s.current, s.calls[d].ticket) - 1)
  {
    var q :| Queue(s, q);
    StepQueue(s, q, Clear(c));
    var t := Next(s, Clear(c));
    StepQueue(t, q, Advance(c));
    forall d | d in t.calls ensures !t.calls[d].Holding? {
      if t.calls[d].Holding? {
        MutualExclusion(s, c, d);
      }
    }
    OwnerIsHolder(t);
    forall d | d in Next(t, Advance(c)).calls
      ensures Distance(Bump(s.current), s.calls[d].ticket) == Distance(s.current, s.calls[d].ticket) - 1
    {
      DistanceStep(s, d, Clear(c));
      DistanceStep(t, d, Advance(c));
    }
  }
}
