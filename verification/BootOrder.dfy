/**
  The boot hand-off as a state machine: cores draw ids, spin until the boot lock
  reaches their id, share the boot locals one at a time, publish their own
  locals and pass the boot section on.
 */
module BootOrder {
  import opened Sequences

  /** Slots in the table of core locals, and the most cores that can boot. */
  const SLOTS: int := 255

  /** The boot counters are 8-bit. */
  const BYTE: int := 256

  datatype Phase =
    | Spinning(id: int)   // drew its id, waiting for the boot lock
    | Booting(id: int)    // owns the boot section
    | Stored(id: int)     // published its locals, about to advance the boot lock
    | Passed(id: int)     // passed the boot section on, about to report ready
    | Up(id: int)
    | Failed              // an assertion of the boot code fired

  /** Interrupt depth, exception depth and disable count in the boot locals. */
  datatype Locals = Locals(interrupts: int, exceptions: int, disabled: int)

  const BALANCED: Locals := Locals(0, 0, 1)

  /** `slots[i]` is the published locals of core `i`, 0 before; cores are named by the address of their locals. */
  datatype Boot = Boot(nextId: int, bootLock: int, ready: int, slots: seq<int>, locals: Locals, cores: map<int, Phase>)

  const START: Boot := Boot(0, 0, 0, seq(SLOTS, i => 0), BALANCED, map[])

  datatype Step =
    | Draw(p: int)
    | Leave(p: int)              // sees its id in the boot lock and checks the boot locals
    | Work(p: int, l: Locals)    // anything the boot section does to the boot locals
    | Store(p: int)
    | Pass(p: int)
    | Report(p: int)

  /** A core leaves the boot section with its critical sections balanced. */
  predicate Enabled(s: Boot, st: Step) {
    match st
    case Draw(p) => p !in s.cores && 0 < p && |s.cores| < SLOTS
    case Leave(p) => p in s.cores && s.cores[p].Spinning? && s.bootLock == s.cores[p].id
    case Work(p, _) => p in s.cores && s.cores[p].Booting?
    case Store(p) => p in s.cores && s.cores[p].Booting? && s.locals == BALANCED && 0 <= s.cores[p].id < |s.slots|
    case Pass(p) => p in s.cores && s.cores[p].Stored?
    case Report(p) => p in s.cores && s.cores[p].Passed?
  }

  function Bump(n: int): int {
    if n + 1 == BYTE then 0 else n + 1
  }

  function Next(s: Boot, st: Step): Boot
    requires Enabled(s, st)
  {
    match st
    case Draw(p) => s.(nextId := Bump(s.nextId), cores := s.cores[p := Spinning(s.nextId)])
    case Leave(p) => s.(cores := s.cores[p := if s.locals == BALANCED then Booting(s.cores[p].id) else Failed])
    case Work(_, l) => s.(locals := l)
    case Store(p) =>
      var id := s.cores[p].id;
      if s.slots[id] == 0 then s.(slots := s.slots[id := p], cores := s.cores[p := Stored(id)])
      else s.(cores := s.cores[p := Failed])
    case Pass(p) => s.(bootLock := Bump(s.bootLock), cores := s.cores[p := Passed(s.cores[p].id)])
    case Report(p) => s.(ready := Bump(s.ready), cores := s.cores[p := Up(s.cores[p].id)])
  }

  // ---------- invariant ----------

  predicate Listed(s: Boot, order: seq<int>, p: int) {
    p in s.cores <==> p in order
  }

  /** Core `order[i]` drew id `i` and stands where the boot lock puts it. */
  predicate Seated(s: Boot, order: seq<int>, i: int)
    requires 0 <= i < |order| <= |s.slots|
  {
    && 0 < order[i] && order[i] in s.cores
    && var ph := s.cores[order[i]];
       && !ph.Failed? && ph.id == i
       && (i < s.bootLock ==> ph.Passed? || ph.Up?)
       && (i == s.bootLock ==> ph.Spinning? || ph.Booting? || ph.Stored?)
       && (i > s.bootLock ==> ph.Spinning?)
       && s.slots[i] == (if ph.Spinning? || ph.Booting? then 0 else order[i])
  }

  function UpSet(s: Boot): set<int> {
    set p | p in s.cores && s.cores[p].Up?
  }

  ghost predicate Ordered(s: Boot, order: seq<int>) {
    && s.nextId == |order| <= SLOTS == |s.slots|
    && 0 <= s.bootLock <= |order|
    && Distinct(order)
    && (forall p :: Listed(s, order, p))
    && (forall i :: 0 <= i < |order| ==> Seated(s, order, i))
    && (forall i :: |order| <= i < SLOTS ==> s.slots[i] == 0)
    && s.ready == |UpSet(s)|
    && (s.locals != BALANCED ==>
        s.bootLock < |order| && order[s.bootLock] in s.cores && s.cores[order[s.bootLock]].Booting?)
  }

  lemma Find(s: Boot, order: seq<int>, p: int) returns (i: int)
    requires Ordered(s, order) && p in s.cores
    ensures 0 <= i < |order| && order[i] == p && Seated(s, order, i)
  {
    assert Listed(s, order, p);
    i :| 0 <= i < |order| && order[i] == p;
  }

  lemma SameUp(s: Boot, t: Boot, p: int, ph: Phase)
    requires t.cores == s.cores[p := ph] && !ph.Up? && (p in s.cores ==> !s.cores[p].Up?)
    ensures UpSet(t) == UpSet(s)
  {
  }

  lemma DrawOrdered(s: Boot, order: seq<int>, p: int)
    requires Ordered(s, order) && Enabled(s, Draw(p))
    ensures Ordered(Next(s, Draw(p)), order + [p])
  {
    var t, o := Next(s, Draw(p)), order + [p];
    MemberCount(order);
    assert s.cores.Keys == Members(order) by {
      forall q ensures q in s.cores.Keys <==> q in order { assert Listed(s, order, q); }
    }
    SameUp(s, t, p, Spinning(s.nextId));
    forall q ensures Listed(t, o, q) { assert Listed(s, order, q); }
    forall i | 0 <= i < |o| ensures Seated(t, o, i) {
      if i < |order| {
        assert Seated(s, order, i) && o[i] == order[i];
      }
    }
  }

  lemma MoveOrdered(s: Boot, order: seq<int>, st: Step)
    requires Ordered(s, order) && Enabled(s, st) && (st.Leave? || st.Store? || st.Work?)
    ensures Ordered(Next(s, st), order)
  {
    var k := Find(s, order, st.p);
    var t := Next(s, st);
    if !st.Work? {
      SameUp(s, t, st.p, t.cores[st.p]);
    }
    forall q ensures Listed(t, order, q) { assert Listed(s, order, q); }
    forall i | 0 <= i < |order| ensures Seated(t, order, i) {
      assert Seated(s, order, i);
    }
  }

  lemma PassOrdered(s: Boot, order: seq<int>, p: int)
    requires Ordered(s, order) && Enabled(s, Pass(p))
    ensures Ordered(Next(s, Pass(p)), order)
  {
    var k := Find(s, order, p);
    var t := Next(s, Pass(p));
    SameUp(s, t, p, t.cores[p]);
    forall q ensures Listed(t, order, q) { assert Listed(s, order, q); }
    forall i | 0 <= i < |order| ensures Seated(t, order, i) {
      assert Seated(s, order, i);
    }
  }

  lemma SubsetBound(a: set<int>, b: set<int>)
    requires a <= b
    ensures |a| <= |b|
  {
    assert b == a + (b - a);
  }

  /** No more cores can be past the boot section than the boot lock says. */
  lemma PassedBound(s: Boot, order: seq<int>, done: set<int>)
    requires Ordered(s, order) && forall p :: p in done ==> p in s.cores && (s.cores[p].Passed? || s.cores[p].Up?)
    ensures |done| <= s.bootLock
  {
    var passed := order[..s.bootLock];
    forall p | p in done ensures p in passed {
      var i := Find(s, order, p);
      assert passed[i] == p;
    }
    MemberCount(passed);
    SubsetBound(done, Members(passed));
  }

  lemma ReportOrdered(s: Boot, order: seq<int>, p: int)
    requires Ordered(s, order) && Enabled(s, Report(p))
    ensures Ordered(Next(s, Report(p)), order)
  {
    var k := Find(s, order, p);
    var t := Next(s, Report(p));
    PassedBound(s, order, UpSet(s) + {p});
    assert p !in UpSet(s) && UpSet(t) == UpSet(s) + {p};
    forall q ensures Listed(t, order, q) { assert Listed(s, order, q); }
    forall i | 0 <= i < |order| ensures Seated(t, order, i) {
      assert Seated(s, order, i);
    }
  }

  function After(order: seq<int>, st: Step): seq<int> {
    order + (if st.Draw? then [st.p] else [])
  }

  lemma StepOrdered(s: Boot, order: seq<int>, st: Step)
    requires Ordered(s, order) && Enabled(s, st)
    ensures Ordered(Next(s, st), After(order, st))
  {
    assert order + [] == order;
    match st
    case Draw(p) => DrawOrdered(s, order, p);
    case Pass(p) => PassOrdered(s, order, p);
    case Report(p) => ReportOrdered(s, order, p);
    case _ => MoveOrdered(s, order, st);
  }

  // ---------- whole runs ----------

  predicate LegalRun(s: Boot, steps: seq<Step>)
    decreases |steps|
  {
    steps == [] || (Enabled(s, steps[0]) && LegalRun(Next(s, steps[0]), steps[1..]))
  }

  function Run(s: Boot, steps: seq<Step>): Boot
    requires LegalRun(s, steps)
    decreases |steps|
  {
    if steps == [] then s else Run(Next(s, steps[0]), steps[1..])
  }

  function Draws(steps: seq<Step>): seq<int> {
    if steps == [] then [] else After([], steps[0]) + Draws(steps[1..])
  }

  lemma {:induction false} RunOrdered(s: Boot, order: seq<int>, steps: seq<Step>)
    requires Ordered(s, order) && LegalRun(s, steps)
    ensures Ordered(Run(s, steps), order + Draws(steps))
    decreases |steps|
  {
    if steps == [] {
      assert order + Draws(steps) == order;
    } else {
      StepOrdered(s, order, steps[0]);
      RunOrdered(Next(s, steps[0]), After(order, steps[0]), steps[1..]);
      DrawsStep(order, steps);
    }
  }

  lemma DrawsStep(order: seq<int>, steps: seq<Step>)
    requires steps != []
    ensures After(order, steps[0]) + Draws(steps[1..]) == order + Draws(steps)
  {
    Regroup(order, After([], steps[0]), Draws(steps[1..]));
  }

  lemma Regroup(a: seq<int>, b: seq<int>, c: seq<int>)
    ensures (a + b) + c == a + (b + c)
  {
  }

  /** The core owns the boot section. */
  predicate InSection(s: Boot, p: int) {
    p in s.cores && (s.cores[p].Booting? || s.cores[p].Stored?)
  }

  /**
    Over every interleaving of up to 255 cores: at most one core is in the boot
    section, ids follow the order of drawing, no assertion of the boot code
    fires, a slot is filled by its own core and by no other, and
    ready <= boot lock <= started.
   */
  lemma BootHandOff(steps: seq<Step>)
    requires LegalRun(START, steps)
    ensures var s, order := Run(START, steps), Draws(steps);
            && |order| <= SLOTS == |s.slots| && s.ready <= s.bootLock <= s.nextId == |order|
            && (forall p, q :: InSection(s, p) && InSection(s, q) ==> p == q)
            && (forall p :: p in s.cores ==> !s.cores[p].Failed?)
            && (forall i :: 0 <= i < |order| ==> Seated(s, order, i))
            && (forall i :: |order| <= i < SLOTS ==> s.slots[i] == 0)
  {
    StartOrdered();
    RunOrdered(START, [], steps);
    assert [] + Draws(steps) == Draws(steps);
    OrderedSafe(Run(START, steps), Draws(steps));
  }

  lemma StartOrdered()
    ensures Ordered(START, [])
  {
    assert UpSet(START) == {};
  }

  lemma OrderedSafe(s: Boot, order: seq<int>)
    requires Ordered(s, order)
    ensures s.ready <= s.bootLock
    ensures forall p, q :: InSection(s, p) && InSection(s, q) ==> p == q
    ensures forall p :: p in s.cores ==> !s.cores[p].Failed?
  {
    PassedBound(s, order, UpSet(s));
    forall p | p in s.cores ensures !s.cores[p].Failed? {
      var i := Find(s, order, p);
    }
    forall p, q | InSection(s, p) && InSection(s, q) ensures p == q {
      var i := Find(s, order, p);
      var j := Find(s, order, q);
    }
  }

  // ---------- progress ----------

  /** The core whose turn it is. */
  function Turn(s: Boot, order: seq<int>): int
    requires 0 <= s.bootLock < |order|
  {
    order[s.bootLock]
  }

  /** A core that waits for the boot section enters it as soon as it is its turn. */
  lemma TurnEnters(s: Boot, order: seq<int>)
    requires Ordered(s, order) && s.bootLock < |order|
    requires Turn(s, order) in s.cores && s.cores[Turn(s, order)].Spinning?
    ensures var p := Turn(s, order);
            && Enabled(s, Leave(p)) && InSection(Next(s, Leave(p)), p) && Next(s, Leave(p)).cores[p].Booting?
            && Next(s, Leave(p)).bootLock == s.bootLock
  {
    assert Seated(s, order, s.bootLock);
  }

  /** In the section it publishes its locals in its own slot, once it has balanced the boot locals. */
  lemma TurnStores(s: Boot, order: seq<int>)
    requires Ordered(s, order) && s.bootLock < |order| && s.locals == BALANCED
    requires Turn(s, order) in s.cores && s.cores[Turn(s, order)].Booting?
    ensures var p := Turn(s, order);
            && Enabled(s, Store(p)) && Next(s, Store(p)).slots == s.slots[s.bootLock := p]
            && Next(s, Store(p)).cores[p].Stored? && Next(s, Store(p)).bootLock == s.bootLock
  {
    assert Seated(s, order, s.bootLock);
  }

  /** And then lets the next core in. */
  lemma TurnPasses(s: Boot, order: seq<int>)
    requires Ordered(s, order) && s.bootLock < |order|
    requires Turn(s, order) in s.cores && s.cores[Turn(s, order)].Stored?
    ensures var p := Turn(s, order);
            && Enabled(s, Pass(p)) && Next(s, Pass(p)).bootLock == s.bootLock + 1
            && Next(s, Pass(p)).cores[p].Passed? && !InSection(Next(s, Pass(p)), p)
  {
    assert Seated(s, order, s.bootLock);
  }

  /** A core past the section reports. */
  lemma PassedReports(s: Boot, order: seq<int>, p: int)
    requires Ordered(s, order) && p in s.cores && s.cores[p].Passed?
    ensures Enabled(s, Report(p)) && Next(s, Report(p)).ready == s.ready + 1 && Next(s, Report(p)).cores[p].Up?
  {
    PassedBound(s, order, UpSet(s) + {p});
    assert p !in UpSet(s);
  }

  /** All cores that were started are up, each in its own slot. */
  predicate Finished(s: Boot, order: seq<int>) {
    && s.ready == s.bootLock == s.nextId == |order| <= |s.slots|
    && (forall i :: 0 <= i < |order| ==> order[i] in s.cores && s.cores[order[i]].Up? && s.slots[i] == order[i])
  }

  /** Some run in which no core is started any more brings all cores up. */
  ghost predicate CanFinish(s: Boot, order: seq<int>) {
    exists steps :: LegalRun(s, steps) && Draws(steps) == [] && Finished(Run(s, steps), order)
  }

  lemma FinishAfter(s: Boot, order: seq<int>, st: Step)
    requires Enabled(s, st) && !st.Draw? && CanFinish(Next(s, st), order)
    ensures CanFinish(s, order)
  {
    var steps :| LegalRun(Next(s, st), steps) && Draws(steps) == [] && Finished(Run(Next(s, st), steps), order);
    var more := [st] + steps;
    assert more[0] == st && more[1..] == steps;
    assert LegalRun(s, more) && Run(s, more) == Run(Next(s, st), steps);
    assert Draws(more) == After([], st) + Draws(steps) == [];
  }

  /** Operations left to the core whose turn it is. */
  function Left(s: Boot, order: seq<int>): int {
    if !(0 <= s.bootLock < |order|) || order[s.bootLock] !in s.cores then 0
    else
      match s.cores[order[s.bootLock]]
      case Spinning(_) => 4
      case Booting(_) => if s.locals == BALANCED then 2 else 3
      case _ => 1
  }

  lemma SomePassed(s: Boot, order: seq<int>) returns (p: int)
    requires Ordered(s, order) && s.bootLock == |order| && s.ready < |order|
    ensures p in s.cores && s.cores[p].Passed?
  {
    MemberCount(order);
    if forall q :: q in Members(order) ==> q in UpSet(s) {
      SubsetBound(Members(order), UpSet(s));
    }
    p :| p in Members(order) && p !in UpSet(s);
    assert Listed(s, order, p);
    var i := Find(s, order, p);
  }

  lemma AllUp(s: Boot, order: seq<int>)
    requires Ordered(s, order) && s.bootLock == |order| && s.ready == |order|
    ensures CanFinish(s, order)
  {
    MemberCount(order);
    forall i | 0 <= i < |order| ensures order[i] in s.cores && s.cores[order[i]].Up? && s.slots[i] == order[i] {
      assert Seated(s, order, i);
      if !s.cores[order[i]].Up? {
        PassedBound(s, order, UpSet(s) + {order[i]});
        assert false;
      }
    }
    assert LegalRun(s, []) && Run(s, []) == s && Draws([]) == [];
  }

  /** The next step of the core whose turn it is. */
  lemma TurnMoves(s: Boot, order: seq<int>) returns (st: Step)
    requires Ordered(s, order) && s.bootLock < |order|
    ensures Enabled(s, st) && !st.Draw? && Ordered(Next(s, st), order)
    ensures var t := Next(s, st);
            t.bootLock == s.bootLock + 1 || (t.bootLock == s.bootLock && 0 <= Left(t, order) < Left(s, order))
  {
    assert Seated(s, order, s.bootLock);
    var p := Turn(s, order);
    if s.cores[p].Spinning? {
      TurnEnters(s, order);
      st := Leave(p);
    } else if s.cores[p].Stored? {
      TurnPasses(s, order);
      st := Pass(p);
    } else if s.locals == BALANCED {
      TurnStores(s, order);
      st := Store(p);
    } else {
      st := Work(p, BALANCED);
    }
    StepOrdered(s, order, st);
    assert After(order, st) == order;
  }

  lemma {:induction false} OrderedCanFinish(s: Boot, order: seq<int>)
    requires Ordered(s, order)
    ensures CanFinish(s, order)
    decreases |order| - s.bootLock, Left(s, order), |order| - s.ready
  {
    OrderedSafe(s, order);
    if s.bootLock < |order| {
      var st := TurnMoves(s, order);
      OrderedCanFinish(Next(s, st), order);
      FinishAfter(s, order, st);
    } else if s.ready < |order| {
      var p := SomePassed(s, order);
      PassedReports(s, order, p);
      StepOrdered(s, order, Report(p));
      assert After(order, Report(p)) == order;
      OrderedCanFinish(Next(s, Report(p)), order);
      FinishAfter(s, order, Report(p));
    } else {
      AllUp(s, order);
    }
  }

  /** Whatever has happened, the cores started so far can all come up, in the order they drew their ids. */
  lemma BootCanFinish(steps: seq<Step>)
    requires LegalRun(START, steps)
    ensures CanFinish(Run(START, steps), Draws(steps))
  {
    StartOrdered();
    RunOrdered(START, [], steps);
    assert [] + Draws(steps) == Draws(steps);
    OrderedCanFinish(Run(START, steps), Draws(steps));
  }
}
