/**
  The reader-writer lock as a state machine over its loads, compare-exchanges and
  guard drops, interleaved over any number of callers.
 */
module RwLocks {
  import TicketLocks

  /** One invocation of `read` or `lock`. */
  type Caller = TicketLocks.Call

  datatype Phase =
    | Loading              // `read`: about to load the count
    | Loaded(seen: int)    // `read`: saw the count, about to compare-exchange, or to load again if negative
    | Reading              // holds a read guard
    | Locking              // `lock`: about to compare-exchange 0 with -1
    | Writing              // holds the write guard
    | Failed               // an assertion of the lock fired

  /** `count` is the access count: the number of readers, or -1 for a writer. */
  datatype Lock = Lock(count: int, callers: map<Caller, Phase>)

  datatype Step =
    | StartRead(c: Caller)
    | StartWrite(c: Caller)
    | TryWrite(c: Caller)     // `try_lock`: loads the count and goes on to `lock` only if it is 0
    | Load(c: Caller)
    | Exchange(c: Caller)     // compare-exchange of a reader
    | Swap(c: Caller)         // compare-exchange of a writer
    | DropRead(c: Caller)     // fetch_sub, then the assertion that a reader existed
    | DropWrite(c: Caller)    // store 0

  const FREE: Lock := Lock(0, map[])

  /** The access count is a signed 64-bit integer. */
  const COUNT_LIMIT: int := 0x8000_0000_0000_0000

  /** Fewer than 2^63 callers at a time. */
  predicate Enabled(s: Lock, st: Step) {
    match st
    case StartRead(c) => c !in s.callers && |s.callers| + 1 < COUNT_LIMIT
    case StartWrite(c) => c !in s.callers && |s.callers| + 1 < COUNT_LIMIT
    case TryWrite(c) => c !in s.callers && |s.callers| + 1 < COUNT_LIMIT
    case Load(c) => c in s.callers && (s.callers[c].Loading? || (s.callers[c].Loaded? && s.callers[c].seen < 0))
    case Exchange(c) => c in s.callers && s.callers[c].Loaded? && s.callers[c].seen >= 0
    case Swap(c) => c in s.callers && s.callers[c].Locking?
    case DropRead(c) => c in s.callers && s.callers[c].Reading?
    case DropWrite(c) => c in s.callers && s.callers[c].Writing?
  }

  function Set(s: Lock, c: Caller, p: Phase): Lock {
    s.(callers := s.callers[c := p])
  }

  function Next(s: Lock, st: Step): Lock
    requires Enabled(s, st)
  {
    match st
    case StartRead(c) => Set(s, c, Loading)
    case StartWrite(c) => Set(s, c, Locking)
    case TryWrite(c) => if s.count == 0 then Set(s, c, Locking) else s
    case Load(c) => Set(s, c, Loaded(s.count))
    case Exchange(c) =>
      if s.count == s.callers[c].seen then
        Set(s, c, if s.count >= 0 then Reading else Failed).(count := s.callers[c].seen + 1)
      else Set(s, c, Loaded(s.count))
    case Swap(c) => if s.count == 0 then Set(s, c, Writing).(count := -1) else s
    case DropRead(c) =>
      if s.count >= 1 then s.(count := s.count - 1, callers := s.callers - {c})
      else Set(s, c, Failed).(count := s.count - 1)
    case DropWrite(c) => s.(count := 0, callers := s.callers - {c})
  }

  function Readers(s: Lock): set<Caller> {
    set c | c in s.callers && s.callers[c].Reading?
  }

  function Writers(s: Lock): set<Caller> {
    set c | c in s.callers && s.callers[c].Writing?
  }

  /** Either one writer and no reader, or any number of readers and no writer; the count says which. */
  predicate Exclusive(s: Lock) {
    || (s.count == -1 && |Writers(s)| == 1 && Readers(s) == {})
    || (s.count == |Readers(s)| && Writers(s) == {})
  }

  predicate Inv(s: Lock) {
    Exclusive(s) && |s.callers| < COUNT_LIMIT && forall c :: c in s.callers ==> !s.callers[c].Failed?
  }

  /** The count never leaves the range of a signed 64-bit integer. */
  lemma CountFits(s: Lock)
    requires Inv(s)
    ensures -1 <= s.count < COUNT_LIMIT
  {
    var rest := s.callers.Keys - Readers(s);
    assert s.callers.Keys == Readers(s) + rest && |Readers(s) + rest| == |Readers(s)| + |rest|;
  }

  /** A caller that neither gains nor loses a guard changes no count. */
  lemma NoGuard(s: Lock, t: Lock, c: Caller)
    requires c in t.callers && t.count == s.count && t.callers == s.callers[c := t.callers[c]]
    requires (c in s.callers ==> !s.callers[c].Reading? && !s.callers[c].Writing?)
    requires !t.callers[c].Reading? && !t.callers[c].Writing?
    ensures Readers(t) == Readers(s) && Writers(t) == Writers(s)
  {
  }

  function Guards(s: Lock): int {
    |Readers(s)| + |Writers(s)|
  }

  lemma ExchangeInv(s: Lock, c: Caller)
    requires Inv(s) && Enabled(s, Exchange(c))
    ensures Inv(Next(s, Exchange(c)))
    ensures Guards(Next(s, Exchange(c))) == Guards(s) + (if s.count == s.callers[c].seen then 1 else 0)
  {
    var t := Next(s, Exchange(c));
    if s.count == s.callers[c].seen {
      assert Readers(t) == Readers(s) + {c};
      assert Writers(t) == Writers(s);
    } else {
      NoGuard(s, t, c);
    }
  }

  lemma SwapInv(s: Lock, c: Caller)
    requires Inv(s) && Enabled(s, Swap(c))
    ensures Inv(Next(s, Swap(c)))
    ensures Guards(Next(s, Swap(c))) == Guards(s) + (if s.count == 0 then 1 else 0)
  {
    var t := Next(s, Swap(c));
    if s.count == 0 {
      assert Readers(s) == {};
      assert Readers(t) == {};
      assert Writers(t) == {c};
    }
  }

  lemma DropReadInv(s: Lock, c: Caller)
    requires Inv(s) && Enabled(s, DropRead(c))
    ensures Inv(Next(s, DropRead(c)))
    ensures Guards(Next(s, DropRead(c))) == Guards(s) - 1
  {
    var t := Next(s, DropRead(c));
    assert c in Readers(s);
    assert s.count == |Readers(s)| >= 1;
    assert Readers(t) == Readers(s) - {c};
    assert Writers(t) == Writers(s);
  }

  lemma SingleElement(s: set<Caller>, c: Caller)
    requires |s| == 1 && c in s
    ensures s == {c}
  {
    assert |s - {c}| == 0;
  }

  lemma DropWriteInv(s: Lock, c: Caller)
    requires Inv(s) && Enabled(s, DropWrite(c))
    ensures Inv(Next(s, DropWrite(c)))
    ensures Guards(Next(s, DropWrite(c))) == Guards(s) - 1
  {
    var t := Next(s, DropWrite(c));
    assert c in Writers(s);
    SingleElement(Writers(s), c);
    assert Writers(t) == Writers(s) - {c};
    assert Readers(t) == Readers(s);
  }

  lemma StepInv(s: Lock, st: Step)
    requires Inv(s) && Enabled(s, st)
    ensures Inv(Next(s, st))
  {
    match st
    case StartRead(c) => NoGuard(s, Next(s, st), c);
    case StartWrite(c) => NoGuard(s, Next(s, st), c);
    case TryWrite(c) => if s.count == 0 { NoGuard(s, Next(s, st), c); }
    case Load(c) => NoGuard(s, Next(s, st), c);
    case Exchange(c) => ExchangeInv(s, c);
    case Swap(c) => SwapInv(s, c);
    case DropRead(c) => DropReadInv(s, c);
    case DropWrite(c) => DropWriteInv(s, c);
  }

  predicate LegalRun(s: Lock, steps: seq<Step>)
    decreases |steps|
  {
    steps == [] || (Enabled(s, steps[0]) && LegalRun(Next(s, steps[0]), steps[1..]))
  }

  function Run(s: Lock, steps: seq<Step>): Lock
    requires LegalRun(s, steps)
    decreases |steps|
  {
    if steps == [] then s else Run(Next(s, steps[0]), steps[1..])
  }

  lemma {:induction false} RunInv(s: Lock, steps: seq<Step>)
    requires Inv(s) && LegalRun(s, steps)
    ensures Inv(Run(s, steps))
    decreases |steps|
  {
    if steps != [] {
      StepInv(s, steps[0]);
      RunInv(Next(s, steps[0]), steps[1..]);
    }
  }

  /**
    Reader/writer exclusion over every interleaving: a writer is alone, the count
    is the number of read guards or -1, and no assertion of the lock ever fires.
   */
  lemma {:induction false} ReaderWriterExclusion(steps: seq<Step>)
    requires LegalRun(FREE, steps)
    ensures var s := Run(FREE, steps);
            && (s.count == -1 <==> Writers(s) != {})
            && (Writers(s) != {} ==> |Writers(s)| == 1 && Readers(s) == {})
            && (Writers(s) == {} ==> s.count == |Readers(s)|)
            && -1 <= s.count < COUNT_LIMIT
            && forall c :: c in s.callers ==> !s.callers[c].Failed?
  {
    assert Readers(FREE) == {} && Writers(FREE) == {};
    RunInv(FREE, steps);
    CountFits(Run(FREE, steps));
  }

  // ---------- how long a writer waits ----------

  /** The step is a compare-exchange that succeeds. */
  predicate Takes(s: Lock, st: Step)
    requires Enabled(s, st)
  {
    match st
    case Exchange(c) => s.count == s.callers[c].seen
    case Swap(_) => s.count == 0
    case _ => false
  }

  predicate Drops(st: Step) {
    st.DropRead? || st.DropWrite?
  }

  lemma GuardStep(s: Lock, st: Step)
    requires Inv(s) && Enabled(s, st)
    ensures Guards(Next(s, st)) == Guards(s) + (if Takes(s, st) then 1 else 0) - (if Drops(st) then 1 else 0)
  {
    match st
    case StartRead(c) => NoGuard(s, Next(s, st), c);
    case StartWrite(c) => NoGuard(s, Next(s, st), c);
    case TryWrite(c) => if s.count == 0 { NoGuard(s, Next(s, st), c); }
    case Load(c) => NoGuard(s, Next(s, st), c);
    case Exchange(c) => ExchangeInv(s, c);
    case Swap(c) => SwapInv(s, c);
    case DropRead(c) => DropReadInv(s, c);
    case DropWrite(c) => DropWriteInv(s, c);
  }

  /** Guards taken minus guards dropped in a run. */
  function Balance(s: Lock, steps: seq<Step>): int
    requires LegalRun(s, steps)
    decreases |steps|
  {
    if steps == [] then 0
    else
      (if Takes(s, steps[0]) then 1 else 0) - (if Drops(steps[0]) then 1 else 0) +
      Balance(Next(s, steps[0]), steps[1..])
  }

  predicate NotBy(c: Caller, steps: seq<Step>) {
    forall i :: 0 <= i < |steps| ==> steps[i].c != c
  }

  lemma {:induction false} GuardBalance(s: Lock, steps: seq<Step>, c: Caller)
    requires Inv(s) && LegalRun(s, steps) && NotBy(c, steps) && c in s.callers
    ensures var u := Run(s, steps);
            Inv(u) && Guards(u) == Guards(s) + Balance(s, steps) && c in u.callers && u.callers[c] == s.callers[c]
    decreases |steps|
  {
    if steps != [] {
      assert steps[0].c != c;
      StepInv(s, steps[0]);
      GuardStep(s, steps[0]);
      GuardBalance(Next(s, steps[0]), steps[1..], c);
    }
  }

  lemma FreeIsUnguarded(s: Lock)
    requires Inv(s)
    ensures s.count == 0 <==> Guards(s) == 0
  {
  }

  /**
    A `try_lock` that saw the lock free fails its first compare-exchange, and then
    waits, if and only if more guards were taken than dropped in between.
   */
  lemma TryWaitsExactly(s: Lock, c: Caller, steps: seq<Step>)
    requires Inv(s) && Enabled(s, TryWrite(c)) && s.count == 0
    requires LegalRun(Next(s, TryWrite(c)), steps) && NotBy(c, steps)
    ensures var t := Next(s, TryWrite(c));
            var u := Run(t, steps);
            && Enabled(u, Swap(c))
            && (Next(u, Swap(c)).callers[c].Locking? <==> Balance(t, steps) > 0)
            && (Next(u, Swap(c)).callers[c].Writing? <==> Balance(t, steps) == 0)
  {
    var t := Next(s, TryWrite(c));
    StepInv(s, TryWrite(c));
    GuardStep(s, TryWrite(c));
    GuardBalance(t, steps, c);
    FreeIsUnguarded(s);
    FreeIsUnguarded(Run(t, steps));
  }

  /** The own steps of a reader that is let in. */
  function ReadSteps(s: Lock, c: Caller): seq<Step>
    requires c in s.callers
  {
    match s.callers[c]
    case Loading => [Load(c)] + ([Exchange(c)] + [])
    case Loaded(seen) =>
      if seen == s.count then [Exchange(c)] + []
      else if seen < 0 then [Load(c)] + ([Exchange(c)] + [])
      else [Exchange(c)] + ([Exchange(c)] + [])
    case _ => []
  }

  /**
    While no writer has the lock, a reader gets in by its own steps alone, whatever
    count it saw last.
   */
  lemma ReaderGetsIn(s: Lock, c: Caller)
    requires Inv(s) && s.count >= 0 && c in s.callers && (s.callers[c].Loading? || s.callers[c].Loaded?)
    ensures LegalRun(s, ReadSteps(s, c))
    ensures Run(s, ReadSteps(s, c)).count == s.count + 1
    ensures Run(s, ReadSteps(s, c)).callers == s.callers[c := Reading]
  {
    var t, u := Set(s, c, Loaded(s.count)), Set(s, c, Reading).(count := s.count + 1);
    assert t.callers[c := Reading] == u.callers;
    assert LegalRun(u, []) && Run(u, []) == u;
    RunCons(t, Exchange(c), [], c);
    if s.callers[c] == Loaded(s.count) {
      RunCons(s, Exchange(c), [], c);
    } else if s.callers[c].Loading? || s.callers[c].seen < 0 {
      RunCons(s, Load(c), [Exchange(c)] + [], c);
    } else {
      RunCons(s, Exchange(c), [Exchange(c)] + [], c);
    }
  }

  /** A reader comes, the writer tries in vain, the reader goes; `n` times over. */
  function Rounds(n: nat, c: Caller, d: Caller): seq<Step> {
    if n == 0 then []
    else [StartRead(d)] + ([Load(d)] + ([Exchange(d)] + ([Swap(c)] + ([DropRead(d)] + Rounds(n - 1, c, d)))))
  }

  /** Compare-exchanges of `c` that fail. */
  function Failures(s: Lock, steps: seq<Step>, c: Caller): int
    requires LegalRun(s, steps)
    decreases |steps|
  {
    if steps == [] then 0
    else (if steps[0] == Swap(c) && s.count != 0 then 1 else 0) + Failures(Next(s, steps[0]), steps[1..], c)
  }

  lemma RunCons(s: Lock, st: Step, steps: seq<Step>, c: Caller)
    requires Enabled(s, st) && LegalRun(Next(s, st), steps)
    ensures LegalRun(s, [st] + steps) && Run(s, [st] + steps) == Run(Next(s, st), steps)
    ensures Failures(s, [st] + steps, c) ==
            (if st == Swap(c) && s.count != 0 then 1 else 0) + Failures(Next(s, st), steps, c)
  {
    assert ([st] + steps)[0] == st && ([st] + steps)[1..] == steps;
  }

  /**
    There is no bound on the wait of a writer, unlike for a ticket lock: from every
    state in which it waits for a free lock, and for every `n`, one reader that comes
    and goes can make it fail `n` times.
   */
  lemma {:induction false} WriterCanStarve(s: Lock, c: Caller, d: Caller, n: nat)
    requires Inv(s) && s.count == 0 && c in s.callers && s.callers[c].Locking?
    requires d !in s.callers && |s.callers| + 1 < COUNT_LIMIT
    ensures LegalRun(s, Rounds(n, c, d)) && Run(s, Rounds(n, c, d)) == s
    ensures Failures(s, Rounds(n, c, d), c) == n
  {
    if n > 0 {
      WriterCanStarve(s, c, d, n - 1);
      var rest := Rounds(n - 1, c, d);
      var s1, s2, s3 := Set(s, d, Loading), Set(s, d, Loaded(0)), Set(s, d, Reading).(count := 1);
      assert s1.callers[d := Loaded(0)] == s2.callers && s2.callers[d := Reading] == s3.callers;
      assert s3.callers - {d} == s.callers;
      RunCons(s3, DropRead(d), rest, c);
      RunCons(s3, Swap(c), [DropRead(d)] + rest, c);
      RunCons(s2, Exchange(d), [Swap(c)] + ([DropRead(d)] + rest), c);
      RunCons(s1, Load(d), [Exchange(d)] + ([Swap(c)] + ([DropRead(d)] + rest)), c);
      RunCons(s, StartRead(d), [Load(d)] + ([Exchange(d)] + ([Swap(c)] + ([DropRead(d)] + rest))), c);
    }
  }
}
