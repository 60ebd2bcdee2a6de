/**
 * Threads that take and release locks: shared and exclusive holds, any interleaving, and why
 * nobody waits for ever when nested acquisitions climb a rank.
 */
module LockOrder {
  import opened Options

  /** The locks of the library. */
  datatype Lock = Registry | Var(i: nat) | Manager | Ordinary(id: nat) | Root | Appender(id: nat)

  /** The read-write locks of the configuration; the others are mutexes. */
  predicate IsConfig(l: Lock) {
    l.Registry? || l.Var?
  }

  /** Mutexes, spin locks and write locks are exclusive; read locks are shared. */
  datatype Mode = Shared | Exclusive

  // ----- Threads -----

  /** `Ask` is the call of the locking function, `Acquire` its return. */
  datatype Act = Ask(lock: Lock, mode: Mode) | Acquire(lock: Lock, mode: Mode) | Release(lock: Lock)

  datatype Held = Held(lock: Lock, mode: Mode)

  /** What a thread holds, innermost last, and what it still has to do. */
  datatype Thread = Thread(held: seq<Held>, todo: seq<Act>)

  predicate Holds(t: Thread, l: Lock) {
    exists k :: 0 <= k < |t.held| && t.held[k].lock == l
  }

  predicate HoldsExclusively(t: Thread, l: Lock) {
    Held(l, Exclusive) in t.held
  }

  predicate WaitsToWrite(t: Thread, l: Lock) {
    t.todo != [] && t.todo[0] == Acquire(l, Exclusive)
  }

  /**
   * Whether a request is granted now. `writersFirst` is the read-write lock's policy: with it, a
   * reader also waits while a writer is waiting.
   */
  predicate Granted(writersFirst: bool, s: seq<Thread>, l: Lock, mode: Mode) {
    if mode == Exclusive then forall j :: 0 <= j < |s| ==> !Holds(s[j], l)
    else forall j :: 0 <= j < |s| ==> !HoldsExclusively(s[j], l) && !(writersFirst && WaitsToWrite(s[j], l))
  }

  predicate Enabled(writersFirst: bool, s: seq<Thread>, i: nat) {
    && i < |s| && s[i].todo != []
    && match s[i].todo[0]
       case Ask(_, _) => true
       case Acquire(l, mode) => Granted(writersFirst, s, l, mode)
       case Release(_) => s[i].held != []
  }

  function Advance(t: Thread): Thread
    requires t.todo != [] && (t.todo[0].Release? ==> t.held != [])
  {
    match t.todo[0]
    case Ask(_, _) => Thread(t.held, t.todo[1..])
    case Acquire(l, mode) => Thread(t.held + [Held(l, mode)], t.todo[1..])
    case Release(_) => Thread(t.held[..|t.held| - 1], t.todo[1..])
  }

  /** The threads after the steps of `schedule`, a list of thread numbers; `None` if a step was not enabled. */
  function Run(writersFirst: bool, s: seq<Thread>, schedule: seq<nat>): (r: Option<seq<Thread>>)
    ensures r.Some? ==> |r.value| == |s|
  {
    if schedule == [] then Some(s) else
      var before, i := Run(writersFirst, s, schedule[..|schedule| - 1]), schedule[|schedule| - 1];
      if before.None? || !Enabled(writersFirst, before.value, i) then None
      else Some(before.value[i := Advance(before.value[i])])
  }

  predicate Unfinished(s: seq<Thread>, i: nat) {
    i < |s| && s[i].todo != []
  }

  /** Some thread has not finished and none can step. */
  ghost predicate Deadlocked(writersFirst: bool, s: seq<Thread>) {
    (exists u :: Unfinished(s, u)) && forall i :: !Enabled(writersFirst, s, i)
  }

  // ----- Discipline -----

  predicate Above(rank: Lock -> int, held: seq<Held>, l: Lock) {
    forall k :: 0 <= k < |held| ==> rank(held[k].lock) < rank(l)
  }

  /**
   * From here on the thread releases what it took last first, and takes only locks above all it
   * holds, except that with `peeks` it may read-lock a configuration lock out of order. A write
   * lock on the configuration is released at once.
   */
  predicate Disciplined(rank: Lock -> int, peeks: bool, held: seq<Held>, todo: seq<Act>)
    decreases |todo|
  {
    if todo == [] then held == [] else
      match todo[0]
      case Ask(_, _) => Disciplined(rank, peeks, held, todo[1..])
      case Acquire(l, mode) =>
        && (Above(rank, held, l) || (peeks && mode == Shared && IsConfig(l)))
        && (mode == Exclusive && IsConfig(l) ==> |todo| > 1 && todo[1].Release?)
        && Disciplined(rank, peeks, held + [Held(l, mode)], todo[1..])
      case Release(l) =>
        held != [] && held[|held| - 1].lock == l && Disciplined(rank, peeks, held[..|held| - 1], todo[1..])
  }

  /** A configuration lock held for writing was taken last and is released next. */
  predicate Brief(t: Thread) {
    forall k :: 0 <= k < |t.held| && t.held[k].mode == Exclusive && IsConfig(t.held[k].lock) ==>
      k == |t.held| - 1 && t.todo != [] && t.todo[0].Release?
  }

  predicate Orderly(rank: Lock -> int, peeks: bool, t: Thread) {
    Disciplined(rank, peeks, t.held, t.todo) && Brief(t)
  }

  predicate AllOrderly(rank: Lock -> int, peeks: bool, s: seq<Thread>) {
    forall i :: 0 <= i < |s| ==> Orderly(rank, peeks, s[i])
  }

  /** A lock held exclusively by one thread is held by no other. */
  ghost predicate Excluded(s: seq<Thread>) {
    forall i, j, l :: 0 <= i < |s| && 0 <= j < |s| && i != j && HoldsExclusively(s[i], l) ==> !Holds(s[j], l)
  }

  lemma AdvanceOrderly(rank: Lock -> int, peeks: bool, t: Thread)
    requires t.todo != [] && Orderly(rank, peeks, t)
    ensures t.todo[0].Release? ==> t.held != []
    ensures Orderly(rank, peeks, Advance(t))
  {
  }

  lemma AdvanceHolds(t: Thread, l: Lock)
    requires t.todo != [] && (t.todo[0].Release? ==> t.held != [])
    ensures Holds(Advance(t), l) ==> Holds(t, l) || (t.todo[0].Acquire? && t.todo[0].lock == l)
    ensures HoldsExclusively(Advance(t), l) ==> HoldsExclusively(t, l) || t.todo[0] == Acquire(l, Exclusive)
  {
    var u := Advance(t);
    if Holds(u, l) {
      var k :| 0 <= k < |u.held| && u.held[k].lock == l;
      assert k < |t.held| ==> u.held[k] == t.held[k];
    }
  }

  lemma GrantedExcludes(writersFirst: bool, s: seq<Thread>, i: nat, j: nat, l: Lock)
    requires Enabled(writersFirst, s, i) && j < |s| && i != j && Excluded(s)
    requires HoldsExclusively(Advance(s[i]), l)
    ensures !Holds(s[j], l)
  {
    AdvanceHolds(s[i], l);
  }

  lemma GrantedShares(writersFirst: bool, s: seq<Thread>, i: nat, j: nat, l: Lock)
    requires Enabled(writersFirst, s, i) && j < |s| && i != j && Excluded(s)
    requires HoldsExclusively(s[j], l)
    ensures !Holds(Advance(s[i]), l)
  {
    AdvanceHolds(s[i], l);
    if s[i].todo[0].Acquire? && s[i].todo[0].lock == l {
      ExclusiveIsHeld(s[j], l);
    }
  }

  lemma ExclusiveIsHeld(t: Thread, l: Lock)
    ensures HoldsExclusively(t, l) ==> Holds(t, l)
  {
    if HoldsExclusively(t, l) {
      var k :| 0 <= k < |t.held| && t.held[k] == Held(l, Exclusive);
    }
  }

  lemma StepKeepsExcluded(writersFirst: bool, s: seq<Thread>, i: nat)
    requires Enabled(writersFirst, s, i) && Excluded(s)
    ensures Excluded(s[i := Advance(s[i])])
  {
    var u := s[i := Advance(s[i])];
    forall a, b, l | 0 <= a < |u| && 0 <= b < |u| && a != b && HoldsExclusively(u[a], l) ensures !Holds(u[b], l) {
      if a == i {
        GrantedExcludes(writersFirst, s, i, b, l);
      } else if b == i {
        GrantedShares(writersFirst, s, i, a, l);
      }
    }
  }

  /** Every reachable state is disciplined, and exclusive holds exclude. */
  lemma {:induction false} RunKeeps(rank: Lock -> int, peeks: bool, writersFirst: bool, s: seq<Thread>, schedule: seq<nat>)
    requires AllOrderly(rank, peeks, s) && Excluded(s)
    ensures var r := Run(writersFirst, s, schedule); r.Some? ==> AllOrderly(rank, peeks, r.value) && Excluded(r.value)
  {
    if schedule != [] {
      var init, i := schedule[..|schedule| - 1], schedule[|schedule| - 1];
      RunKeeps(rank, peeks, writersFirst, s, init);
      var before := Run(writersFirst, s, init);
      if before.Some? && Enabled(writersFirst, before.value, i) {
        AdvanceOrderly(rank, peeks, before.value[i]);
        StepKeepsExcluded(writersFirst, before.value, i);
      }
    }
  }

  // ----- Progress -----

  ghost predicate Ranking(rank: Lock -> int) {
    forall l :: rank(l) >= 0
  }

  /** The rank a thread is waiting for; below all ranks if it is not about to acquire. */
  function WantedRank(rank: Lock -> int, t: Thread): int {
    if t.todo != [] && t.todo[0].Acquire? then rank(t.todo[0].lock) else -1
  }

  lemma {:induction false} HighestWanted(rank: Lock -> int, s: seq<Thread>) returns (i: nat)
    requires s != []
    ensures i < |s| && forall j :: 0 <= j < |s| ==> WantedRank(rank, s[j]) <= WantedRank(rank, s[i])
  {
    i := 0;
    var k := 1;
    while k < |s|
      invariant i < k <= |s| && forall j :: 0 <= j < k ==> WantedRank(rank, s[j]) <= WantedRank(rank, s[i])
    {
      if WantedRank(rank, s[i]) < WantedRank(rank, s[k]) { i := k; }
      k := k + 1;
    }
  }

  /** A request that is not granted has a holder behind it, or a waiting writer. */
  lemma WhoBlocks(writersFirst: bool, s: seq<Thread>, l: Lock, mode: Mode) returns (j: nat)
    requires !Granted(writersFirst, s, l, mode)
    ensures j < |s| && (Holds(s[j], l) || (mode == Shared && WaitsToWrite(s[j], l)))
  {
    if mode == Exclusive {
      j :| 0 <= j < |s| && Holds(s[j], l);
    } else {
      j :| 0 <= j < |s| && (HoldsExclusively(s[j], l) || (writersFirst && WaitsToWrite(s[j], l)));
      ExclusiveIsHeld(s[j], l);
    }
  }

  /** In a state without enabled threads, the lock a thread wants is held by some thread. */
  lemma WhoHolds(writersFirst: bool, s: seq<Thread>, i: nat) returns (j: nat)
    requires Unfinished(s, i) && s[i].todo[0].Acquire?
    requires forall k :: !Enabled(writersFirst, s, k)
    ensures j < |s| && Holds(s[j], s[i].todo[0].lock)
  {
    var l := s[i].todo[0].lock;
    assert !Enabled(writersFirst, s, i);
    j := WhoBlocks(writersFirst, s, l, s[i].todo[0].mode);
    if !Holds(s[j], l) {
      assert !Enabled(writersFirst, s, j);
      j := WhoBlocks(writersFirst, s, l, Exclusive);
    }
  }

  /** A thread that is stuck is at an acquisition; where readers come first, not at one out of order. */
  lemma StuckClimbs(rank: Lock -> int, writersFirst: bool, s: seq<Thread>, i: nat)
    requires AllOrderly(rank, !writersFirst, s) && Unfinished(s, i) && forall k :: !Enabled(writersFirst, s, k)
    ensures s[i].todo[0].Acquire? && Above(rank, s[i].held, s[i].todo[0].lock)
  {
    assert !Enabled(writersFirst, s, i) && Orderly(rank, !writersFirst, s[i]);
    var l, mode := s[i].todo[0].lock, s[i].todo[0].mode;
    if !writersFirst && mode == Shared && IsConfig(l) {
      var j :| 0 <= j < |s| && HoldsExclusively(s[j], l);
      var k :| 0 <= k < |s[j].held| && s[j].held[k] == Held(l, Exclusive);
      assert Orderly(rank, !writersFirst, s[j]);
      assert Enabled(writersFirst, s, j);
    }
  }

  /** A stuck thread that holds a lock wants one above it. */
  lemma HolderWantsMore(rank: Lock -> int, writersFirst: bool, s: seq<Thread>, j: nat, l: Lock)
    requires AllOrderly(rank, !writersFirst, s) && j < |s| && Holds(s[j], l) && forall k :: !Enabled(writersFirst, s, k)
    ensures WantedRank(rank, s[j]) > rank(l)
  {
    assert Orderly(rank, !writersFirst, s[j]);
    StuckClimbs(rank, writersFirst, s, j);
  }

  /** In a disciplined state with an unfinished thread some thread can step. */
  lemma SomeThreadCanStep(rank: Lock -> int, writersFirst: bool, s: seq<Thread>)
    requires Ranking(rank) && AllOrderly(rank, !writersFirst, s)
    ensures !Deadlocked(writersFirst, s)
  {
    if Deadlocked(writersFirst, s) {
      var u: nat :| Unfinished(s, u);
      StuckClimbs(rank, writersFirst, s, u);
      var i := HighestWanted(rank, s);
      assert WantedRank(rank, s[u]) <= WantedRank(rank, s[i]);
      var j := WhoHolds(writersFirst, s, i);
      assert WantedRank(rank, s[j]) <= WantedRank(rank, s[i]);
      HolderWantsMore(rank, writersFirst, s, j, s[i].todo[0].lock);
    }
  }

  // ----- Termination -----

  /** The steps all threads still have to make. */
  function Work(s: seq<Thread>): nat {
    if s == [] then 0 else Work(s[..|s| - 1]) + |s[|s| - 1].todo|
  }

  lemma {:induction false} WorkZero(s: seq<Thread>)
    ensures Work(s) == 0 <==> forall i :: 0 <= i < |s| ==> s[i].todo == []
  {
    if s != [] {
      WorkZero(s[..|s| - 1]);
    }
  }

  lemma {:induction false} WorkOfOne(s: seq<Thread>, i: nat, t: Thread)
    requires i < |s|
    ensures Work(s[i := t]) == Work(s) - |s[i].todo| + |t.todo|
  {
    var u := s[i := t];
    if i < |s| - 1 {
      assert u[..|s| - 1] == s[..|s| - 1][i := t];
      WorkOfOne(s[..|s| - 1], i, t);
    } else {
      assert u[..|s| - 1] == s[..|s| - 1];
    }
  }

  lemma {:induction false} RunUsesWork(writersFirst: bool, s: seq<Thread>, schedule: seq<nat>)
    ensures var r := Run(writersFirst, s, schedule); r.Some? ==> |schedule| + Work(r.value) == Work(s)
  {
    if schedule != [] {
      var init, i := schedule[..|schedule| - 1], schedule[|schedule| - 1];
      RunUsesWork(writersFirst, s, init);
      var before := Run(writersFirst, s, init);
      if before.Some? && Enabled(writersFirst, before.value, i) {
        WorkOfOne(before.value, i, Advance(before.value[i]));
      }
    }
  }

  /** Nothing is held and every thread starts with a disciplined program. */
  predicate Start(rank: Lock -> int, peeks: bool, s: seq<Thread>) {
    forall i :: 0 <= i < |s| ==> s[i].held == [] && Disciplined(rank, peeks, [], s[i].todo)
  }

  /**
   * No deadlock, for any number of threads and any interleaving: a run that has not used up
   * all work can go on, and one that has leaves every thread finished and every lock free.
   */
  lemma NoDeadlock(rank: Lock -> int, writersFirst: bool, s: seq<Thread>, schedule: seq<nat>)
    requires Ranking(rank) && Start(rank, !writersFirst, s) && Run(writersFirst, s, schedule).Some?
    ensures var r := Run(writersFirst, s, schedule).value;
            && !Deadlocked(writersFirst, r)
            && |schedule| <= Work(s)
            && (|schedule| < Work(s) ==> exists i :: Enabled(writersFirst, r, i))
            && (|schedule| == Work(s) ==> forall i :: 0 <= i < |r| ==> r[i] == Thread([], []))
  {
    var r := Run(writersFirst, s, schedule).value;
    RunKeeps(rank, !writersFirst, writersFirst, s, schedule);
    RunUsesWork(writersFirst, s, schedule);
    SomeThreadCanStep(rank, writersFirst, r);
    WorkZero(r);
    if |schedule| < Work(s) {
      var u :| 0 <= u < |r| && r[u].todo != [];
      assert Unfinished(r, u);
    } else {
      forall i | 0 <= i < |r| ensures r[i] == Thread([], []) {
        assert Orderly(rank, !writersFirst, r[i]);
      }
    }
  }
}
