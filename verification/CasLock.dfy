/**
 * Scoped guards over one compare-and-set lock, step by step: each guard is used by one thread,
 * threads interleave between any two accesses to shared memory or to the guard.
 */
module CasLock {
  import opened Options

  /** Where a guard's thread is. */
  datatype Place =
    | NoGuard
    /** In `CASLock::lock`, about to test and set the flag. */
    | Spinning
    /** The flag was clear and is now set; `m_locked` is not yet. */
    | Won
    /** Between calls on the guard. */
    | Resting
    /** In `unlock`, past the test of `m_locked`, about to clear the flag. */
    | Clearing
    /** The flag is cleared; `m_locked` is not yet. */
    | Cleared

  /** `loaded` is the value an increment in progress has read from the guarded counter. */
  datatype Guard = Guard(place: Place, locked: bool, dying: bool, loaded: Option<nat>)

  datatype Sys = Sys(flag: bool, guards: seq<Guard>, counter: nat, increments: nat)

  datatype Op = Create | TestAndSet | MarkLocked | Lock | Unlock | ClearFlag | MarkUnlocked | Destroy | Load | Store

  predicate Owns(g: Guard) {
    g.place == Won || g.place == Clearing || (g.place == Resting && g.locked)
  }

  /**
   * When a thread takes a step: each step has its place; the counter is used only while the
   * guard is locked, and an increment is not cut in two by a call on the guard.
   */
  predicate Enabled(s: Sys, t: nat, op: Op) {
    t < |s.guards| &&
    var g := s.guards[t];
    match op
    case Create => g.place == NoGuard
    case TestAndSet => g.place == Spinning
    case MarkLocked => g.place == Won
    case Lock => g.place == Resting && g.loaded.None?
    case Unlock => g.place == Resting && g.loaded.None?
    case ClearFlag => g.place == Clearing
    case MarkUnlocked => g.place == Cleared
    case Destroy => g.place == Resting && g.loaded.None?
    case Load => g.place == Resting && g.locked && g.loaded.None?
    case Store => g.place == Resting && g.locked && g.loaded.Some?
  }

  function Step(s: Sys, t: nat, op: Op): Sys
    requires Enabled(s, t, op)
  {
    var g := s.guards[t];
    match op
    case Create => s.(guards := s.guards[t := Guard(Spinning, false, false, None)])
    case TestAndSet => if s.flag then s else s.(flag := true, guards := s.guards[t := g.(place := Won)])
    case MarkLocked => s.(guards := s.guards[t := g.(place := Resting, locked := true)])
    case Lock => if g.locked then s else s.(guards := s.guards[t := g.(place := Spinning)])
    case Unlock => if g.locked then s.(guards := s.guards[t := g.(place := Clearing)]) else s
    case ClearFlag => s.(flag := false, guards := s.guards[t := g.(place := Cleared)])
    case MarkUnlocked => s.(guards := s.guards[t := g.(locked := false, place := if g.dying then NoGuard else Resting)])
    case Destroy => s.(guards := s.guards[t := g.(dying := true, place := if g.locked then Clearing else NoGuard)])
    case Load => s.(guards := s.guards[t := g.(loaded := Some(s.counter))])
    case Store => s.(guards := s.guards[t := g.(loaded := None)], counter := g.loaded.value + 1, increments := s.increments + 1)
  }

  // ----- The invariant -----

  /** What `m_locked` and an increment in progress are at each place. */
  predicate Sound(g: Guard, counter: nat) {
    && (g.place == Spinning || g.place == Won ==> !g.locked)
    && (g.place == Clearing || g.place == Cleared ==> g.locked)
    && (g.loaded.Some? ==> g.place == Resting && g.locked && g.loaded.value == counter)
  }

  predicate OneOwner(s: Sys) {
    forall t, u :: 0 <= t < |s.guards| && 0 <= u < |s.guards| && Owns(s.guards[t]) && Owns(s.guards[u]) ==> t == u
  }

  predicate FlagIffOwned(s: Sys) {
    s.flag <==> exists t :: 0 <= t < |s.guards| && Owns(s.guards[t])
  }

  predicate Inv(s: Sys) {
    && (forall t :: 0 <= t < |s.guards| ==> Sound(s.guards[t], s.counter))
    && OneOwner(s) && FlagIffOwned(s)
    && s.counter == s.increments
  }

  /** A step in which the guard keeps owning, or keeps not owning, the lock. */
  lemma SameOwner(s: Sys, t: nat, g: Guard)
    requires Inv(s) && t < |s.guards| && Sound(g, s.counter) && Owns(g) == Owns(s.guards[t])
    ensures Inv(s.(guards := s.guards[t := g]))
  {
    var u := s.(guards := s.guards[t := g]);
    if s.flag {
      var o :| 0 <= o < |s.guards| && Owns(s.guards[o]);
      assert Owns(u.guards[o]);
    }
  }

  lemma TestAndSetKeeps(s: Sys, t: nat)
    requires Inv(s) && Enabled(s, t, TestAndSet)
    ensures Inv(Step(s, t, TestAndSet))
  {
    if !s.flag {
      assert forall u :: 0 <= u < |s.guards| ==> !Owns(s.guards[u]);
      assert Owns(Step(s, t, TestAndSet).guards[t]);
    }
  }

  lemma ClearFlagKeeps(s: Sys, t: nat)
    requires Inv(s) && Enabled(s, t, ClearFlag)
    ensures Inv(Step(s, t, ClearFlag))
  {
    assert Owns(s.guards[t]);
    assert forall u :: 0 <= u < |s.guards| && u != t ==> !Owns(s.guards[u]);
  }

  /** Only the owner has an increment in progress, so nobody else's read value goes stale. */
  lemma StoreKeeps(s: Sys, t: nat)
    requires Inv(s) && Enabled(s, t, Store)
    ensures Inv(Step(s, t, Store))
  {
    var r := Step(s, t, Store);
    assert Owns(s.guards[t]) && Owns(r.guards[t]);
    forall u | 0 <= u < |r.guards| ensures Sound(r.guards[u], r.counter) {
      assert Sound(s.guards[u], s.counter);
      if u != t {
        assert !Owns(s.guards[u]);
      }
    }
  }

  lemma StepKeeps(s: Sys, t: nat, op: Op)
    requires Inv(s) && Enabled(s, t, op)
    ensures Inv(Step(s, t, op))
  {
    var g := s.guards[t];
    assert Sound(g, s.counter);
    match op
    case TestAndSet => TestAndSetKeeps(s, t);
    case ClearFlag => ClearFlagKeeps(s, t);
    case Store => StoreKeeps(s, t);
    case Create => SameOwner(s, t, Guard(Spinning, false, false, None));
    case MarkLocked => SameOwner(s, t, g.(place := Resting, locked := true));
    case Lock => if !g.locked { SameOwner(s, t, g.(place := Spinning)); }
    case Unlock => if g.locked { SameOwner(s, t, g.(place := Clearing)); }
    case MarkUnlocked => SameOwner(s, t, g.(locked := false, place := if g.dying then NoGuard else Resting));
    case Destroy => SameOwner(s, t, g.(dying := true, place := if g.locked then Clearing else NoGuard));
    case Load => SameOwner(s, t, g.(loaded := Some(s.counter)));
  }

  // ----- Runs -----

  datatype Event = Event(thread: nat, op: Op)

  function Start(threads: nat): Sys {
    Sys(false, seq(threads, _ => Guard(NoGuard, false, false, None)), 0, 0)
  }

  function Run(threads: nat, events: seq<Event>): Option<Sys> {
    if events == [] then Some(Start(threads)) else
      var before, e := Run(threads, events[..|events| - 1]), events[|events| - 1];
      if before.None? || !Enabled(before.value, e.thread, e.op) then None else Some(Step(before.value, e.thread, e.op))
  }

  /** The increments that threads completed in a run. */
  function Stores(events: seq<Event>): nat {
    if events == [] then 0 else Stores(events[..|events| - 1]) + if events[|events| - 1].op == Store then 1 else 0
  }

  lemma {:induction false} RunKeeps(threads: nat, events: seq<Event>)
    ensures var r := Run(threads, events); r.Some? ==> Inv(r.value) && r.value.increments == Stores(events)
  {
    if events != [] {
      var init, e := events[..|events| - 1], events[|events| - 1];
      RunKeeps(threads, init);
      var before := Run(threads, init);
      if before.Some? && Enabled(before.value, e.thread, e.op) {
        StepKeeps(before.value, e.thread, e.op);
      }
    }
  }

  /** Between setting the flag and clearing it there is at most one thread, and the flag is set exactly then. */
  lemma MutualExclusion(threads: nat, events: seq<Event>, t: nat, u: nat)
    requires Run(threads, events).Some?
    ensures var s := Run(threads, events).value;
            && (t < |s.guards| && u < |s.guards| && Owns(s.guards[t]) && Owns(s.guards[u]) ==> t == u)
            && FlagIffOwned(s)
  {
    RunKeeps(threads, events);
  }

  /** A guard that clears the flag owns the lock, alone; one that does not own it never clears it. */
  lemma OnlyTheOwnerReleases(threads: nat, events: seq<Event>, t: nat, op: Op)
    requires Run(threads, events).Some? && Enabled(Run(threads, events).value, t, op)
    ensures var s := Run(threads, events).value;
            s.flag && !Step(s, t, op).flag ==>
              && op == ClearFlag && s.guards[t].locked && Owns(s.guards[t])
              && forall u :: 0 <= u < |s.guards| && u != t ==> !Owns(s.guards[u])
    ensures op == ClearFlag ==> Run(threads, events).value.flag
  {
    RunKeeps(threads, events);
    var s := Run(threads, events).value;
    if op == ClearFlag {
      assert Owns(s.guards[t]);
    }
  }

  /** No increment of the guarded counter is lost. */
  lemma CounterCountsIncrements(threads: nat, events: seq<Event>)
    requires Run(threads, events).Some?
    ensures Run(threads, events).value.counter == Stores(events)
  {
    RunKeeps(threads, events);
  }

  // ----- Getting the lock and giving it back -----

  /** One thread takes these steps while the others rest. */
  function Alone(s: Sys, t: nat, ops: seq<Op>): Option<Sys>
    decreases |ops|
  {
    if ops == [] then Some(s)
    else if !Enabled(s, t, ops[0]) then None
    else Alone(Step(s, t, ops[0]), t, ops[1..])
  }

  lemma AloneNext(s: Sys, t: nat, op: Op, ops: seq<Op>)
    requires Enabled(s, t, op)
    ensures Alone(s, t, [op] + ops) == Alone(Step(s, t, op), t, ops)
  {
    assert ([op] + ops)[1..] == ops;
  }

  lemma Three(s: Sys, t: nat, a: Op, b: Op, c: Op)
    requires Enabled(s, t, a) && Enabled(Step(s, t, a), t, b) && Enabled(Step(Step(s, t, a), t, b), t, c)
    ensures Alone(s, t, [a, b, c]) == Some(Step(Step(Step(s, t, a), t, b), t, c))
  {
    AloneNext(s, t, a, [b, c]);
    AloneNext(Step(s, t, a), t, b, [c]);
    AloneNext(Step(Step(s, t, a), t, b), t, c, []);
    assert [a] + [b, c] == [a, b, c] && [b] + [c] == [b, c] && [c] + [] == [c];
  }

  function With(s: Sys, t: nat, flag: bool, g: Guard): Sys
    requires t < |s.guards|
  {
    s.(flag := flag, guards := s.guards[t := g])
  }

  lemma Rewritten(gs: seq<Guard>, t: nat, a: Guard, b: Guard, c: Guard)
    requires t < |gs|
    ensures gs[t := a][t := b][t := c] == gs[t := c] && gs[t := a][t := b] == gs[t := b]
  {
  }

  /** A new guard on a free lock gets it; on a taken one it spins and changes nothing. */
  lemma NewGuardLocks(s: Sys, t: nat)
    requires t < |s.guards| && s.guards[t].place == NoGuard
    ensures !s.flag ==> Alone(s, t, [Create, TestAndSet, MarkLocked]) == Some(With(s, t, true, Guard(Resting, true, false, None)))
    ensures s.flag ==> Step(Step(s, t, Create), t, TestAndSet) == Step(s, t, Create)
  {
    if !s.flag {
      Three(s, t, Create, TestAndSet, MarkLocked);
      Rewritten(s.guards, t, Guard(Spinning, false, false, None), Guard(Won, false, false, None), Guard(Resting, true, false, None));
    }
  }

  /**
   * A locked guard gives the lock back by `unlock` or with its end; an unlocked one can lock
   * again. `lock` on a locked guard and `unlock` on an unlocked one do nothing.
   */
  lemma GuardUnlocks(s: Sys, t: nat)
    requires t < |s.guards| && s.guards[t].place == Resting && s.guards[t].loaded == None && !s.guards[t].dying
    ensures var g := s.guards[t];
            if g.locked then
              && Step(s, t, Lock) == s
              && Alone(s, t, [Unlock, ClearFlag, MarkUnlocked]) == Some(With(s, t, false, Guard(Resting, false, false, None)))
              && Alone(s, t, [Destroy, ClearFlag, MarkUnlocked]) == Some(With(s, t, false, Guard(NoGuard, false, true, None)))
            else
              && Step(s, t, Unlock) == s
              && Step(s, t, Destroy) == s.(guards := s.guards[t := Guard(NoGuard, false, true, None)])
              && (!s.flag ==> Alone(s, t, [Lock, TestAndSet, MarkLocked]) == Some(With(s, t, true, Guard(Resting, true, false, None))))
  {
    if s.guards[t].locked {
      Three(s, t, Unlock, ClearFlag, MarkUnlocked);
      Rewritten(s.guards, t, Guard(Clearing, true, false, None), Guard(Cleared, true, false, None), Guard(Resting, false, false, None));
      Three(s, t, Destroy, ClearFlag, MarkUnlocked);
      Rewritten(s.guards, t, Guard(Clearing, true, true, None), Guard(Cleared, true, true, None), Guard(NoGuard, false, true, None));
    } else if !s.flag {
      Three(s, t, Lock, TestAndSet, MarkLocked);
      Rewritten(s.guards, t, Guard(Spinning, false, false, None), Guard(Won, false, false, None), Guard(Resting, true, false, None));
    }
  }

  /** Whenever the lock is taken, its owner can free it without anybody else's help. */
  lemma OwnerCanFree(s: Sys) returns (t: nat, ops: seq<Op>, freed: Sys)
    requires Inv(s) && s.flag
    ensures t < |s.guards| && Owns(s.guards[t]) && Alone(s, t, ops) == Some(freed) && !freed.flag
  {
    t :| t < |s.guards| && Owns(s.guards[t]);
    ops, freed := FreeFrom(s, t);
  }

  lemma FreeFrom(s: Sys, t: nat) returns (ops: seq<Op>, freed: Sys)
    requires Inv(s) && t < |s.guards| && Owns(s.guards[t])
    ensures Alone(s, t, ops) == Some(freed) && !freed.flag
    decreases match s.guards[t].place case Won => 3 case Resting => if s.guards[t].loaded.Some? then 2 else 1 case _ => 0
  {
    var g := s.guards[t];
    assert Sound(g, s.counter);
    var op := match g.place case Won => MarkLocked case Clearing => ClearFlag case _ => if g.loaded.Some? then Store else Unlock;
    StepKeeps(s, t, op);
    var rest := [];
    if op == ClearFlag {
      freed := Step(s, t, op);
    } else {
      rest, freed := FreeFrom(Step(s, t, op), t);
    }
    AloneNext(s, t, op, rest);
    ops := [op] + rest;
  }

  // ----- The steps in place -----

  /** The lock's flag, the guards of all threads and the counter they protect, in shared memory. */
  class Memory {
    var flag: bool
    const guards: array<Guard>
    var counter: nat
    ghost var increments: nat

    ghost function View(): Sys
      reads this, guards
    {
      Sys(flag, guards[..], counter, increments)
    }

    constructor (threads: nat)
      ensures View() == Start(threads) && Inv(View()) && fresh(guards)
    {
      flag, counter, increments := false, 0, 0;
      guards := new Guard[threads](_ => Guard(NoGuard, false, false, None));
      new;
      assert guards[..] == Start(threads).guards;
    }

    /** `atomic_flag_test_and_set`. */
    method SetFlag() returns (was: bool)
      modifies `flag
      ensures flag && was == old(flag)
    {
      was := flag;
      flag := true;
    }

    /** One step of thread `t` on its guard, the lock or the counter. */
    method Do(t: nat, op: Op)
      requires Inv(View()) && Enabled(View(), t, op)
      modifies `flag, `counter, `increments, guards
      ensures View() == Step(old(View()), t, op) && Inv(View())
    {
      StepKeeps(View(), t, op);
      var g := guards[t];
      match op {
        case Create => g := Guard(Spinning, false, false, None);
        case TestAndSet =>
          var was := SetFlag();
          if !was { g := g.(place := Won); }
        case MarkLocked => g := g.(place := Resting, locked := true);
        case Lock => if !g.locked { g := g.(place := Spinning); }
        case Unlock => if g.locked { g := g.(place := Clearing); }
        case ClearFlag =>
          flag := false;
          g := g.(place := Cleared);
        case MarkUnlocked => g := g.(locked := false, place := if g.dying then NoGuard else Resting);
        case Destroy => g := g.(dying := true, place := if g.locked then Clearing else NoGuard);
        case Load => g := g.(loaded := Some(counter));
        case Store =>
          counter := g.loaded.value + 1;
          increments := increments + 1;
          g := g.(loaded := None);
      }
      guards[t] := g;
      assert guards[..] == old(guards[..])[t := g];
    }
  }
}
