/** Every step keeps the invariant of the fiber system. */
module FiberInvariant {
  import opened Options
  import opened FiberModel

  // ----- What does not change -----

  predicate Grows(s: Sys, s1: Sys) {
    && s1.variant == s.variant && s.nextRef <= s1.nextRef && s.nextThread <= s1.nextThread && s.lastId <= s1.lastId
    && forall k :: k in s.scripts ==> k in s1.scripts && s1.scripts[k] == s.scripts[k]
  }

  /** Fields of a fiber on which the threads' part of the invariant depends. */
  predicate SameShape(a: Fiber, b: Fiber) {
    a.hasStack == b.hasStack && a.home == b.home && a.state == b.state && a.ctx == b.ctx
  }

  lemma ThreadStays(s: Sys, s1: Sys, t: ThreadId)
    requires t in s.threads && ThreadOk(s, t) && Grows(s, s1)
    requires t in s1.threads && s1.threads[t] == s.threads[t]
    requires var l := s.threads[t]; forall r :: (l.main == Some(r) || l.cur == Some(r)) && r in s.fibers
                                                ==> r in s1.fibers && SameShape(s.fibers[r], s1.fibers[r])
    ensures ThreadOk(s1, t)
  {
  }

  /**
   * Nothing changes for a fiber but its reference count, together with the clients' share of
   * it, and the context saved for a main fiber.
   */
  predicate SameFiber(a: Fiber, b: Fiber) {
    || b == a
    || (&& b == a.(refs := b.refs, handles := b.handles, ctx := b.ctx) && b.refs > 0
        && (a.hasStack ==> b.ctx == a.ctx)
        && b.refs - b.handles == a.refs - a.handles
        && (a.hasStack && a.state == EXEC ==> b.handles > 0))
  }

  predicate SameHome(s: Sys, s1: Sys, r: Ref)
    requires r in s.fibers
  {
    var fb := s.fibers[r];
    if fb.hasStack then
      && (fb.home in s1.threads ==> fb.home in s.threads && s1.threads[fb.home].main == s.threads[fb.home].main)
      && (fb.state == EXEC && fb.home in s.threads ==> fb.home in s1.threads && s1.threads[fb.home] == s.threads[fb.home])
    else IsMainOf(s1, r, fb.home) == IsMainOf(s, r, fb.home)
  }

  lemma FiberStays(s: Sys, s1: Sys, r: Ref)
    requires r in s.fibers && FiberOk(s, r) && Grows(s, s1)
    requires r in s1.fibers && SameFiber(s.fibers[r], s1.fibers[r]) && SameHome(s, s1, r)
    ensures FiberOk(s1, r)
    ensures s.fibers[r].hasStack ==> PhaseOf(s1, r) == PhaseOf(s, r) && ScriptOf(s1, r) == ScriptOf(s, r)
  {
  }

  /** Apart from thread `t` and fiber `f`, everything is as before. */
  predicate OnlyTouches(s: Sys, s1: Sys, t: ThreadId, f: Ref) {
    && Grows(s, s1)
    && s1.threads.Keys == s.threads.Keys && t in s.threads && s1.threads[t].main == s.threads[t].main
    && (forall u :: u in s.threads && u != t ==> s1.threads[u] == s.threads[u])
    && s1.fibers.Keys == s.fibers.Keys && f in s.fibers && s1.fibers[f].hasStack == s.fibers[f].hasStack
    && s1.fibers[f].id == s.fibers[f].id
    && (forall r :: r in s.fibers && r != f ==>
          SameFiber(s.fibers[r], s1.fibers[r]) && (s.fibers[r].home != t ==> SameShape(s.fibers[r], s1.fibers[r])))
  }

  /** The current fiber of the thread can only be `f` or the main fiber, or the thread does not change. */
  predicate Alone(s: Sys, s1: Sys, t: ThreadId, f: Ref)
    requires t in s.threads && t in s1.threads
  {
    s1.threads[t] == s.threads[t] || s.threads[t].cur == Some(f) || s.threads[t].cur == s.threads[t].main
  }

  lemma OthersStay(s: Sys, s1: Sys, t: ThreadId, f: Ref, r: Ref)
    requires Fibers(s) && OnlyTouches(s, s1, t, f) && Alone(s, s1, t, f)
    requires r in s.fibers && r != f
    ensures FiberOk(s1, r)
    ensures s.fibers[r].hasStack ==> PhaseOf(s1, r) == PhaseOf(s, r) && ScriptOf(s1, r) == ScriptOf(s, r)
  {
    assert FiberOk(s, r);
    assert SameHome(s, s1, r);
    FiberStays(s, s1, r);
  }

  /** A step of one thread on one of its children keeps what is said of all threads and fibers. */
  lemma LocalStep(s: Sys, s1: Sys, t: ThreadId, f: Ref)
    requires Threads(s) && Fibers(s) && OnlyTouches(s, s1, t, f) && Alone(s, s1, t, f)
    requires s.fibers[f].hasStack && s.fibers[f].home == t
    requires ThreadOk(s1, t) && FiberOk(s1, f)
    ensures Threads(s1) && Fibers(s1)
  {
    forall u | u in s1.threads ensures ThreadOk(s1, u) {
      if u != t {
        assert ThreadOk(s, u);
        ThreadStays(s, s1, u);
      }
    }
    forall r | r in s1.fibers ensures FiberOk(s1, r) {
      if r != f { OthersStay(s, s1, t, f, r); }
    }
  }

  // ----- Counters and histories -----

  lemma LocalCounters(s: Sys, s1: Sys, t: ThreadId, f: Ref)
    requires Counters(s) && OnlyTouches(s, s1, t, f) && s1.count == s.count && s1.lastId == s.lastId
    ensures Counters(s1)
  {
    Cardinality(s.fibers, s1.fibers, 0);
  }

  lemma HistoryPush(trace: seq<Mark>, m: Mark, f: Ref, e: nat)
    ensures History(trace + [m], f, e) == History(trace, f, e) + if m.f == f && m.epoch == e then [m.event] else []
  {
    assert (trace + [m])[..|trace|] == trace;
  }

  lemma ReplayPush(h: seq<Event>, e: Event, sc: Script)
    ensures Replay(h + [e], sc) == match Replay(h, sc) case None => None case Some(p) => Next(p, e, sc)
  {
    assert (h + [e])[..|h|] == h;
  }

  /** A fiber in the same phase whose own history did not grow lives on. */
  lemma LifeStays(s: Sys, s1: Sys, r: Ref)
    requires r in s.fibers && ChildOk(s, r) && LifeOk(s, r)
    requires r in s1.fibers && ChildOk(s1, r) && s1.fibers[r].epoch == s.fibers[r].epoch
    requires PhaseOf(s1, r) == PhaseOf(s, r) && ScriptOf(s1, r) == ScriptOf(s, r)
    requires History(s1.trace, r, s.fibers[r].epoch) == History(s.trace, r, s.fibers[r].epoch)
    ensures LifeOk(s1, r)
  {
  }

  lemma EpochStays(s: Sys, s1: Sys, k: (Ref, nat))
    requires k in s.scripts && EpochOk(s, k) && Grows(s, s1) && s1.trace == s.trace
    requires k.0 in s1.fibers ==> k.0 in s.fibers && s.fibers[k.0].epoch <= s1.fibers[k.0].epoch
    ensures EpochOk(s1, k)
  {
  }

  /** Recording an event of `f` that its script allows keeps every history. */
  lemma LocalHistories(s: Sys, s1: Sys, t: ThreadId, f: Ref, e: Event)
    requires Fibers(s) && Histories(s) && Lives(s) && OnlyTouches(s, s1, t, f) && Alone(s, s1, t, f)
    requires s.fibers[f].hasStack && s1.fibers[f].epoch == s.fibers[f].epoch && s1.scripts == s.scripts
    requires s1.trace == s.trace + [Mark(f, s.fibers[f].epoch, e)]
    requires Fibers(s1) && s1.nextRef == s.nextRef
    requires FiberOk(s, f) && FiberOk(s1, f) && Next(PhaseOf(s, f), e, ScriptOf(s, f)) == Some(PhaseOf(s1, f))
    ensures Histories(s1) && Lives(s1)
  {
    var m := Mark(f, s.fibers[f].epoch, e);
    assert LifeOk(s, f);
    forall k | k in s1.scripts ensures EpochOk(s1, k) {
      assert EpochOk(s, k);
      HistoryPush(s.trace, m, k.0, k.1);
      ReplayPush(History(s.trace, k.0, k.1), e, s.scripts[k]);
    }
    forall r | r in s1.fibers && s1.fibers[r].hasStack ensures LifeOk(s1, r) {
      HistoryPush(s.trace, m, r, s1.fibers[r].epoch);
      if r == f {
        ReplayPush(History(s.trace, f, s.fibers[f].epoch), e, ScriptOf(s, f));
      } else {
        OthersStay(s, s1, t, f, r);
        assert FiberOk(s, r) && LifeOk(s, r);
        LifeStays(s, s1, r);
      }
    }
  }

  /** A step that records nothing keeps the histories if the fiber stays in its phase. */
  lemma QuietHistories(s: Sys, s1: Sys, t: ThreadId, f: Ref)
    requires Fibers(s) && Histories(s) && Lives(s) && OnlyTouches(s, s1, t, f) && Alone(s, s1, t, f)
    requires s1.fibers[f].epoch == s.fibers[f].epoch && s1.scripts == s.scripts && s1.trace == s.trace
    requires Fibers(s1) && s1.nextRef == s.nextRef
    requires FiberOk(s, f) && FiberOk(s1, f) && (s.fibers[f].hasStack ==> PhaseOf(s, f) == PhaseOf(s1, f))
    ensures Histories(s1) && Lives(s1)
  {
    forall k | k in s1.scripts ensures EpochOk(s1, k) {
      assert EpochOk(s, k);
      EpochStays(s, s1, k);
    }
    forall r | r in s1.fibers && s1.fibers[r].hasStack ensures LifeOk(s1, r) {
      if r != f { OthersStay(s, s1, t, f, r); }
      assert FiberOk(s, r) && LifeOk(s, r);
      LifeStays(s, s1, r);
    }
  }

  /** What has to be shown of a step in which one event of `f` is recorded. */
  predicate Recorded(s: Sys, s1: Sys, t: ThreadId, f: Ref, e: Event) {
    && OnlyTouches(s, s1, t, f) && Alone(s, s1, t, f)
    && s.fibers[f].hasStack && s.fibers[f].home == t
    && s1.count == s.count && s1.lastId == s.lastId && s1.nextRef == s.nextRef && s1.scripts == s.scripts
    && s1.fibers[f].epoch == s.fibers[f].epoch
    && s1.trace == s.trace + [Mark(f, s.fibers[f].epoch, e)]
    && FiberOk(s, f) && ThreadOk(s1, t) && FiberOk(s1, f)
    && Next(PhaseOf(s, f), e, ScriptOf(s, f)) == Some(PhaseOf(s1, f))
  }

  lemma RecordedKeeps(s: Sys, s1: Sys, t: ThreadId, f: Ref, e: Event)
    requires Inv(s) && Recorded(s, s1, t, f, e)
    ensures Inv(s1)
  {
    LocalStep(s, s1, t, f);
    LocalCounters(s, s1, t, f);
    LocalHistories(s, s1, t, f, e);
  }

  // ----- Steps of the current child, and resuming one -----

  /** What is known of the child `f` whose stack thread `t` executes. */
  predicate OnChild(s: Sys, t: ThreadId, f: Ref) {
    && t in s.threads && ThreadOk(s, t) && !s.threads[t].cpu.ThreadCode? && !s.threads[t].cpu.Dead?
    && s.threads[t].cpu.f == f && f in s.fibers && FiberOk(s, f) && s.fibers[f].hasStack
    && s.fibers[f].state == EXEC && s.fibers[f].home == t
    && s.threads[t].main.Some? && s.threads[t].main.value in s.fibers && s.threads[t].main != Some(f)
    && s.fibers[f].refs == s.fibers[f].handles + (if s.threads[t].cpu.Entry? then 0 else if s.threads[t].cpu.Running? then 1 else 2)
  }

  lemma FindChild(s: Sys, t: ThreadId)
    requires Threads(s) && Fibers(s) && t in s.threads && !s.threads[t].cpu.ThreadCode?
    ensures !s.threads[t].cpu.Dead? && OnChild(s, t, s.threads[t].cpu.f)
  {
    CurrentChild(s, t);
    assert ThreadOk(s, t) && FiberOk(s, s.threads[t].cpu.f);
  }

  lemma EnterRecorded(s: Sys, t: ThreadId, f: Ref)
    requires OnChild(s, t, f) && s.threads[t].cpu.Entry?
    ensures Recorded(s, DoEnter(s, t), t, f, Started)
  {
  }

  lemma ActRecorded(s: Sys, t: ThreadId, f: Ref)
    requires OnChild(s, t, f) && Enabled(s, Act(t))
    ensures Recorded(s, DoAct(s, t), t, f, Did(ScriptOf(s, f).actions[s.threads[t].cpu.pc]))
  {
  }

  lemma YieldRecorded(s: Sys, t: ThreadId, f: Ref)
    requires OnChild(s, t, f) && Enabled(s, Yield(t))
    ensures Recorded(s, DoYield(s, t), t, f, Did(ScriptOf(s, f).actions[s.threads[t].cpu.pc]))
  {
  }

  lemma FinishByLink(s: Sys, t: ThreadId, f: Ref)
    requires OnChild(s, t, f) && Enabled(s, Finish(t)) && s.variant == UcLink
    ensures Recorded(s, DoFinish(s, t), t, f, Finished)
  {
  }

  lemma FinishBySwap(s: Sys, t: ThreadId, f: Ref)
    requires OnChild(s, t, f) && Enabled(s, Finish(t)) && s.variant == SwapOut
    ensures Recorded(s, DoFinish(s, t), t, f, Finished)
  {
  }

  lemma SwapInRecorded(s: Sys, t: ThreadId, f: Ref)
    requires Enabled(s, SwapIn(t, f)) && ThreadOk(s, t) && FiberOk(s, f)
    requires s.threads[t].main.Some? && s.threads[t].cur == s.threads[t].main
    requires s.threads[t].main.value in s.fibers && FiberOk(s, s.threads[t].main.value)
    requires f != s.threads[t].main.value
    ensures Recorded(s, DoSwapIn(s, t, f), t, f, SwappedIn)
  {
  }

  lemma ResumeQuiet(s: Sys, t: ThreadId, f: Ref)
    requires OnChild(s, t, f) && s.threads[t].cpu.InYield?
    ensures var s1 := DoResume(s, t);
            && OnlyTouches(s, s1, t, f) && Alone(s, s1, t, f) && ThreadOk(s1, t) && FiberOk(s1, f)
            && PhaseOf(s1, f) == PhaseOf(s, f)
  {
  }

  // ----- Reference counts -----

  /** Only reference counts change. */
  predicate OnlyCounts(s: Sys, s1: Sys) {
    && s1 == s.(fibers := s1.fibers)
    && s1.fibers.Keys == s.fibers.Keys
    && forall r :: r in s.fibers ==> SameFiber(s.fibers[r], s1.fibers[r]) && SameShape(s.fibers[r], s1.fibers[r])
  }

  lemma CountsStay(s: Sys, s1: Sys, r: Ref)
    requires Fibers(s) && OnlyCounts(s, s1) && r in s.fibers
    ensures FiberOk(s1, r)
    ensures s.fibers[r].hasStack ==> PhaseOf(s1, r) == PhaseOf(s, r) && ScriptOf(s1, r) == ScriptOf(s, r)
  {
    assert FiberOk(s, r);
    FiberStays(s, s1, r);
  }

  lemma CountsKeep(s: Sys, s1: Sys)
    requires Inv(s) && OnlyCounts(s, s1)
    ensures Inv(s1)
  {
    forall t | t in s1.threads ensures ThreadOk(s1, t) {
      assert ThreadOk(s, t);
      ThreadStays(s, s1, t);
    }
    forall r | r in s1.fibers ensures FiberOk(s1, r) { CountsStay(s, s1, r); }
    Cardinality(s.fibers, s1.fibers, 0);
    CountsHistories(s, s1);
  }

  lemma CountsHistories(s: Sys, s1: Sys)
    requires Fibers(s) && Histories(s) && Lives(s) && OnlyCounts(s, s1) && Fibers(s1)
    ensures Histories(s1) && Lives(s1)
  {
    forall k | k in s1.scripts ensures EpochOk(s1, k) {
      assert EpochOk(s, k);
      EpochStays(s, s1, k);
    }
    forall r | r in s1.fibers && s1.fibers[r].hasStack ensures LifeOk(s1, r) {
      CountsStay(s, s1, r);
      assert FiberOk(s, r) && LifeOk(s, r);
      LifeStays(s, s1, r);
    }
  }

  // ----- Reset -----

  lemma {:induction false} NoHistory(trace: seq<Mark>, f: Ref, e: nat)
    requires forall i :: 0 <= i < |trace| ==> !(trace[i].f == f && trace[i].epoch == e)
    ensures History(trace, f, e) == []
  {
    if trace != [] { NoHistory(trace[..|trace| - 1], f, e); }
  }

  /** A script registered for a new epoch has an empty history. */
  lemma NewEpoch(s: Sys, k: (Ref, nat))
    requires Histories(s) && k !in s.scripts
    ensures History(s.trace, k.0, k.1) == []
  {
    forall i | 0 <= i < |s.trace| ensures !(s.trace[i].f == k.0 && s.trace[i].epoch == k.1) {
      assert (s.trace[i].f, s.trace[i].epoch) in s.scripts;
    }
    NoHistory(s.trace, k.0, k.1);
  }

  /** What has to be shown of a step that starts a new epoch of `f`. */
  predicate Renewed(s: Sys, s1: Sys, t: ThreadId, f: Ref) {
    && OnlyTouches(s, s1, t, f) && Alone(s, s1, t, f)
    && s.fibers[f].hasStack && s1.fibers[f].hasStack && s.fibers[f].home == t
    && s1.count == s.count && s1.lastId == s.lastId && s1.nextRef == s.nextRef && s1.trace == s.trace
    && var k := (f, s.fibers[f].epoch + 1);
    && s1.fibers[f].epoch == k.1 && k !in s.scripts && k in s1.scripts && s1.scripts == s.scripts[k := s1.scripts[k]]
    && FiberOk(s, f) && ThreadOk(s1, t) && FiberOk(s1, f) && PhaseOf(s1, f) == Fresh
  }

  lemma ResetRenewed(s: Sys, t: ThreadId, f: Ref, script: Script)
    requires Enabled(s, Reset(t, f, script)) && ThreadOk(s, t) && FiberOk(s, f)
    requires (f, s.fibers[f].epoch + 1) !in s.scripts
    ensures Renewed(s, DoReset(s, t, f, script), t, f)
  {
  }

  lemma NextEpoch(s: Sys, f: Ref)
    requires Histories(s) && f in s.fibers
    ensures (f, s.fibers[f].epoch + 1) !in s.scripts
  {
    assert forall k :: k in s.scripts ==> EpochOk(s, k);
  }

  lemma RenewedKeeps(s: Sys, s1: Sys, t: ThreadId, f: Ref)
    requires Inv(s) && Renewed(s, s1, t, f)
    ensures Inv(s1)
  {
    LocalStep(s, s1, t, f);
    LocalCounters(s, s1, t, f);
    ResetHistories(s, s1, t, f, (f, s.fibers[f].epoch + 1));
  }

  lemma ResetHistories(s: Sys, s1: Sys, t: ThreadId, f: Ref, k: (Ref, nat))
    requires Fibers(s) && Histories(s) && Lives(s) && OnlyTouches(s, s1, t, f) && Alone(s, s1, t, f)
    requires Fibers(s1) && s1.nextRef == s.nextRef && s1.trace == s.trace
    requires FiberOk(s, f) && k == (f, s1.fibers[f].epoch) && k.1 == s.fibers[f].epoch + 1 && k !in s.scripts
    requires k in s1.scripts && s1.scripts == s.scripts[k := s1.scripts[k]]
    requires s1.fibers[f].hasStack && FiberOk(s1, f) && PhaseOf(s1, f) == Fresh
    ensures Histories(s1) && Lives(s1)
  {
    NewEpoch(s, k);
    forall j | j in s1.scripts ensures EpochOk(s1, j) {
      if j != k {
        assert EpochOk(s, j);
        EpochStays(s, s1, j);
      }
    }
    forall r | r in s1.fibers && s1.fibers[r].hasStack ensures LifeOk(s1, r) {
      if r != f {
        OthersStay(s, s1, t, f, r);
        assert FiberOk(s, r) && LifeOk(s, r);
        LifeStays(s, s1, r);
      }
    }
  }

  // ----- New and destroyed fibers -----

  /** The fibers of `s` are among those of `s1` and unchanged, and every thread still sees its own. */
  predicate Extends(s: Sys, s1: Sys) {
    && Grows(s, s1) && s1.trace == s.trace
    && (forall r :: r in s.fibers ==> r in s1.fibers && s1.fibers[r] == s.fibers[r] && SameHome(s, s1, r))
  }

  lemma ExtendsStay(s: Sys, s1: Sys, r: Ref)
    requires Fibers(s) && Extends(s, s1) && r in s.fibers
    ensures FiberOk(s1, r)
    ensures s.fibers[r].hasStack ==> PhaseOf(s1, r) == PhaseOf(s, r) && ScriptOf(s1, r) == ScriptOf(s, r)
  {
    assert FiberOk(s, r);
    FiberStays(s, s1, r);
  }

  lemma ExtendsLives(s: Sys, s1: Sys, r: Ref)
    requires Fibers(s) && Lives(s) && Extends(s, s1) && r in s.fibers && s.fibers[r].hasStack && Fibers(s1)
    ensures LifeOk(s1, r)
  {
    ExtendsStay(s, s1, r);
    assert FiberOk(s, r) && LifeOk(s, r);
    LifeStays(s, s1, r);
  }

  /** With one more fiber, or none, the histories of the others are kept. */
  lemma ExtendsHistories(s: Sys, s1: Sys)
    requires Fibers(s) && Histories(s) && Lives(s) && Fibers(s1) && Extends(s, s1)
    requires s1.fibers.Keys <= s.fibers.Keys + {s.nextRef}
    requires s1.scripts == s.scripts || (s1.scripts.Keys == s.scripts.Keys + {(s.nextRef, 0)} && s.nextRef < s1.nextRef)
    requires var m := s.nextRef; m in s1.fibers && m !in s.fibers ==>
               && s1.fibers[m].epoch == 0
               && (s1.fibers[m].hasStack ==> (m, 0) !in s.scripts && PhaseOf(s1, m) == Fresh)
    ensures Histories(s1) && Lives(s1)
  {
    forall k | k in s1.scripts ensures EpochOk(s1, k) {
      if k in s.scripts {
        assert EpochOk(s, k);
        EpochStays(s, s1, k);
      } else {
        NewEpoch(s, k);
      }
    }
    forall r | r in s1.fibers && s1.fibers[r].hasStack ensures LifeOk(s1, r) {
      if r in s.fibers {
        ExtendsLives(s, s1, r);
      } else {
        NewEpoch(s, (r, 0));
      }
    }
  }

  lemma ThreadsExtend(s: Sys, s1: Sys, t: ThreadId)
    requires Threads(s) && Extends(s, s1)
    requires forall u :: u in s1.threads && u != t ==> u in s.threads && s1.threads[u] == s.threads[u]
    requires t in s1.threads ==> ThreadOk(s1, t)
    ensures Threads(s1)
  {
    forall u | u in s1.threads ensures ThreadOk(s1, u) {
      if u != t {
        assert ThreadOk(s, u);
        ThreadStays(s, s1, u);
      }
    }
  }

  lemma FibersExtend(s: Sys, s1: Sys)
    requires Fibers(s) && Extends(s, s1)
    requires forall r :: r in s1.fibers && r !in s.fibers ==> FiberOk(s1, r)
    ensures Fibers(s1)
  {
    forall r | r in s1.fibers ensures FiberOk(s1, r) {
      if r in s.fibers { ExtendsStay(s, s1, r); }
    }
  }

  lemma MakeMainExtends(s: Sys, t: ThreadId)
    requires Fibers(s) && t in s.threads && s.threads[t].main.None?
    ensures Extends(s, MakeMain(s, t)) && s.nextRef !in s.fibers
  {
    var s1 := MakeMain(s, t);
    assert forall r :: r in s.fibers ==> FiberOk(s, r);
    forall r | r in s.fibers ensures r in s1.fibers && s1.fibers[r] == s.fibers[r] && SameHome(s, s1, r) {
      assert FiberOk(s, r);
    }
  }

  lemma MakeMainLocal(s: Sys, t: ThreadId)
    requires t in s.threads && ThreadOk(s, t) && s.threads[t].main.None?
    ensures ThreadOk(MakeMain(s, t), t) && FiberOk(MakeMain(s, t), s.nextRef)
  {
  }

  lemma MakeMainParts(s: Sys, t: ThreadId)
    requires Threads(s) && Fibers(s) && t in s.threads && s.threads[t].main.None?
    ensures var s1 := MakeMain(s, t); Threads(s1) && Fibers(s1) && Extends(s, s1) && s.nextRef !in s.fibers
  {
    MakeMainExtends(s, t);
    assert ThreadOk(s, t);
    MakeMainLocal(s, t);
    ThreadsExtend(s, MakeMain(s, t), t);
    FibersExtend(s, MakeMain(s, t));
  }

  lemma MakeMainKeeps(s: Sys, t: ThreadId)
    requires Inv(s) && t in s.threads && s.threads[t].main.None?
    ensures Inv(MakeMain(s, t))
  {
    MakeMainParts(s, t);
    MakeMainCounters(s, t);
    MakeMainHistories(s, t);
  }

  lemma MakeMainCounters(s: Sys, t: ThreadId)
    requires Counters(s) && Fibers(s) && t in s.threads && s.nextRef !in s.fibers
    ensures Counters(MakeMain(s, t))
  {
    NewFiberCounters(s, MakeMain(s, t), s.nextRef);
  }

  lemma MakeMainHistories(s: Sys, t: ThreadId)
    requires Fibers(s) && Histories(s) && Lives(s) && t in s.threads
    requires Fibers(MakeMain(s, t)) && Extends(s, MakeMain(s, t))
    ensures Histories(MakeMain(s, t)) && Lives(MakeMain(s, t))
  {
    ExtendsHistories(s, MakeMain(s, t));
  }

  lemma NewFiberCounters(s: Sys, s1: Sys, m: Ref)
    requires Counters(s) && Fibers(s) && m !in s.fibers && s1.fibers.Keys == s.fibers.Keys + {m}
    requires forall r :: r in s.fibers ==> s1.fibers[r] == s.fibers[r]
    requires s1.count == s.count + 1 && s.lastId <= s1.lastId < ID_LIMIT
    requires s1.fibers[m].hasStack ==> s1.fibers[m].id == s.lastId + 1
    ensures Counters(s1)
  {
    Cardinality(s.fibers, s1.fibers, m);
    forall r | r in s.fibers && s.fibers[r].hasStack ensures s.fibers[r].id <= s.lastId { assert FiberOk(s, r); }
  }

  lemma AddChildExtends(s: Sys, t: ThreadId, script: Script)
    requires t in s.threads && Fibers(s) && Histories(s)
    ensures Extends(s, AddChild(s, t, script)) && s.nextRef !in s.fibers && (s.nextRef, 0) !in s.scripts
  {
    var s1 := AddChild(s, t, script);
    assert forall r :: r in s.fibers ==> FiberOk(s, r);
    assert forall k :: k in s.scripts ==> EpochOk(s, k);
    forall r | r in s.fibers ensures r in s1.fibers && s1.fibers[r] == s.fibers[r] && SameHome(s, s1, r) {
      assert FiberOk(s, r);
    }
  }

  lemma AddChildLocal(s: Sys, t: ThreadId, script: Script)
    requires t in s.threads && t < s.nextThread && s.threads[t].main.Some?
    ensures var s1 := AddChild(s, t, script); FiberOk(s1, s.nextRef) && PhaseOf(s1, s.nextRef) == Fresh
  {
  }

  lemma AddChildKeeps(s: Sys, t: ThreadId, script: Script)
    requires Inv(s) && t in s.threads && s.threads[t].main.Some? && s.lastId + 1 < ID_LIMIT
    ensures Inv(AddChild(s, t, script))
  {
    var s1 := AddChild(s, t, script);
    AddChildExtends(s, t, script);
    assert ThreadOk(s, t);
    AddChildLocal(s, t, script);
    assert Threads(s1) by {
      ThreadStays(s, s1, t);
      ThreadsExtend(s, s1, t);
    }
    assert Fibers(s1) by { FibersExtend(s, s1); }
    assert Counters(s1) by { NewFiberCounters(s, s1, s.nextRef); }
    ExtendsHistories(s, s1);
  }

  lemma SpawnKeeps(s: Sys)
    requires Inv(s)
    ensures Inv(Step(s, Spawn))
  {
    var s1 := Step(s, Spawn);
    assert forall t :: t in s.threads ==> ThreadOk(s, t);
    SpawnExtends(s, s1);
    ThreadsExtend(s, s1, s.nextThread);
    FibersExtend(s, s1);
    ExtendsHistories(s, s1);
  }

  lemma SpawnExtends(s: Sys, s1: Sys)
    requires Fibers(s)
    requires s1 == s.(threads := s.threads[s.nextThread := Locals(None, None, ThreadCode(0), 0)], nextThread := s.nextThread + 1)
    ensures Extends(s, s1)
  {
    forall r | r in s.fibers ensures r in s1.fibers && s1.fibers[r] == s.fibers[r] && SameHome(s, s1, r) {
      assert FiberOk(s, r);
    }
  }

  /** Fibers and threads go away; the fiber `m` may also change, all others stay. */
  predicate Shrinks(s: Sys, s1: Sys, m: Ref) {
    && s1 == s.(fibers := s1.fibers, threads := s1.threads, count := s1.count)
    && s1.fibers.Keys <= s.fibers.Keys && s.fibers.Keys <= s1.fibers.Keys + {m}
    && s1.threads.Keys <= s.threads.Keys
    && (forall t :: t in s1.threads ==> s1.threads[t] == s.threads[t] && s.threads[t].main != Some(m) && s.threads[t].cur != Some(m))
    && (forall r :: r in s1.fibers && r != m ==> s1.fibers[r] == s.fibers[r] && SameHome(s, s1, r))
    && (m in s1.fibers ==> !s.fibers[m].hasStack && !s1.fibers[m].hasStack && FiberOk(s1, m) && s1.fibers[m].epoch == s.fibers[m].epoch)
  }

  lemma ShrinkParts(s: Sys, s1: Sys, m: Ref)
    requires Threads(s) && Fibers(s) && Shrinks(s, s1, m)
    ensures Threads(s1) && Fibers(s1)
  {
    forall t | t in s1.threads ensures ThreadOk(s1, t) {
      assert ThreadOk(s, t);
      ThreadStays(s, s1, t);
    }
    forall r | r in s1.fibers ensures FiberOk(s1, r) {
      if r != m {
        assert FiberOk(s, r);
        FiberStays(s, s1, r);
      }
    }
  }

  lemma ShrinkHistories(s: Sys, s1: Sys, m: Ref)
    requires Fibers(s) && Histories(s) && Lives(s) && Shrinks(s, s1, m) && Fibers(s1)
    ensures Histories(s1) && Lives(s1)
  {
    forall k | k in s1.scripts ensures EpochOk(s1, k) {
      assert EpochOk(s, k);
      EpochStays(s, s1, k);
    }
    forall r | r in s1.fibers && s1.fibers[r].hasStack ensures LifeOk(s1, r) {
      assert FiberOk(s, r) && LifeOk(s, r);
      FiberStays(s, s1, r);
      LifeStays(s, s1, r);
    }
  }

  lemma ShrinkKeeps(s: Sys, s1: Sys, m: Ref)
    requires Inv(s) && Shrinks(s, s1, m)
    requires s1.count == if m in s.fibers && m !in s1.fibers then s.count - 1 else s.count
    ensures Inv(s1)
  {
    ShrinkParts(s, s1, m);
    ShrinkCounters(s, s1, m);
    ShrinkHistories(s, s1, m);
  }

  lemma ShrinkCounters(s: Sys, s1: Sys, m: Ref)
    requires Counters(s) && Shrinks(s, s1, m)
    requires s1.count == if m in s.fibers && m !in s1.fibers then s.count - 1 else s.count
    ensures Counters(s1)
  {
    Cardinality(s.fibers, s1.fibers, m);
    if m in s.fibers && m !in s1.fibers {
      assert s1.fibers.Keys == s.fibers.Keys - {m};
    } else {
      assert s1.fibers.Keys == s.fibers.Keys;
    }
  }

  lemma Cardinality(a: map<Ref, Fiber>, b: map<Ref, Fiber>, m: Ref)
    ensures a.Keys == b.Keys ==> |a| == |b|
    ensures m in a && b.Keys == a.Keys - {m} ==> |b| == |a| - 1
    ensures m !in a && b.Keys == a.Keys + {m} ==> |b| == |a| + 1
  {
    assert |a| == |a.Keys| && |b| == |b.Keys|;
  }

  // ----- Dropping references and ending threads -----

  lemma HandleCounts(s: Sys, s1: Sys, f: Ref)
    requires f in s.fibers && f in s1.fibers && s1 == SetFiber(s, f, s1.fibers[f])
    requires SameFiber(s.fibers[f], s1.fibers[f]) && SameShape(s.fibers[f], s1.fibers[f])
    ensures OnlyCounts(s, s1)
  {
  }

  /** When the last reference goes away, the fiber is not the main or current fiber of any thread. */
  lemma LastReference(s: Sys, t: ThreadId, f: Ref)
    requires Threads(s) && Fibers(s) && Enabled(s, Drop(t, f)) && s.fibers[f].refs == 1
    ensures forall u :: u in s.threads ==> s.threads[u].main != Some(f) && s.threads[u].cur != Some(f)
  {
    assert FiberOk(s, f);
    forall u | u in s.threads ensures s.threads[u].main != Some(f) && s.threads[u].cur != Some(f) {
      assert ThreadOk(s, u);
    }
  }

  lemma DropShared(s: Sys, t: ThreadId, f: Ref)
    requires Enabled(s, Drop(t, f)) && FiberOk(s, f) && s.fibers[f].refs > 1 && s.count > 0
    ensures OnlyCounts(s, DoDrop(s, t, f))
  {
    var s1 := DoDrop(s, t, f);
    var fb := s.fibers[f];
    assert s1.fibers == s.fibers[f := fb.(refs := fb.refs - 1, handles := fb.handles - 1)];
    HandleCounts(s, s1, f);
  }

  lemma DropLast(s: Sys, t: ThreadId, f: Ref)
    requires Threads(s) && Fibers(s) && Enabled(s, Drop(t, f)) && s.fibers[f].refs == 1 && s.count > 0
    ensures Shrinks(s, DoDrop(s, t, f), f) && f !in DoDrop(s, t, f).fibers && DoDrop(s, t, f).count == s.count - 1
  {
    LastReference(s, t, f);
    var s1 := DoDrop(s, t, f);
    assert s1.fibers == s.fibers - {f};
    forall r | r in s1.fibers ensures SameHome(s, s1, r) { assert FiberOk(s, r); }
  }

  lemma DropKeeps(s: Sys, t: ThreadId, f: Ref)
    requires Inv(s) && Enabled(s, Drop(t, f)) && s.fibers[f].refs > 0 && s.count > 0
    ensures Inv(DoDrop(s, t, f))
  {
    if s.fibers[f].refs > 1 {
      assert FiberOk(s, f);
      DropShared(s, t, f);
      CountsKeep(s, DoDrop(s, t, f));
    } else {
      DropLast(s, t, f);
      ShrinkKeeps(s, DoDrop(s, t, f), f);
    }
  }

  lemma ExitShrinks(s: Sys, t: ThreadId)
    requires Threads(s) && Fibers(s) && InMain(s, t) && s.threads[t].main.Some?
    requires s.threads[t].main.value in s.fibers && s.fibers[s.threads[t].main.value].refs > 0 && s.count > 0
    ensures Shrinks(s, DoExit(s, t), s.threads[t].main.value)
  {
    CurrentMain(s, t);
    var m, s1 := s.threads[t].main.value, DoExit(s, t);
    assert FiberOk(s, m);
    forall u | u in s1.threads ensures s1.threads[u] == s.threads[u] && s.threads[u].main != Some(m) && s.threads[u].cur != Some(m) {
      assert ThreadOk(s, u);
    }
    forall r | r in s1.fibers && r != m ensures s1.fibers[r] == s.fibers[r] && SameHome(s, s1, r) {
      assert FiberOk(s, r);
    }
  }

  lemma ExitKeeps(s: Sys, t: ThreadId)
    requires Inv(s) && InMain(s, t) && (s.threads[t].main.Some? ==> s.count > 0)
    requires s.threads[t].main.Some? ==> s.threads[t].main.value in s.fibers && s.fibers[s.threads[t].main.value].refs > 0
    ensures Inv(DoExit(s, t))
  {
    var s1 := DoExit(s, t);
    if s.threads[t].main.Some? {
      ExitShrinks(s, t);
      ShrinkKeeps(s, s1, s.threads[t].main.value);
    } else {
      forall u | u in s1.threads ensures s.threads[u].main != Some(s.nextRef) && s.threads[u].cur != Some(s.nextRef) {
        assert ThreadOk(s, u);
        assert forall r :: r in s.fibers ==> FiberOk(s, r);
      }
      forall r | r in s1.fibers ensures SameHome(s, s1, r) && r != s.nextRef { assert FiberOk(s, r); }
      ShrinkKeeps(s, s1, s.nextRef);
    }
  }

  // ----- All steps -----

  lemma GetThisKeeps(s: Sys, t: ThreadId)
    requires Inv(s) && t in s.threads && (s.threads[t].cur.Some? ==> s.threads[t].cur.value in s.fibers)
    ensures Inv(DoGetThis(s, t))
  {
    assert ThreadOk(s, t);
    var s1 := if s.threads[t].cur.Some? then s else MakeMain(s, t);
    if s.threads[t].cur.None? { MakeMainKeeps(s, t); }
    var f := s1.threads[t].cur.value;
    AddHandleKeeps(s1, f);
  }

  lemma AddHandleKeeps(s: Sys, f: Ref)
    requires Inv(s) && f in s.fibers
    ensures Inv(AddHandle(s, f))
  {
    HandleCounts(s, AddHandle(s, f), f);
    CountsKeep(s, AddHandle(s, f));
  }

  lemma ChildStepKeeps(s: Sys, op: Op)
    requires Inv(s) && Enabled(s, op) && (op.Enter? || op.Act? || op.Yield? || op.Finish? || op.Resume?)
    ensures Inv(Step(s, op))
  {
    StepIsDefined(s, op);
    FindChild(s, op.t);
    var f := s.threads[op.t].cpu.f;
    var s1 := Step(s, op);
    match op
    case Enter(t) =>
      EnterRecorded(s, t, f);
      RecordedKeeps(s, s1, t, f, Started);
    case Act(t) =>
      ActRecorded(s, t, f);
      RecordedKeeps(s, s1, t, f, Did(ScriptOf(s, f).actions[s.threads[t].cpu.pc]));
    case Yield(t) =>
      YieldRecorded(s, t, f);
      RecordedKeeps(s, s1, t, f, Did(ScriptOf(s, f).actions[s.threads[t].cpu.pc]));
    case Finish(t) =>
      if s.variant == UcLink { FinishByLink(s, t, f); } else { FinishBySwap(s, t, f); }
      RecordedKeeps(s, s1, t, f, Finished);
    case Resume(t) =>
      ResumeQuiet(s, t, f);
      QuietKeeps(s, s1, t, f);
  }

  lemma QuietKeeps(s: Sys, s1: Sys, t: ThreadId, f: Ref)
    requires Inv(s) && OnlyTouches(s, s1, t, f) && Alone(s, s1, t, f)
    requires s.fibers[f].hasStack && s.fibers[f].home == t
    requires s1.fibers[f].epoch == s.fibers[f].epoch && s1.scripts == s.scripts && s1.trace == s.trace
    requires s1.count == s.count && s1.lastId == s.lastId && s1.nextRef == s.nextRef
    requires FiberOk(s, f) && ThreadOk(s1, t) && FiberOk(s1, f) && PhaseOf(s, f) == PhaseOf(s1, f)
    ensures Inv(s1)
  {
    LocalStep(s, s1, t, f);
    LocalCounters(s, s1, t, f);
    QuietHistories(s, s1, t, f);
  }

  /** Whatever one thread does next under the client rules, the invariant still holds. */
  lemma StepKeeps(s: Sys, op: Op)
    requires Inv(s) && Enabled(s, op)
    ensures Inv(Step(s, op))
  {
    if op.Spawn? {
      SpawnKeeps(s);
    } else if op.Enter? || op.Act? || op.Yield? || op.Finish? || op.Resume? {
      ChildStepKeeps(s, op);
    } else {
      StepIsDefined(s, op);
      match op
      case GetThis(t) => GetThisKeeps(s, t);
      case Construct(t, script) => ConstructKeeps(s, t, script);
      case Reset(t, f, script) => ResetKeeps(s, t, f, script);
      case SwapIn(t, f) => SwapInKeeps(s, t, f);
      case Copy(_, f) => AddHandleKeeps(s, f);
      case Drop(t, f) => DropKeeps(s, t, f);
      case Exit(t) => ExitKeeps(s, t);
    }
  }

  lemma ConstructKeeps(s: Sys, t: ThreadId, script: Script)
    requires Inv(s) && t in s.threads && s.lastId + 1 < ID_LIMIT
    ensures Inv(DoConstruct(s, t, script))
  {
    if s.threads[t].main.None? { MakeMainKeeps(s, t); }
    AddChildKeeps(if s.threads[t].main.Some? then s else MakeMain(s, t), t, script);
  }

  lemma ResetKeeps(s: Sys, t: ThreadId, f: Ref, script: Script)
    requires Inv(s) && Enabled(s, Reset(t, f, script))
    ensures Inv(DoReset(s, t, f, script))
  {
    assert ThreadOk(s, t) && FiberOk(s, f);
    NextEpoch(s, f);
    ResetRenewed(s, t, f, script);
    RenewedKeeps(s, DoReset(s, t, f, script), t, f);
  }

  lemma SwapInKeeps(s: Sys, t: ThreadId, f: Ref)
    requires Inv(s) && Enabled(s, SwapIn(t, f)) && s.threads[t].main.Some? && s.threads[t].main.value in s.fibers
    requires f != s.threads[t].main.value
    ensures Inv(DoSwapIn(s, t, f))
  {
    CurrentMain(s, t);
    assert ThreadOk(s, t) && FiberOk(s, f) && FiberOk(s, s.threads[t].main.value);
    SwapInRecorded(s, t, f);
    RecordedKeeps(s, DoSwapIn(s, t, f), t, f, SwappedIn);
  }
}
