/** What holds in every run of the fiber system, whatever the schedule of its threads. */
module FiberLaws {
  import opened Options
  import opened FiberModel
  import opened FiberInvariant

  /** The state after a run of steps from the start, if every step was allowed. */
  function Run(ops: seq<Op>, v: Variant): (r: Option<Sys>)
    ensures r.Some? ==> Inv(r.value)
  {
    if ops == [] then Some(Start(v)) else
      match Run(ops[..|ops| - 1], v)
      case None => None
      case Some(s) =>
        var op := ops[|ops| - 1];
        if Enabled(s, op) then
          StepKeeps(s, op);
          Some(Step(s, op))
        else None
  }

  predicate Reachable(s: Sys, ops: seq<Op>, v: Variant) {
    Run(ops, v) == Some(s)
  }

  // ----- One running fiber per thread -----

  /**
   * A thread with a main fiber runs exactly one fiber: either its main fiber is current, the
   * thread executes its own code and no child of it is in EXEC, or its current fiber is the
   * only child of it in EXEC and the thread executes that child's stack. The main fiber is
   * always in EXEC, and it resumes right after the last call of `swapIn`.
   */
  lemma OneRunningFiber(s: Sys, ops: seq<Op>, v: Variant, t: ThreadId)
    requires Reachable(s, ops, v) && t in s.threads && s.threads[t].main.Some?
    ensures var l := s.threads[t];
            && l.main.value in s.fibers && s.fibers[l.main.value].state == EXEC && !s.fibers[l.main.value].hasStack
            && l.cur.Some? && l.cur.value in s.fibers
            && (forall r :: r in s.fibers && s.fibers[r].hasStack && s.fibers[r].home == t ==>
                  (s.fibers[r].state == EXEC <==> l.cur == Some(r)))
            && if l.cur == l.main then l.cpu == ThreadCode(l.calls)
               else
                 && s.fibers[l.main.value].ctx == ThreadCode(l.calls)
                 && !l.cpu.ThreadCode? && Some(l.cpu.f) == l.cur
  {
    assert ThreadOk(s, t) && FiberOk(s, s.threads[t].main.value) && FiberOk(s, s.threads[t].cur.value);
    forall r | r in s.fibers && s.fibers[r].hasStack && s.fibers[r].home == t
      ensures s.fibers[r].state == EXEC <==> s.threads[t].cur == Some(r)
    {
      assert FiberOk(s, r);
    }
  }

  // ----- Links -----

  /**
   * In the build that returns through `uc_link`, a child of a live thread is linked to that
   * thread's main fiber. While the child executes, the main fiber exists and its saved context
   * is the thread's own code right after its last call of `swapIn`.
   */
  lemma LinkedToOwnMain(s: Sys, ops: seq<Op>, v: Variant, r: Ref)
    requires Reachable(s, ops, v) && r in s.fibers && s.fibers[r].hasStack && s.fibers[r].home in s.threads
    ensures s.variant == v
    ensures v == UcLink ==> s.fibers[r].link.Some? && s.fibers[r].link == s.threads[s.fibers[r].home].main
    ensures v == SwapOut ==> s.fibers[r].link == None
    ensures v == UcLink && s.fibers[r].state == EXEC ==>
              var m := s.fibers[r].link.value;
              m in s.fibers && s.fibers[m].ctx == ThreadCode(s.threads[s.fibers[r].home].calls)
  {
    RunKeepsVariant(ops, v);
    assert FiberOk(s, r) && ThreadOk(s, s.fibers[r].home);
  }

  lemma {:induction false} RunKeepsVariant(ops: seq<Op>, v: Variant)
    ensures var r := Run(ops, v); r.Some? ==> r.value.variant == v
  {
    if ops != [] {
      var init, op := ops[..|ops| - 1], ops[|ops| - 1];
      RunKeepsVariant(init, v);
      if Run(init, v).Some? && Enabled(Run(init, v).value, op) {
        StepKeepsVariant(Run(init, v).value, op);
      }
    }
  }

  lemma StepKeepsVariant(s: Sys, op: Op)
    requires Inv(s) && Enabled(s, op)
    ensures Step(s, op).variant == s.variant
  {
    if op.Enter? || op.Act? || op.Yield? || op.Finish? || op.Resume? {
      ChildStepKeepsVariant(s, op);
    } else if !op.Spawn? {
      StepIsDefined(s, op);
    }
  }

  lemma ChildStepKeepsVariant(s: Sys, op: Op)
    requires Inv(s) && Enabled(s, op) && (op.Enter? || op.Act? || op.Yield? || op.Finish? || op.Resume?)
    ensures Step(s, op).variant == s.variant
  {
    StepIsDefined(s, op);
  }

  /** A reset on any other live thread that has fibers would link the child to the wrong main fiber. */
  lemma ResetLinksRightIffOnOwnThread(s: Sys, t: ThreadId, f: Ref, script: Script)
    requires Inv(s) && s.variant == UcLink && f in s.fibers && s.fibers[f].hasStack && s.fibers[f].home in s.threads
    requires t in s.threads
    ensures DoReset(s, t, f, script).fibers[f].link == s.threads[s.fibers[f].home].main <==> t == s.fibers[f].home
  {
    assert FiberOk(s, f) && ThreadOk(s, t) && ThreadOk(s, s.fibers[f].home);
  }

  // ----- The assertions of the destructor -----

  /** A step that destroys a fiber passes the assertions of `~Fiber`. */
  lemma DestructorAssertionsHold(s: Sys, ops: seq<Op>, v: Variant, op: Op, f: Ref)
    requires Reachable(s, ops, v) && Enabled(s, op) && f in s.fibers && f !in Step(s, op).fibers
    ensures if s.fibers[f].hasStack then s.fibers[f].state in {TERM, INIT, EXCEP}
            else s.fibers[f].cb == None && s.fibers[f].state == EXEC
  {
    assert FiberOk(s, f);
    WhoDestroys(s, op, f);
    if op.Exit? { CurrentMain(s, op.t); }
  }

  /** Only the end of a last handle or of a thread destroys a fiber. */
  lemma WhoDestroys(s: Sys, op: Op, f: Ref)
    requires Inv(s) && Enabled(s, op) && f in s.fibers && f !in Step(s, op).fibers
    ensures (op.Drop? && op.f == f && s.fibers[f].refs == 1) || (op.Exit? && s.threads[op.t].main == Some(f))
  {
    if op.Drop? {
      DropDestroys(s, op, f);
    } else if op.Exit? {
      ExitDestroys(s, op, f);
    } else {
      MostStepsDestroyNothing(s, op);
    }
  }

  lemma DropDestroys(s: Sys, op: Op, f: Ref)
    requires Inv(s) && Enabled(s, op) && op.Drop? && f in s.fibers && f !in Step(s, op).fibers
    ensures op.f == f && s.fibers[f].refs == 1
  {
    StepIsDefined(s, op);
  }

  lemma ExitDestroys(s: Sys, op: Op, f: Ref)
    requires Inv(s) && Enabled(s, op) && op.Exit? && f in s.fibers && f !in Step(s, op).fibers
    ensures s.threads[op.t].main == Some(f)
  {
    StepIsDefined(s, op);
  }

  lemma MostStepsDestroyNothing(s: Sys, op: Op)
    requires Inv(s) && Enabled(s, op) && !op.Drop? && !op.Exit?
    ensures s.fibers.Keys <= Step(s, op).fibers.Keys
  {
    if op.Enter? || op.Act? || op.Yield? || op.Finish? || op.Resume? {
      ChildStepsDestroyNothing(s, op);
    } else if !op.Spawn? {
      StepIsDefined(s, op);
    }
  }

  lemma ChildStepsDestroyNothing(s: Sys, op: Op)
    requires Inv(s) && Enabled(s, op) && (op.Enter? || op.Act? || op.Yield? || op.Finish? || op.Resume?)
    ensures s.fibers.Keys <= Step(s, op).fibers.Keys
  {
    StepIsDefined(s, op);
  }

  /**
   * A child that started and has not finished holds a reference to itself from its own
   * `MainFunc` frame, and another one from its yield frame while it is suspended, on top of
   * whatever clients hold. Even without any client it is therefore never destroyed.
   */
  lemma StartedFiberHoldsItself(s: Sys, ops: seq<Op>, v: Variant, r: Ref)
    requires Reachable(s, ops, v) && r in s.fibers && s.fibers[r].hasStack
    requires Started in History(s.trace, r, s.fibers[r].epoch) && Finished !in History(s.trace, r, s.fibers[r].epoch)
    ensures s.fibers[r].state in {EXEC, HOLD, READY}
    ensures s.fibers[r].refs > s.fibers[r].handles
    ensures s.fibers[r].state in {HOLD, READY} ==> s.fibers[r].refs == s.fibers[r].handles + 2
  {
    assert FiberOk(s, r) && LifeOk(s, r);
    LifeMembers(History(s.trace, r, s.fibers[r].epoch), ScriptOf(s, r));
  }

  // ----- Schedules and scripts -----

  /** The actions among the events of one fiber. */
  function Actions(h: seq<Event>): seq<Action> {
    if h == [] then [] else
      var e := h[|h| - 1];
      Actions(h[..|h| - 1]) + if e.Did? then [e.action] else []
  }

  function CountOf(h: seq<Event>, p: Event -> bool): nat {
    if h == [] then 0 else CountOf(h[..|h| - 1], p) + if p(h[|h| - 1]) then 1 else 0
  }

  function SwapIns(h: seq<Event>): nat { CountOf(h, (e: Event) => e.SwappedIn?) }
  function Starts(h: seq<Event>): nat { CountOf(h, (e: Event) => e.Started?) }
  function Yields(h: seq<Event>): nat { CountOf(h, (e: Event) => e.Did? && !e.action.Work?) }
  function Finishes(h: seq<Event>): nat { CountOf(h, (e: Event) => e.Finished?) }

  function Progress(p: Phase, sc: Script): nat {
    match p
    case Fresh => 0
    case AtEntry => 0
    case Inside(pc) => pc
    case Outside(pc) => pc
    case Ended => |sc.actions|
  }

  /** The actions of any sequence of events that a script allows are a prefix of the script. */
  lemma {:induction false} LifeActions(h: seq<Event>, sc: Script)
    requires Replay(h, sc).Some?
    ensures var p := Replay(h, sc).value;
            Progress(p, sc) <= |sc.actions| && Actions(h) == sc.actions[..Progress(p, sc)]
  {
    if h != [] {
      var init, e := h[..|h| - 1], h[|h| - 1];
      LifeActions(init, sc);
      var p := Replay(init, sc).value;
      if p.Inside? && e.Did? {
        assert sc.actions[..p.pc + 1] == sc.actions[..p.pc] + [sc.actions[p.pc]];
      }
    }
  }

  /** How often each event can occur in such a sequence. */
  lemma {:induction false} LifeCounts(h: seq<Event>, sc: Script)
    requires Replay(h, sc).Some?
    ensures var p := Replay(h, sc).value;
            && SwapIns(h) == Yields(h) + Finishes(h) + (if p.AtEntry? || p.Inside? then 1 else 0)
            && Starts(h) == (if p.Fresh? || p.AtEntry? then 0 else 1)
            && Finishes(h) == (if p.Ended? then 1 else 0)
  {
    if h != [] { LifeCounts(h[..|h| - 1], sc); }
  }

  lemma {:induction false} LifeMembers(h: seq<Event>, sc: Script)
    requires Replay(h, sc).Some?
    ensures var p := Replay(h, sc).value;
            && (Started in h <==> !p.Fresh? && !p.AtEntry?)
            && (Finished in h <==> p.Ended?)
  {
    if h != [] {
      LifeMembers(h[..|h| - 1], sc);
      assert h == h[..|h| - 1] + [h[|h| - 1]];
    }
  }

  /**
   * However the threads were scheduled, the actions of a fiber since its construction or its
   * last reset are the beginning of its own script, exactly as far as its saved or executing
   * position says. It was swapped in once per yield, once more if it has finished and once
   * more if it is executing, and its callback was started at most once.
   */
  lemma ScheduleFollowsScript(s: Sys, ops: seq<Op>, v: Variant, r: Ref)
    requires Reachable(s, ops, v) && r in s.fibers && s.fibers[r].hasStack
    ensures ChildOk(s, r)
    ensures var h := History(s.trace, r, s.fibers[r].epoch);
            var done := Progress(PhaseOf(s, r), ScriptOf(s, r));
            && done <= |ScriptOf(s, r).actions| && Actions(h) == ScriptOf(s, r).actions[..done]
            && SwapIns(h) == Yields(h) + Finishes(h) + (if s.fibers[r].state == EXEC then 1 else 0)
            && Starts(h) <= 1
            && (Finishes(h) > 0 ==> done == |ScriptOf(s, r).actions|)
  {
    assert FiberOk(s, r) && LifeOk(s, r);
    LifeActions(History(s.trace, r, s.fibers[r].epoch), ScriptOf(s, r));
    LifeCounts(History(s.trace, r, s.fibers[r].epoch), ScriptOf(s, r));
  }

  /** The same for fibers that were reset or destroyed since: every epoch ran a prefix of its script. */
  lemma EveryEpochRanAPrefix(s: Sys, ops: seq<Op>, v: Variant, f: Ref, epoch: nat)
    requires Reachable(s, ops, v) && (f, epoch) in s.scripts
    ensures Actions(History(s.trace, f, epoch)) <= s.scripts[(f, epoch)].actions
    ensures Starts(History(s.trace, f, epoch)) <= 1
  {
    assert EpochOk(s, (f, epoch));
    LifeActions(History(s.trace, f, epoch), s.scripts[(f, epoch)]);
    LifeCounts(History(s.trace, f, epoch), s.scripts[(f, epoch)]);
  }

  // ----- Counters -----

  /** `TotalFibers` is the number of live fibers; child ids are positive and distinct, main ids are 0. */
  lemma CountersAreRight(s: Sys, ops: seq<Op>, v: Variant)
    requires Reachable(s, ops, v)
    ensures s.count == |s.fibers|
    ensures forall r :: r in s.fibers ==> (s.fibers[r].hasStack <==> s.fibers[r].id > 0)
    ensures forall q, r :: q in s.fibers && r in s.fibers && s.fibers[q].id == s.fibers[r].id > 0 ==> q == r
  {
    forall r | r in s.fibers ensures s.fibers[r].hasStack <==> s.fibers[r].id > 0 { assert FiberOk(s, r); }
  }

  // ----- A run -----

  lemma Extend(s: Sys, ops: seq<Op>, v: Variant, op: Op) returns (s1: Sys, ops1: seq<Op>)
    requires Reachable(s, ops, v) && Enabled(s, op)
    ensures Reachable(s1, ops1, v) && s1 == Step(s, op)
  {
    ops1 := ops + [op];
    assert ops1[..|ops|] == ops;
    s1 := Step(s, op);
  }

  lemma OneChild(script: Script, v: Variant) returns (s: Sys, ops: seq<Op>)
    ensures Reachable(s, ops, v)
    ensures s == DoConstruct(Sys(v, map[], map[0 := Locals(None, None, ThreadCode(0), 0)], 0, 0, 0, 1, map[], []), 0, script)
  {
    s, ops := Start(v), [];
    s, ops := Extend(s, ops, v, Spawn);
    s, ops := Extend(s, ops, v, Construct(0, script));
  }

  /** Any callback can be brought to run: the laws above are about something. */
  lemma ChildCanRun(script: Script, v: Variant) returns (s: Sys, ops: seq<Op>)
    ensures Reachable(s, ops, v)
    ensures 0 in s.threads && s.threads[0].cpu == Running(1, 0) && s.threads[0].cur == Some(1) && s.threads[0].main == Some(0)
    ensures 1 in s.fibers && s.fibers[1].state == EXEC && (1, 0) in s.scripts && s.scripts[(1, 0)] == script
  {
    s, ops := OneChild(script, v);
    s, ops := Extend(s, ops, v, SwapIn(0, 1));
    s, ops := Extend(s, ops, v, Enter(0));
  }
}
