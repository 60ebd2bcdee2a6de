/** How a fiber's state follows from its history, and that every callback can be run to its end. */
module FiberOutcomes {
  import opened Options
  import opened FiberModel
  import opened FiberLaws

  // ----- What each state says about the script -----

  /** The action before a saved position is the yield that saved it. */
  predicate YieldedBy(c: Context, sc: Script, a: Action) {
    c.InYield? && 0 < c.pc <= |sc.actions| && sc.actions[c.pc - 1] == a
  }

  predicate Outcome(fb: Fiber, sc: Script) {
    match fb.state
    case TERM => !sc.throws
    case EXCEP => sc.throws
    case READY => YieldedBy(fb.ctx, sc, YieldReady)
    case HOLD => YieldedBy(fb.ctx, sc, YieldHold)
    case _ => true
  }

  predicate OutcomeOk(s: Sys, r: Ref)
    requires r in s.fibers
  {
    s.fibers[r].hasStack && (r, s.fibers[r].epoch) in s.scripts ==> Outcome(s.fibers[r], ScriptOf(s, r))
  }

  lemma YieldOutcome(s: Sys, t: ThreadId, r: Ref)
    requires Enabled(s, Yield(t)) && s.threads[t].main.Some? && s.threads[t].main.value in s.fibers
    requires r in s.fibers && OutcomeOk(s, r)
    ensures OutcomeOk(DoYield(s, t), r)
  {
  }

  lemma FinishOutcome(s: Sys, t: ThreadId, r: Ref)
    requires Enabled(s, Finish(t)) && s.threads[t].main.Some? && s.threads[t].main.value in s.fibers
    requires var fb := s.fibers[s.threads[t].cpu.f];
             fb.refs > 1 && (s.variant == UcLink ==> fb.link.Some? && fb.link.value in s.fibers)
    requires r in s.fibers && OutcomeOk(s, r)
    ensures OutcomeOk(DoFinish(s, t), r)
  {
  }

  lemma ConstructOutcome(s: Sys, t: ThreadId, script: Script, r: Ref)
    requires t in s.threads && r in DoConstruct(s, t, script).fibers && (r in s.fibers ==> OutcomeOk(s, r))
    ensures OutcomeOk(DoConstruct(s, t, script), r)
  {
  }

  lemma ExitOutcome(s: Sys, t: ThreadId, r: Ref)
    requires t in s.threads && (s.threads[t].main.Some? ==> s.count > 0)
    requires s.threads[t].main.Some? ==> s.threads[t].main.value in s.fibers && s.fibers[s.threads[t].main.value].refs > 0
    requires r in DoExit(s, t).fibers && (r in s.fibers ==> OutcomeOk(s, r))
    ensures OutcomeOk(DoExit(s, t), r)
  {
  }

  lemma DropOutcome(s: Sys, t: ThreadId, f: Ref, r: Ref)
    requires t in s.threads && Held(s, f) && s.fibers[f].refs > 0 && s.count > 0
    requires r in DoDrop(s, t, f).fibers && (r in s.fibers ==> OutcomeOk(s, r))
    ensures OutcomeOk(DoDrop(s, t, f), r)
  {
  }

  lemma SwapInOutcome(s: Sys, t: ThreadId, f: Ref, r: Ref)
    requires t in s.threads && s.threads[t].main.Some? && s.threads[t].main.value in s.fibers
    requires f in s.fibers && f != s.threads[t].main.value && !s.fibers[s.threads[t].main.value].hasStack
    requires r in s.fibers && OutcomeOk(s, r)
    ensures OutcomeOk(DoSwapIn(s, t, f), r)
  {
  }

  lemma GetThisOutcome(s: Sys, t: ThreadId, r: Ref)
    requires Threads(s) && t in s.threads && (s.threads[t].cur.Some? ==> s.threads[t].cur.value in s.fibers)
    requires r in DoGetThis(s, t).fibers && (r in s.fibers ==> OutcomeOk(s, r))
    ensures OutcomeOk(DoGetThis(s, t), r)
  {
  }

  predicate InCallback(op: Op) {
    op.Enter? || op.Act? || op.Yield? || op.Finish? || op.Resume?
  }

  predicate OnHandles(op: Op) {
    op.Copy? || op.Drop? || op.Exit?
  }

  lemma OldFiber(s: Sys, op: Op, r: Ref)
    requires Inv(s) && Enabled(s, op) && InCallback(op) && r in Step(s, op).fibers
    ensures r in s.fibers
  {
    StepIsDefined(s, op);
  }

  lemma SuspendOutcome(s: Sys, op: Op, r: Ref)
    requires Inv(s) && Enabled(s, op) && (op.Yield? || op.Finish?) && r in s.fibers && OutcomeOk(s, r)
    ensures r in Step(s, op).fibers && OutcomeOk(Step(s, op), r)
  {
    StepIsDefined(s, op);
    if op.Yield? { YieldOutcome(s, op.t, r); } else { FinishOutcome(s, op.t, r); }
  }

  lemma CallbackOutcome(s: Sys, op: Op, r: Ref)
    requires Inv(s) && Enabled(s, op) && InCallback(op) && !op.Yield? && !op.Finish? && r in s.fibers && OutcomeOk(s, r)
    ensures r in Step(s, op).fibers && OutcomeOk(Step(s, op), r)
  {
    StepIsDefined(s, op);
  }

  lemma HandleOutcome(s: Sys, op: Op, r: Ref)
    requires Inv(s) && Enabled(s, op) && OnHandles(op)
    requires r in Step(s, op).fibers && (r in s.fibers ==> OutcomeOk(s, r))
    ensures OutcomeOk(Step(s, op), r)
  {
    StepIsDefined(s, op);
    match op
    case Copy(_, _) =>
    case Drop(t, f) => DropOutcome(s, t, f, r);
    case Exit(t) => ExitOutcome(s, t, r);
  }

  lemma ClientOutcome(s: Sys, op: Op, r: Ref)
    requires Inv(s) && Enabled(s, op) && !op.Spawn? && !InCallback(op) && !OnHandles(op)
    requires r in Step(s, op).fibers && (r in s.fibers ==> OutcomeOk(s, r))
    ensures OutcomeOk(Step(s, op), r)
  {
    StepIsDefined(s, op);
    match op
    case GetThis(t) => GetThisOutcome(s, t, r);
    case Construct(t, script) => ConstructOutcome(s, t, script, r);
    case SwapIn(t, f) => CurrentMain(s, t); SwapInOutcome(s, t, f, r);
    case Reset(_, _, _) =>
  }

  lemma StepOutcome(s: Sys, op: Op, r: Ref)
    requires Inv(s) && Enabled(s, op) && r in Step(s, op).fibers && (r in s.fibers ==> OutcomeOk(s, r))
    ensures OutcomeOk(Step(s, op), r)
  {
    if InCallback(op) {
      OldFiber(s, op, r);
      if op.Yield? || op.Finish? { SuspendOutcome(s, op, r); } else { CallbackOutcome(s, op, r); }
    } else if OnHandles(op) {
      HandleOutcome(s, op, r);
    } else if !op.Spawn? {
      ClientOutcome(s, op, r);
    }
  }

  lemma {:induction false} RunOutcome(ops: seq<Op>, v: Variant, r: Ref)
    requires Run(ops, v).Some? && r in Run(ops, v).value.fibers
    ensures OutcomeOk(Run(ops, v).value, r)
  {
    if ops != [] {
      var init, op := ops[..|ops| - 1], ops[|ops| - 1];
      var s := Run(init, v).value;
      if r in s.fibers { RunOutcome(init, v, r); }
      StepOutcome(s, op, r);
    }
  }

  // ----- The state as a function of the history -----

  /** What the last event of a sequence that a script allows says about the phase it leads to. */
  lemma {:induction false} LastEvent(h: seq<Event>, sc: Script)
    requires Replay(h, sc).Some?
    ensures var p := Replay(h, sc).value;
            && (p.Fresh? <==> h == [])
            && (p.Ended? <==> h != [] && h[|h| - 1] == Finished)
            && (p.Outside? <==> h != [] && h[|h| - 1] in {Did(YieldReady), Did(YieldHold)})
            && (p.Outside? ==> 0 < p.pc <= |sc.actions| && h[|h| - 1] == Did(sc.actions[p.pc - 1]))
  {
    if h != [] { LastEvent(h[..|h| - 1], sc); }
  }

  /**
   * In every run the state of a child follows from what happened to it since its construction
   * or its last reset: INIT before anything did, READY or HOLD right after the yield of that
   * name, TERM or EXCEP after the end of a callback that returns or throws, EXEC otherwise.
   * The callback is gone exactly after a normal return.
   */
  lemma StateFollowsHistory(s: Sys, ops: seq<Op>, v: Variant, r: Ref)
    requires Reachable(s, ops, v) && r in s.fibers && s.fibers[r].hasStack
    ensures (r, s.fibers[r].epoch) in s.scripts
    ensures var h, sc := History(s.trace, r, s.fibers[r].epoch), s.scripts[(r, s.fibers[r].epoch)];
            && (s.fibers[r].state == INIT <==> h == [])
            && (s.fibers[r].state == READY <==> h != [] && h[|h| - 1] == Did(YieldReady))
            && (s.fibers[r].state == HOLD <==> h != [] && h[|h| - 1] == Did(YieldHold))
            && (s.fibers[r].state == TERM <==> Finished in h && !sc.throws)
            && (s.fibers[r].state == EXCEP <==> Finished in h && sc.throws)
            && s.fibers[r].cb == if Finished in h && !sc.throws then None else Some(sc)
  {
    assert FiberOk(s, r) && LifeOk(s, r);
    RunOutcome(ops, v, r);
    StateOf(s, r);
  }

  lemma StateOf(s: Sys, r: Ref)
    requires r in s.fibers && s.fibers[r].hasStack && ChildOk(s, r) && LifeOk(s, r) && OutcomeOk(s, r)
    ensures var h, sc := History(s.trace, r, s.fibers[r].epoch), ScriptOf(s, r);
            && (s.fibers[r].state == INIT <==> h == [])
            && (s.fibers[r].state == READY <==> h != [] && h[|h| - 1] == Did(YieldReady))
            && (s.fibers[r].state == HOLD <==> h != [] && h[|h| - 1] == Did(YieldHold))
            && (s.fibers[r].state == TERM <==> Finished in h && !sc.throws)
            && (s.fibers[r].state == EXCEP <==> Finished in h && sc.throws)
  {
    LastEvent(History(s.trace, r, s.fibers[r].epoch), ScriptOf(s, r));
    LifeMembers(History(s.trace, r, s.fibers[r].epoch), ScriptOf(s, r));
  }

  // ----- Runs to the end -----

  /** Thread 0 and its child 1, which a client holds and whose callback in life `e` is `sc`. */
  predicate Pair(s: Sys, sc: Script, e: nat) {
    && 0 in s.threads && 1 in s.fibers && s.fibers[1].hasStack && s.fibers[1].home == 0 && s.fibers[1].handles > 0
    && s.fibers[1].epoch == e && (1, e) in s.scripts && s.scripts[(1, e)] == sc
  }

  /** The callback executes and has done `pc` actions. */
  predicate Doing(s: Sys, sc: Script, e: nat, pc: nat) {
    Pair(s, sc, e) && s.threads[0].cpu == Running(1, pc)
  }

  /** The thread executes its own code and the child may be resumed. */
  predicate Waiting(s: Sys, sc: Script, e: nat) {
    Pair(s, sc, e) && s.threads[0].cpu.ThreadCode? && s.fibers[1].state in {INIT, HOLD, READY}
  }

  predicate Done(s: Sys, sc: Script, e: nat) {
    Pair(s, sc, e) && s.threads[0].cpu.ThreadCode? && s.fibers[1].state in {TERM, EXCEP}
  }

  lemma DoesWork(s: Sys, sc: Script, e: nat, pc: nat)
    requires Inv(s) && Doing(s, sc, e, pc) && pc < |sc.actions| && sc.actions[pc].Work?
    ensures Enabled(s, Act(0)) && Doing(Step(s, Act(0)), sc, e, pc + 1)
  {
    StepIsDefined(s, Act(0));
  }

  /** The main fiber of a thread that executes a child has saved the thread's own code. */
  lemma MainWaits(s: Sys, sc: Script, e: nat, pc: nat)
    requires Inv(s) && Doing(s, sc, e, pc)
    ensures var l := s.threads[0];
            && l.main.Some? && l.main.value in s.fibers && l.main.value != 1 && s.fibers[l.main.value].ctx.ThreadCode?
            && (s.variant == UcLink ==> s.fibers[1].link == l.main)
  {
    CurrentChild(s, 0);
    assert ThreadOk(s, 0) && FiberOk(s, 1);
  }

  lemma Yields0(s: Sys, sc: Script, e: nat, pc: nat)
    requires Inv(s) && Doing(s, sc, e, pc) && pc < |sc.actions| && !sc.actions[pc].Work?
    ensures Enabled(s, Yield(0))
    ensures var s1 := Step(s, Yield(0)); Waiting(s1, sc, e) && s1.fibers[1].ctx == InYield(1, pc + 1)
  {
    StepIsDefined(s, Yield(0));
    MainWaits(s, sc, e, pc);
  }

  lemma Finishes0(s: Sys, sc: Script, e: nat)
    requires Inv(s) && Doing(s, sc, e, |sc.actions|)
    ensures Enabled(s, Finish(0)) && Done(Step(s, Finish(0)), sc, e)
  {
    StepIsDefined(s, Finish(0));
    MainWaits(s, sc, e, |sc.actions|);
  }

  lemma SwapsIn0(s: Sys, sc: Script, e: nat)
    requires Inv(s) && Waiting(s, sc, e)
    ensures Enabled(s, SwapIn(0, 1))
    ensures var s1 := Step(s, SwapIn(0, 1)); Pair(s1, sc, e) && s1.threads[0].cpu == s.fibers[1].ctx
  {
    StepIsDefined(s, SwapIn(0, 1));
  }

  lemma Resumes0(s: Sys, sc: Script, e: nat)
    requires Inv(s) && Pair(s, sc, e) && s.threads[0].cpu.InYield? && s.threads[0].cpu.f == 1
    ensures Enabled(s, Resume(0)) && Doing(Step(s, Resume(0)), sc, e, s.threads[0].cpu.pc)
  {
    StepIsDefined(s, Resume(0));
  }

  lemma Enters0(s: Sys, sc: Script, e: nat)
    requires Inv(s) && Pair(s, sc, e) && s.threads[0].cpu == Entry(1)
    ensures Enabled(s, Enter(0)) && Doing(Step(s, Enter(0)), sc, e, 0)
  {
    StepIsDefined(s, Enter(0));
  }

  lemma Resets0(s: Sys, sc: Script, e: nat, next: Script)
    requires Inv(s) && Done(s, sc, e)
    ensures Enabled(s, Reset(0, 1, next))
    ensures var s1 := Step(s, Reset(0, 1, next)); Waiting(s1, next, e + 1) && s1.fibers[1].ctx == Entry(1)
  {
    StepIsDefined(s, Reset(0, 1, next));
  }

  /** One action further, over a suspension if the action is a yield. */
  lemma OneFurther(s: Sys, ops: seq<Op>, v: Variant, sc: Script, e: nat, pc: nat) returns (s1: Sys, ops1: seq<Op>)
    requires Reachable(s, ops, v) && Doing(s, sc, e, pc) && pc < |sc.actions|
    ensures Reachable(s1, ops1, v) && Doing(s1, sc, e, pc + 1)
  {
    if sc.actions[pc].Work? {
      DoesWork(s, sc, e, pc);
      s1, ops1 := Extend(s, ops, v, Act(0));
    } else {
      Yields0(s, sc, e, pc);
      s1, ops1 := Extend(s, ops, v, Yield(0));
      SwapsIn0(s1, sc, e);
      s1, ops1 := Extend(s1, ops1, v, SwapIn(0, 1));
      Resumes0(s1, sc, e);
      s1, ops1 := Extend(s1, ops1, v, Resume(0));
    }
  }

  lemma ToTheEnd(s: Sys, ops: seq<Op>, v: Variant, sc: Script, e: nat) returns (s1: Sys, ops1: seq<Op>)
    requires Reachable(s, ops, v) && Waiting(s, sc, e) && s.fibers[1].ctx == Entry(1)
    ensures Reachable(s1, ops1, v) && Done(s1, sc, e)
  {
    SwapsIn0(s, sc, e);
    s1, ops1 := Extend(s, ops, v, SwapIn(0, 1));
    Enters0(s1, sc, e);
    s1, ops1 := Extend(s1, ops1, v, Enter(0));
    var pc := 0;
    while pc < |sc.actions|
      invariant pc <= |sc.actions| && Reachable(s1, ops1, v) && Doing(s1, sc, e, pc)
    {
      s1, ops1 := OneFurther(s1, ops1, v, sc, e, pc);
      pc := pc + 1;
    }
    Finishes0(s1, sc, e);
    s1, ops1 := Extend(s1, ops1, v, Finish(0));
  }

  lemma ChildWaits(sc: Script, v: Variant) returns (s: Sys, ops: seq<Op>)
    ensures Reachable(s, ops, v) && Waiting(s, sc, 0) && s.fibers[1].ctx == Entry(1)
  {
    s, ops := OneChild(sc, v);
  }

  lemma FirstDone(sc: Script, v: Variant) returns (s: Sys, ops: seq<Op>)
    ensures Reachable(s, ops, v) && Done(s, sc, 0)
  {
    s, ops := ChildWaits(sc, v);
    s, ops := ToTheEnd(s, ops, v, sc, 0);
  }

  lemma NextDone(s: Sys, ops: seq<Op>, v: Variant, sc: Script, e: nat, next: Script) returns (s1: Sys, ops1: seq<Op>)
    requires Reachable(s, ops, v) && Done(s, sc, e)
    ensures Reachable(s1, ops1, v) && Done(s1, next, e + 1)
  {
    Resets0(s, sc, e, next);
    s1, ops1 := Extend(s, ops, v, Reset(0, 1, next));
    s1, ops1 := ToTheEnd(s1, ops1, v, next, e + 1);
  }

  lemma {:induction false} OneAfterTheOther(first: Script, others: seq<Script>, v: Variant) returns (s: Sys, ops: seq<Op>)
    ensures Reachable(s, ops, v) && Done(s, ([first] + others)[|others|], |others|)
  {
    if others == [] {
      s, ops := FirstDone(first, v);
    } else {
      var init, e := others[..|others| - 1], |others| - 1;
      s, ops := OneAfterTheOther(first, init, v);
      s, ops := NextDone(s, ops, v, ([first] + init)[e], e, others[e]);
    }
  }

  /**
   * Any callbacks, however often they yield and however they end, can be run to their ends one
   * after the other on the same fiber, reset in between: the client rules do not get in the way.
   * The last one has then done all its actions and left the fiber in TERM or EXCEP.
   */
  lemma CallbacksCanFinish(first: Script, others: seq<Script>, v: Variant) returns (s: Sys, ops: seq<Op>)
    ensures Reachable(s, ops, v) && 1 in s.fibers && s.fibers[1].epoch == |others|
    ensures var sc := ([first] + others)[|others|];
            && s.fibers[1].state == (if sc.throws then EXCEP else TERM)
            && Actions(History(s.trace, 1, |others|)) == sc.actions
  {
    s, ops := OneAfterTheOther(first, others, v);
    StateFollowsHistory(s, ops, v, 1);
    ScheduleFollowsScript(s, ops, v, 1);
  }

  // ----- Identifiers -----

  function Constructions(ops: seq<Op>): nat {
    if ops == [] then 0 else Constructions(ops[..|ops| - 1]) + if ops[|ops| - 1].Construct? then 1 else 0
  }

  lemma StepCountsIds(s: Sys, op: Op)
    requires Inv(s) && Enabled(s, op)
    ensures Step(s, op).lastId == s.lastId + if op.Construct? then 1 else 0
  {
    if !op.Spawn? { StepIsDefined(s, op); }
  }

  lemma {:induction false} IdsCountConstructions(ops: seq<Op>, v: Variant)
    requires Run(ops, v).Some?
    ensures Run(ops, v).value.lastId == Constructions(ops)
  {
    if ops != [] {
      var init, op := ops[..|ops| - 1], ops[|ops| - 1];
      IdsCountConstructions(init, v);
      StepCountsIds(Run(init, v).value, op);
    }
  }

  /** The child constructed after `k` others, on whatever threads, has the id `k + 1`. */
  lemma IdsAreConsecutive(s: Sys, ops: seq<Op>, v: Variant, t: ThreadId, sc: Script) returns (f: Ref)
    requires Reachable(s, ops, v) && Enabled(s, Construct(t, sc))
    ensures f !in s.fibers && f in Step(s, Construct(t, sc)).fibers
    ensures var fb := Step(s, Construct(t, sc)).fibers[f];
            fb.id == Constructions(ops) + 1 && fb.hasStack && fb.state == INIT && fb.cb == Some(sc) && fb.home == t
  {
    IdsCountConstructions(ops, v);
    StepIsDefined(s, Construct(t, sc));
    f := Step(s, Construct(t, sc)).nextRef - 1;
    assert f in s.fibers ==> FiberOk(s, f);
  }
}
