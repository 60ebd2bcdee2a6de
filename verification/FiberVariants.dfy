/** The two builds of `MainFunc`, by `uc_link` and by an explicit `swapOut`, simulate each other. */
module FiberVariants {
  import opened FiberModel
  import opened FiberLaws

  /**
   * Equal but for the link, which only one build sets, and the saved context of a finished
   * fiber, which no step reads before a reset.
   */
  predicate SameBut(a: Fiber, b: Fiber) {
    a == b.(link := a.link, ctx := a.ctx) && (a.ctx == b.ctx || (a.hasStack && (a.state == TERM || a.state == EXCEP)))
  }

  predicate Same(a: Sys, b: Sys) {
    && a.variant == UcLink && b.variant == SwapOut
    && a == b.(variant := UcLink, fibers := a.fibers) && a.fibers.Keys == b.fibers.Keys
    && forall r :: r in a.fibers ==> SameBut(a.fibers[r], b.fibers[r])
  }

  lemma SameEnabled(a: Sys, b: Sys, op: Op)
    requires Same(a, b)
    ensures Enabled(a, op) <==> Enabled(b, op)
  {
  }

  lemma SameMakeMain(a: Sys, b: Sys, t: ThreadId)
    requires Same(a, b) && t in a.threads
    ensures Same(MakeMain(a, t), MakeMain(b, t))
  {
  }

  lemma SameAddHandle(a: Sys, b: Sys, f: Ref)
    requires Same(a, b) && f in a.fibers
    ensures Same(AddHandle(a, f), AddHandle(b, f))
  {
  }

  lemma SameAddChild(a: Sys, b: Sys, t: ThreadId, script: Script)
    requires Same(a, b) && t in a.threads
    ensures Same(AddChild(a, t, script), AddChild(b, t, script))
  {
  }

  lemma SameGetThis(a: Sys, b: Sys, t: ThreadId)
    requires Same(a, b) && Threads(a) && Threads(b) && t in a.threads
    requires a.threads[t].cur.Some? ==> a.threads[t].cur.value in a.fibers
    ensures Same(DoGetThis(a, t), DoGetThis(b, t))
  {
    SameMakeMain(a, b, t);
    var a1 := if a.threads[t].cur.Some? then a else MakeMain(a, t);
    var b1 := if b.threads[t].cur.Some? then b else MakeMain(b, t);
    SameAddHandle(a1, b1, a1.threads[t].cur.value);
  }

  lemma SameConstruct(a: Sys, b: Sys, t: ThreadId, script: Script)
    requires Same(a, b) && t in a.threads
    ensures Same(DoConstruct(a, t, script), DoConstruct(b, t, script))
  {
    SameMakeMain(a, b, t);
    SameAddChild(if a.threads[t].main.Some? then a else MakeMain(a, t), if b.threads[t].main.Some? then b else MakeMain(b, t), t, script);
  }

  lemma SameReset(a: Sys, b: Sys, t: ThreadId, f: Ref, script: Script)
    requires Same(a, b) && f in a.fibers && t in a.threads
    ensures Same(DoReset(a, t, f, script), DoReset(b, t, f, script))
  {
  }

  lemma SameSwapIn(a: Sys, b: Sys, t: ThreadId, f: Ref)
    requires Same(a, b) && Enabled(a, SwapIn(t, f)) && a.threads[t].main.Some? && a.threads[t].main.value in a.fibers
    requires f != a.threads[t].main.value
    ensures Same(DoSwapIn(a, t, f), DoSwapIn(b, t, f))
  {
  }

  lemma SameEnter(a: Sys, b: Sys, t: ThreadId)
    requires Same(a, b) && t in a.threads && a.threads[t].cpu.Entry? && a.threads[t].cpu.f in a.fibers
    ensures Same(DoEnter(a, t), DoEnter(b, t))
  {
  }

  lemma SameAct(a: Sys, b: Sys, t: ThreadId)
    requires Same(a, b) && Enabled(a, Act(t))
    ensures Enabled(b, Act(t)) && Same(DoAct(a, t), DoAct(b, t))
  {
  }

  /** Thread `t` runs the child `f` and has a main fiber to go back to. */
  predicate HasMain(s: Sys, t: ThreadId) {
    && t in s.threads && s.threads[t].main.Some? && s.threads[t].main.value in s.fibers && !s.fibers[s.threads[t].main.value].hasStack
    && !s.threads[t].cpu.ThreadCode? && s.threads[t].cpu.f in s.fibers && s.fibers[s.threads[t].cpu.f].hasStack
    && s.fibers[s.threads[t].cpu.f].state == EXEC
  }

  lemma SameYield(a: Sys, b: Sys, t: ThreadId)
    requires Same(a, b) && Enabled(a, Yield(t)) && HasMain(a, t)
    ensures Enabled(b, Yield(t)) && HasMain(b, t) && Same(DoYield(a, t), DoYield(b, t))
  {
  }

  /** Following the link and swapping with the main fiber resume the same context, because the link is that main fiber. */
  lemma SameFinish(a: Sys, b: Sys, t: ThreadId)
    requires Same(a, b) && Enabled(a, Finish(t)) && HasMain(a, t) && a.fibers[a.threads[t].cpu.f].refs > 1
    requires a.fibers[a.threads[t].cpu.f].link == a.threads[t].main
    ensures Enabled(b, Finish(t)) && HasMain(b, t) && Same(DoFinish(a, t), DoFinish(b, t))
  {
  }

  lemma SameResume(a: Sys, b: Sys, t: ThreadId)
    requires Same(a, b) && t in a.threads && a.threads[t].cpu.InYield? && a.threads[t].cpu.f in a.fibers
    requires a.fibers[a.threads[t].cpu.f].refs > 1
    ensures Same(DoResume(a, t), DoResume(b, t))
  {
  }

  lemma SameRelease(a: Sys, b: Sys, t: ThreadId, f: Ref)
    requires Same(a, b) && f in a.fibers && a.fibers[f].refs > 0 && t in a.threads && a.count > 0
    ensures Same(Release(a, t, f), Release(b, t, f))
  {
  }

  lemma SameDrop(a: Sys, b: Sys, t: ThreadId, f: Ref)
    requires Same(a, b) && t in a.threads && Held(a, f) && a.fibers[f].refs > 0 && a.count > 0
    ensures Same(DoDrop(a, t, f), DoDrop(b, t, f))
  {
    var x, y := a.fibers[f], b.fibers[f];
    var a1, b1 := SetFiber(a, f, x.(handles := x.handles - 1)), SetFiber(b, f, y.(handles := y.handles - 1));
    assert Same(a1, b1);
    SameRelease(a1, b1, t, f);
  }

  lemma SameExit(a: Sys, b: Sys, t: ThreadId)
    requires Same(a, b) && t in a.threads && (a.threads[t].main.Some? ==> a.count > 0)
    requires a.threads[t].main.Some? ==> a.threads[t].main.value in a.fibers && a.fibers[a.threads[t].main.value].refs > 0
    ensures Same(DoExit(a, t), DoExit(b, t))
  {
    if a.threads[t].main.Some? { SameRelease(a, b, t, a.threads[t].main.value); }
  }

  lemma FindHasMain(s: Sys, t: ThreadId)
    requires Inv(s) && t in s.threads && !s.threads[t].cpu.ThreadCode?
    ensures HasMain(s, t)
  {
    CurrentChild(s, t);
    assert ThreadOk(s, t);
  }

  lemma SameChildStep(a: Sys, b: Sys, op: Op)
    requires Inv(a) && Inv(b) && Same(a, b) && Enabled(a, op) && Enabled(b, op)
    requires op.Enter? || op.Resume?
    ensures Same(Step(a, op), Step(b, op))
  {
    StepIsDefined(a, op);
    StepIsDefined(b, op);
    if op.Enter? { SameEnter(a, b, op.t); } else { SameResume(a, b, op.t); }
  }

  lemma SameWork(a: Sys, b: Sys, t: ThreadId)
    requires Inv(a) && Inv(b) && Same(a, b) && Enabled(a, Act(t)) && Enabled(b, Act(t))
    ensures Same(Step(a, Act(t)), Step(b, Act(t)))
  {
    SameAct(a, b, t);
  }

  lemma SameSwitch(a: Sys, b: Sys, op: Op)
    requires Inv(a) && Inv(b) && Same(a, b) && Enabled(a, op) && Enabled(b, op) && (op.Yield? || op.Finish?)
    ensures Same(Step(a, op), Step(b, op))
  {
    StepIsDefined(a, op);
    StepIsDefined(b, op);
    FindHasMain(a, op.t);
    if op.Yield? { SameYield(a, b, op.t); } else { SameFinish(a, b, op.t); }
  }

  lemma SameHandleStep(a: Sys, b: Sys, op: Op)
    requires Inv(a) && Inv(b) && Same(a, b) && Enabled(a, op) && Enabled(b, op) && (op.Copy? || op.Drop? || op.Exit?)
    ensures Same(Step(a, op), Step(b, op))
  {
    StepIsDefined(a, op);
    match op
    case Copy(_, f) => SameAddHandle(a, b, f);
    case Drop(t, f) => SameDrop(a, b, t, f);
    case Exit(t) => SameExit(a, b, t);
  }

  lemma SameMainStep(a: Sys, b: Sys, op: Op)
    requires Inv(a) && Inv(b) && Same(a, b) && Enabled(a, op) && Enabled(b, op)
    requires op.GetThis? || op.Construct? || op.Reset? || op.SwapIn?
    ensures Same(Step(a, op), Step(b, op))
  {
    StepIsDefined(a, op);
    match op
    case GetThis(t) => SameGetThis(a, b, t);
    case Construct(t, script) => SameConstruct(a, b, t, script);
    case Reset(t, f, script) => SameReset(a, b, t, f, script);
    case SwapIn(t, f) => SameSwapIn(a, b, t, f);
  }

  /** A step of one build is matched by the same step of the other. */
  lemma SameStep(a: Sys, b: Sys, op: Op)
    requires Inv(a) && Inv(b) && Same(a, b) && Enabled(a, op) && Enabled(b, op)
    ensures Same(Step(a, op), Step(b, op))
  {
    if op.Enter? || op.Resume? {
      SameChildStep(a, b, op);
    } else if op.Act? {
      SameWork(a, b, op.t);
    } else if op.Yield? || op.Finish? {
      SameSwitch(a, b, op);
    } else if op.Copy? || op.Drop? || op.Exit? {
      SameHandleStep(a, b, op);
    } else if !op.Spawn? {
      SameMainStep(a, b, op);
    }
  }

  /**
   * For every run, either build allows it exactly when the other does, and they end with the
   * same fibers, states, reference counts, current fibers, executing contexts and counters.
   */
  lemma {:induction false} VariantsSimulate(ops: seq<Op>)
    ensures Run(ops, UcLink).Some? <==> Run(ops, SwapOut).Some?
    ensures Run(ops, UcLink).Some? ==> Same(Run(ops, UcLink).value, Run(ops, SwapOut).value)
  {
    if ops != [] {
      var init, op := ops[..|ops| - 1], ops[|ops| - 1];
      VariantsSimulate(init);
      if Run(init, UcLink).Some? {
        var a, b := Run(init, UcLink).value, Run(init, SwapOut).value;
        SameEnabled(a, b, op);
        if Enabled(a, op) { SameStep(a, b, op); }
      }
    }
  }
}
