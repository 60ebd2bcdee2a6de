/**
 * The fiber library as written: fields and thread-locals updated statement by statement,
 * with the assertions of the source proved where they stand. Every call is shown to be the
 * corresponding step of the state machine in `FiberModel`.
 */
module FiberRuntime {
  import opened Options
  import opened FiberModel
  import opened FiberInvariant

  class Runtime {
    const variant: Variant
    var fibers: map<Ref, Fiber>
    var threads: map<ThreadId, Locals>
    var lastId: nat
    var count: nat
    var nextRef: Ref
    var nextThread: ThreadId
    ghost var scripts: map<(Ref, nat), Script>
    ghost var trace: seq<Mark>

    ghost function View(): Sys
      reads this
    {
      Sys(variant, fibers, threads, lastId, count, nextRef, nextThread, scripts, trace)
    }

    ghost predicate Valid()
      reads this
    {
      Inv(View())
    }

    constructor (variant: Variant)
      ensures this.variant == variant && View() == Start(variant) && Valid()
    {
      this.variant := variant;
      fibers, threads, lastId, count, nextRef, nextThread := map[], map[], 0, 0, 0, 0;
      scripts, trace := map[], [];
    }

    // ----- Primitives -----

    method SetThis(t: ThreadId, f: Option<Ref>)
      requires t in threads
      modifies `threads
      ensures threads == old(threads)[t := old(threads)[t].(cur := f)]
    {
      threads := threads[t := threads[t].(cur := f)];
    }

    /** Copying (`n == 1`) or destroying (`n == -1`) a `shared_ptr` that is not the last one. */
    method CountRef(f: Ref, n: int)
      requires f in fibers && fibers[f].refs + n > 0
      modifies `fibers
      ensures fibers == old(fibers)[f := old(fibers)[f].(refs := old(fibers)[f].refs + n)]
    {
      fibers := fibers[f := fibers[f].(refs := fibers[f].refs + n)];
    }

    /** `swapcontext`: what the thread executes is saved as `saved` in `from`, and `to` is loaded. */
    method SwapContext(t: ThreadId, from: Ref, saved: Context, to: Ref)
      requires t in threads && from in fibers && to in fibers && from != to
      modifies `fibers, `threads
      ensures fibers == old(fibers)[from := old(fibers)[from].(ctx := saved)]
      ensures threads == old(threads)[t := old(threads)[t].(cpu := old(fibers)[to].ctx)]
    {
      fibers := fibers[from := fibers[from].(ctx := saved)];
      threads := threads[t := threads[t].(cpu := fibers[to].ctx)];
    }

    // ----- The main fiber -----

    /** `Fiber::Fiber()`. The new fiber becomes the current one; nobody refers to it yet. */
    method NewMain(t: ThreadId) returns (m: Ref)
      requires t in threads
      modifies `fibers, `threads, `count, `nextRef
      ensures m == old(nextRef) && nextRef == m + 1 && count == old(count) + 1
      ensures fibers == old(fibers)[m := Fiber(0, EXEC, false, None, old(threads)[t].cpu, None, 0, 0, t, 0)]
      ensures threads == old(threads)[t := old(threads)[t].(cur := Some(m))]
    {
      m := nextRef;
      nextRef := nextRef + 1;
      fibers := fibers[m := Fiber(0, EXEC, false, None, threads[t].cpu, None, 0, 0, t, 0)];
      SetThis(t, Some(m));
      count := count + 1;
    }

    /** The part of `GetThis` for a thread without fibers; the local pointer `main_fiber` is gone again. */
    method EnsureMain(t: ThreadId)
      requires t in threads && threads[t].cur.None?
      modifies `fibers, `threads, `count, `nextRef
      ensures View() == MakeMain(old(View()), t)
    {
      var m := NewMain(t);
      CountRef(m, 1);
      assert threads[t].cur == Some(m);
      threads := threads[t := threads[t].(main := Some(m))];
      CountRef(m, 1);
      CountRef(m, -1);
      assert fibers == old(fibers)[m := Fiber(0, EXEC, false, None, old(threads)[t].cpu, None, 1, 0, t, 0)];
      assert threads == old(threads)[t := old(threads)[t].(cur := Some(m), main := Some(m))];
    }

    /** `GetThis`: a client gets a reference to the current fiber, which is made if there is none. */
    method GetThis(t: ThreadId) returns (p: Ref)
      requires t in threads && (threads[t].cur.Some? ==> threads[t].cur.value in fibers)
      requires Threads(View())
      modifies `fibers, `threads, `count, `nextRef
      ensures View() == DoGetThis(old(View()), t)
      ensures threads[t].cur == Some(p) && p in fibers
    {
      if threads[t].cur.None? {
        EnsureMain(t);
      }
      p := threads[t].cur.value;
      fibers := fibers[p := fibers[p].(refs := fibers[p].refs + 1, handles := fibers[p].handles + 1)];
    }

    // ----- Child fibers -----

    /** `Fiber::Fiber(cb, stacksize)`, whose only reference the caller holds. */
    method Construct(t: ThreadId, cb: Script) returns (r: Ref)
      requires t in threads && threads[t].cur == threads[t].main
      modifies `fibers, `threads, `lastId, `count, `nextRef, `scripts
      ensures View() == DoConstruct(old(View()), t, cb)
      ensures r in fibers && fibers[r].id == old(lastId) + 1 && fibers[r].state == INIT && fibers[r].cb == Some(cb)
    {
      lastId := lastId + 1;
      var id := lastId;
      if threads[t].main.None? {
        EnsureMain(t);
      }
      assert threads[t].main.Some?;
      assert threads[t].cur == threads[t].main;
      count := count + 1;
      r := nextRef;
      nextRef := nextRef + 1;
      var link := if variant == UcLink then threads[t].main else None;
      fibers := fibers[r := Fiber(id, INIT, true, Some(cb), Entry(r), link, 1, 1, t, 0)];
      scripts := scripts[(r, 0) := cb];
    }

    /** `reset` on thread `t`. */
    method Reset(t: ThreadId, f: Ref, cb: Script)
      requires t in threads && f in fibers && fibers[f].hasStack
      requires fibers[f].state == TERM || fibers[f].state == INIT || fibers[f].state == EXCEP
      modifies `fibers, `scripts
      ensures View() == DoReset(old(View()), t, f, cb)
    {
      assert fibers[f].hasStack;
      assert fibers[f].state == TERM || fibers[f].state == INIT || fibers[f].state == EXCEP;
      fibers := fibers[f := fibers[f].(cb := Some(cb))];
      var link := if variant == UcLink then threads[t].main else None;
      fibers := fibers[f := fibers[f].(link := link)];
      fibers := fibers[f := fibers[f].(ctx := Entry(f))];
      fibers := fibers[f := fibers[f].(state := INIT, epoch := fibers[f].epoch + 1)];
      scripts := scripts[(f, fibers[f].epoch) := cb];
      assert fibers == DoReset(old(View()), t, f, cb).fibers;
    }

    /** `swapIn`: the thread leaves its own code for the stack of `f`. */
    method SwapIn(t: ThreadId, f: Ref)
      requires t in threads && threads[t].main.Some? && threads[t].main.value in fibers
      requires f in fibers && f != threads[t].main.value && fibers[f].state != EXEC
      modifies `fibers, `threads, `trace
      ensures View() == DoSwapIn(old(View()), t, f)
    {
      SetThis(t, Some(f));
      assert fibers[f].state != EXEC;
      fibers := fibers[f := fibers[f].(state := EXEC)];
      threads := threads[t := threads[t].(calls := threads[t].calls + 1)];
      SwapContext(t, threads[t].main.value, ThreadCode(threads[t].calls), f);
      trace := trace + [Mark(f, fibers[f].epoch, SwappedIn)];
      assert fibers == DoSwapIn(old(View()), t, f).fibers;
      assert threads == DoSwapIn(old(View()), t, f).threads;
    }

    /** `swapOut`: the thread goes back to its own code; `saved` is where `f` will go on. */
    method SwapOut(t: ThreadId, f: Ref, saved: Context)
      requires t in threads && threads[t].main.Some? && threads[t].main.value in fibers
      requires f in fibers && f != threads[t].main.value
      modifies `fibers, `threads
      ensures View() == BackToMain(SetFiber(old(View()), f, old(fibers)[f].(ctx := saved)), t)
    {
      SetThis(t, threads[t].main);
      SwapContext(t, f, saved, threads[t].main.value);
      assert threads == BackToMain(SetFiber(old(View()), f, old(fibers)[f].(ctx := saved)), t).threads;
    }

    /** The first statement of `MainFunc`: it holds a reference to its own fiber from now on. */
    method EnterMainFunc(t: ThreadId, f: Ref)
      requires t in threads && threads[t].cpu == Entry(f) && f in fibers
      requires threads[t].cur == Some(f)
      modifies `fibers, `threads, `trace
      ensures View() == DoEnter(old(View()), t)
    {
      var cur := threads[t].cur;
      CountRef(cur.value, 1);
      assert cur.Some?;
      threads := threads[t := threads[t].(cpu := Running(f, 0))];
      trace := trace + [Mark(f, fibers[f].epoch, Started)];
    }

    /** A step of the callback inside the fiber. */
    method Work(t: ThreadId)
      requires Enabled(View(), FiberModel.Act(t))
      modifies `threads, `trace
      ensures View() == DoAct(old(View()), t)
    {
      var c := threads[t].cpu;
      threads := threads[t := threads[t].(cpu := Running(c.f, c.pc + 1))];
      trace := trace + [Mark(c.f, fibers[c.f].epoch, Did(ScriptOf(View(), c.f).actions[c.pc]))];
    }

    /** `YieldToReady` (`to == READY`) and `YieldToHold` up to the point where the thread leaves. */
    method YieldTo(t: ThreadId, to: State)
      requires Enabled(View(), FiberModel.Yield(t)) && threads[t].cur == Some(threads[t].cpu.f)
      requires to == YieldState(ScriptOf(View(), threads[t].cpu.f).actions[threads[t].cpu.pc])
      requires threads[t].main.Some? && threads[t].main.value in fibers && threads[t].main.value != threads[t].cpu.f
      modifies `fibers, `threads, `trace
      ensures View() == DoYield(old(View()), t)
    {
      var c := threads[t].cpu;
      var cur := threads[t].cur.value;
      CountRef(cur, 1);
      fibers := fibers[cur := fibers[cur].(state := to)];
      SwapOut(t, cur, InYield(cur, c.pc + 1));
      trace := trace + [Mark(cur, fibers[cur].epoch, Did(ScriptOf(View(), cur).actions[c.pc]))];
      assert fibers == DoYield(old(View()), t).fibers;
    }

    /** The rest of `YieldToReady` or `YieldToHold` once the fiber is resumed: its local pointer goes away. */
    method LeaveYield(t: ThreadId, f: Ref)
      requires t in threads && threads[t].cpu.InYield? && threads[t].cpu.f == f && f in fibers && fibers[f].refs > 1
      modifies `fibers, `threads
      ensures View() == DoResume(old(View()), t)
    {
      CountRef(f, -1);
      threads := threads[t := threads[t].(cpu := Running(f, threads[t].cpu.pc))];
    }

    /** The end of `MainFunc`, from the return or the exception of the callback on, in both builds. */
    method LeaveMainFunc(t: ThreadId, throws: bool)
      requires Enabled(View(), FiberModel.Finish(t)) && threads[t].cur == Some(threads[t].cpu.f)
      requires throws == ScriptOf(View(), threads[t].cpu.f).throws
      requires threads[t].main.Some? && threads[t].main.value in fibers && threads[t].main.value != threads[t].cpu.f
      requires var fb := fibers[threads[t].cpu.f];
               fb.refs > 1 && (variant == UcLink ==> fb.link.Some? && fb.link.value in fibers && fb.link.value != threads[t].cpu.f)
      modifies `fibers, `threads, `trace
      ensures View() == DoFinish(old(View()), t)
    {
      var cur := threads[t].cpu.f;
      if throws {
        fibers := fibers[cur := fibers[cur].(state := EXCEP)];
      } else {
        fibers := fibers[cur := fibers[cur].(cb := None)];
        fibers := fibers[cur := fibers[cur].(state := TERM)];
      }
      ReturnToMain(t, cur);
      trace := trace + [Mark(cur, fibers[cur].epoch, Finished)];
      assert fibers == DoFinish(old(View()), t).fibers;
      assert threads == DoFinish(old(View()), t).threads;
    }

    /** The two ways back: by returning to `uc_link`, or by dropping `cur` and calling `swapOut`. */
    method ReturnToMain(t: ThreadId, cur: Ref)
      requires t in threads && threads[t].main.Some? && threads[t].main.value in fibers
      requires cur in fibers && cur != threads[t].main.value && fibers[cur].refs > 1
      requires variant == UcLink ==> fibers[cur].link.Some? && fibers[cur].link.value in fibers && fibers[cur].link.value != cur
      modifies `fibers, `threads
      ensures var fb := old(fibers)[cur];
              var left := fb.(refs := fb.refs - 1);
              View() == if variant == UcLink then FollowLink(SetFiber(old(View()), cur, left), t, fb.link.value)
                        else BackToMain(SetFiber(old(View()), cur, left.(ctx := Dead(cur))), t)
    {
      if variant == UcLink {
        SetThis(t, threads[t].main);
        CountRef(cur, -1);
        threads := threads[t := threads[t].(cpu := fibers[fibers[cur].link.value].ctx)];
        assert threads == old(threads)[t := threads[t]];
      } else {
        CountRef(cur, -1);
        SwapOut(t, cur, Dead(cur));
        ghost var fb := old(fibers)[cur];
        assert fibers == old(fibers)[cur := fb.(refs := fb.refs - 1, ctx := Dead(cur))];
      }
    }

    // ----- References -----

    /** The end of one `shared_ptr`; the last one runs `~Fiber` on thread `t`. */
    method DropRef(t: ThreadId, f: Ref)
      requires f in fibers && fibers[f].refs > 0 && t in threads && count > 0
      requires fibers[f].refs == 1 && fibers[f].hasStack ==> fibers[f].state == TERM || fibers[f].state == INIT || fibers[f].state == EXCEP
      requires !fibers[f].hasStack ==> fibers[f].cb == None && fibers[f].state == EXEC
      modifies `fibers, `threads, `count
      ensures View() == Release(old(View()), t, f)
    {
      if fibers[f].refs > 1 {
        CountRef(f, -1);
        return;
      }
      count := count - 1;
      if fibers[f].hasStack {
        assert fibers[f].state == TERM || fibers[f].state == INIT || fibers[f].state == EXCEP;
      } else {
        assert fibers[f].cb == None;
        assert fibers[f].state == EXEC;
        if threads[t].cur == Some(f) {
          SetThis(t, None);
        }
      }
      fibers := fibers - {f};
    }

    method CopyHandle(f: Ref)
      requires f in fibers
      modifies `fibers
      ensures View() == AddHandle(old(View()), f)
    {
      fibers := fibers[f := fibers[f].(refs := fibers[f].refs + 1, handles := fibers[f].handles + 1)];
    }

    method DropHandle(t: ThreadId, f: Ref)
      requires Held(View(), f) && fibers[f].refs > 0 && t in threads && count > 0
      requires fibers[f].refs == 1 && fibers[f].hasStack ==> fibers[f].state == TERM || fibers[f].state == INIT || fibers[f].state == EXCEP
      requires !fibers[f].hasStack ==> fibers[f].cb == None && fibers[f].state == EXEC
      modifies `fibers, `threads, `count
      ensures View() == DoDrop(old(View()), t, f)
    {
      fibers := fibers[f := fibers[f].(handles := fibers[f].handles - 1)];
      DropRef(t, f);
    }

    /** A thread ends and with it `t_threadFiber`. */
    method EndThread(t: ThreadId)
      requires t in threads && (threads[t].main.Some? ==> count > 0 && threads[t].main.value in fibers)
      requires threads[t].main.Some? ==> var fb := fibers[threads[t].main.value]; fb.refs > 0 && !fb.hasStack && fb.cb == None && fb.state == EXEC
      modifies `fibers, `threads, `count
      ensures View() == DoExit(old(View()), t)
    {
      if threads[t].main.Some? {
        DropRef(t, threads[t].main.value);
      }
      threads := threads - {t};
    }

    // ----- Any call, in any reachable state -----

    /**
     * Under the client rules every call finds what it asserts and dereferences, is the step
     * of the state machine, and leaves a valid system.
     */
    method Do(op: Op)
      requires Valid() && Enabled(View(), op)
      modifies this
      ensures View() == Step(old(View()), op) && Valid()
    {
      ghost var s := View();
      StepKeeps(s, op);
      if op.Spawn? {
        threads := threads[nextThread := Locals(None, None, ThreadCode(0), 0)];
        nextThread := nextThread + 1;
      } else if op.Enter? || op.Act? || op.Yield? || op.Resume? || op.Finish? {
        DoInChild(op);
      } else {
        DoInClient(op);
      }
    }

    method DoInChild(op: Op)
      requires Valid() && Enabled(View(), op) && (op.Enter? || op.Act? || op.Yield? || op.Resume? || op.Finish?)
      modifies this
      ensures View() == Step(old(View()), op)
    {
      ghost var s := View();
      StepIsDefined(s, op);
      CurrentChild(s, op.t);
      var c := threads[op.t].cpu;
      match op
      case Enter(t) => EnterMainFunc(t, c.f);
      case Act(t) => Work(t);
      case Yield(t) =>
        ghost var a := ScriptOf(s, c.f).actions[c.pc];
        assert FiberOk(s, c.f);
        var yieldsReady := fibers[c.f].cb.value.actions[c.pc].YieldReady?;
        YieldTo(t, if yieldsReady then READY else HOLD);
      case Resume(t) => LeaveYield(t, c.f);
      case Finish(t) =>
        assert FiberOk(s, c.f);
        LeaveMainFunc(t, fibers[c.f].cb.value.throws);
    }

    method DoInClient(op: Op)
      requires Valid() && Enabled(View(), op)
      requires op.GetThis? || op.Construct? || op.Reset? || op.SwapIn? || op.Copy? || op.Drop? || op.Exit?
      modifies this
      ensures View() == Step(old(View()), op)
    {
      ghost var s := View();
      StepIsDefined(s, op);
      match op
      case GetThis(t) =>
        var p := GetThis(t);
      case Construct(t, cb) =>
        CurrentMain(s, t);
        var r := Construct(t, cb);
      case Reset(t, f, cb) => Reset(t, f, cb);
      case SwapIn(t, f) => SwapIn(t, f);
      case Copy(_, f) => CopyHandle(f);
      case Drop(t, f) =>
        assert FiberOk(s, f);
        DropHandle(t, f);
      case Exit(t) =>
        CurrentMain(s, t);
        if threads[t].main.Some? { assert FiberOk(s, threads[t].main.value); }
        EndThread(t);
    }
  }
}
