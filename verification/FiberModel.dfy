/**
 * Fibers as a state machine: every thread's two thread-local pointers, the machine context
 * it executes, every fiber's fields and reference count, and the two global counters.
 * A step is one library call, or one step of a callback, by one thread; threads interleave
 * freely.
 */
module FiberModel {
  import opened Options

  type Ref = nat      // the address of a fiber, never reused
  type ThreadId = nat // never reused

  const ID_LIMIT: nat := 0x1_0000_0000_0000_0000

  datatype State = INIT | HOLD | EXEC | TERM | READY | EXCEP

  /** What a callback does: pieces of work and yields, then a return or an exception. */
  datatype Action = Work(n: int) | YieldReady | YieldHold
  datatype Script = Script(actions: seq<Action>, throws: bool)

  /** A saved or executing machine context. */
  datatype Context =
    | ThreadCode(pos: nat)          // the thread's own code, after `pos` calls of `swapIn`
    | Entry(f: Ref)                 // the start of `MainFunc` on the stack of `f`
    | Running(f: Ref, pc: nat)      // in the callback, `pc` actions done
    | InYield(f: Ref, pc: nat)      // inside `YieldToReady` or `YieldToHold`, in `swapOut`
    | Dead(f: Ref)                  // behind the last `swapOut` of `MainFunc`

  /**
   * A fiber object. `link` is `m_ctx.uc_link`, the fiber whose saved context is resumed when
   * `MainFunc` returns, and `refs` is the count shared by all its `shared_ptr`s. The last three
   * fields are for specification: how many of those pointers clients hold, the thread that
   * constructed the fiber, and how often it was reset.
   */
  datatype Fiber = Fiber(id: nat, state: State, hasStack: bool, cb: Option<Script>, ctx: Context, link: Option<Ref>,
                         refs: nat, handles: nat, home: ThreadId, epoch: nat)

  /** The thread-locals `t_fiber` and `t_threadFiber`, and the context the thread executes. */
  datatype Locals = Locals(cur: Option<Ref>, main: Option<Ref>, cpu: Context, calls: nat)

  /** What happened to one fiber since its construction or reset number `epoch`. */
  datatype Event = SwappedIn | Started | Did(action: Action) | Finished
  datatype Mark = Mark(f: Ref, epoch: nat, event: Event)

  /** How a finished callback gets back to the main fiber: the two builds of `MainFunc`. */
  datatype Variant = UcLink | SwapOut

  /** `count` is `s_fiber_count` and `lastId` is `s_fiber_id`; `scripts` and `trace` are history. */
  datatype Sys = Sys(variant: Variant, fibers: map<Ref, Fiber>, threads: map<ThreadId, Locals>, lastId: nat, count: nat,
                     nextRef: Ref, nextThread: ThreadId,
                     scripts: map<(Ref, nat), Script>, trace: seq<Mark>)

  function Start(v: Variant): Sys {
    Sys(v, map[], map[], 0, 0, 0, 0, map[], [])
  }

  datatype Op =
    | Spawn
    | GetThis(t: ThreadId)
    | Construct(t: ThreadId, script: Script)
    | Reset(t: ThreadId, f: Ref, script: Script)
    | SwapIn(t: ThreadId, f: Ref)
    | Enter(t: ThreadId)                // `MainFunc` takes its reference and calls the callback
    | Act(t: ThreadId)                  // one piece of work of the running callback
    | Yield(t: ThreadId)                // the callback calls `YieldToReady` or `YieldToHold`
    | Resume(t: ThreadId)               // `swapOut` returns and the yield frame goes away
    | Finish(t: ThreadId)               // the callback returns or throws
    | Copy(t: ThreadId, f: Ref)         // a client copies a `Fiber::ptr`
    | Drop(t: ThreadId, f: Ref)         // a client destroys a `Fiber::ptr`
    | Exit(t: ThreadId)                 // the thread ends and destroys `t_threadFiber`

  // ----- Client rules -----

  /** The thread executes client code: its own, or a callback's. */
  predicate InClient(s: Sys, t: ThreadId) {
    t in s.threads && (s.threads[t].cpu.ThreadCode? || s.threads[t].cpu.Running?)
  }

  predicate InMain(s: Sys, t: ThreadId) {
    t in s.threads && s.threads[t].cpu.ThreadCode?
  }

  predicate Held(s: Sys, f: Ref) {
    f in s.fibers && s.fibers[f].handles > 0
  }

  /** The script of the fiber whose callback the thread executes, if it does. */
  predicate Runs(s: Sys, t: ThreadId) {
    && t in s.threads && s.threads[t].cpu.Running?
    && var f := s.threads[t].cpu.f; f in s.fibers && (f, s.fibers[f].epoch) in s.scripts
  }

  function ScriptOf(s: Sys, f: Ref): Script
    requires f in s.fibers && (f, s.fibers[f].epoch) in s.scripts
  {
    s.scripts[(f, s.fibers[f].epoch)]
  }

  /**
   * When a step may happen. The conditions on `cpu` say where the thread is. The others are
   * the rules clients must keep: children are constructed and resumed by their own thread
   * outside any child, a resumed fiber is new or suspended, and whoever resumes a fiber
   * keeps a reference while it runs.
   */
  predicate Enabled(s: Sys, op: Op) {
    match op
    case Spawn => true
    case GetThis(t) => InClient(s, t)
    case Construct(t, _) => InMain(s, t) && s.lastId + 1 < ID_LIMIT
    case Reset(t, f, _) =>
      && InClient(s, t) && Held(s, f) && s.fibers[f].hasStack && s.fibers[f].home == t
      && (s.fibers[f].state == TERM || s.fibers[f].state == INIT || s.fibers[f].state == EXCEP)
    case SwapIn(t, f) =>
      && InMain(s, t) && Held(s, f) && s.fibers[f].hasStack && s.fibers[f].home == t
      && (s.fibers[f].state == INIT || s.fibers[f].state == HOLD || s.fibers[f].state == READY)
    case Enter(t) => t in s.threads && s.threads[t].cpu.Entry?
    case Act(t) =>
      && Runs(s, t)
      && var c := s.threads[t].cpu; c.pc < |ScriptOf(s, c.f).actions| && ScriptOf(s, c.f).actions[c.pc].Work?
    case Yield(t) =>
      && Runs(s, t)
      && var c := s.threads[t].cpu; c.pc < |ScriptOf(s, c.f).actions| && !ScriptOf(s, c.f).actions[c.pc].Work?
    case Resume(t) => t in s.threads && s.threads[t].cpu.InYield?
    case Finish(t) =>
      Runs(s, t) && var c := s.threads[t].cpu; c.pc == |ScriptOf(s, c.f).actions|
    case Copy(t, f) => InClient(s, t) && Held(s, f)
    case Drop(t, f) =>
      && InClient(s, t) && Held(s, f)
      && (s.fibers[f].hasStack && s.fibers[f].state == EXEC ==> s.fibers[f].handles > 1)
    case Exit(t) => InMain(s, t)
  }

  // ----- Steps -----

  function SetLocals(s: Sys, t: ThreadId, l: Locals): Sys {
    s.(threads := s.threads[t := l])
  }

  function SetFiber(s: Sys, f: Ref, fb: Fiber): Sys {
    s.(fibers := s.fibers[f := fb])
  }

  function Note(s: Sys, f: Ref, e: Event): Sys
    requires f in s.fibers
  {
    s.(trace := s.trace + [Mark(f, s.fibers[f].epoch, e)])
  }

  /** What `m_ctx.uc_link` is set to by a call on thread `t`. */
  function LinkFor(s: Sys, t: ThreadId): Option<Ref>
    requires t in s.threads
  {
    if s.variant == UcLink then s.threads[t].main else None
  }

  /** The private constructor, called by `GetThis` on a thread that has no fiber yet. */
  function MakeMain(s: Sys, t: ThreadId): Sys
    requires t in s.threads
  {
    var m := s.nextRef;
    var l := s.threads[t];
    var fb := Fiber(0, EXEC, false, None, l.cpu, None, 1, 0, t, 0);
    SetLocals(SetFiber(s, m, fb), t, l.(cur := Some(m), main := Some(m)))
      .(nextRef := m + 1, count := s.count + 1)
  }

  function AddRef(s: Sys, f: Ref): Sys
    requires f in s.fibers
  {
    SetFiber(s, f, s.fibers[f].(refs := s.fibers[f].refs + 1))
  }

  function AddHandle(s: Sys, f: Ref): Sys
    requires f in s.fibers
  {
    SetFiber(s, f, s.fibers[f].(refs := s.fibers[f].refs + 1, handles := s.fibers[f].handles + 1))
  }

  /** One `shared_ptr` to `f` goes away on thread `t`; the last one destroys the fiber. */
  function Release(s: Sys, t: ThreadId, f: Ref): Sys
    requires f in s.fibers && s.fibers[f].refs > 0 && t in s.threads && s.count > 0
  {
    var fb := s.fibers[f];
    if fb.refs > 1 then SetFiber(s, f, fb.(refs := fb.refs - 1))
    else
      var l := s.threads[t];
      var s1 := s.(count := s.count - 1, fibers := s.fibers - {f});
      if !fb.hasStack && l.cur == Some(f) then SetLocals(s1, t, l.(cur := None)) else s1
  }

  // ----- One fiber by itself -----

  /** Where a callback stands when it is run alone, from construction or reset to its end. */
  datatype Phase = Fresh | AtEntry | Inside(pc: nat) | Outside(pc: nat) | Ended

  function Next(p: Phase, e: Event, sc: Script): Option<Phase> {
    match (p, e)
    case (Fresh, SwappedIn) => Some(AtEntry)
    case (AtEntry, Started) => Some(Inside(0))
    case (Inside(pc), Did(a)) =>
      if pc < |sc.actions| && sc.actions[pc] == a then Some(if a.Work? then Inside(pc + 1) else Outside(pc + 1)) else None
    case (Inside(pc), Finished) => if pc == |sc.actions| then Some(Ended) else None
    case (Outside(pc), SwappedIn) => Some(Inside(pc))
    case _ => None
  }

  /** The phase reached by the events `h`, or `None` if the script alone does not allow them. */
  function Replay(h: seq<Event>, sc: Script): Option<Phase> {
    if h == [] then Some(Fresh) else
      match Replay(h[..|h| - 1], sc)
      case None => None
      case Some(p) => Next(p, h[|h| - 1], sc)
  }

  /** The events of one fiber and epoch in a trace of all of them. */
  function History(trace: seq<Mark>, f: Ref, epoch: nat): seq<Event> {
    if trace == [] then [] else
      var m := trace[|trace| - 1];
      var h := History(trace[..|trace| - 1], f, epoch);
      if m.f == f && m.epoch == epoch then h + [m.event] else h
  }

  // ----- Invariant -----

  predicate ThreadOk(s: Sys, t: ThreadId)
    requires t in s.threads
  {
    var l := s.threads[t];
    && t < s.nextThread
    && match l.main
       case None => l.cur == None && l.cpu == ThreadCode(l.calls)
       case Some(m) =>
         && m in s.fibers && !s.fibers[m].hasStack && s.fibers[m].home == t
         && l.cur.Some?
         && if l.cur == l.main then l.cpu == ThreadCode(l.calls)
            else
              && s.fibers[m].ctx == ThreadCode(l.calls)
              && l.cur.value in s.fibers && s.fibers[l.cur.value].hasStack
              && s.fibers[l.cur.value].home == t && s.fibers[l.cur.value].state == EXEC
  }

  predicate IsMainOf(s: Sys, r: Ref, t: ThreadId) {
    t in s.threads && s.threads[t].main == Some(r)
  }

  /** The main fiber always runs or waits for a child; its thread holds one reference to it. */
  predicate MainOk(s: Sys, r: Ref)
    requires r in s.fibers
  {
    var fb := s.fibers[r];
    && fb.id == 0 && fb.state == EXEC && fb.cb == None
    && fb.refs == fb.handles + if IsMainOf(s, r, fb.home) then 1 else 0
  }

  /** The context in which a child that is in EXEC runs. */
  predicate Executing(s: Sys, r: Ref)
    requires r in s.fibers
  {
    var t := s.fibers[r].home;
    && t in s.threads && s.threads[t].cur == Some(r) && s.threads[t].main != Some(r)
    && !s.threads[t].cpu.ThreadCode? && !s.threads[t].cpu.Dead? && s.threads[t].cpu.f == r
  }

  /** How many references the frames on the child's own stack hold. */
  function Frames(s: Sys, r: Ref): nat
    requires r in s.fibers && (s.fibers[r].state == EXEC ==> Executing(s, r))
  {
    var fb := s.fibers[r];
    match fb.state
    case INIT => 0
    case TERM => 0
    case EXCEP => 0
    case HOLD => 2
    case READY => 2
    case EXEC =>
      var c := s.threads[fb.home].cpu;
      if c.Entry? then 0 else if c.Running? then 1 else 2
  }

  /** A child of a live thread is linked to the main fiber of that thread, in the build that uses links. */
  predicate LinkOk(s: Sys, r: Ref)
    requires r in s.fibers
  {
    var fb := s.fibers[r];
    && (fb.home in s.threads ==> s.threads[fb.home].main.Some? && fb.link == LinkFor(s, fb.home))
    && (s.variant == SwapOut ==> fb.link == None)
  }

  predicate ChildOk(s: Sys, r: Ref)
    requires r in s.fibers
  {
    var fb := s.fibers[r];
    && 0 < fb.id <= s.lastId
    && (r, fb.epoch) in s.scripts
    && LinkOk(s, r)
    && fb.cb == (if fb.state == TERM then None else Some(ScriptOf(s, r)))
    && (fb.state == INIT ==> fb.ctx == Entry(r))
    && (fb.state == HOLD || fb.state == READY ==> fb.ctx.InYield? && fb.ctx.f == r)
    && (fb.state == EXEC ==> Executing(s, r) && fb.handles > 0)
    && fb.refs == fb.handles + Frames(s, r)
  }

  predicate FiberOk(s: Sys, r: Ref)
    requires r in s.fibers
  {
    && r < s.nextRef && s.fibers[r].home < s.nextThread && s.fibers[r].refs > 0
    && if s.fibers[r].hasStack then ChildOk(s, r) else MainOk(s, r)
  }

  /** The phase of a child, read off its state and the context it saved or executes. */
  function PhaseOf(s: Sys, r: Ref): Phase
    requires r in s.fibers && ChildOk(s, r)
  {
    var fb := s.fibers[r];
    match fb.state
    case INIT => Fresh
    case TERM => Ended
    case EXCEP => Ended
    case HOLD => Outside(fb.ctx.pc)
    case READY => Outside(fb.ctx.pc)
    case EXEC =>
      var c := s.threads[fb.home].cpu;
      if c.Entry? then AtEntry else Inside(c.pc)
  }

  predicate LifeOk(s: Sys, r: Ref)
    requires r in s.fibers && ChildOk(s, r)
  {
    Replay(History(s.trace, r, s.fibers[r].epoch), ScriptOf(s, r)) == Some(PhaseOf(s, r))
  }

  predicate EpochOk(s: Sys, k: (Ref, nat))
    requires k in s.scripts
  {
    && k.0 < s.nextRef
    && (k.0 in s.fibers ==> k.1 <= s.fibers[k.0].epoch)
    && Replay(History(s.trace, k.0, k.1), s.scripts[k]).Some?
  }

  predicate Threads(s: Sys) {
    forall t :: t in s.threads ==> ThreadOk(s, t)
  }

  predicate Fibers(s: Sys) {
    forall r :: r in s.fibers ==> FiberOk(s, r)
  }

  predicate Counters(s: Sys) {
    && s.count == |s.fibers|
    && s.lastId < ID_LIMIT
    && forall q, r :: q in s.fibers && r in s.fibers && q != r && s.fibers[q].hasStack && s.fibers[r].hasStack
                      ==> s.fibers[q].id != s.fibers[r].id
  }

  predicate Histories(s: Sys) {
    && (forall i :: 0 <= i < |s.trace| ==> (s.trace[i].f, s.trace[i].epoch) in s.scripts)
    && (forall k :: k in s.scripts ==> EpochOk(s, k))
  }

  predicate Lives(s: Sys)
    requires Fibers(s)
  {
    forall r :: r in s.fibers && s.fibers[r].hasStack ==> LifeOk(s, r)
  }

  predicate Inv(s: Sys) {
    Threads(s) && Fibers(s) && Counters(s) && Histories(s) && Lives(s)
  }

  // ----- The transition function -----

  function YieldState(a: Action): State
    requires !a.Work?
  {
    if a.YieldReady? then READY else HOLD
  }

  /** `SetThis(main)` and `swapcontext(own, main)`: the thread resumes its own code. */
  function BackToMain(s: Sys, t: ThreadId): Sys
    requires t in s.threads && s.threads[t].main.Some? && s.threads[t].main.value in s.fibers
  {
    var l := s.threads[t];
    SetLocals(s, t, l.(cur := l.main, cpu := s.fibers[l.main.value].ctx))
  }

  /** `SetThis(main)` and a return from `MainFunc`: the machine resumes the context `m` the fiber is linked to. */
  function FollowLink(s: Sys, t: ThreadId, m: Ref): Sys
    requires t in s.threads && m in s.fibers
  {
    var l := s.threads[t];
    SetLocals(s, t, l.(cur := l.main, cpu := s.fibers[m].ctx))
  }

  function DoGetThis(s: Sys, t: ThreadId): Sys
    requires Threads(s) && t in s.threads && (s.threads[t].cur.Some? ==> s.threads[t].cur.value in s.fibers)
  {
    var s1 := if s.threads[t].cur.Some? then s else MakeMain(s, t);
    AddHandle(s1, s1.threads[t].cur.value)
  }

  function AddChild(s: Sys, t: ThreadId, script: Script): Sys
    requires t in s.threads
  {
    var r := s.nextRef;
    SetFiber(s, r, Fiber(s.lastId + 1, INIT, true, Some(script), Entry(r), LinkFor(s, t), 1, 1, t, 0))
      .(lastId := s.lastId + 1, count := s.count + 1, nextRef := r + 1, scripts := s.scripts[(r, 0) := script])
  }

  function DoConstruct(s: Sys, t: ThreadId, script: Script): Sys
    requires t in s.threads
  {
    AddChild(if s.threads[t].main.Some? then s else MakeMain(s, t), t, script)
  }

  /** `reset`, called by thread `t`: the new link is the main fiber of the calling thread. */
  function DoReset(s: Sys, t: ThreadId, f: Ref, script: Script): Sys
    requires f in s.fibers && t in s.threads
  {
    var fb := s.fibers[f];
    SetFiber(s, f, fb.(cb := Some(script), ctx := Entry(f), link := LinkFor(s, t), state := INIT, epoch := fb.epoch + 1))
      .(scripts := s.scripts[(f, fb.epoch + 1) := script])
  }

  function DoSwapIn(s: Sys, t: ThreadId, f: Ref): Sys
    requires t in s.threads && s.threads[t].main.Some? && s.threads[t].main.value in s.fibers
    requires f in s.fibers && f != s.threads[t].main.value
  {
    var l, fb := s.threads[t], s.fibers[f];
    var m := l.main.value;
    var s1 := SetFiber(SetFiber(s, f, fb.(state := EXEC)), m, s.fibers[m].(ctx := ThreadCode(l.calls + 1)));
    Note(SetLocals(s1, t, l.(cur := Some(f), cpu := fb.ctx, calls := l.calls + 1)), f, SwappedIn)
  }

  function DoEnter(s: Sys, t: ThreadId): Sys
    requires t in s.threads && s.threads[t].cpu.Entry? && s.threads[t].cpu.f in s.fibers
  {
    var f := s.threads[t].cpu.f;
    Note(SetLocals(AddRef(s, f), t, s.threads[t].(cpu := Running(f, 0))), f, Started)
  }

  function DoAct(s: Sys, t: ThreadId): Sys
    requires Enabled(s, Act(t))
  {
    var c := s.threads[t].cpu;
    Note(SetLocals(s, t, s.threads[t].(cpu := Running(c.f, c.pc + 1))), c.f, Did(ScriptOf(s, c.f).actions[c.pc]))
  }

  function DoYield(s: Sys, t: ThreadId): Sys
    requires Enabled(s, Yield(t)) && s.threads[t].main.Some? && s.threads[t].main.value in s.fibers
  {
    var c := s.threads[t].cpu;
    var a, fb := ScriptOf(s, c.f).actions[c.pc], s.fibers[c.f];
    var s1 := SetFiber(s, c.f, fb.(refs := fb.refs + 1, state := YieldState(a), ctx := InYield(c.f, c.pc + 1)));
    Note(BackToMain(s1, t), c.f, Did(a))
  }

  function DoResume(s: Sys, t: ThreadId): Sys
    requires t in s.threads && s.threads[t].cpu.InYield? && s.threads[t].cpu.f in s.fibers
    requires s.fibers[s.threads[t].cpu.f].refs > 1
  {
    var c := s.threads[t].cpu;
    var fb := s.fibers[c.f];
    SetLocals(SetFiber(s, c.f, fb.(refs := fb.refs - 1)), t, s.threads[t].(cpu := Running(c.f, c.pc)))
  }

  function DoFinish(s: Sys, t: ThreadId): Sys
    requires Enabled(s, Finish(t)) && s.threads[t].main.Some? && s.threads[t].main.value in s.fibers
    requires var fb := s.fibers[s.threads[t].cpu.f];
             fb.refs > 1 && (s.variant == UcLink ==> fb.link.Some? && fb.link.value in s.fibers)
  {
    var f := s.threads[t].cpu.f;
    var fb := s.fibers[f];
    var done := if ScriptOf(s, f).throws then fb.(state := EXCEP) else fb.(cb := None, state := TERM);
    var left := done.(refs := fb.refs - 1);
    var back := if s.variant == UcLink then FollowLink(SetFiber(s, f, left), t, fb.link.value)
                else BackToMain(SetFiber(s, f, left.(ctx := Dead(f))), t);
    Note(back, f, Finished)
  }

  function DoDrop(s: Sys, t: ThreadId, f: Ref): Sys
    requires t in s.threads && Held(s, f) && s.fibers[f].refs > 0 && s.count > 0
  {
    Release(SetFiber(s, f, s.fibers[f].(handles := s.fibers[f].handles - 1)), t, f)
  }

  function DoExit(s: Sys, t: ThreadId): Sys
    requires t in s.threads && (s.threads[t].main.Some? ==> s.count > 0)
    requires s.threads[t].main.Some? ==> s.threads[t].main.value in s.fibers && s.fibers[s.threads[t].main.value].refs > 0
  {
    var s1 := if s.threads[t].main.Some? then Release(s, t, s.threads[t].main.value) else s;
    s1.(threads := s1.threads - {t})
  }

  /** On a thread that executes a fiber's stack, that fiber is the current one and a child in EXEC. */
  lemma CurrentChild(s: Sys, t: ThreadId)
    requires Threads(s) && Fibers(s) && t in s.threads && !s.threads[t].cpu.ThreadCode?
    ensures var l := s.threads[t];
            && l.main.Some? && l.main.value in s.fibers && l.main != l.cur && !l.cpu.Dead?
            && l.cur == Some(l.cpu.f) && l.cpu.f in s.fibers
            && s.fibers[l.cpu.f].hasStack && s.fibers[l.cpu.f].state == EXEC && s.fibers[l.cpu.f].home == t
  {
    assert ThreadOk(s, t);
    assert FiberOk(s, s.threads[t].cur.value);
  }

  /** On a thread that executes its own code, the current fiber is the main one, if there is one. */
  lemma CurrentMain(s: Sys, t: ThreadId)
    requires Threads(s) && Fibers(s) && t in s.threads && s.threads[t].cpu.ThreadCode?
    ensures var l := s.threads[t];
            && l.cur == l.main && l.cpu == ThreadCode(l.calls)
            && (l.main.Some? ==> l.main.value in s.fibers && !s.fibers[l.main.value].hasStack && s.fibers[l.main.value].home == t)
  {
    assert ThreadOk(s, t);
    if s.threads[t].cur.Some? { assert FiberOk(s, s.threads[t].cur.value); }
  }

  lemma SomeFiber(s: Sys, f: Ref)
    requires Fibers(s) && Counters(s) && f in s.fibers
    ensures s.count > 0 && FiberOk(s, f)
  {
    assert |s.fibers| != 0;
  }

  /** Every client rule suffices for the step: nothing it dereferences can be missing. */
  lemma StepIsDefined(s: Sys, op: Op)
    requires Inv(s) && Enabled(s, op) && !op.Spawn?
    ensures op.t in s.threads
    ensures var l := s.threads[op.t]; l.cur.Some? ==> l.cur.value in s.fibers
    ensures op.SwapIn? || op.Yield? || op.Finish? ==> s.threads[op.t].main.Some?
    ensures s.threads[op.t].main.Some? ==> s.threads[op.t].main.value in s.fibers && s.fibers[s.threads[op.t].main.value].refs > 0 && s.count > 0
    ensures op.SwapIn? ==> s.threads[op.t].main != Some(op.f)
    ensures op.Drop? || op.Copy? || op.Reset? || op.SwapIn? ==> op.f in s.fibers && s.fibers[op.f].refs > 0 && s.count > 0
    ensures !s.threads[op.t].cpu.ThreadCode? ==> !s.threads[op.t].cpu.Dead? && s.threads[op.t].cpu.f in s.fibers
    ensures op.Resume? || op.Finish? ==> s.fibers[s.threads[op.t].cpu.f].refs > 1
    ensures op.Finish? && s.variant == UcLink ==> s.fibers[s.threads[op.t].cpu.f].link == s.threads[op.t].main
  {
    var t := op.t;
    if s.threads[t].cpu.ThreadCode? { CurrentMain(s, t); } else { CurrentChild(s, t); SomeFiber(s, s.threads[t].cpu.f); }
    if s.threads[t].main.Some? { SomeFiber(s, s.threads[t].main.value); }
    if op.Drop? || op.Copy? || op.Reset? || op.SwapIn? { SomeFiber(s, op.f); }
  }

  function Step(s: Sys, op: Op): Sys
    requires Inv(s) && Enabled(s, op)
  {
    if op.Spawn? then
      s.(threads := s.threads[s.nextThread := Locals(None, None, ThreadCode(0), 0)], nextThread := s.nextThread + 1)
    else
      StepIsDefined(s, op);
      match op
      case GetThis(t) => DoGetThis(s, t)
      case Construct(t, script) => DoConstruct(s, t, script)
      case Reset(t, f, script) => DoReset(s, t, f, script)
      case SwapIn(t, f) => DoSwapIn(s, t, f)
      case Enter(t) => DoEnter(s, t)
      case Act(t) => DoAct(s, t)
      case Yield(t) => DoYield(s, t)
      case Resume(t) => DoResume(s, t)
      case Finish(t) => DoFinish(s, t)
      case Copy(_, f) => AddHandle(s, f)
      case Drop(t, f) => DoDrop(s, t, f)
      case Exit(t) => DoExit(s, t)
  }
}
