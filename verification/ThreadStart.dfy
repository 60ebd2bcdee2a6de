/**
 * The life of one `Thread`: its constructor, the new thread's `run`, and later calls of `join`
 * and the destructor, interleaved at every access to shared memory.
 */
module ThreadStart {
  import opened Options

  /** The constructing thread and later users of the object. */
  datatype Owner = Constructing | Waiting | Constructed | Destroyed | Failed

  /** Where `run` is in the new thread; the places up to `Notifying` are followed by an access to the object. */
  datatype Runner = NotCreated | ReadingName | WritingId | NamingThread | TakingCallback | Notifying | EnteringCallback | InCallback | Finished

  /** The members of the object; `handle` is whether `m_thread` is not 0. */
  datatype Members = Members(id: Option<nat>, handle: bool, callback: bool, name: string, semaphore: nat)

  /** `localName` is the new thread's own copy of its name; the rest counts what happened. */
  datatype Sys = Sys(owner: Owner, runner: Runner, members: Members, localName: string,
                     calls: nat, joins: nat, detaches: nat)

  datatype Op = CreateOk | CreateFails | WaitReturns | RunStep | JoinOk | JoinFails | Destroy

  /** An access by `run` to the object is its next step. */
  predicate AboutToAccess(r: Runner) {
    r == ReadingName || r == WritingId || r == NamingThread || r == TakingCallback || r == Notifying
  }

  function ProperName(name: string): string {
    if name == "" then "UNKNOW" else name
  }

  function Start(name: string): Sys {
    Sys(Constructing, NotCreated, Members(None, false, true, ProperName(name), 0), "", 0, 0, 0)
  }

  /** A join that succeeds has waited for the thread's end; one that fails throws and may be repeated. */
  predicate Enabled(s: Sys, op: Op) {
    match op
    case CreateOk => s.owner == Constructing
    case CreateFails => s.owner == Constructing
    case WaitReturns => s.owner == Waiting && s.members.semaphore > 0
    case RunStep => s.runner != NotCreated && s.runner != Finished
    case JoinOk => s.owner == Constructed && (s.members.handle ==> s.runner == Finished)
    case JoinFails => s.owner == Constructed && s.members.handle
    case Destroy => s.owner == Constructed
  }

  /** One step of `run`, in the thread with system id `tid`. */
  function RunOn(s: Sys, tid: nat): Sys {
    match s.runner
    case ReadingName => s.(runner := WritingId, localName := s.members.name)
    case WritingId => s.(runner := NamingThread, members := s.members.(id := Some(tid)))
    case NamingThread => s.(runner := TakingCallback)
    case TakingCallback => s.(runner := Notifying, members := s.members.(callback := false))
    case Notifying => s.(runner := EnteringCallback, members := s.members.(semaphore := s.members.semaphore + 1))
    case EnteringCallback => s.(runner := InCallback, calls := s.calls + 1)
    case InCallback => s.(runner := Finished)
    case _ => s
  }

  function Step(s: Sys, tid: nat, op: Op): Sys
    requires Enabled(s, op)
  {
    match op
    case CreateOk => s.(owner := Waiting, runner := ReadingName, members := s.members.(handle := true))
    case CreateFails => s.(owner := Failed)
    case WaitReturns => s.(owner := Constructed, members := s.members.(semaphore := s.members.semaphore - 1))
    case RunStep => RunOn(s, tid)
    case JoinOk => if s.members.handle then s.(members := s.members.(handle := false), joins := s.joins + 1) else s
    case JoinFails => s
    case Destroy => s.(owner := Destroyed, detaches := s.detaches + if s.members.handle then 1 else 0)
  }

  function Run(name: string, tid: nat, ops: seq<Op>): (r: Option<Sys>) {
    if ops == [] then Some(Start(name)) else
      var before, op := Run(name, tid, ops[..|ops| - 1]), ops[|ops| - 1];
      if before.None? || !Enabled(before.value, op) then None else Some(Step(before.value, tid, op))
  }

  // ----- The invariant -----

  predicate Notified(r: Runner) {
    r == EnteringCallback || r == InCallback || r == Finished
  }

  predicate Created(s: Sys) {
    s.owner != Constructing && s.owner != Failed
  }

  predicate Inv(s: Sys, name: string, tid: nat) {
    && (Created(s) <==> s.runner != NotCreated)
    && (s.owner == Constructed || s.owner == Destroyed ==> Notified(s.runner))
    && s.members.semaphore == (if s.owner == Waiting && Notified(s.runner) then 1 else 0)
    && s.members.name == ProperName(name)
    && (s.runner != NotCreated && s.runner != ReadingName ==> s.localName == ProperName(name))
    && s.members.id == (if s.runner == NotCreated || s.runner == ReadingName || s.runner == WritingId then None else Some(tid))
    && (s.members.callback <==> !(s.runner == Notifying || Notified(s.runner)))
    && s.calls == (if s.runner == InCallback || s.runner == Finished then 1 else 0)
    && (s.members.handle <==> Created(s) && s.joins == 0)
    && s.joins + s.detaches <= 1
    && (s.owner == Destroyed ==> s.joins + s.detaches == 1)
    && (s.owner != Destroyed ==> s.detaches == 0)
    && (s.joins > 0 ==> s.runner == Finished)
  }

  lemma StepKeeps(s: Sys, name: string, tid: nat, op: Op)
    requires Inv(s, name, tid) && Enabled(s, op)
    ensures Inv(Step(s, tid, op), name, tid)
  {
  }

  lemma {:induction false} RunKeeps(name: string, tid: nat, ops: seq<Op>)
    ensures var r := Run(name, tid, ops); r.Some? ==> Inv(r.value, name, tid)
  {
    if ops != [] {
      var init, op := ops[..|ops| - 1], ops[|ops| - 1];
      RunKeeps(name, tid, init);
      var before := Run(name, tid, init);
      if before.Some? && Enabled(before.value, op) {
        StepKeeps(before.value, name, tid, op);
      }
    }
  }

  /**
   * In every interleaving `run` is done with the object when the constructor returns: no access
   * is left, the id is set, the callback has been moved out and the name is known to both.
   */
  lemma {:induction false} RunIsDoneWithObjectAtReturn(name: string, tid: nat, ops: seq<Op>)
    requires Run(name, tid, ops).Some?
    ensures var s := Run(name, tid, ops).value;
            && (AboutToAccess(s.runner) ==> s.owner == Waiting)
            && (s.owner == Constructed || s.owner == Destroyed ==>
                  s.members.id == Some(tid) && !s.members.callback && s.localName == s.members.name == if name == "" then "UNKNOW" else name)
  {
    RunKeeps(name, tid, ops);
  }

  /** The callback is entered at most once, also when the object is gone by then, and has been when the thread ends or was joined. */
  lemma {:induction false} CallbackEnteredOnce(name: string, tid: nat, ops: seq<Op>)
    requires Run(name, tid, ops).Some?
    ensures var s := Run(name, tid, ops).value;
            s.calls <= 1 && (s.runner == Finished || s.joins == 1 ==> s.calls == 1)
  {
    RunKeeps(name, tid, ops);
  }

  /**
   * A created thread is joined or detached at most once, exactly once by the time its object is
   * gone, and never both; one that could not be created is neither.
   */
  lemma {:induction false} JoinedOrDetachedOnce(name: string, tid: nat, ops: seq<Op>)
    requires Run(name, tid, ops).Some?
    ensures var s := Run(name, tid, ops).value;
            && s.joins + s.detaches <= 1
            && (s.owner == Destroyed ==> s.joins + s.detaches == 1)
            && (!Created(s) ==> s.joins + s.detaches == 0)
            && (s.joins == 1 ==> s.runner == Finished)
  {
    RunKeeps(name, tid, ops);
  }

  /** The constructor is never stuck: while it waits, either it or the new thread can step. */
  lemma {:induction false} ConstructorGetsThrough(name: string, tid: nat, ops: seq<Op>)
    requires Run(name, tid, ops).Some? && Run(name, tid, ops).value.owner == Waiting
    ensures var s := Run(name, tid, ops).value;
            Enabled(s, WaitReturns) || (AboutToAccess(s.runner) && Enabled(s, RunStep))
  {
    RunKeeps(name, tid, ops);
  }

  // ----- Runs to the end -----

  lemma RunPush(name: string, tid: nat, ops: seq<Op>, s: Sys, op: Op)
    requires Run(name, tid, ops) == Some(s) && Enabled(s, op)
    ensures Run(name, tid, ops + [op]) == Some(Step(s, tid, op))
  {
    assert (ops + [op])[..|ops|] == ops;
  }

  /** From any point of its way `run` gets to its end by itself, having entered the callback. */
  lemma RunFinishes(name: string, tid: nat, ops: seq<Op>, s: Sys) returns (ops1: seq<Op>, s1: Sys)
    requires Run(name, tid, ops) == Some(s) && s.runner != NotCreated
    ensures Run(name, tid, ops1) == Some(s1) && s1.runner == Finished && s1.owner == s.owner && s1.joins == s.joins && s1.calls == 1
    decreases match s.runner case ReadingName => 7 case WritingId => 6 case NamingThread => 5 case TakingCallback => 4
                             case Notifying => 3 case EnteringCallback => 2 case InCallback => 1 case _ => 0
  {
    if s.runner == Finished {
      RunKeeps(name, tid, ops);
      ops1, s1 := ops, s;
    } else {
      RunPush(name, tid, ops, s, RunStep);
      ops1, s1 := RunFinishes(name, tid, ops + [RunStep], Step(s, tid, RunStep));
    }
  }

  lemma Constructs(name: string, tid: nat) returns (ops: seq<Op>, s: Sys)
    ensures Run(name, tid, ops) == Some(s) && s.owner == Constructed && s.runner == Finished && s.joins == 0
  {
    var start := Start(name);
    RunPush(name, tid, [], start, CreateOk);
    ops, s := RunFinishes(name, tid, [] + [CreateOk], Step(start, tid, CreateOk));
    RunKeeps(name, tid, ops);
    RunPush(name, tid, ops, s, WaitReturns);
    ops, s := ops + [WaitReturns], Step(s, tid, WaitReturns);
  }

  /** A thread can be constructed, run, be joined or not, and be destroyed: joined once in the first case, detached once in the second. */
  lemma ThreadCanLive(name: string, tid: nat, join: bool) returns (ops: seq<Op>, s: Sys)
    ensures Run(name, tid, ops) == Some(s) && s.owner == Destroyed && s.calls == 1
    ensures s.joins == (if join then 1 else 0) && s.detaches == if join then 0 else 1
  {
    ops, s := Constructs(name, tid);
    RunKeeps(name, tid, ops);
    if join {
      RunPush(name, tid, ops, s, JoinOk);
      ops, s := ops + [JoinOk], Step(s, tid, JoinOk);
      RunKeeps(name, tid, ops);
    }
    RunPush(name, tid, ops, s, Destroy);
    ops, s := ops + [Destroy], Step(s, tid, Destroy);
  }

  // ----- The object in place -----

  /** The `Thread` object, with the semaphore's value, and both threads that work on it. */
  class Thread {
    var id: Option<nat>
    var handle: bool
    var callback: bool
    var name: string
    var semaphore: nat
    var owner: Owner
    var runner: Runner
    var localName: string
    ghost var calls: nat
    ghost var joins: nat
    ghost var detaches: nat

    ghost function View(): Sys
      reads this
    {
      Sys(owner, runner, Members(id, handle, callback, name, semaphore), localName, calls, joins, detaches)
    }

    /** The constructor up to `pthread_create`. */
    constructor (name: string)
      ensures View() == Start(name) && forall tid :: Inv(View(), name, tid)
    {
      id, handle, callback, semaphore := None, false, true, 0;
      this.name := if name == "" then "UNKNOW" else name;
      owner, runner, localName := Constructing, NotCreated, "";
      calls, joins, detaches := 0, 0, 0;
    }

    /** `pthread_create`, whose result is `ok`; without it the constructor throws. */
    method Create(ok: bool, ghost tid: nat)
      requires owner == Constructing
      modifies this
      ensures View() == Step(old(View()), tid, if ok then CreateOk else CreateFails)
    {
      if !ok {
        owner := Failed;
        return;
      }
      owner, runner, handle := Waiting, ReadingName, true;
    }

    /** The constructor's wait on the semaphore returns. */
    method WaitForStart(ghost tid: nat)
      requires Enabled(View(), WaitReturns)
      modifies this
      ensures View() == Step(old(View()), tid, WaitReturns)
    {
      semaphore := semaphore - 1;
      owner := Constructed;
    }

    /** The next access of `run`. */
    method Continue(tid: nat)
      requires Enabled(View(), RunStep)
      modifies this
      ensures View() == Step(old(View()), tid, RunStep)
    {
      match runner {
        case ReadingName => localName, runner := name, WritingId;
        case WritingId => id, runner := Some(tid), NamingThread;
        case NamingThread => runner := TakingCallback;
        case TakingCallback => callback, runner := false, Notifying;
        case Notifying => semaphore, runner := semaphore + 1, EnteringCallback;
        case EnteringCallback => calls, runner := calls + 1, InCallback;
        case InCallback => runner := Finished;
      }
    }

    /** `join`; `ok` is the result of `pthread_join`, and a failure leaves the handle for another try. */
    method Join(ok: bool, ghost tid: nat)
      requires Enabled(View(), if ok || !handle then JoinOk else JoinFails)
      modifies this
      ensures View() == Step(old(View()), tid, if ok || !old(handle) then JoinOk else JoinFails)
    {
      if handle {
        if !ok {
          return;
        }
        handle := false;
        joins := joins + 1;
      }
    }

    /** The destructor. */
    method Destruct(ghost tid: nat)
      requires owner == Constructed
      modifies this
      ensures View() == Step(old(View()), tid, Destroy)
    {
      if handle {
        detaches := detaches + 1;
      }
      owner := Destroyed;
    }
  }
}
