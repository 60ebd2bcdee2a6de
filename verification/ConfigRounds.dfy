/**
 * Concurrent calls of `setValue` on one variable: a round of notifications under the read
 * lock, then the write under the write lock, interleaved over any number of threads.
 */
module ConfigRounds {
  import opened Options
  import opened Seqs
  import Variable = ConfigVariable

  type ThreadId = nat

  /** Where a thread is in `setValue`. The read lock is held in `Notifying`, the write lock in `Writing`. */
  datatype Place<T> =
    | Outside
    | Notifying(v: T, round: nat, told: nat)
    | Announced(v: T, round: nat)
    | Writing(v: T, round: nat)

  /** A call of a listener, and the round it belongs to. */
  datatype Notice<T> = Notice(round: nat, call: Variable.Call<T>)

  /** What a round set out to announce, and to whom. */
  datatype Plan<T> = Plan(before: T, after: T, ids: seq<nat>)

  /** `ids` are the keys of the registered listeners in ascending order, `lastId` is the last one handed out. */
  datatype Sys<T> = Sys(val: T, ids: seq<nat>, lastId: nat, places: map<ThreadId, Place<T>>,
                        plans: seq<Plan<T>>, calls: seq<Notice<T>>, written: seq<nat>)

  datatype Op<T> =
    | Begin(t: ThreadId, v: T)     // read-lock and compare
    | Notify(t: ThreadId)          // call the next listener
    | Throw(t: ThreadId)           // that listener throws, which ends the round without a write
    | EndRead(t: ThreadId)
    | BeginWrite(t: ThreadId)      // write-lock
    | EndWrite(t: ThreadId)        // write the value and unlock
    | Add                          // `addListener`, under the write lock
    | Delete(id: nat)              // `delListener`, under the write lock
    | Clear                        // `clearListener`, under the write lock

  predicate NoReader<T>(s: Sys<T>) {
    forall t :: t in s.places ==> !s.places[t].Notifying?
  }

  predicate NoWriter<T>(s: Sys<T>) {
    forall t :: t in s.places ==> !s.places[t].Writing?
  }

  predicate Enabled<T(==)>(s: Sys<T>, op: Op<T>) {
    match op
    case Begin(t, _) => (t in s.places ==> s.places[t].Outside?) && NoWriter(s)
    case Notify(t) => t in s.places && s.places[t].Notifying? && s.places[t].told < |s.ids|
    case Throw(t) => t in s.places && s.places[t].Notifying? && s.places[t].told > 0
    case EndRead(t) => t in s.places && s.places[t].Notifying? && s.places[t].told == |s.ids|
    case BeginWrite(t) => t in s.places && s.places[t].Announced? && NoReader(s) && NoWriter(s)
    case EndWrite(t) => t in s.places && s.places[t].Writing?
    case _ => NoReader(s) && NoWriter(s)
  }

  function NoticeOf<T>(round: nat, id: nat, before: T, after: T): Notice<T> {
    Notice(round, Variable.Call(id, before, after))
  }

  function Step<T(==)>(s: Sys<T>, op: Op<T>): Sys<T>
    requires Enabled(s, op)
  {
    match op
    case Begin(t, v) =>
      if v == s.val then s
      else s.(places := s.places[t := Notifying(v, |s.plans|, 0)], plans := s.plans + [Plan(s.val, v, s.ids)])
    case Notify(t) =>
      var p := s.places[t];
      s.(places := s.places[t := p.(told := p.told + 1)], calls := s.calls + [NoticeOf(p.round, s.ids[p.told], s.val, p.v)])
    case Throw(t) => s.(places := s.places[t := Outside])
    case EndRead(t) => s.(places := s.places[t := Announced(s.places[t].v, s.places[t].round)])
    case BeginWrite(t) => s.(places := s.places[t := Writing(s.places[t].v, s.places[t].round)])
    case EndWrite(t) =>
      s.(val := s.places[t].v, places := s.places[t := Outside], written := s.written + [s.places[t].round])
    case Add => s.(ids := s.ids + [s.lastId + 1], lastId := s.lastId + 1)
    case Delete(id) => s.(ids := Except(s.ids, id))
    case Clear => s.(ids := [])
  }

  // ----- Invariant -----

  /** The calls of one round, in order. */
  function OfRound<T>(calls: seq<Notice<T>>, round: nat): seq<Notice<T>> {
    if calls == [] then [] else
      var c := calls[|calls| - 1];
      OfRound(calls[..|calls| - 1], round) + if c.round == round then [c] else []
  }

  /** The first `n` calls a plan asks for. */
  function Planned<T>(plan: Plan<T>, round: nat, n: nat): seq<Notice<T>>
    requires n <= |plan.ids|
  {
    if n == 0 then [] else Planned(plan, round, n - 1) + [NoticeOf(round, plan.ids[n - 1], plan.before, plan.after)]
  }

  /** All listeners of the round were told, all of them of the same change. */
  ghost predicate Complete<T>(s: Sys<T>, round: nat) {
    round < |s.plans| && OfRound(s.calls, round) == Planned(s.plans[round], round, |s.plans[round].ids|)
  }

  ghost predicate PlaceOk<T>(s: Sys<T>, t: ThreadId)
    requires t in s.places
  {
    match s.places[t]
    case Outside => true
    case Notifying(v, r, n) =>
      && r < |s.plans| && s.plans[r] == Plan(s.val, v, s.ids) && n <= |s.ids|
      && OfRound(s.calls, r) == Planned(s.plans[r], r, n)
    case Announced(v, r) => Complete(s, r) && s.plans[r].after == v
    case Writing(v, r) => Complete(s, r) && s.plans[r].after == v
  }

  /** The round a thread is working on. */
  function RoundAt<T>(s: Sys<T>, t: ThreadId): nat
    requires t in s.places && !s.places[t].Outside?
  {
    s.places[t].round
  }

  ghost predicate Places<T>(s: Sys<T>) {
    forall t :: t in s.places ==> PlaceOk(s, t)
  }

  /** The two locks: a writer is alone. */
  predicate Exclusive<T>(s: Sys<T>) {
    forall t, u :: t in s.places && u in s.places && t != u && s.places[t].Writing? ==> !s.places[u].Writing? && !s.places[u].Notifying?
  }

  /** No two threads work on the same round, and none on one that was written. */
  predicate OwnRounds<T>(s: Sys<T>) {
    && (forall t, u :: t in s.places && u in s.places && t != u && !s.places[t].Outside? && !s.places[u].Outside?
                       ==> RoundAt(s, t) != RoundAt(s, u))
    && (forall i, t :: 0 <= i < |s.written| && t in s.places && !s.places[t].Outside? ==> s.written[i] != RoundAt(s, t))
  }

  /** A call announces what its round planned. */
  ghost predicate CallOk<T>(s: Sys<T>, c: Notice<T>) {
    c.round < |s.plans| && c.call.before == s.plans[c.round].before && c.call.after == s.plans[c.round].after
  }

  ghost predicate Rounds<T>(s: Sys<T>) {
    && (forall r :: 0 <= r < |s.plans| ==> s.plans[r].before != s.plans[r].after)
    && (forall i :: 0 <= i < |s.calls| ==> CallOk(s, s.calls[i]))
    && (forall i :: 0 <= i < |s.written| ==> Complete(s, s.written[i]))
  }

  ghost predicate Stored<T>(s: Sys<T>, initial: T) {
    && (s.written != [] ==> s.written[|s.written| - 1] < |s.plans|)
    && s.val == if s.written == [] then initial else s.plans[s.written[|s.written| - 1]].after
  }

  ghost predicate Inv<T>(s: Sys<T>, initial: T) {
    Places(s) && Exclusive(s) && OwnRounds(s) && Rounds(s) && Stored(s, initial)
  }

  lemma NoticesPush<T>(calls: seq<Notice<T>>, c: Notice<T>, round: nat)
    ensures OfRound(calls + [c], round) == OfRound(calls, round) + if c.round == round then [c] else []
  {
    PushInit(calls, c);
  }

  lemma {:induction false} NoCalls<T>(calls: seq<Notice<T>>, round: nat)
    requires forall i :: 0 <= i < |calls| ==> calls[i].round < round
    ensures OfRound(calls, round) == []
  {
    if calls != [] { NoCalls(calls[..|calls| - 1], round); }
  }

  predicate RoundsExist<T>(s: Sys<T>) {
    forall t :: t in s.places && !s.places[t].Outside? ==> RoundAt(s, t) < |s.plans|
  }

  lemma PlacesExist<T>(s: Sys<T>)
    requires Places(s)
    ensures RoundsExist(s)
  {
    forall t | t in s.places && !s.places[t].Outside? ensures RoundAt(s, t) < |s.plans| { assert PlaceOk(s, t); }
  }

  lemma LocksKeep<T>(s: Sys<T>, op: Op<T>)
    requires Enabled(s, op) && Exclusive(s) && OwnRounds(s) && RoundsExist(s)
    requires forall i :: 0 <= i < |s.written| ==> s.written[i] < |s.plans|
    ensures Exclusive(Step(s, op)) && OwnRounds(Step(s, op))
  {
  }

  lemma NewPlan<T>(s: Sys<T>)
    requires Rounds(s)
    ensures OfRound(s.calls, |s.plans|) == []
  {
    forall i | 0 <= i < |s.calls| ensures s.calls[i].round < |s.plans| { assert CallOk(s, s.calls[i]); }
    NoCalls(s.calls, |s.plans|);
  }

  /** A round whose calls and plan did not change is as complete as before. */
  lemma CompleteStays<T>(s: Sys<T>, s1: Sys<T>, r: nat)
    requires Complete(s, r) && s.plans <= s1.plans && OfRound(s1.calls, r) == OfRound(s.calls, r)
    ensures Complete(s1, r)
  {
  }

  lemma BeginKeeps<T>(s: Sys<T>, t: ThreadId, v: T)
    requires Places(s) && Rounds(s) && Enabled(s, Begin(t, v))
    ensures Places(Step(s, Begin(t, v))) && Rounds(Step(s, Begin(t, v)))
  {
    if v != s.val {
      var s1 := Step(s, Begin(t, v));
      NewPlan(s);
      forall u | u in s1.places ensures PlaceOk(s1, u) { if u != t { assert PlaceOk(s, u); } }
      forall i | 0 <= i < |s1.calls| ensures CallOk(s1, s1.calls[i]) { assert CallOk(s, s.calls[i]); }
      forall i | 0 <= i < |s1.written| ensures Complete(s1, s1.written[i]) { CompleteStays(s, s1, s.written[i]); }
    }
  }

  lemma NotifyCalls<T>(s: Sys<T>, t: ThreadId, r: nat)
    requires Enabled(s, Notify(t)) && r != s.places[t].round
    ensures OfRound(Step(s, Notify(t)).calls, r) == OfRound(s.calls, r)
  {
    NoticesPush(s.calls, Step(s, Notify(t)).calls[|s.calls|], r);
  }

  lemma NotifyOwn<T>(s: Sys<T>, t: ThreadId)
    requires Enabled(s, Notify(t)) && PlaceOk(s, t)
    ensures PlaceOk(Step(s, Notify(t)), t)
  {
    NoticesPush(s.calls, Step(s, Notify(t)).calls[|s.calls|], s.places[t].round);
  }

  lemma NotifyKeeps<T>(s: Sys<T>, t: ThreadId)
    requires Places(s) && OwnRounds(s) && Rounds(s) && Enabled(s, Notify(t))
    ensures Places(Step(s, Notify(t))) && Rounds(Step(s, Notify(t)))
  {
    var s1 := Step(s, Notify(t));
    assert PlaceOk(s, t);
    NotifyOwn(s, t);
    forall u | u in s1.places ensures PlaceOk(s1, u) {
      if u != t {
        assert PlaceOk(s, u);
        if !s.places[u].Outside? { NotifyCalls(s, t, s.places[u].round); }
      }
    }
    forall i | 0 <= i < |s1.calls| ensures CallOk(s1, s1.calls[i]) {
      if i < |s.calls| { assert CallOk(s, s.calls[i]); }
    }
    forall i | 0 <= i < |s1.written| ensures Complete(s1, s1.written[i]) {
      NotifyCalls(s, t, s.written[i]);
      CompleteStays(s, s1, s.written[i]);
    }
  }

  lemma OtherKeeps<T>(s: Sys<T>, op: Op<T>)
    requires Places(s) && Exclusive(s) && Rounds(s) && Enabled(s, op) && !op.Begin? && !op.Notify?
    ensures Places(Step(s, op)) && Rounds(Step(s, op))
  {
    var s1 := Step(s, op);
    if op.EndRead? || op.BeginWrite? || op.EndWrite? { assert PlaceOk(s, op.t); }
    forall u | u in s1.places ensures PlaceOk(s1, u) { assert PlaceOk(s, u); }
    forall i | 0 <= i < |s1.calls| ensures CallOk(s1, s1.calls[i]) { assert CallOk(s, s.calls[i]); }
    forall i | 0 <= i < |s1.written| ensures Complete(s1, s1.written[i]) {
      if i < |s.written| { CompleteStays(s, s1, s.written[i]); }
    }
  }

  lemma StoredKeeps<T>(s: Sys<T>, op: Op<T>, initial: T)
    requires Stored(s, initial) && Enabled(s, op) && (op.EndWrite? ==> PlaceOk(s, op.t))
    ensures Stored(Step(s, op), initial)
  {
  }

  lemma StepKeeps<T>(s: Sys<T>, op: Op<T>, initial: T)
    requires Inv(s, initial) && Enabled(s, op)
    ensures Inv(Step(s, op), initial)
  {
    assert Exclusive(Step(s, op)) && OwnRounds(Step(s, op)) by {
      PlacesExist(s);
      forall i | 0 <= i < |s.written| ensures s.written[i] < |s.plans| { assert Complete(s, s.written[i]); }
      LocksKeep(s, op);
    }
    assert Stored(Step(s, op), initial) by {
      if op.EndWrite? { assert PlaceOk(s, op.t); }
      StoredKeeps(s, op, initial);
    }
    match op
    case Begin(t, v) => BeginKeeps(s, t, v);
    case Notify(t) => NotifyKeeps(s, t);
    case _ => OtherKeeps(s, op);
  }

  // ----- Runs -----

  function Run<T(==)>(initial: T, ops: seq<Op<T>>): Option<Sys<T>> {
    if ops == [] then Some(Sys(initial, [], 0, map[], [], [], [])) else
      match Run(initial, ops[..|ops| - 1])
      case None => None
      case Some(s) => if Enabled(s, ops[|ops| - 1]) then Some(Step(s, ops[|ops| - 1])) else None
  }

  lemma {:induction false} RunKeeps<T>(initial: T, ops: seq<Op<T>>)
    ensures var r := Run(initial, ops); r.Some? ==> Inv(r.value, initial)
  {
    if ops != [] {
      var init, op := ops[..|ops| - 1], ops[|ops| - 1];
      RunKeeps(initial, init);
      var before := Run(initial, init);
      if before.Some? && Enabled(before.value, op) {
        StepKeeps(before.value, op, initial);
      }
    }
  }

  /** In any interleaving all calls of one round announce the same change, and a real one. */
  lemma RoundsAreUniform<T>(initial: T, ops: seq<Op<T>>, s: Sys<T>, i: nat, j: nat)
    requires Run(initial, ops) == Some(s) && i < |s.calls| && j < |s.calls| && s.calls[i].round == s.calls[j].round
    ensures s.calls[i].call.before == s.calls[j].call.before && s.calls[i].call.after == s.calls[j].call.after
    ensures s.calls[i].call.before != s.calls[i].call.after
  {
    RunKeeps(initial, ops);
    assert CallOk(s, s.calls[i]) && CallOk(s, s.calls[j]);
  }

  /**
   * Whatever is stored was announced before it was written: the round of each write had told
   * every listener registered at its time of the value it wrote, in the order of their keys,
   * and the stored value is that of the last write.
   */
  lemma WritesWereAnnounced<T>(initial: T, ops: seq<Op<T>>, s: Sys<T>)
    requires Run(initial, ops) == Some(s)
    ensures forall i :: 0 <= i < |s.written| ==>
              s.written[i] < |s.plans| && OfRound(s.calls, s.written[i]) == Planned(s.plans[s.written[i]], s.written[i], |s.plans[s.written[i]].ids|)
    ensures s.val == if s.written == [] then initial else s.plans[s.written[|s.written| - 1]].after
  {
    RunKeeps(initial, ops);
    forall i | 0 <= i < |s.written|
      ensures s.written[i] < |s.plans| && OfRound(s.calls, s.written[i]) == Planned(s.plans[s.written[i]], s.written[i], |s.plans[s.written[i]].ids|)
    {
      assert Complete(s, s.written[i]);
    }
  }

  // ----- Where concurrency differs -----

  lemma RunPush<T>(initial: T, ops: seq<Op<T>>, op: Op<T>)
    requires Run(initial, ops).Some? && Enabled(Run(initial, ops).value, op)
    ensures Run(initial, ops + [op]) == Some(Step(Run(initial, ops).value, op))
  {
    PushInit(ops, op);
  }

  lemma Extend<T>(initial: T, ops: seq<Op<T>>, s: Sys<T>, op: Op<T>) returns (ops1: seq<Op<T>>, s1: Sys<T>)
    requires Run(initial, ops) == Some(s) && Enabled(s, op)
    ensures Run(initial, ops1) == Some(s1) && s1 == Step(s, op)
  {
    RunPush(initial, ops, op);
    ops1, s1 := ops + [op], Step(s, op);
  }

  lemma BothBegin<T>(initial: T, a: T, b: T) returns (ops: seq<Op<T>>, s: Sys<T>)
    requires a != initial && b != initial
    ensures Run(initial, ops) == Some(s)
    ensures s == Sys(initial, [1], 1, map[0 := Notifying(a, 0, 0), 1 := Notifying(b, 1, 0)],
                     [Plan(initial, a, [1]), Plan(initial, b, [1])], [], [])
  {
    ops := [];
    s := Run(initial, ops).value;
    ops, s := Extend(initial, ops, s, Add);
    assert s.ids == [1];
    ops, s := Extend(initial, ops, s, Begin(0, a));
    ops, s := Extend(initial, ops, s, Begin(1, b));
    assert s.places == map[0 := Notifying(a, 0, 0), 1 := Notifying(b, 1, 0)];
  }

  /**
   * Two threads can announce changes from the same old value before either writes: the chain
   * of notifications that holds for sequential calls does not hold for concurrent ones.
   */
  lemma ConcurrentRoundsNeedNotChain<T>(initial: T, a: T, b: T) returns (ops: seq<Op<T>>, s: Sys<T>)
    requires a != initial && b != initial
    ensures Run(initial, ops) == Some(s)
    ensures s.calls == [NoticeOf(0, 1, initial, a), NoticeOf(1, 1, initial, b)]
    ensures s.ids == [1] && s.written == [] && s.places == map[0 := Notifying(a, 0, 1), 1 := Notifying(b, 1, 1)]
  {
    ops, s := BothBegin(initial, a, b);
    ops, s := Extend(initial, ops, s, Notify(0));
    ops, s := Extend(initial, ops, s, Notify(1));
    assert s.places == map[0 := Notifying(a, 0, 1), 1 := Notifying(b, 1, 1)];
  }
}
