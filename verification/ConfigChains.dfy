/** Exactly when what a listener hears from concurrent calls of `setValue` is a chain of changes. */
module ConfigChains {
  import opened Options
  import opened Seqs
  import opened ConfigRounds

  /** What one listener was told, in order. */
  function Heard<T>(calls: seq<Notice<T>>, id: nat): seq<Notice<T>> {
    if calls == [] then [] else
      var c := calls[|calls| - 1];
      Heard(calls[..|calls| - 1], id) + if c.call.id == id then [c] else []
  }

  /** The calls themselves, without the rounds they belong to. */
  function Calls<T>(heard: seq<Notice<T>>): (r: seq<Variable.Call<T>>)
    ensures |r| == |heard|
  {
    if heard == [] then [] else Calls(heard[..|heard| - 1]) + [heard[|heard| - 1].call]
  }

  /** The calls form a chain of changes, as they do for a variable that is set by one thread. */
  predicate Chained<T(==)>(heard: seq<Notice<T>>) {
    Variable.Chain(Calls(heard))
  }

  /** The rounds of all these calls were written. */
  predicate AllWritten<T>(s: Sys<T>, heard: seq<Notice<T>>) {
    forall i :: 0 <= i < |heard| ==> heard[i].round in s.written
  }

  // ----- Conditions on a run -----

  /** The step tells the listener while another round that told it is not written. */
  predicate Overtakes<T>(s: Sys<T>, op: Op<T>, id: nat) {
    && op.Notify? && op.t in s.places && s.places[op.t].Notifying? && s.places[op.t].told < |s.ids|
    && s.ids[s.places[op.t].told] == id && !AllWritten(s, Heard(s.calls, id))
  }

  /** The listener is told of a change only when every change it was told of before has been written. */
  predicate Orderly<T(==)>(initial: T, ops: seq<Op<T>>, id: nat) {
    ops == [] ||
    var init, op := ops[..|ops| - 1], ops[|ops| - 1];
    Orderly(initial, init, id) && (Run(initial, init).Some? ==> !Overtakes(Run(initial, init).value, op, id))
  }

  /** The step changes the stored value without the listener, which has been told of other changes, being told of it. */
  predicate Bypasses<T(==)>(s: Sys<T>, op: Op<T>, id: nat) {
    && op.EndWrite? && op.t in s.places && s.places[op.t].Writing? && s.places[op.t].round < |s.plans|
    && id in s.ids && Heard(s.calls, id) != [] && id !in s.plans[s.places[op.t].round].ids && s.places[op.t].v != s.val
  }

  /** No round that started before the listener was added changes the value after the listener was first told. */
  predicate Undisturbed<T(==)>(initial: T, ops: seq<Op<T>>, id: nat) {
    ops == [] ||
    var init, op := ops[..|ops| - 1], ops[|ops| - 1];
    Undisturbed(initial, init, id) && (Run(initial, init).Some? ==> !Bypasses(Run(initial, init).value, op, id))
  }

  // ----- The invariant -----

  lemma HeardPush<T>(calls: seq<Notice<T>>, c: Notice<T>, id: nat)
    ensures Heard(calls + [c], id) == Heard(calls, id) + if c.call.id == id then [c] else []
  {
    PushInit(calls, c);
  }

  lemma CallsPush<T>(heard: seq<Notice<T>>, c: Notice<T>)
    ensures Calls(heard + [c]) == Calls(heard) + [c.call]
  {
    PushInit(heard, c);
  }

  lemma {:induction false} FirstCall<T>(heard: seq<Notice<T>>)
    requires heard != []
    ensures Calls(heard)[0] == heard[0].call
  {
    if |heard| > 1 { FirstCall(heard[..|heard| - 1]); }
  }

  lemma ChainedPush<T>(heard: seq<Notice<T>>, c: Notice<T>)
    ensures Chained(heard + [c])
       <==> Chained(heard) && c.call.before != c.call.after && (heard != [] ==> heard[|heard| - 1].call.after == c.call.before)
  {
    CallsPush(heard, c);
    Variable.ChainPush(Calls(heard), c.call);
  }

  /** Keys are handed out in ascending order, and nobody was called under one that was not. */
  ghost predicate FreshKeys<T>(s: Sys<T>) {
    && Increasing(s.ids)
    && (forall x :: x in s.ids ==> x <= s.lastId)
    && (forall i :: 0 <= i < |s.calls| ==> s.calls[i].call.id <= s.lastId)
  }

  /** The stored value as far as this change goes: it, or the one before while it is not written. */
  function Reached<T>(s: Sys<T>, c: Notice<T>): T {
    if c.round in s.written then c.call.after else c.call.before
  }

  /** The listener has heard a chain of changes that leads to the stored value, or to one about to be written. */
  predicate InTouch<T(==)>(s: Sys<T>, id: nat) {
    var heard := Heard(s.calls, id);
    Chained(heard) && (heard != [] && id in s.ids ==> s.val == Reached(s, heard[|heard| - 1]))
  }

  /** What keeps it so: at most the last change it heard of is not written yet. */
  predicate Following<T(==)>(s: Sys<T>, id: nat) {
    var heard := Heard(s.calls, id);
    InTouch(s, id) && (heard != [] ==> AllWritten(s, heard[..|heard| - 1]))
  }

  lemma FreshKeeps<T>(s: Sys<T>, op: Op<T>)
    requires FreshKeys(s) && Enabled(s, op)
    ensures FreshKeys(Step(s, op))
  {
    if op.Notify? { assert s.ids[s.places[op.t].told] in s.ids; }
    if op.Delete? { ExceptIncreases(s.ids, op.id); }
    if op.Add? {
      forall i | 0 <= i < |s.ids| ensures s.ids[i] < s.lastId + 1 { assert s.ids[i] in s.ids; }
    }
  }

  lemma {:induction false} NeverHeard<T>(calls: seq<Notice<T>>, id: nat)
    requires forall i :: 0 <= i < |calls| ==> calls[i].call.id != id
    ensures Heard(calls, id) == []
  {
    if calls != [] { NeverHeard(calls[..|calls| - 1], id); }
  }

  /** Being told in order extends the chain; being told out of order breaks it. */
  lemma NotifyFollows<T>(s: Sys<T>, t: ThreadId, id: nat)
    requires Following(s, id) && Enabled(s, Notify(t)) && s.ids[s.places[t].told] == id
    requires s.places[t].v != s.val && s.places[t].round !in s.written
    ensures if Overtakes(s, Notify(t), id) then !Chained(Heard(Step(s, Notify(t)).calls, id)) else Following(Step(s, Notify(t)), id)
  {
    var heard, s1 := Heard(s.calls, id), Step(s, Notify(t));
    var c := NoticeOf(s.places[t].round, id, s.val, s.places[t].v);
    HeardPush(s.calls, c, id);
    ChainedPush(heard, c);
    PushInit(heard, c);
    if heard != [] {
      InitLast(heard);
    }
  }

  lemma {:induction false} HeardMembers<T>(calls: seq<Notice<T>>, id: nat, c: Notice<T>)
    ensures c in Heard(calls, id) <==> c in calls && c.call.id == id
  {
    if calls != [] {
      HeardMembers(calls[..|calls| - 1], id, c);
      InitLast(calls);
    }
  }

  lemma {:induction false} RoundMembers<T>(calls: seq<Notice<T>>, round: nat, c: Notice<T>)
    requires c in OfRound(calls, round)
    ensures c in calls
  {
    var init := calls[..|calls| - 1];
    if c in OfRound(init, round) { RoundMembers(init, round, c); }
  }

  lemma {:induction false} PlannedMembers<T>(plan: Plan<T>, round: nat, n: nat, k: nat)
    requires k < n <= |plan.ids|
    ensures NoticeOf(round, plan.ids[k], plan.before, plan.after) in Planned(plan, round, n)
  {
    if k < n - 1 { PlannedMembers(plan, round, n - 1, k); }
  }

  /** A finished round told every listener it was opened for. */
  lemma CompleteTold<T>(s: Sys<T>, r: nat, id: nat)
    requires Complete(s, r) && id in s.plans[r].ids
    ensures NoticeOf(r, id, s.plans[r].before, s.plans[r].after) in Heard(s.calls, id)
  {
    var plan := s.plans[r];
    var k :| 0 <= k < |plan.ids| && plan.ids[k] == id;
    var c := NoticeOf(r, id, plan.before, plan.after);
    PlannedMembers(plan, r, |plan.ids|, k);
    RoundMembers(s.calls, r, c);
    HeardMembers(s.calls, id, c);
  }

  lemma {:induction false} OwnRoundMembers<T>(calls: seq<Notice<T>>, c: Notice<T>)
    requires c in calls
    ensures c in OfRound(calls, c.round)
  {
    var init := calls[..|calls| - 1];
    if c in init { OwnRoundMembers(init, c); } else { InitLast(calls); }
  }

  lemma {:induction false} PlannedIds<T>(plan: Plan<T>, round: nat, n: nat, c: Notice<T>) returns (k: nat)
    requires n <= |plan.ids| && c in Planned(plan, round, n)
    ensures k < n && c.call.id == plan.ids[k]
  {
    if c in Planned(plan, round, n - 1) { k := PlannedIds(plan, round, n - 1, c); } else { k := n - 1; }
  }

  /** A finished round told nobody else. */
  lemma CompleteToldOnly<T>(s: Sys<T>, r: nat, id: nat, c: Notice<T>)
    requires Complete(s, r) && id !in s.plans[r].ids && c in Heard(s.calls, id)
    ensures c.round != r
  {
    HeardMembers(s.calls, id, c);
    if c.round == r {
      OwnRoundMembers(s.calls, c);
      var k := PlannedIds(s.plans[r], r, |s.plans[r].ids|, c);
    }
  }

  /** A round the listener was told of, when written, is the last it was told of. */
  lemma WriteFollows<T>(s: Sys<T>, t: ThreadId, id: nat)
    requires Following(s, id) && Enabled(s, EndWrite(t)) && !Bypasses(s, EndWrite(t), id)
    requires var r := s.places[t].round; Complete(s, r) && s.plans[r].after == s.places[t].v && r !in s.written
    ensures Following(Step(s, EndWrite(t)), id)
  {
    var heard, r := Heard(s.calls, id), s.places[t].round;
    if heard != [] && id in s.ids {
      if id in s.plans[r].ids {
        CompleteTold(s, r, id);
        InitLast(heard);
        var c := NoticeOf(r, id, s.plans[r].before, s.plans[r].after);
        assert c !in heard[..|heard| - 1];
      } else {
        CompleteToldOnly(s, r, id, heard[|heard| - 1]);
      }
    }
  }

  /** A change the listener is not told of leaves it with an outdated value. */
  lemma BypassBreaks<T>(s: Sys<T>, t: ThreadId, id: nat)
    requires Following(s, id) && Enabled(s, EndWrite(t)) && Bypasses(s, EndWrite(t), id)
    requires Complete(s, s.places[t].round)
    ensures !InTouch(Step(s, EndWrite(t)), id)
  {
    var heard := Heard(s.calls, id);
    CompleteToldOnly(s, s.places[t].round, id, heard[|heard| - 1]);
  }

  lemma OtherFollows<T>(s: Sys<T>, op: Op<T>, id: nat)
    requires Following(s, id) && FreshKeys(s) && Enabled(s, op) && !op.Notify? && !op.EndWrite?
    ensures Following(Step(s, op), id)
  {
    if op.Add? && id == s.lastId + 1 {
      NeverHeard(s.calls, id);
    }
  }

  lemma OtherCall<T>(s: Sys<T>, t: ThreadId, id: nat)
    requires Enabled(s, Notify(t)) && s.ids[s.places[t].told] != id
    ensures Heard(Step(s, Notify(t)).calls, id) == Heard(s.calls, id)
  {
    HeardPush(s.calls, Step(s, Notify(t)).calls[|s.calls|], id);
  }

  /** One step: the listener goes on following, or is told out of order and its chain is broken. */
  lemma StepFollows<T>(s: Sys<T>, op: Op<T>, id: nat, initial: T)
    requires Inv(s, initial) && FreshKeys(s) && Enabled(s, op) && Following(s, id) && !Bypasses(s, op, id)
    ensures if Overtakes(s, op, id) then !Chained(Heard(Step(s, op).calls, id)) else Following(Step(s, op), id)
  {
    match op
    case Notify(t) =>
      assert PlaceOk(s, t);
      if s.ids[s.places[t].told] == id { NotifyFollows(s, t, id); } else { OtherCall(s, t, id); }
    case EndWrite(t) =>
      assert PlaceOk(s, t);
      WriteFollows(s, t, id);
    case _ => OtherFollows(s, op, id);
  }

  /** A broken chain stays broken. */
  lemma BrokenStays<T>(s: Sys<T>, op: Op<T>, id: nat)
    requires Enabled(s, op) && !Chained(Heard(s.calls, id))
    ensures !Chained(Heard(Step(s, op).calls, id))
  {
    if op.Notify? {
      var c := Step(s, op).calls[|s.calls|];
      HeardPush(s.calls, c, id);
      ChainedPush(Heard(s.calls, id), c);
      assert Heard(s.calls, id) + [] == Heard(s.calls, id);
    }
  }

  lemma {:induction false} RunFollows<T>(initial: T, ops: seq<Op<T>>, id: nat)
    requires Run(initial, ops).Some? && Undisturbed(initial, ops, id)
    ensures FreshKeys(Run(initial, ops).value)
    ensures Orderly(initial, ops, id) ==> Following(Run(initial, ops).value, id)
    ensures !Orderly(initial, ops, id) ==> !Chained(Heard(Run(initial, ops).value.calls, id))
  {
    if ops != [] {
      var init, op := ops[..|ops| - 1], ops[|ops| - 1];
      var s := Run(initial, init).value;
      RunFollows(initial, init, id);
      RunKeeps(initial, init);
      FreshKeeps(s, op);
      if Orderly(initial, init, id) { StepFollows(s, op, id, initial); } else { BrokenStays(s, op, id); }
    }
  }

  /**
   * For every interleaving and every listener that no older round bypasses: it hears a chain of
   * changes if and only if it is told of a change only when every change it was told of before
   * has been written. Then the stored value is the last it heard of, or the one before while
   * that change is not written.
   */
  lemma ChainIffOrderly<T>(initial: T, ops: seq<Op<T>>, s: Sys<T>, id: nat)
    requires Run(initial, ops) == Some(s) && Undisturbed(initial, ops, id)
    ensures Chained(Heard(s.calls, id)) <==> Orderly(initial, ops, id)
    ensures var heard := Heard(s.calls, id);
            Orderly(initial, ops, id) && id in s.ids && heard != [] ==>
              s.val == Reached(s, heard[|heard| - 1])
  {
    RunFollows(initial, ops, id);
  }

  /** At every point of the run. */
  predicate InTouchThroughout<T(==)>(initial: T, ops: seq<Op<T>>, id: nat)
    requires Run(initial, ops).Some?
  {
    InTouch(Run(initial, ops).value, id) && (ops != [] ==> InTouchThroughout(initial, ops[..|ops| - 1], id))
  }

  /**
   * For every interleaving and every listener: at every point it has heard a chain of changes
   * whose last one is the stored value, or is about to be written, if and only if it is never
   * told of a change while another one it was told of is unwritten, and never bypassed.
   */
  lemma {:induction false} InTouchIffOrderlyAndUndisturbed<T>(initial: T, ops: seq<Op<T>>, id: nat)
    requires Run(initial, ops).Some?
    ensures InTouchThroughout(initial, ops, id) <==> Orderly(initial, ops, id) && Undisturbed(initial, ops, id)
  {
    if ops != [] {
      var init, op := ops[..|ops| - 1], ops[|ops| - 1];
      var s := Run(initial, init).value;
      InTouchIffOrderlyAndUndisturbed(initial, init, id);
      if InTouchThroughout(initial, init, id) {
        RunFollows(initial, init, id);
        RunKeeps(initial, init);
        if Bypasses(s, op, id) {
          assert PlaceOk(s, op.t);
          BypassBreaks(s, op.t, id);
        } else {
          StepFollows(s, op, id, initial);
        }
      }
    }
  }

  // ----- Conditions a caller can meet -----

  predicate NoneUnderWay<T>(s: Sys<T>) {
    forall t :: t in s.places ==> s.places[t].Outside?
  }

  /** The listener was added while no call of `setValue` was between its two locks. */
  predicate AddedQuietly<T(==)>(initial: T, ops: seq<Op<T>>, id: nat) {
    ops == [] ||
    var init, op := ops[..|ops| - 1], ops[|ops| - 1];
    && AddedQuietly(initial, init, id)
    && (Run(initial, init).Some? && op.Add? && Run(initial, init).value.lastId + 1 == id ==> NoneUnderWay(Run(initial, init).value))
  }

  /** While the listener is registered, every round under way tells it. */
  ghost predicate Included<T>(s: Sys<T>, id: nat) {
    id in s.ids ==> forall t :: t in s.places && !s.places[t].Outside? ==>
      s.places[t].round < |s.plans| && id in s.plans[s.places[t].round].ids
  }

  lemma StepIncludes<T>(s: Sys<T>, op: Op<T>, id: nat)
    requires FreshKeys(s) && Enabled(s, op) && Included(s, id)
    requires op.Add? && s.lastId + 1 == id ==> NoneUnderWay(s)
    ensures Included(Step(s, op), id) && !Bypasses(s, op, id)
  {
  }

  /** A listener that is added while no `setValue` is under way is never bypassed. */
  lemma {:induction false} QuietlyAddedIsUndisturbed<T>(initial: T, ops: seq<Op<T>>, id: nat)
    requires Run(initial, ops).Some? && AddedQuietly(initial, ops, id)
    ensures Undisturbed(initial, ops, id) && FreshKeys(Run(initial, ops).value) && Included(Run(initial, ops).value, id)
  {
    if ops != [] {
      var init, op := ops[..|ops| - 1], ops[|ops| - 1];
      var s := Run(initial, init).value;
      QuietlyAddedIsUndisturbed(initial, init, id);
      FreshKeeps(s, op);
      StepIncludes(s, op, id);
    }
  }

  /** Rounds are opened only while no other is under way, and no listener throws. */
  predicate OneAtATime<T(==)>(initial: T, ops: seq<Op<T>>) {
    ops == [] ||
    var init, op := ops[..|ops| - 1], ops[|ops| - 1];
    && OneAtATime(initial, init) && !op.Throw?
    && (Run(initial, init).Some? && op.Begin? ==> NoneUnderWay(Run(initial, init).value))
  }

  /** At most one round is under way, and all others were written. */
  ghost predicate Serial<T>(s: Sys<T>) {
    && (forall t, u :: t in s.places && u in s.places && !s.places[t].Outside? && !s.places[u].Outside? ==> t == u)
    && (forall r :: 0 <= r < |s.plans| && r !in s.written ==> UnderWay(s, r))
  }

  ghost predicate UnderWay<T>(s: Sys<T>, r: nat) {
    exists t :: t in s.places && !s.places[t].Outside? && s.places[t].round == r
  }

  lemma StepSerial<T>(s: Sys<T>, op: Op<T>)
    requires Serial(s) && Enabled(s, op) && !op.Throw? && (op.Begin? ==> NoneUnderWay(s))
    ensures Serial(Step(s, op))
  {
    var s1 := Step(s, op);
    forall r | 0 <= r < |s1.plans| && r !in s1.written ensures UnderWay(s1, r) {
      if op.Begin? {
        assert r < |s.plans| ==> UnderWay(s, r);
        assert s1.places[op.t].round == |s.plans|;
      } else {
        assert r !in s.written && UnderWay(s, r);
        var t :| t in s.places && !s.places[t].Outside? && s.places[t].round == r;
        assert t in s1.places;
      }
    }
  }

  /** In a serial state the listener about to be called was told of written rounds only. */
  lemma SerialIsOrderly<T>(s: Sys<T>, t: ThreadId, id: nat, initial: T)
    requires Inv(s, initial) && FreshKeys(s) && Serial(s) && Enabled(s, Notify(t))
    ensures !Overtakes(s, Notify(t), id)
  {
    assert PlaceOk(s, t);
    var heard, p := Heard(s.calls, id), s.places[t];
    if s.ids[p.told] == id {
      forall i | 0 <= i < |heard| ensures heard[i].round in s.written {
        HeardMembers(s.calls, id, heard[i]);
        assert CallOk(s, heard[i]);
        if heard[i].round !in s.written {
          assert UnderWay(s, heard[i].round) && heard[i].round == p.round;
          OwnRoundMembers(s.calls, heard[i]);
          var k := PlannedIds(s.plans[p.round], p.round, p.told, heard[i]);
        }
      }
    }
  }

  /** A round under way that does not tell a registered listener is alone: the listener was never told. */
  ghost predicate Unheard<T>(s: Sys<T>, id: nat) {
    id in s.ids && Heard(s.calls, id) != [] ==>
      forall t :: t in s.places && !s.places[t].Outside? && s.places[t].round < |s.plans| ==> id in s.plans[s.places[t].round].ids
  }

  lemma StepUnheard<T>(s: Sys<T>, op: Op<T>, id: nat, initial: T)
    requires Inv(s, initial) && FreshKeys(s) && Serial(s) && Unheard(s, id) && Enabled(s, op) && (op.Begin? ==> NoneUnderWay(s))
    ensures Unheard(Step(s, op), id) && !Bypasses(s, op, id)
  {
    if op.Add? && id == s.lastId + 1 { NeverHeard(s.calls, id); }
    if op.Notify? {
      assert PlaceOk(s, op.t);
      assert s.ids[s.places[op.t].told] in s.plans[s.places[op.t].round].ids;
      if s.ids[s.places[op.t].told] != id { OtherCall(s, op.t, id); }
    }
  }

  /** With one `setValue` at a time and no exceptions every listener hears a chain. */
  lemma {:induction false} OneAtATimeIsOrderly<T>(initial: T, ops: seq<Op<T>>, id: nat)
    requires Run(initial, ops).Some? && OneAtATime(initial, ops)
    ensures Orderly(initial, ops, id) && Undisturbed(initial, ops, id)
    ensures var s := Run(initial, ops).value; FreshKeys(s) && Serial(s) && Unheard(s, id)
  {
    if ops != [] {
      var init, op := ops[..|ops| - 1], ops[|ops| - 1];
      var s := Run(initial, init).value;
      OneAtATimeIsOrderly(initial, init, id);
      RunKeeps(initial, init);
      FreshKeeps(s, op);
      StepSerial(s, op);
      StepUnheard(s, op, id, initial);
      if op.Notify? { SerialIsOrderly(s, op.t, id, initial); }
    }
  }

  // ----- A listener that is added too late -----

  lemma RoundBeforeListener() returns (ops: seq<Op<int>>, s: Sys<int>)
    ensures Run(0, ops) == Some(s)
    ensures s == Sys(0, [1], 1, map[0 := Announced(1, 0)], [Plan(0, 1, [])], [], [])
  {
    ops := [];
    s := Run(0, ops).value;
    ops, s := Extend(0, ops, s, Begin(0, 1));
    ops, s := Extend(0, ops, s, EndRead(0));
    ops, s := Extend(0, ops, s, Add);
    assert s.ids == [1] && s.places == map[0 := Announced(1, 0)];
  }

  lemma SecondRoundWritten() returns (ops: seq<Op<int>>, s: Sys<int>)
    ensures Run(0, ops) == Some(s)
    ensures s.ids == [1] && s.val == 5 && s.calls == [NoticeOf(1, 1, 0, 5)] && s.written == [1]
    ensures s.places == map[0 := Announced(1, 0), 1 := Outside]
  {
    ops, s := RoundBeforeListener();
    ops, s := Extend(0, ops, s, Begin(1, 5));
    ops, s := Extend(0, ops, s, Notify(1));
    ops, s := Extend(0, ops, s, EndRead(1));
    ops, s := Extend(0, ops, s, BeginWrite(1));
    ops, s := Extend(0, ops, s, EndWrite(1));
    assert s.places == map[0 := Announced(1, 0), 1 := Outside];
  }

  /**
   * Without the condition on older rounds the stored value can be one that a registered
   * listener never heard of: it was added while a `setValue` was between its two locks.
   */
  lemma LateListenerMissesAWrite() returns (ops: seq<Op<int>>, s: Sys<int>)
    ensures Run(0, ops) == Some(s) && NoneUnderWay(s)
    ensures s.ids == [1] && s.calls == [NoticeOf(1, 1, 0, 5)] && s.written == [1, 0] && s.val == 1
  {
    ops, s := SecondRoundWritten();
    ops, s := Extend(0, ops, s, BeginWrite(0));
    ops, s := Extend(0, ops, s, EndWrite(0));
  }

  // ----- Two rounds at once -----

  lemma BothAnnounced<T>(initial: T, a: T, b: T) returns (ops: seq<Op<T>>, s: Sys<T>)
    requires a != initial && b != initial
    ensures Run(initial, ops) == Some(s)
    ensures s.ids == [1] && s.calls == [NoticeOf(0, 1, initial, a), NoticeOf(1, 1, initial, b)] && s.written == []
    ensures s.places == map[0 := Announced(a, 0), 1 := Announced(b, 1)]
  {
    ops, s := ConcurrentRoundsNeedNotChain(initial, a, b);
    ops, s := Extend(initial, ops, s, EndRead(0));
    ops, s := Extend(initial, ops, s, EndRead(1));
    assert s.places == map[0 := Announced(a, 0), 1 := Announced(b, 1)];
  }

  /** Two threads can write in the other order than they announced: the listener heard last of a value that is overwritten. */
  lemma LastHeardIsOverwritten<T>(initial: T, a: T, b: T) returns (ops: seq<Op<T>>, s: Sys<T>)
    requires a != initial && b != initial
    ensures Run(initial, ops) == Some(s) && NoneUnderWay(s)
    ensures s.ids == [1] && s.calls == [NoticeOf(0, 1, initial, a), NoticeOf(1, 1, initial, b)] && s.written == [1, 0] && s.val == a
  {
    ops, s := BothAnnounced(initial, a, b);
    ops, s := Extend(initial, ops, s, BeginWrite(1));
    ops, s := Extend(initial, ops, s, EndWrite(1));
    assert s.places == map[0 := Announced(a, 0), 1 := Outside];
    ops, s := Extend(initial, ops, s, BeginWrite(0));
    ops, s := Extend(initial, ops, s, EndWrite(0));
  }
}
