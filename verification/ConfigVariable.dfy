/** One configuration variable: its value, its change listeners and what they were told. */
module ConfigVariable {
  import opened Options
  import opened Seqs
  import LockOrder
  import Locks = LibraryLocks

  /** A callback under the key `addListener` gave it; `throws` says on which pairs it throws. */
  datatype Listener<!T> = Listener(id: nat, throws: (T, T) -> bool)

  /** A call of a listener with the old and the new value. */
  datatype Call<T> = Call(id: nat, before: T, after: T)

  /** `cbs` is in ascending order of keys, the order in which a `std::map` is traversed. */
  datatype Cell<!T> = Cell(val: T, cbs: seq<Listener<T>>, calls: seq<Call<T>>)

  // ----- setValue -----

  predicate Throws<T>(cbs: seq<Listener<T>>, a: T, b: T) {
    exists i :: 0 <= i < |cbs| && cbs[i].throws(a, b)
  }

  /** The calls of one round: in order, up to and including the first listener that throws. */
  function Round<T>(cbs: seq<Listener<T>>, a: T, b: T): seq<Call<T>> {
    if cbs == [] then [] else
      [Call(cbs[0].id, a, b)] + if cbs[0].throws(a, b) then [] else Round(cbs[1..], a, b)
  }

  /** `setValue`: an equal value does nothing; otherwise listeners first, then the value unless one threw. */
  function Set<T(==)>(c: Cell<T>, v: T): Cell<T> {
    if v == c.val then c
    else c.(calls := c.calls + Round(c.cbs, c.val, v), val := if Throws(c.cbs, c.val, v) then c.val else v)
  }

  // ----- What listeners see -----

  function CallsOf<T>(calls: seq<Call<T>>, id: nat): seq<Call<T>> {
    if calls == [] then [] else
      var c := calls[|calls| - 1];
      CallsOf(calls[..|calls| - 1], id) + if c.id == id then [c] else []
  }

  /** Each call goes on from the value the one before it announced, and announces another value. */
  predicate Chain<T(==)>(calls: seq<Call<T>>) {
    calls == [] ||
    var init, c := calls[..|calls| - 1], calls[|calls| - 1];
    Chain(init) && c.before != c.after && (init != [] ==> init[|init| - 1].after == c.before)
  }

  predicate Registered<T>(cbs: seq<Listener<T>>, id: nat) {
    exists i :: 0 <= i < |cbs| && cbs[i].id == id
  }

  /** Keys are ascending, so that no two listeners share one. */
  predicate Ascending<T>(cbs: seq<Listener<T>>) {
    forall i, j :: 0 <= i < j < |cbs| ==> cbs[i].id < cbs[j].id
  }

  predicate UpToDate<T(==)>(c: Cell<T>, id: nat) {
    var own := CallsOf(c.calls, id);
    Chain(own) && (Registered(c.cbs, id) && own != [] ==> own[|own| - 1].after == c.val)
  }

  /** Every listener saw a chain of changes that ends at the stored value while it is registered. */
  ghost predicate Linked<T(!new)>(c: Cell<T>) {
    Ascending(c.cbs) && forall id :: UpToDate(c, id)
  }

  lemma {:induction false} CallsOfConcat<T>(a: seq<Call<T>>, b: seq<Call<T>>, id: nat)
    ensures CallsOf(a + b, id) == CallsOf(a, id) + CallsOf(b, id)
  {
    if b == [] {
      assert a + b == a;
    } else {
      ConcatInit(a, b);
      CallsOfConcat(a, b[..|b| - 1], id);
    }
  }

  lemma {:induction false} CallsOfSingle<T>(c: Call<T>, id: nat)
    ensures CallsOf([c], id) == if c.id == id then [c] else []
  {
    assert [c][..0] == [];
  }

  /** In a round a registered listener is called once, unless one before it threw; nobody else is called. */
  lemma {:induction false} RoundOf<T>(cbs: seq<Listener<T>>, a: T, b: T, id: nat)
    requires Ascending(cbs)
    ensures !Registered(cbs, id) ==> CallsOf(Round(cbs, a, b), id) == []
    ensures Registered(cbs, id) ==> CallsOf(Round(cbs, a, b), id) == [Call(id, a, b)] || CallsOf(Round(cbs, a, b), id) == []
    ensures Registered(cbs, id) && !Throws(cbs, a, b) ==> CallsOf(Round(cbs, a, b), id) == [Call(id, a, b)]
    ensures forall i :: 0 <= i < |cbs| && cbs[i].id == id && (forall j :: 0 <= j < i ==> !cbs[j].throws(a, b))
                        ==> CallsOf(Round(cbs, a, b), id) == [Call(id, a, b)]
  {
    if cbs != [] {
      var first := Call(cbs[0].id, a, b);
      var rest := if cbs[0].throws(a, b) then [] else Round(cbs[1..], a, b);
      CallsOfSingle(first, id);
      CallsOfConcat([first], rest, id);
      RoundOf(cbs[1..], a, b, id);
      assert forall i :: 0 < i < |cbs| ==> cbs[i] == cbs[1..][i - 1];
      assert forall i :: 0 < i < |cbs| ==> cbs[0].id < cbs[i].id;
    }
  }

  /** The listeners are called in the order of their keys, all of them or up to and including the first that throws. */
  lemma {:induction false} RoundInOrder<T>(cbs: seq<Listener<T>>, a: T, b: T)
    ensures var r := Round(cbs, a, b);
            && |r| <= |cbs| && (forall i :: 0 <= i < |r| ==> r[i] == Call(cbs[i].id, a, b))
            && (forall i :: 0 <= i < |r| - 1 ==> !cbs[i].throws(a, b))
            && (|r| < |cbs| ==> |r| > 0 && cbs[|r| - 1].throws(a, b))
  {
    if cbs != [] { RoundInOrder(cbs[1..], a, b); }
  }

  lemma ChainPush<T>(calls: seq<Call<T>>, c: Call<T>)
    ensures Chain(calls + [c]) <==> Chain(calls) && c.before != c.after && (calls != [] ==> calls[|calls| - 1].after == c.before)
  {
    PushInit(calls, c);
  }

  lemma FirstThrower<T>(cbs: seq<Listener<T>>, a: T, b: T) returns (k: nat)
    requires Throws(cbs, a, b)
    ensures k < |cbs| && cbs[k].throws(a, b) && forall j :: 0 <= j < k ==> !cbs[j].throws(a, b)
  {
    k := 0;
    while !cbs[k].throws(a, b)
      invariant k < |cbs| && forall j :: 0 <= j < k ==> !cbs[j].throws(a, b)
      decreases |cbs| - k
    {
      k := k + 1;
    }
  }

  lemma SetUpToDate<T>(c: Cell<T>, v: T, id: nat)
    requires Ascending(c.cbs) && UpToDate(c, id) && v != c.val && !Throws(c.cbs, c.val, v)
    ensures UpToDate(Set(c, v), id)
  {
    var round := Round(c.cbs, c.val, v);
    CallsOfConcat(c.calls, round, id);
    RoundOf(c.cbs, c.val, v, id);
    if Registered(c.cbs, id) {
      ChainPush(CallsOf(c.calls, id), Call(id, c.val, v));
    } else {
      assert CallsOf(c.calls, id) + [] == CallsOf(c.calls, id);
    }
  }

  /**
   * `setValue` keeps every listener's chain of notifications, ending at the stored value,
   * exactly when the value is unchanged or no listener throws: one that throws was told of a
   * value that is then not stored.
   */
  lemma SetKeepsLinkedIffNobodyThrows<T(!new)>(c: Cell<T>, v: T)
    requires Linked(c)
    ensures Linked(Set(c, v)) <==> v == c.val || !Throws(c.cbs, c.val, v)
  {
    if v != c.val {
      if Throws(c.cbs, c.val, v) {
        var k := FirstThrower(c.cbs, c.val, v);
        var id := c.cbs[k].id;
        RoundOf(c.cbs, c.val, v, id);
        CallsOfConcat(c.calls, Round(c.cbs, c.val, v), id);
        var own := CallsOf(Set(c, v).calls, id);
        assert own[|own| - 1].after == v;
        assert Registered(c.cbs, id);
        assert !UpToDate(Set(c, v), id);
      } else {
        forall id ensures UpToDate(Set(c, v), id) { SetUpToDate(c, v, id); }
      }
    }
  }

  // ----- Runs -----

  /** A variable together with the key `addListener` gave last. */
  datatype Var<!T> = Var(cell: Cell<T>, lastId: nat)

  datatype Op<!T> = SetTo(v: T) | Add(throws: (T, T) -> bool) | Delete(id: nat) | Clear

  function Without<T>(cbs: seq<Listener<T>>, id: nat): (r: seq<Listener<T>>)
  {
    if cbs == [] then [] else (if cbs[0].id == id then [] else [cbs[0]]) + Without(cbs[1..], id)
  }

  function Apply<T(==)>(x: Var<T>, op: Op<T>): Var<T> {
    match op
    case SetTo(v) => x.(cell := Set(x.cell, v))
    case Add(throws) => Var(x.cell.(cbs := x.cell.cbs + [Listener(x.lastId + 1, throws)]), x.lastId + 1)
    case Delete(id) => x.(cell := x.cell.(cbs := Without(x.cell.cbs, id)))
    case Clear => x.(cell := x.cell.(cbs := []))
  }

  /** The variable after a sequence of calls on it, starting with a default value and no listener. */
  function Run<T(==)>(initial: T, ops: seq<Op<T>>): Var<T> {
    if ops == [] then Var(Cell(initial, [], []), 0) else Apply(Run(initial, ops[..|ops| - 1]), ops[|ops| - 1])
  }

  /** No round of the run meets a listener that throws. */
  predicate Quiet<T(==)>(initial: T, ops: seq<Op<T>>) {
    ops == [] ||
    var init, op := ops[..|ops| - 1], ops[|ops| - 1];
    && Quiet(initial, init)
    && (op.SetTo? ==> var c := Run(initial, init).cell; op.v == c.val || !Throws(c.cbs, c.val, op.v))
  }

  /** Keys handed out are fresh: larger than every registered one and every one ever called. */
  predicate FreshIds<T>(x: Var<T>) {
    && (forall i :: 0 <= i < |x.cell.cbs| ==> x.cell.cbs[i].id <= x.lastId)
    && (forall i :: 0 <= i < |x.cell.calls| ==> x.cell.calls[i].id <= x.lastId)
  }

  /** Removing a key removes its listener and no other. */
  lemma {:induction false} WithoutMembers<T(!new)>(cbs: seq<Listener<T>>, id: nat)
    ensures forall l :: l in Without(cbs, id) <==> l in cbs && l.id != id
  {
    if cbs != [] {
      WithoutMembers(cbs[1..], id);
      assert forall l :: l in cbs <==> l == cbs[0] || l in cbs[1..];
    }
  }

  lemma {:induction false} RoundIds<T>(cbs: seq<Listener<T>>, a: T, b: T, bound: nat)
    requires forall i :: 0 <= i < |cbs| ==> cbs[i].id <= bound
    ensures forall i :: 0 <= i < |Round(cbs, a, b)| ==> Round(cbs, a, b)[i].id <= bound
  {
    if cbs != [] { RoundIds(cbs[1..], a, b, bound); }
  }

  lemma {:induction false} NoCallsOf<T>(calls: seq<Call<T>>, id: nat)
    requires forall i :: 0 <= i < |calls| ==> calls[i].id != id
    ensures CallsOf(calls, id) == []
  {
    if calls != [] { NoCallsOf(calls[..|calls| - 1], id); }
  }

  lemma ApplyKeepsFresh<T(!new)>(x: Var<T>, op: Op<T>)
    requires FreshIds(x) && Ascending(x.cell.cbs)
    ensures FreshIds(Apply(x, op)) && Ascending(Apply(x, op).cell.cbs)
  {
    match op
    case SetTo(v) => RoundIds(x.cell.cbs, x.cell.val, v, x.lastId);
    case Delete(id) => DeleteKeeps(x.cell, x.lastId, id);
    case _ =>
  }

  lemma ApplyKeepsLinked<T(!new)>(x: Var<T>, op: Op<T>)
    requires FreshIds(x) && Linked(x.cell)
    requires op.SetTo? ==> op.v == x.cell.val || !Throws(x.cell.cbs, x.cell.val, op.v)
    ensures Linked(Apply(x, op).cell)
  {
    ApplyKeepsFresh(x, op);
    var y := Apply(x, op).cell;
    match op
    case SetTo(v) => SetKeepsLinkedIffNobodyThrows(x.cell, v);
    case Add(throws) =>
      forall id ensures UpToDate(y, id) {
        assert UpToDate(x.cell, id);
        if id == x.lastId + 1 { NoCallsOf(y.calls, id); }
      }
    case Delete(k) =>
      WithoutMembers(x.cell.cbs, k);
      forall id ensures UpToDate(y, id) {
        assert UpToDate(x.cell, id);
        if Registered(y.cbs, id) {
          var i :| 0 <= i < |y.cbs| && y.cbs[i].id == id;
          assert y.cbs[i] in x.cell.cbs;
        }
      }
    case Clear =>
      forall id ensures UpToDate(y, id) { assert UpToDate(x.cell, id); }
  }

  /**
   * In every run without throwing listeners each listener, whenever it was added or removed,
   * saw a chain of changes, and the last one it saw is the stored value while it is registered.
   */
  lemma {:induction false} NotificationsFormChains<T(!new)>(initial: T, ops: seq<Op<T>>)
    requires Quiet(initial, ops)
    ensures Linked(Run(initial, ops).cell) && FreshIds(Run(initial, ops))
  {
    if ops != [] {
      var init, op := ops[..|ops| - 1], ops[|ops| - 1];
      NotificationsFormChains(initial, init);
      ApplyKeepsFresh(Run(initial, init), op);
      ApplyKeepsLinked(Run(initial, init), op);
    }
  }

  // ----- The class -----

  /** The static counter of `addListener`, shared by all variables of one type. */
  class ListenerIds {
    var last: nat

    constructor ()
      ensures last == 0
    {
      last := 0;
    }
  }

  /** What the listeners called in a round do with locks, given what the code under each key does. */
  ghost function UserCode<T>(calls: seq<Call<T>>, user: nat -> seq<Locks.Block>): seq<Locks.Block> {
    if calls == [] then [] else user(calls[0].id) + UserCode(calls[1..], user)
  }

  /** Nobody is told of a value that is already there. */
  ghost function Announced<T>(c: Cell<T>, v: T): seq<Call<T>> {
    if v == c.val then [] else Round(c.cbs, c.val, v)
  }

  /** What `setValue` does with locks: an equal value, or a listener that throws, ends it before the write lock. */
  ghost function SetCall<T>(c: Cell<T>, v: T, lockId: nat, user: nat -> seq<Locks.Block>): Locks.Call {
    var code := UserCode(Announced(c, v), user);
    if v == c.val || Throws(c.cbs, c.val, v) then Locks.SetNothing(lockId, code) else Locks.SetValue(lockId, code)
  }

  lemma UserCodeStep<T>(c: Call<T>, rest: seq<Call<T>>, user: nat -> seq<Locks.Block>)
    ensures Locks.Acts(UserCode([c] + rest, user)) == Locks.Acts(user(c.id)) + Locks.Acts(UserCode(rest, user))
  {
    assert ([c] + rest)[1..] == rest;
    Locks.ActsConcat(user(c.id), UserCode(rest, user));
  }

  lemma SetActs(i: nat, cbs: seq<Locks.Block>)
    ensures Locks.Acts(Locks.BlocksOf(Locks.SetNothing(i, cbs))) == Locks.Guarded(LockOrder.Var(i), LockOrder.Shared, Locks.Acts(cbs))
    ensures Locks.Acts(Locks.BlocksOf(Locks.SetValue(i, cbs)))
         == Locks.Guarded(LockOrder.Var(i), LockOrder.Shared, Locks.Acts(cbs)) + Locks.Guarded(LockOrder.Var(i), LockOrder.Exclusive, [])
  {
    Locks.ActsHold(LockOrder.Var(i), LockOrder.Shared, cbs);
    Locks.ActsHold(LockOrder.Var(i), LockOrder.Exclusive, []);
    Locks.ActsConcat([Locks.Hold(LockOrder.Var(i), LockOrder.Shared, cbs)], [Locks.Hold(LockOrder.Var(i), LockOrder.Exclusive, [])]);
  }

  /**
   * `ConfigVar`: the conversion from text is a parameter, `None` standing for its exception. The
   * ghost results `acts` are the locks a call takes and releases.
   */
  class ConfigVar<T(==)> {
    const name: string
    const typeName: string
    const fromStr: string -> Option<T>
    const ids: ListenerIds
    var val: T
    var cbs: seq<Listener<T>>
    ghost var calls: seq<Call<T>>
    ghost const lockId: nat                     // which lock `m_mutex` is
    ghost const user: nat -> seq<Locks.Block>   // what the listener under each key does with locks

    ghost function View(): Cell<T>
      reads this
    {
      Cell(val, cbs, calls)
    }

    ghost predicate Valid()
      reads this, ids
    {
      Ascending(cbs) && FreshIds(Var(View(), ids.last))
    }

    constructor (name: string, typeName: string, initial: T, fromStr: string -> Option<T>, ids: ListenerIds)
      ensures Valid() && View() == Cell(initial, [], [])
      ensures this.name == name && this.typeName == typeName && this.fromStr == fromStr && this.ids == ids
    {
      this.name, this.typeName, this.fromStr, this.ids := name, typeName, fromStr, ids;
      val, cbs, calls := initial, [], [];
    }

    /** Listeners hear of the change before it is written; if one throws, nothing is written. */
    method SetValue(v: T) returns (threw: bool, ghost acts: seq<LockOrder.Act>)
      requires Valid()
      modifies `val, `calls
      ensures Valid() && View() == Set(old(View()), v)
      ensures threw <==> v != old(val) && Throws(cbs, old(val), v)
      ensures acts == Locks.Acts(Locks.BlocksOf(SetCall(old(View()), v, lockId, user)))
    {
      SetActs(lockId, UserCode(Announced(View(), v), user));
      acts := [LockOrder.Ask(LockOrder.Var(lockId), LockOrder.Shared), LockOrder.Acquire(LockOrder.Var(lockId), LockOrder.Shared)];
      if v == val {
        acts := acts + [LockOrder.Release(LockOrder.Var(lockId))];
        return false, acts;
      }
      ghost var inner;
      RoundIds(cbs, val, v, ids.last);
      threw, inner := Announce(v);
      acts := acts + inner + [LockOrder.Release(LockOrder.Var(lockId))];
      if threw {
        return;
      }
      acts := acts + [LockOrder.Ask(LockOrder.Var(lockId), LockOrder.Exclusive), LockOrder.Acquire(LockOrder.Var(lockId), LockOrder.Exclusive)];
      val := v;
      acts := acts + [LockOrder.Release(LockOrder.Var(lockId))];
    }

    /** The loop over the listeners. */
    method Announce(v: T) returns (threw: bool, ghost acts: seq<LockOrder.Act>)
      modifies `calls
      ensures calls == old(calls) + Round(cbs, val, v)
      ensures threw <==> Throws(cbs, val, v)
      ensures acts == Locks.Acts(UserCode(Round(cbs, val, v), user))
    {
      acts := [];
      var i := 0;
      while i < |cbs|
        invariant 0 <= i <= |cbs|
        invariant forall j :: 0 <= j < i ==> !cbs[j].throws(val, v)
        invariant calls + Round(cbs[i..], val, v) == old(calls) + Round(cbs, val, v)
        invariant acts + Locks.Acts(UserCode(Round(cbs[i..], val, v), user)) == Locks.Acts(UserCode(Round(cbs, val, v), user))
      {
        ghost var call, rest := Call(cbs[i].id, val, v), if cbs[i].throws(val, v) then [] else Round(cbs[i + 1..], val, v);
        assert cbs[i..][1..] == cbs[i + 1..];
        assert Round(cbs[i..], val, v) == [call] + rest;
        UserCodeStep(call, rest, user);
        Assoc(calls, [call], rest);
        Assoc(acts, Locks.Acts(user(call.id)), Locks.Acts(UserCode(rest, user)));
        calls, acts := calls + [call], acts + Locks.Acts(user(call.id));
        if cbs[i].throws(val, v) {
          return true, acts;
        }
        i := i + 1;
      }
      threw := false;
    }

    /** A text that does not convert, or on which a listener throws, leaves the value as it was. */
    method FromString(text: string) returns (ok: bool, ghost acts: seq<LockOrder.Act>)
      requires Valid()
      modifies `val, `calls
      ensures Valid()
      ensures fromStr(text).None? ==> !ok && View() == old(View())
      ensures fromStr(text).Some? ==> var v := fromStr(text).value;
                && View() == Set(old(View()), v)
                && (ok <==> v == old(val) || !Throws(cbs, old(val), v))
                && acts == Locks.Acts(Locks.BlocksOf(SetCall(old(View()), v, lockId, user)))
      ensures fromStr(text).None? ==> acts == []
    {
      match fromStr(text) {
        case None => ok, acts := false, [];
        case Some(v) =>
          var threw;
          threw, acts := SetValue(v);
          ok := !threw;
      }
    }

    /** Keys are never reused, also across variables of the same type, by calls one after the other. */
    method AddListener(throws: (T, T) -> bool) returns (key: nat, ghost acts: seq<LockOrder.Act>)
      requires Valid()
      modifies `cbs, ids
      ensures Valid() && ids.last == old(ids.last) + 1 && key == ids.last
      ensures View() == Apply(Var(old(View()), old(ids.last)), Add(throws)).cell
      ensures acts == Locks.Acts(Locks.BlocksOf(Locks.ChangeListeners(lockId)))
    {
      Locks.ActsHold(LockOrder.Var(lockId), LockOrder.Exclusive, []);
      acts := [LockOrder.Ask(LockOrder.Var(lockId), LockOrder.Exclusive), LockOrder.Acquire(LockOrder.Var(lockId), LockOrder.Exclusive)];
      ids.last := ids.last + 1;
      cbs := cbs + [Listener(ids.last, throws)];
      key := ids.last;
      acts := acts + [LockOrder.Release(LockOrder.Var(lockId))];
    }

    method DelListener(key: nat) returns (ghost acts: seq<LockOrder.Act>)
      requires Valid()
      modifies `cbs
      ensures Valid() && View() == Apply(Var(old(View()), ids.last), Delete(key)).cell
      ensures acts == Locks.Acts(Locks.BlocksOf(Locks.ChangeListeners(lockId)))
    {
      Locks.ActsHold(LockOrder.Var(lockId), LockOrder.Exclusive, []);
      acts := [LockOrder.Ask(LockOrder.Var(lockId), LockOrder.Exclusive), LockOrder.Acquire(LockOrder.Var(lockId), LockOrder.Exclusive)];
      DeleteKeeps(View(), ids.last, key);
      cbs := Without(cbs, key);
      acts := acts + [LockOrder.Release(LockOrder.Var(lockId))];
    }

    method ClearListener() returns (ghost acts: seq<LockOrder.Act>)
      requires Valid()
      modifies `cbs
      ensures Valid() && View() == Apply(Var(old(View()), ids.last), Clear).cell
      ensures acts == Locks.Acts(Locks.BlocksOf(Locks.ChangeListeners(lockId)))
    {
      Locks.ActsHold(LockOrder.Var(lockId), LockOrder.Exclusive, []);
      acts := [LockOrder.Ask(LockOrder.Var(lockId), LockOrder.Exclusive), LockOrder.Acquire(LockOrder.Var(lockId), LockOrder.Exclusive)];
      cbs := [];
      acts := acts + [LockOrder.Release(LockOrder.Var(lockId))];
    }
  }

  lemma {:induction false} DeleteKeeps<T>(c: Cell<T>, last: nat, key: nat)
    requires Ascending(c.cbs) && FreshIds(Var(c, last))
    ensures Ascending(Without(c.cbs, key)) && FreshIds(Var(c.(cbs := Without(c.cbs, key)), last))
    ensures c.cbs != [] && Without(c.cbs, key) != [] ==> c.cbs[0].id <= Without(c.cbs, key)[0].id
    decreases |c.cbs|
  {
    if c.cbs != [] {
      var d := c.(cbs := c.cbs[1..]);
      assert FreshIds(Var(d, last));
      DeleteKeeps(d, last, key);
      assert forall i :: 0 < i < |c.cbs| ==> c.cbs[0].id < c.cbs[i].id;
    }
  }
}
