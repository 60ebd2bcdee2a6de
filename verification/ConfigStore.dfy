/** The registry of configuration variables and loading a YAML document into it. */
module ConfigStore {
  import opened Options
  import opened Yaml
  import opened ConfigTree
  import opened ConfigVariable

  /** The text `LoadFromYaml` hands to `fromString`: a scalar as it is, anything else emitted again. */
  function TextOf(node: Node, emit: Node -> string): string {
    if node.Scalar? then node.text else emit(node)
  }

  /** The value a listed member gives the variable `name`, if it has that name and its text converts. */
  function Converted<T>(name: string, fromStr: string -> Option<T>, m: Member, emit: Node -> string): Option<T> {
    if name == "" || m.name != name then None else fromStr(TextOf(m.node, emit))
  }

  /** What one listed member does to the variable `name`. */
  function LoadOne<T(==)>(c: Cell<T>, name: string, fromStr: string -> Option<T>, m: Member, emit: Node -> string): Cell<T> {
    match Converted(name, fromStr, m, emit)
    case None => c
    case Some(v) => Set(c, v)
  }

  function Load<T(==)>(c: Cell<T>, name: string, fromStr: string -> Option<T>, ms: seq<Member>, emit: Node -> string): Cell<T> {
    if ms == [] then c else LoadOne(Load(c, name, fromStr, ms[..|ms| - 1], emit), name, fromStr, ms[|ms| - 1], emit)
  }

  // ----- Which entry wins -----

  /** `fromString` returns true: the text converts and no listener throws on the change, if there is one. */
  predicate Taken<T(==)>(c: Cell<T>, v: Option<T>) {
    v.Some? && (v.value == c.val || !Throws(c.cbs, c.val, v.value))
  }

  /** The value of the last listed member for which `fromString` returns true. */
  function LastTaken<T(==)>(c: Cell<T>, name: string, fromStr: string -> Option<T>, ms: seq<Member>, emit: Node -> string): Option<T> {
    if ms == [] then None else
      var init, v := ms[..|ms| - 1], Converted(name, fromStr, ms[|ms| - 1], emit);
      if Taken(Load(c, name, fromStr, init, emit), v) then v else LastTaken(c, name, fromStr, init, emit)
  }

  /** Whatever the listeners do, a variable ends with the last entry that is taken, or keeps its value. */
  lemma {:induction false} LastTakenWins<T>(c: Cell<T>, name: string, fromStr: string -> Option<T>, ms: seq<Member>, emit: Node -> string)
    ensures var d := Load(c, name, fromStr, ms, emit);
            && d.cbs == c.cbs
            && d.val == match LastTaken(c, name, fromStr, ms, emit) case Some(v) => v case None => c.val
  {
    if ms != [] { LastTakenWins(c, name, fromStr, ms[..|ms| - 1], emit); }
  }

  /** Entries behind `k` that do not convert change nothing. */
  lemma {:induction false} NothingBehind<T>(c: Cell<T>, name: string, fromStr: string -> Option<T>, ms: seq<Member>, emit: Node -> string, k: nat)
    requires k <= |ms| && forall j :: k <= j < |ms| ==> Converted(name, fromStr, ms[j], emit).None?
    ensures Load(c, name, fromStr, ms, emit) == Load(c, name, fromStr, ms[..k], emit)
    decreases |ms|
  {
    if k == |ms| {
      assert ms[..k] == ms;
    } else {
      NothingBehind(c, name, fromStr, ms[..|ms| - 1], emit, k);
      assert ms[..|ms| - 1][..k] == ms[..k];
    }
  }

  /**
   * The last entry that converts, number `k`, decides the value if and only if it repeats the
   * value the variable has by then or no listener throws on that one change.
   */
  lemma LastConvertedWinsIffTaken<T>(c: Cell<T>, name: string, fromStr: string -> Option<T>, ms: seq<Member>, emit: Node -> string, k: nat)
    requires k < |ms| && Converted(name, fromStr, ms[k], emit).Some?
    requires forall j :: k < j < |ms| ==> Converted(name, fromStr, ms[j], emit).None?
    ensures var v := Converted(name, fromStr, ms[k], emit).value;
            var before := Load(c, name, fromStr, ms[..k], emit);
            Load(c, name, fromStr, ms, emit).val == v <==> v == before.val || !Throws(c.cbs, before.val, v)
  {
    NothingBehind(c, name, fromStr, ms, emit, k + 1);
    assert ms[..k + 1][..k] == ms[..k] && ms[..k + 1][k] == ms[k];
    LastTakenWins(c, name, fromStr, ms[..k], emit);
  }

  class Config<T(==)> {
    var datas: map<string, ConfigVar<T>>

    /** Registered names are valid and belong to different variables. */
    ghost predicate Valid()
      reads this, datas.Values, set v | v in datas.Values :: v.ids
    {
      && (forall n :: n in datas ==> ValidName(n) && datas[n].name == n && datas[n].Valid())
      && (forall m, n :: m in datas && n in datas && datas[m] == datas[n] ==> m == n)
    }

    constructor ()
      ensures Valid() && datas == map[]
    {
      datas := map[];
    }

    method LookupBase(name: string) returns (r: Option<ConfigVar<T>>, ghost acts: seq<LockOrder.Act>)
      ensures r == if name in datas then Some(datas[name]) else None
      ensures acts == Locks.Acts(Locks.BlocksOf(Locks.LookupVar))
    {
      Locks.ActsHold(LockOrder.Registry, LockOrder.Shared, []);
      acts := [LockOrder.Ask(LockOrder.Registry, LockOrder.Shared), LockOrder.Acquire(LockOrder.Registry, LockOrder.Shared)];
      r := if name in datas then Some(datas[name]) else None;
      acts := acts + [LockOrder.Release(LockOrder.Registry)];
    }

    /**
     * `Lookup` without a default: a variable of another type is not returned, and its value is
     * read and reported to root under the registry's lock; `reports` are root's appenders then.
     */
    method LookupTyped(name: string, typeName: string, ghost reports: seq<seq<nat>>)
      returns (r: Option<ConfigVar<T>>, ghost acts: seq<LockOrder.Act>)
      ensures r == if name in datas && datas[name].typeName == typeName then Some(datas[name]) else None
      ensures acts == Locks.Acts(Locks.BlocksOf(
                        if name in datas && datas[name].typeName != typeName then Locks.LookupWrongType(datas[name].lockId, reports)
                        else Locks.LookupVar))
    {
      Locks.ActsHold(LockOrder.Registry, LockOrder.Shared, []);
      r := None;
      acts := [LockOrder.Ask(LockOrder.Registry, LockOrder.Shared), LockOrder.Acquire(LockOrder.Registry, LockOrder.Shared)];
      if name in datas {
        if datas[name].typeName == typeName {
          r := Some(datas[name]);
        } else {
          WrongTypeActs(datas[name].lockId, reports);
          acts := acts + (Locks.Guarded(LockOrder.Var(datas[name].lockId), LockOrder.Shared, []) + Locks.Acts(Locks.RootLogs(reports)));
        }
      }
      acts := acts + [LockOrder.Release(LockOrder.Registry)];
    }

    /**
     * `Lookup` with a default. An existing variable of that type is returned as it is; one of
     * another type is replaced; an invalid name is refused, unless it is registered already.
     */
    method Lookup(name: string, typeName: string, initial: T, fromStr: string -> Option<T>, ids: ListenerIds,
                  ghost reports: seq<seq<nat>>)
      returns (r: Option<ConfigVar<T>>, ghost acts: seq<LockOrder.Act>)
      requires Valid()
      modifies this
      ensures Valid()
      ensures name in old(datas) && old(datas)[name].typeName == typeName ==> r == Some(old(datas)[name]) && datas == old(datas)
      ensures !(name in old(datas) && old(datas)[name].typeName == typeName) ==>
                if ValidName(name) then
                  && r.Some? && fresh(r.value) && datas == old(datas)[name := r.value]
                  && r.value.View() == Cell(initial, [], []) && r.value.typeName == typeName && r.value.fromStr == fromStr
                else r == None && datas == old(datas)
      ensures acts == Locks.Acts(Locks.BlocksOf(
                        if name in old(datas) && old(datas)[name].typeName != typeName
                        then Locks.LookupWrongType(old(datas)[name].lockId, reports) else Locks.LookupVar))
                      + if datas == old(datas) then [] else Locks.Acts(Locks.BlocksOf(Locks.Register))
    {
      r, acts := LookupTyped(name, typeName, reports);
      if r.Some? || !ValidName(name) {
        return;
      }
      var v := new ConfigVar<T>(name, typeName, initial, fromStr, ids);
      var registered := Register(name, v);
      assert name in old(datas) ==> old(datas)[name] != v;
      r, acts := Some(v), acts + registered;
    }

    method Register(name: string, v: ConfigVar<T>) returns (ghost acts: seq<LockOrder.Act>)
      modifies this
      ensures datas == old(datas)[name := v]
      ensures acts == Locks.Acts(Locks.BlocksOf(Locks.Register))
    {
      Locks.ActsHold(LockOrder.Registry, LockOrder.Exclusive, []);
      acts := [LockOrder.Ask(LockOrder.Registry, LockOrder.Exclusive), LockOrder.Acquire(LockOrder.Registry, LockOrder.Exclusive)];
      datas := datas[name := v];
      acts := acts + [LockOrder.Release(LockOrder.Registry)];
    }

    /** After loading, every variable is as the listed members with its name, in preorder, leave it. */
    method LoadFromYaml(root: Node, emit: Node -> string)
      requires Valid()
      modifies datas.Values
      ensures Valid()
      ensures forall n :: n in datas ==>
                datas[n].View() == Load(old(datas[n].View()), n, datas[n].fromStr, Named(Preorder("", root)), emit)
    {
      var ms := ListMembers(root);
      LoadMembers(ms, emit);
    }

    /** The loop of `LoadFromYaml` over the listed members. */
    method LoadMembers(ms: seq<Member>, emit: Node -> string)
      requires Valid() && forall i :: 0 <= i < |ms| ==> ValidName(ms[i].name)
      modifies datas.Values
      ensures Valid()
      ensures forall n :: n in datas ==> datas[n].View() == Load(old(datas[n].View()), n, datas[n].fromStr, ms, emit)
    {
      for i := 0 to |ms|
        invariant Valid()
        invariant forall n :: n in datas ==>
                    datas[n].View() == Load(old(datas[n].View()), n, datas[n].fromStr, ms[..i], emit)
      {
        assert ms[..i + 1][..i] == ms[..i];
        LoadMember(ms[i], emit);
      }
      assert ms[..|ms|] == ms;
    }

    /** The body of that loop. */
    method LoadMember(m: Member, emit: Node -> string)
      requires Valid() && ValidName(m.name)
      modifies datas.Values
      ensures Valid()
      ensures forall n :: n in datas ==>
                datas[n].View() == LoadOne(old(datas[n].View()), n, datas[n].fromStr, m, emit)
    {
      if m.name == "" {
        return;
      }
      var key := KeyOf(m.name);
      var v, looked := LookupBase(key);
      if v.Some? {
        var acts := LoadText(key, TextOf(m.node, emit));
      }
    }

    /** `fromString` of one registered variable, which touches no other. */
    method LoadText(key: string, text: string) returns (ghost acts: seq<LockOrder.Act>)
      requires Valid() && key in datas
      modifies datas[key]
      ensures Valid()
      ensures datas[key].View() == match datas[key].fromStr(text)
                                   case None => old(datas[key].View())
                                   case Some(v) => Set(old(datas[key].View()), v)
      ensures forall n :: n in datas && n != key ==> datas[n].View() == old(datas[n].View())
      ensures acts == match datas[key].fromStr(text)
                      case None => []
                      case Some(v) => Locks.Acts(Locks.BlocksOf(SetCall(old(datas[key].View()), v, datas[key].lockId, datas[key].user)))
    {
      var ok;
      ok, acts := datas[key].FromString(text);
    }
  }

  lemma WrongTypeActs(i: nat, reports: seq<seq<nat>>)
    ensures Locks.Acts(Locks.BlocksOf(Locks.LookupWrongType(i, reports)))
         == [LockOrder.Ask(LockOrder.Registry, LockOrder.Shared), LockOrder.Acquire(LockOrder.Registry, LockOrder.Shared)]
            + (Locks.Guarded(LockOrder.Var(i), LockOrder.Shared, []) + Locks.Acts(Locks.RootLogs(reports))) + [LockOrder.Release(LockOrder.Registry)]
  {
    var read := [Locks.Hold(LockOrder.Var(i), LockOrder.Shared, [])];
    Locks.ActsHold(LockOrder.Registry, LockOrder.Shared, read + Locks.RootLogs(reports));
    Locks.ActsConcat(read, Locks.RootLogs(reports));
    Locks.ActsHold(LockOrder.Var(i), LockOrder.Shared, []);
  }
}
