/** The calls a program makes on managed loggers and their appenders, and updates of the `logs` variable. */
module LoggerClients {
  import opened LogMeaning
  import opened LogDefines
  import opened Formatter
  import opened LoggerModel
  import opened LoggerAgreement
  import opened ConfigVariable
  import opened Loggers
  import opened LoggerManagement
  import opened LockOrder

  /**
   * The logger manager as its clients use it.
   * Every call keeps the manager valid, in any order: root stays the only parent and every
   * attached appender keeps a formatter. Formatters passed in are never null.
   */
  class Logging {
    const manager: LoggerManager

    constructor (manager: LoggerManager)
      ensures this.manager == manager
    {
      this.manager := manager;
    }

    /** The round of `setValue` as far as it concerns the listener with key `lib`: is it reached before one throws? */
    method Reaches(logs: ConfigVar<Defs>, lib: nat, v: Defs) returns (called: bool)
      requires logs.Valid()
      ensures called <==> Hears(logs.View(), lib, v)
    {
      if v == logs.val {
        return false;
      }
      RoundOf(logs.cbs, logs.val, v, lib);
      for i := 0 to |logs.cbs|
        invariant forall j :: 0 <= j < i ==> logs.cbs[j].id != lib && !logs.cbs[j].throws(logs.val, v)
      {
        if logs.cbs[i].id == lib {
          return true;
        }
        if logs.cbs[i].throws(logs.val, v) {
          NotReached(logs.cbs, logs.val, v, lib, i);
          return false;
        }
      }
      called := false;
    }

    /**
     * `setValue` on `logs`, with the library's listener under the key `lib` among others: the
     * loggers follow if the listener is reached, and those with unchanged definitions are not
     * written to; the value is stored unless a listener throws.
     */
    method SetLogs(logs: ConfigVar<Defs>, lib: nat, v: Defs) returns (threw: bool)
      requires manager.Valid() && logs.Valid()
      modifies logs`val, logs`calls, manager`loggers,
        set n | n in manager.loggers && At(logs.val, n) != At(v, n) :: manager.loggers[n]
      ensures manager.Valid() && logs.Valid() && logs.View() == Set(old(logs.View()), v)
      ensures manager.View() == if Hears(old(logs.View()), lib, v) then Reconciled(old(manager.View()), old(logs.val), v)
                                else old(manager.View())
      ensures threw <==> v != old(logs.val) && Throws(logs.cbs, old(logs.val), v)
    {
      ghost var st := manager.View();
      ghost var after := if Hears(logs.View(), lib, v) then Reconciled(st, logs.val, v) else st;
      manager.ShowsIffView(st);
      var acts := Tell(logs, lib, v, st);
      threw := Store(logs, v, after);
      manager.ShowsIffView(after);
    }

    /** All the listener does with locks is calling logging operations. */
    method Tell(logs: ConfigVar<Defs>, lib: nat, v: Defs, ghost st: LoggerModel.Loggers) returns (ghost acts: seq<Act>)
      ensures Locks.Logged(acts)
      requires manager.Shows(st) && logs.Valid()
      modifies manager`loggers, set n | n in manager.loggers && At(logs.val, n) != At(v, n) :: manager.loggers[n]
      ensures manager.Shows(if Hears(logs.View(), lib, v) then Reconciled(st, logs.val, v) else st)
    {
      acts := [];
      Locks.LoggedNothing();
      var called := Reaches(logs, lib, v);
      if called {
        acts := manager.FollowAndLeave(logs.val, v, st);
      }
    }

    method Store(logs: ConfigVar<Defs>, v: Defs, ghost st: LoggerModel.Loggers) returns (threw: bool)
      requires manager.Shows(st) && logs.Valid()
      modifies logs`val, logs`calls
      ensures manager.Shows(st) && logs.Valid() && logs.View() == Set(old(logs.View()), v)
      ensures threw <==> v != old(logs.val) && Throws(logs.cbs, old(logs.val), v)
    {
      ghost var acts;
      threw, acts := logs.SetValue(v);
    }

    method Get(name: string) returns (l: Logger)
      requires manager.Valid()
      modifies manager`loggers
      ensures manager.Valid() && name in manager.loggers && l == manager.loggers[name]
      ensures manager.View() == old(manager.View())[name := OrNew(At(old(manager.View()), name))]
    {
      ghost var acts;
      l, acts := manager.GetLogger(name);
    }

    /** No other logger's view changes, even if the appender is attached elsewhere too. */
    method AddAppender(name: string, a: LogAppender)
      requires manager.Valid() && name in manager.loggers && a.Sound()
      modifies manager.loggers[name], a
      ensures manager.Valid()
      ensures manager.View() == old(manager.View())[name := manager.loggers[name].View()]
      ensures manager.loggers[name].appenders == old(manager.loggers[name].appenders) + [a]
    {
      ghost var attached := exists n :: n in manager.loggers && a in manager.loggers[n].appenders;
      assert attached ==> a.Ready();
      var acts := manager.loggers[name].AddAppender(a);
      manager.OneChanged(name);
    }

    method DelAppender(name: string, a: LogAppender)
      requires manager.Valid() && name in manager.loggers
      modifies manager.loggers[name]
      ensures manager.Valid()
      ensures manager.View() == old(manager.View())[name := manager.loggers[name].View()]
      ensures a !in old(manager.loggers[name].appenders) ==> manager.View() == old(manager.View())
    {
      SameValue(manager.View(), name);
      var at, acts := manager.loggers[name].DelAppender(a);
      manager.OneChanged(name);
    }

    method ClearAppenders(name: string)
      requires manager.Valid() && name in manager.loggers
      modifies manager.loggers[name]
      ensures manager.Valid()
      ensures manager.View() == old(manager.View())[name := old(manager.View()[name]).(appenders := [])]
    {
      manager.loggers[name].ClearAppenders();
      manager.OneChanged(name);
    }

    method SetLevel(name: string, level: int)
      requires manager.Valid() && name in manager.loggers
      modifies manager.loggers[name]
      ensures manager.Valid()
      ensures manager.View() == old(manager.View())[name := old(manager.View()[name]).(level := level)]
    {
      manager.loggers[name].SetLevel(level);
      manager.OneChanged(name);
    }

    method SetPattern(name: string, pattern: string)
      requires manager.Valid() && name in manager.loggers
      modifies manager.loggers[name]
      ensures manager.Valid()
      ensures manager.View() == old(manager.View())[name :=
        if Accepted(pattern) then old(manager.View()[name]).(pattern := pattern) else old(manager.View()[name])]
    {
      var acts := manager.loggers[name].SetPattern(pattern);
      manager.OneChanged(name);
    }

    method SetFormatter(name: string, f: LogFormatter)
      requires manager.Valid() && name in manager.loggers && f.Compiled()
      modifies manager.loggers[name]
      ensures manager.Valid()
      ensures manager.View() == old(manager.View())[name :=
        if f.error then old(manager.View()[name]) else old(manager.View()[name]).(pattern := f.pattern)]
    {
      var acts := manager.loggers[name].SetFormatter(f);
      manager.OneChanged(name);
    }

    method SetAppenderLevel(a: LogAppender, level: int)
      requires manager.Valid()
      modifies a
      ensures manager.Valid() && a.level == level && a.formatter == old(a.formatter)
    {
      a.SetLevel(level);
      forall n | n in manager.loggers ensures manager.Managed(n, manager.loggers[n]) {
        assert old(manager.Managed(n, manager.loggers[n]));
      }
    }

    method SetAppenderFormatter(a: LogAppender, f: LogFormatter)
      requires manager.Valid() && f.Compiled()
      modifies a
      ensures manager.Valid() && a.formatter == f && a.level == old(a.level)
    {
      var acts := a.SetFormatter(f);
      forall n | n in manager.loggers ensures manager.Managed(n, manager.loggers[n]) {
        assert old(manager.Managed(n, manager.loggers[n]));
      }
    }
  }

  /** A listener behind one that throws is not called. */
  lemma {:induction false} NotReached(cbs: seq<Listener<Defs>>, a: Defs, b: Defs, id: nat, k: nat)
    requires k < |cbs| && cbs[k].throws(a, b) && forall j :: 0 <= j <= k ==> cbs[j].id != id
    requires forall j :: 0 <= j < k ==> !cbs[j].throws(a, b)
    ensures CallsOf(Round(cbs, a, b), id) == []
  {
    var first := Call(cbs[0].id, a, b);
    var rest := if cbs[0].throws(a, b) then [] else Round(cbs[1..], a, b);
    CallsOfSingle(first, id);
    CallsOfConcat([first], rest, id);
    if k > 0 {
      NotReached(cbs[1..], a, b, id, k - 1);
    }
  }
}
