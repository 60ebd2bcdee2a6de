/**
 * The logger manager and the library's listener on the `logs` variable. As for loggers, the
 * ghost results `acts` are the locks a call takes and releases.
 */
module LoggerManagement {
  import opened Options
  import opened Seqs
  import opened LogMeaning
  import opened LogDefines
  import opened Formatter
  import opened LoggerModel
  import opened Loggers
  import opened LockOrder

  const ROOT := "root"
  const CONSOLE_PATTERN := "%d{%Y-%m-%d %H:%M:%S}%T%t%T%F%T[%P]%T[%c](dft)%T%f{}:%l%T%m%n"
  const FILE_PATTERN := "%d{%Y-%m-%d %H:%M:%S}%T%t%T%F%T[%p]%T[%c](dft)%T%f{}:%l%T%m%n"

  /** The root logger as the manager sets it up. */
  const INITIAL_ROOT := LoggerView(DEBUG, DEFAULT_PATTERN, [
    AppenderView(StdoutAppender, "", DEBUG, CONSOLE_PATTERN), AppenderView(FileAppender, "root.log", DEBUG, FILE_PATTERN)])

  /** The listener's treatment of one added or changed definition. */
  method Define(l: Logger, d: LogDef) returns (ghost acts: seq<Act>)
    requires l.Valid() && Locks.IsLogger(l.lock)
    modifies l
    ensures l.Valid() && l.View() == Defined(old(l.View()), d)
    ensures Locks.Logged(acts) && forall a :: a in l.appenders ==> fresh(a)
  {
    l.SetLevel(d.level);
    acts := DefinePattern(l, d.formatter);
    l.ClearAppenders();
    var more := AddDefined(l, d.appenders);
    Locks.LoggedConcat(acts, more);
    acts := acts + more;
  }

  method DefinePattern(l: Logger, formatter: string) returns (ghost acts: seq<Act>)
    requires l.Valid() && Locks.IsLogger(l.lock)
    modifies l`formatter
    ensures l.Valid() && l.appenders == old(l.appenders)
    ensures l.View() == old(l.View()).(pattern := DefinedPattern(old(l.View()).pattern, formatter))
    ensures Locks.Logged(acts)
  {
    acts := [];
    Locks.LoggedNothing();
    Locks.LoggedOne(Locks.OnLogger(Locks.LoggerLocks(l.lock, [])));
    if formatter != "" {
      acts := l.SetPattern(formatter);
    }
  }

  /** The loop over a definition's appenders; one of unknown kind ends it. */
  method AddDefined(l: Logger, s: seq<AppenderDef>) returns (ghost acts: seq<Act>)
    requires l.Valid() && l.appenders == [] && Locks.IsLogger(l.lock)
    modifies l
    ensures l.Valid() && Locks.Logged(acts) && forall a :: a in l.appenders ==> fresh(a)
    ensures l.View() == old(l.View()).(appenders := DefinedAppenders(UpToUnknown(s), old(l.formatter.pattern)))
  {
    ghost var v := l.View();
    acts := [];
    Locks.LoggedNothing();
    var i := 0;
    while i < |s| && s[i].kind != UnknownKind
      invariant 0 <= i <= |s| && KnownBefore(s, i)
      invariant Locks.Logged(acts)
      invariant l.Valid() && forall a :: a in l.appenders ==> fresh(a)
      invariant l.View() == v.(appenders := DefinedAppenders(s[..i], v.pattern))
    {
      KnownPush(s, i);
      acts := AddNext(l, s, i, v, acts);
      i := i + 1;
    }
    StopsAt(s, i);
  }

  predicate KnownBefore(s: seq<AppenderDef>, i: nat)
    requires i <= |s|
  {
    forall k :: 0 <= k < i ==> s[k].kind != UnknownKind
  }

  lemma KnownPush(s: seq<AppenderDef>, i: nat)
    requires i < |s| && KnownBefore(s, i) && s[i].kind != UnknownKind
    ensures KnownBefore(s, i + 1)
  {
  }

  /** The body of that loop. */
  method AddNext(l: Logger, s: seq<AppenderDef>, i: nat, ghost v: LoggerView, ghost before: seq<Act>) returns (ghost acts: seq<Act>)
    requires i < |s| && s[i].kind != UnknownKind && l.Valid() && Locks.IsLogger(l.lock) && Locks.Logged(before)
    requires l.View() == v.(appenders := DefinedAppenders(s[..i], v.pattern))
    modifies l`appenders
    ensures Locks.Logged(acts)
    ensures l.Valid() && forall a :: a in l.appenders ==> a in old(l.appenders) || fresh(a)
    ensures l.View() == v.(appenders := DefinedAppenders(s[..i + 1], v.pattern))
  {
    DefinedPush(s, i, v.pattern);
    acts := AddOne(l, s[i], before);
  }

  lemma DefinedPush(s: seq<AppenderDef>, i: nat, pattern: string)
    requires i < |s|
    ensures DefinedAppenders(s[..i + 1], pattern) == DefinedAppenders(s[..i], pattern) + [DefinedAppender(s[i], pattern)]
  {
    PushInit(s[..i], s[i]);
    assert s[..i + 1] == s[..i] + [s[i]];
  }

  method AddOne(l: Logger, d: AppenderDef, ghost before: seq<Act>) returns (ghost acts: seq<Act>)
    requires l.Valid() && d.kind != UnknownKind && Locks.IsLogger(l.lock) && Locks.Logged(before)
    modifies l`appenders
    ensures Locks.Logged(acts)
    ensures l.Valid() && forall a :: a in l.appenders ==> a in old(l.appenders) || fresh(a)
    ensures l.View() == old(l.View()).(appenders := old(l.View()).appenders + [DefinedAppender(d, old(l.formatter.pattern))])
  {
    var ap, made := MakeAppender(d);
    Locks.LoggedOne(Locks.OnLogger(Locks.LoggerLocks(l.lock, if ap.formatter == null then [ap.lockId, ap.lockId] else [ap.lockId])));
    var added := l.AddAppender(ap);
    Locks.LoggedConcat(before, made);
    Locks.LoggedConcat(before + made, added);
    acts := before + made + added;
  }

  /** The appender of a definition before it is attached: with a formatter only if the definition has one. */
  method MakeAppender(d: AppenderDef) returns (ap: LogAppender, ghost acts: seq<Act>)
    ensures Locks.Logged(acts)
    ensures fresh(ap) && ap.Sound() && ap.kind == d.kind && ap.level == d.level
    ensures ap.file == if d.kind == FileAppender then d.file else ""
    ensures if d.formatter == "" then ap.formatter == null else ap.Ready() && ap.formatter.pattern == d.formatter
  {
    ap := new LogAppender(d.kind, if d.kind == FileAppender then d.file else "");
    ap.SetLevel(d.level);
    acts := [];
    Locks.LoggedNothing();
    Locks.LoggedOne(Locks.OnAppender(ap.lockId));
    if d.formatter != "" {
      var f := new LogFormatter(d.formatter);
      acts := ap.SetFormatter(f);
    }
  }

  method NewAppender(kind: Kind, file: string, pattern: string) returns (a: LogAppender)
    ensures fresh(a) && a.Ready() && a.View() == AppenderView(kind, file, DEBUG, pattern)
  {
    a := new LogAppender(kind, file);
    var f := new LogFormatter(pattern);
    var acts := a.SetFormatter(f);
  }

  method NewRoot() returns (r: Logger)
    ensures fresh(r) && r.name == ROOT && r.root == null && r.lock == Root
    ensures r.Valid() && r.View() == INITIAL_ROOT && forall a :: a in r.appenders ==> fresh(a)
  {
    r := new Logger(ROOT, null, Root);
    AttachNew(r, StdoutAppender, "", CONSOLE_PATTERN);
    AttachNew(r, FileAppender, "root.log", FILE_PATTERN);
  }

  method AttachNew(l: Logger, kind: Kind, file: string, pattern: string)
    requires l.Valid()
    modifies l`appenders
    ensures l.Valid() && l.View() == old(l.View()).(appenders := old(l.View()).appenders + [AppenderView(kind, file, DEBUG, pattern)])
    ensures forall a :: a in l.appenders ==> a in old(l.appenders) || fresh(a)
  {
    var a := NewAppender(kind, file, pattern);
    var acts := l.AddAppender(a);
  }

  class LoggerManager {
    var loggers: map<string, Logger>
    const root: Logger

    /** Root has no parent; every other logger's parent is root; attached appenders have formatters. */
    ghost predicate Managed(n: string, l: Logger)
      reads l, l.appenders
    {
      && l.name == n && l.root == (if n == ROOT then null else root) && l.Valid()
      && (if n == ROOT then l.lock == Root else l.lock.Ordinary?)
    }

    ghost predicate Valid()
      reads this, set n | n in loggers :: loggers[n], set n, i | n in loggers && 0 <= i < |loggers[n].appenders| :: loggers[n].appenders[i]
    {
      ROOT in loggers && loggers[ROOT] == root && forall n :: n in loggers ==> Managed(n, loggers[n])
    }

    ghost function View(): LoggerModel.Loggers
      reads this, set n | n in loggers :: loggers[n], set n, i | n in loggers && 0 <= i < |loggers[n].appenders| :: loggers[n].appenders[i]
      requires Valid()
    {
      map n | n in loggers :: loggers[n].View()
    }

    constructor ()
      ensures Valid() && View() == map[ROOT := INITIAL_ROOT]
      ensures fresh(root)
    {
      var r := NewRoot();
      root := r;
      loggers := map[ROOT := r];
    }

    /** A logger that is not there yet is made, with root as its parent. */
    method GetLogger(name: string) returns (l: Logger, ghost acts: seq<Act>)
      requires Valid()
      modifies `loggers
      ensures Valid() && name in loggers && l == loggers[name]
      ensures loggers == if name in old(loggers) then old(loggers) else old(loggers)[name := l]
      ensures name !in old(loggers) ==> fresh(l)
      ensures View() == old(View())[name := OrNew(At(old(View()), name))]
      ensures acts == Locks.Acts(Locks.BlocksOf(Locks.GetLogger))
    {
      Locks.ActsHold(Manager, Exclusive, []);
      acts := [Ask(Manager, Exclusive), Acquire(Manager, Exclusive)];
      if name in loggers {
        SameValue(View(), name);
        l := loggers[name];
      } else {
        l := AddLogger(name);
      }
      acts := acts + [Release(Manager)];
    }

    method AddLogger(name: string) returns (l: Logger)
      requires Valid() && name !in loggers && name != ROOT
      modifies `loggers
      ensures Valid() && fresh(l) && loggers == old(loggers)[name := l]
      ensures View() == old(View())[name := NEW_LOGGER]
    {
      ghost var before, after := View(), View()[name := NEW_LOGGER];
      ShowsIffView(before);
      l := new Logger(name, root, Ordinary(|loggers|));
      loggers := loggers[name := l];
      forall n ensures ShowsAt(n, At(after, n)) {
        assert old(ShowsAt(n, At(before, n)));
      }
      ShowsIffView(after);
    }

    /** What a change to one logger alone does to the whole. */
    twostate lemma OneChanged(n: string)
      requires old(Valid()) && loggers == old(loggers) && n in loggers && Managed(n, loggers[n])
      requires forall m :: m in loggers && m != n ==> loggers[m].Valid() && loggers[m].View() == old(loggers[m].View())
      ensures Valid() && View() == old(View())[n := loggers[n].View()]
    {
      forall m | m in loggers ensures Managed(m, loggers[m]) {
        assert old(Managed(m, loggers[m]));
      }
    }

    /** The listener's work on an added or changed definition; no other logger is touched. */
    method Redefine(n: string, d: LogDef, ghost before: seq<Act>) returns (ghost acts: seq<Act>)
      requires Valid() && n in loggers && Locks.Logged(before)
      modifies loggers[n]
      ensures Valid() && View() == old(View())[n := Defined(old(View())[n], d)]
      ensures Locks.Logged(acts)
    {
      acts := Define(loggers[n], d);
      Locks.LoggedConcat(before, acts);
      acts := before + acts;
      OneChanged(n);
    }

    /** The listener's work on a removed definition. */
    method Retire(n: string)
      requires Valid() && n in loggers
      modifies loggers[n]
      ensures Valid() && View() == old(View())[n := Removed(old(View())[n])]
    {
      loggers[n].SetLevel(REMOVED);
      loggers[n].ClearAppenders();
      OneChanged(n);
    }

    /** The listener's look-up: afterwards there is a logger of that name. */
    method Provide(n: string) returns (ghost acts: seq<Act>)
      requires Valid()
      modifies `loggers
      ensures Valid() && n in loggers && Locks.Logged(acts) && Grown(old(loggers))
      ensures View() == old(View())[n := OrNew(At(old(View()), n))]
    {
      Locks.LoggedOne(Locks.GetLogger);
      var l;
      l, acts := GetLogger(n);
    }

    method Establish(n: string, d: LogDef) returns (ghost acts: seq<Act>)
      requires Valid()
      modifies `loggers, if n in loggers then {loggers[n]} else {}
      ensures Valid() && Grown(old(loggers))
      ensures View() == old(View())[n := Defined(OrNew(At(old(View()), n)), d)]
      ensures Locks.Logged(acts)
    {
      ghost var now := View();
      acts := Provide(n);
      acts := Redefine(n, d, acts);
      Overwrite(now, n, OrNew(At(now, n)), Defined(OrNew(At(now, n)), d));
    }

    method Vacate(n: string) returns (ghost acts: seq<Act>)
      requires Valid()
      modifies `loggers, if n in loggers then {loggers[n]} else {}
      ensures Valid() && Grown(old(loggers))
      ensures View() == old(View())[n := Removed(OrNew(At(old(View()), n)))]
      ensures Locks.Logged(acts)
    {
      ghost var now := View();
      acts := Provide(n);
      Retire(n);
      Overwrite(now, n, OrNew(At(now, n)), Removed(OrNew(At(now, n))));
    }

    /** The body of the listener's first loop. */
    method Follow(n: string, was: Defs, now: Defs, ghost st: LoggerModel.Loggers, ghost done: set<string>) returns (ghost acts: seq<Act>)
      ensures Locks.Logged(acts)
      requires n in now && n !in done && Shows(ReconciledOn(st, was, now, done))
      modifies `loggers, if n in loggers && At(was, n) != At(now, n) then {loggers[n]} else {}
      ensures Shows(ReconciledOn(st, was, now, done + {n})) && Grown(old(loggers))
    {
      ShowsIffView(ReconciledOn(st, was, now, done));
      ReconciledOnOne(st, was, now, done, n);
      acts := [];
      Locks.LoggedNothing();
      if n in was && was[n] == now[n] {
        return;
      }
      acts := Establish(n, now[n]);
      ShowsIffView(ReconciledOn(st, was, now, done + {n}));
    }

    /** The body of the listener's second loop. */
    method Leave(n: string, was: Defs, now: Defs, ghost st: LoggerModel.Loggers, ghost done: set<string>) returns (ghost acts: seq<Act>)
      ensures Locks.Logged(acts)
      requires n in was && (n in done <==> n in now) && Shows(ReconciledOn(st, was, now, done))
      modifies `loggers, if n in loggers && At(was, n) != At(now, n) then {loggers[n]} else {}
      ensures Shows(ReconciledOn(st, was, now, done + {n})) && Grown(old(loggers))
    {
      ShowsIffView(ReconciledOn(st, was, now, done));
      acts := [];
      Locks.LoggedNothing();
      if n in now {
        assert done + {n} == done;
        return;
      }
      ReconciledOnOne(st, was, now, done, n);
      acts := Vacate(n);
      ShowsIffView(ReconciledOn(st, was, now, done + {n}));
    }

    /** The logger of one name is managed and looks like `v`, or there is none. */
    ghost predicate ShowsAt(n: string, v: Option<LoggerView>)
      reads this, if n in loggers then {loggers[n]} else {}, if n in loggers then loggers[n].appenders else []
    {
      if n in loggers then Managed(n, loggers[n]) && v == Some(loggers[n].View()) else v == None
    }

    /** Name by name, what `Valid` and `View` say together. */
    ghost predicate Shows(st: LoggerModel.Loggers)
      reads this, set n | n in loggers :: loggers[n], set n, i | n in loggers && 0 <= i < |loggers[n].appenders| :: loggers[n].appenders[i]
    {
      ROOT in loggers && loggers[ROOT] == root && forall n :: ShowsAt(n, At(st, n))
    }

    lemma ShowsIffView(st: LoggerModel.Loggers)
      ensures Shows(st) <==> Valid() && View() == st
    {
      if Shows(st) {
        forall n | n in loggers ensures Managed(n, loggers[n]) { assert ShowsAt(n, At(st, n)); }
        forall n ensures At(View(), n) == At(st, n) { assert ShowsAt(n, At(st, n)); }
        SameMap(View(), st);
      }
    }

    /** The first loop: added and changed definitions. */
    method FollowAll(was: Defs, now: Defs, ghost st: LoggerModel.Loggers) returns (ghost acts: seq<Act>)
      ensures Locks.Logged(acts)
      requires Shows(st)
      modifies `loggers, set n | n in loggers && At(was, n) != At(now, n) :: loggers[n]
      ensures Shows(ReconciledOn(st, was, now, now.Keys)) && Grown(old(loggers))
    {
      ReconciledOnNone(st, was, now);
      acts := [];
      Locks.LoggedNothing();
      var todo := now.Keys;
      assert now.Keys - todo == {};
      while todo != {}
        invariant todo <= now.Keys && Grown(old(loggers)) && Locks.Logged(acts)
        invariant Shows(ReconciledOn(st, was, now, now.Keys - todo))
        decreases todo
      {
        todo, acts := FollowNext(todo, was, now, st, acts);
      }
      assert now.Keys - todo == now.Keys;
    }

    method FollowNext(todo: set<string>, was: Defs, now: Defs, ghost st: LoggerModel.Loggers, ghost acts: seq<Act>)
      returns (rest: set<string>, ghost acts1: seq<Act>)
      requires Locks.Logged(acts)
      ensures Locks.Logged(acts1)
      requires todo <= now.Keys && todo != {}
      requires Shows(ReconciledOn(st, was, now, now.Keys - todo))
      modifies `loggers, set n | n in loggers && At(was, n) != At(now, n) :: loggers[n]
      ensures Shows(ReconciledOn(st, was, now, now.Keys - rest))
      ensures rest < todo && Grown(old(loggers))
    {
      var n :| n in todo;
      OneLess(now.Keys, todo, n);
      var more := Follow(n, was, now, st, now.Keys - todo);
      Locks.LoggedConcat(acts, more);
      acts1 := acts + more;
      rest := todo - {n};
    }

    /** The second loop: removed definitions. */
    method LeaveAll(was: Defs, now: Defs, ghost st: LoggerModel.Loggers) returns (ghost acts: seq<Act>)
      ensures Locks.Logged(acts)
      requires Shows(ReconciledOn(st, was, now, now.Keys))
      modifies `loggers, set n | n in loggers && At(was, n) != At(now, n) :: loggers[n]
      ensures Shows(Reconciled(st, was, now)) && Grown(old(loggers))
    {
      acts := [];
      Locks.LoggedNothing();
      var todo := was.Keys;
      assert now.Keys + (was.Keys - todo) == now.Keys;
      while todo != {}
        invariant todo <= was.Keys && Grown(old(loggers)) && Locks.Logged(acts)
        invariant Shows(ReconciledOn(st, was, now, now.Keys + (was.Keys - todo)))
        decreases todo
      {
        todo, acts := LeaveNext(todo, was, now, st, acts);
      }
      assert now.Keys + (was.Keys - todo) == was.Keys + now.Keys;
      ReconciledOnAll(st, was, now);
    }

    method LeaveNext(todo: set<string>, was: Defs, now: Defs, ghost st: LoggerModel.Loggers, ghost acts: seq<Act>)
      returns (rest: set<string>, ghost acts1: seq<Act>)
      requires Locks.Logged(acts)
      ensures Locks.Logged(acts1)
      requires todo <= was.Keys && todo != {}
      requires Shows(ReconciledOn(st, was, now, now.Keys + (was.Keys - todo)))
      modifies `loggers, set n | n in loggers && At(was, n) != At(now, n) :: loggers[n]
      ensures Shows(ReconciledOn(st, was, now, now.Keys + (was.Keys - rest)))
      ensures rest < todo && Grown(old(loggers))
    {
      var n :| n in todo;
      OneLess(was.Keys, todo, n);
      var more := Leave(n, was, now, st, now.Keys + (was.Keys - todo));
      Locks.LoggedConcat(acts, more);
      acts1 := acts + more;
      rest := todo - {n};
      assert now.Keys + (was.Keys - rest) == now.Keys + (was.Keys - todo) + {n};
    }

    method FollowAndLeave(was: Defs, now: Defs, ghost st: LoggerModel.Loggers) returns (ghost acts: seq<Act>)
      ensures Locks.Logged(acts)
      requires Shows(st)
      modifies `loggers, set n | n in loggers && At(was, n) != At(now, n) :: loggers[n]
      ensures Shows(Reconciled(st, was, now)) && Grown(old(loggers))
    {
      acts := FollowAll(was, now, st);
      var more := LeaveAll(was, now, st);
      Locks.LoggedConcat(acts, more);
      acts := acts + more;
    }

    /**
     * The listener on the `logs` variable.
     * Loggers whose definition did not change are not written to. All it does with locks is
     * calling logging operations.
     */
    method Reconcile(was: Defs, now: Defs) returns (ghost acts: seq<Act>)
      requires Valid()
      modifies `loggers, set n | n in loggers && At(was, n) != At(now, n) :: loggers[n]
      ensures Valid() && View() == Reconciled(old(View()), was, now)
      ensures Grown(old(loggers)) && Locks.Logged(acts)
    {
      ghost var st := View();
      ShowsIffView(st);
      acts := FollowAndLeave(was, now, st);
      ShowsIffView(Reconciled(st, was, now));
    }

    /** Logging to a managed logger ends, and delivers through root at most once. */
    method LogTo(name: string, ev: LogEvent) returns (out: seq<Output>, ghost acts: seq<Act>)
      requires Valid() && name in loggers
      ensures name != ROOT ==> loggers[name].lock.Ordinary?
      ensures acts == Locks.Acts(Locks.Blocks(loggers[name].LogCalls(ev)))
      ensures out == Delivered(View()[name], if name == ROOT then None else Some(View()[ROOT]), ev)
    {
      assert Managed(name, loggers[name]) && Managed(ROOT, loggers[ROOT]);
      out, acts := loggers[name].Log(ev);
    }

    /** Loggers are never replaced or dropped; added ones are new objects. */
    twostate predicate Grown(before: map<string, Logger>)
      reads this
    {
      && (forall n :: n in before ==> n in loggers && loggers[n] == before[n])
      && (forall n :: n in loggers && n !in before ==> fresh(loggers[n]))
    }
  }

  lemma OneLess(all: set<string>, todo: set<string>, n: string)
    requires n in todo && todo <= all
    ensures all - (todo - {n}) == all - todo + {n} && todo - {n} < todo
  {
  }

  lemma SameMap(a: LoggerModel.Loggers, b: LoggerModel.Loggers)
    requires forall n :: At(a, n) == At(b, n)
    ensures a == b
  {
    forall n ensures n in a <==> n in b { assert At(a, n) == At(b, n); }
    forall n | n in a ensures a[n] == b[n] { assert At(a, n) == At(b, n); }
  }

  lemma SameValue(m: LoggerModel.Loggers, n: string)
    requires n in m
    ensures m[n := m[n]] == m && OrNew(At(m, n)) == m[n]
  {
  }

  lemma Overwrite(m: LoggerModel.Loggers, n: string, v: LoggerView, w: LoggerView)
    ensures m[n := v][n := w] == m[n := w]
  {
  }
}
