/** Which locks are held at each acquisition of every call, read off the acts alone. */
module LockNesting {
  import opened Seqs
  import opened LockOrder
  import opened LibraryLocks

  /** A lock is taken while these others are held, outermost first. */
  datatype Taking = Taking(held: seq<Held>, lock: Lock, mode: Mode)

  /** The acquisitions among the acts of a thread that holds `held` at first. */
  function Takings(held: seq<Held>, todo: seq<Act>): seq<Taking>
    decreases |todo|
  {
    if todo == [] then [] else
      match todo[0]
      case Ask(_, _) => Takings(held, todo[1..])
      case Acquire(l, mode) => [Taking(held, l, mode)] + Takings(held + [Held(l, mode)], todo[1..])
      case Release(_) => Takings(if held == [] then [] else held[..|held| - 1], todo[1..])
  }

  /** The same for nested guards. */
  function TakingsIn(held: seq<Held>, bs: seq<Block>): seq<Taking>
    decreases bs
  {
    if bs == [] then [] else
      [Taking(held, bs[0].lock, bs[0].mode)] + (TakingsIn(held + [Held(bs[0].lock, bs[0].mode)], bs[0].body) + TakingsIn(held, bs[1..]))
  }

  /** A guard is opened, its body runs, and it is closed. */
  lemma OneGuard(held: seq<Held>, l: Lock, mode: Mode, rest: seq<Act>)
    ensures Takings(held, [Ask(l, mode), Acquire(l, mode)] + rest) == [Taking(held, l, mode)] + Takings(held + [Held(l, mode)], rest)
    ensures Takings(held + [Held(l, mode)], [Release(l)] + rest) == Takings(held, rest)
  {
    var acts := [Ask(l, mode), Acquire(l, mode)] + rest;
    assert acts[1..] == [Acquire(l, mode)] + rest && acts[1..][1..] == rest;
    assert ([Release(l)] + rest)[1..] == rest;
    PushInit(held, Held(l, mode));
  }

  lemma {:induction false} GuardsTake(held: seq<Held>, bs: seq<Block>, rest: seq<Act>)
    ensures Takings(held, Acts(bs) + rest) == TakingsIn(held, bs) + Takings(held, rest)
    decreases bs
  {
    if bs == [] {
      assert [] + rest == rest && [] + Takings(held, rest) == Takings(held, rest);
    } else {
      var l, mode := bs[0].lock, bs[0].mode;
      var inner, tail := held + [Held(l, mode)], Acts(bs[1..]) + rest;
      assert Acts(bs) + rest == [Ask(l, mode), Acquire(l, mode)] + (Acts(bs[0].body) + ([Release(l)] + tail));
      OneGuard(held, l, mode, Acts(bs[0].body) + ([Release(l)] + tail));
      GuardsTake(inner, bs[0].body, [Release(l)] + tail);
      OneGuard(held, l, mode, tail);
      GuardsTake(held, bs[1..], rest);
      Reassociate([Taking(held, l, mode)], TakingsIn(inner, bs[0].body), TakingsIn(held, bs[1..]), Takings(held, rest));
    }
  }

  lemma Reassociate(a: seq<Taking>, b: seq<Taking>, c: seq<Taking>, d: seq<Taking>)
    ensures a + (b + (c + d)) == a + (b + c) + d
  {
  }

  lemma CallTakes(c: Call)
    ensures Takings([], Acts(BlocksOf(c))) == TakingsIn([], BlocksOf(c))
  {
    GuardsTake([], BlocksOf(c), []);
    assert Acts(BlocksOf(c)) + [] == Acts(BlocksOf(c)) && TakingsIn([], BlocksOf(c)) + [] == TakingsIn([], BlocksOf(c));
  }

  lemma CodeTakes(held: seq<Held>, bs: seq<Block>)
    ensures TakingsIn(held, bs) == Takings(held, Acts(bs))
  {
    GuardsTake(held, bs, []);
    assert Acts(bs) + [] == Acts(bs) && TakingsIn(held, bs) + [] == TakingsIn(held, bs);
  }

  // ----- Expected nestings -----

  function Mutex(l: Lock): Held {
    Held(l, Exclusive)
  }

  /** Each of these appenders is taken while exactly `held` is held. */
  function EachAppender(held: seq<Held>, ids: seq<nat>): (r: seq<Taking>)
    ensures |r| == |ids| && forall i :: 0 <= i < |ids| ==> r[i] == Taking(held, Appender(ids[i]), Exclusive)
  {
    if ids == [] then [] else [Taking(held, Appender(ids[0]), Exclusive)] + EachAppender(held, ids[1..])
  }

  lemma {:induction false} AppendersTake(held: seq<Held>, ids: seq<nat>)
    ensures TakingsIn(held, Appenders(ids)) == EachAppender(held, ids)
  {
    if ids != [] {
      AppendersTake(held, ids[1..]);
      assert Appenders(ids)[1..] == Appenders(ids[1..]);
    }
  }

  lemma OneHold(held: seq<Held>, l: Lock, mode: Mode, body: seq<Block>)
    ensures TakingsIn(held, [Hold(l, mode, body)]) == [Taking(held, l, mode)] + TakingsIn(held + [Held(l, mode)], body)
  {
    assert [Hold(l, mode, body)][1..] == [];
    assert TakingsIn(held + [Held(l, mode)], body) + [] == TakingsIn(held + [Held(l, mode)], body);
  }

  /** A call that is one guard. */
  lemma CallHolds(c: Call, l: Lock, mode: Mode, body: seq<Block>)
    requires BlocksOf(c) == [Hold(l, mode, body)]
    ensures Takings([], Acts(BlocksOf(c))) == [Taking([], l, mode)] + TakingsIn([Held(l, mode)], body)
  {
    CallTakes(c);
    OneHold([], l, mode, body);
    assert [] + [Held(l, mode)] == [Held(l, mode)];
  }

  // ----- Logging -----

  /** `log` on a logger with appenders, and the other calls on one logger: its appenders are taken while its own lock is held. */
  lemma OnLoggerNesting(l: LoggerLocks)
    ensures Takings([], Acts(BlocksOf(OnLogger(l)))) == [Taking([], l.lock, Exclusive)] + EachAppender([Mutex(l.lock)], l.appenders)
  {
    assert [l][1..] == [] && EachLogger([l]) == [Hold(l.lock, Exclusive, Appenders(l.appenders))];
    CallHolds(OnLogger(l), l.lock, Exclusive, Appenders(l.appenders));
    AppendersTake([Mutex(l.lock)], l.appenders);
  }

  /** `log` through root: root's lock is taken while the logger's is held, and the appenders while exactly these two are. */
  lemma LogThroughRootNesting(id: nat, ids: seq<nat>)
    ensures Takings([], Acts(BlocksOf(LogThroughRoot(id, ids))))
         == [Taking([], Ordinary(id), Exclusive), Taking([Mutex(Ordinary(id))], Root, Exclusive)]
            + EachAppender([Mutex(Ordinary(id)), Mutex(Root)], ids)
  {
    CallHolds(LogThroughRoot(id, ids), Ordinary(id), Exclusive, [Hold(Root, Exclusive, Appenders(ids))]);
    OneHold([Mutex(Ordinary(id))], Root, Exclusive, Appenders(ids));
    AppendersTake([Mutex(Ordinary(id)), Mutex(Root)], ids);
    assert [Mutex(Ordinary(id))] + [Mutex(Root)] == [Mutex(Ordinary(id)), Mutex(Root)];
  }

  /** The loggers one after the other, each with its appenders, while `held` is held. */
  function LoggersIn(held: seq<Held>, ls: seq<LoggerLocks>): seq<Taking> {
    if ls == [] then [] else
      [Taking(held, ls[0].lock, Exclusive)] + (EachAppender(held + [Mutex(ls[0].lock)], ls[0].appenders) + LoggersIn(held, ls[1..]))
  }

  lemma {:induction false} LoggersTake(held: seq<Held>, ls: seq<LoggerLocks>)
    ensures TakingsIn(held, EachLogger(ls)) == LoggersIn(held, ls)
  {
    if ls != [] {
      LoggersTake(held, ls[1..]);
      AppendersTake(held + [Mutex(ls[0].lock)], ls[0].appenders);
      assert EachLogger(ls)[1..] == EachLogger(ls[1..]);
    }
  }

  /** The manager's `toYamlString` visits every logger under the manager's lock; `getLogger` takes only that. */
  lemma ManagerNesting(ls: seq<LoggerLocks>)
    ensures Takings([], Acts(BlocksOf(ManagerToYaml(ls)))) == [Taking([], Manager, Exclusive)] + LoggersIn([Mutex(Manager)], ls)
    ensures Takings([], Acts(BlocksOf(GetLogger))) == [Taking([], Manager, Exclusive)]
  {
    CallHolds(ManagerToYaml(ls), Manager, Exclusive, EachLogger(ls));
    LoggersTake([Mutex(Manager)], ls);
    CallHolds(GetLogger, Manager, Exclusive, []);
  }

  // ----- Configuration -----

  /** `setValue`: the listeners' code runs while the variable is held shared, and one exclusive hold follows if the value is stored. */
  lemma SetValueNesting(i: nat, cbs: seq<Block>)
    ensures Takings([], Acts(BlocksOf(SetNothing(i, cbs)))) == [Taking([], Var(i), Shared)] + Takings([Held(Var(i), Shared)], Acts(cbs))
    ensures Takings([], Acts(BlocksOf(SetValue(i, cbs))))
         == [Taking([], Var(i), Shared)] + Takings([Held(Var(i), Shared)], Acts(cbs)) + [Taking([], Var(i), Exclusive)]
  {
    CallHolds(SetNothing(i, cbs), Var(i), Shared, cbs);
    CodeTakes([Held(Var(i), Shared)], cbs);
    CallTakes(SetValue(i, cbs));
    TwoHolds(Hold(Var(i), Shared, cbs), Hold(Var(i), Exclusive, []));
  }

  lemma TwoHolds(a: Block, b: Block)
    requires b.body == []
    ensures TakingsIn([], [a] + [b]) == [Taking([], a.lock, a.mode)] + TakingsIn([Held(a.lock, a.mode)], a.body) + [Taking([], b.lock, b.mode)]
  {
    assert ([a] + [b])[1..] == [b] && [b][1..] == [];
    assert [] + [Held(a.lock, a.mode)] == [Held(a.lock, a.mode)];
    assert TakingsIn([], [b]) == [Taking([], b.lock, b.mode)];
  }

  lemma {:induction false} RootLogsTake(held: seq<Held>, events: seq<seq<nat>>)
    ensures TakingsIn(held, RootLogs(events)) == RootLogsIn(held, events)
  {
    if events != [] {
      RootLogsTake(held, events[1..]);
      AppendersTake(held + [Mutex(Root)], events[0]);
      assert RootLogs(events)[1..] == RootLogs(events[1..]);
    }
  }

  /** Root is taken for each reported error, and its appenders inside. */
  function RootLogsIn(held: seq<Held>, events: seq<seq<nat>>): seq<Taking> {
    if events == [] then [] else
      [Taking(held, Root, Exclusive)] + (EachAppender(held + [Mutex(Root)], events[0]) + RootLogsIn(held, events[1..]))
  }

  /** `Lookup` of a variable of another type reads that variable and reports to root, all while the registry is held shared. */
  lemma LookupWrongTypeNesting(i: nat, errors: seq<seq<nat>>)
    ensures Takings([], Acts(BlocksOf(LookupWrongType(i, errors))))
         == [Taking([], Registry, Shared)] + ([Taking([Held(Registry, Shared)], Var(i), Shared)] + RootLogsIn([Held(Registry, Shared)], errors))
  {
    var held := [Held(Registry, Shared)];
    var body := [Hold(Var(i), Shared, [])] + RootLogs(errors);
    CallHolds(LookupWrongType(i, errors), Registry, Shared, body);
    assert body[1..] == RootLogs(errors);
    assert [] + RootLogsIn(held, errors) == RootLogsIn(held, errors);
    RootLogsTake(held, errors);
  }

  /** The calls that hold one lock for a moment. */
  lemma SingleNestings(i: nat)
    ensures Takings([], Acts(BlocksOf(OnAppender(i)))) == [Taking([], Appender(i), Exclusive)]
    ensures Takings([], Acts(BlocksOf(LookupVar))) == [Taking([], Registry, Shared)]
    ensures Takings([], Acts(BlocksOf(Register))) == [Taking([], Registry, Exclusive)]
    ensures Takings([], Acts(BlocksOf(ReadVar(i)))) == [Taking([], Var(i), Shared)]
    ensures Takings([], Acts(BlocksOf(ChangeListeners(i)))) == [Taking([], Var(i), Exclusive)]
  {
    CallTakes(OnAppender(i));
    AppendersTake([], [i]);
    CallHolds(LookupVar, Registry, Shared, []);
    CallHolds(Register, Registry, Exclusive, []);
    CallHolds(ReadVar(i), Var(i), Shared, []);
    CallHolds(ChangeListeners(i), Var(i), Exclusive, []);
  }

  /** The callbacks of `Visit` run while the registry is held shared. */
  lemma VisitNesting(cbs: seq<Block>)
    ensures Takings([], Acts(BlocksOf(Visit(cbs)))) == [Taking([], Registry, Shared)] + Takings([Held(Registry, Shared)], Acts(cbs))
  {
    CallHolds(Visit(cbs), Registry, Shared, cbs);
    CodeTakes([Held(Registry, Shared)], cbs);
  }
}
