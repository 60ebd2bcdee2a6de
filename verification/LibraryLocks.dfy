/** Which locks each operation of the library takes and nested how, and what its nestings conform to. */
module LibraryLocks {
  import opened LockOrder

  /** A scoped guard: the lock is held while the body runs. */
  datatype Block = Hold(lock: Lock, mode: Mode, body: seq<Block>)

  function Acts(bs: seq<Block>): seq<Act> {
    if bs == [] then [] else
      var l, mode := bs[0].lock, bs[0].mode;
      [Ask(l, mode), Acquire(l, mode)] + (Acts(bs[0].body) + ([Release(l)] + Acts(bs[1..])))
  }

  // ----- The operations of the library -----

  /** One guarded access to each appender, in order; an appender may occur more than once. */
  function Appenders(ids: seq<nat>): seq<Block> {
    if ids == [] then [] else [Hold(Appender(ids[0]), Exclusive, [])] + Appenders(ids[1..])
  }

  datatype LoggerLocks = LoggerLocks(lock: Lock, appenders: seq<nat>)

  function EachLogger(ls: seq<LoggerLocks>): seq<Block> {
    if ls == [] then [] else [Hold(ls[0].lock, Exclusive, Appenders(ls[0].appenders))] + EachLogger(ls[1..])
  }

  /** Events logged to root one after the other, each to the given appenders. */
  function RootLogs(events: seq<seq<nat>>): seq<Block> {
    if events == [] then [] else [Hold(Root, Exclusive, Appenders(events[0]))] + RootLogs(events[1..])
  }

  /**
   * One call, with the nested accesses it makes in the run at hand: `appenders` lists the
   * appenders it touches, `callbacks` is what the user code it calls does.
   */
  datatype Call =
    /** Any call on an appender. */
    | OnAppender(id: nat)
    /** `addAppender`, `delAppender`, `setFormatter`, `getFormatter`, `toYamlString`, or `log` to own appenders. */
    | OnLogger(logger: LoggerLocks)
    /** `log` on an ordinary logger without appenders. */
    | LogThroughRoot(id: nat, appenders: seq<nat>)
    | GetLogger
    | ManagerToYaml(loggers: seq<LoggerLocks>)
    /** `LookupBase`, or `Lookup` of a name that is missing or has the right type. */
    | LookupVar
    /** `Lookup` of a variable of another type: its value is converted and errors are logged to root under the registry's lock. */
    | LookupWrongType(i: nat, errors: seq<seq<nat>>)
    | Register
    | Visit(callbacks: seq<Block>)
    /**
     * `toString`, `getValue`, `getListener`. `toString` runs the conversion to text under the
     * read lock; one that takes locks itself has the form of `SetNothing`, or of `Visit`.
     */
    | ReadVar(i: nat)
    /** `addListener`, `delListener`, `clearListener`. */
    | ChangeListeners(i: nat)
    /** `setValue` of an equal value, or one in which a listener throws. */
    | SetNothing(i: nat, callbacks: seq<Block>)
    | SetValue(i: nat, callbacks: seq<Block>)

  function BlocksOf(c: Call): seq<Block> {
    match c
    case OnAppender(id) => Appenders([id])
    case OnLogger(l) => EachLogger([l])
    case LogThroughRoot(id, ids) => [Hold(Ordinary(id), Exclusive, [Hold(Root, Exclusive, Appenders(ids))])]
    case GetLogger => [Hold(Manager, Exclusive, [])]
    case ManagerToYaml(ls) => [Hold(Manager, Exclusive, EachLogger(ls))]
    case LookupVar => [Hold(Registry, Shared, [])]
    case LookupWrongType(i, errors) => [Hold(Registry, Shared, [Hold(Var(i), Shared, [])] + RootLogs(errors))]
    case Register => [Hold(Registry, Exclusive, [])]
    case Visit(cbs) => [Hold(Registry, Shared, cbs)]
    case ReadVar(i) => [Hold(Var(i), Shared, [])]
    case ChangeListeners(i) => [Hold(Var(i), Exclusive, [])]
    case SetNothing(i, cbs) => [Hold(Var(i), Shared, cbs)]
    case SetValue(i, cbs) => [Hold(Var(i), Shared, cbs)] + [Hold(Var(i), Exclusive, [])]
  }

  function Blocks(cs: seq<Call>): seq<Block> {
    if cs == [] then [] else BlocksOf(cs[0]) + Blocks(cs[1..])
  }

  lemma {:induction false} ActsConcat(a: seq<Block>, b: seq<Block>)
    ensures Acts(a + b) == Acts(a) + Acts(b)
  {
    if a == [] {
      assert a + b == b;
    } else {
      var l, mode := a[0].lock, a[0].mode;
      assert (a + b)[0] == a[0] && (a + b)[1..] == a[1..] + b;
      ActsConcat(a[1..], b);
      assert Acts(a + b) == Acts(a) + Acts(b);
    }
  }

  lemma {:induction false} BlocksConcat(a: seq<Call>, b: seq<Call>)
    ensures Blocks(a + b) == Blocks(a) + Blocks(b)
  {
    if a == [] {
      assert a + b == b;
    } else {
      assert (a + b)[0] == a[0] && (a + b)[1..] == a[1..] + b;
      BlocksConcat(a[1..], b);
    }
  }

  lemma BlocksOne(c: Call)
    ensures Blocks([c]) == BlocksOf(c)
  {
    assert [c][1..] == [] && BlocksOf(c) + [] == BlocksOf(c);
  }

  /** A guard around code: opened, the code's acts, closed. */
  lemma ActsHold(l: Lock, mode: Mode, body: seq<Block>)
    ensures Acts([Hold(l, mode, body)]) == [Ask(l, mode), Acquire(l, mode)] + Acts(body) + [Release(l)]
  {
    assert [Hold(l, mode, body)][1..] == [];
  }

  lemma {:induction false} AppendersPush(ids: seq<nat>, id: nat)
    ensures Appenders(ids + [id]) == Appenders(ids) + [Hold(Appender(id), Exclusive, [])]
  {
    if ids == [] {
      assert [id][1..] == [] && [] + [id] == [id];
    } else {
      assert (ids + [id])[1..] == ids[1..] + [id];
      AppendersPush(ids[1..], id);
    }
  }

  function Guarded(l: Lock, mode: Mode, acts: seq<Act>): seq<Act> {
    [Ask(l, mode), Acquire(l, mode)] + acts + [Release(l)]
  }

  lemma OnAppenderActs(id: nat)
    ensures Acts(BlocksOf(OnAppender(id))) == Guarded(Appender(id), Exclusive, [])
  {
    assert [id][1..] == [] && Appenders([id]) == [Hold(Appender(id), Exclusive, [])];
    ActsHold(Appender(id), Exclusive, []);
  }

  lemma AppendersActsPush(ids: seq<nat>, id: nat)
    ensures Acts(Appenders(ids + [id])) == Acts(Appenders(ids)) + Acts(BlocksOf(OnAppender(id)))
  {
    AppendersPush(ids, id);
    ActsConcat(Appenders(ids), [Hold(Appender(id), Exclusive, [])]);
    OnAppenderActs(id);
    ActsHold(Appender(id), Exclusive, []);
  }

  lemma OnLoggerActs(l: Lock, ids: seq<nat>)
    ensures Acts(BlocksOf(OnLogger(LoggerLocks(l, ids)))) == Guarded(l, Exclusive, Acts(Appenders(ids)))
  {
    var ls := [LoggerLocks(l, ids)];
    assert ls[1..] == [] && EachLogger(ls) == [Hold(l, Exclusive, Appenders(ids))];
    ActsHold(l, Exclusive, Appenders(ids));
  }

  /** One or two accesses to an appender inside a logger's guard. */
  lemma AddAppenderActs(l: Lock, id: nat)
    ensures Acts(BlocksOf(OnLogger(LoggerLocks(l, [id])))) == Guarded(l, Exclusive, Acts(BlocksOf(OnAppender(id))))
    ensures Acts(BlocksOf(OnLogger(LoggerLocks(l, [id, id]))))
         == Guarded(l, Exclusive, Acts(BlocksOf(OnAppender(id))) + Acts(BlocksOf(OnAppender(id))))
  {
    OnLoggerActs(l, [id]);
    OnLoggerActs(l, [id, id]);
    AppendersActsPush([], id);
    AppendersActsPush([id], id);
    assert [] + [id] == [id] && [id] + [id] == [id, id];
  }

  lemma LogThroughRootActs(id: nat, ids: seq<nat>)
    ensures Acts(BlocksOf(LogThroughRoot(id, ids)))
         == Guarded(Ordinary(id), Exclusive, Acts(BlocksOf(OnLogger(LoggerLocks(Root, ids)))))
  {
    OnLoggerActs(Root, ids);
    ActsHold(Root, Exclusive, Appenders(ids));
    ActsHold(Ordinary(id), Exclusive, [Hold(Root, Exclusive, Appenders(ids))]);
  }

  // ----- What code may do under which lock -----

  /** Logger manager, ordinary loggers, root logger, appenders. */
  function LogRank(l: Lock): int {
    match l
    case Manager => 0
    case Ordinary(_) => 1
    case Root => 2
    case Appender(_) => 3
    case _ => -1
  }

  /** Logging locks only, each above `r` and above those around it. */
  predicate Logs(bs: seq<Block>, r: int) {
    bs != [] ==> !IsConfig(bs[0].lock) && LogRank(bs[0].lock) > r && Logs(bs[0].body, LogRank(bs[0].lock)) && Logs(bs[1..], r)
  }

  /**
   * What the code that runs under each configuration lock does with others: `changes` relates a
   * lock to those it may take in any way, `peeks` to those it may only read-lock and release at
   * once. Code runs under a variable's lock when its listeners are called, and under the
   * registry's lock in `Visit` and when `Lookup` finds another type.
   */
  datatype Uses = Uses(changes: set<(Lock, Lock)>, peeks: set<(Lock, Lock)>)

  /** A hold of a configuration lock: a write lock covers no calls, a read lock only what `u` says. */
  predicate Conforms(u: Uses, b: Block)
    decreases b
  {
    b.body != [] ==> b.mode == Shared && Within(u, b.lock, b.body)
  }

  /** What may happen while `l` is held. */
  predicate Within(u: Uses, l: Lock, bs: seq<Block>)
    decreases bs
  {
    bs != [] ==>
      var b := bs[0];
      && (if IsConfig(b.lock) then
            || ((l, b.lock) in u.changes && Conforms(u, b))
            || ((l, b.lock) in u.peeks && b.mode == Shared && b.body == [])
          else Logs([b], -1))
      && Within(u, l, bs[1..])
  }

  /** What may happen while nothing is held. */
  predicate Program(u: Uses, bs: seq<Block>) {
    bs != [] ==> (if IsConfig(bs[0].lock) then Conforms(u, bs[0]) else Logs([bs[0]], -1)) && Program(u, bs[1..])
  }

  lemma {:induction false} LogsConcat(a: seq<Block>, b: seq<Block>, r: int)
    ensures Logs(a + b, r) <==> Logs(a, r) && Logs(b, r)
  {
    if a == [] {
      assert a + b == b;
    } else {
      assert (a + b)[0] == a[0] && (a + b)[1..] == a[1..] + b;
      LogsConcat(a[1..], b, r);
    }
  }

  lemma LogsOne(b: Block, r: int)
    ensures Logs([b], r) <==> !IsConfig(b.lock) && LogRank(b.lock) > r && Logs(b.body, LogRank(b.lock))
  {
    assert [b][1..] == [];
  }

  lemma {:induction false} LogsAnywhere(u: Uses, l: Lock, bs: seq<Block>)
    requires Logs(bs, -1)
    ensures Within(u, l, bs) && Program(u, bs)
  {
    if bs != [] {
      LogsOne(bs[0], -1);
      LogsAnywhere(u, l, bs[1..]);
    }
  }

  lemma {:induction false} WithinConcat(u: Uses, l: Lock, a: seq<Block>, b: seq<Block>)
    ensures Within(u, l, a + b) <==> Within(u, l, a) && Within(u, l, b)
  {
    if a == [] {
      assert a + b == b;
    } else {
      assert (a + b)[0] == a[0] && (a + b)[1..] == a[1..] + b;
      WithinConcat(u, l, a[1..], b);
    }
  }

  lemma {:induction false} ProgramConcat(u: Uses, a: seq<Block>, b: seq<Block>)
    ensures Program(u, a + b) <==> Program(u, a) && Program(u, b)
  {
    if a == [] {
      assert a + b == b;
    } else {
      assert (a + b)[0] == a[0] && (a + b)[1..] == a[1..] + b;
      ProgramConcat(u, a[1..], b);
    }
  }

  // ----- The library's own nestings -----

  predicate IsLogger(l: Lock) {
    l.Ordinary? || l.Root?
  }

  predicate IsLogging(c: Call) {
    match c
    case OnAppender(_) => true
    case OnLogger(l) => IsLogger(l.lock)
    case LogThroughRoot(_, _) => true
    case GetLogger => true
    case ManagerToYaml(ls) => forall k :: 0 <= k < |ls| ==> IsLogger(ls[k].lock)
    case _ => false
  }

  /** These acts are those of some logging calls, one after the other. */
  ghost predicate Logged(acts: seq<Act>) {
    exists cs :: AllLogging(cs) && acts == Acts(Blocks(cs))
  }

  predicate AllLogging(cs: seq<Call>) {
    forall k :: 0 <= k < |cs| ==> IsLogging(cs[k])
  }

  lemma LoggedNothing()
    ensures Logged([])
  {
    assert AllLogging([]) && Acts(Blocks([])) == [];
  }

  lemma LoggedOne(c: Call)
    requires IsLogging(c)
    ensures Logged(Acts(BlocksOf(c)))
  {
    BlocksOne(c);
    assert AllLogging([c]);
  }

  lemma LoggedConcat(a: seq<Act>, b: seq<Act>)
    requires Logged(a) && Logged(b)
    ensures Logged(a + b)
  {
    var cs :| AllLogging(cs) && a == Acts(Blocks(cs));
    var ds :| AllLogging(ds) && b == Acts(Blocks(ds));
    BlocksConcat(cs, ds);
    ActsConcat(Blocks(cs), Blocks(ds));
    assert AllLogging(cs + ds);
  }

  lemma {:induction false} AppendersLog(ids: seq<nat>, r: int)
    requires r < 3
    ensures Logs(Appenders(ids), r)
  {
    if ids != [] { AppendersLog(ids[1..], r); }
  }

  lemma {:induction false} LoggersLog(ls: seq<LoggerLocks>, r: int)
    requires r < 1 && forall k :: 0 <= k < |ls| ==> IsLogger(ls[k].lock)
    ensures Logs(EachLogger(ls), r)
  {
    if ls != [] {
      AppendersLog(ls[0].appenders, LogRank(ls[0].lock));
      LoggersLog(ls[1..], r);
    }
  }

  lemma {:induction false} RootLogsLog(events: seq<seq<nat>>)
    ensures Logs(RootLogs(events), -1)
  {
    if events != [] {
      AppendersLog(events[0], 2);
      RootLogsLog(events[1..]);
    }
  }

  /** Logging operations climb from manager to ordinary logger to root logger to appender. */
  lemma LoggingClimbs(c: Call)
    requires IsLogging(c)
    ensures Logs(BlocksOf(c), -1)
  {
    match c
    case OnAppender(id) => AppendersLog([id], -1);
    case OnLogger(l) => LoggersLog([l], -1);
    case LogThroughRoot(id, ids) =>
      AppendersLog(ids, 2);
      LogsOne(Hold(Root, Exclusive, Appenders(ids)), 1);
    case GetLogger =>
    case ManagerToYaml(ls) => LoggersLog(ls, 0);
  }

  /** A callback made of logging calls, like the one on the `logs` variable, is allowed under every lock. */
  lemma {:induction false} LoggingCallbacksAreAllowed(u: Uses, l: Lock, cs: seq<Call>)
    requires AllLogging(cs)
    ensures Within(u, l, Blocks(cs))
  {
    if cs != [] {
      LoggingClimbs(cs[0]);
      LogsAnywhere(u, l, BlocksOf(cs[0]));
      LoggingCallbacksAreAllowed(u, l, cs[1..]);
      WithinConcat(u, l, BlocksOf(cs[0]), Blocks(cs[1..]));
    }
  }

  /** What a call asks of its caller: that the user code it calls keeps to `u`. */
  predicate Keeps(u: Uses, c: Call) {
    match c
    case LookupWrongType(i, _) => (Registry, Var(i)) in u.changes || (Registry, Var(i)) in u.peeks
    case Visit(cbs) => Within(u, Registry, cbs)
    case SetNothing(i, cbs) => Within(u, Var(i), cbs)
    case SetValue(i, cbs) => Within(u, Var(i), cbs)
    case LookupVar => true
    case Register => true
    case ReadVar(_) => true
    case ChangeListeners(_) => true
    case _ => IsLogging(c)
  }

  /** Under that condition the library itself keeps to `u`. */
  lemma CallConforms(u: Uses, c: Call)
    requires Keeps(u, c)
    ensures Program(u, BlocksOf(c))
  {
    match c
    case LookupWrongType(i, errors) =>
      RootLogsLog(errors);
      LogsAnywhere(u, Registry, RootLogs(errors));
      WithinConcat(u, Registry, [Hold(Var(i), Shared, [])], RootLogs(errors));
    case SetValue(i, cbs) => ProgramConcat(u, [Hold(Var(i), Shared, cbs)], [Hold(Var(i), Exclusive, [])]);
    case Visit(_) =>
    case SetNothing(_, _) =>
    case LookupVar =>
    case Register =>
    case ReadVar(_) =>
    case ChangeListeners(_) =>
    case _ =>
      LoggingClimbs(c);
      LogsAnywhere(u, Registry, BlocksOf(c));
  }

  lemma {:induction false} CallsConform(u: Uses, cs: seq<Call>)
    requires forall k :: 0 <= k < |cs| ==> Keeps(u, cs[k])
    ensures Program(u, Blocks(cs))
  {
    if cs != [] {
      CallConforms(u, cs[0]);
      CallsConform(u, cs[1..]);
      ProgramConcat(u, BlocksOf(cs[0]), Blocks(cs[1..]));
    }
  }
}
