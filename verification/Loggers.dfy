/**
 * Appenders and loggers as they change in place. The ghost results `acts` are the locks a call
 * takes and releases, in the order in which it constructs and destroys its guards.
 */
module Loggers {
  import opened Options
  import opened Seqs
  import opened LogMeaning
  import opened LogDefines
  import opened Formatter
  import opened LoggerModel
  import opened LockOrder
  import Locks = LibraryLocks

  /** Both appender classes: `kind` tells which, and only file appenders have a file. */
  class LogAppender {
    const kind: Kind
    const file: string
    var level: int
    var formatter: LogFormatter?
    var hasFormatter: bool
    ghost const lockId: nat // which lock `m_mutex` is

    /** Formatters come in only through `SetFormatter`. */
    ghost predicate Sound()
      reads this
    {
      formatter != null ==> hasFormatter && formatter.Compiled()
    }

    /** It can be logged to: `Log` uses the formatter without looking at it first. */
    ghost predicate Ready()
      reads this
    {
      formatter != null && Sound()
    }

    ghost function View(): AppenderView
      reads this
      requires Ready()
    {
      AppenderView(kind, file, level, formatter.pattern)
    }

    constructor (kind: Kind, file: string)
      ensures this.kind == kind && this.file == file
      ensures level == DEBUG && formatter == null && !hasFormatter
    {
      this.kind, this.file := kind, file;
      level, formatter, hasFormatter := DEBUG, null, false;
    }

    method SetFormatter(val: LogFormatter?) returns (ghost acts: seq<Act>)
      requires val != null ==> val.Compiled()
      modifies `formatter, `hasFormatter
      ensures formatter == val && hasFormatter && Sound()
      ensures acts == Locks.Acts(Locks.BlocksOf(Locks.OnAppender(lockId)))
    {
      acts := [Ask(Appender(lockId), Exclusive), Acquire(Appender(lockId), Exclusive)];
      formatter := val;
      hasFormatter := true;
      acts := acts + [Release(Appender(lockId))];
      Locks.OnAppenderActs(lockId);
    }

    method GetFormatter() returns (val: LogFormatter?, ghost acts: seq<Act>)
      ensures val == formatter
      ensures acts == Locks.Acts(Locks.BlocksOf(Locks.OnAppender(lockId)))
    {
      acts := [Ask(Appender(lockId), Exclusive), Acquire(Appender(lockId), Exclusive)];
      val := formatter;
      acts := acts + [Release(Appender(lockId))];
      Locks.OnAppenderActs(lockId);
    }

    method SetLevel(val: int)
      modifies `level
      ensures level == val
    {
      level := val;
    }

    /** `log` of either kind; the text written is the result. */
    method Log(ev: LogEvent) returns (out: seq<Output>, ghost acts: seq<Act>)
      requires Ready()
      ensures out == Emitted(View(), ev)
      ensures acts == if ev.level >= level then Locks.Acts(Locks.BlocksOf(Locks.OnAppender(lockId))) else []
    {
      out, acts := [], [];
      if ev.level >= level {
        acts := [Ask(Appender(lockId), Exclusive), Acquire(Appender(lockId), Exclusive)];
        var text := formatter.Format(ev);
        out := [Output(kind, file, text)];
        acts := acts + [Release(Appender(lockId))];
        Locks.OnAppenderActs(lockId);
      }
    }
  }

  ghost predicate AllReady(s: seq<LogAppender>)
    reads s
  {
    forall a :: a in s ==> a.Ready()
  }

  ghost function Views(s: seq<LogAppender>): (r: seq<AppenderView>)
    requires AllReady(s)
    reads s
    ensures |r| == |s|
  {
    if s == [] then [] else Views(s[..|s| - 1]) + [s[|s| - 1].View()]
  }

  /** The locks of the appenders whose threshold the event passes. */
  ghost function Touched(s: seq<LogAppender>, ev: LogEvent): seq<nat>
    reads s
  {
    if s == [] then [] else Touched(s[..|s| - 1], ev) + if ev.level >= s[|s| - 1].level then [s[|s| - 1].lockId] else []
  }

  class Logger {
    const name: string
    const root: Logger?
    var level: int
    var formatter: LogFormatter
    var appenders: seq<LogAppender>
    ghost const lock: Lock // which lock `m_mutex` is

    /** Every attached appender has a formatter. */
    ghost predicate Valid()
      reads this, appenders
    {
      formatter.Compiled() && AllReady(appenders)
    }

    ghost function View(): LoggerView
      reads this, appenders
      requires Valid()
    {
      LoggerView(level, formatter.pattern, Views(appenders))
    }

    constructor (name: string, root: Logger?, ghost lock: Lock)
      ensures this.name == name && this.root == root && this.lock == lock
      ensures Valid() && View() == NEW_LOGGER && appenders == [] && fresh(formatter)
    {
      this.name, this.root, this.lock := name, root, lock;
      level, appenders := DEBUG, [];
      formatter := new LogFormatter(DEFAULT_PATTERN);
    }

    method SetLevel(val: int)
      requires Valid()
      modifies `level
      ensures Valid() && View() == old(View()).(level := val)
    {
      level := val;
    }

    /** An appender without a formatter takes the logger's; one that has its own keeps it. */
    method AddAppender(a: LogAppender) returns (ghost acts: seq<Act>)
      requires Valid() && a.Sound()
      modifies `appenders, a`formatter, a`hasFormatter
      ensures Valid() && a.Ready() && appenders == old(appenders) + [a]
      ensures a.formatter == if old(a.formatter) != null then old(a.formatter) else formatter
      ensures old(a.formatter) != null ==> a.hasFormatter == old(a.hasFormatter)
      ensures View() == old(View()).(appenders := old(View()).appenders + [a.View()])
      ensures acts == Locks.Acts(Locks.BlocksOf(Locks.OnLogger(Locks.LoggerLocks(lock,
                        if old(a.formatter) == null then [a.lockId, a.lockId] else [a.lockId]))))
    {
      acts := [Ask(lock, Exclusive), Acquire(lock, Exclusive)];
      var inner := Attach(a);
      acts := acts + inner + [Release(lock)];
      Locks.AddAppenderActs(lock, a.lockId);
    }

    /** What `addAppender` does under its guard. */
    method Attach(a: LogAppender) returns (ghost acts: seq<Act>)
      requires Valid() && a.Sound()
      modifies `appenders, a`formatter, a`hasFormatter
      ensures Valid() && a.Ready() && appenders == old(appenders) + [a]
      ensures a.formatter == if old(a.formatter) != null then old(a.formatter) else formatter
      ensures old(a.formatter) != null ==> a.hasFormatter == old(a.hasFormatter)
      ensures View() == old(View()).(appenders := old(View()).appenders + [a.View()])
      ensures var once := Locks.Acts(Locks.BlocksOf(Locks.OnAppender(a.lockId)));
              acts == if old(a.formatter) == null then once + once else once
    {
      ghost var before := Views(appenders);
      var own;
      own, acts := a.GetFormatter();
      if own == null {
        assert a !in appenders;
        var more := a.SetFormatter(formatter);
        acts := acts + more;
      }
      assert AllReady(appenders) && Views(appenders) == before;
      ViewsPush(appenders, a);
      appenders := appenders + [a];
    }

    /** The first occurrence goes; the others stay in order. */
    method DelAppender(a: LogAppender) returns (ghost at: nat, ghost acts: seq<Act>)
      requires Valid()
      modifies `appenders
      ensures Valid() && acts == Locks.Acts(Locks.BlocksOf(Locks.OnLogger(Locks.LoggerLocks(lock, []))))
      ensures a !in old(appenders) ==> appenders == old(appenders) && View() == old(View())
      ensures a in old(appenders) ==>
                && at < |old(appenders)| && a !in old(appenders)[..at] && old(appenders)[at] == a
                && appenders == old(appenders)[..at] + old(appenders)[at + 1..]
    {
      Locks.OnLoggerActs(lock, []);
      acts := [Ask(lock, Exclusive), Acquire(lock, Exclusive)];
      var i := 0;
      while i < |appenders|
        invariant 0 <= i <= |appenders| && appenders == old(appenders) && a !in appenders[..i]
      {
        if appenders[i] == a {
          appenders := appenders[..i] + appenders[i + 1..];
          at, acts := i, acts + [Release(lock)];
          return;
        }
        i := i + 1;
      }
      at, acts := i, acts + [Release(lock)];
    }

    method ClearAppenders()
      requires Valid()
      modifies `appenders
      ensures Valid() && appenders == [] && View() == old(View()).(appenders := [])
    {
      appenders := [];
    }

    /** The loop of `setFormatter`: only appenders that never got a formatter are changed. */
    method SpreadFormatter() returns (ghost ids: seq<nat>, ghost acts: seq<Act>)
      requires formatter.Compiled()
      modifies set a | a in appenders && !a.hasFormatter
      ensures acts == Locks.Acts(Locks.Appenders(ids))
      ensures ids != [] ==> exists a :: a in appenders && !old(a.hasFormatter)
      ensures forall a :: a in appenders && !old(a.hasFormatter) ==> a.formatter == formatter && a.hasFormatter
      ensures forall a :: a in appenders ==> a.level == old(a.level)
    {
      ids, acts := [], [];
      for i := 0 to |appenders|
        invariant acts == Locks.Acts(Locks.Appenders(ids))
        invariant ids != [] ==> exists a :: a in appenders && !old(a.hasFormatter)
        invariant forall a :: a in appenders && !a.hasFormatter ==> !old(a.hasFormatter)
        invariant forall a :: a in appenders[..i] && !old(a.hasFormatter) ==> a.formatter == formatter && a.hasFormatter
        invariant forall a :: a in appenders ==> a.level == old(a.level)
        invariant forall a :: a in appenders && !old(a.hasFormatter) && a.hasFormatter ==> a.formatter == formatter
      {
        assert appenders[..i + 1] == appenders[..i] + [appenders[i]];
        if !appenders[i].hasFormatter {
          var one := appenders[i].SetFormatter(formatter);
          Locks.AppendersActsPush(ids, appenders[i].lockId);
          ids, acts := ids + [appenders[i].lockId], acts + one;
        }
      }
      assert appenders[..|appenders|] == appenders;
    }

    /**
     * `setFormatter` with a compiled pattern; an erroneous one is ignored.
     * Attached appenders count as having their own formatter, so none of them changes.
     */
    method SetFormatter(val: LogFormatter) returns (ghost acts: seq<Act>)
      requires Valid() && val.Compiled()
      modifies `formatter
      ensures Valid() && formatter == (if val.error then old(formatter) else val)
      ensures View() == old(View()).(pattern := formatter.pattern)
      ensures acts == Locks.Acts(Locks.BlocksOf(Locks.OnLogger(Locks.LoggerLocks(lock, []))))
    {
      Locks.OnLoggerActs(lock, []);
      acts := [Ask(lock, Exclusive), Acquire(lock, Exclusive)];
      if val.error {
        acts := acts + [Release(lock)];
        return;
      }
      formatter := val;
      assert (set a | a in appenders && !a.hasFormatter) == {};
      var ids, inner := SpreadFormatter();
      acts := acts + inner + [Release(lock)];
    }

    /** `setFormatter` with a pattern: an erroneous one is reported and changes nothing. */
    method SetPattern(pattern: string) returns (ghost acts: seq<Act>)
      requires Valid()
      modifies `formatter
      ensures Valid() && appenders == old(appenders)
      ensures View() == old(View()).(pattern := if Accepted(pattern) then pattern else old(View()).pattern)
      ensures acts == if Accepted(pattern) then Locks.Acts(Locks.BlocksOf(Locks.OnLogger(Locks.LoggerLocks(lock, [])))) else []
    {
      acts := [];
      var val := new LogFormatter(pattern);
      if val.error {
        return;
      }
      acts := SetFormatter(val);
    }

    /** What `log` does with locks: nothing below the logger's level, else one call of the lock model. */
    ghost function LogCalls(ev: LogEvent): seq<Locks.Call>
      requires root != null ==> lock.Ordinary?
      reads this, appenders, if root == null then {} else {root}, if root == null then [] else root.appenders
    {
      if ev.level < level then []
      else if appenders != [] then [Locks.OnLogger(Locks.LoggerLocks(lock, Touched(appenders, ev)))]
      else if root == null || ev.level < root.level then [Locks.OnLogger(Locks.LoggerLocks(lock, []))]
      else [Locks.LogThroughRoot(lock.id, Touched(root.appenders, ev))]
    }

    /** `log`: the event goes to the own appenders, or to root if there are none. */
    method Log(ev: LogEvent) returns (out: seq<Output>, ghost acts: seq<Act>)
      requires Valid()
      requires root != null ==> root.Valid() && root.root == null && lock.Ordinary? && root.lock == Root
      ensures out == Delivered(View(), if root == null then None else Some(root.View()), ev)
      ensures acts == Locks.Acts(Locks.Blocks(LogCalls(ev)))
      decreases root != null
    {
      out, acts := [], [];
      if ev.level >= level {
        LogActs(ev);
        acts := [Ask(lock, Exclusive), Acquire(lock, Exclusive)];
        if appenders != [] {
          ghost var inner;
          out, inner := LogToAll(appenders, ev);
          acts := acts + inner;
        } else if root != null {
          ghost var inner;
          out, inner := root.Log(ev);
          acts := acts + inner;
        }
        acts := acts + [Release(lock)];
      }
    }

    lemma LogActs(ev: LogEvent)
      requires ev.level >= level
      requires root != null ==> root.root == null && lock.Ordinary? && root.lock == Root
      ensures Locks.Acts(Locks.Blocks(LogCalls(ev)))
           == [Ask(lock, Exclusive), Acquire(lock, Exclusive)]
              + (if appenders != [] then Locks.Acts(Locks.Appenders(Touched(appenders, ev)))
                 else if root == null then []
                 else Locks.Acts(Locks.Blocks(root.LogCalls(ev)))) + [Release(lock)]
    {
      Locks.BlocksOne(LogCalls(ev)[0]);
      if appenders != [] {
        Locks.OnLoggerActs(lock, Touched(appenders, ev));
      } else if root == null || ev.level < root.level {
        Locks.OnLoggerActs(lock, []);
      } else {
        Locks.BlocksOne(root.LogCalls(ev)[0]);
        Locks.LogThroughRootActs(lock.id, Touched(root.appenders, ev));
      }
    }
  }

  /** The loop of `Logger::log`. */
  method LogToAll(s: seq<LogAppender>, ev: LogEvent) returns (out: seq<Output>, ghost acts: seq<Act>)
    requires AllReady(s)
    ensures out == EmittedByAll(Views(s), ev)
    ensures acts == Locks.Acts(Locks.Appenders(Touched(s, ev)))
  {
    out, acts := [], [];
    for i := 0 to |s|
      invariant Emits(s, i, ev, out) && Takes(s, i, ev, acts)
    {
      var one, inner := s[i].Log(ev);
      EmitsNext(s, i, ev, out);
      TakesNext(s, i, ev, acts);
      out, acts := out + one, acts + inner;
    }
    assert Views(s)[..|s|] == Views(s) && s[..|s|] == s;
  }

  /** What the first `i` appenders emit. */
  ghost predicate Emits(s: seq<LogAppender>, i: nat, ev: LogEvent, out: seq<Output>)
    requires AllReady(s) && i <= |s|
    reads s
  {
    out == EmittedByAll(Views(s)[..i], ev)
  }

  /** What they do with locks. */
  ghost predicate Takes(s: seq<LogAppender>, i: nat, ev: LogEvent, acts: seq<Act>)
    requires i <= |s|
    reads s
  {
    acts == Locks.Acts(Locks.Appenders(Touched(s[..i], ev)))
  }

  lemma EmitsNext(s: seq<LogAppender>, i: nat, ev: LogEvent, out: seq<Output>)
    requires AllReady(s) && i < |s| && Emits(s, i, ev, out)
    ensures Emits(s, i + 1, ev, out + Emitted(s[i].View(), ev))
  {
    ViewsAt(s, i);
    EmittedUpTo(Views(s), i, ev);
  }

  lemma TakesNext(s: seq<LogAppender>, i: nat, ev: LogEvent, acts: seq<Act>)
    requires i < |s| && Takes(s, i, ev, acts)
    ensures Takes(s, i + 1, ev, acts + if ev.level >= s[i].level then Locks.Acts(Locks.BlocksOf(Locks.OnAppender(s[i].lockId))) else [])
  {
    assert s[..i + 1][..i] == s[..i];
    if ev.level >= s[i].level {
      Locks.AppendersActsPush(Touched(s[..i], ev), s[i].lockId);
    } else {
      assert Touched(s[..i + 1], ev) == Touched(s[..i], ev);
    }
  }

  lemma {:induction false} ViewsAt(s: seq<LogAppender>, i: nat)
    requires AllReady(s) && i < |s|
    ensures Views(s)[i] == s[i].View()
  {
    if i < |s| - 1 {
      ViewsAt(s[..|s| - 1], i);
    }
  }

  lemma EmittedUpTo(s: seq<AppenderView>, i: nat, ev: LogEvent)
    requires i < |s|
    ensures EmittedByAll(s[..i + 1], ev) == EmittedByAll(s[..i], ev) + Emitted(s[i], ev)
  {
    assert s[..i + 1][..i] == s[..i];
  }

  lemma ViewsPush(s: seq<LogAppender>, a: LogAppender)
    requires AllReady(s) && a.Ready()
    ensures AllReady(s + [a]) && Views(s + [a]) == Views(s) + [a.View()]
  {
    PushInit(s, a);
  }
}
