/** Loggers as values: what an event produces, and what one change of the definitions does to every logger. */
module LoggerModel {
  import opened Options
  import opened Seqs
  import opened LogPattern
  import opened LogMeaning
  import opened LogDefines
  import opened LogDefineLaws
  import opened Yaml

  datatype AppenderView = AppenderView(kind: Kind, file: string, level: int, pattern: string)

  datatype LoggerView = LoggerView(level: int, pattern: string, appenders: seq<AppenderView>)

  const DEFAULT_PATTERN := "%d{%Y-%m-%d %H:%M:%S}%T%t%T%N%T%F%T[%p]%T[%c]%T%f:%l%T%m%n"

  /** A logger as its constructor leaves it. */
  const NEW_LOGGER := LoggerView(DEBUG, DEFAULT_PATTERN, [])

  // ----- Delivery -----

  /** A text that reached a file or the console. */
  datatype Output = Output(kind: Kind, file: string, text: string)

  function Line(a: AppenderView, ev: LogEvent): Output {
    Output(a.kind, a.file, Meaning(Parse(a.pattern), ev))
  }

  function Emitted(a: AppenderView, ev: LogEvent): seq<Output> {
    if ev.level >= a.level then [Line(a, ev)] else []
  }

  function EmittedByAll(s: seq<AppenderView>, ev: LogEvent): seq<Output> {
    if s == [] then [] else EmittedByAll(s[..|s| - 1], ev) + Emitted(s[|s| - 1], ev)
  }

  /** `Logger::log` of a logger and its parent, if it has one. */
  function Delivered(v: LoggerView, root: Option<LoggerView>, ev: LogEvent): seq<Output>
    decreases root.Some?
  {
    if ev.level < v.level then []
    else if v.appenders != [] then EmittedByAll(v.appenders, ev)
    else if root.Some? then Delivered(root.value, None, ev)
    else []
  }

  /** The appenders a logger writes to: its own, or those of root if it has none. */
  function Effective(v: LoggerView, root: Option<LoggerView>): seq<AppenderView> {
    if v.appenders == [] && root.Some? then root.value.appenders else v.appenders
  }

  /** All thresholds on the way from the logger to its `i`-th effective appender. */
  predicate Passes(v: LoggerView, root: Option<LoggerView>, ev: LogEvent, i: nat)
    requires i < |Effective(v, root)|
  {
    && ev.level >= v.level
    && (v.appenders == [] && root.Some? ==> ev.level >= root.value.level)
    && ev.level >= Effective(v, root)[i].level
  }

  /** The indices of the appenders in `s` whose threshold the event passes. */
  function Passing(s: seq<AppenderView>, ev: LogEvent): (r: seq<nat>)
    ensures forall k :: 0 <= k < |r| ==> r[k] < |s|
  {
    if s == [] then [] else
      Passing(s[..|s| - 1], ev) + if ev.level >= s[|s| - 1].level then [|s| - 1] else []
  }

  lemma {:induction false} PassingMembers(s: seq<AppenderView>, ev: LogEvent)
    ensures Increasing(Passing(s, ev))
    ensures forall i: nat :: i in Passing(s, ev) <==> i < |s| && ev.level >= s[i].level
  {
    if s != [] {
      PassingMembers(s[..|s| - 1], ev);
    }
  }

  /** The outputs are those of the passing appenders, in order. */
  lemma {:induction false} EmittedByPassing(s: seq<AppenderView>, ev: LogEvent)
    ensures var r := Passing(s, ev);
            && |EmittedByAll(s, ev)| == |r|
            && forall k :: 0 <= k < |r| ==> EmittedByAll(s, ev)[k] == Line(s[r[k]], ev)
  {
    if s != [] {
      EmittedByPassing(s[..|s| - 1], ev);
    }
  }

  /**
   * An event reaches each entry of the effective appender list once, in order, if all
   * thresholds on the way pass, and no other entry; `reached` lists the entries it reached.
   */
  lemma DeliveredOnceIffThresholdsPass(v: LoggerView, root: Option<LoggerView>, ev: LogEvent) returns (reached: seq<nat>)
    ensures Increasing(reached)
    ensures forall i: nat :: i in reached <==> i < |Effective(v, root)| && Passes(v, root, ev, i)
    ensures |Delivered(v, root, ev)| == |reached|
    ensures forall k :: 0 <= k < |reached| ==> reached[k] < |Effective(v, root)|
    ensures forall k :: 0 <= k < |reached| ==> Delivered(v, root, ev)[k] == Line(Effective(v, root)[reached[k]], ev)
  {
    var s := Effective(v, root);
    if ev.level >= v.level && (v.appenders == [] && root.Some? ==> ev.level >= root.value.level) {
      reached := Passing(s, ev);
      PassingMembers(s, ev);
      EmittedByPassing(s, ev);
      assert Delivered(v, root, ev) == EmittedByAll(s, ev);
    } else {
      reached := [];
    }
  }

  /** A new logger hands the events of levels 1 to 5 to root and keeps those below to itself. */
  lemma NewLoggerPassesOn(root: LoggerView, ev: LogEvent)
    ensures Delivered(NEW_LOGGER, Some(root), ev) == if ev.level < 1 then [] else Delivered(root, None, ev)
  {
  }

  // ----- One update of the definitions -----

  function At<T>(m: map<string, T>, n: string): Option<T> {
    if n in m then Some(m[n]) else None
  }

  function OrNew(v: Option<LoggerView>): LoggerView {
    if v.Some? then v.value else NEW_LOGGER
  }

  /** The appenders up to the first of unknown kind, at which the listener stops. */
  function UpToUnknown(s: seq<AppenderDef>): seq<AppenderDef> {
    if s == [] || s[0].kind == UnknownKind then [] else [s[0]] + UpToUnknown(s[1..])
  }

  /** The pattern of a defined logger: an erroneous or empty one leaves the old one in place. */
  function DefinedPattern(current: string, formatter: string): string {
    if formatter != "" && Accepted(formatter) then formatter else current
  }

  /** The appender of a definition: without a pattern of its own it takes the logger's. */
  function DefinedAppender(a: AppenderDef, pattern: string): AppenderView {
    AppenderView(a.kind, if a.kind == FileAppender then a.file else "", a.level, if a.formatter != "" then a.formatter else pattern)
  }

  function DefinedAppenders(s: seq<AppenderDef>, pattern: string): seq<AppenderView> {
    if s == [] then [] else
      DefinedAppenders(s[..|s| - 1], pattern) + [DefinedAppender(s[|s| - 1], pattern)]
  }

  function Defined(v: LoggerView, d: LogDef): LoggerView {
    var pattern := DefinedPattern(v.pattern, d.formatter);
    LoggerView(d.level, pattern, DefinedAppenders(UpToUnknown(d.appenders), pattern))
  }

  function Removed(v: LoggerView): LoggerView {
    v.(level := REMOVED, appenders := [])
  }

  /** What the listener does to the logger of one name, given its old and its new definition. */
  function Next(v: Option<LoggerView>, was: Option<LogDef>, now: Option<LogDef>): Option<LoggerView> {
    if was == now then v
    else if now.Some? then Some(Defined(OrNew(v), now.value))
    else Some(Removed(OrNew(v)))
  }

  type Loggers = map<string, LoggerView>

  /** The loggers after the listener ran: the diff of the two sets, name by name. */
  function Reconciled(st: Loggers, was: Defs, now: Defs): Loggers {
    map n | n in st.Keys + was.Keys + now.Keys && Next(At(st, n), At(was, n), At(now, n)).Some?
      :: Next(At(st, n), At(was, n), At(now, n)).value
  }

  /** Reconciliation of the names in `done` only. */
  function ReconciledOn(st: Loggers, was: Defs, now: Defs, done: set<string>): Loggers {
    map n | n in st.Keys + done && (n in done ==> Next(At(st, n), At(was, n), At(now, n)).Some?)
      :: if n in done then Next(At(st, n), At(was, n), At(now, n)).value else st[n]
  }

  lemma ReconciledOnNone(st: Loggers, was: Defs, now: Defs)
    ensures ReconciledOn(st, was, now, {}) == st
  {
  }

  /** A name whose definition is unchanged needs no work; any other gets the value of `Next`. */
  lemma ReconciledOnOne(st: Loggers, was: Defs, now: Defs, done: set<string>, n: string)
    requires n !in done
    ensures var r := ReconciledOn(st, was, now, done);
            var v := Next(At(st, n), At(was, n), At(now, n));
            && At(r, n) == At(st, n)
            && ReconciledOn(st, was, now, done + {n}) == if v.Some? then r[n := v.value] else r
  {
  }

  lemma ReconciledOnAll(st: Loggers, was: Defs, now: Defs)
    ensures ReconciledOn(st, was, now, was.Keys + now.Keys) == Reconciled(st, was, now)
  {
  }

  lemma ReconciledAt(st: Loggers, was: Defs, now: Defs, n: string)
    ensures At(Reconciled(st, was, now), n) == Next(At(st, n), At(was, n), At(now, n))
  {
  }

  /** What the listener keeps of a definition's appenders is all of them exactly when all kinds are known. */
  lemma {:induction false} AllThereIffKindsKnown(s: seq<AppenderDef>)
    ensures UpToUnknown(s) == s <==> forall i :: 0 <= i < |s| ==> s[i].kind != UnknownKind
  {
    if s != [] {
      AllThereIffKindsKnown(s[1..]);
      assert s == [s[0]] + s[1..];
      assert forall i :: 0 < i < |s| ==> s[i] == s[1..][i - 1];
    }
  }

  /** Definitions that were read from a document lose no appender: the unknown kind does not occur. */
  lemma ReadDefinitionsAreWhole(items: seq<Node>, n: string)
    requires InsertedFrom(items).Some? && n in InsertedFrom(items).value
    ensures UpToUnknown(InsertedFrom(items).value[n].appenders) == InsertedFrom(items).value[n].appenders
  {
    ReadKindsAreKnown(items);
    AllThereIffKindsKnown(InsertedFrom(items).value[n].appenders);
  }

  lemma {:induction false} StopsAt(s: seq<AppenderDef>, i: nat)
    requires i <= |s| && forall k :: 0 <= k < i ==> s[k].kind != UnknownKind
    requires i < |s| ==> s[i].kind == UnknownKind
    ensures UpToUnknown(s) == s[..i]
  {
    if i > 0 {
      StopsAt(s[1..], i - 1);
      assert s[..i] == [s[0]] + s[1..][..i - 1];
    }
  }
}
