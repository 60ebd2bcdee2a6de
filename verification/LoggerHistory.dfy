/**
 * The loggers after any sequence of calls of the listener on `logs`: what they show, and what
 * of it depends on history.
 */
module LoggerHistory {
  import opened Options
  import opened Seqs
  import opened LogMeaning
  import opened LogDefines
  import opened LoggerModel
  import opened ConfigVariable

  // ----- Everything the listener hears -----

  /** The loggers after the library's listener on `logs` was called for each of these changes. */
  function After(initial: Loggers, heard: seq<Call<Defs>>): Loggers {
    if heard == [] then initial else
      var c := heard[|heard| - 1];
      Reconciled(After(initial, heard[..|heard| - 1]), c.before, c.after)
  }

  /** The last definition of a name that came with a change of it: `Some(None)` is its removal. */
  function Told(heard: seq<Call<Defs>>, n: string): Option<Option<LogDef>> {
    if heard == [] then None else
      var c := heard[|heard| - 1];
      if At(c.before, n) != At(c.after, n) then Some(At(c.after, n)) else Told(heard[..|heard| - 1], n)
  }

  /** A logger that does what its definition says. */
  predicate Agrees(v: LoggerView, d: LogDef) {
    && v.level == d.level
    && v.appenders == DefinedAppenders(UpToUnknown(d.appenders), v.pattern)
    && (d.formatter != "" && Accepted(d.formatter) ==> v.pattern == d.formatter)
  }

  /** A removed logger: a level above every event's, and no appenders. */
  predicate IsRemoved(v: LoggerView) {
    v.level == 100 && v.appenders == []
  }

  /** What a logger looks like, given what it started as and what was last said of it. */
  predicate Shows(v: Option<LoggerView>, initial: Option<LoggerView>, told: Option<Option<LogDef>>) {
    match told
    case None => v == initial
    case Some(None) => v.Some? && IsRemoved(v.value)
    case Some(Some(d)) => v.Some? && Agrees(v.value, d)
  }

  /** Whatever changes the listener heard of, in whatever order: every logger shows the last thing said of it. */
  lemma {:induction false} LoggersShowWhatWasTold(initial: Loggers, heard: seq<Call<Defs>>, n: string)
    ensures Shows(At(After(initial, heard), n), At(initial, n), Told(heard, n))
  {
    if heard != [] {
      var init, c := heard[..|heard| - 1], heard[|heard| - 1];
      LoggersShowWhatWasTold(initial, init, n);
      ReconciledAt(After(initial, init), c.before, c.after, n);
    }
  }

  /** Loggers whose definition a change leaves alone are untouched by it. */
  lemma UnchangedAreUntouched(loggers: Loggers, was: Defs, now: Defs, n: string)
    requires At(was, n) == At(now, n)
    ensures At(Reconciled(loggers, was, now), n) == At(loggers, n)
  {
    ReconciledAt(loggers, was, now, n);
  }

  // ----- Chains of changes -----

  /** The set a chain of changes that starts from the empty set ends with. */
  function Last(heard: seq<Call<Defs>>): Defs {
    if heard == [] then map[] else heard[|heard| - 1].after
  }

  predicate Continuous(heard: seq<Call<Defs>>) {
    Chain(heard) && (heard != [] ==> heard[0].before == map[])
  }

  lemma ContinuousInit(heard: seq<Call<Defs>>)
    requires heard != [] && Continuous(heard)
    ensures var init, c := heard[..|heard| - 1], heard[|heard| - 1]; Continuous(init) && c.before == Last(init) && c.before != c.after
  {
  }

  /** A chain of changes says everything about the set it ends with. */
  lemma {:induction false} ChainTellsAll(heard: seq<Call<Defs>>, n: string)
    requires Continuous(heard)
    ensures At(Last(heard), n) == if Told(heard, n).Some? then Told(heard, n).value else None
  {
    if heard != [] {
      ContinuousInit(heard);
      ChainTellsAll(heard[..|heard| - 1], n);
    }
  }

  // ----- What depends on history and what does not -----

  /** The last accepted pattern that came with a change of the logger's definition, or the one it started with. */
  function LastPattern(heard: seq<Call<Defs>>, n: string, initial: string): string {
    if heard == [] then initial else
      var earlier, c := LastPattern(heard[..|heard| - 1], n, initial), heard[|heard| - 1];
      if n in c.after && At(c.before, n) != At(c.after, n) then DefinedPattern(earlier, c.after[n].formatter) else earlier
  }

  function PatternAfter(initial: Loggers, heard: seq<Call<Defs>>, n: string): string {
    LastPattern(heard, n, OrNew(At(initial, n)).pattern)
  }

  /** The logger's own pattern is the one part that remembers: the last accepted one it was given. */
  lemma {:induction false} PatternIsLastAccepted(initial: Loggers, heard: seq<Call<Defs>>, n: string)
    ensures OrNew(At(After(initial, heard), n)).pattern == PatternAfter(initial, heard, n)
  {
    if heard != [] {
      var init, c := heard[..|heard| - 1], heard[|heard| - 1];
      PatternIsLastAccepted(initial, init, n);
      ReconciledAt(After(initial, init), c.before, c.after, n);
    }
  }

  /** Kind, file and level of each appender, without the pattern. */
  function Shapes(s: seq<AppenderView>): seq<(Kind, string, int)> {
    if s == [] then [] else
      var a := s[|s| - 1];
      Shapes(s[..|s| - 1]) + [(a.kind, a.file, a.level)]
  }

  lemma {:induction false} ShapesForgetPattern(s: seq<AppenderDef>, p: string, q: string)
    ensures Shapes(DefinedAppenders(s, p)) == Shapes(DefinedAppenders(s, q))
  {
    if s != [] {
      var init, a := s[..|s| - 1], s[|s| - 1];
      ShapesForgetPattern(init, p, q);
      PushInit(DefinedAppenders(init, p), DefinedAppender(a, p));
      PushInit(DefinedAppenders(init, q), DefinedAppender(a, q));
    }
  }

  /**
   * Level and appender kinds, files and levels of a defined logger do not depend on history:
   * two histories from different starts that last told of the same definition agree on them.
   */
  lemma ShapeDoesNotDependOnHistory(l0: Loggers, h0: seq<Call<Defs>>, l1: Loggers, h1: seq<Call<Defs>>, n: string, d: LogDef)
    requires Told(h0, n) == Some(Some(d)) && Told(h1, n) == Some(Some(d))
    ensures n in After(l0, h0) && n in After(l1, h1)
    ensures After(l0, h0)[n].level == After(l1, h1)[n].level
    ensures Shapes(After(l0, h0)[n].appenders) == Shapes(After(l1, h1)[n].appenders)
  {
    LoggersShowWhatWasTold(l0, h0, n);
    LoggersShowWhatWasTold(l1, h1, n);
    ShapesForgetPattern(UpToUnknown(d.appenders), After(l0, h0)[n].pattern, After(l1, h1)[n].pattern);
  }

  /** A logger last heard of as removed emits no event below level 100, so none of the levels 0 to 5, not even through root. */
  lemma RemovedLoggerIsSilent(initial: Loggers, heard: seq<Call<Defs>>, n: string, root: Option<LoggerView>, ev: LogEvent)
    requires Told(heard, n) == Some(None) && ev.level < 100
    ensures n in After(initial, heard) && Delivered(After(initial, heard)[n], root, ev) == []
  {
    LoggersShowWhatWasTold(initial, heard, n);
  }

  /**
   * A logger that was told a definition has its level, its pattern if that is accepted, and its
   * appenders one by one up to the first of unknown kind: each with its kind, its level, its
   * file if it is a file appender, and its own pattern or else the logger's.
   */
  lemma DefinedLoggerShows(initial: Loggers, heard: seq<Call<Defs>>, n: string, d: LogDef)
    requires Told(heard, n) == Some(Some(d))
    ensures n in After(initial, heard)
    ensures var v := After(initial, heard)[n];
            && v.level == d.level && (d.formatter != "" && Accepted(d.formatter) ==> v.pattern == d.formatter)
            && |v.appenders| <= |d.appenders|
            && (|v.appenders| < |d.appenders| ==> d.appenders[|v.appenders|].kind == UnknownKind)
            && forall i :: 0 <= i < |v.appenders| ==>
                 var a, e := v.appenders[i], d.appenders[i];
                 && e.kind != UnknownKind && a.kind == e.kind && a.level == e.level
                 && a.file == (if e.kind == FileAppender then e.file else "")
                 && a.pattern == (if e.formatter != "" then e.formatter else v.pattern)
  {
    LoggersShowWhatWasTold(initial, heard, n);
    UpToFirstUnknown(d.appenders);
    DefinedOneByOne(UpToUnknown(d.appenders), After(initial, heard)[n].pattern);
  }

  lemma {:induction false} UpToFirstUnknown(s: seq<AppenderDef>)
    ensures var r := UpToUnknown(s);
            && r <= s && (|r| < |s| ==> s[|r|].kind == UnknownKind) && forall i :: 0 <= i < |r| ==> r[i].kind != UnknownKind
  {
    if s != [] { UpToFirstUnknown(s[1..]); }
  }

  lemma {:induction false} DefinedOneByOne(s: seq<AppenderDef>, pattern: string)
    ensures |DefinedAppenders(s, pattern)| == |s|
    ensures forall i :: 0 <= i < |s| ==>
              var a, e := DefinedAppenders(s, pattern)[i], s[i];
              && a.kind == e.kind && a.level == e.level && a.file == (if e.kind == FileAppender then e.file else "")
              && a.pattern == (if e.formatter != "" then e.formatter else pattern)
  {
    if s != [] { DefinedOneByOne(s[..|s| - 1], pattern); }
  }
}
