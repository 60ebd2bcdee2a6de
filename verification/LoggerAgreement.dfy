/**
 * When the loggers agree with the definitions stored in `logs`: exactly, for every history of
 * the listener, every update, every run of the variable and every loaded document.
 */
module LoggerAgreement {
  import opened Options
  import opened Seqs
  import opened LogMeaning
  import opened LogDefines
  import opened LoggerModel
  import opened LoggerHistory
  import opened ConfigVariable
  import opened ConfigStore
  import opened ConfigTree
  import opened Yaml

  // ----- Every history -----

  /**
   * The logger of one name agrees with a set of definitions: a defined logger does what its
   * definition says; one that was defined and no longer is has level 100 and no appenders; the
   * others are as they were.
   */
  predicate InStep(initial: Loggers, heard: seq<Call<Defs>>, defs: Defs, n: string) {
    Shows(At(After(initial, heard), n), At(initial, n),
          if n in defs || Told(heard, n).Some? then Some(At(defs, n)) else None)
  }

  function LevelOf(d: Option<LogDef>): int {
    if d.Some? then d.value.level else 100
  }

  function AppendersOf(d: Option<LogDef>, pattern: string): seq<AppenderView> {
    if d.Some? then DefinedAppenders(UpToUnknown(d.value.appenders), pattern) else []
  }

  /** A logger with this pattern that was told `shown` looks as if it had been told `d`. */
  predicate Alike(pattern: string, shown: Option<LogDef>, d: Option<LogDef>) {
    && LevelOf(shown) == LevelOf(d)
    && AppendersOf(shown, pattern) == AppendersOf(d, pattern)
    && (d.Some? && d.value.formatter != "" && Accepted(d.value.formatter) ==> pattern == d.value.formatter)
  }

  /** What the listener heard suits these definitions: said without the loggers. */
  predicate Suits(initial: Loggers, heard: seq<Call<Defs>>, defs: Defs, n: string) {
    match Told(heard, n)
    case Some(shown) => Alike(PatternAfter(initial, heard, n), shown, At(defs, n))
    case None => n in defs ==> n in initial && Agrees(initial[n], defs[n])
  }

  /** Whatever the listener heard and whatever is stored: a logger is in step if and only if what was last said of it suits. */
  lemma InStepIffSuits(initial: Loggers, heard: seq<Call<Defs>>, defs: Defs, n: string)
    ensures InStep(initial, heard, defs, n) <==> Suits(initial, heard, defs, n)
  {
    LoggersShowWhatWasTold(initial, heard, n);
    PatternIsLastAccepted(initial, heard, n);
  }

  // ----- One update -----

  /** The library's listener is called in the round that announces the change to `v`. */
  predicate Hears(c: Cell<Defs>, lib: nat, v: Defs) {
    v != c.val && CallsOf(Round(c.cbs, c.val, v), lib) != []
  }

  /** The value is written: it differs, and no listener throws. */
  predicate Stores(c: Cell<Defs>, v: Defs) {
    v != c.val && !Throws(c.cbs, c.val, v)
  }

  lemma HearsOnce(c: Cell<Defs>, lib: nat, v: Defs)
    requires Ascending(c.cbs)
    ensures CallsOf(Set(c, v).calls, lib) == CallsOf(c.calls, lib) + if Hears(c, lib, v) then [Call(lib, c.val, v)] else []
  {
    RoundOf(c.cbs, c.val, v, lib);
    CallsOfConcat(c.calls, Round(c.cbs, c.val, v), lib);
  }

  /** What one update does to the loggers. */
  lemma UpdateLoggers(initial: Loggers, c: Cell<Defs>, lib: nat, v: Defs)
    requires Ascending(c.cbs)
    ensures var st := After(initial, CallsOf(c.calls, lib));
            After(initial, CallsOf(Set(c, v).calls, lib)) == if Hears(c, lib, v) then Reconciled(st, c.val, v) else st
  {
    HearsOnce(c, lib, v);
    PushInit(CallsOf(c.calls, lib), Call(lib, c.val, v));
    assert CallsOf(c.calls, lib) + [] == CallsOf(c.calls, lib);
  }

  /** The logger of one name agrees with what the variable holds. */
  predicate Agreeing(initial: Loggers, c: Cell<Defs>, lib: nat, n: string) {
    InStep(initial, CallsOf(c.calls, lib), c.val, n)
  }

  /**
   * Whether the logger of `n` is in step after an update, given whether it was before. A
   * definition that does not change, and an update that is neither heard nor stored, leave
   * this as it was. One that is heard and stored puts the logger in step. One that is heard
   * but not stored does so if the new definition looks like the old one, and one that is
   * stored but not heard if what was said earlier suits the new definition.
   */
  predicate AgreesAfter(initial: Loggers, c: Cell<Defs>, lib: nat, v: Defs, n: string, before: bool) {
    var heard := CallsOf(c.calls, lib);
    if At(c.val, n) == At(v, n) || (!Hears(c, lib, v) && !Stores(c, v)) then before
    else if !Hears(c, lib, v) then Suits(initial, heard, v, n)
    else Stores(c, v) || Alike(NewPattern(PatternAfter(initial, heard, n), At(v, n)), At(v, n), At(c.val, n))
  }

  function NewPattern(pattern: string, d: Option<LogDef>): string {
    if d.Some? then DefinedPattern(pattern, d.value.formatter) else pattern
  }

  /** A change the listener hears of, at one name. */
  lemma HeardChange(initial: Loggers, heard: seq<Call<Defs>>, c: Call<Defs>, n: string)
    ensures Told(heard + [c], n) == if At(c.before, n) == At(c.after, n) then Told(heard, n) else Some(At(c.after, n))
    ensures PatternAfter(initial, heard + [c], n)
         == if At(c.before, n) == At(c.after, n) then PatternAfter(initial, heard, n)
            else NewPattern(PatternAfter(initial, heard, n), At(c.after, n))
  {
    PushInit(heard, c);
  }

  /** For every variable with whatever listeners, every history, every update and every name. */
  lemma UpdateAgreesIff(initial: Loggers, c: Cell<Defs>, lib: nat, v: Defs, n: string)
    requires Ascending(c.cbs)
    ensures Agreeing(initial, Set(c, v), lib, n) <==> AgreesAfter(initial, c, lib, v, n, Agreeing(initial, c, lib, n))
  {
    var heard, call := CallsOf(c.calls, lib), Call(lib, c.val, v);
    HearsOnce(c, lib, v);
    HeardChange(initial, heard, call, n);
    assert heard + [] == heard;
    InStepIffSuits(initial, heard, c.val, n);
    InStepIffSuits(initial, CallsOf(Set(c, v).calls, lib), Set(c, v).val, n);
  }

  /** After a heard and stored update a logger is in step if its definition changed or it was so before. */
  lemma HeardUpdateRecovers(initial: Loggers, c: Cell<Defs>, lib: nat, v: Defs, n: string)
    requires Ascending(c.cbs) && Hears(c, lib, v) && Stores(c, v)
    ensures Agreeing(initial, Set(c, v), lib, n) <==> At(c.val, n) != At(v, n) || Agreeing(initial, c, lib, n)
  {
    UpdateAgreesIff(initial, c, lib, v, n);
  }

  /** For an update that gives a defined logger another level: it stays in step exactly when heard if and only if stored. */
  lemma LevelChangeAgreesIff(initial: Loggers, c: Cell<Defs>, lib: nat, v: Defs, n: string)
    requires Ascending(c.cbs) && Agreeing(initial, c, lib, n)
    requires n in c.val && n in v && c.val[n].level != v[n].level
    ensures Agreeing(initial, Set(c, v), lib, n) <==> (Hears(c, lib, v) <==> Stores(c, v))
  {
    UpdateAgreesIff(initial, c, lib, v, n);
    InStepIffSuits(initial, CallsOf(c.calls, lib), c.val, n);
  }

  // ----- Runs -----

  function Applied(x: Var<Defs>, ops: seq<Op<Defs>>): Var<Defs> {
    if ops == [] then x else Apply(Applied(x, ops[..|ops| - 1]), ops[|ops| - 1])
  }

  lemma {:induction false} AppliedKeepsFresh(x: Var<Defs>, ops: seq<Op<Defs>>)
    requires FreshIds(x) && Ascending(x.cell.cbs)
    ensures FreshIds(Applied(x, ops)) && Ascending(Applied(x, ops).cell.cbs)
  {
    if ops != [] {
      AppliedKeepsFresh(x, ops[..|ops| - 1]);
      ApplyKeepsFresh(Applied(x, ops[..|ops| - 1]), ops[|ops| - 1]);
    }
  }

  /** Whether the logger of `n` is in step at the end of a run, from one update to the next. */
  predicate AgreesAtEnd(initial: Loggers, x: Var<Defs>, ops: seq<Op<Defs>>, lib: nat, n: string) {
    if ops == [] then Agreeing(initial, x.cell, lib, n) else
      var init, op := ops[..|ops| - 1], ops[|ops| - 1];
      var before := AgreesAtEnd(initial, x, init, lib, n);
      if op.SetTo? then AgreesAfter(initial, Applied(x, init).cell, lib, op.v, n, before) else before
  }

  /** No update of the run takes the logger of `n` out of step. */
  predicate Harmless(initial: Loggers, x: Var<Defs>, ops: seq<Op<Defs>>, lib: nat, n: string) {
    ops == [] ||
    var init, op := ops[..|ops| - 1], ops[|ops| - 1];
    Harmless(initial, x, init, lib, n) && (op.SetTo? ==> AgreesAfter(initial, Applied(x, init).cell, lib, op.v, n, true))
  }

  predicate AgreesThroughout(initial: Loggers, x: Var<Defs>, ops: seq<Op<Defs>>, lib: nat, n: string) {
    && Agreeing(initial, Applied(x, ops).cell, lib, n)
    && (ops != [] ==> AgreesThroughout(initial, x, ops[..|ops| - 1], lib, n))
  }

  /**
   * For every run of updates and of adding and removing listeners, whether they throw or not:
   * at the end a logger agrees with the stored definitions if and only if the updates lead
   * there one by one, whatever went wrong in between.
   */
  lemma {:induction false} RunAgreesIff(initial: Loggers, x: Var<Defs>, ops: seq<Op<Defs>>, lib: nat, n: string)
    requires FreshIds(x) && Ascending(x.cell.cbs)
    ensures Agreeing(initial, Applied(x, ops).cell, lib, n) <==> AgreesAtEnd(initial, x, ops, lib, n)
  {
    if ops != [] {
      var init, op := ops[..|ops| - 1], ops[|ops| - 1];
      RunAgreesIff(initial, x, init, lib, n);
      AppliedKeepsFresh(x, init);
      if op.SetTo? { UpdateAgreesIff(initial, Applied(x, init).cell, lib, op.v, n); }
    }
  }

  /** It agrees with them at every point if and only if it did at first and no update is harmful. */
  lemma {:induction false} StaysInStepIffHarmless(initial: Loggers, x: Var<Defs>, ops: seq<Op<Defs>>, lib: nat, n: string)
    requires FreshIds(x) && Ascending(x.cell.cbs)
    ensures AgreesThroughout(initial, x, ops, lib, n) <==> Agreeing(initial, x.cell, lib, n) && Harmless(initial, x, ops, lib, n)
  {
    if ops != [] {
      var init, op := ops[..|ops| - 1], ops[|ops| - 1];
      StaysInStepIffHarmless(initial, x, init, lib, n);
      AppliedKeepsFresh(x, init);
      if op.SetTo? { UpdateAgreesIff(initial, Applied(x, init).cell, lib, op.v, n); }
    }
  }

  /** All loggers agree with `logs` at every point of a run if and only if they did at first and no update harms any of them. */
  lemma AllStayInStepIffHarmless(initial: Loggers, x: Var<Defs>, ops: seq<Op<Defs>>, lib: nat)
    requires FreshIds(x) && Ascending(x.cell.cbs) && forall n :: Agreeing(initial, x.cell, lib, n)
    ensures (forall n :: AgreesThroughout(initial, x, ops, lib, n)) <==> forall n :: Harmless(initial, x, ops, lib, n)
  {
    if forall n :: Harmless(initial, x, ops, lib, n) {
      forall n ensures AgreesThroughout(initial, x, ops, lib, n) { StaysInStepIffHarmless(initial, x, ops, lib, n); }
    } else {
      var n :| !Harmless(initial, x, ops, lib, n);
      StaysInStepIffHarmless(initial, x, ops, lib, n);
    }
  }

  // ----- Following, name by name -----

  /** What was last said of `n` is its definition; nothing was said only of names that have none. */
  predicate Right(heard: seq<Call<Defs>>, defs: Defs, n: string) {
    At(defs, n) == if Told(heard, n).Some? then Told(heard, n).value else None
  }

  /** The listener heard the definitions that are stored, wherever they come from. */
  ghost predicate Follows(c: Cell<Defs>, lib: nat) {
    forall n :: Right(CallsOf(c.calls, lib), c.val, n)
  }

  /** A chain of changes from the empty set on says everything about the set it ends with. */
  lemma ChainIsRight(heard: seq<Call<Defs>>, n: string)
    requires Continuous(heard)
    ensures Right(heard, Last(heard), n)
  {
    ChainTellsAll(heard, n);
  }

  /** A logger that was told its definition is in step with it. */
  lemma LoggersFollowDefinitions(initial: Loggers, heard: seq<Call<Defs>>, defs: Defs, n: string)
    requires Right(heard, defs, n)
    ensures InStep(initial, heard, defs, n)
  {
    LoggersShowWhatWasTold(initial, heard, n);
  }

  /** The same for one name, from any state: a heard and stored update makes the names right that it changes. */
  lemma UpdateRightIff(c: Cell<Defs>, lib: nat, v: Defs, n: string)
    requires Ascending(c.cbs)
    ensures var heard, after := CallsOf(c.calls, lib), CallsOf(Set(c, v).calls, lib);
            Right(after, Set(c, v).val, n) <==>
              if At(c.val, n) == At(v, n) || (!Hears(c, lib, v) && !Stores(c, v)) then Right(heard, c.val, n)
              else if Hears(c, lib, v) then Stores(c, v)
              else Right(heard, v, n)
  {
    var heard, call := CallsOf(c.calls, lib), Call(lib, c.val, v);
    HearsOnce(c, lib, v);
    PushInit(heard, call);
    assert heard + [] == heard;
  }

  lemma DifferentAt(a: Defs, b: Defs) returns (n: string)
    requires a != b
    ensures At(a, n) != At(b, n)
  {
    n :| n in a.Keys + b.Keys && At(a, n) != At(b, n);
  }

  /**
   * An update keeps the listener following if and only if it is heard exactly if it is stored.
   * With a listener that throws behind the library's one the listener goes ahead of the
   * variable; one that throws before it stops both.
   */
  lemma UpdateFollowsIff(c: Cell<Defs>, lib: nat, v: Defs)
    requires Ascending(c.cbs) && Follows(c, lib)
    ensures Follows(Set(c, v), lib) <==> (Hears(c, lib, v) <==> Stores(c, v))
  {
    var after := Set(c, v);
    if Hears(c, lib, v) <==> Stores(c, v) {
      forall n ensures Right(CallsOf(after.calls, lib), after.val, n) { UpdateRightIff(c, lib, v, n); }
    } else {
      var n := DifferentAt(c.val, v);
      UpdateRightIff(c, lib, v, n);
      assert Right(CallsOf(c.calls, lib), c.val, n);
      assert !Right(CallsOf(after.calls, lib), after.val, n);
    }
  }

  /** While the library's listener is registered, an update with no throwing listener always keeps it following. */
  lemma QuietUpdateFollows(c: Cell<Defs>, lib: nat, v: Defs)
    requires Ascending(c.cbs) && Follows(c, lib) && Registered(c.cbs, lib) && !Throws(c.cbs, c.val, v)
    ensures Follows(Set(c, v), lib)
  {
    UpdateFollowsIff(c, lib, v);
    RoundOf(c.cbs, c.val, v, lib);
  }

  // ----- Updates that are aborted -----

  /**
   * If a listener throws after the library's one was called, a new definition has changed its
   * logger but not the variable, and setting the stored value again does not bring it back.
   */
  lemma AbortedUpdateLeavesLoggersAhead(initial: Loggers, c: Cell<Defs>, lib: nat, v: Defs, n: string)
    requires Ascending(c.cbs) && Hears(c, lib, v) && Throws(c.cbs, c.val, v)
    requires n in v && n !in c.val && v[n].level != 100
    ensures Set(c, v).val == c.val && Set(Set(c, v), c.val) == Set(c, v)
    ensures var loggers := After(initial, CallsOf(Set(c, v).calls, lib));
            n in loggers && Agrees(loggers[n], v[n]) && !Agreeing(initial, Set(c, v), lib, n)
  {
    var heard, call := CallsOf(c.calls, lib), Call(lib, c.val, v);
    HearsOnce(c, lib, v);
    PushInit(heard, call);
    LoggersShowWhatWasTold(initial, heard + [call], n);
  }

  /** Such an update exists: the variable as it starts, with one more listener, which throws. */
  lemma AbortedUpdateExists(n: string, d: LogDef) returns (c: Cell<Defs>, v: Defs)
    ensures Ascending(c.cbs) && Follows(c, 1) && Hears(c, 1, v) && Throws(c.cbs, c.val, v) && n !in c.val && v == map[n := d]
  {
    c, v := TwoListeners(map[]), map[n := d];
    assert c.cbs[0].id == 1 && c.cbs[1].throws(c.val, v) && n in v;
    RoundOf(c.cbs, c.val, v, 1);
  }

  /** The library's listener and one behind it that always throws. */
  function TwoListeners(val: Defs): Cell<Defs> {
    Cell(val, [Listener(1, (_, _) => false), Listener(2, (_, _) => true)], if val == map[] then [] else [Call(1, map[], val)])
  }

  lemma TwoListenersFollow(val: Defs)
    ensures Ascending(TwoListeners(val).cbs) && Follows(TwoListeners(val), 1)
  {
    var c := TwoListeners(val);
    if val != map[] { CallsOfSingle(Call(1, map[], val), 1); }
    forall n ensures Right(CallsOf(c.calls, 1), c.val, n) {
      assert val != map[] ==> [Call(1, map[], val)][..0] == [];
    }
  }

  /**
   * Not every aborted update is visible: an appender of unknown kind changes no logger, so that
   * after it all loggers are in step although the listener no longer follows.
   */
  lemma AbortedUpdateCanBeUnseen(initial: Loggers, n: string, d: LogDef, a: AppenderDef) returns (c: Cell<Defs>, v: Defs)
    requires d.appenders == [] && a.kind == UnknownKind
    ensures Ascending(c.cbs) && Follows(c, 1) && Hears(c, 1, v) && Throws(c.cbs, c.val, v) && !Follows(Set(c, v), 1)
    ensures forall m :: Agreeing(initial, Set(c, v), 1, m)
  {
    var e := d.(appenders := [a]);
    c, v := TwoListeners(map[n := d]), map[n := e];
    TwoListenersFollow(c.val);
    assert n in c.val && c.val[n] == d && v[n] == e;
    assert c.cbs[0].id == 1 && c.cbs[1].throws(c.val, v);
    RoundOf(c.cbs, c.val, v, 1);
    UpdateFollowsIff(c, 1, v);
    forall m ensures Agreeing(initial, Set(c, v), 1, m) {
      assert Right(CallsOf(c.calls, 1), c.val, m);
      LoggersFollowDefinitions(initial, CallsOf(c.calls, 1), c.val, m);
      UpdateAgreesIff(initial, c, 1, v, m);
      UnseenChange(PatternAfter(initial, CallsOf(c.calls, 1), m), d, e);
    }
  }

  lemma UnseenChange(pattern: string, d: LogDef, e: LogDef)
    requires d.appenders == [] && e.appenders != [] && e.appenders[0].kind == UnknownKind
    requires e.level == d.level && e.formatter == d.formatter
    ensures Alike(NewPattern(pattern, Some(e)), Some(e), Some(d))
  {
  }

  // ----- Loading a document -----

  const LOGS := "logs"

  /** The conversion of the `logs` variable: the text is parsed and read as definitions. */
  function ReadLogs(parse: string -> Node): string -> Option<Defs> {
    (text: string) => DefinitionsOf(parse(text))
  }

  /** The updates of `logs` that loading makes: one for each listed entry of that name that converts. */
  function Updates(fromStr: string -> Option<Defs>, ms: seq<Member>, emit: Node -> string): seq<Op<Defs>> {
    if ms == [] then [] else
      var v := Converted(LOGS, fromStr, ms[|ms| - 1], emit);
      Updates(fromStr, ms[..|ms| - 1], emit) + if v.Some? then [SetTo(v.value)] else []
  }

  lemma {:induction false} LoadingIsARun(x: Var<Defs>, fromStr: string -> Option<Defs>, ms: seq<Member>, emit: Node -> string)
    ensures Applied(x, Updates(fromStr, ms, emit)) == x.(cell := Load(x.cell, LOGS, fromStr, ms, emit))
  {
    if ms != [] {
      var init, v := ms[..|ms| - 1], Converted(LOGS, fromStr, ms[|ms| - 1], emit);
      LoadingIsARun(x, fromStr, init, emit);
      if v.Some? {
        PushInit(Updates(fromStr, init, emit), SetTo(v.value));
      } else {
        assert Updates(fromStr, init, emit) + [] == Updates(fromStr, init, emit);
      }
    }
  }

  /**
   * After loading any document, with whatever listeners on `logs`, a logger agrees with what
   * `logs` then holds if and only if the updates the document makes lead there.
   */
  lemma LoggersFollowDocumentIff(initial: Loggers, x: Var<Defs>, lib: nat, root: Node, parse: string -> Node, emit: Node -> string, n: string)
    requires FreshIds(x) && Ascending(x.cell.cbs)
    ensures var ms := Named(Preorder("", root));
            Agreeing(initial, Load(x.cell, LOGS, ReadLogs(parse), ms, emit), lib, n)
            <==> AgreesAtEnd(initial, x, Updates(ReadLogs(parse), ms, emit), lib, n)
  {
    var ms := Named(Preorder("", root));
    LoadingIsARun(x, ReadLogs(parse), ms, emit);
    RunAgreesIff(initial, x, Updates(ReadLogs(parse), ms, emit), lib, n);
  }

  /** With the library's listener registered and no listener that throws, every document leaves the loggers in step. */
  lemma {:induction false} QuietLoadAgrees(initial: Loggers, c: Cell<Defs>, lib: nat, fromStr: string -> Option<Defs>,
                                          ms: seq<Member>, emit: Node -> string, n: string)
    requires Ascending(c.cbs) && Registered(c.cbs, lib) && forall a, b :: !Throws(c.cbs, a, b)
    requires Agreeing(initial, c, lib, n)
    ensures Agreeing(initial, Load(c, LOGS, fromStr, ms, emit), lib, n)
  {
    if ms != [] {
      var init, v := ms[..|ms| - 1], Converted(LOGS, fromStr, ms[|ms| - 1], emit);
      var d := Load(c, LOGS, fromStr, init, emit);
      QuietLoadAgrees(initial, c, lib, fromStr, init, emit, n);
      LastTakenWins(c, LOGS, fromStr, init, emit);
      if v.Some? {
        RoundOf(d.cbs, d.val, v.value, lib);
        UpdateAgreesIff(initial, d, lib, v.value, n);
      }
    }
  }

  /**
   * What `logs` holds after a document is loaded: the set read from the last entry named `logs`
   * that converts, number `k`, if and only if that entry is taken.
   */
  lemma DocumentDecidesLogs(c: Cell<Defs>, root: Node, parse: string -> Node, emit: Node -> string, k: nat)
    requires forall m: Node :: !m.Scalar? ==> parse(emit(m)) == m
    requires var ms := Named(Preorder("", root));
             && k < |ms| && Converted(LOGS, ReadLogs(parse), ms[k], emit).Some?
             && forall j :: k < j < |ms| ==> Converted(LOGS, ReadLogs(parse), ms[j], emit).None?
    ensures var ms := Named(Preorder("", root));
            var before, after := Load(c, LOGS, ReadLogs(parse), ms[..k], emit), Load(c, LOGS, ReadLogs(parse), ms, emit);
            var node := if ms[k].node.Scalar? then parse(ms[k].node.text) else ms[k].node;
            && ms[k].name == LOGS && DefinitionsOf(node).Some?
            && (after.val == DefinitionsOf(node).value
                <==> DefinitionsOf(node).value == before.val || !Throws(c.cbs, before.val, DefinitionsOf(node).value))
  {
    LastConvertedWinsIffTaken(c, LOGS, ReadLogs(parse), Named(Preorder("", root)), emit, k);
  }
}
