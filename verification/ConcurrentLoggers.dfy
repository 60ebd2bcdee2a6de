/** The loggers while any number of threads call `setValue` on `logs`: each call of the listener is one step. */
module ConcurrentLoggers {
  import opened Options
  import opened LogDefines
  import opened LoggerModel
  import opened LoggerHistory
  import opened LoggerAgreement
  import opened ConfigRounds
  import opened ConfigChains

  /** What the library's listener was called with, in the order of the calls. */
  function HeardBy(s: Sys<Defs>, lib: nat): seq<Variable.Call<Defs>> {
    Calls(Heard(s.calls, lib))
  }

  /**
   * In every interleaving, orderly or not: every logger shows the last thing said of it, and
   * agrees with the stored definitions if and only if that suits them.
   */
  lemma LoggersInEveryInterleaving(initial: Loggers, s: Sys<Defs>, lib: nat, n: string)
    ensures Shows(At(After(initial, HeardBy(s, lib)), n), At(initial, n), Told(HeardBy(s, lib), n))
    ensures InStep(initial, HeardBy(s, lib), s.val, n) <==> Suits(initial, HeardBy(s, lib), s.val, n)
  {
    LoggersShowWhatWasTold(initial, HeardBy(s, lib), n);
    InStepIffSuits(initial, HeardBy(s, lib), s.val, n);
  }

  // ----- A listener that hears everything -----

  /** The listener was added while the variable had its first value and no `setValue` was under way. */
  predicate AddedFirst<T(==)>(initial: T, ops: seq<Op<T>>, id: nat) {
    ops == [] ||
    var init, op := ops[..|ops| - 1], ops[|ops| - 1];
    && AddedFirst(initial, init, id)
    && (Run(initial, init).Some? && op.Add? && Run(initial, init).value.lastId + 1 == id ==>
          var s := Run(initial, init).value; NoneUnderWay(s) && s.val == initial)
  }

  /** What it heard starts at the first value; as long as it heard nothing, that is the stored one. */
  predicate FromStart<T(==)>(s: Sys<T>, initial: T, id: nat) {
    var heard := Heard(s.calls, id);
    if heard == [] then id in s.ids ==> s.val == initial else heard[0].call.before == initial
  }

  lemma StepFromStart<T>(s: Sys<T>, op: Op<T>, initial: T, id: nat)
    requires Inv(s, initial) && FreshKeys(s) && Included(s, id) && FromStart(s, initial, id) && Enabled(s, op)
    requires op.Add? && s.lastId + 1 == id ==> s.val == initial
    ensures FromStart(Step(s, op), initial, id)
  {
    if op.Notify? {
      HeardPush(s.calls, Step(s, op).calls[|s.calls|], id);
      assert s.ids[s.places[op.t].told] in s.ids;
    } else if op.EndWrite? && id in s.ids {
      assert PlaceOk(s, op.t);
      CompleteTold(s, s.places[op.t].round, id);
    }
  }

  lemma {:induction false} HearsFromStart<T>(initial: T, ops: seq<Op<T>>, id: nat)
    requires Run(initial, ops).Some? && AddedFirst(initial, ops, id)
    ensures FromStart(Run(initial, ops).value, initial, id) && AddedQuietly(initial, ops, id)
  {
    if ops != [] {
      var init, op := ops[..|ops| - 1], ops[|ops| - 1];
      HearsFromStart(initial, init, id);
      QuietlyAddedIsUndisturbed(initial, init, id);
      RunKeeps(initial, init);
      StepFromStart(Run(initial, init).value, op, initial, id);
    }
  }

  lemma HeardIsContinuous(ops: seq<Op<Defs>>, s: Sys<Defs>, lib: nat)
    requires Run(map[], ops) == Some(s) && AddedFirst(map[], ops, lib) && Orderly(map[], ops, lib)
    ensures Continuous(HeardBy(s, lib)) && InTouch(s, lib) && FromStart(s, map[], lib)
  {
    HearsFromStart(map[], ops, lib);
    QuietlyAddedIsUndisturbed(map[], ops, lib);
    RunFollows(map[], ops, lib);
    if HeardBy(s, lib) != [] { FirstCall(Heard(s.calls, lib)); }
  }

  /**
   * For every interleaving in which the library's listener, added first, is told of a change
   * only when all it was told of before are written: all loggers agree with the stored
   * definitions, except while the last change is announced and not written. Then exactly those
   * do whose definition it leaves alone, or whose new definition looks like the old one.
   */
  lemma OrderlyLoggersInStepIff(initial: Loggers, ops: seq<Op<Defs>>, s: Sys<Defs>, lib: nat, n: string)
    requires Run(map[], ops) == Some(s) && lib in s.ids && AddedFirst(map[], ops, lib) && Orderly(map[], ops, lib)
    ensures var heard := Heard(s.calls, lib);
            InStep(initial, HeardBy(s, lib), s.val, n) <==>
              heard == [] ||
              var c := heard[|heard| - 1];
              || c.round in s.written || At(c.call.before, n) == At(c.call.after, n)
              || Alike(PatternAfter(initial, HeardBy(s, lib), n), At(c.call.after, n), At(c.call.before, n))
  {
    HeardIsContinuous(ops, s, lib);
    InStepIffSuits(initial, HeardBy(s, lib), s.val, n);
    ChainIsRight(HeardBy(s, lib), n);
    if Right(HeardBy(s, lib), s.val, n) { LoggersFollowDefinitions(initial, HeardBy(s, lib), s.val, n); }
  }

  /** With one `setValue` at a time and no exceptions all loggers agree with `logs` whenever none is under way. */
  lemma OneAtATimeLoggersInStep(initial: Loggers, ops: seq<Op<Defs>>, s: Sys<Defs>, lib: nat, n: string)
    requires Run(map[], ops) == Some(s) && lib in s.ids && AddedFirst(map[], ops, lib)
    requires OneAtATime(map[], ops) && NoneUnderWay(s)
    ensures InStep(initial, HeardBy(s, lib), s.val, n)
  {
    OneAtATimeIsOrderly(map[], ops, lib);
    OrderlyLoggersInStepIff(initial, ops, s, lib, n);
    var heard := Heard(s.calls, lib);
    if heard != [] {
      var c := heard[|heard| - 1];
      HeardMembers(s.calls, lib, c);
      RunKeeps(map[], ops);
      assert CallOk(s, c);
      assert c.round !in s.written ==> UnderWay(s, c.round);
    }
  }

  /**
   * Two threads at once can part them for good: when both `setValue` calls have returned and
   * nobody threw, the logger shows one definition and `logs` holds the other.
   */
  lemma ConcurrentUpdatesPartLoggers(initial: Loggers, n: string, d: LogDef, e: LogDef) returns (ops: seq<Op<Defs>>, s: Sys<Defs>)
    requires d.level != e.level
    ensures Run(map[], ops) == Some(s) && NoneUnderWay(s) && 1 in s.ids && s.val == map[n := d]
    ensures var loggers := After(initial, HeardBy(s, 1));
            n in loggers && Agrees(loggers[n], e) && !InStep(initial, HeardBy(s, 1), s.val, n)
  {
    var a, b := map[n := d], map[n := e];
    assert n in a && n in b;
    ops, s := LastHeardIsOverwritten(map[], a, b);
    var last := NoticeOf(1, 1, map[], b);
    assert s.calls == [NoticeOf(0, 1, map[], a)] + [last];
    HeardPush([NoticeOf(0, 1, map[], a)], last, 1);
    LoggersInEveryInterleaving(initial, s, 1, n);
    CallsPush(Heard([NoticeOf(0, 1, map[], a)], 1), last);
  }
}
