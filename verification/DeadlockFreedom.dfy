/** When programs of library calls with user callbacks cannot deadlock: exactly if the callbacks can be numbered. */
module DeadlockFreedom {
  import opened Options
  import opened Seqs
  import opened LockOrder
  import opened LibraryLocks
  import opened Numberings

  /**
   * The uses that can keep a thread waiting for one that waits. Where readers come first, a
   * read lock that is released at once does not count.
   */
  function Edges(u: Uses, writersFirst: bool): set<(Lock, Lock)> {
    if writersFirst then u.changes + u.peeks else u.changes
  }

  /** Every edge leads from a lower to a higher number. */
  predicate Numbered(edges: set<(Lock, Lock)>, f: Lock -> int) {
    forall e :: e in edges ==> f(e.0) < f(e.1)
  }

  ghost predicate Bounded(f: Lock -> int, n: nat) {
    forall l :: 0 <= f(l) < n
  }

  /** Configuration locks by their number, then manager, ordinary loggers, root logger, appenders. */
  function RankBy(f: Lock -> int, n: nat): Lock -> int {
    (l: Lock) => if IsConfig(l) then f(l) else n + LogRank(l)
  }

  // ----- Numbered callbacks are disciplined -----

  /** Every lock ranks above `r` and above all around it, except read locks released at once if `peeks`. */
  predicate Climbs(rank: Lock -> int, peeks: bool, bs: seq<Block>, r: int) {
    bs != [] ==>
      var b := bs[0];
      && (rank(b.lock) > r || (peeks && IsConfig(b.lock) && b.mode == Shared && b.body == []))
      && (IsConfig(b.lock) && b.mode == Exclusive ==> b.body == [])
      && Climbs(rank, peeks, b.body, rank(b.lock)) && Climbs(rank, peeks, bs[1..], r)
  }

  predicate AtMost(rank: Lock -> int, held: seq<Held>, r: int) {
    forall k :: 0 <= k < |held| ==> rank(held[k].lock) <= r
  }

  lemma AfterHold(rank: Lock -> int, peeks: bool, held: seq<Held>, h: Held, after: seq<Act>)
    requires Disciplined(rank, peeks, held, after)
    ensures Disciplined(rank, peeks, held + [h], [Release(h.lock)] + after)
  {
    PushInit(held, h);
    assert ([Release(h.lock)] + after)[1..] == after;
  }

  lemma BeforeHold(rank: Lock -> int, peeks: bool, held: seq<Held>, h: Held, rest: seq<Act>)
    requires Disciplined(rank, peeks, held + [h], rest)
    requires Above(rank, held, h.lock) || (peeks && h.mode == Shared && IsConfig(h.lock))
    requires IsConfig(h.lock) && h.mode == Exclusive ==> rest != [] && rest[0].Release?
    ensures Disciplined(rank, peeks, held, [Ask(h.lock, h.mode), Acquire(h.lock, h.mode)] + rest)
  {
    var all := [Ask(h.lock, h.mode), Acquire(h.lock, h.mode)] + rest;
    assert all[1..][1..] == rest;
  }

  /** Blocks that climb, run by a thread that holds nothing above `r`, are disciplined. */
  lemma {:induction false} ClimbingIsDisciplined(rank: Lock -> int, peeks: bool, held: seq<Held>, bs: seq<Block>, r: int, rest: seq<Act>)
    requires Climbs(rank, peeks, bs, r) && AtMost(rank, held, r) && Disciplined(rank, peeks, held, rest)
    ensures Disciplined(rank, peeks, held, Acts(bs) + rest)
    decreases bs
  {
    if bs == [] {
      assert Acts(bs) + rest == rest;
    } else {
      var b, h := bs[0], Held(bs[0].lock, bs[0].mode);
      var after := Acts(bs[1..]) + rest;
      ClimbingIsDisciplined(rank, peeks, held, bs[1..], r, rest);
      AfterHold(rank, peeks, held, h, after);
      var inner := [Release(b.lock)] + after;
      if b.body == [] {
        assert Acts(b.body) + inner == inner;
      } else {
        ClimbingIsDisciplined(rank, peeks, held + [h], b.body, rank(b.lock), inner);
      }
      BeforeHold(rank, peeks, held, h, Acts(b.body) + inner);
      Regroup(b, bs[1..], rest);
    }
  }

  lemma Regroup(b: Block, tail: seq<Block>, rest: seq<Act>)
    ensures [Ask(b.lock, b.mode), Acquire(b.lock, b.mode)] + (Acts(b.body) + ([Release(b.lock)] + Acts(tail))) + rest
         == [Ask(b.lock, b.mode), Acquire(b.lock, b.mode)] + (Acts(b.body) + ([Release(b.lock)] + (Acts(tail) + rest)))
  {
  }

  lemma {:induction false} LogsClimb(f: Lock -> int, n: nat, peeks: bool, bs: seq<Block>, r: int, q: int)
    requires Logs(bs, r) && q <= n + r
    ensures Climbs(RankBy(f, n), peeks, bs, q)
  {
    if bs != [] {
      LogsClimb(f, n, peeks, bs[0].body, LogRank(bs[0].lock), n + LogRank(bs[0].lock));
      LogsClimb(f, n, peeks, bs[1..], r, q);
    }
  }

  lemma ClimbsOne(rank: Lock -> int, peeks: bool, b: Block, tail: seq<Block>, r: int)
    requires Climbs(rank, peeks, [b], r) && Climbs(rank, peeks, tail, r)
    ensures Climbs(rank, peeks, [b] + tail, r)
  {
    assert ([b] + tail)[1..] == tail;
  }

  /** Under a lock whose uses are numbered, everything climbs. */
  lemma {:induction false} WithinClimbs(u: Uses, writersFirst: bool, f: Lock -> int, n: nat, l: Lock, bs: seq<Block>)
    requires Numbered(Edges(u, writersFirst), f) && Bounded(f, n) && IsConfig(l) && Within(u, l, bs)
    ensures Climbs(RankBy(f, n), !writersFirst, bs, f(l))
    decreases bs
  {
    if bs != [] {
      var b := bs[0];
      WithinClimbs(u, writersFirst, f, n, l, bs[1..]);
      if !IsConfig(b.lock) {
        LogsClimb(f, n, !writersFirst, [b], -1, f(l));
        assert [b] + bs[1..] == bs;
        ClimbsOne(RankBy(f, n), !writersFirst, b, bs[1..], f(l));
      } else if b.body != [] {
        assert (l, b.lock) in Edges(u, writersFirst);
        WithinClimbs(u, writersFirst, f, n, b.lock, b.body);
      } else {
        assert (l, b.lock) in u.changes ==> (l, b.lock) in Edges(u, writersFirst);
        assert writersFirst ==> (l, b.lock) in Edges(u, writersFirst);
      }
    }
  }

  lemma {:induction false} ProgramClimbs(u: Uses, writersFirst: bool, f: Lock -> int, n: nat, bs: seq<Block>)
    requires Numbered(Edges(u, writersFirst), f) && Bounded(f, n) && Program(u, bs)
    ensures Climbs(RankBy(f, n), !writersFirst, bs, -1)
  {
    if bs != [] {
      var b := bs[0];
      ProgramClimbs(u, writersFirst, f, n, bs[1..]);
      if !IsConfig(b.lock) {
        LogsClimb(f, n, !writersFirst, [b], -1, -1);
        assert [b] + bs[1..] == bs;
        ClimbsOne(RankBy(f, n), !writersFirst, b, bs[1..], -1);
      } else if b.body != [] {
        WithinClimbs(u, writersFirst, f, n, b.lock, b.body);
      }
    }
  }

  // ----- Whole programs -----

  function Threads(programs: seq<seq<Call>>): (s: seq<Thread>)
    ensures |s| == |programs|
    ensures forall i :: 0 <= i < |programs| ==> s[i] == Thread([], Acts(Blocks(programs[i])))
  {
    seq(|programs|, i requires 0 <= i < |programs| => Thread([], Acts(Blocks(programs[i]))))
  }

  /** Every call of every thread keeps to `u`. */
  predicate AllKeep(u: Uses, programs: seq<seq<Call>>) {
    forall i, k :: 0 <= i < |programs| && 0 <= k < |programs[i]| ==> Keeps(u, programs[i][k])
  }

  /**
   * If the uses are numbered: any number of threads, each making any sequence of calls, can in
   * every interleaving go on until all have finished and all locks are free, and none goes on
   * for ever.
   */
  lemma NumberedNeverDeadlocks(u: Uses, writersFirst: bool, f: Lock -> int, n: nat, programs: seq<seq<Call>>, schedule: seq<nat>)
    requires Numbered(Edges(u, writersFirst), f) && Bounded(f, n) && AllKeep(u, programs)
    requires Run(writersFirst, Threads(programs), schedule).Some?
    ensures var s := Threads(programs);
            var r := Run(writersFirst, s, schedule).value;
            && !Deadlocked(writersFirst, r)
            && |schedule| <= Work(s)
            && (|schedule| < Work(s) ==> exists i :: Enabled(writersFirst, r, i))
            && (|schedule| == Work(s) ==> forall i :: 0 <= i < |r| ==> r[i] == Thread([], []))
  {
    var rank := RankBy(f, n);
    forall i | 0 <= i < |programs| ensures Disciplined(rank, !writersFirst, [], Acts(Blocks(programs[i]))) {
      var bs := Blocks(programs[i]);
      CallsConform(u, programs[i]);
      ProgramClimbs(u, writersFirst, f, n, bs);
      ClimbingIsDisciplined(rank, !writersFirst, [], bs, -1, []);
      assert Acts(bs) + [] == Acts(bs);
    }
    RankByIsRanking(f, n);
    NoDeadlock(rank, writersFirst, Threads(programs), schedule);
  }

  lemma RankByIsRanking(f: Lock -> int, n: nat)
    requires Bounded(f, n)
    ensures Ranking(RankBy(f, n))
  {
    forall l ensures RankBy(f, n)(l) >= 0 {
      assert f(l) >= 0;
    }
  }

  // ----- A circle of uses deadlocks -----

  function WriteTo(l: Lock): Call
    requires IsConfig(l)
  {
    if l.Var? then ChangeListeners(l.i) else Register
  }

  function ReadFrom(l: Lock): Call
    requires IsConfig(l)
  {
    if l.Var? then ReadVar(l.i) else LookupVar
  }

  /** The call that runs user code under a lock: `setValue` for a variable, `Visit` for the registry. */
  function Under(l: Lock, callbacks: seq<Block>): Call
    requires IsConfig(l)
  {
    if l.Var? then SetValue(l.i, callbacks) else Visit(callbacks)
  }

  function ModeFor(u: Uses, l: Lock, next: Lock): Mode {
    if (l, next) in u.changes then Exclusive else Shared
  }

  /** User code under `l` that uses `next`. */
  function Meddler(u: Uses, l: Lock, next: Lock): Call
    requires IsConfig(l) && IsConfig(next)
  {
    Under(l, BlocksOf(if ModeFor(u, l, next) == Exclusive then WriteTo(next) else ReadFrom(next)))
  }

  predicate AllConfig(c: seq<Lock>) {
    forall m :: 0 <= m < |c| ==> IsConfig(c[m])
  }

  /** For each lock of the circle a thread that uses the next one under it, and one that writes to it. */
  function Ring(u: Uses, c: seq<Lock>): seq<seq<Call>>
    requires AllConfig(c)
  {
    seq(2 * |c|, x requires 0 <= x < 2 * |c| =>
      if x < |c| then [Meddler(u, c[x], Following(c, x))] else [WriteTo(c[x - |c|])])
  }

  lemma RingKeeps(u: Uses, writersFirst: bool, c: seq<Lock>)
    requires AllConfig(c) && Circle(Edges(u, writersFirst), c)
    ensures AllKeep(u, Ring(u, c))
  {
    var programs := Ring(u, c);
    forall x, k | 0 <= x < |programs| && 0 <= k < |programs[x]| ensures Keeps(u, programs[x][k]) {
      if x < |c| {
        assert (c[x], Following(c, x)) in Edges(u, writersFirst);
        assert programs[x] == [Meddler(u, c[x], Following(c, x))];
        MeddlerKeeps(u, c[x], Following(c, x));
      } else {
        assert programs[x] == [WriteTo(c[x - |c|])];
        WriterKeeps(u, c[x - |c|]);
      }
    }
  }

  lemma MeddlerKeeps(u: Uses, l: Lock, next: Lock)
    requires IsConfig(l) && IsConfig(next) && ((l, next) in u.changes || (l, next) in u.peeks)
    ensures Keeps(u, Meddler(u, l, next))
  {
  }

  lemma WriterKeeps(u: Uses, l: Lock)
    requires IsConfig(l)
    ensures Keeps(u, WriteTo(l))
  {
  }

  // The three positions of a meddling thread and the two of a writing one.

  predicate Outside(t: Thread, own: Lock, next: Lock, mode: Mode) {
    && t.held == [] && |t.todo| >= 4 && t.todo[0] == Ask(own, Shared) && t.todo[1] == Acquire(own, Shared)
    && t.todo[2] == Ask(next, mode) && t.todo[3] == Acquire(next, mode)
  }

  predicate Inside(t: Thread, own: Lock, next: Lock, mode: Mode) {
    t.held == [Held(own, Shared)] && |t.todo| >= 2 && t.todo[0] == Ask(next, mode) && t.todo[1] == Acquire(next, mode)
  }

  predicate Waiting(t: Thread, own: Lock, next: Lock, mode: Mode) {
    t.held == [Held(own, Shared)] && t.todo != [] && t.todo[0] == Acquire(next, mode)
  }

  predicate WriterOutside(t: Thread, own: Lock) {
    t.held == [] && |t.todo| >= 2 && t.todo[0] == Ask(own, Exclusive) && t.todo[1] == Acquire(own, Exclusive)
  }

  predicate WriterWaiting(t: Thread, own: Lock) {
    t.held == [] && t.todo != [] && t.todo[0] == Acquire(own, Exclusive)
  }

  predicate Place(u: Uses, c: seq<Lock>, s: seq<Thread>, k: nat, j: nat, x: nat)
    requires |s| == 2 * |c| && x < |s|
  {
    if x < |c| then
      var next := Following(c, x);
      if x < j then Waiting(s[x], c[x], next, ModeFor(u, c[x], next))
      else if x < k then Inside(s[x], c[x], next, ModeFor(u, c[x], next))
      else Outside(s[x], c[x], next, ModeFor(u, c[x], next))
    else if x < j then WriterWaiting(s[x], c[x - |c|]) else WriterOutside(s[x], c[x - |c|])
  }

  /** The first `k` meddling threads are inside; the first `j` of all threads have asked for their next lock. */
  predicate Ringing(u: Uses, c: seq<Lock>, s: seq<Thread>, k: nat, j: nat) {
    |s| == 2 * |c| && forall x: nat :: x < |s| ==> Place(u, c, s, k, j, x)
  }

  lemma ActsOf(b: Block, tail: seq<Block>)
    ensures Acts([b] + tail) == [Ask(b.lock, b.mode), Acquire(b.lock, b.mode)] + (Acts(b.body) + ([Release(b.lock)] + Acts(tail)))
  {
    assert ([b] + tail)[1..] == tail;
  }

  lemma MeddlerStarts(u: Uses, l: Lock, next: Lock)
    requires IsConfig(l) && IsConfig(next)
    ensures Outside(Thread([], Acts(Blocks([Meddler(u, l, next)]))), l, next, ModeFor(u, l, next))
  {
    var mode := ModeFor(u, l, next);
    var inner := Hold(next, mode, []);
    var call := Meddler(u, l, next);
    assert Blocks([call]) == BlocksOf(call) by { assert [call][1..] == []; assert BlocksOf(call) + [] == BlocksOf(call); }
    var tail := if l.Var? then [Hold(l, Exclusive, [])] else [];
    assert BlocksOf(call) == [Hold(l, Shared, [inner])] + tail;
    ActsOf(Hold(l, Shared, [inner]), tail);
    ActsOf(inner, []);
    assert [inner] + [] == [inner];
  }

  lemma WriterStarts(l: Lock)
    requires IsConfig(l)
    ensures WriterOutside(Thread([], Acts(Blocks([WriteTo(l)]))), l)
  {
    var call := WriteTo(l);
    assert Blocks([call]) == BlocksOf(call) by { assert [call][1..] == []; assert BlocksOf(call) + [] == BlocksOf(call); }
    ActsOf(Hold(l, Exclusive, []), []);
    assert [Hold(l, Exclusive, [])] + [] == [Hold(l, Exclusive, [])];
  }

  lemma RingStarts(u: Uses, c: seq<Lock>)
    requires AllConfig(c)
    ensures Ringing(u, c, Threads(Ring(u, c)), 0, 0)
  {
    var s := Threads(Ring(u, c));
    forall x: nat | x < |s| ensures Place(u, c, s, 0, 0, x) {
      ThreadStarts(u, c, x);
    }
  }

  lemma ThreadStarts(u: Uses, c: seq<Lock>, x: nat)
    requires AllConfig(c) && x < 2 * |c|
    ensures Place(u, c, Threads(Ring(u, c)), 0, 0, x)
  {
    if x < |c| {
      var call := Meddler(u, c[x], Following(c, x));
      MeddlerStarts(u, c[x], Following(c, x));
      ThreadAt(Ring(u, c), x, call);
    } else {
      WriterStarts(c[x - |c|]);
      ThreadAt(Ring(u, c), x, WriteTo(c[x - |c|]));
    }
  }

  lemma ThreadAt(programs: seq<seq<Call>>, x: nat, call: Call)
    requires x < |programs| && programs[x] == [call]
    ensures Threads(programs)[x] == Thread([], Acts(Blocks([call])))
  {
  }

  lemma RunPush(writersFirst: bool, s: seq<Thread>, schedule: seq<nat>, i: nat)
    requires Run(writersFirst, s, schedule).Some? && Enabled(writersFirst, Run(writersFirst, s, schedule).value, i)
    ensures var r := Run(writersFirst, s, schedule).value; Run(writersFirst, s, schedule + [i]) == Some(r[i := Advance(r[i])])
  {
    PushInit(schedule, i);
  }

  /** Nobody holds or waits for an exclusive lock while threads are entering. */
  lemma NoWriterYet(u: Uses, c: seq<Lock>, s: seq<Thread>, k: nat, x: nat, l: Lock)
    requires Ringing(u, c, s, k, 0) && x < |s|
    ensures !HoldsExclusively(s[x], l) && !WaitsToWrite(s[x], l)
  {
    assert Place(u, c, s, k, 0, x);
  }

  /** The next thread asks for the lock of its own variable and gets it. */
  lemma OneMoreEnters(u: Uses, writersFirst: bool, c: seq<Lock>, s: seq<Thread>, k: nat) returns (r: seq<Thread>)
    requires k < |c| && Ringing(u, c, s, k, 0)
    ensures Enabled(writersFirst, s, k)
    ensures var a := s[k := Advance(s[k])]; Enabled(writersFirst, a, k) && r == a[k := Advance(a[k])]
    ensures Ringing(u, c, r, k + 1, 0)
  {
    assert Place(u, c, s, k, 0, k);
    var a := s[k := Advance(s[k])];
    forall x | 0 <= x < |a| ensures !HoldsExclusively(a[x], c[k]) && !WaitsToWrite(a[x], c[k]) {
      if x != k { NoWriterYet(u, c, s, k, x, c[k]); }
    }
    r := a[k := Advance(a[k])];
    var k1 := k + 1;
    forall x: nat | x < |r| ensures Place(u, c, r, k1, 0, x) {
      assert Place(u, c, s, k, 0, x);
    }
  }

  lemma OneMoreAsks(u: Uses, writersFirst: bool, c: seq<Lock>, s: seq<Thread>, j: nat)
    requires j < 2 * |c| && Ringing(u, c, s, |c|, j)
    ensures Enabled(writersFirst, s, j) && Ringing(u, c, s[j := Advance(s[j])], |c|, j + 1)
  {
    assert Place(u, c, s, |c|, j, j);
    var r, j1 := s[j := Advance(s[j])], j + 1;
    forall x: nat | x < |r| ensures Place(u, c, r, |c|, j1, x) {
      assert Place(u, c, s, |c|, j, x);
    }
  }

  lemma {:induction false} RingEnters(u: Uses, writersFirst: bool, c: seq<Lock>, s: seq<Thread>, k: nat) returns (schedule: seq<nat>)
    requires Ringing(u, c, s, 0, 0) && k <= |c|
    ensures var r := Run(writersFirst, s, schedule); r.Some? && Ringing(u, c, r.value, k, 0)
  {
    if k == 0 {
      schedule := [];
    } else {
      var before := RingEnters(u, writersFirst, c, s, k - 1);
      var r := OneMoreEnters(u, writersFirst, c, Run(writersFirst, s, before).value, k - 1);
      RunPush(writersFirst, s, before, k - 1);
      RunPush(writersFirst, s, before + [k - 1], k - 1);
      schedule := before + [k - 1] + [k - 1];
    }
  }

  lemma {:induction false} RingAsks(u: Uses, writersFirst: bool, c: seq<Lock>, s: seq<Thread>, j: nat) returns (schedule: seq<nat>)
    requires Ringing(u, c, s, 0, 0) && j <= 2 * |c|
    ensures var r := Run(writersFirst, s, schedule); r.Some? && Ringing(u, c, r.value, |c|, j)
  {
    if j == 0 {
      schedule := RingEnters(u, writersFirst, c, s, |c|);
    } else {
      var before := RingAsks(u, writersFirst, c, s, j - 1);
      OneMoreAsks(u, writersFirst, c, Run(writersFirst, s, before).value, j - 1);
      RunPush(writersFirst, s, before, j - 1);
      schedule := before + [j - 1];
    }
  }

  /** When all have asked, each waits for a lock that another one holds, or that a writer waits for. */
  lemma RingIsStuck(u: Uses, writersFirst: bool, c: seq<Lock>, s: seq<Thread>, x: nat)
    requires Circle(Edges(u, writersFirst), c) && Ringing(u, c, s, |c|, 2 * |c|) && x < |s|
    ensures Unfinished(s, x) && !Enabled(writersFirst, s, x)
  {
    assert Place(u, c, s, |c|, 2 * |c|, x);
    if x < |c| {
      var m := if x + 1 < |c| then x + 1 else 0;
      assert (c[x], c[m]) in Edges(u, writersFirst);
      assert Place(u, c, s, |c|, 2 * |c|, m) && Place(u, c, s, |c|, 2 * |c|, m + |c|);
      assert s[m].held[0].lock == c[m];
      assert Holds(s[m], c[m]) && WaitsToWrite(s[m + |c|], c[m]);
    } else {
      var m := x - |c|;
      assert Place(u, c, s, |c|, 2 * |c|, m);
      assert s[m].held[0].lock == c[m];
      assert Holds(s[m], c[m]);
    }
  }

  /** A circle of uses, of any length from one on, is a program with a run that deadlocks. */
  lemma CircleDeadlocks(u: Uses, writersFirst: bool, c: seq<Lock>) returns (programs: seq<seq<Call>>, schedule: seq<nat>)
    requires AllConfig(c) && Circle(Edges(u, writersFirst), c)
    ensures AllKeep(u, programs)
    ensures var r := Run(writersFirst, Threads(programs), schedule); r.Some? && Deadlocked(writersFirst, r.value)
  {
    programs := Ring(u, c);
    RingKeeps(u, writersFirst, c);
    RingStarts(u, c);
    schedule := RingAsks(u, writersFirst, c, Threads(programs), 2 * |c|);
    var s := Run(writersFirst, Threads(programs), schedule).value;
    RingIsStuck(u, writersFirst, c, s, 0);
    forall i: nat ensures !Enabled(writersFirst, s, i) {
      if i < |s| { RingIsStuck(u, writersFirst, c, s, i); }
    }
  }

  // ----- The exact condition -----

  /** No interleaving of threads that keep to `u` deadlocks. */
  ghost predicate NeverDeadlocks(u: Uses, writersFirst: bool) {
    forall programs, schedule ::
      var r := Run(writersFirst, Threads(programs), schedule);
      AllKeep(u, programs) && r.Some? ==> !Deadlocked(writersFirst, r.value)
  }

  ghost predicate HasNumbering(u: Uses, writersFirst: bool) {
    exists f: Lock -> int, n: nat :: Bounded(f, n) && Numbered(Edges(u, writersFirst), f)
  }

  predicate ConfigOnly(u: Uses) {
    forall e :: e in u.changes + u.peeks ==> IsConfig(e.0) && IsConfig(e.1)
  }

  /** A numbering of the locks that occur extends to all. */
  lemma ExtendNumbering(u: Uses, writersFirst: bool, nodes: set<Lock>, number: map<Lock, nat>)
    requires number.Keys == nodes && Numbers(Edges(u, writersFirst), number) && forall l :: l in number ==> number[l] < |nodes|
    requires forall e :: e in Edges(u, writersFirst) ==> e.0 in nodes && e.1 in nodes
    ensures HasNumbering(u, writersFirst)
  {
    var f := (l: Lock) => if l in number then number[l] else 0;
    var n := |nodes| + 1;
    assert Bounded(f, n) && Numbered(Edges(u, writersFirst), f);
  }

  function Nodes(edges: set<(Lock, Lock)>): set<Lock> {
    (set e | e in edges :: e.0) + (set e | e in edges :: e.1)
  }

  lemma CircleIsConfig(u: Uses, writersFirst: bool, c: seq<Lock>)
    requires ConfigOnly(u) && Circle(Edges(u, writersFirst), c)
    ensures AllConfig(c)
  {
    forall m | 0 <= m < |c| ensures IsConfig(c[m]) {
      assert (c[m], Following(c, m)) in Edges(u, writersFirst);
    }
  }

  /**
   * Whatever user code does under the configuration's locks: no program deadlocks if and only if
   * the locks can be numbered so that it always goes from lower to higher numbers. Where
   * readers come first, read locks that are released at once are exempt, so that a listener may
   * even read its own variable; where writers come first, they count as well.
   */
  lemma NeverDeadlocksIffNumbered(u: Uses, writersFirst: bool)
    requires ConfigOnly(u)
    ensures NeverDeadlocks(u, writersFirst) <==> HasNumbering(u, writersFirst)
  {
    if HasNumbering(u, writersFirst) {
      var f: Lock -> int, n: nat :| Bounded(f, n) && Numbered(Edges(u, writersFirst), f);
      forall programs, schedule | AllKeep(u, programs) && Run(writersFirst, Threads(programs), schedule).Some?
        ensures !Deadlocked(writersFirst, Run(writersFirst, Threads(programs), schedule).value)
      {
        NumberedNeverDeadlocks(u, writersFirst, f, n, programs, schedule);
      }
    } else {
      var edges := Edges(u, writersFirst);
      var number, c := NumberingOrCircle(edges, Nodes(edges));
      if Circle(edges, c) {
        CircleIsConfig(u, writersFirst, c);
        var programs, schedule := CircleDeadlocks(u, writersFirst, c);
      } else {
        ExtendNumbering(u, writersFirst, Nodes(edges), number);
      }
    }
  }

  /** A listener that reads its own variable is safe exactly if readers come first. */
  lemma ReadingOwnVariable(i: nat)
    ensures var u := Uses({}, {(Var(i), Var(i))}); NeverDeadlocks(u, false) && !NeverDeadlocks(u, true)
  {
    var u := Uses({}, {(Var(i), Var(i))});
    var f := (l: Lock) => 0;
    assert Bounded(f, 1) && Numbered(Edges(u, false), f);
    NeverDeadlocksIffNumbered(u, false);
    assert (Var(i), Var(i)) in Edges(u, true);
    NeverDeadlocksIffNumbered(u, true);
  }

  /**
   * With listeners that only log, like the library's own, nothing deadlocks under either policy:
   * registry, variables, manager, ordinary loggers, root logger and appenders are taken in this order.
   */
  lemma LoggingListenersNeverDeadlock(writersFirst: bool, n: nat)
    ensures NeverDeadlocks(Uses({}, set i: nat | i < n :: (Registry, Var(i))), writersFirst)
  {
    var u := Uses({}, set i: nat | i < n :: (Registry, Var(i)));
    var f := (l: Lock) => if l.Registry? then 0 else 1;
    assert Bounded(f, 2) && Numbered(Edges(u, writersFirst), f);
    NeverDeadlocksIffNumbered(u, writersFirst);
  }
}
