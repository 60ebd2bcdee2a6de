/** Small facts about sequences, kept apart so that the proofs that use them stay small. */
module Seqs {

  lemma InitLast<T>(s: seq<T>)
    requires s != []
    ensures s == s[..|s| - 1] + [s[|s| - 1]]
  {
  }

  lemma PushInit<T>(s: seq<T>, x: T)
    ensures (s + [x])[..|s|] == s && (s + [x])[|s|] == x
  {
  }

  lemma ConcatInit<T>(a: seq<T>, b: seq<T>)
    requires b != []
    ensures (a + b)[..|a + b| - 1] == a + b[..|b| - 1] && (a + b)[|a + b| - 1] == b[|b| - 1]
  {
  }

  lemma Assoc<T>(a: seq<T>, b: seq<T>, c: seq<T>)
    ensures a + b + c == a + (b + c)
  {
  }

  predicate Increasing(s: seq<nat>) {
    forall i, j :: 0 <= i < j < |s| ==> s[i] < s[j]
  }

  function Except(s: seq<nat>, x: nat): (r: seq<nat>)
    ensures forall y :: y in r <==> y in s && y != x
  {
    if s == [] then [] else (if s[0] == x then [] else [s[0]]) + Except(s[1..], x)
  }

  lemma {:induction false} ExceptIncreases(s: seq<nat>, x: nat)
    requires Increasing(s)
    ensures Increasing(Except(s, x))
  {
    if s != [] {
      ExceptIncreases(s[1..], x);
      forall y | y in Except(s[1..], x) ensures s[0] < y {
        var k :| 0 <= k < |s[1..]| && s[1..][k] == y;
        assert s[k + 1] == y;
      }
      var rest := Except(s[1..], x);
      forall j | 0 <= j < |rest| ensures s[0] < rest[j] { assert rest[j] in rest; }
    }
  }

  /** The texts `f` gives for the elements of `s`, one after the other. */
  function Flat<T>(f: T -> string, s: seq<T>): string {
    if s == [] then "" else Flat(f, s[..|s| - 1]) + f(s[|s| - 1])
  }

  lemma FlatPush<T>(f: T -> string, s: seq<T>, x: T)
    ensures Flat(f, s + [x]) == Flat(f, s) + f(x)
  {
    PushInit(s, x);
  }

  lemma {:induction false} FlatConcat<T>(f: T -> string, a: seq<T>, b: seq<T>)
    ensures Flat(f, a + b) == Flat(f, a) + Flat(f, b)
  {
    if b == [] {
      assert a + b == a;
    } else {
      var init, x := b[..|b| - 1], b[|b| - 1];
      ConcatInit(a, b);
      FlatConcat(f, a, init);
      Assoc(Flat(f, a), Flat(f, init), f(x));
    }
  }
}
