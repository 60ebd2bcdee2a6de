/** Exactly when two accepted log patterns can be joined. */
module LogJoin {
  import opened LogPattern
  import opened LogMeaning
  import opened LogLaws
  import opened Seqs

  /** Reading goes on after complete pieces as if the rest stood alone, unless it extends the last piece. */
  lemma ParseAfter(a: seq<Piece>, s: string)
    requires Legal(a) && s != "" && (a != [] ==> Joins(a[|a| - 1], First(s)))
    ensures Parse(Spell(a) + s) == a + Parse(s)
  {
    ParseIsLegal(s);
    LegalConcat(a, Parse(s));
    SpellConcat(a, Parse(s));
    LegalIsUnique(a + Parse(s));
  }

  lemma {:induction false} LegalTail(ps: seq<Piece>, i: nat)
    requires Legal(ps) && i <= |ps|
    ensures Legal(ps[i..])
  {
    if i > 0 {
      assert ps == [ps[0]] + ps[1..];
      LegalSplit(ps[0], ps[1..]);
      LegalTail(ps[1..], i - 1);
      assert ps[1..][i - 1..] == ps[i..];
    }
  }

  // ----- A directive in front of text that extends it -----

  lemma TwoLetters(s: string)
    requires |s| >= 2 && IsAlpha(s[0]) && IsAlpha(s[1])
    ensures |Span(IsAlpha, s)| >= 2
  {
    assert s[1..][0] == s[1];
    assert |Span(IsAlpha, s[1..])| >= 1;
  }

  /** A letter after a key makes it a longer key, and no known key is that long. */
  lemma ExtendedByLetter(k: string, q: string)
    requires KnownKey(k) && All(IsAlpha, k) && q != "" && IsAlpha(q[0])
    ensures !First("%" + k + q).Char? && !GoodPiece(First("%" + k + q))
  {
    LongDirective("%" + k + q);
  }

  lemma LongDirective(p: string)
    requires |p| >= 3 && p[0] == '%' && IsAlpha(p[1]) && IsAlpha(p[2])
    ensures !First(p).Char? && !GoodPiece(First(p))
  {
    TwoLetters(p[1..]);
    var key := Span(IsAlpha, p[1..]);
    LongKeyIsBad(key, p[1 + |key|..]);
  }

  lemma LongKeyIsBad(key: string, r: string)
    requires All(IsAlpha, key) && |key| >= 2
    ensures !FirstDirective(key, r).Char? && !GoodPiece(FirstDirective(key, r))
  {
  }

  lemma ClosedFormat(k: string, t: string)
    requires All(IsAlpha, k)
    ensures var y := FirstBraces(k, t);
            !y.Char? && (GoodPiece(y) ==> y.Braced? && y.key == k && y.fmt + "}" <= t)
  {
  }

  /** A brace after a key makes a good piece only if it opens a format that is closed. */
  lemma ExtendedByBrace(k: string, q: string)
    requires KnownKey(k) && All(IsAlpha, k) && q != "" && !NotBrace(q[0])
    ensures var y := First("%" + k + q);
            !y.Char? && (GoodPiece(y) ==> y.Braced? && y.key == k && q[0] == '{' && y.fmt + "}" <= q[1..])
  {
    FirstOfKey(k, q, "%" + k + q);
    ClosedFormat(k, q[1..]);
  }

  // ----- The closing brace inside the second pattern -----

  /** In a good piece no closing brace comes before an opening one. */
  lemma OpensBeforeItCloses(x: Piece, n: nat)
    requires GoodPiece(x) && WellFormed(x) && 0 < n < |SpellOne(x)|
    requires forall i :: 0 <= i < n ==> NotBrace(SpellOne(x)[i])
    ensures SpellOne(x)[n] != '}'
  {
    if x.Braced? {
      assert SpellOne(x)[1 + |x.key|] == '{';
    }
  }

  lemma PieceEndsBefore(x: Piece, t: string, f: string, rest: string)
    requires GoodPiece(x) && WellFormed(x) && f != "" && All(NotBrace, f)
    requires SpellOne(x) + t == f + ("}" + rest)
    ensures |SpellOne(x)| <= |f|
  {
    var s := SpellOne(x);
    if |s| > |f| {
      assert s[|f|] == (s + t)[|f|] == '}';
      assert s[..|f|] == (s + t)[..|f|] == f;
      assert forall i :: 0 <= i < |f| ==> s[i] == f[i];
      OpensBeforeItCloses(x, |f|);
    }
  }

  /** A brace-free start and a `}` after it are read as text, piece by piece. */
  lemma {:induction false} ClosingBraceIsText(b: seq<Piece>, f: string, rest: string) returns (j: nat)
    requires Legal(b) && AllGood(b) && All(NotBrace, f) && Spell(b) == f + ("}" + rest)
    ensures j < |b| && Spell(b[j + 1..]) == rest
    decreases |b|
  {
    var x, tail := b[0], b[1..];
    LegalHead(b);
    LegalTail(b, 1);
    if f == "" {
      ClosingBraceFirst(x, Spell(tail), rest);
      j := 0;
    } else {
      PieceEndsBefore(x, Spell(tail), f, rest);
      DropPrefix(SpellOne(x), Spell(tail), f, "}" + rest);
      var i := ClosingBraceIsText(tail, f[|SpellOne(x)|..], rest);
      j := i + 1;
      assert tail[i + 1..] == b[j + 1..];
    }
  }

  lemma ClosingBraceFirst(x: Piece, t: string, rest: string)
    requires SpellOne(x) + t == "}" + rest
    ensures t == rest
  {
    assert SpellOne(x)[0] == (SpellOne(x) + t)[0] == '}';
    assert x.Char?;
    assert t == (SpellOne(x) + t)[1..];
  }

  lemma DropPrefix(s: string, t: string, f: string, rest: string)
    requires s + t == f + rest && |s| <= |f|
    ensures t == f[|s|..] + rest
  {
    assert t == (s + t)[|s|..] == (f + rest)[|s|..];
  }

  // ----- Lengths for an event that prints nothing -----

  const SILENT := LogEvent(0, (_, _) => "")

  lemma FormatDoesNotChangeLength(k: string, f: string)
    requires KnownKey(k)
    ensures |MeaningAll([Braced(k, f)], SILENT)| == |MeaningAll([Bare(k)], SILENT)|
  {
    var g := (x: Piece) => MeaningOne(x, SILENT);
    FlatPush(g, [], Braced(k, f));
    FlatPush(g, [], Bare(k));
    assert [] + [Braced(k, f)] == [Braced(k, f)];
    assert [] + [Bare(k)] == [Bare(k)];
  }

  /** Dropping a prefix that begins with a text character makes what is printed shorter. */
  lemma TailPrintsLess(b: seq<Piece>, i: nat, ev: LogEvent)
    requires 0 < i <= |b| && b[0].Char?
    ensures |MeaningAll(b[i..], ev)| < |MeaningAll(b, ev)|
  {
    assert b == [b[0]] + (b[1..i] + b[i..]);
    MeaningConcat([b[0]], b[1..i] + b[i..], ev);
    MeaningConcat(b[1..i], b[i..], ev);
    FlatPush((x: Piece) => MeaningOne(x, ev), [], b[0]);
    assert [] + [b[0]] == [b[0]];
  }

  /** The joined pieces print less than the two patterns do, because the braces went into the directive. */
  lemma SwallowedFormatPrintsLess(a: seq<Piece>, k: string, f: string, b: seq<Piece>, i: nat)
    requires KnownKey(k) && 0 < i <= |b| && b[0].Char?
    ensures |MeaningAll(a + ([Braced(k, f)] + b[i..]), SILENT)| < |MeaningAll(a + [Bare(k)], SILENT)| + |MeaningAll(b, SILENT)|
  {
    MeaningConcat(a, [Braced(k, f)] + b[i..], SILENT);
    MeaningConcat([Braced(k, f)], b[i..], SILENT);
    MeaningConcat(a, [Bare(k)], SILENT);
    FormatDoesNotChangeLength(k, f);
    TailPrintsLess(b, i, SILENT);
  }

  // ----- The exact condition -----

  lemma GoodJoinsDirective(x: Piece, y: Piece)
    requires GoodPiece(x) && !y.Char?
    ensures Joins(x, y)
  {
  }

  /** The joined pattern is read as the first one without its last piece, then the rest. */
  lemma ParseJoined(a: seq<Piece>, d: string, q: string)
    requires Legal(a) && AllGood(a) && d != "" && !First(d + q).Char?
    ensures Parse(Spell(a) + d + q) == a + Parse(d + q)
  {
    Assoc(Spell(a), d, q);
    if a != [] {
      GoodJoinsDirective(a[|a| - 1], First(d + q));
    }
    ParseAfter(a, d + q);
  }

  lemma LastIsBare(ps: seq<Piece>)
    requires Legal(ps) && Good(ps) && ps[|ps| - 1].Bare?
    ensures var a, k := ps[..|ps| - 1], ps[|ps| - 1].key;
            && Legal(a) && AllGood(a) && KnownKey(k) && All(IsAlpha, k)
            && ps == a + [Bare(k)] && Spell(ps) == Spell(a) + ("%" + k)
  {
    var a, x := ps[..|ps| - 1], ps[|ps| - 1];
    InitLast(ps);
    SpellConcat(a, [x]);
    assert Spell([x]) == SpellOne(x) + Spell([]) == SpellOne(x);
  }

  lemma SwallowedFormat(k: string, f: string, q: string)
    requires q != "" && q[0] == '{' && f + "}" <= q[1..]
    ensures var rest := q[|f| + 2..];
            q == "{" + (f + ("}" + rest)) && "%" + k + q == SpellOne(Braced(k, f)) + rest
  {
    assert q[1..] == f + ("}" + q[|f| + 2..]);
  }

  /** The pieces of the second pattern from behind the closing brace on. */
  lemma TailOfFormat(f: string, q: string, rest: string) returns (i: nat)
    requires Accepted(q) && All(NotBrace, f) && q == "{" + (f + ("}" + rest))
    ensures var b := Parse(q); 0 < i <= |b| && b[0].Char? && b[i..] == Parse(rest)
  {
    var b := Parse(q);
    ParseIsLegal(q);
    assert b[0] == Char('{') && Spell(b[1..]) == f + ("}" + rest);
    LegalTail(b, 1);
    var j := ClosingBraceIsText(b[1..], f, rest);
    i := j + 2;
    LegalTail(b, i);
    assert b[1..][j + 1..] == b[i..];
    LegalIsUnique(b[i..]);
  }

  /** If the rest extends the directive, the joined pattern is an error or prints something else. */
  lemma ExtensionBreaks(a: seq<Piece>, k: string, q: string)
    requires Legal(a) && AllGood(a) && KnownKey(k) && All(IsAlpha, k) && Accepted(q)
    requires IsAlpha(q[0]) || !NotBrace(q[0])
    ensures var r := Parse(Spell(a) + ("%" + k) + q);
            Good(r) ==> |MeaningAll(r, SILENT)| < |MeaningAll(a + [Bare(k)], SILENT)| + |MeaningAll(Parse(q), SILENT)|
  {
    var s := "%" + k + q;
    if IsAlpha(q[0]) { ExtendedByLetter(k, q); } else { ExtendedByBrace(k, q); }
    var y := First(s);
    ParseJoined(a, "%" + k, q);
    var rest := s[|SpellOne(y)|..];
    assert Parse(s) == [y] + Parse(rest);
    var r := a + Parse(s);
    assert r[|a|] == y;
    if Good(r) {
      assert GoodPiece(y);
      SwallowedFormat(k, y.fmt, q);
      var i := TailOfFormat(y.fmt, q, rest);
      SwallowedFormatPrintsLess(a, k, y.fmt, Parse(q), i);
    }
  }

  /** Joining two patterns joins what they print, for every event. */
  ghost predicate Distributes(p: string, q: string) {
    && Accepted(p + q)
    && forall ev :: Meaning(Parse(p + q), ev) == Meaning(Parse(p), ev) + Meaning(Parse(q), ev)
  }

  /**
   * Rendering distributes over joining two accepted patterns exactly when the second does not
   * begin with a letter or a brace that continues a directive ending the first.
   */
  lemma JoinsIffDistributes(p: string, q: string)
    requires Accepted(p) && Accepted(q)
    ensures Distributes(p, q) <==> Joins(Parse(p)[|Parse(p)| - 1], Parse(q)[0])
  {
    if Joins(Parse(p)[|Parse(p)| - 1], Parse(q)[0]) {
      Joined(p, q);
    } else {
      NotJoined(p, q);
    }
  }

  lemma Joined(p: string, q: string)
    requires Accepted(p) && Accepted(q) && Joins(Parse(p)[|Parse(p)| - 1], Parse(q)[0])
    ensures Distributes(p, q)
  {
    JoinPatterns(p, q, SILENT);
    forall ev ensures Meaning(Parse(p + q), ev) == Meaning(Parse(p), ev) + Meaning(Parse(q), ev) {
      JoinPatterns(p, q, ev);
    }
  }

  lemma NotJoined(p: string, q: string)
    requires Accepted(p) && Accepted(q) && !Joins(Parse(p)[|Parse(p)| - 1], Parse(q)[0])
    ensures Accepted(p + q) ==> Meaning(Parse(p + q), SILENT) != Meaning(Parse(p), SILENT) + Meaning(Parse(q), SILENT)
  {
    var ps := Parse(p);
    ParseIsLegal(p);
    LastIsBare(ps);
    ExtensionBreaks(ps[..|ps| - 1], ps[|ps| - 1].key, q);
    GoodMeaning(ps, SILENT);
    GoodMeaning(Parse(q), SILENT);
    if Accepted(p + q) {
      GoodMeaning(Parse(p + q), SILENT);
    }
  }
}
