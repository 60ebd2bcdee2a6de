/**
 * The log-pattern language of `LogFormatter`: `%%`, `%key`, `%key{fmt}` and literal text.
 *
 * A pattern is described here by its concrete syntax, a list of pieces, independently of
 * the three-state scanner that reads it (see module `Formatter`). The pieces include the
 * malformed directives from which the scanner recovers, so that every string has exactly
 * one legal list of pieces.
 */
module LogPattern {

  // ----- Characters -----

  /** `isalpha` in the "C" locale. */
  predicate IsAlpha(c: char) {
    'a' <= c <= 'z' || 'A' <= c <= 'Z'
  }

  predicate NotBrace(c: char) {
    c != '{' && c != '}'
  }

  predicate All(ok: char -> bool, s: string) {
    forall i :: 0 <= i < |s| ==> ok(s[i])
  }

  /** The longest prefix of `s` whose characters are all `ok`. */
  function Span(ok: char -> bool, s: string): (r: string)
    ensures r <= s && All(ok, r)
    ensures |r| < |s| ==> !ok(s[|r|])
  {
    if s == "" || !ok(s[0]) then "" else [s[0]] + Span(ok, s[1..])
  }

  lemma {:induction false} SpanUnique(ok: char -> bool, a: string, b: string)
    requires All(ok, a) && (b != "" ==> !ok(b[0]))
    ensures Span(ok, a + b) == a
  {
    if a != "" {
      assert (a + b)[1..] == a[1..] + b;
      SpanUnique(ok, a[1..], b);
    } else {
      assert a + b == b;
    }
  }

  // ----- Concrete syntax -----

  datatype Piece =
    | Char(c: char)                          // an ordinary character
    | Percent                                // %%
    | Bare(key: string)                      // %key
    | Braced(key: string, fmt: string)       // %key{fmt}
    | StrayClose(key: string)                // %key}       malformed
    | NestedOpen(key: string, fmt: string)   // %key{fmt{   malformed
    | Unclosed(key: string, fmt: string)     // %key{fmt    malformed, only at the end

  function SpellOne(x: Piece): (s: string)
    ensures s != ""
  {
    match x
    case Char(c) => [c]
    case Percent => "%%"
    case Bare(k) => "%" + k
    case Braced(k, f) => "%" + k + "{" + f + "}"
    case StrayClose(k) => "%" + k + "}"
    case NestedOpen(k, f) => "%" + k + "{" + f + "{"
    case Unclosed(k, f) => "%" + k + "{" + f
  }

  function Spell(ps: seq<Piece>): string {
    if ps == [] then "" else SpellOne(ps[0]) + Spell(ps[1..])
  }

  predicate WellFormed(x: Piece) {
    match x
    case Char(c) => c != '%'
    case Percent => true
    case Bare(k) => All(IsAlpha, k)
    case StrayClose(k) => All(IsAlpha, k)
    case Braced(k, f) => All(IsAlpha, k) && All(NotBrace, f)
    case NestedOpen(k, f) => All(IsAlpha, k) && All(NotBrace, f)
    case Unclosed(k, f) => All(IsAlpha, k) && All(NotBrace, f)
  }

  /** Whether `b` may follow `a` without being read as part of it. */
  predicate Joins(a: Piece, b: Piece) {
    match a
    case Bare(k) =>
      && (b.Char? ==> !IsAlpha(b.c) && NotBrace(b.c))
      && (k == "" ==> b.Char?)
    case Unclosed(_, _) => false
    case _ => true
  }

  /** Well-formed pieces, each of which may follow the one before it. */
  predicate Legal(ps: seq<Piece>) {
    ps == [] ||
    var init, x := ps[..|ps| - 1], ps[|ps| - 1];
    Legal(init) && WellFormed(x) && (init != [] ==> Joins(init[|init| - 1], x))
  }

  lemma {:induction false} LegalSplit(x: Piece, tail: seq<Piece>)
    ensures Legal([x] + tail) <==> WellFormed(x) && Legal(tail) && (tail != [] ==> Joins(x, tail[0]))
  {
    var ps := [x] + tail;
    var init := ps[..|ps| - 1];
    if tail == [] {
      assert init == [] && ps[|ps| - 1] == x;
      assert Legal(init);
    } else {
      assert init == [x] + tail[..|tail| - 1];
      LegalSplit(x, tail[..|tail| - 1]);
      assert ps[|ps| - 1] == tail[|tail| - 1];
    }
  }

  // ----- Reading a pattern -----

  /** The directive with key `k` when `r` follows the key. */
  function FirstDirective(k: string, r: string): (x: Piece)
    requires All(IsAlpha, k)
    ensures SpellOne(x) <= "%" + k + r && WellFormed(x)
  {
    if r == "" then Bare(k)
    else if r[0] == '}' then
      assert "%" + k + r == "%" + k + "}" + r[1..];
      StrayClose(k)
    else if r[0] != '{' then Bare(k)
    else
      assert "%" + k + r == "%" + k + "{" + r[1..];
      FirstBraces(k, r[1..])
  }

  /** The directive with key `k` when `q` follows its opening brace. */
  function FirstBraces(k: string, q: string): (x: Piece)
    requires All(IsAlpha, k)
    ensures SpellOne(x) <= "%" + k + "{" + q && WellFormed(x)
  {
    var f := Span(NotBrace, q);
    if |f| == |q| then Unclosed(k, f)
    else if q[|f|] == '}' then Braced(k, f)
    else NestedOpen(k, f)
  }

  /** The first piece of a non-empty pattern. */
  function First(p: string): (x: Piece)
    requires p != ""
    ensures SpellOne(x) <= p && WellFormed(x)
  {
    if p[0] != '%' then Char(p[0])
    else if |p| > 1 && p[1] == '%' then Percent
    else
      var k := Span(IsAlpha, p[1..]);
      var r := p[1 + |k|..];
      assert p == "%" + k + r;
      FirstDirective(k, r)
  }

  /** The pieces of any pattern whatever. */
  function Parse(p: string): seq<Piece>
    decreases |p|
  {
    if p == "" then [] else
      var x := First(p);
      [x] + Parse(p[|SpellOne(x)|..])
  }

  lemma {:induction false} SpellConcat(a: seq<Piece>, b: seq<Piece>)
    ensures Spell(a + b) == Spell(a) + Spell(b)
  {
    if a == [] {
      assert a + b == b;
    } else {
      assert (a + b)[1..] == a[1..] + b;
      SpellConcat(a[1..], b);
    }
  }

  /** Every pattern is spelled by a legal list of pieces. */
  lemma {:induction false} ParseIsLegal(p: string)
    ensures Legal(Parse(p)) && Spell(Parse(p)) == p
    decreases |p|
  {
    if p != "" {
      var x := First(p);
      var rest := p[|SpellOne(x)|..];
      ParseIsLegal(rest);
      if rest != "" { FirstJoins(p); }
      LegalSplit(x, Parse(rest));
      assert Parse(p)[1..] == Parse(rest);
    }
  }

  lemma FirstJoins(p: string)
    requires p != "" && p[|SpellOne(First(p))|..] != ""
    ensures Joins(First(p), First(p[|SpellOne(First(p))|..]))
  {
    var x := First(p);
    var rest := p[|SpellOne(x)|..];
    if x.Bare? {
      assert rest[0] == p[1..][|x.key|];
      assert !IsAlpha(rest[0]) && NotBrace(rest[0]);
    }
  }

  /** A legal list of pieces is the only reading of the pattern it spells. */
  lemma {:induction false} LegalIsUnique(ps: seq<Piece>)
    requires Legal(ps)
    ensures Parse(Spell(ps)) == ps
  {
    if ps != [] {
      var tail := ps[1..];
      assert ps == [ps[0]] + tail;
      LegalSplit(ps[0], tail);
      LegalIsUnique(tail);
      if tail != [] { LegalHead(tail); }
      FirstOfSpell(ps[0], tail);
      assert Spell(ps)[|SpellOne(ps[0])|..] == Spell(tail);
    }
  }

  lemma {:induction false} LegalHead(ps: seq<Piece>)
    requires Legal(ps) && ps != []
    ensures WellFormed(ps[0])
  {
    assert ps == [ps[0]] + ps[1..];
    LegalSplit(ps[0], ps[1..]);
  }

  lemma FirstOfSpell(x: Piece, tail: seq<Piece>)
    requires WellFormed(x)
    requires tail != [] ==> WellFormed(tail[0]) && Joins(x, tail[0])
    ensures First(SpellOne(x) + Spell(tail)) == x
  {
    if tail != [] { assert Spell(tail)[0] == SpellOne(tail[0])[0]; }
    FirstThen(x, Spell(tail));
  }

  /** `x` is read back in front of any text that cannot extend it. */
  lemma FirstThen(x: Piece, rest: string)
    requires WellFormed(x)
    requires x.Bare? && rest != "" ==> !IsAlpha(rest[0]) && NotBrace(rest[0]) && (x.key == "" ==> rest[0] != '%')
    requires x.Unclosed? ==> rest == ""
    ensures First(SpellOne(x) + rest) == x
  {
    match x
    case Char(c) =>
    case Percent =>
    case Bare(k) => FirstOfKey(k, rest, "%" + k + rest);
    case StrayClose(k) => FirstOfStray(k, rest);
    case Braced(k, f) => FirstOfBraces(k, f, "}", rest);
    case NestedOpen(k, f) => FirstOfBraces(k, f, "{", rest);
    case Unclosed(k, f) =>
      FirstOfBraces(k, f, "", "");
      assert SpellOne(x) + "" == "%" + k + "{" + f + "" + "";
  }

  lemma FirstOfStray(k: string, rest: string)
    requires All(IsAlpha, k)
    ensures First("%" + k + "}" + rest) == StrayClose(k)
  {
    var r := "}" + rest;
    assert "%" + k + "}" + rest == "%" + k + r;
    FirstOfKey(k, r, "%" + k + r);
  }

  lemma FirstOfKey(k: string, r: string, p: string)
    requires All(IsAlpha, k) && (r != "" ==> !IsAlpha(r[0]))
    requires k == "" && r != "" ==> r[0] != '%'
    requires p == "%" + k + r
    ensures First(p) == FirstDirective(k, r)
  {
    assert p[1..] == k + r;
    SpanUnique(IsAlpha, k, r);
    assert p[1 + |k|..] == r;
  }

  lemma FirstOfBraces(k: string, f: string, brace: string, rest: string)
    requires All(IsAlpha, k) && All(NotBrace, f)
    requires brace == "}" || brace == "{" || (brace == "" && rest == "")
    ensures First("%" + k + "{" + f + brace + rest)
            == if brace == "" then Unclosed(k, f) else if brace == "}" then Braced(k, f) else NestedOpen(k, f)
  {
    var q := brace + rest;
    var r := "{" + (f + q);
    var p := "%" + k + "{" + f + brace + rest;
    assert p == "%" + k + r;
    FirstOfKey(k, r, p);
    assert r[1..] == f + q;
    SpanUnique(NotBrace, f, q);
  }
}
