/**
 * `LogFormatter`: the scanner that compiles a pattern to items, and the interpreter that
 * renders them, proved against the piece grammar.
 */
module Formatter {
  import opened LogPattern
  import opened LogMeaning
  import opened Seqs

  datatype Status = NormalString | ParsingKey | ParsingFormat

  /** Appending one more piece to what was read. */
  lemma Push(ps: seq<Piece>, x: Piece)
    requires Legal(ps) && WellFormed(x) && (ps != [] ==> Joins(ps[|ps| - 1], x))
    ensures Legal(ps + [x])
    ensures Spell(ps + [x]) == Spell(ps) + SpellOne(x)
    ensures EmitAll(START, ps + [x]) == Emit(EmitAll(START, ps), x)
  {
    SpellPush(ps, x);
    assert (ps + [x])[..|ps|] == ps;
  }

  lemma SpellPush(ps: seq<Piece>, x: Piece)
    ensures Spell(ps + [x]) == Spell(ps) + SpellOne(x)
  {
    SpellConcat(ps, [x]);
    var s := SpellOne(x);
    assert Spell([x]) == s + Spell([]) == s + "" == s;
  }

  /**
   * What the scanner's variables mean once the text `read` has been consumed: the pieces
   * `ps` are complete, and the rest of `read` is the beginning of a directive.
   */
  ghost predicate Reads(ps: seq<Piece>, status: Status, nstr: string, pstr: string, pfmt: string,
                        vec: seq<Token>, bad: bool, read: string)
  {
    && Legal(ps)
    && (ps != [] ==> !ps[|ps| - 1].Unclosed?)
    && match status
       case NormalString =>
         && (ps != [] ==> !ps[|ps| - 1].Bare?)
         && pstr == "" && pfmt == ""
         && EmitAll(START, ps) == Pending(vec, nstr, bad)
         && read == Spell(ps)
       case ParsingKey =>
         && (ps != [] && ps[|ps| - 1].Bare? ==> ps[|ps| - 1].key != "")
         && nstr == "" && pfmt == "" && All(IsAlpha, pstr)
         && Flush(EmitAll(START, ps)) == vec && EmitAll(START, ps).bad == bad
         && read == Spell(ps) + ("%" + pstr)
       case ParsingFormat =>
         && (ps != [] && ps[|ps| - 1].Bare? ==> ps[|ps| - 1].key != "")
         && nstr == "" && All(IsAlpha, pstr) && All(NotBrace, pfmt)
         && Flush(EmitAll(START, ps)) == vec && EmitAll(START, ps).bad == bad
         && read == Spell(ps) + ("%" + pstr + "{" + pfmt)
  }

  lemma ReadLiteral(ps: seq<Piece>, x: Piece, nstr: string, vec: seq<Token>, bad: bool, read: string)
    requires Reads(ps, NormalString, nstr, "", "", vec, bad, read)
    requires x == Percent || (x.Char? && x.c != '%')
    ensures Reads(ps + [x], NormalString, nstr + (if x.Percent? then "%" else [x.c]), "", "", vec, bad, read + SpellOne(x))
  {
    Push(ps, x);
  }

  /** A directive without braces has just ended. */
  ghost predicate AfterKey(ps: seq<Piece>, key: string, vec: seq<Token>, bad: bool, read: string) {
    && Legal(ps) && ps != [] && ps[|ps| - 1] == Bare(key)
    && EmitAll(START, ps) == Pending(vec, "", bad) && read == Spell(ps)
  }

  lemma ReadKeyEnd(ps: seq<Piece>, pstr: string, vec: seq<Token>, bad: bool, read: string)
    requires Reads(ps, ParsingKey, "", pstr, "", vec, bad, read)
    ensures AfterKey(ps + [Bare(pstr)], pstr, vec + [Directive(pstr, "")], bad, read)
  {
    Push(ps, Bare(pstr));
  }

  lemma LiteralAfterKey(ps: seq<Piece>, x: Piece, key: string, vec: seq<Token>, bad: bool, read: string)
    requires AfterKey(ps, key, vec, bad, read)
    requires (x == Percent && key != "") || (x.Char? && x.c != '%' && !IsAlpha(x.c) && NotBrace(x.c))
    ensures Reads(ps + [x], NormalString, if x.Percent? then "%" else [x.c], "", "", vec, bad, read + SpellOne(x))
  {
    Push(ps, x);
  }

  lemma KeyAfterKey(ps: seq<Piece>, key: string, vec: seq<Token>, bad: bool, read: string)
    requires AfterKey(ps, key, vec, bad, read) && key != ""
    ensures Reads(ps, ParsingKey, "", "", "", vec, bad, read + "%")
  {
  }

  lemma ReadStrayClose(ps: seq<Piece>, pstr: string, vec: seq<Token>, bad: bool, read: string)
    requires Reads(ps, ParsingKey, "", pstr, "", vec, bad, read)
    ensures Reads(ps + [StrayClose(pstr)], NormalString, "", "", "", vec + [Text(ERROR_TEXT)], true, read + "}")
  {
    Push(ps, StrayClose(pstr));
    Assoc(Spell(ps), "%" + pstr, "}");
  }

  lemma ReadBraceEnd(ps: seq<Piece>, x: Piece, pstr: string, pfmt: string, vec: seq<Token>, bad: bool, read: string, c: char)
    requires Reads(ps, ParsingFormat, "", pstr, pfmt, vec, bad, read)
    requires (x == Braced(pstr, pfmt) && c == '}') || (x == NestedOpen(pstr, pfmt) && c == '{')
    ensures Reads(ps + [x], NormalString, "", "", "",
                  vec + [if x.Braced? then Directive(pstr, pfmt) else Text(ERROR_TEXT)], bad || x.NestedOpen?, read + [c])
  {
    Push(ps, x);
    Assoc(Spell(ps), "%" + pstr + "{" + pfmt, [c]);
  }

  lemma ReadUnclosed(ps: seq<Piece>, pstr: string, pfmt: string, vec: seq<Token>, bad: bool, read: string)
    requires Reads(ps, ParsingFormat, "", pstr, pfmt, vec, bad, read)
    ensures Legal(ps + [Unclosed(pstr, pfmt)]) && Spell(ps + [Unclosed(pstr, pfmt)]) == read
    ensures EmitAll(START, ps + [Unclosed(pstr, pfmt)]) == Pending(vec, "", true)
  {
    Push(ps, Unclosed(pstr, pfmt));
  }

  lemma NormalEnd(ps: seq<Piece>, nstr: string, vec: seq<Token>, bad: bool, read: string)
    requires Reads(ps, NormalString, nstr, "", "", vec, bad, read)
    ensures EndsBadly(ps) <==> nstr == ""
    ensures TokensOf(ps) == vec + [Text(if nstr == "" then ERROR_TEXT else nstr)]
    ensures ScanError(ps) <==> bad || nstr == ""
  {
    if ps != [] {
      assert EmitAll(START, ps) == Emit(EmitAll(START, ps[..|ps| - 1]), ps[|ps| - 1]);
    }
  }

  lemma KeyEnd(ps: seq<Piece>, pstr: string, vec: seq<Token>, bad: bool, read: string)
    requires Reads(ps, ParsingKey, "", pstr, "", vec, bad, read)
    ensures var all := ps + [Bare(pstr)];
            && Legal(all) && Spell(all) == read && TokensOf(all) == vec + [Directive(pstr, "")] && (ScanError(all) <==> bad)
  {
    ReadKeyEnd(ps, pstr, vec, bad, read);
    PushInit(ps, Bare(pstr));
  }

  lemma FormatEnd(ps: seq<Piece>, pstr: string, pfmt: string, vec: seq<Token>, bad: bool, read: string)
    requires Reads(ps, ParsingFormat, "", pstr, pfmt, vec, bad, read)
    ensures var all := ps + [Unclosed(pstr, pfmt)];
            Legal(all) && Spell(all) == read && TokensOf(all) == vec + [Text(ERROR_TEXT)] && ScanError(all)
  {
    ReadUnclosed(ps, pstr, pfmt, vec, bad, read);
    PushInit(ps, Unclosed(pstr, pfmt));
  }

  /** The scanner's variables while it reads a pattern. */
  class Scanner {
    var status: Status
    var nstr: string
    var pstr: string
    var pfmt: string
    var vec: seq<Token>
    var bad: bool
    ghost var ps: seq<Piece>

    ghost predicate Read(read: string)
      reads this
    {
      Reads(ps, status, nstr, pstr, pfmt, vec, bad, read)
    }

    constructor ()
      ensures status == NormalString && Read("")
    {
      status, nstr, pstr, pfmt, vec, bad, ps := NormalString, "", "", "", [], false, [];
    }

    /** One character in normal status; `doubled` says that the next one is another `%`. */
    method InNormal(c: char, doubled: bool, ghost read: string)
      requires status == NormalString && Read(read)
      modifies this
      ensures Read(read + if c == '%' && doubled then "%%" else [c])
      ensures status == ParsingKey <==> c == '%' && !doubled
      ensures status == ParsingKey ==> pstr == ""
    {
      if c == '%' {
        if doubled {
          ReadLiteral(ps, Percent, nstr, vec, bad, read);
          ps := ps + [Percent];
          nstr := nstr + "%";
          return;
        }
        status := ParsingKey;
        if nstr != "" {
          vec := vec + [Text(nstr)];
          nstr := "";
        }
      } else {
        ReadLiteral(ps, Char(c), nstr, vec, bad, read);
        ps := ps + [Char(c)];
        nstr := nstr + [c];
      }
    }

    /** One character after a directive's `%`. */
    method InKey(c: char, doubled: bool, ghost read: string)
      requires status == ParsingKey && Read(read) && (c == '%' ==> pstr != "")
      modifies this
      ensures Read(read + if c == '%' && doubled then "%%" else [c])
      ensures status == ParsingKey && pstr == "" ==> c == '%' && !doubled
    {
      if c == '{' {
        Assoc(Spell(ps), "%" + pstr, "{");
        status := ParsingFormat;
      } else if c == '}' {
        ReadStrayClose(ps, pstr, vec, bad, read);
        ps := ps + [StrayClose(pstr)];
        status := NormalString;
        vec := vec + [Text(ERROR_TEXT)];
        pstr, pfmt := "", "";
        bad := true;
      } else if c == '%' {
        PercentAfterKey(doubled, read);
      } else if !IsAlpha(c) {
        ReadKeyEnd(ps, pstr, vec, bad, read);
        LiteralAfterKey(ps + [Bare(pstr)], Char(c), pstr, vec + [Directive(pstr, pfmt)], bad, read);
        ps := ps + [Bare(pstr)] + [Char(c)];
        status := NormalString;
        vec := vec + [Directive(pstr, pfmt)];
        nstr := nstr + [c];
        pstr, pfmt := "", "";
      } else {
        Assoc(Spell(ps), "%" + pstr, [c]);
        Assoc("%", pstr, [c]);
        pstr := pstr + [c];
      }
    }

    /** A `%` ends the directive and is literal text if `doubled`, or else begins the next one. */
    method PercentAfterKey(doubled: bool, ghost read: string)
      requires status == ParsingKey && Read(read) && pstr != ""
      modifies this
      ensures Read(read + if doubled then "%%" else "%") && (status == ParsingKey ==> !doubled)
    {
      ReadKeyEnd(ps, pstr, vec, bad, read);
      ps := ps + [Bare(pstr)];
      vec := vec + [Directive(pstr, pfmt)];
      ghost var key := pstr;
      pstr, pfmt := "", "";
      if doubled {
        LiteralAfterKey(ps, Percent, key, vec, bad, read);
        ps := ps + [Percent];
        status := NormalString;
        nstr := nstr + "%";
      } else {
        KeyAfterKey(ps, key, vec, bad, read);
        status := ParsingKey;
      }
    }

    /** One character after a directive's opening brace. */
    method InFormat(c: char, ghost read: string)
      requires status == ParsingFormat && Read(read)
      modifies this
      ensures Read(read + [c]) && status != ParsingKey
    {
      if c == '}' {
        ReadBraceEnd(ps, Braced(pstr, pfmt), pstr, pfmt, vec, bad, read, c);
        ps := ps + [Braced(pstr, pfmt)];
        status := NormalString;
        vec := vec + [Directive(pstr, pfmt)];
        pstr, pfmt := "", "";
      } else if c == '{' {
        ReadBraceEnd(ps, NestedOpen(pstr, pfmt), pstr, pfmt, vec, bad, read, c);
        ps := ps + [NestedOpen(pstr, pfmt)];
        status := NormalString;
        vec := vec + [Text(ERROR_TEXT)];
        pstr, pfmt := "", "";
        bad := true;
      } else {
        Assoc(Spell(ps), "%" + pstr + "{" + pfmt, [c]);
        Assoc("%" + pstr + "{", pfmt, [c]);
        pfmt := pfmt + [c];
      }
    }

    /** The scanner is about to read character `i`. */
    ghost predicate At(pattern: string, i: int)
      reads this
    {
      && 0 <= i <= |pattern| && Read(pattern[..i])
      && (status == ParsingKey && pstr == "" && i < |pattern| ==> pattern[i] != '%')
    }

    /** One turn of the loop. */
    method Step(pattern: string, i: nat) returns (next: nat)
      requires i < |pattern| && At(pattern, i)
      modifies this
      ensures next > i && At(pattern, next)
    {
      var c := pattern[i];
      var doubled := i + 1 < |pattern| && pattern[i + 1] == '%';
      next := if status != ParsingFormat && c == '%' && doubled then i + 2 else i + 1;
      assert pattern[..next] == pattern[..i] + if next == i + 2 then "%%" else [c];
      match status {
        case NormalString => InNormal(c, doubled, pattern[..i]);
        case ParsingKey => InKey(c, doubled, pattern[..i]);
        case ParsingFormat => InFormat(c, pattern[..i]);
      }
    }

    /** The check after the loop, which completes the last piece. */
    method AtEnd(ghost pattern: string)
      requires Read(pattern)
      modifies this
      ensures Legal(ps) && Spell(ps) == pattern
      ensures vec == TokensOf(ps) && (bad <==> ScanError(ps))
    {
      if status == NormalString { NormalEnd(ps, nstr, vec, bad, pattern); }
      if status == NormalString && nstr != "" {
        vec := vec + [Text(nstr)];
      } else if status == ParsingKey {
        KeyEnd(ps, pstr, vec, bad, pattern);
        ps := ps + [Bare(pstr)];
        vec := vec + [Directive(pstr, pfmt)];
      } else {
        if status == ParsingFormat {
          FormatEnd(ps, pstr, pfmt, vec, bad, pattern);
          ps := ps + [Unclosed(pstr, pfmt)];
        }
        bad := true;
        vec := vec + [Text(ERROR_TEXT)];
      }
    }
  }

  /** The scanner loop, from a fresh scanner to the check at its end. */
  method ScanAll(pattern: string) returns (s: Scanner)
    ensures Legal(s.ps) && Spell(s.ps) == pattern
    ensures s.vec == TokensOf(s.ps) && (s.bad <==> ScanError(s.ps))
  {
    s := new Scanner();
    var i := 0;
    assert pattern[..0] == "";
    while i < |pattern|
      invariant fresh(s) && s.At(pattern, i)
    {
      i := s.Step(pattern, i);
    }
    assert pattern[..i] == pattern;
    s.AtEnd(pattern);
  }

  /**
   * The first half of `LogFormatter::init`.
   * `vec` and `bad` are exactly what the grammar says of the pattern.
   */
  method Scan(pattern: string) returns (vec: seq<Token>, bad: bool)
    ensures vec == TokensOf(Parse(pattern))
    ensures bad <==> ScanError(Parse(pattern))
  {
    var s := ScanAll(pattern);
    LegalIsUnique(s.ps);
    return s.vec, s.bad;
  }

  /** The second half of `LogFormatter::init`: one item per token, and an error for each unknown key. */
  method BuildItems(vec: seq<Token>, bad: bool) returns (items: seq<FormatItem>, error: bool)
    ensures items == ItemsOf(vec)
    ensures error <==> bad || !KnownTokens(vec)
  {
    items, error := [], bad;
    for n := 0 to |vec|
      invariant items == ItemsOf(vec[..n])
      invariant error <==> bad || !KnownTokens(vec[..n])
    {
      assert vec[..n + 1] == vec[..n] + [vec[n]];
      assert vec[..n + 1][..n] == vec[..n];
      KnownPush(vec[..n], vec[n]);
      match vec[n] {
        case Text(t) =>
          items := items + [Literal(t)];
        case Directive(k, f) =>
          if !KnownKey(k) {
            error := true;
          }
          items := items + [ItemFor(k, f)];
      }
    }
    assert vec[..|vec|] == vec;
  }

  /** A pattern compiled once, when it is constructed, and rendered for each event. */
  class LogFormatter {
    const pattern: string
    const items: seq<FormatItem>
    const error: bool

    /** The items print what the pattern says, for every event. */
    ghost predicate Compiled() {
      forall ev :: Render(items, ev) == Meaning(Parse(pattern), ev)
    }

    /** `init`: scanning, then one item per token. */
    constructor (pattern: string)
      ensures this.pattern == pattern && Compiled() && (error <==> !Accepted(pattern))
    {
      this.pattern := pattern;
      var vec, bad := Scan(pattern);
      var list, fault := BuildItems(vec, bad);
      items, error := list, fault;
      ErrorIffNotGood(Parse(pattern));
      forall ev ensures Render(list, ev) == Meaning(Parse(pattern), ev) {
        TokensMeaning(Parse(pattern), ev);
      }
    }

    /** Rendering the compiled items is the direct reading of the pattern. */
    method Format(ev: LogEvent) returns (text: string)
      requires Compiled()
      ensures text == Meaning(Parse(pattern), ev)
    {
      text := "";
      for n := 0 to |items|
        invariant text == Render(items[..n], ev)
      {
        assert items[..n + 1] == items[..n] + [items[n]];
        FlatPush((i: FormatItem) => Show(i, ev), items[..n], items[n]);
        text := text + Show(items[n], ev);
      }
      assert items[..|items|] == items;
    }
  }
}
