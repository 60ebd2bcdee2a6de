/** What each directive of a pattern prints, text by text. */
module LogDirectives {
  import opened Seqs
  import opened LogPattern
  import opened LogMeaning
  import opened LogLaws

  /** The keys of the item table. */
  const KEYS: set<string> := {"m", "p", "r", "c", "t", "n", "d", "f", "l", "T", "F", "P", "N"}

  /** Keys are made of the ASCII letters. */
  lemma LettersAre(c: char)
    ensures IsAlpha(c) <==> 65 <= c as int <= 90 || 97 <= c as int <= 122
  {
    assert 'a' as int == 97 && 'z' as int == 122 && 'A' as int == 65 && 'Z' as int == 90;
  }

  lemma KnownKeysAre(k: string)
    ensures KnownKey(k) <==> k in KEYS
  {
    if |k| == 1 { assert k == [k[0]]; }
  }

  /** What the item of a directive prints, for every key and format. */
  lemma ItemPrints(k: string, f: string, ev: LogEvent)
    ensures Show(ItemFor(k, f), ev) ==
            if k == "n" then "\n"
            else if k == "T" then "\t"
            else if k == "d" then ev.show("d", if f == "" then "%Y-%m-%d %H:%M:%S" else f)
            else if k == "f" then ev.show("f", f)
            else if k in KEYS then ev.show(k, "")
            else "<<error_format %" + k + ">>"
  {
    KnownKeysAre(k);
  }

  lemma TwoPieces(x: Piece, c: char)
    requires WellFormed(x) && c != '%' && Joins(x, Char(c))
    ensures Parse(SpellOne(x) + [c]) == [x, Char(c)]
  {
    var ps := [x] + [Char(c)];
    LegalSplit(Char(c), []);
    LegalSplit(x, [Char(c)]);
    assert [Char(c)] + [] == [Char(c)] && ps[1..] == [Char(c)] && [Char(c)][1..] == [];
    assert Spell([Char(c)]) == [c] && Spell(ps) == SpellOne(x) + [c];
    LegalIsUnique(ps);
  }

  lemma MeaningOfOne(x: Piece, ev: LogEvent)
    ensures MeaningAll([x], ev) == MeaningOne(x, ev)
    ensures forall c :: MeaningAll([x, Char(c)], ev) == MeaningOne(x, ev) + [c]
  {
    var f := (x: Piece) => MeaningOne(x, ev);
    FlatPush(f, [], x);
    assert [] + [x] == [x];
    forall c ensures MeaningAll([x, Char(c)], ev) == MeaningOne(x, ev) + [c] {
      FlatPush(f, [x], Char(c));
      assert [x] + [Char(c)] == [x, Char(c)];
    }
  }

  lemma BareAlone(k: string, ev: LogEvent)
    requires All(IsAlpha, k)
    ensures Meaning(Parse("%" + k), ev) == Show(ItemFor(k, ""), ev)
    ensures Accepted("%" + k) <==> KnownKey(k)
  {
    ParseOne(Bare(k));
    MeaningOfOne(Bare(k), ev);
    assert SpellOne(Bare(k)) == "%" + k;
  }

  lemma MalformedAlone(x: Piece, ev: LogEvent)
    requires WellFormed(x) && (x.StrayClose? || x.NestedOpen? || x.Unclosed?)
    ensures Meaning(Parse(SpellOne(x)), ev) == MeaningOne(x, ev) + "<<error_pattern>>"
  {
    ParseOne(x);
    MeaningOfOne(x, ev);
  }

  lemma BracedAndText(k: string, f: string, c: char, ev: LogEvent)
    requires All(IsAlpha, k) && All(NotBrace, f) && c != '%'
    ensures Meaning(Parse("%" + k + "{" + f + "}" + [c]), ev) == Show(ItemFor(k, f), ev) + [c]
    ensures Accepted("%" + k + "{" + f + "}" + [c]) <==> KnownKey(k)
  {
    var ps := [Braced(k, f), Char(c)];
    TwoPieces(Braced(k, f), c);
    MeaningOfOne(Braced(k, f), ev);
    GoodPair(ps);
  }

  lemma GoodPair(ps: seq<Piece>)
    requires |ps| == 2 && ps[0].Braced? && ps[1].Char?
    ensures Good(ps) <==> KnownKey(ps[0].key)
    ensures !EndsBadly(ps)
  {
  }

  /** `%key`, for every key: what it prints, and that it is accepted exactly for the 13 known ones. */
  lemma BareDirective(k: string, ev: LogEvent)
    requires All(IsAlpha, k)
    ensures Meaning(Parse("%" + k), ev) ==
            if k == "n" then "\n"
            else if k == "T" then "\t"
            else if k == "d" then ev.show("d", "%Y-%m-%d %H:%M:%S")
            else if k in KEYS then ev.show(k, "")
            else "<<error_format %" + k + ">>"
    ensures Accepted("%" + k) <==> k in KEYS
  {
    BareAlone(k, ev);
    ItemPrints(k, "", ev);
    KnownKeysAre(k);
  }

  /** `%key{fmt}` followed by an ordinary character: only dates and file names look at the format. */
  lemma BracedDirective(k: string, f: string, c: char, ev: LogEvent)
    requires All(IsAlpha, k) && All(NotBrace, f) && c != '%'
    ensures Meaning(Parse("%" + k + "{" + f + "}" + [c]), ev) ==
            (if k == "n" then "\n"
             else if k == "T" then "\t"
             else if k == "d" then ev.show("d", if f == "" then "%Y-%m-%d %H:%M:%S" else f)
             else if k == "f" then ev.show("f", f)
             else if k in KEYS then ev.show(k, "")
             else "<<error_format %" + k + ">>") + [c]
    ensures Accepted("%" + k + "{" + f + "}" + [c]) <==> k in KEYS
  {
    BracedAndText(k, f, c, ev);
    ItemPrints(k, f, ev);
    KnownKeysAre(k);
  }

  /** The malformed directives, and what the check at the end adds to them. */
  lemma MalformedDirectives(k: string, f: string, ev: LogEvent)
    requires All(IsAlpha, k) && All(NotBrace, f)
    ensures Meaning(Parse("%" + k + "}"), ev) == "<<error_pattern>>" + "<<error_pattern>>"
    ensures Meaning(Parse("%" + k + "{" + f + "{"), ev) == "<<error_pattern>>" + "<<error_pattern>>"
    ensures Meaning(Parse("%" + k + "{" + f), ev) == "<<error_pattern>>"
  {
    MalformedAlone(StrayClose(k), ev);
    MalformedAlone(NestedOpen(k, f), ev);
    MalformedAlone(Unclosed(k, f), ev);
  }
}
