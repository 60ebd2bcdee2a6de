/**
 * What a log pattern means: the text it prints for an event, the token list the scanner
 * hands to item construction, and a canonical printer for token lists.
 */
module LogMeaning {
  import opened LogPattern
  import opened Seqs

  const ERROR_TEXT := "<<error_pattern>>"
  const DATE_FORMAT := "%Y-%m-%d %H:%M:%S"

  /** The keys of the item table; all are single letters. */
  predicate KnownKey(k: string) {
    |k| == 1 && KeyLetter(k[0])
  }

  predicate KeyLetter(c: char) {
    || c == 'm' || c == 'p' || c == 'r' || c == 'c' || c == 't' || c == 'n' || c == 'd'
    || c == 'f' || c == 'l' || c == 'T' || c == 'F' || c == 'P' || c == 'N'
  }

  // ----- Items and events -----

  /** `Literal` is `StringFormatItem`; `Field` is one of the classes that print a part of the event. */
  datatype FormatItem = Literal(text: string) | Field(key: string, fmt: string)

  /** An event: its level, and what the item class of a key prints of it under a format string. */
  datatype LogEvent = LogEvent(level: int, show: (string, string) -> string)

  /** The item built for `%key{fmt}`. Only dates and file names keep their format. */
  function ItemFor(key: string, fmt: string): FormatItem {
    if !KnownKey(key) then Literal("<<error_format %" + key + ">>")
    else if key == "n" then Literal("\n")
    else if key == "T" then Literal("\t")
    else if key == "d" then Field(key, if fmt == "" then DATE_FORMAT else fmt)
    else if key == "f" then Field(key, fmt)
    else Field(key, "")
  }

  function Show(item: FormatItem, ev: LogEvent): string {
    match item
    case Literal(t) => t
    case Field(k, f) => ev.show(k, f)
  }

  function Render(items: seq<FormatItem>, ev: LogEvent): string {
    Flat((i: FormatItem) => Show(i, ev), items)
  }

  // ----- Direct reading of the pieces -----

  /** A pattern whose last piece leaves the scanner in normal status with nothing pending. */
  predicate EndsBadly(ps: seq<Piece>) {
    ps == [] || var x := ps[|ps| - 1]; x.Braced? || x.StrayClose? || x.NestedOpen? || x.Unclosed?
  }

  function MeaningOne(x: Piece, ev: LogEvent): string {
    match x
    case Char(c) => [c]
    case Percent => "%"
    case Bare(k) => Show(ItemFor(k, ""), ev)
    case Braced(k, f) => Show(ItemFor(k, f), ev)
    case StrayClose(_) => ERROR_TEXT
    case NestedOpen(_, _) => ERROR_TEXT
    case Unclosed(_, _) => ""
  }

  function MeaningAll(ps: seq<Piece>, ev: LogEvent): string {
    Flat((x: Piece) => MeaningOne(x, ev), ps)
  }

  /** The text printed for an event by a pattern made of the pieces `ps`. */
  function Meaning(ps: seq<Piece>, ev: LogEvent): string {
    MeaningAll(ps, ev) + if EndsBadly(ps) then ERROR_TEXT else ""
  }

  predicate GoodPiece(x: Piece) {
    match x
    case Char(_) => true
    case Percent => true
    case Bare(k) => KnownKey(k)
    case Braced(k, _) => KnownKey(k)
    case _ => false
  }

  predicate AllGood(ps: seq<Piece>) {
    forall i :: 0 <= i < |ps| ==> GoodPiece(ps[i])
  }

  /** The pieces of a pattern that is not an error. */
  predicate Good(ps: seq<Piece>) {
    !EndsBadly(ps) && AllGood(ps)
  }

  predicate Accepted(p: string) {
    Good(Parse(p))
  }

  /** Accepted patterns are exactly the strings the good part of the grammar generates. */
  lemma AcceptedIffGenerated(p: string)
    ensures Accepted(p) <==> exists ps :: Legal(ps) && Good(ps) && Spell(ps) == p
  {
    ParseIsLegal(p);
    forall ps | Legal(ps) && Good(ps) && Spell(ps) == p ensures Accepted(p) {
      LegalIsUnique(ps);
    }
  }

  // ----- Tokens -----

  /** An entry of the scanner's vector: type 0 is `Text`, type 1 is `Directive`. */
  datatype Token = Text(text: string) | Directive(key: string, fmt: string)

  function ItemOf(t: Token): FormatItem {
    match t
    case Text(s) => Literal(s)
    case Directive(k, f) => ItemFor(k, f)
  }

  function ItemsOf(ts: seq<Token>): (items: seq<FormatItem>)
    ensures |items| == |ts|
  {
    if ts == [] then [] else ItemsOf(ts[..|ts| - 1]) + [ItemOf(ts[|ts| - 1])]
  }

  predicate KnownTokens(ts: seq<Token>) {
    forall i :: 0 <= i < |ts| ==> ts[i].Directive? ==> KnownKey(ts[i].key)
  }

  /** Tokens emitted so far, the literal text not yet emitted, and the error flag. */
  datatype Pending = Pending(tokens: seq<Token>, text: string, bad: bool)

  function Flush(e: Pending): seq<Token> {
    if e.text == "" then e.tokens else e.tokens + [Text(e.text)]
  }

  function Emit(e: Pending, x: Piece): Pending {
    match x
    case Char(c) => Pending(e.tokens, e.text + [c], e.bad)
    case Percent => Pending(e.tokens, e.text + "%", e.bad)
    case Bare(k) => Pending(Flush(e) + [Directive(k, "")], "", e.bad)
    case Braced(k, f) => Pending(Flush(e) + [Directive(k, f)], "", e.bad)
    case StrayClose(_) => Pending(Flush(e) + [Text(ERROR_TEXT)], "", true)
    case NestedOpen(_, _) => Pending(Flush(e) + [Text(ERROR_TEXT)], "", true)
    case Unclosed(_, _) => Pending(Flush(e), "", true)
  }

  function EmitAll(e: Pending, ps: seq<Piece>): Pending {
    if ps == [] then e else Emit(EmitAll(e, ps[..|ps| - 1]), ps[|ps| - 1])
  }

  const START := Pending([], "", false)

  function TokensOf(ps: seq<Piece>): seq<Token> {
    var e := EmitAll(START, ps);
    if EndsBadly(ps) then Flush(e) + [Text(ERROR_TEXT)] else Flush(e)
  }

  /** Scanning reports an error for a malformed piece or a bad end; unknown keys come later. */
  predicate ScanError(ps: seq<Piece>) {
    EndsBadly(ps) || EmitAll(START, ps).bad
  }

  // ----- Tokens mean what the pieces mean -----

  function RenderTokens(ts: seq<Token>, ev: LogEvent): string {
    Render(ItemsOf(ts), ev)
  }

  lemma RenderTokensPush(ts: seq<Token>, t: Token, ev: LogEvent)
    ensures RenderTokens(ts + [t], ev) == RenderTokens(ts, ev) + Show(ItemOf(t), ev)
  {
    PushInit(ts, t);
    FlatPush((i: FormatItem) => Show(i, ev), ItemsOf(ts), ItemOf(t));
  }

  lemma RenderFlush(e: Pending, ev: LogEvent)
    ensures RenderTokens(Flush(e), ev) == RenderTokens(e.tokens, ev) + e.text
  {
    if e.text != "" { RenderTokensPush(e.tokens, Text(e.text), ev); }
  }

  lemma EmitOneMeaning(e: Pending, x: Piece, ev: LogEvent)
    ensures RenderTokens(Flush(Emit(e, x)), ev) == RenderTokens(Flush(e), ev) + MeaningOne(x, ev)
  {
    if x.Char? || x.Percent? || x.Unclosed? {
      RenderFlush(e, ev);
      RenderFlush(Emit(e, x), ev);
    } else {
      var t := Emit(e, x).tokens[|Flush(e)|];
      RenderTokensPush(Flush(e), t, ev);
    }
  }

  lemma {:induction false} EmitMeaning(ps: seq<Piece>, ev: LogEvent)
    ensures RenderTokens(Flush(EmitAll(START, ps)), ev) == MeaningAll(ps, ev)
  {
    if ps != [] {
      EmitMeaning(ps[..|ps| - 1], ev);
      EmitOneMeaning(EmitAll(START, ps[..|ps| - 1]), ps[|ps| - 1], ev);
    }
  }

  /** Compiling to tokens and items, then rendering, is the direct reading of the pieces. */
  lemma TokensMeaning(ps: seq<Piece>, ev: LogEvent)
    ensures RenderTokens(TokensOf(ps), ev) == Meaning(ps, ev)
  {
    EmitMeaning(ps, ev);
    RenderTokensPush(Flush(EmitAll(START, ps)), Text(ERROR_TEXT), ev);
  }

  lemma KnownPush(ts: seq<Token>, t: Token)
    ensures KnownTokens(ts + [t]) <==> KnownTokens(ts) && (t.Directive? ==> KnownKey(t.key))
  {
    assert (ts + [t])[|ts|] == t;
    assert forall i :: 0 <= i < |ts| ==> (ts + [t])[i] == ts[i];
  }

  predicate Sound(e: Pending) {
    !e.bad && KnownTokens(Flush(e))
  }

  lemma EmitOneSound(e: Pending, x: Piece)
    ensures Sound(Emit(e, x)) <==> Sound(e) && GoodPiece(x)
  {
    KnownPush(e.tokens, Text(e.text));
    KnownPush(Emit(e, x).tokens, Text(Emit(e, x).text));
    match x
    case Bare(k) => KnownPush(Flush(e), Directive(k, ""));
    case Braced(k, f) => KnownPush(Flush(e), Directive(k, f));
    case _ =>
  }

  lemma {:induction false} EmitSound(ps: seq<Piece>)
    ensures Sound(EmitAll(START, ps)) <==> AllGood(ps)
  {
    if ps != [] {
      var init, x := ps[..|ps| - 1], ps[|ps| - 1];
      EmitSound(init);
      EmitOneSound(EmitAll(START, init), x);
      InitLast(ps);
    }
  }

  /** The two sources of `m_error` together: the pattern is an error unless it is accepted. */
  lemma ErrorIffNotGood(ps: seq<Piece>)
    ensures ScanError(ps) || !KnownTokens(TokensOf(ps)) <==> !Good(ps)
  {
    EmitSound(ps);
    KnownPush(Flush(EmitAll(START, ps)), Text(ERROR_TEXT));
  }
}
