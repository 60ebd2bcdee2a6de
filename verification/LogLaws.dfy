/** Laws of the log-pattern language: escaping, joining patterns, printing and scanning back. */
module LogLaws {
  import opened LogPattern
  import opened LogMeaning
  import opened Seqs

  // ----- Building legal lists of pieces -----

  lemma {:induction false} LegalConcat(a: seq<Piece>, b: seq<Piece>)
    requires Legal(a) && Legal(b)
    requires a != [] && b != [] ==> Joins(a[|a| - 1], b[0])
    ensures Legal(a + b)
  {
    if b == [] {
      assert a + b == a;
    } else {
      var init := b[..|b| - 1];
      LegalConcat(a, init);
      ConcatInit(a, b);
    }
  }

  lemma MeaningConcat(a: seq<Piece>, b: seq<Piece>, ev: LogEvent)
    ensures MeaningAll(a + b, ev) == MeaningAll(a, ev) + MeaningAll(b, ev)
  {
    FlatConcat((x: Piece) => MeaningOne(x, ev), a, b);
  }

  lemma {:induction false} EmitConcat(e: Pending, a: seq<Piece>, b: seq<Piece>)
    ensures EmitAll(e, a + b) == EmitAll(EmitAll(e, a), b)
  {
    if b == [] {
      assert a + b == a;
    } else {
      EmitConcat(e, a, b[..|b| - 1]);
      ConcatInit(a, b);
    }
  }

  lemma AllGoodConcat(a: seq<Piece>, b: seq<Piece>)
    requires AllGood(a) && AllGood(b)
    ensures AllGood(a + b)
  {
  }

  // ----- Joining two patterns -----

  /**
   * Two accepted patterns can be joined, and what they print is joined with them, whenever
   * the second does not begin with a character that continues a directive ending the first.
   */
  lemma JoinPatterns(p: string, q: string, ev: LogEvent)
    requires Accepted(p) && Accepted(q)
    requires Joins(Parse(p)[|Parse(p)| - 1], Parse(q)[0])
    ensures Accepted(p + q)
    ensures Meaning(Parse(p + q), ev) == Meaning(Parse(p), ev) + Meaning(Parse(q), ev)
  {
    ParseIsLegal(p);
    ParseIsLegal(q);
    JoinPieces(Parse(p), Parse(q), ev);
    SpellConcat(Parse(p), Parse(q));
    LegalIsUnique(Parse(p) + Parse(q));
  }

  lemma JoinPieces(a: seq<Piece>, b: seq<Piece>, ev: LogEvent)
    requires Legal(a) && Good(a) && Legal(b) && Good(b) && Joins(a[|a| - 1], b[0])
    ensures Legal(a + b) && Good(a + b)
    ensures Meaning(a + b, ev) == Meaning(a, ev) + Meaning(b, ev)
  {
    LegalConcat(a, b);
    AllGoodConcat(a, b);
    ConcatInit(a, b);
    MeaningConcat(a, b, ev);
    GoodMeaning(a, ev);
    GoodMeaning(b, ev);
    GoodMeaning(a + b, ev);
  }

  lemma GoodMeaning(ps: seq<Piece>, ev: LogEvent)
    requires Good(ps)
    ensures Meaning(ps, ev) == MeaningAll(ps, ev)
  {
  }

  /** Without that condition joining can break a pattern. */
  lemma JoinCanFail()
    ensures Accepted("%m") && Accepted("m") && !Accepted("%m" + "m")
  {
    assert Good([Bare("m")]) && Good([Char('m')]) && !Good([Bare("mm")]);
    ParseOne(Bare("m"));
    ParseOne(Char('m'));
    ParseOne(Bare("mm"));
    assert "%m" + "m" == "%" + "mm";
  }

  lemma ParseOne(x: Piece)
    requires WellFormed(x)
    ensures Parse(SpellOne(x)) == [x]
  {
    var ps := [x];
    assert ps[..0] == [] && Legal(ps[..0]) && Legal(ps);
    assert Spell(ps) == SpellOne(x) + Spell([]) == SpellOne(x);
    LegalIsUnique(ps);
  }

  // ----- Escaping -----

  /** The text with every `%` doubled. */
  function Escape(t: string): string {
    if t == "" then "" else Escape(t[..|t| - 1]) + (if t[|t| - 1] == '%' then "%%" else [t[|t| - 1]])
  }

  function TextPiece(c: char): Piece {
    if c == '%' then Percent else Char(c)
  }

  function TextPieces(t: string): (ps: seq<Piece>)
    ensures |ps| == |t|
  {
    if t == "" then [] else TextPieces(t[..|t| - 1]) + [TextPiece(t[|t| - 1])]
  }

  lemma {:induction false} TextPieceAt(t: string, i: nat)
    requires i < |t|
    ensures TextPieces(t)[i] == TextPiece(t[i])
  {
    if i < |t| - 1 { TextPieceAt(t[..|t| - 1], i); }
  }

  lemma {:induction false} TextIsLegal(t: string)
    ensures Legal(TextPieces(t)) && Spell(TextPieces(t)) == Escape(t)
  {
    if t != "" {
      var init, x := t[..|t| - 1], TextPiece(t[|t| - 1]);
      TextIsLegal(init);
      if init != "" { TextPieceAt(init, |init| - 1); }
      var ps := TextPieces(init);
      PushInit(ps, x);
      SpellConcat(ps, [x]);
      assert Spell([x]) == SpellOne(x) + Spell([]) == SpellOne(x);
    }
  }

  lemma {:induction false} TextMeaning(t: string, ev: LogEvent)
    ensures MeaningAll(TextPieces(t), ev) == t
  {
    if t != "" {
      TextMeaning(t[..|t| - 1], ev);
      InitLast(t);
      FlatPush((x: Piece) => MeaningOne(x, ev), TextPieces(t[..|t| - 1]), TextPiece(t[|t| - 1]));
    }
  }

  /** Doubling every `%` of a non-empty text gives an accepted pattern that prints that text. */
  lemma EscapedTextPrintsItself(t: string, ev: LogEvent)
    requires t != ""
    ensures Accepted(Escape(t)) && Meaning(Parse(Escape(t)), ev) == t
  {
    TextIsLegal(t);
    TextIsGood(t);
    LegalIsUnique(TextPieces(t));
    TextMeaning(t, ev);
  }

  // ----- Printing tokens -----

  predicate TokenOk(t: Token) {
    match t
    case Text(s) => s != ""
    case Directive(k, f) => KnownKey(k) && All(NotBrace, f)
  }

  /** No empty or adjacent literals, known keys, no braces inside formats. */
  predicate NormalBody(ts: seq<Token>) {
    ts == [] ||
    var init, t := ts[..|ts| - 1], ts[|ts| - 1];
    NormalBody(init) && TokenOk(t) && (t.Text? && init != [] ==> init[|init| - 1].Directive?)
  }

  /** Moreover the last token is not a directive with a format. */
  predicate Normal(ts: seq<Token>) {
    ts != [] && NormalBody(ts) && (ts[|ts| - 1].Directive? ==> ts[|ts| - 1].fmt == "")
  }

  function BracedPieces(ts: seq<Token>): seq<Piece> {
    if ts == [] then [] else BracedPieces(ts[..|ts| - 1]) + TokenPieces(ts[|ts| - 1])
  }

  function TokenPieces(t: Token): seq<Piece> {
    match t
    case Text(s) => TextPieces(s)
    case Directive(k, f) => [Braced(k, f)]
  }

  /** The canonical printer braces every directive except a last one. */
  function PrintedPieces(ts: seq<Token>): seq<Piece>
    requires ts != []
  {
    BracedPieces(ts[..|ts| - 1]) +
    match ts[|ts| - 1]
    case Text(s) => TextPieces(s)
    case Directive(k, _) => [Bare(k)]
  }

  function Print(ts: seq<Token>): string
    requires ts != []
  {
    Spell(PrintedPieces(ts))
  }

  lemma {:induction false} EmitText(e: Pending, t: string)
    ensures EmitAll(e, TextPieces(t)) == Pending(e.tokens, e.text + t, e.bad)
  {
    if t != "" {
      EmitText(e, t[..|t| - 1]);
      PushInit(TextPieces(t[..|t| - 1]), TextPiece(t[|t| - 1]));
      InitLast(t);
      Assoc(e.text, t[..|t| - 1], [t[|t| - 1]]);
    }
  }

  lemma KnownKeyIsAlpha(k: string)
    requires KnownKey(k)
    ensures All(IsAlpha, k) && k != ""
  {
  }

  /** A text may follow pieces that end neither in a bare nor in an unclosed directive. */
  predicate TextMayFollow(ps: seq<Piece>) {
    ps != [] ==> !ps[|ps| - 1].Bare? && !ps[|ps| - 1].Unclosed?
  }

  /** The scanner's variables after the tokens `ts`: a last literal is still pending. */
  function Stage(ts: seq<Token>): Pending {
    if ts != [] && ts[|ts| - 1].Text? then Pending(ts[..|ts| - 1], ts[|ts| - 1].text, false) else Pending(ts, "", false)
  }

  lemma FlushStage(ts: seq<Token>)
    requires NormalBody(ts)
    ensures Flush(Stage(ts)) == ts
  {
  }

  /** The pieces `ps` are legal and leave the scanner with the tokens `ts`. */
  predicate Spelled(ps: seq<Piece>, ts: seq<Token>) {
    Legal(ps) && AllGood(ps) && EmitAll(START, ps) == Stage(ts)
  }

  lemma AppendText(ps: seq<Piece>, ts: seq<Token>, s: string)
    requires Spelled(ps, ts) && TextMayFollow(ps)
    requires s != "" && (ts != [] ==> ts[|ts| - 1].Directive?)
    ensures Spelled(ps + TextPieces(s), ts + [Text(s)])
    ensures TextMayFollow(ps + TextPieces(s)) && !EndsBadly(ps + TextPieces(s))
  {
    var qs := TextPieces(s);
    TextIsGood(s);
    LegalConcat(ps, qs);
    AllGoodConcat(ps, qs);
    ConcatInit(ps, qs);
    assert EmitAll(START, ps + qs) == Stage(ts + [Text(s)]) by {
      EmitConcat(START, ps, qs);
      EmitText(EmitAll(START, ps), s);
      PushInit(ts, Text(s));
      assert "" + s == s;
    }
  }

  lemma TextIsGood(s: string)
    requires s != ""
    ensures var qs := TextPieces(s); Legal(qs) && AllGood(qs) && !qs[|qs| - 1].Bare? && !EndsBadly(qs)
  {
    TextIsLegal(s);
    forall i | 0 <= i < |s| ensures GoodPiece(TextPieces(s)[i]) { TextPieceAt(s, i); }
    TextPieceAt(s, |s| - 1);
  }

  lemma AppendDirective(ps: seq<Piece>, ts: seq<Token>, x: Piece)
    requires Spelled(ps, ts) && TextMayFollow(ps) && NormalBody(ts)
    requires (x.Bare? || x.Braced?) && GoodPiece(x) && (x.Braced? ==> All(NotBrace, x.fmt))
    ensures Spelled(ps + [x], ts + [Directive(x.key, if x.Bare? then "" else x.fmt)])
    ensures TextMayFollow(ps + [x]) <==> x.Braced?
    ensures EndsBadly(ps + [x]) <==> x.Braced?
  {
    var d := Directive(x.key, if x.Bare? then "" else x.fmt);
    KnownKeyIsAlpha(x.key);
    PushInit(ps, x);
    PushInit(ts, d);
    AllGoodConcat(ps, [x]);
    FlushStage(ts);
    assert Emit(Stage(ts), x) == Pending(ts + [d], "", false);
  }

  lemma {:induction false} BracedPiecesAreLegal(ts: seq<Token>)
    requires NormalBody(ts)
    ensures Spelled(BracedPieces(ts), ts) && TextMayFollow(BracedPieces(ts))
  {
    if ts != [] {
      var init, t := ts[..|ts| - 1], ts[|ts| - 1];
      InitLast(ts);
      BracedPiecesAreLegal(init);
      match t
      case Text(s) => AppendText(BracedPieces(init), init, s);
      case Directive(k, f) => AppendDirective(BracedPieces(init), init, Braced(k, f));
    }
  }

  lemma PrintedPiecesAreLegal(ts: seq<Token>)
    requires Normal(ts)
    ensures Spelled(PrintedPieces(ts), ts) && !EndsBadly(PrintedPieces(ts))
  {
    var init, t := ts[..|ts| - 1], ts[|ts| - 1];
    InitLast(ts);
    BracedPiecesAreLegal(init);
    match t
    case Text(s) => AppendText(BracedPieces(init), init, s);
    case Directive(k, _) => AppendDirective(BracedPieces(init), init, Bare(k));
  }

  /** Printing a normal token list and scanning the result gives the list back. */
  lemma PrintThenScan(ts: seq<Token>)
    requires Normal(ts)
    ensures Accepted(Print(ts)) && TokensOf(Parse(Print(ts))) == ts
  {
    PrintedPiecesAreLegal(ts);
    LegalIsUnique(PrintedPieces(ts));
    FlushStage(ts);
  }

  lemma {:induction false} GoodPiecesEmitNormal(ps: seq<Piece>)
    requires Legal(ps) && AllGood(ps)
    ensures var e := EmitAll(START, ps); NormalBody(e.tokens) && (e.tokens != [] ==> e.tokens[|e.tokens| - 1].Directive?)
  {
    if ps != [] {
      var init, x := ps[..|ps| - 1], ps[|ps| - 1];
      GoodPiecesEmitNormal(init);
      var e := EmitAll(START, init);
      FlushIsNormal(e);
      if x.Bare? || x.Braced? {
        var f := Flush(e);
        var t := if x.Bare? then Directive(x.key, "") else Directive(x.key, x.fmt);
        assert (f + [t])[..|f|] == f;
      }
    }
  }

  lemma FlushIsNormal(e: Pending)
    requires NormalBody(e.tokens) && (e.tokens != [] ==> e.tokens[|e.tokens| - 1].Directive?)
    ensures NormalBody(Flush(e))
  {
    if e.text != "" { assert (e.tokens + [Text(e.text)])[..|e.tokens|] == e.tokens; }
  }

  /** The tokens of an accepted pattern are in normal form. */
  lemma AcceptedIsNormal(p: string)
    requires Accepted(p)
    ensures Normal(TokensOf(Parse(p)))
  {
    ParseIsLegal(p);
    GoodIsNormal(Parse(p));
  }

  lemma GoodIsNormal(ps: seq<Piece>)
    requires Legal(ps) && Good(ps)
    ensures Normal(TokensOf(ps))
  {
    GoodPiecesEmitNormal(ps);
    var e0, x := EmitAll(START, ps[..|ps| - 1]), ps[|ps| - 1];
    var e := Emit(e0, x);
    FlushIsNormal(e);
    if x.Bare? {
      PushInit(Flush(e0), Directive(x.key, ""));
    } else {
      PushInit(e.tokens, Text(e.text));
    }
  }

  /** Scanning, printing and scanning again changes nothing: neither the tokens nor what is printed. */
  lemma ScanPrintScan(p: string, ev: LogEvent)
    requires Accepted(p)
    ensures Normal(TokensOf(Parse(p)))
    ensures var q := Print(TokensOf(Parse(p)));
            Accepted(q) && TokensOf(Parse(q)) == TokensOf(Parse(p)) && Meaning(Parse(q), ev) == Meaning(Parse(p), ev)
  {
    AcceptedIsNormal(p);
    var ts := TokensOf(Parse(p));
    PrintThenScan(ts);
    TokensMeaning(Parse(p), ev);
    TokensMeaning(Parse(Print(ts)), ev);
  }

  /** The end check rejects a pattern that is empty or ends right after a closing brace. */
  lemma ClosingBraceAtEndIsAnError(ps: seq<Piece>, k: string, f: string, ev: LogEvent)
    requires Legal(ps + [Braced(k, f)])
    ensures !Accepted("")
    ensures var p := Spell(ps + [Braced(k, f)]);
            !Accepted(p) && Meaning(Parse(p), ev) == MeaningAll(ps, ev) + Show(ItemFor(k, f), ev) + ERROR_TEXT
  {
    var qs := ps + [Braced(k, f)];
    LegalIsUnique(qs);
    assert qs[..|ps|] == ps;
  }
}
