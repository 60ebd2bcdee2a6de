/** The lines that the built-in patterns print, field by field. */
module LogLines {
  import opened Options
  import opened Seqs
  import opened LogPattern
  import opened LogMeaning
  import opened LogLaws
  import opened LogDirectives
  import opened LogSpelling
  import opened LogDefines
  import opened LoggerModel
  import opened LoggerManagement

  /** A part of a pattern: its pieces, how they are written and what they print. */
  datatype Part = Part(pieces: seq<Piece>, pattern: string, text: string)

  predicate Reads(x: Part, ev: LogEvent) {
    Legal(x.pieces) && AllGood(x.pieces) && Spell(x.pieces) == x.pattern && MeaningAll(x.pieces, ev) == x.text
  }

  predicate Begins(x: Part, first: Piece) {
    x.pieces != [] && x.pieces[0] == first
  }

  predicate Ends(x: Part, last: Piece) {
    x.pieces != [] && x.pieces[|x.pieces| - 1] == last
  }

  lemma Single(x: Piece, ev: LogEvent) returns (r: Part)
    requires WellFormed(x) && GoodPiece(x)
    ensures r.pattern == SpellOne(x) && r.text == MeaningOne(x, ev) && Reads(r, ev) && Begins(r, x) && Ends(r, x)
  {
    r := Part([x], SpellOne(x), MeaningOne(x, ev));
    LegalSplit(x, []);
    assert [x] + [] == [x] && [x][1..] == [] && [] + [x] == [x];
    FlatPush((y: Piece) => MeaningOne(y, ev), [], x);
  }

  lemma Join(a: Part, x: Piece, b: Part, y: Piece, ev: LogEvent) returns (r: Part)
    requires Reads(a, ev) && Reads(b, ev) && Ends(a, x) && Begins(b, y) && Joins(x, y)
    ensures r.pattern == a.pattern + b.pattern && r.text == a.text + b.text && Reads(r, ev)
    ensures Begins(r, a.pieces[0]) && Ends(r, b.pieces[|b.pieces| - 1])
  {
    r := Part(a.pieces + b.pieces, a.pattern + b.pattern, a.text + b.text);
    LegalConcat(a.pieces, b.pieces);
    SpellConcat(a.pieces, b.pieces);
    MeaningConcat(a.pieces, b.pieces, ev);
    AllGoodConcat(a.pieces, b.pieces);
  }

  /** One more directive without a format. */
  lemma Field(a: Part, x: Piece, k: string, ev: LogEvent) returns (r: Part)
    requires Reads(a, ev) && Ends(a, x) && Joins(x, Bare(k)) && k in KEYS && k != "n" && k != "T" && k != "d"
    ensures r.pattern == a.pattern + ("%" + k) && r.text == a.text + ev.show(k, "") && Reads(r, ev)
    ensures Begins(r, a.pieces[0]) && Ends(r, Bare(k))
  {
    KnownKeysAre(k);
    KnownKeyIsAlpha(k);
    ItemPrints(k, "", ev);
    var b := Single(Bare(k), ev);
    r := Join(a, x, b, Bare(k), ev);
  }

  lemma Tab(a: Part, x: Piece, ev: LogEvent) returns (r: Part)
    requires Reads(a, ev) && Ends(a, x) && Joins(x, Bare("T"))
    ensures r.pattern == a.pattern + "%T" && r.text == a.text + "\t" && Reads(r, ev)
    ensures Begins(r, a.pieces[0]) && Ends(r, Bare("T"))
  {
    KnownKeyIsAlpha("T");
    ItemPrints("T", "", ev);
    var b := Single(Bare("T"), ev);
    r := Join(a, x, b, Bare("T"), ev);
  }

  lemma Text(a: Part, x: Piece, c: char, ev: LogEvent) returns (r: Part)
    requires Reads(a, ev) && Ends(a, x) && Joins(x, Char(c)) && c != '%'
    ensures r.pattern == a.pattern + [c] && r.text == a.text + [c] && Reads(r, ev)
    ensures Begins(r, a.pieces[0]) && Ends(r, Char(c))
  {
    var b := Single(Char(c), ev);
    r := Join(a, x, b, Char(c), ev);
  }

  // ----- Parts of the built-in patterns -----

  lemma Date(ev: LogEvent) returns (r: Part)
    ensures Reads(r, ev) && r.pattern == "%" + "d" + "{" + "%Y-%m-%d %H:%M:%S" + "}" && r.text == ev.show("d", "%Y-%m-%d %H:%M:%S")
    ensures Ends(r, Braced("d", "%Y-%m-%d %H:%M:%S"))
  {
    ItemPrints("d", "%Y-%m-%d %H:%M:%S", ev);
    r := Single(Braced("d", "%Y-%m-%d %H:%M:%S"), ev);
  }

  lemma Threads(ev: LogEvent) returns (r: Part)
    ensures Reads(r, ev) && Begins(r, Bare("T")) && Ends(r, Bare("T"))
    ensures r.pattern == "%T" + ("%" + "t") + "%T" + ("%" + "N") + "%T" + ("%" + "F") + "%T"
    ensures r.text == "\t" + ev.show("t", "") + "\t" + ev.show("N", "") + "\t" + ev.show("F", "") + "\t"
  {
    ItemPrints("T", "", ev);
    r := Single(Bare("T"), ev);
    assert r.pattern == "%T";
    r := Field(r, Bare("T"), "t", ev);
    r := Tab(r, Bare("t"), ev);
    r := Field(r, Bare("T"), "N", ev);
    r := Tab(r, Bare("N"), ev);
    r := Field(r, Bare("T"), "F", ev);
    r := Tab(r, Bare("F"), ev);
  }

  /** The threads' part of root's patterns, without the thread's name. */
  lemma ThreadsOfRoot(ev: LogEvent) returns (r: Part)
    ensures Reads(r, ev) && Begins(r, Bare("T")) && Ends(r, Bare("T"))
    ensures r.pattern == "%T" + ("%" + "t") + "%T" + ("%" + "F") + "%T"
    ensures r.text == "\t" + ev.show("t", "") + "\t" + ev.show("F", "") + "\t"
  {
    ItemPrints("T", "", ev);
    r := Single(Bare("T"), ev);
    assert r.pattern == "%T";
    r := Field(r, Bare("T"), "t", ev);
    r := Tab(r, Bare("t"), ev);
    r := Field(r, Bare("T"), "F", ev);
    r := Tab(r, Bare("F"), ev);
  }

  /** The level, in colour or not, and the logger's name. */
  lemma Brackets(level: string, ev: LogEvent) returns (r: Part)
    requires level == "p" || level == "P"
    ensures Reads(r, ev) && Begins(r, Char('[')) && Ends(r, Char(']'))
    ensures r.pattern == "[" + ("%" + level) + "]" + "%T" + "[" + ("%" + "c") + "]"
    ensures r.text == "[" + ev.show(level, "") + "]" + "\t" + "[" + ev.show("c", "") + "]"
  {
    r := Single(Char('['), ev);
    r := Field(r, Char('['), level, ev);
    r := Text(r, Bare(level), ']', ev);
    r := Tab(r, Char(']'), ev);
    r := Text(r, Bare("T"), '[', ev);
    r := Field(r, Char('['), "c", ev);
    r := Text(r, Bare("c"), ']', ev);
  }

  lemma Mark(ev: LogEvent) returns (r: Part)
    ensures Reads(r, ev) && Begins(r, Char('(')) && Ends(r, Char(')'))
    ensures r.pattern == "(dft)" && r.text == "(dft)"
  {
    r := Single(Char('('), ev);
    r := Text(r, Char('('), 'd', ev);
    r := Text(r, Char('d'), 'f', ev);
    r := Text(r, Char('f'), 't', ev);
    r := Text(r, Char('t'), ')', ev);
  }

  /** The file, written `%f` or `%f{}`. */
  lemma File(braces: bool, ev: LogEvent) returns (r: Part)
    ensures Reads(r, ev) && Begins(r, Bare("T")) && Ends(r, if braces then Braced("f", "") else Bare("f"))
    ensures r.pattern == "%T" + (if braces then "%" + "f" + "{" + "" + "}" else "%" + "f")
    ensures r.text == "\t" + ev.show("f", "")
  {
    ItemPrints("T", "", ev);
    ItemPrints("f", "", ev);
    r := Single(Bare("T"), ev);
    assert r.pattern == "%T";
    if braces {
      var b := Single(Braced("f", ""), ev);
      r := Join(r, Bare("T"), b, Braced("f", ""), ev);
    } else {
      r := Field(r, Bare("T"), "f", ev);
    }
  }

  /** Line number, message and the end of the line. */
  lemma Message(ev: LogEvent) returns (r: Part)
    ensures Reads(r, ev) && Begins(r, Char(':')) && Ends(r, Bare("n"))
    ensures r.pattern == ":" + ("%" + "l") + "%T" + ("%" + "m") + ("%" + "n")
    ensures r.text == ":" + ev.show("l", "") + "\t" + ev.show("m", "") + "\n"
  {
    r := Single(Char(':'), ev);
    r := Field(r, Char(':'), "l", ev);
    r := Tab(r, Bare("l"), ev);
    r := Field(r, Bare("T"), "m", ev);
    ItemPrints("n", "", ev);
    var end := Single(Bare("n"), ev);
    r := Join(r, Bare("m"), end, Bare("n"), ev);
  }

  /** A part that ends like a line is a whole pattern. */
  lemma WholeLine(r: Part, ev: LogEvent)
    requires Reads(r, ev) && Ends(r, Bare("n"))
    ensures Accepted(r.pattern) && Meaning(Parse(r.pattern), ev) == r.text
  {
    LegalIsUnique(r.pieces);
  }

  // ----- Whole lines -----

  /** What a logger that was given no pattern prints. */
  lemma DefaultLine(ev: LogEvent)
    ensures Accepted(DEFAULT_PATTERN)
    ensures Meaning(Parse(DEFAULT_PATTERN), ev)
         == ev.show("d", "%Y-%m-%d %H:%M:%S") + ("\t" + ev.show("t", "") + "\t" + ev.show("N", "") + "\t" + ev.show("F", "") + "\t")
            + ("[" + ev.show("p", "") + "]" + "\t" + "[" + ev.show("c", "") + "]") + ("\t" + ev.show("f", ""))
            + (":" + ev.show("l", "") + "\t" + ev.show("m", "") + "\n")
  {
    var r := Date(ev);
    var threads := Threads(ev);
    r := Join(r, Braced("d", "%Y-%m-%d %H:%M:%S"), threads, Bare("T"), ev);
    var brackets := Brackets("p", ev);
    r := Join(r, Bare("T"), brackets, Char('['), ev);
    var file := File(false, ev);
    r := Join(r, Char(']'), file, Bare("T"), ev);
    var message := Message(ev);
    r := Join(r, Bare("f"), message, Char(':'), ev);
    DateSpelled();
    ThreadsSpelled();
    BracketsSpelled();
    MessageSpelled();
    DefaultSpelled();
    WholeLine(r, ev);
  }

  /** The line of root's appenders, with the level as given. */
  function RootLine(level: string, ev: LogEvent): string {
    ev.show("d", "%Y-%m-%d %H:%M:%S") + ("\t" + ev.show("t", "") + "\t" + ev.show("F", "") + "\t")
    + ("[" + ev.show(level, "") + "]" + "\t" + "[" + ev.show("c", "") + "]") + "(dft)" + ("\t" + ev.show("f", ""))
    + (":" + ev.show("l", "") + "\t" + ev.show("m", "") + "\n")
  }

  lemma RootPart(level: string, ev: LogEvent) returns (r: Part)
    requires level == "p" || level == "P"
    ensures Reads(r, ev) && Ends(r, Bare("n")) && r.text == RootLine(level, ev)
    ensures r.pattern == if level == "P" then CONSOLE_PATTERN else FILE_PATTERN
  {
    r := Date(ev);
    var threads := ThreadsOfRoot(ev);
    r := Join(r, Braced("d", "%Y-%m-%d %H:%M:%S"), threads, Bare("T"), ev);
    var brackets := Brackets(level, ev);
    r := Join(r, Bare("T"), brackets, Char('['), ev);
    var mark := Mark(ev);
    r := Join(r, Char(']'), mark, Char('('), ev);
    var file := File(true, ev);
    r := Join(r, Char(')'), file, Bare("T"), ev);
    var message := Message(ev);
    r := Join(r, Braced("f", ""), message, Char(':'), ev);
    DateSpelled();
    ThreadsSpelled();
    BracketsSpelled();
    MessageSpelled();
    ConsoleSpelled();
    FileSpelled();
  }

  /** A logger with two appenders, all three at the same level. */
  lemma TwoAppenders(v: LoggerView, a: AppenderView, b: AppenderView, ev: LogEvent)
    requires v.appenders == [a, b] && v.level == a.level == b.level
    ensures Delivered(v, None, ev) == if ev.level < v.level then [] else [Line(a, ev), Line(b, ev)]
  {
    assert [a, b][..1] == [a] && [a][..0] == [];
    assert EmittedByAll([a], ev) == EmittedByAll([], ev) + Emitted(a, ev);
  }

  /** What the root logger, as the manager sets it up, does with an event of each level. */
  lemma RootPrints(ev: LogEvent)
    ensures Delivered(INITIAL_ROOT, None, ev)
         == if ev.level < 1 then []
            else [Output(StdoutAppender, "", RootLine("P", ev)), Output(FileAppender, "root.log", RootLine("p", ev))]
  {
    RootText(ev);
    TwoAppenders(INITIAL_ROOT, INITIAL_ROOT.appenders[0], INITIAL_ROOT.appenders[1], ev);
  }

  lemma RootText(ev: LogEvent)
    ensures Meaning(Parse(CONSOLE_PATTERN), ev) == RootLine("P", ev) && Meaning(Parse(FILE_PATTERN), ev) == RootLine("p", ev)
  {
    var console := RootPart("P", ev);
    WholeLine(console, ev);
    var file := RootPart("p", ev);
    WholeLine(file, ev);
  }
}
