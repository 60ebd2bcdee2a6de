/** What is read from a document for each logger definition, field by field and element by element. */
module LogDefineReads {
  import opened Seqs
  import opened Yaml
  import opened LogDefines

  // ----- Levels and kinds -----

  /** The names of the levels. */
  lemma LevelNames(level: int)
    ensures 1 <= level <= 5 ==> LevelToString(level) == ["DEBUG", "INFO", "WARN", "ERROR", "FATAL"][level - 1]
    ensures !(1 <= level <= 5) ==> LevelToString(level) == "UNKNOW"
  {
  }

  /** A level is read in any mix of upper and lower case; every other text is level 0. */
  lemma LevelsIgnoreCase(s: string, level: int)
    ensures 1 <= level <= 5 ==> (LevelFromString(s) == level <==> ToUpper(s) == LevelToString(level))
    ensures 0 <= LevelFromString(s) <= 5
  {
  }

  lemma UpperLetters(s: string, i: nat)
    requires i < |s|
    ensures |ToUpper(s)| == |s|
    ensures ToUpper(s)[i] as int == if 97 <= s[i] as int <= 122 then s[i] as int - 32 else s[i] as int
  {
    assert 'a' as int == 97 && 'z' as int == 122 && 'A' as int == 65;
  }

  /** The same for the kinds of appenders. */
  lemma KindsIgnoreCase(s: string)
    ensures KindFromString(s) == FileAppender <==> ToUpper(s) == ToUpper("FileLogAppender")
    ensures KindFromString(s) == StdoutAppender <==> ToUpper(s) == ToUpper("StdoutLogAppender")
    ensures KindToString(FileAppender) == "FileLogAppender" && KindToString(StdoutAppender) == "StdoutLogAppender"
  {
    assert ToUpper("FileLogAppender") == "FILELOGAPPENDER";
    assert ToUpper("StdoutLogAppender") == "STDOUTLOGAPPENDER";
  }

  // ----- One definition -----

  predicate HasText(node: Node, key: string) {
    IsText(Get(node, key))
  }

  predicate Has(node: Node, key: string) {
    Get(node, key).Some?
  }

  function TextAt(node: Node, key: string): string
    requires HasText(node, key)
  {
    Get(node, key).value.text
  }

  /** Name and level are there, and the formatter is not something else than a text. */
  predicate HeadRead(node: Node) {
    HasText(node, "name") && HasText(node, "level") && (Has(node, "formatter") ==> HasText(node, "formatter"))
  }

  predicate HasAppenders(node: Node) {
    HeadRead(node) && Has(node, "appenders") && Get(node, "appenders").value.Sequence?
  }

  /**
   * The fields of the definition read from a node: each one is there if its own entry is right
   * and no required one before it is missing. The formatter and the appenders may be missing.
   */
  lemma DefinitionFields(node: Node)
    ensures DefinitionOf(node).None? <==> node.Scalar? || (HasAppenders(node) && AppendersOf(Get(node, "appenders").value.items).None?)
    ensures DefinitionOf(node).Some? ==>
              var d := DefinitionOf(node).value;
              && d.name == (if HasText(node, "name") then TextAt(node, "name") else "")
              && d.level == (if HasText(node, "name") && HasText(node, "level") then LevelFromString(TextAt(node, "level")) else 0)
              && d.formatter == (if HeadRead(node) && Has(node, "formatter") then TextAt(node, "formatter") else "")
              && d.appenders == (if HasAppenders(node) then AppendersOf(Get(node, "appenders").value.items).value else [])
  {
  }

  // ----- One appender -----

  /** All that an appender needs is there, and nothing of it is anything else than a text. */
  predicate AppenderRead(node: Node) {
    && HasText(node, "type") && KindFromString(TextAt(node, "type")) != UnknownKind
    && (KindFromString(TextAt(node, "type")) == FileAppender ==> HasText(node, "file"))
    && (Has(node, "level") ==> HasText(node, "level"))
    && (Has(node, "formatter") ==> HasText(node, "formatter"))
  }

  lemma AppenderFields(node: Node)
    ensures AppenderOf(node).Threw? <==> node.Scalar?
    ensures AppenderOf(node).Got? <==> !node.Scalar? && AppenderRead(node)
    ensures AppenderOf(node).Got? ==>
              var a := AppenderOf(node).value;
              && a.kind == KindFromString(TextAt(node, "type"))
              && a.level == (if Has(node, "level") then LevelFromString(TextAt(node, "level")) else 0)
              && a.formatter == (if Has(node, "formatter") then TextAt(node, "formatter") else "")
              && a.file == (if a.kind == FileAppender then TextAt(node, "file") else "")
  {
  }

  // ----- All appenders of a definition -----

  /** Reading fails exactly if some element is a scalar. */
  lemma {:induction false} AppendersFail(items: seq<Node>)
    ensures AppendersOf(items).None? <==> exists i :: 0 <= i < |items| && items[i].Scalar?
  {
    if items != [] {
      AppendersFail(items[..|items| - 1]);
      AppenderFields(items[|items| - 1]);
    }
  }

  /** Otherwise the appenders are those of the elements that can be read, in order; `at` says where they were. */
  lemma {:induction false} AppendersAreThoseRead(items: seq<Node>) returns (at: seq<nat>)
    requires AppendersOf(items).Some?
    ensures Increasing(at) && |at| == |AppendersOf(items).value|
    ensures forall i :: i in at <==> 0 <= i < |items| && AppenderRead(items[i])
    ensures forall k :: 0 <= k < |at| ==> at[k] < |items| && AppenderOf(items[at[k]]) == Got(AppendersOf(items).value[k])
  {
    if items == [] {
      at := [];
    } else {
      var init, x := items[..|items| - 1], items[|items| - 1];
      at := AppendersAreThoseRead(init);
      AppenderFields(x);
      if AppenderRead(x) { at := at + [|items| - 1]; }
    }
  }

  // ----- A set of definitions -----

  /** The set cannot be read exactly if one of its definitions cannot. */
  lemma {:induction false} SetFails(items: seq<Node>)
    ensures InsertedFrom(items).None? <==> exists i :: 0 <= i < |items| && DefinitionOf(items[i]).None?
  {
    if items != [] { SetFails(items[..|items| - 1]); }
  }

  predicate Names(node: Node, n: string) {
    DefinitionOf(node).Some? && DefinitionOf(node).value.name == n
  }

  /** Of several definitions with one name the first counts; names nobody uses are not defined. */
  lemma {:induction false} FirstOfANameCounts(items: seq<Node>, n: string) returns (i: nat)
    requires InsertedFrom(items).Some?
    ensures i <= |items| && forall j :: 0 <= j < i ==> !Names(items[j], n)
    ensures n in InsertedFrom(items).value <==> i < |items|
    ensures i < |items| ==> Names(items[i], n) && InsertedFrom(items).value[n] == DefinitionOf(items[i]).value
  {
    if items == [] {
      i := 0;
    } else {
      var init := items[..|items| - 1];
      i := FirstOfANameCounts(init, n);
      if i == |init| && !Names(items[i], n) { i := i + 1; }
    }
  }
}
