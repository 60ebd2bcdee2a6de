/** Logger definitions, the values of the `logs` variable, and their conversion to and from YAML. */
module LogDefines {
  import opened Options
  import opened Yaml

  // ----- Levels and appender kinds -----

  /** Levels are the numbers of the enumeration; a removed logger gets one outside of it. */
  const UNKNOW := 0
  const DEBUG := 1
  const REMOVED := 100

  function LevelToString(level: int): string {
    match level
    case 1 => "DEBUG"
    case 2 => "INFO"
    case 3 => "WARN"
    case 4 => "ERROR"
    case 5 => "FATAL"
    case _ => "UNKNOW"
  }

  /** `toupper` in the "C" locale. */
  function UpperChar(c: char): char {
    if 'a' <= c <= 'z' then c - 'a' + 'A' else c
  }

  function ToUpper(s: string): string {
    seq(|s|, i requires 0 <= i < |s| => UpperChar(s[i]))
  }

  function LevelFromString(s: string): int {
    match ToUpper(s)
    case "DEBUG" => 1
    case "INFO" => 2
    case "WARN" => 3
    case "ERROR" => 4
    case "FATAL" => 5
    case _ => UNKNOW
  }

  datatype Kind = UnknownKind | FileAppender | StdoutAppender

  function KindToString(k: Kind): string {
    match k
    case FileAppender => "FileLogAppender"
    case StdoutAppender => "StdoutLogAppender"
    case UnknownKind => "UNKNOW"
  }

  function KindFromString(s: string): Kind {
    match ToUpper(s)
    case "FILELOGAPPENDER" => FileAppender
    case "STDOUTLOGAPPENDER" => StdoutAppender
    case _ => UnknownKind
  }

  predicate KnownLevel(level: int) {
    UNKNOW <= level <= 5
  }

  /** Only the levels of the enumeration survive being written and read. */
  lemma LevelRoundTrip(level: int)
    ensures LevelFromString(LevelToString(level)) == level <==> KnownLevel(level)
  {
    var s := LevelToString(level);
    assert ToUpper(s) == s;
  }

  lemma KindRoundTrip(k: Kind)
    ensures KindFromString(KindToString(k)) == k
  {
    match k
    case FileAppender => assert ToUpper("FileLogAppender") == "FILELOGAPPENDER";
    case StdoutAppender => assert ToUpper("StdoutLogAppender") == "STDOUTLOGAPPENDER";
    case UnknownKind => assert ToUpper("UNKNOW") == "UNKNOW";
  }

  // ----- Definitions -----

  datatype AppenderDef = AppenderDef(kind: Kind, level: int, formatter: string, file: string)

  datatype LogDef = LogDef(name: string, level: int, formatter: string, appenders: seq<AppenderDef>)

  const NO_DEF := LogDef("", UNKNOW, "", [])

  /** A `std::set` ordered by name: at most one definition for each name, under that name. */
  type Defs = map<string, LogDef>

  /** `insert` keeps the element that is already there. */
  function Insert(defs: Defs, d: LogDef): Defs {
    if d.name in defs then defs else defs[d.name := d]
  }

  function SetOf(ds: seq<LogDef>): Defs {
    if ds == [] then map[] else Insert(SetOf(ds[..|ds| - 1]), ds[|ds| - 1])
  }

  /** The elements of a set, listed: no name twice. */
  predicate Distinct(ds: seq<LogDef>) {
    forall i, j :: 0 <= i < j < |ds| ==> ds[i].name != ds[j].name
  }

  // ----- Writing -----

  function Optional(key: string, text: string, present: bool): seq<Entry> {
    if present then [Entry(key, Scalar(text))] else []
  }

  function AppenderEntries(a: AppenderDef): seq<Entry> {
    Optional("file", a.file, a.file != "") + (Optional("formatter", a.formatter, a.formatter != "")
    + (Optional("level", LevelToString(a.level), a.level != UNKNOW) + [Entry("type", Scalar(KindToString(a.kind)))]))
  }

  function AppenderNode(a: AppenderDef): Node {
    Mapping(AppenderEntries(a))
  }

  function AppenderNodes(appenders: seq<AppenderDef>): seq<Node> {
    if appenders == [] then [] else
      AppenderNodes(appenders[..|appenders| - 1]) + [AppenderNode(appenders[|appenders| - 1])]
  }

  /** A node to which nothing was appended stays null. */
  function ListNode(items: seq<Node>): Node {
    if items == [] then Null else Sequence(items)
  }

  function DefinitionNode(d: LogDef): Node {
    Mapping([
      Entry("name", Scalar(d.name)), Entry("level", Scalar(LevelToString(d.level))),
      Entry("formatter", Scalar(d.formatter)), Entry("appenders", ListNode(AppenderNodes(d.appenders)))])
  }

  function DefinitionNodes(ds: seq<LogDef>): seq<Node> {
    if ds == [] then [] else DefinitionNodes(ds[..|ds| - 1]) + [DefinitionNode(ds[|ds| - 1])]
  }

  // ----- Reading -----

  function Find(entries: seq<Entry>, key: string): Option<Node> {
    if entries == [] then None
    else if entries[0].key == key then Some(entries[0].value)
    else Find(entries[1..], key)
  }

  /** `node[key]` of a node that is not a scalar; `None` is an undefined node. */
  function Get(node: Node, key: string): Option<Node> {
    if node.Mapping? then Find(node.entries, key) else None
  }

  predicate IsText(n: Option<Node>) {
    n.Some? && n.value.Scalar?
  }

  /** Indexing a scalar throws; an element with a fault in it is reported and skipped. */
  datatype Outcome<+T> = Got(value: T) | Skipped | Threw

  function AppenderOf(node: Node): Outcome<AppenderDef> {
    if node.Scalar? then Threw else
      var kind, file, level, formatter := Get(node, "type"), Get(node, "file"), Get(node, "level"), Get(node, "formatter");
      if !IsText(kind) || KindFromString(kind.value.text) == UnknownKind then Skipped else
        var k := KindFromString(kind.value.text);
        if k == FileAppender && !IsText(file) then Skipped
        else if level.Some? && !IsText(level) then Skipped
        else if formatter.Some? && !IsText(formatter) then Skipped
        else Got(AppenderDef(k, if level.None? then UNKNOW else LevelFromString(level.value.text),
                             if formatter.None? then "" else formatter.value.text,
                             if k == FileAppender then file.value.text else ""))
  }

  function Joined(list: Option<seq<AppenderDef>>, last: Outcome<AppenderDef>): Option<seq<AppenderDef>> {
    if list.None? || last.Threw? then None
    else if last.Got? then Some(list.value + [last.value])
    else list
  }

  function AppendersOf(items: seq<Node>): Option<seq<AppenderDef>> {
    if items == [] then Some([]) else
      Joined(AppendersOf(items[..|items| - 1]), AppenderOf(items[|items| - 1]))
  }

  /** Reading stops at the first faulty field and keeps what was read before it. */
  function DefinitionOf(node: Node): Option<LogDef> {
    if node.Scalar? then None else
      var name, level, formatter, appenders := Get(node, "name"), Get(node, "level"), Get(node, "formatter"), Get(node, "appenders");
      if !IsText(name) then Some(NO_DEF) else
        var named := NO_DEF.(name := name.value.text);
        if !IsText(level) then Some(named) else
          var leveled := named.(level := LevelFromString(level.value.text));
          if formatter.Some? && !IsText(formatter) then Some(leveled) else
            var formatted := if formatter.None? then leveled else leveled.(formatter := formatter.value.text);
            if appenders.None? || !appenders.value.Sequence? then Some(formatted) else
              var list := AppendersOf(appenders.value.items);
              if list.None? then None else Some(formatted.(appenders := list.value))
  }

  function InsertedAfter(defs: Option<Defs>, last: Option<LogDef>): Option<Defs> {
    if defs.None? || last.None? then None else Some(Insert(defs.value, last.value))
  }

  function InsertedFrom(items: seq<Node>): Option<Defs> {
    if items == [] then Some(map[]) else
      InsertedAfter(InsertedFrom(items[..|items| - 1]), DefinitionOf(items[|items| - 1]))
  }

  /** A scalar or null node has no elements. */
  function DefinitionsOf(node: Node): Option<Defs> {
    match node
    case Sequence(items) => InsertedFrom(items)
    case Mapping(_) => None
    case _ => Some(map[])
  }
}
