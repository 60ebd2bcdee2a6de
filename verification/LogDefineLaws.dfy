/** Writing and reading logger definitions: the loops of the conversions and when they are inverse. */
module LogDefineLaws {
  import opened Options
  import opened Seqs
  import opened Yaml
  import opened LogDefines
  import ConfigVariable

  // ----- One appender -----

  /** What a written appender needs to be read back as it was. */
  predicate GoodAppender(a: AppenderDef) {
    && a.kind != UnknownKind
    && KnownLevel(a.level)
    && (a.file != "" <==> a.kind == FileAppender)
  }

  lemma {:induction false} FindConcat(a: seq<Entry>, b: seq<Entry>, key: string)
    ensures Find(a + b, key) == if Find(a, key).Some? then Find(a, key) else Find(b, key)
  {
    if a == [] {
      assert a + b == b;
    } else {
      assert (a + b)[0] == a[0] && (a + b)[1..] == a[1..] + b;
      FindConcat(a[1..], b, key);
    }
  }

  lemma FindOptional(k: string, text: string, present: bool, rest: seq<Entry>, key: string)
    ensures Find(Optional(k, text, present) + rest, key)
         == if present && k == key then Some(Scalar(text)) else Find(rest, key)
  {
    FindConcat(Optional(k, text, present), rest, key);
  }

  lemma FindInAppender(a: AppenderDef, key: string)
    ensures Find(AppenderEntries(a), key)
         == if key == "file" then (if a.file != "" then Some(Scalar(a.file)) else None)
            else if key == "formatter" then (if a.formatter != "" then Some(Scalar(a.formatter)) else None)
            else if key == "level" then (if a.level != UNKNOW then Some(Scalar(LevelToString(a.level))) else None)
            else if key == "type" then Some(Scalar(KindToString(a.kind)))
            else None
  {
    var kind := [Entry("type", Scalar(KindToString(a.kind)))];
    var level := Optional("level", LevelToString(a.level), a.level != UNKNOW) + kind;
    var formatter := Optional("formatter", a.formatter, a.formatter != "") + level;
    FindOptional("file", a.file, a.file != "", formatter, key);
    FindOptional("formatter", a.formatter, a.formatter != "", level, key);
    FindOptional("level", LevelToString(a.level), a.level != UNKNOW, kind, key);
  }

  /** A written appender never throws on reading, and is read back exactly when it is good. */
  lemma AppenderRoundTrip(a: AppenderDef)
    ensures !AppenderOf(AppenderNode(a)).Threw?
    ensures AppenderOf(AppenderNode(a)) == Got(a) <==> GoodAppender(a)
  {
    FindInAppender(a, "file");
    FindInAppender(a, "formatter");
    FindInAppender(a, "level");
    FindInAppender(a, "type");
    LevelRoundTrip(a.level);
    KindRoundTrip(a.kind);
  }

  // ----- The appenders of one definition -----

  predicate GoodAppenders(appenders: seq<AppenderDef>) {
    appenders != [] ==> GoodAppenders(appenders[..|appenders| - 1]) && GoodAppender(appenders[|appenders| - 1])
  }

  lemma AppendersPush(items: seq<Node>, x: Node)
    ensures AppendersOf(items + [x]) == Joined(AppendersOf(items), AppenderOf(x))
  {
    PushInit(items, x);
  }

  lemma JoinedIsWhole(rest: Option<seq<AppenderDef>>, last: Outcome<AppenderDef>, init: seq<AppenderDef>, a: AppenderDef)
    requires rest.Some? && |rest.value| <= |init| && !last.Threw?
    ensures var r := Joined(rest, last);
            && r.Some? && |r.value| <= |init| + 1
            && (r.value == init + [a] <==> rest.value == init && last == Got(a))
  {
    if last.Got? {
      PushInit(rest.value, last.value);
      PushInit(init, a);
    }
  }

  /** Appenders that are not read back are dropped or changed; there are never more. */
  lemma {:induction false} AppendersRoundTrip(s: seq<AppenderDef>)
    ensures var r := AppendersOf(AppenderNodes(s));
            r.Some? && |r.value| <= |s| && (r.value == s <==> GoodAppenders(s))
  {
    if s != [] {
      var init, a := s[..|s| - 1], s[|s| - 1];
      AppendersRoundTrip(init);
      AppenderRoundTrip(a);
      InitLast(s);
      AppendersPush(AppenderNodes(init), AppenderNode(a));
      JoinedIsWhole(AppendersOf(AppenderNodes(init)), AppenderOf(AppenderNode(a)), init, a);
    }
  }

  // ----- One definition -----

  predicate GoodDef(d: LogDef) {
    KnownLevel(d.level) && GoodAppenders(d.appenders)
  }

  lemma FindInDefinition(d: LogDef)
    ensures var n := DefinitionNode(d);
            && Get(n, "name") == Some(Scalar(d.name)) && Get(n, "level") == Some(Scalar(LevelToString(d.level)))
            && Get(n, "formatter") == Some(Scalar(d.formatter))
            && Get(n, "appenders") == Some(ListNode(AppenderNodes(d.appenders)))
  {
    var es := DefinitionNode(d).entries;
    assert es[1..][1..] == es[2..];
    assert es[2..][1..] == es[3..];
    assert es[3..][1..] == [];
    SkipEntry(es, "level");
    SkipEntry(es, "formatter");
    SkipEntry(es[1..], "formatter");
    SkipEntry(es, "appenders");
    SkipEntry(es[1..], "appenders");
    SkipEntry(es[2..], "appenders");
  }

  lemma SkipEntry(es: seq<Entry>, key: string)
    requires es != [] && es[0].key != key
    ensures Find(es, key) == Find(es[1..], key)
  {
  }

  /** A written definition keeps its name when read, and all of it exactly when it is good. */
  lemma DefinitionRoundTrip(d: LogDef)
    ensures var r := DefinitionOf(DefinitionNode(d));
            r.Some? && r.value.name == d.name && (r.value == d <==> GoodDef(d))
  {
    FindInDefinition(d);
    LevelRoundTrip(d.level);
    AppendersRoundTrip(d.appenders);
  }

  // ----- The whole set -----

  predicate GoodDefs(ds: seq<LogDef>) {
    ds != [] ==> GoodDefs(ds[..|ds| - 1]) && GoodDef(ds[|ds| - 1])
  }

  lemma {:induction false} SetOfNames(ds: seq<LogDef>, name: string)
    ensures name in SetOf(ds) <==> exists i :: 0 <= i < |ds| && ds[i].name == name
  {
    if ds != [] {
      SetOfNames(ds[..|ds| - 1], name);
    }
  }

  lemma NewName(ds: seq<LogDef>)
    requires ds != [] && Distinct(ds)
    ensures Distinct(ds[..|ds| - 1]) && ds[|ds| - 1].name !in SetOf(ds[..|ds| - 1])
  {
    SetOfNames(ds[..|ds| - 1], ds[|ds| - 1].name);
  }

  lemma InsertBoth(m: Defs, n: Defs, d: LogDef, e: LogDef)
    requires m.Keys == n.Keys && d.name == e.name && d.name !in m
    ensures Insert(m, d).Keys == Insert(n, e).Keys
    ensures Insert(m, d) == Insert(n, e) <==> m == n && d == e
  {
    var x := d.name;
    if Insert(m, d) == Insert(n, e) {
      assert m[x := d][x] == n[x := e][x];
      forall k | k in m ensures m[k] == n[k] {
        assert m[x := d][k] == n[x := e][k];
      }
    }
  }

  lemma InsertedPush(items: seq<Node>, x: Node)
    ensures InsertedFrom(items + [x]) == InsertedAfter(InsertedFrom(items), DefinitionOf(x))
  {
    PushInit(items, x);
  }

  /** Writing and then reading a set of definitions keeps its names, and all of it exactly when each is good. */
  lemma {:induction false} SetRoundTrip(ds: seq<LogDef>)
    requires Distinct(ds)
    ensures var r := InsertedFrom(DefinitionNodes(ds));
            r.Some? && r.value.Keys == SetOf(ds).Keys && (r.value == SetOf(ds) <==> GoodDefs(ds))
  {
    if ds != [] {
      var init, d := ds[..|ds| - 1], ds[|ds| - 1];
      NewName(ds);
      SetRoundTrip(init);
      DefinitionRoundTrip(d);
      InsertedPush(DefinitionNodes(init), DefinitionNode(d));
      InsertBoth(InsertedFrom(DefinitionNodes(init)).value, SetOf(init), DefinitionOf(DefinitionNode(d)).value, d);
    }
  }

  function Written(ds: seq<LogDef>): Node {
    ListNode(DefinitionNodes(ds))
  }

  lemma SetDoesNothingIffEqual<T>(c: ConfigVariable.Cell<T>, v: T)
    ensures ConfigVariable.Set(c, v) == c <==> v == c.val
  {
    if v != c.val && ConfigVariable.Throws(c.cbs, c.val, v) {
      assert |ConfigVariable.Round(c.cbs, c.val, v)| > 0;
      assert |ConfigVariable.Set(c, v).calls| > |c.calls|;
    }
  }

  /**
   * `fromString(toString())` on the `logs` variable converts; it changes nothing and calls no
   * listener exactly when every definition is good.
   */
  lemma ReloadIsSilentIffGood(c: ConfigVariable.Cell<Defs>, ds: seq<LogDef>)
    requires Distinct(ds) && c.val == SetOf(ds)
    ensures DefinitionsOf(Written(ds)).Some?
    ensures ConfigVariable.Set(c, DefinitionsOf(Written(ds)).value) == c <==> GoodDefs(ds)
  {
    SetRoundTrip(ds);
    SetDoesNothingIffEqual(c, DefinitionsOf(Written(ds)).value);
  }

  // ----- What was read has known kinds -----

  predicate KnownKinds(appenders: seq<AppenderDef>) {
    forall i :: 0 <= i < |appenders| ==> appenders[i].kind != UnknownKind
  }

  lemma {:induction false} AppendersReadAreKnown(items: seq<Node>)
    ensures AppendersOf(items).Some? ==> KnownKinds(AppendersOf(items).value)
  {
    if items != [] {
      var init, x := items[..|items| - 1], items[|items| - 1];
      AppendersReadAreKnown(init);
      AppenderReadIsKnown(x);
    }
  }

  lemma AppenderReadIsKnown(node: Node)
    ensures AppenderOf(node).Got? ==> AppenderOf(node).value.kind != UnknownKind
  {
  }

  lemma DefinitionReadIsKnown(node: Node)
    ensures DefinitionOf(node).Some? ==> KnownKinds(DefinitionOf(node).value.appenders)
  {
    var appenders := Get(node, "appenders");
    if appenders.Some? && appenders.value.Sequence? {
      AppendersReadAreKnown(appenders.value.items);
    }
  }

  /** Whatever document was read, every appender of every definition has a known kind. */
  lemma {:induction false} ReadKindsAreKnown(items: seq<Node>)
    ensures var r := InsertedFrom(items);
            r.Some? ==> forall n :: n in r.value ==> KnownKinds(r.value[n].appenders)
  {
    if items != [] {
      ReadKindsAreKnown(items[..|items| - 1]);
      DefinitionReadIsKnown(items[|items| - 1]);
    }
  }

  // ----- The loops -----

  /** Appenders are read one by one; a faulty one is left out, a scalar ends the reading. */
  method ReadAppenders(items: seq<Node>) returns (r: Option<seq<AppenderDef>>)
    ensures r == AppendersOf(items)
  {
    var list := [];
    for x := 0 to |items|
      invariant AppendersOf(items[..x]) == Some(list)
    {
      AppendersPush(items[..x], items[x]);
      assert items[..x + 1] == items[..x] + [items[x]];
      match AppenderOf(items[x]) {
        case Threw =>
          ThrowSpreads(items, x + 1);
          return None;
        case Skipped =>
        case Got(a) => list := list + [a];
      }
    }
    assert items[..|items|] == items;
    r := Some(list);
  }

  lemma {:induction false} ThrowSpreads(items: seq<Node>, x: nat)
    requires x <= |items| && AppendersOf(items[..x]).None?
    ensures AppendersOf(items).None?
    decreases |items|
  {
    if x == |items| {
      assert items[..x] == items;
    } else {
      assert items[..|items| - 1][..x] == items[..x];
      ThrowSpreads(items[..|items| - 1], x);
    }
  }

  /** The steps of reading one definition, each of which may stop with what was read so far. */
  method ReadDefinition(node: Node) returns (r: Option<LogDef>)
    ensures r == DefinitionOf(node)
  {
    if node.Scalar? {
      return None;
    }
    var ld := NO_DEF;
    var name, level, formatter, appenders := Get(node, "name"), Get(node, "level"), Get(node, "formatter"), Get(node, "appenders");
    if !IsText(name) {
      return Some(ld);
    }
    ld := ld.(name := name.value.text);
    if !IsText(level) {
      return Some(ld);
    }
    ld := ld.(level := LevelFromString(level.value.text));
    if formatter.Some? {
      if !IsText(formatter) {
        return Some(ld);
      }
      ld := ld.(formatter := formatter.value.text);
    }
    if appenders.Some? && appenders.value.Sequence? {
      var list := ReadAppenders(appenders.value.items);
      if list.None? {
        return None;
      }
      ld := ld.(appenders := list.value);
    }
    r := Some(ld);
  }

  lemma {:induction false} NoneSpreads(items: seq<Node>, x: nat)
    requires x <= |items| && InsertedFrom(items[..x]).None?
    ensures InsertedFrom(items).None?
    decreases |items|
  {
    if x == |items| {
      assert items[..x] == items;
    } else {
      assert items[..|items| - 1][..x] == items[..x];
      NoneSpreads(items[..|items| - 1], x);
    }
  }

  /** The elements of a sequence are read and inserted one by one. */
  method ReadSet(items: seq<Node>) returns (r: Option<Defs>)
    ensures r == InsertedFrom(items)
  {
    var defs: Defs := map[];
    for i := 0 to |items|
      invariant InsertedFrom(items[..i]) == Some(defs)
    {
      InsertedPush(items[..i], items[i]);
      assert items[..i + 1] == items[..i] + [items[i]];
      var d := ReadDefinition(items[i]);
      if d.None? {
        NoneSpreads(items, i + 1);
        return None;
      }
      defs := Insert(defs, d.value);
    }
    assert items[..|items|] == items;
    r := Some(defs);
  }

  /** One node per appender, built field by field. */
  method WriteAppenders(appenders: seq<AppenderDef>) returns (nodes: seq<Node>)
    ensures nodes == AppenderNodes(appenders)
  {
    nodes := [];
    for n := 0 to |appenders|
      invariant nodes == AppenderNodes(appenders[..n])
    {
      PushInit(appenders[..n], appenders[n]);
      assert appenders[..n + 1] == appenders[..n] + [appenders[n]];
      nodes := nodes + [AppenderNode(appenders[n])];
    }
    assert appenders[..|appenders|] == appenders;
  }

  method WriteSet(ds: seq<LogDef>) returns (node: Node)
    ensures node == Written(ds)
  {
    var nodes := [];
    for n := 0 to |ds|
      invariant nodes == DefinitionNodes(ds[..n])
    {
      PushInit(ds[..n], ds[n]);
      assert ds[..n + 1] == ds[..n] + [ds[n]];
      var appenders := WriteAppenders(ds[n].appenders);
      nodes := nodes + [Mapping([
        Entry("name", Scalar(ds[n].name)), Entry("level", Scalar(LevelToString(ds[n].level))),
        Entry("formatter", Scalar(ds[n].formatter)), Entry("appenders", ListNode(appenders))])];
    }
    assert ds[..|ds|] == ds;
    node := ListNode(nodes);
  }
}
