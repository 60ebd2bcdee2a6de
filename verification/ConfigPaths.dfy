/** Where a node of a document is listed, under which name, and that this name's variable is set from it. */
module ConfigPaths {
  import opened Options
  import opened Seqs
  import opened Yaml
  import opened ConfigTree
  import opened ConfigVariable
  import opened ConfigStore

  // ----- Names -----

  function KeysAlong(node: Node, path: seq<nat>): seq<string>
    requires Leads(node, path)
    decreases path
  {
    if path == [] then [] else
      var e := node.entries[path[0]];
      [e.key] + KeysAlong(e.value, path[1..])
  }

  /** The texts with the separator between them. */
  function Join(texts: seq<string>, sep: string): string {
    if texts == [] then ""
    else if |texts| == 1 then texts[0]
    else texts[0] + sep + Join(texts[1..], sep)
  }

  /** Empty keys at the front leave no trace in the name. */
  function FromFirstText(keys: seq<string>): seq<string> {
    if keys != [] && keys[0] == "" then FromFirstText(keys[1..]) else keys
  }

  lemma {:induction false} NameBehindPrefix(prefix: string, node: Node, path: seq<nat>)
    requires Leads(node, path)
    ensures var keys := KeysAlong(node, path);
            NamesAlong(prefix, node, path)[|path|] ==
              if prefix == "" then Join(FromFirstText(keys), ".")
              else if keys == [] then prefix
              else prefix + "." + Join(keys, ".")
    decreases path
  {
    if path != [] {
      var e := node.entries[path[0]];
      NameBehindPrefix(ChildName(prefix, e.key), e.value, path[1..]);
      var rest := KeysAlong(e.value, path[1..]);
      assert KeysAlong(node, path)[1..] == rest;
      if prefix != "" && rest != [] {
        Assoc(prefix + ".", e.key + ".", Join(rest, "."));
        Assoc(prefix + ".", e.key, ".");
      }
    }
  }

  /** Whatever the keys, the name of a node is the keys on the way to it joined by dots, from the first non-empty one on. */
  lemma NameIsJoinedKeys(root: Node, path: seq<nat>)
    requires Leads(root, path)
    ensures MemberAt("", root, path).name == Join(FromFirstText(KeysAlong(root, path)), ".")
    ensures (forall i :: 0 <= i < |KeysAlong(root, path)| ==> KeysAlong(root, path)[i] != "")
            ==> MemberAt("", root, path).name == Join(KeysAlong(root, path), ".")
  {
    NameBehindPrefix("", root, path);
  }

  /** The characters of valid names. */
  lemma NameCharacters(c: char)
    ensures NameChar(c) <==> 97 <= c as int <= 122 || 48 <= c as int <= 57 || c as int == 46 || c as int == 95
  {
    assert 'a' as int == 97 && 'z' as int == 122 && '0' as int == 48 && '9' as int == 57 && '.' as int == 46 && '_' as int == 95;
  }

  // ----- Order -----

  /** Document order: a node comes before everything below it, and before what follows it. */
  predicate Before(p: seq<nat>, q: seq<nat>) {
    q != [] && (p == [] || p[0] < q[0] || (p[0] == q[0] && Before(p[1..], q[1..])))
  }

  /** The place of a node in the list of all nodes. */
  function Place(node: Node, path: seq<nat>): nat
    requires Leads(node, path)
    decreases path
  {
    if path == [] then 0
    else 1 + |PreorderAll("", node.entries[..path[0]])| + Place(node.entries[path[0]].value, path[1..])
  }

  /** How many nodes a tree has does not depend on the name it starts with. */
  lemma {:induction false} SameSize(a: string, b: string, node: Node)
    ensures |Preorder(a, node)| == |Preorder(b, node)|
    decreases node, 1
  {
    if node.Mapping? { SameSizeAll(a, b, node.entries); }
  }

  lemma {:induction false} SameSizeAll(a: string, b: string, entries: seq<Entry>)
    ensures |PreorderAll(a, entries)| == |PreorderAll(b, entries)|
    decreases entries, 0
  {
    if entries != [] {
      SameSize(ChildName(a, entries[0].key), ChildName(b, entries[0].key), entries[0].value);
      SameSizeAll(a, b, entries[1..]);
    }
  }

  lemma {:induction false} PreorderSplit(prefix: string, entries: seq<Entry>, k: nat)
    requires k < |entries|
    ensures PreorderAll(prefix, entries) == PreorderAll(prefix, entries[..k])
            + Preorder(ChildName(prefix, entries[k].key), entries[k].value) + PreorderAll(prefix, entries[k + 1..])
  {
    if k > 0 {
      var first := Preorder(ChildName(prefix, entries[0].key), entries[0].value);
      PreorderSplit(prefix, entries[1..], k - 1);
      assert entries[..k][1..] == entries[1..][..k - 1] && entries[1..][k..] == entries[k + 1..];
      var a, c := PreorderAll(prefix, entries[1..][..k - 1]), PreorderAll(prefix, entries[k + 1..]);
      var b := Preorder(ChildName(prefix, entries[k].key), entries[k].value);
      Assoc(first, a + b, c);
      Assoc(first, a, b);
    }
  }

  /** Every node stands at its place. */
  lemma {:induction false} StandsAtPlace(prefix: string, node: Node, path: seq<nat>)
    requires Leads(node, path)
    ensures Place(node, path) < |Preorder(prefix, node)| && Preorder(prefix, node)[Place(node, path)] == MemberAt(prefix, node, path)
    decreases path
  {
    if path != [] {
      var k, e := path[0], node.entries[path[0]];
      StandsAtPlace(ChildName(prefix, e.key), e.value, path[1..]);
      MemberBelow(prefix, node, path);
      StandsBelow(prefix, node, k, Place(e.value, path[1..]));
      PlaceBelow(node, path);
    }
  }

  lemma PlaceBelow(node: Node, path: seq<nat>)
    requires Leads(node, path) && path != []
    ensures Place(node, path) == 1 + |PreorderAll("", node.entries[..path[0]])| + Place(node.entries[path[0]].value, path[1..])
  {
  }

  lemma StandsBelow(prefix: string, node: Node, k: nat, i: nat)
    requires node.Mapping? && k < |node.entries|
    requires i < |Preorder(ChildName(prefix, node.entries[k].key), node.entries[k].value)|
    ensures var j := 1 + |PreorderAll("", node.entries[..k])| + i;
            && j < |Preorder(prefix, node)|
            && Preorder(prefix, node)[j] == Preorder(ChildName(prefix, node.entries[k].key), node.entries[k].value)[i]
  {
    EntryStands(prefix, node.entries, k, i);
    SameSizeAll("", prefix, node.entries[..k]);
    BehindFirst(Member(prefix, node), PreorderAll(prefix, node.entries), 1 + |PreorderAll("", node.entries[..k])| + i);
  }

  lemma MemberBelow(prefix: string, node: Node, path: seq<nat>)
    requires Leads(node, path) && path != []
    ensures var e := node.entries[path[0]]; MemberAt(prefix, node, path) == MemberAt(ChildName(prefix, e.key), e.value, path[1..])
  {
  }

  lemma BehindFirst(m: Member, ms: seq<Member>, i: nat)
    requires 0 < i <= |ms|
    ensures ([m] + ms)[i] == ms[i - 1]
  {
  }

  lemma EntryStands(prefix: string, entries: seq<Entry>, k: nat, i: nat)
    requires k < |entries| && i < |Preorder(ChildName(prefix, entries[k].key), entries[k].value)|
    ensures var j := |PreorderAll(prefix, entries[..k])| + i;
            j < |PreorderAll(prefix, entries)| && PreorderAll(prefix, entries)[j] == Preorder(ChildName(prefix, entries[k].key), entries[k].value)[i]
  {
    PreorderSplit(prefix, entries, k);
  }

  lemma EarlierEntries(entries: seq<Entry>, j: nat, k: nat)
    requires j < k <= |entries|
    ensures |PreorderAll("", entries[..j])| + |Preorder(entries[j].key, entries[j].value)| <= |PreorderAll("", entries[..k])|
  {
    PreorderSplit("", entries[..k], j);
    assert entries[..k][..j] == entries[..j] && entries[..k][j] == entries[j];
  }

  /** Nodes are listed in document order. */
  lemma {:induction false} ListedInOrder(node: Node, p: seq<nat>, q: seq<nat>)
    requires Leads(node, p) && Leads(node, q) && Before(p, q)
    ensures Place(node, p) < Place(node, q)
    decreases p
  {
    if p != [] {
      if p[0] == q[0] {
        ListedInOrder(node.entries[p[0]].value, p[1..], q[1..]);
      } else {
        var e := node.entries[p[0]];
        StandsAtPlace(e.key, e.value, p[1..]);
        EarlierEntries(node.entries, p[0], q[0]);
      }
    }
  }

  lemma {:induction false} OneBefore(p: seq<nat>, q: seq<nat>)
    ensures p == q || Before(p, q) || Before(q, p)
  {
    if p != [] && q != [] && p[0] == q[0] {
      OneBefore(p[1..], q[1..]);
      assert p == [p[0]] + p[1..] && q == [q[0]] + q[1..];
    }
  }

  lemma {:induction false} EntryAtPlace(entries: seq<Entry>, i: nat) returns (k: nat)
    requires i < |PreorderAll("", entries)|
    ensures k < |entries|
    ensures |PreorderAll("", entries[..k])| <= i < |PreorderAll("", entries[..k])| + |Preorder(entries[k].key, entries[k].value)|
  {
    var first := Preorder(entries[0].key, entries[0].value);
    if i < |first| {
      k := 0;
    } else {
      k := EntryAtPlace(entries[1..], i - |first|);
      assert entries[..k + 1][1..] == entries[1..][..k];
      k := k + 1;
    }
  }

  /** Every place is that of a node. */
  lemma {:induction false} PathOfPlace(prefix: string, node: Node, i: nat) returns (path: seq<nat>)
    requires i < |Preorder(prefix, node)|
    ensures Leads(node, path) && Place(node, path) == i
    decreases node
  {
    if i == 0 {
      path := [];
    } else {
      SameSizeAll("", prefix, node.entries);
      var k := EntryAtPlace(node.entries, i - 1);
      var e := node.entries[k];
      var rest := PathOfPlace(e.key, e.value, i - 1 - |PreorderAll("", node.entries[..k])|);
      path := [k] + rest;
      assert path[1..] == rest;
    }
  }

  // ----- Loading -----

  function NameAt(root: Node, path: seq<nat>): string
    requires Leads(root, path)
  {
    Join(FromFirstText(KeysAlong(root, path)), ".")
  }

  /** The text of a scalar, or any other node written out again. */
  function Written(node: Node, emit: Node -> string): string {
    if node.Scalar? then node.text else emit(node)
  }

  /** No node later in the document has the same name and a text that converts. */
  ghost predicate NoneLater<T>(root: Node, path: seq<nat>, fromStr: string -> Option<T>, emit: Node -> string)
    requires Leads(root, path)
  {
    forall q :: Leads(root, q) && Before(path, q) && NameAt(root, q) == NameAt(root, path) ==> fromStr(Written(NodeAt(root, q), emit)).None?
  }

  lemma NamedSplit(ms: seq<Member>, i: nat)
    requires i < |ms| && ValidName(ms[i].name)
    ensures Named(ms) == Named(ms[..i]) + [ms[i]] + Named(ms[i + 1..])
  {
    assert ms == ms[..i] + ms[i..] && ms[i..][1..] == ms[i + 1..];
    NamedConcat(ms[..i], ms[i..]);
    Assoc(Named(ms[..i]), [ms[i]], Named(ms[i + 1..]));
  }

  /** A member listed behind a node is that of a later node. */
  lemma BehindIsLater(root: Node, path: seq<nat>, all: seq<Member>, i: nat, m: Member) returns (q: seq<nat>)
    requires Leads(root, path) && i == Place(root, path) && all == Preorder("", root) && i < |all| && m in Named(all[i + 1..])
    ensures Leads(root, q) && Before(path, q) && m == MemberAt("", root, q)
  {
    var k := MemberBehind(all, i, m);
    q := LaterNode(root, path, k, m);
  }

  lemma MemberBehind(all: seq<Member>, i: nat, m: Member) returns (k: nat)
    requires i < |all| && m in Named(all[i + 1..])
    ensures i < k < |all| && all[k] == m
  {
    NamedIff(all[i + 1..], m);
    k := FoundBehind(all, i, m);
  }

  lemma LaterNode(root: Node, path: seq<nat>, k: nat, m: Member) returns (q: seq<nat>)
    requires Leads(root, path) && Place(root, path) < k < |Preorder("", root)| && Preorder("", root)[k] == m
    ensures Leads(root, q) && Before(path, q) && m == MemberAt("", root, q)
  {
    q := PathOfPlace("", root, k);
    StandsAtPlace("", root, q);
    LaterPlace(root, path, q);
  }

  lemma FoundBehind(all: seq<Member>, i: nat, m: Member) returns (k: nat)
    requires i < |all| && m in all[i + 1..]
    ensures i < k < |all| && all[k] == m
  {
    var j :| 0 <= j < |all[i + 1..]| && all[i + 1..][j] == m;
    k := i + 1 + j;
  }

  lemma LaterPlace(root: Node, p: seq<nat>, q: seq<nat>)
    requires Leads(root, p) && Leads(root, q) && Place(root, p) < Place(root, q)
    ensures Before(p, q)
  {
    OneBefore(p, q);
    if Before(q, p) { ListedInOrder(root, q, p); }
  }

  ghost predicate NoneConverts<T>(ms: seq<Member>, name: string, fromStr: string -> Option<T>, emit: Node -> string) {
    forall m :: m in ms ==> Converted(name, fromStr, m, emit).None?
  }

  lemma NoneBehind<T>(root: Node, path: seq<nat>, all: seq<Member>, i: nat, fromStr: string -> Option<T>, emit: Node -> string)
    requires Leads(root, path) && NoneLater(root, path, fromStr, emit) && i == Place(root, path) && all == Preorder("", root) && i < |all|
    ensures NoneConverts(Named(all[i + 1..]), NameAt(root, path), fromStr, emit)
  {
    var behind := Named(all[i + 1..]);
    forall m | m in behind ensures Converted(NameAt(root, path), fromStr, m, emit).None? {
      var q := BehindIsLater(root, path, all, i, m);
      LaterDoesNotConvert(root, path, q, fromStr, emit);
    }
  }

  lemma LaterDoesNotConvert<T>(root: Node, path: seq<nat>, q: seq<nat>, fromStr: string -> Option<T>, emit: Node -> string)
    requires Leads(root, path) && NoneLater(root, path, fromStr, emit) && Leads(root, q) && Before(path, q)
    ensures Converted(NameAt(root, path), fromStr, MemberAt("", root, q), emit).None?
  {
    NameIsJoinedKeys(root, q);
    if NameAt(root, q) == NameAt(root, path) { assert fromStr(Written(NodeAt(root, q), emit)).None?; }
  }

  /**
   * A node whose text converts, and behind which no other node of its name does, decides the
   * variable named by the keys on the way to it, joined by dots: the variable ends with that
   * value if and only if it already has it, from the nodes before, or no listener throws on it.
   * The node is number `i` of all nodes.
   */
  lemma NestedEntryIsLoaded<T>(c: Cell<T>, root: Node, path: seq<nat>, fromStr: string -> Option<T>, emit: Node -> string) returns (i: nat)
    requires Leads(root, path) && ValidName(NameAt(root, path)) && NameAt(root, path) != ""
    requires fromStr(Written(NodeAt(root, path), emit)).Some? && NoneLater(root, path, fromStr, emit)
    ensures i < |Preorder("", root)| && Preorder("", root)[i] == MemberAt("", root, path)
    ensures Decides(c, NameAt(root, path), fromStr, Preorder("", root), i, emit, fromStr(Written(NodeAt(root, path), emit)).value)
  {
    var all;
    all, i := LastToLoad(root, path, fromStr, emit);
    LoadAt(c, NameAt(root, path), fromStr, all, i, emit, fromStr(Written(NodeAt(root, path), emit)).value);
  }

  /** After loading all members the variable holds `v` if and only if it does after the first `i`, or no listener throws on that change. */
  ghost predicate Decides<T>(c: Cell<T>, name: string, fromStr: string -> Option<T>, all: seq<Member>, i: nat, emit: Node -> string, v: T)
    requires i < |all|
  {
    var before := Load(c, name, fromStr, Named(all[..i]), emit);
    Load(c, name, fromStr, Named(all), emit).val == v <==> v == before.val || !Throws(c.cbs, before.val, v)
  }

  lemma LastToLoad<T>(root: Node, path: seq<nat>, fromStr: string -> Option<T>, emit: Node -> string) returns (all: seq<Member>, i: nat)
    requires Leads(root, path) && NameAt(root, path) != "" && NoneLater(root, path, fromStr, emit)
    ensures all == Preorder("", root) && i < |all| && all[i] == MemberAt("", root, path) && all[i].name == NameAt(root, path)
    ensures Converted(NameAt(root, path), fromStr, all[i], emit) == fromStr(Written(NodeAt(root, path), emit))
    ensures NoneConverts(Named(all[i + 1..]), NameAt(root, path), fromStr, emit)
  {
    all, i := Preorder("", root), Place(root, path);
    StandsAtPlace("", root, path);
    NoneBehind(root, path, all, i, fromStr, emit);
    MemberConverts(root, path, fromStr, emit);
  }

  lemma MemberConverts<T>(root: Node, path: seq<nat>, fromStr: string -> Option<T>, emit: Node -> string)
    requires Leads(root, path) && NameAt(root, path) != ""
    ensures MemberAt("", root, path).name == NameAt(root, path)
    ensures Converted(NameAt(root, path), fromStr, MemberAt("", root, path), emit) == fromStr(Written(NodeAt(root, path), emit))
  {
    NameIsJoinedKeys(root, path);
  }

  lemma LoadAt<T>(c: Cell<T>, name: string, fromStr: string -> Option<T>, all: seq<Member>, i: nat, emit: Node -> string, v: T)
    requires i < |all| && ValidName(all[i].name) && Converted(name, fromStr, all[i], emit) == Some(v)
    requires NoneConverts(Named(all[i + 1..]), name, fromStr, emit)
    ensures Decides(c, name, fromStr, all, i, emit, v)
  {
    NamedSplit(all, i);
    LoadBetween(c, name, fromStr, Named(all[..i]), all[i], Named(all[i + 1..]), emit);
  }

  lemma LoadBetween<T>(c: Cell<T>, name: string, fromStr: string -> Option<T>, a: seq<Member>, m: Member, b: seq<Member>, emit: Node -> string)
    requires Converted(name, fromStr, m, emit).Some?
    requires NoneConverts(b, name, fromStr, emit)
    ensures var v := Converted(name, fromStr, m, emit).value;
            var before := Load(c, name, fromStr, a, emit);
            Load(c, name, fromStr, a + [m] + b, emit).val == v <==> v == before.val || !Throws(c.cbs, before.val, v)
  {
    var ms := a + [m] + b;
    assert ms[..|a|] == a && ms[|a|] == m;
    forall j | |a| < j < |ms| ensures Converted(name, fromStr, ms[j], emit).None? { assert ms[j] == b[j - |a| - 1]; }
    LastConvertedWinsIffTaken(c, name, fromStr, ms, emit, |a|);
  }

  /** A variable with the empty name is never loaded. */
  lemma {:induction false} EmptyNameIsNeverLoaded<T>(c: Cell<T>, fromStr: string -> Option<T>, ms: seq<Member>, emit: Node -> string)
    ensures Load(c, "", fromStr, ms, emit) == c
  {
    if ms != [] { EmptyNameIsNeverLoaded(c, fromStr, ms[..|ms| - 1], emit); }
  }
}
