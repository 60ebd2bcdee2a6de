/** Flattening a YAML tree to dotted names. */
module ConfigTree {
  import opened Seqs
  import opened Yaml

  // ----- Names -----

  predicate NameChar(c: char) {
    'a' <= c <= 'z' || c == '.' || c == '_' || '0' <= c <= '9'
  }

  predicate ValidName(s: string) {
    forall i :: 0 <= i < |s| ==> NameChar(s[i])
  }

  /** `tolower` in the "C" locale. */
  function LowerChar(c: char): char {
    if 'A' <= c <= 'Z' then c - 'A' + 'a' else c
  }

  function ToLower(s: string): string {
    seq(|s|, i requires 0 <= i < |s| => LowerChar(s[i]))
  }

  /** The lowercasing step of `LoadFromYaml` never changes a listed name. */
  lemma ValidNameIsLower(s: string)
    requires ValidName(s)
    ensures ToLower(s) == s
  {
    assert forall i :: 0 <= i < |s| ==> NameChar(s[i]);
    assert forall i :: 0 <= i < |s| ==> ToLower(s)[i] == s[i];
  }

  function ChildName(prefix: string, key: string): string {
    if prefix == "" then key else prefix + "." + key
  }

  lemma ChildOfInvalid(prefix: string, key: string)
    requires !ValidName(prefix)
    ensures !ValidName(ChildName(prefix, key))
  {
    var i :| 0 <= i < |prefix| && !NameChar(prefix[i]);
    assert ChildName(prefix, key)[i] == prefix[i];
  }

  // ----- Members -----

  datatype Member = Member(name: string, node: Node)

  /** All nodes of a tree with their dotted names, in preorder, whether or not the names are valid. */
  function Preorder(prefix: string, node: Node): seq<Member>
    decreases node, 1
  {
    [Member(prefix, node)] + if node.Mapping? then PreorderAll(prefix, node.entries) else []
  }

  function PreorderAll(prefix: string, entries: seq<Entry>): seq<Member>
    decreases entries, 0
  {
    if entries == [] then [] else
      Preorder(ChildName(prefix, entries[0].key), entries[0].value) + PreorderAll(prefix, entries[1..])
  }

  /** The members with a valid name, in order. */
  function Named(ms: seq<Member>): seq<Member> {
    if ms == [] then [] else (if ValidName(ms[0].name) then [ms[0]] else []) + Named(ms[1..])
  }

  lemma {:induction false} NamedConcat(a: seq<Member>, b: seq<Member>)
    ensures Named(a + b) == Named(a) + Named(b)
  {
    if a == [] {
      assert a + b == b;
    } else {
      assert (a + b)[1..] == a[1..] + b;
      NamedConcat(a[1..], b);
    }
  }

  /** Nothing below an invalid name has a valid one, so that pruning there loses nothing. */
  lemma {:induction false} NothingBelowInvalid(prefix: string, node: Node)
    requires !ValidName(prefix)
    ensures Named(Preorder(prefix, node)) == []
    decreases node, 1
  {
    if node.Mapping? { NothingBelowInvalidAll(prefix, node.entries); }
    assert Preorder(prefix, node)[1..] == if node.Mapping? then PreorderAll(prefix, node.entries) else [];
  }

  lemma {:induction false} NothingBelowInvalidAll(prefix: string, entries: seq<Entry>)
    requires !ValidName(prefix)
    ensures Named(PreorderAll(prefix, entries)) == []
    decreases entries, 0
  {
    if entries != [] {
      var name := ChildName(prefix, entries[0].key);
      ChildOfInvalid(prefix, entries[0].key);
      NothingBelowInvalid(name, entries[0].value);
      NothingBelowInvalidAll(prefix, entries[1..]);
      NamedConcat(Preorder(name, entries[0].value), PreorderAll(prefix, entries[1..]));
    }
  }

  /** The key under which a listed member is looked up. */
  method KeyOf(name: string) returns (key: string)
    requires ValidName(name)
    ensures key == name
  {
    key := ToLower(name);
    ValidNameIsLower(name);
  }

  /** `ListAllMember`, which appends to the list it is given. */
  class Lister {
    var output: seq<Member>

    constructor ()
      ensures output == []
    {
      output := [];
    }

    /** Appended are exactly the members of the whole tree whose own name is valid, in preorder. */
    method ListAllMember(prefix: string, node: Node)
      modifies this
      ensures output == old(output) + Named(Preorder(prefix, node))
      decreases node, 1
    {
      if !ValidName(prefix) {
        NothingBelowInvalid(prefix, node);
        return;
      }
      output := output + [Member(prefix, node)];
      ghost var rest := if node.Mapping? then PreorderAll(prefix, node.entries) else [];
      assert Preorder(prefix, node)[1..] == rest;
      if node.Mapping? {
        ListChildren(prefix, node);
        Assoc(old(output), [Member(prefix, node)], Named(rest));
      }
    }

    /** The loop over the entries of a mapping. */
    method ListChildren(prefix: string, node: Node)
      requires node.Mapping?
      modifies this
      ensures output == old(output) + Named(PreorderAll(prefix, node.entries))
      decreases node, 0
    {
      for i := 0 to |node.entries|
        invariant output == old(output) + Named(PreorderAll(prefix, node.entries[..i]))
      {
        var e := node.entries[i];
        ListAllMember(ChildName(prefix, e.key), e.value);
        NamedPush(prefix, node.entries, i);
        Assoc(old(output), Named(PreorderAll(prefix, node.entries[..i])), Named(Preorder(ChildName(prefix, e.key), e.value)));
      }
      assert node.entries[..|node.entries|] == node.entries;
    }
  }

  lemma NamedPush(prefix: string, entries: seq<Entry>, i: nat)
    requires i < |entries|
    ensures Named(PreorderAll(prefix, entries[..i + 1]))
            == Named(PreorderAll(prefix, entries[..i])) + Named(Preorder(ChildName(prefix, entries[i].key), entries[i].value))
  {
    var e := entries[i];
    assert entries[..i + 1] == entries[..i] + [e];
    PreorderPush(prefix, entries[..i], e);
    NamedConcat(PreorderAll(prefix, entries[..i]), Preorder(ChildName(prefix, e.key), e.value));
  }

  lemma {:induction false} PreorderPush(prefix: string, entries: seq<Entry>, e: Entry)
    ensures PreorderAll(prefix, entries + [e]) == PreorderAll(prefix, entries) + Preorder(ChildName(prefix, e.key), e.value)
  {
    if entries == [] {
      assert PreorderAll(prefix, [e][1..]) == [];
    } else {
      assert (entries + [e])[1..] == entries[1..] + [e];
      PreorderPush(prefix, entries[1..], e);
    }
  }

  // ----- Which nodes are listed -----

  /** Whether a path of entry positions leads somewhere in the tree. */
  predicate Leads(node: Node, path: seq<nat>)
    decreases path
  {
    path == [] || (node.Mapping? && path[0] < |node.entries| && Leads(node.entries[path[0]].value, path[1..]))
  }

  function NodeAt(node: Node, path: seq<nat>): Node
    requires Leads(node, path)
    decreases path
  {
    if path == [] then node else NodeAt(node.entries[path[0]].value, path[1..])
  }

  /** The dotted names met along a path; the last one is that of the node it leads to. */
  function NamesAlong(prefix: string, node: Node, path: seq<nat>): (names: seq<string>)
    requires Leads(node, path)
    ensures |names| == |path| + 1 && names[0] == prefix
    decreases path
  {
    [prefix] + if path == [] then [] else
      var e := node.entries[path[0]];
      NamesAlong(ChildName(prefix, e.key), e.value, path[1..])
  }

  function MemberAt(prefix: string, node: Node, path: seq<nat>): Member
    requires Leads(node, path)
  {
    Member(NamesAlong(prefix, node, path)[|path|], NodeAt(node, path))
  }

  predicate AllValid(names: seq<string>) {
    forall i :: 0 <= i < |names| ==> ValidName(names[i])
  }

  lemma {:induction false} OwnNameDecides(prefix: string, node: Node, path: seq<nat>)
    requires Leads(node, path)
    ensures ValidName(NamesAlong(prefix, node, path)[|path|]) <==> AllValid(NamesAlong(prefix, node, path))
    decreases path
  {
    if path != [] {
      var e := node.entries[path[0]];
      var ms := NamesAlong(ChildName(prefix, e.key), e.value, path[1..]);
      OwnNameDecides(ChildName(prefix, e.key), e.value, path[1..]);
      AllValidCons(prefix, ms);
      if !ValidName(prefix) { ChildOfInvalid(prefix, e.key); }
    } else {
      AllValidCons(prefix, []);
    }
  }

  lemma AllValidCons(name: string, names: seq<string>)
    ensures AllValid([name] + names) <==> ValidName(name) && AllValid(names)
  {
    var all := [name] + names;
    assert all[0] == name && forall i :: 0 <= i < |names| ==> all[i + 1] == names[i];
  }

  lemma {:induction false} EntryInPreorder(prefix: string, entries: seq<Entry>, k: nat, m: Member)
    requires k < |entries| && m in Preorder(ChildName(prefix, entries[k].key), entries[k].value)
    ensures m in PreorderAll(prefix, entries)
  {
    if k > 0 { EntryInPreorder(prefix, entries[1..], k - 1, m); }
  }

  lemma {:induction false} PathInPreorder(prefix: string, node: Node, path: seq<nat>)
    requires Leads(node, path)
    ensures MemberAt(prefix, node, path) in Preorder(prefix, node)
    decreases path
  {
    if path != [] {
      var e := node.entries[path[0]];
      PathInPreorder(ChildName(prefix, e.key), e.value, path[1..]);
      EntryInPreorder(prefix, node.entries, path[0], MemberAt(prefix, node, path));
    }
  }

  lemma {:induction false} PreorderHasEntry(prefix: string, entries: seq<Entry>, m: Member) returns (k: nat)
    requires m in PreorderAll(prefix, entries)
    ensures k < |entries| && m in Preorder(ChildName(prefix, entries[k].key), entries[k].value)
  {
    if m in Preorder(ChildName(prefix, entries[0].key), entries[0].value) {
      k := 0;
    } else {
      k := PreorderHasEntry(prefix, entries[1..], m);
      k := k + 1;
    }
  }

  lemma {:induction false} PreorderHasPath(prefix: string, node: Node, m: Member) returns (path: seq<nat>)
    requires m in Preorder(prefix, node)
    ensures Leads(node, path) && m == MemberAt(prefix, node, path)
    decreases node
  {
    if m == Member(prefix, node) {
      path := [];
    } else {
      var k := PreorderHasEntry(prefix, node.entries, m);
      var e := node.entries[k];
      var rest := PreorderHasPath(ChildName(prefix, e.key), e.value, m);
      path := [k] + rest;
      assert path[1..] == rest;
    }
  }

  lemma {:induction false} NamedIff(ms: seq<Member>, m: Member)
    ensures m in Named(ms) <==> m in ms && ValidName(m.name)
  {
    if ms != [] { NamedIff(ms[1..], m); }
  }

  lemma NamedAreValid(ms: seq<Member>, i: nat)
    requires i < |Named(ms)|
    ensures ValidName(Named(ms)[i].name)
  {
    NamedIff(ms, Named(ms)[i]);
  }

  /** A node is listed exactly when every name on some path leading to it is valid. */
  lemma ListedIffAllNamesValid(root: Node, m: Member)
    ensures m in Named(Preorder("", root)) <==>
            exists path :: Leads(root, path) && MemberAt("", root, path) == m && AllValid(NamesAlong("", root, path))
  {
    NamedIff(Preorder("", root), m);
    if m in Named(Preorder("", root)) {
      var path := PreorderHasPath("", root, m);
      OwnNameDecides("", root, path);
    }
    forall path | Leads(root, path) && MemberAt("", root, path) == m && AllValid(NamesAlong("", root, path))
      ensures m in Named(Preorder("", root))
    {
      PathInPreorder("", root, path);
    }
  }

  /** The members listed for a whole document. */
  method ListMembers(root: Node) returns (ms: seq<Member>)
    ensures ms == Named(Preorder("", root))
    ensures forall i :: 0 <= i < |ms| ==> ValidName(ms[i].name)
  {
    var lister := new Lister();
    lister.ListAllMember("", root);
    ms := lister.output;
    forall i | 0 <= i < |ms| ensures ValidName(ms[i].name) { NamedAreValid(Preorder("", root), i); }
  }
}
