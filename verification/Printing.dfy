/**
 Printing a node's path and looking it up again.
 */
module Printing {
  import opened Paths
  import opened Nodes
  import opened Drives

  /** The stored names on the way to the node at p. */
  function NamesAlong(n: Node, p: Key): (names: seq<string>)
    requires Lookup(n, p).Some?
    ensures |names| == |p|
    decreases |p|
  {
    if p == [] then [] else [Kid(n, p[0]).name] + NamesAlong(Kid(n, p[0]), p[1..])
  }

  lemma {:induction false} NamesAreValid(n: Node, p: Key)
    requires Good(n) && Lookup(n, p).Some?
    ensures ValidPath(NamesAlong(n, p)) && Keys(NamesAlong(n, p)) == p
    decreases |p|
  {
    if p != [] {
      var kid := Kid(n, p[0]);
      NamesAreValid(kid, p[1..]);
      assert forall i :: 1 <= i < |p| ==> Keys(NamesAlong(n, p))[i] == Keys(NamesAlong(kid, p[1..]))[i - 1];
    }
  }

  /** A printed node path followed by a backslash and a name parses to the path of that child. */
  lemma ChildPathParses(root: Node, p: Key, name: string)
    requires Good(root) && root.name == "" && Lookup(root, p).Some? && ValidName(name)
    ensures Keys(Split(NodePath([root.name] + NamesAlong(root, p)) + "\\" + name)) == p + [Upper(name)]
  {
    var names := NamesAlong(root, p);
    NamesAreValid(root, p);
    hide Good, Lookup, NamesAlong, Split;
    ParseNodePath(names + [name]);
    NodePathSnoc(root.name, names, name);
    KeysConcat(names, [name]);
    assert Keys([name]) == [Upper(name)];
  }

  lemma NodePathSnoc(rootName: string, names: seq<string>, name: string)
    ensures NodePath([rootName] + (names + [name])) == NodePath([rootName] + names) + "\\" + name
  {
    var all := [rootName] + (names + [name]);
    assert all[..|all| - 1] == [rootName] + names;
  }

  // ---------- Every node, by its position ----------

  /** A node's position: the index of a child at each level. */
  type Position = seq<nat>

  predicate IsPosition(n: Node, at: Position)
    decreases |at|
  {
    at == [] || (n.Dir? && at[0] < |n.kids| && IsPosition(n.kids[at[0]], at[1..]))
  }

  function NodeAt(n: Node, at: Position): Node
    requires IsPosition(n, at)
    decreases |at|
  {
    if at == [] then n else NodeAt(n.kids[at[0]], at[1..])
  }

  /** The names from below the root down to the node: the chain of parents getNodePath prints. */
  function NamesTo(n: Node, at: Position): seq<string>
    requires IsPosition(n, at)
    decreases |at|
  {
    if at == [] then [] else [n.kids[at[0]].name] + NamesTo(n.kids[at[0]], at[1..])
  }

  lemma {:induction false} LookupPosition(n: Node, at: Position)
    requires Good(n) && IsPosition(n, at)
    ensures ValidPath(NamesTo(n, at)) && Lookup(n, Keys(NamesTo(n, at))) == Some(NodeAt(n, at))
    decreases |at|
  {
    if at != [] {
      var kid := n.kids[at[0]];
      LookupPosition(kid, at[1..]);
      FindIs(n.kids, at[0]);
      var names := NamesTo(n, at);
      assert Keys(names)[1..] == Keys(NamesTo(kid, at[1..]));
      assert Keys(names)[0] == KeyOf(kid);
    }
  }

  /** The keys on the way to a node, the first one apart. */
  lemma KeysTo(n: Node, at: Position)
    requires IsPosition(n, at) && at != []
    ensures Keys(NamesTo(n, at)) == [KeyOf(n.kids[at[0]])] + Keys(NamesTo(n.kids[at[0]], at[1..]))
  {
    KeysConcat([n.kids[at[0]].name], NamesTo(n.kids[at[0]], at[1..]));
    assert Keys([n.kids[at[0]].name]) == [KeyOf(n.kids[at[0]])];
  }

  lemma {:induction false} PositionsDiffer(n: Node, a: Position, b: Position)
    requires Good(n) && IsPosition(n, a) && IsPosition(n, b)
    requires Keys(NamesTo(n, a)) == Keys(NamesTo(n, b))
    ensures a == b
    decreases |a|
  {
    NamesCount(n, a);
    NamesCount(n, b);
    assert |a| == |Keys(NamesTo(n, a))| == |b|;
    if a != [] {
      KeysTo(n, a);
      KeysTo(n, b);
      hide Keys, NamesTo;
      var ra, rb := Keys(NamesTo(n.kids[a[0]], a[1..])), Keys(NamesTo(n.kids[b[0]], b[1..]));
      HeadsAndTails(KeyOf(n.kids[a[0]]), ra, KeyOf(n.kids[b[0]]), rb);
      assert a[0] == b[0];
      PositionsDiffer(n.kids[a[0]], a[1..], b[1..]);
      assert a == [a[0]] + a[1..] && b == [b[0]] + b[1..];
    }
  }

  lemma HeadsAndTails(x: string, p: Key, y: string, q: Key)
    requires [x] + p == [y] + q
    ensures x == y && p == q
  {
    assert ([x] + p)[0] == x && ([x] + p)[1..] == p;
    assert ([y] + q)[0] == y && ([y] + q)[1..] == q;
  }

  lemma {:induction false} NamesCount(n: Node, a: Position)
    requires IsPosition(n, a)
    ensures |NamesTo(n, a)| == |a|
    decreases |a|
  {
    if a != [] {
      NamesCount(n.kids[a[0]], a[1..]);
    }
  }

  /**
   Printing and lookup are inverse on every well-formed tree: looking a node's printed path up gives that very node,
   and no other node prints to a path that is looked up alike.
   */
  lemma PrintedPathFindsNode(root: Node, at: Position, other: Position)
    requires Good(root) && root.name == "" && IsPosition(root, at) && IsPosition(root, other)
    ensures var printed := NodePath([root.name] + NamesTo(root, at));
            && Lookup(root, Keys(Split(printed))) == Some(NodeAt(root, at))
            && (Keys(Split(NodePath([root.name] + NamesTo(root, other)))) == Keys(Split(printed)) ==> other == at)
  {
    LookupPosition(root, at);
    LookupPosition(root, other);
    ParseNodePath(NamesTo(root, at));
    ParseNodePath(NamesTo(root, other));
    if Keys(NamesTo(root, other)) == Keys(NamesTo(root, at)) {
      PositionsDiffer(root, at, other);
    }
  }

  // ---------- Typed paths ----------

  /** What lookup finds has a position, whose names are the path's up to letter case. */
  lemma {:induction false} FoundHasPosition(n: Node, typed: FsPath) returns (at: Position)
    requires Lookup(n, Keys(typed)).Some?
    ensures IsPosition(n, at) && SamePath(typed, NamesTo(n, at))
    decreases |typed|
  {
    if typed == [] {
      at := [];
    } else {
      var i := Find(n.kids, Keys(typed)[0]);
      assert Keys(typed)[1..] == Keys(typed[1..]);
      SameTextIsSameUpper(typed[0], n.kids[i].name);
      hide SameText, Upper;
      var below := FoundHasPosition(n.kids[i], typed[1..]);
      at := [i] + below;
      assert at[1..] == below;
    }
  }

  /**
   Looking up a path, whatever the case of its letters, gives the node at the position with these names, and nothing when no
   position has them.
   */
  lemma TypedPathFindsNode(root: Node, typed: FsPath, at: Position)
    requires Good(root)
    ensures IsPosition(root, at) && SamePath(typed, NamesTo(root, at)) ==> Lookup(root, Keys(typed)) == Some(NodeAt(root, at))
    ensures Lookup(root, Keys(typed)).Some? ==> exists p :: IsPosition(root, p) && SamePath(typed, NamesTo(root, p))
  {
    hide SamePath, Good;
    if IsPosition(root, at) && SamePath(typed, NamesTo(root, at)) {
      LookupPosition(root, at);
      SamePathIsSameKeys(typed, NamesTo(root, at));
    }
    if Lookup(root, Keys(typed)).Some? {
      var p := FoundHasPosition(root, typed);
    }
  }

  // ---------- Spellings ----------

  /** One separator inside a is replaced or followed by another one. */
  predicate MiddleRespelled(a: string, b: string, x: string, sep: char, other: char, y: string) {
    IsSeparator(sep) && IsSeparator(other) && a == x + [sep] + y
    && (b == x + [other] + y || b == x + [sep] + ([other] + y))
  }

  /** A separator is put before or after a. */
  predicate EdgeRespelled(a: string, b: string, sep: char) {
    IsSeparator(sep) && (b == [sep] + a || b == a + [sep])
  }

  /** The texts differ in letter case, or in the kind, repetition, or leading or trailing position of one separator. */
  ghost predicate Respelled(a: string, b: string) {
    || SameText(a, b)
    || (exists x, sep, other, y :: MiddleRespelled(a, b, x, sep, other, y))
    || (exists sep :: EdgeRespelled(a, b, sep))
  }

  lemma MiddleSharesKey(a: string, b: string, x: string, sep: char, other: char, y: string)
    requires MiddleRespelled(a, b, x, sep, other, y)
    ensures Split(a) == Split(b)
  {
    SpellingOfSeparators(x, y, sep, other);
  }

  lemma EdgeSharesKey(a: string, b: string, sep: char)
    requires EdgeRespelled(a, b, sep)
    ensures Split(a) == Split(b)
  {
    EdgeSeparators(a, sep);
  }

  lemma RespelledSharesKey(a: string, b: string)
    requires Respelled(a, b)
    ensures Keys(Split(a)) == Keys(Split(b))
  {
    hide Split, MiddleRespelled, EdgeRespelled, SameText;
    if SameText(a, b) {
      SpellingOfLetters(a, b);
    } else if sep :| EdgeRespelled(a, b, sep) {
      EdgeSharesKey(a, b, sep);
    } else {
      var x, sep, other, y :| MiddleRespelled(a, b, x, sep, other, y);
      MiddleSharesKey(a, b, x, sep, other, y);
    }
  }

  /**
   However often a path is respelled, all its spellings share one cache entry, since the key order separates none of them,
   and all lead to the same tree node.
   */
  lemma {:induction false} SpellingsShareKeyAndNode(root: Node, at: Position, drive: int, texts: seq<string>)
    requires Good(root) && IsPosition(root, at) && texts != []
    requires forall i :: 0 <= i < |texts| - 1 ==> Respelled(texts[i], texts[i + 1]) || Respelled(texts[i + 1], texts[i])
    ensures var a, b := Split(texts[0]), Split(texts[|texts| - 1]);
            && !FileTableKeyLess(FileTableKey(drive, a), FileTableKey(drive, b))
            && !FileTableKeyLess(FileTableKey(drive, b), FileTableKey(drive, a))
            && (Keys(a) == Keys(NamesTo(root, at)) ==>
                  Lookup(root, Keys(a)) == Some(NodeAt(root, at)) == Lookup(root, Keys(b)))
  {
    SpellingsShareKey(texts);
    LookupPosition(root, at);
    SamePathIsSameKeys(Split(texts[0]), Split(texts[|texts| - 1]));
    hide Split, Keys, Respelled, SamePath, Lookup, NodeAt, NamesTo, Good;
    var x, y := FileTableKey(drive, Split(texts[0])), FileTableKey(drive, Split(texts[|texts| - 1]));
    KeyOrderIsLawful(x, y, x);
  }

  lemma {:induction false} SpellingsShareKey(texts: seq<string>)
    requires texts != []
    requires forall i :: 0 <= i < |texts| - 1 ==> Respelled(texts[i], texts[i + 1]) || Respelled(texts[i + 1], texts[i])
    ensures Keys(Split(texts[0])) == Keys(Split(texts[|texts| - 1]))
    decreases |texts|
  {
    var n := |texts|;
    if n > 1 {
      hide Respelled, Split;
      var front := texts[..n - 1];
      assert forall i :: 0 <= i < n - 1 ==> front[i] == texts[i];
      SpellingsShareKey(front);
      if Respelled(texts[n - 2], texts[n - 1]) {
        RespelledSharesKey(texts[n - 2], texts[n - 1]);
      } else {
        RespelledSharesKey(texts[n - 1], texts[n - 2]);
      }
    }
  }
}
