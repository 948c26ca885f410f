/**
 The nodes of the in-memory drive and the path map they stand for.

 A node is reached from the root by its key path, so the pointers of the original are key paths here and assigning
 through a pointer is `Put`.
 */
module Nodes {
  import opened Paths
  import opened Blocks

  datatype Option<+T> = None | Some(value: T)

  datatype Node =
    | File(name: string, blocks: seq<Block>)
    | Dir(name: string, kids: seq<Node>)

  /** What a path names. */
  datatype Item = Folder | Content(bytes: seq<byte>)

  type PathMap = imap<Key, Item>

  function ItemOf(n: Node): Item {
    if n.Dir? then Folder else Content(Flatten(n.blocks))
  }

  function KeyOf(n: Node): string {
    Upper(n.name)
  }

  /** The index of the first child with this key, or the number of children. */
  function Find(kids: seq<Node>, k: string): (i: nat)
    ensures i <= |kids|
    ensures i < |kids| ==> KeyOf(kids[i]) == k
    ensures forall j :: 0 <= j < i ==> KeyOf(kids[j]) != k
  {
    if kids == [] || KeyOf(kids[0]) == k then 0 else 1 + Find(kids[1..], k)
  }

  predicate HasKid(n: Node, k: string) {
    n.Dir? && Find(n.kids, k) < |n.kids|
  }

  function Kid(n: Node, k: string): Node
    requires HasKid(n, k)
  {
    n.kids[Find(n.kids, k)]
  }

  function Lookup(n: Node, p: Key): Option<Node>
    decreases |p|
  {
    if p == [] then Some(n)
    else if HasKid(n, p[0]) then Lookup(Kid(n, p[0]), p[1..])
    else None
  }

  ghost function Map(n: Node): PathMap {
    imap p: Key | Lookup(n, p).Some? :: ItemOf(Lookup(n, p).value)
  }

  // ---------- Operations on path maps ----------

  predicate Prefix(p: Key, q: Key) {
    |p| <= |q| && q[..|p|] == p
  }

  ghost function Sub(m: PathMap, p: Key): PathMap {
    imap r: Key | p + r in m :: m[p + r]
  }

  ghost function Without(m: PathMap, p: Key): PathMap {
    imap q: Key | q in m && !Prefix(p, q) :: m[q]
  }

  /** m with everything at and under p replaced by b. */
  ghost function Graft(m: PathMap, p: Key, b: PathMap): PathMap {
    imap q: Key | (if Prefix(p, q) then q[|p|..] in b else q in m) :: if Prefix(p, q) then b[q[|p|..]] else m[q]
  }

  ghost function Single(item: Item): PathMap {
    imap[[] := item]
  }

  /** The subtree at `from` is taken away and put at `to`. */
  ghost function Moved(m: PathMap, from: Key, to: Key): PathMap {
    Graft(Without(m, from), to, Sub(m, from))
  }

  // ---------- Path maps, one path at a time ----------

  ghost function ItemAt(m: PathMap, p: Key): Option<Item> {
    if p in m then Some(m[p]) else None
  }

  lemma SameMap(a: PathMap, b: PathMap)
    requires forall p :: ItemAt(a, p) == ItemAt(b, p)
    ensures a == b
  {
    forall p: Key
      ensures p in a <==> p in b
      ensures p in a ==> a[p] == b[p]
    {
      assert ItemAt(a, p) == ItemAt(b, p);
    }
  }

  lemma SubAt(m: PathMap, p: Key, r: Key)
    ensures ItemAt(Sub(m, p), r) == ItemAt(m, p + r)
  {
  }

  lemma WithoutAt(m: PathMap, p: Key, q: Key)
    ensures ItemAt(Without(m, p), q) == if Prefix(p, q) then None else ItemAt(m, q)
  {
  }

  lemma GraftAt(m: PathMap, p: Key, b: PathMap, q: Key)
    ensures ItemAt(Graft(m, p, b), q) == if Prefix(p, q) then ItemAt(b, q[|p|..]) else ItemAt(m, q)
  {
  }

  lemma MapAt(n: Node, p: Key)
    ensures ItemAt(Map(n), p) == if Lookup(n, p).Some? then Some(ItemOf(Lookup(n, p).value)) else None
  {
  }

  // ---------- Well-formed trees ----------

  ghost predicate DistinctKeys(kids: seq<Node>) {
    forall i, j :: 0 <= i < j < |kids| ==> KeyOf(kids[i]) != KeyOf(kids[j])
  }

  /** Sibling names differ ignoring case; every name below the root is non-empty and free of separators. */
  ghost predicate Good(n: Node) {
    n.Dir? ==>
      && DistinctKeys(n.kids)
      && forall i :: 0 <= i < |n.kids| ==> ValidName(n.kids[i].name) && Good(n.kids[i])
  }

  lemma FindIs(kids: seq<Node>, i: nat)
    requires i < |kids| && DistinctKeys(kids)
    ensures Find(kids, KeyOf(kids[i])) == i
  {
  }

  lemma {:induction false} LookupConcat(n: Node, p: Key, q: Key)
    requires Lookup(n, p).Some?
    ensures Lookup(n, p + q) == Lookup(Lookup(n, p).value, q)
    decreases |p|
  {
    if p == [] {
      assert p + q == q;
    } else {
      assert (p + q)[1..] == p[1..] + q;
      LookupConcat(Kid(n, p[0]), p[1..], q);
    }
  }

  /** Every ancestor of an existing path exists and is a directory. */
  lemma {:induction false} PrefixClosed(n: Node, p: Key, q: Key)
    requires Prefix(p, q) && p != q && q in Map(n)
    ensures p in Map(n) && Map(n)[p] == Folder
    decreases |p|
  {
    if p != [] {
      assert Lookup(Kid(n, q[0]), q[1..]).Some?;
      assert p[1..] == q[1..][..|p| - 1];
      PrefixClosed(Kid(n, p[0]), p[1..], q[1..]);
    }
  }

  lemma {:induction false} GoodLookup(n: Node, p: Key)
    requires Good(n) && Lookup(n, p).Some?
    ensures Good(Lookup(n, p).value)
    ensures p != [] ==> ValidName(Lookup(n, p).value.name) && KeyOf(Lookup(n, p).value) == p[|p| - 1]
    decreases |p|
  {
    if p != [] {
      GoodLookup(Kid(n, p[0]), p[1..]);
      if |p| > 1 {
        assert p[1..][|p| - 2] == p[|p| - 1];
      }
    }
  }

  lemma SubMap(n: Node, p: Key)
    requires Lookup(n, p).Some?
    ensures Sub(Map(n), p) == Map(Lookup(n, p).value)
  {
    hide Sub, Map, ItemAt;
    forall r: Key ensures ItemAt(Sub(Map(n), p), r) == ItemAt(Map(Lookup(n, p).value), r) {
      SubAt(Map(n), p, r);
      MapAt(n, p + r);
      MapAt(Lookup(n, p).value, r);
      LookupConcat(n, p, r);
    }
    SameMap(Sub(Map(n), p), Map(Lookup(n, p).value));
  }

  // ---------- Assigning through a pointer ----------

  /** The tree with the node at p replaced by m. */
  function Put(n: Node, p: Key, m: Node): Node
    requires Lookup(n, p).Some?
    decreases |p|
  {
    if p == [] then m
    else n.(kids := n.kids[Find(n.kids, p[0]) := Put(Kid(n, p[0]), p[1..], m)])
  }

  /** m may stand where a node at p stands: below the root it keeps the key. */
  predicate Fits(n: Node, p: Key, m: Node) {
    Lookup(n, p).Some? && (p == [] || KeyOf(m) == KeyOf(Lookup(n, p).value))
  }

  lemma {:induction false} PutName(n: Node, p: Key, m: Node)
    requires Fits(n, p, m) && p != []
    ensures Put(n, p, m).name == n.name && Put(n, p, m).Dir? && n.Dir?
  {
  }

  lemma FindAfterUpdate(kids: seq<Node>, i: nat, m: Node, k: string)
    requires i < |kids| && KeyOf(m) == KeyOf(kids[i])
    ensures Find(kids[i := m], k) == Find(kids, k)
  {
    assert forall j :: 0 <= j < |kids| ==> KeyOf(kids[i := m][j]) == KeyOf(kids[j]);
  }

  /** The child through which p passes is replaced by a child with the same key. */
  lemma PutKid(n: Node, p: Key, m: Node, k: string)
    requires Fits(n, p, m) && p != []
    ensures n.Dir? && Put(n, p, m).Dir? && |Put(n, p, m).kids| == |n.kids|
    ensures Find(Put(n, p, m).kids, k) == Find(n.kids, k)
    ensures HasKid(n, k) ==> Kid(Put(n, p, m), k) == if k == p[0] then Put(Kid(n, p[0]), p[1..], m) else Kid(n, k)
  {
    var kid := Kid(n, p[0]);
    if p[1..] != [] {
      PutName(kid, p[1..], m);
    }
    FindAfterUpdate(n.kids, Find(n.kids, p[0]), Put(kid, p[1..], m), k);
  }

  /** Below p the new node answers; beside p nothing changes. */
  lemma {:induction false} PutLookup(n: Node, p: Key, m: Node, q: Key)
    requires Fits(n, p, m)
    ensures Prefix(p, q) ==> Lookup(Put(n, p, m), q) == Lookup(m, q[|p|..])
    ensures !Prefix(p, q) && !Prefix(q, p) ==> Lookup(Put(n, p, m), q) == Lookup(n, q)
    ensures Prefix(q, p) ==> (Lookup(n, q).Some? && Fits(Lookup(n, q).value, p[|q|..], m) &&
                              Lookup(Put(n, p, m), q) == Some(Put(Lookup(n, q).value, p[|q|..], m)))
    decreases |p|
  {
    if p == [] {
      assert q[0..] == q;
    } else if q == [] {
      assert p[0..] == p;
    } else {
      PutKid(n, p, m, q[0]);
      if q[0] == p[0] {
        var kid := Kid(n, p[0]);
        assert Fits(kid, p[1..], m);
        PutLookup(kid, p[1..], m, q[1..]);
        assert Prefix(p[1..], q[1..]) <==> Prefix(p, q) by { PrefixTail(p, q); }
        assert Prefix(q[1..], p[1..]) <==> Prefix(q, p) by { PrefixTail(q, p); }
        if |p| <= |q| { assert q[1..][|p| - 1..] == q[|p|..]; }
        if |q| <= |p| { assert p[1..][|q| - 1..] == p[|q|..]; }
      } else {
        assert !Prefix(p, q) && !Prefix(q, p);
      }
    }
  }

  lemma PrefixTail(p: Key, q: Key)
    requires p != [] && q != [] && p[0] == q[0]
    ensures Prefix(p[1..], q[1..]) <==> Prefix(p, q)
  {
    if |p| <= |q| {
      assert q[1..][..|p| - 1] == q[..|p|][1..];
      assert p == [p[0]] + p[1..];
      assert q[..|p|] == [q[0]] + q[..|p|][1..];
    }
  }

  /** The ancestors of an assigned node stay directories. */
  lemma PutAncestor(n: Node, p: Key, m: Node, q: Key)
    requires Fits(n, p, m) && Prefix(q, p) && p != q
    ensures Lookup(n, q).Some? && Lookup(n, q).value.Dir? && Lookup(Put(n, p, m), q).Some?
    ensures Lookup(Put(n, p, m), q).value.Dir? && !Prefix(p, q)
  {
    PutLookup(n, p, m, q);
    assert p == q + p[|q|..];
    assert p[|q|..] != [];
    LookupConcat(n, q, p[|q|..]);
    PutName(Lookup(n, q).value, p[|q|..], m);
  }

  lemma PutMap(n: Node, p: Key, m: Node)
    requires Fits(n, p, m)
    ensures Map(Put(n, p, m)) == Graft(Map(n), p, Map(m))
  {
    hide Map, Graft, ItemAt, Put, Lookup;
    forall q: Key ensures ItemAt(Map(Put(n, p, m)), q) == ItemAt(Graft(Map(n), p, Map(m)), q) {
      MapAt(Put(n, p, m), q);
      MapAt(n, q);
      GraftAt(Map(n), p, Map(m), q);
      PutLookup(n, p, m, q);
      if Prefix(p, q) {
        MapAt(m, q[|p|..]);
      } else if Prefix(q, p) {
        assert p != q by { assert Prefix(q, q); }
        PutAncestor(n, p, m, q);
      }
    }
    SameMap(Map(Put(n, p, m)), Graft(Map(n), p, Map(m)));
  }

  lemma {:induction false} PutGood(n: Node, p: Key, m: Node)
    requires Good(n) && Fits(n, p, m) && Good(m) && (p != [] ==> ValidName(m.name))
    ensures Good(Put(n, p, m))
    decreases |p|
  {
    if p != [] {
      var i := Find(n.kids, p[0]);
      PutGood(n.kids[i], p[1..], m);
      if p[1..] != [] {
        PutName(n.kids[i], p[1..], m);
      }
      var kids := Put(n, p, m).kids;
      assert forall j :: 0 <= j < |kids| && j != i ==> kids[j] == n.kids[j];
      assert KeyOf(kids[i]) == KeyOf(n.kids[i]);
    }
  }

  // ---------- Composing assignments ----------

  lemma {:induction false} PutPut(n: Node, p: Key, a: Node, b: Node)
    requires Fits(n, p, a) && Fits(n, p, b)
    ensures Fits(Put(n, p, a), p, b) && Put(Put(n, p, a), p, b) == Put(n, p, b)
    decreases |p|
  {
    if p != [] {
      PutKid(n, p, a, p[0]);
      PutPut(Kid(n, p[0]), p[1..], a, b);
      PutLookup(n, p, a, p);
      var i := Find(n.kids, p[0]);
      assert Find(Put(n, p, a).kids, p[0]) == i;
      var x, y := Put(n.kids[i], p[1..], a), Put(n.kids[i], p[1..], b);
      assert n.kids[i := x][i := y] == n.kids[i := y];
    }
  }

  lemma {:induction false} PutSame(n: Node, p: Key)
    requires Lookup(n, p).Some?
    ensures Put(n, p, Lookup(n, p).value) == n
    decreases |p|
  {
    if p != [] {
      PutSame(Kid(n, p[0]), p[1..]);
    }
  }

  /** Assigning inside a subtree and then assigning the subtree is assigning through the whole path. */
  lemma {:induction false} PutInner(n: Node, p: Key, r: Key, m: Node)
    requires Lookup(n, p).Some? && Fits(Lookup(n, p).value, r, m)
    requires p != [] && r == [] ==> KeyOf(m) == KeyOf(Lookup(n, p).value)
    ensures Fits(n, p + r, m)
    ensures Put(n, p + r, m) == Put(n, p, Put(Lookup(n, p).value, r, m))
    decreases |p|
  {
    LookupConcat(n, p, r);
    if p == [] {
      assert p + r == r;
    } else {
      assert (p + r)[1..] == p[1..] + r;
      PutInner(Kid(n, p[0]), p[1..], r, m);
    }
  }

  predicate Apart(p: Key, q: Key) {
    !Prefix(p, q) && !Prefix(q, p)
  }

  lemma {:induction false} PutCommute(n: Node, p: Key, a: Node, q: Key, b: Node)
    requires Fits(n, p, a) && Fits(n, q, b) && Apart(p, q)
    ensures Fits(Put(n, p, a), q, b) && Fits(Put(n, q, b), p, a)
    ensures Put(Put(n, p, a), q, b) == Put(Put(n, q, b), p, a)
    decreases |p|
  {
    StillFits(n, p, a, q, b);
    StillFits(n, q, b, p, a);
    if p[0] == q[0] {
      PutKid(n, p, a, q[0]);
      PutKid(n, q, b, p[0]);
      var i := Find(n.kids, p[0]);
      var x, y := Put(n.kids[i], p[1..], a), Put(n.kids[i], q[1..], b);
      PrefixTail(p, q);
      PrefixTail(q, p);
      PutCommute(n.kids[i], p[1..], a, q[1..], b);
      var z := Put(x, q[1..], b);
      assert n.kids[i := x][i := z] == n.kids[i := y][i := z];
    } else {
      PutBeside(n, p, a, q, b);
    }
  }

  /** An assignment elsewhere does not get in the way of another one. */
  lemma StillFits(n: Node, p: Key, a: Node, q: Key, b: Node)
    requires Fits(n, p, a) && Fits(n, q, b) && Apart(p, q)
    ensures p != [] && q != [] && Fits(Put(n, p, a), q, b)
  {
    PutLookup(n, p, a, q);
    hide Put, Lookup;
  }

  /** Assignments below different children. */
  lemma PutBeside(n: Node, p: Key, a: Node, q: Key, b: Node)
    requires Fits(n, p, a) && Fits(n, q, b) && p != [] && q != [] && p[0] != q[0]
    requires Fits(Put(n, p, a), q, b) && Fits(Put(n, q, b), p, a)
    ensures Put(Put(n, p, a), q, b) == Put(Put(n, q, b), p, a)
  {
    PutKid(n, p, a, q[0]);
    PutKid(n, q, b, p[0]);
    var i, j := Find(n.kids, p[0]), Find(n.kids, q[0]);
    var x, y := Put(n.kids[i], p[1..], a), Put(n.kids[j], q[1..], b);
    assert n.kids[i := x][j := y] == n.kids[j := y][i := x];
  }
}
