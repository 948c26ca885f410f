/**
 What adding, removing and renaming one child of a directory does to the path map.
 */
module Children {
  import opened Paths
  import opened Blocks
  import opened Nodes

  function WithKid(d: Node, x: Node): Node
    requires d.Dir?
  {
    d.(kids := d.kids + [x])
  }

  function WithoutKid(d: Node, i: nat): Node
    requires d.Dir? && i < |d.kids|
  {
    d.(kids := d.kids[..i] + d.kids[i + 1..])
  }

  function Renamed(x: Node, name: string): Node {
    x.(name := name)
  }

  function WithRenamedKid(d: Node, i: nat, name: string): Node
    requires d.Dir? && i < |d.kids|
  {
    d.(kids := d.kids[i := Renamed(d.kids[i], name)])
  }

  ghost const NOTHING: PathMap := imap[]

  /** The path map under one child, empty when there is no such child. */
  ghost function KidMap(d: Node, k: string): PathMap {
    if HasKid(d, k) then Map(Kid(d, k)) else NOTHING
  }

  lemma MapOfKids(d: Node, p: Key)
    requires d.Dir?
    ensures [] in Map(d) && Map(d)[[]] == Folder
    ensures p != [] ==> (p in Map(d) <==> p[1..] in KidMap(d, p[0]))
    ensures p != [] && p in Map(d) ==> Map(d)[p] == KidMap(d, p[0])[p[1..]]
  {
  }

  /** Directories with the same children maps have the same map. */
  lemma MapByKids(a: Node, b: Node)
    requires a.Dir? && b.Dir?
    requires forall k :: KidMap(a, k) == KidMap(b, k)
    ensures Map(a) == Map(b)
  {
    forall p: Key
      ensures p in Map(a) <==> p in Map(b)
      ensures p in Map(a) ==> Map(a)[p] == Map(b)[p]
    {
      MapOfKids(a, p);
      MapOfKids(b, p);
      if p != [] {
        assert KidMap(a, p[0]) == KidMap(b, p[0]);
      }
    }
  }

  lemma KidMapIsSub(d: Node, k: string)
    requires d.Dir?
    ensures KidMap(d, k) == Sub(Map(d), [k])
  {
    forall r: Key
      ensures r in KidMap(d, k) <==> [k] + r in Map(d)
      ensures r in KidMap(d, k) ==> KidMap(d, k)[r] == Map(d)[[k] + r]
    {
      MapOfKids(d, [k] + r);
      assert ([k] + r)[1..] == r;
    }
  }

  /** A path map with a folder at its root and d's children maps below is d's map. */
  lemma MapFromKids(d: Node, m: PathMap)
    requires d.Dir? && [] in m && m[[]] == Folder
    requires forall k :: Sub(m, [k]) == KidMap(d, k)
    ensures Map(d) == m
  {
    forall p: Key
      ensures p in Map(d) <==> p in m
      ensures p in Map(d) ==> Map(d)[p] == m[p]
    {
      MapOfKids(d, p);
      if p != [] {
        assert Sub(m, [p[0]]) == KidMap(d, p[0]);
        assert p == [p[0]] + p[1..];
      }
    }
  }

  // ---------- One child ----------

  lemma FindIsAt(kids: seq<Node>, f: nat, k: string)
    requires f <= |kids| && (f < |kids| ==> KeyOf(kids[f]) == k)
    requires forall j :: 0 <= j < f ==> KeyOf(kids[j]) != k
    ensures Find(kids, k) == f
  {
  }

  lemma AddedKid(d: Node, x: Node, k: string)
    requires d.Dir? && !HasKid(d, KeyOf(x))
    ensures HasKid(WithKid(d, x), k) <==> k == KeyOf(x) || HasKid(d, k)
    ensures HasKid(WithKid(d, x), k) ==> Kid(WithKid(d, x), k) == if k == KeyOf(x) then x else Kid(d, k)
    ensures KidMap(WithKid(d, x), k) == if k == KeyOf(x) then Map(x) else KidMap(d, k)
  {
    hide Map;
    var kids := WithKid(d, x).kids;
    assert forall j :: 0 <= j < |d.kids| ==> kids[j] == d.kids[j];
    FindIsAt(kids, if HasKid(d, k) || k == KeyOf(x) then Find(d.kids, k) else |kids|, k);
  }

  lemma AddedKidGood(d: Node, x: Node)
    requires Good(d) && d.Dir? && !HasKid(d, KeyOf(x)) && Good(x) && ValidName(x.name)
    ensures Good(WithKid(d, x))
  {
  }

  lemma RemovedKid(d: Node, i: nat, k: string)
    requires d.Dir? && i < |d.kids| && DistinctKeys(d.kids)
    ensures HasKid(WithoutKid(d, i), k) <==> k != KeyOf(d.kids[i]) && HasKid(d, k)
    ensures HasKid(WithoutKid(d, i), k) ==> Kid(WithoutKid(d, i), k) == Kid(d, k)
    ensures KidMap(WithoutKid(d, i), k) == if k == KeyOf(d.kids[i]) then NOTHING else KidMap(d, k)
  {
    RemovedFind(d.kids, i, k);
    hide Map, Find;
    var kids, f := d.kids, Find(d.kids, k);
    assert f < i ==> (kids[..i] + kids[i + 1..])[f] == kids[f];
    assert i < f < |kids| ==> (kids[..i] + kids[i + 1..])[f - 1] == kids[f];
  }

  /** Where a child is found after the i-th one was removed. */
  lemma RemovedFind(kids: seq<Node>, i: nat, k: string)
    requires i < |kids| && DistinctKeys(kids)
    ensures var f := Find(kids, k);
            Find(kids[..i] + kids[i + 1..], k) == if f == i || f == |kids| then |kids| - 1 else if f < i then f else f - 1
    ensures Find(kids, k) == i <==> k == KeyOf(kids[i])
  {
    hide Find, KeyOf;
    FindIs(kids, i);
    assert forall j :: 0 <= j < |kids| && j != i ==> KeyOf(kids[j]) != KeyOf(kids[i]);
    hide DistinctKeys;
    FindWithout(kids, kids[..i] + kids[i + 1..], i, k);
  }

  lemma FindWithout(kids: seq<Node>, rest: seq<Node>, i: nat, k: string)
    requires i < |kids| == |rest| + 1
    requires forall j :: 0 <= j < |kids| && j != i ==> KeyOf(kids[j]) != KeyOf(kids[i])
    requires forall j :: 0 <= j < |rest| ==> rest[j] == kids[if j < i then j else j + 1]
    ensures var f := Find(kids, k);
            Find(rest, k) == if f == i || f == |kids| then |rest| else if f < i then f else f - 1
  {
    hide Find, KeyOf;
    var f := Find(kids, k);
    var g := if f == i || f == |kids| then |rest| else if f < i then f else f - 1;
    forall j | 0 <= j < g
      ensures KeyOf(rest[j]) != k
    {
      assert KeyOf(rest[j]) == KeyOf(kids[if j < i then j else j + 1]);
    }
    FindIsAt(rest, g, k);
  }

  lemma {:induction false} RemovedKidGood(d: Node, i: nat)
    requires Good(d) && d.Dir? && i < |d.kids|
    ensures Good(WithoutKid(d, i))
  {
    hide KeyOf, ValidName;
    var kids := WithoutKid(d, i).kids;
    forall j | 0 <= j < |kids|
      ensures kids[j] == d.kids[if j < i then j else j + 1] && ValidName(kids[j].name) && Good(kids[j])
    {
      assert Good(d.kids[if j < i then j else j + 1]);
    }
    assert DistinctKeys(kids);
  }

  lemma RenamedMap(x: Node, name: string)
    ensures Map(Renamed(x, name)) == Map(x)
  {
    forall p: Key
      ensures p != [] ==> Lookup(Renamed(x, name), p) == Lookup(x, p)
      ensures ItemOf(Renamed(x, name)) == ItemOf(x)
    {
    }
  }

  lemma RenamedKid(d: Node, i: nat, name: string, k: string)
    requires d.Dir? && i < |d.kids| && DistinctKeys(d.kids) && !HasKid(d, Upper(name))
    ensures KidMap(WithRenamedKid(d, i, name), k) ==
            if k == Upper(name) then Map(d.kids[i]) else if k == KeyOf(d.kids[i]) then NOTHING else KidMap(d, k)
  {
    RenamedMap(d.kids[i], name);
    hide Map;
    var kids := WithRenamedKid(d, i, name).kids;
    assert forall j :: 0 <= j < |kids| && j != i ==> kids[j] == d.kids[j];
    assert KeyOf(d.kids[i]) != Upper(name);
    var f := Find(d.kids, k);
    FindIsAt(kids, if k == Upper(name) then i else if f == i then |kids| else f, k);
  }

  lemma RenamedKidGood(d: Node, i: nat, name: string)
    requires Good(d) && d.Dir? && i < |d.kids| && !HasKid(d, Upper(name)) && ValidName(name)
    ensures Good(WithRenamedKid(d, i, name))
  {
    var x := d.kids[i];
    assert Good(Renamed(x, name));
    var kids := WithRenamedKid(d, i, name).kids;
    assert forall j :: 0 <= j < |kids| && j != i ==> kids[j] == d.kids[j];
    assert forall j :: 0 <= j < |d.kids| ==> KeyOf(d.kids[j]) != Upper(name);
  }

  // ---------- Path map algebra ----------

  lemma PrefixConcat(p: Key, r: Key, q: Key)
    ensures Prefix(p + r, q) <==> Prefix(p, q) && Prefix(r, q[|p|..])
    ensures Prefix(p + r, q) ==> q[|p|..][|r|..] == q[|p + r|..]
    ensures Prefix(p, q) ==> p + q[|p|..] == q
  {
    if Prefix(p + r, q) {
      assert q[..|p + r|][..|p|] == q[..|p|];
      assert q[..|p + r|][|p|..] == q[|p|..][..|r|];
    }
    if Prefix(p, q) && Prefix(r, q[|p|..]) {
      assert q[..|p + r|] == q[..|p|] + q[|p|..][..|r|];
    }
  }

  lemma GraftInner(m: PathMap, p: Key, r: Key, b: PathMap)
    ensures Graft(m, p, Graft(Sub(m, p), r, b)) == Graft(m, p + r, b)
  {
    var a, c := Graft(m, p, Graft(Sub(m, p), r, b)), Graft(m, p + r, b);
    hide Graft, Sub, ItemAt, Prefix;
    forall q: Key
      ensures ItemAt(a, q) == ItemAt(c, q)
    {
      GraftInnerAt(m, p, r, b, q);
    }
    SameMap(a, c);
  }

  lemma GraftInnerAt(m: PathMap, p: Key, r: Key, b: PathMap, q: Key)
    ensures ItemAt(Graft(m, p, Graft(Sub(m, p), r, b)), q) == ItemAt(Graft(m, p + r, b), q)
  {
    hide Graft, Sub, ItemAt;
    PrefixConcat(p, r, q);
    GraftAt(m, p, Graft(Sub(m, p), r, b), q);
    GraftAt(m, p + r, b, q);
    if Prefix(p, q) {
      GraftAt(Sub(m, p), r, b, q[|p|..]);
      SubAt(m, p, q[|p|..]);
      assert p + q[|p|..] == q;
    }
  }

  lemma WithoutInner(m: PathMap, p: Key, r: Key)
    ensures Graft(m, p, Without(Sub(m, p), r)) == Without(m, p + r)
  {
    forall q: Key
      ensures q in Graft(m, p, Without(Sub(m, p), r)) <==> q in Without(m, p + r)
      ensures q in Without(m, p + r) ==> Graft(m, p, Without(Sub(m, p), r))[q] == Without(m, p + r)[q]
    {
      PrefixConcat(p, r, q);
    }
  }

  lemma MovedInner(m: PathMap, p: Key, from: Key, to: Key)
    ensures Graft(m, p, Moved(Sub(m, p), from, to)) == Moved(m, p + from, p + to)
  {
    var gone := Without(m, p + from);
    WithoutInner(m, p, from);
    assert Sub(gone, p) == Without(Sub(m, p), from) by {
      forall r: Key ensures Prefix(p + from, p + r) <==> Prefix(from, r) {
        PrefixConcat(p, from, p + r);
        assert (p + r)[|p|..] == r;
      }
    }
    assert Sub(Sub(m, p), from) == Sub(m, p + from) by {
      forall r: Key ensures p + (from + r) == p + from + r {
      }
    }
    GraftInner(gone, p, to, Sub(m, p + from));
    GraftOverGraft(m, p, Without(Sub(m, p), from), Moved(Sub(m, p), from, to));
  }

  lemma GraftOverGraft(m: PathMap, p: Key, a: PathMap, b: PathMap)
    ensures Graft(Graft(m, p, a), p, b) == Graft(m, p, b)
  {
  }

  lemma SubOfGraft(m: PathMap, k0: string, b: PathMap, k: string)
    ensures Sub(Graft(m, [k0], b), [k]) == if k == k0 then b else Sub(m, [k])
  {
    forall r: Key
      ensures Prefix([k0], [k] + r) <==> k == k0
      ensures ([k] + r)[1..] == r
    {
    }
  }

  lemma SubOfWithout(m: PathMap, k0: string, k: string)
    ensures Sub(Without(m, [k0]), [k]) == if k == k0 then NOTHING else Sub(m, [k])
  {
    forall r: Key ensures Prefix([k0], [k] + r) <==> k == k0 {
    }
  }

  // ---------- The same at any depth ----------

  lemma AddAt(n: Node, p: Key, x: Node)
    requires Lookup(n, p).Some? && Lookup(n, p).value.Dir? && !HasKid(Lookup(n, p).value, KeyOf(x))
    ensures Fits(n, p, WithKid(Lookup(n, p).value, x))
    ensures Map(Put(n, p, WithKid(Lookup(n, p).value, x))) == Graft(Map(n), p + [KeyOf(x)], Map(x))
  {
    var d := Lookup(n, p).value;
    var e, m := WithKid(d, x), Graft(Map(d), [KeyOf(x)], Map(x));
    PutMap(n, p, e);
    SubMap(n, p);
    MapOfKids(d, []);
    assert [] in m && m[[]] == Folder;
    forall k ensures Sub(m, [k]) == KidMap(e, k) {
      AddedKid(d, x, k);
      KidMapIsSub(d, k);
      SubOfGraft(Map(d), KeyOf(x), Map(x), k);
    }
    hide *;
    MapFromKids(e, m);
    GraftInner(Map(n), p, [KeyOf(x)], Map(x));
  }

  lemma RemoveAt(n: Node, p: Key, i: nat)
    requires Good(n) && Lookup(n, p).Some? && Lookup(n, p).value.Dir? && i < |Lookup(n, p).value.kids|
    ensures Fits(n, p, WithoutKid(Lookup(n, p).value, i))
    ensures Map(Put(n, p, WithoutKid(Lookup(n, p).value, i))) ==
            Without(Map(n), p + [KeyOf(Lookup(n, p).value.kids[i])])
  {
    var d := Lookup(n, p).value;
    var e, k0 := WithoutKid(d, i), KeyOf(d.kids[i]);
    var m := Without(Map(d), [k0]);
    GoodLookup(n, p);
    PutMap(n, p, e);
    SubMap(n, p);
    MapOfKids(d, []);
    assert [] in m && m[[]] == Folder;
    forall k ensures Sub(m, [k]) == KidMap(e, k) {
      RemovedKid(d, i, k);
      KidMapIsSub(d, k);
      SubOfWithout(Map(d), k0, k);
    }
    hide *;
    MapFromKids(e, m);
    WithoutInner(Map(n), p, [k0]);
  }

  lemma RenameAt(n: Node, p: Key, i: nat, name: string)
    requires Good(n) && Lookup(n, p).Some? && Lookup(n, p).value.Dir? && i < |Lookup(n, p).value.kids|
    requires !HasKid(Lookup(n, p).value, Upper(name))
    ensures Fits(n, p, WithRenamedKid(Lookup(n, p).value, i, name))
    ensures Map(Put(n, p, WithRenamedKid(Lookup(n, p).value, i, name))) ==
            Moved(Map(n), p + [KeyOf(Lookup(n, p).value.kids[i])], p + [Upper(name)])
  {
    var d := Lookup(n, p).value;
    var e, k0, k1 := WithRenamedKid(d, i, name), KeyOf(d.kids[i]), Upper(name);
    var m := Moved(Map(d), [k0], [k1]);
    GoodLookup(n, p);
    PutMap(n, p, e);
    SubMap(n, p);
    MapOfKids(d, []);
    assert [] in m && m[[]] == Folder;
    FindIs(d.kids, i);
    KidMapIsSub(d, k0);
    forall k ensures Sub(m, [k]) == KidMap(e, k) {
      RenamedKid(d, i, name, k);
      KidMapIsSub(d, k);
      SubOfWithout(Map(d), k0, k);
      SubOfGraft(Without(Map(d), [k0]), k1, Sub(Map(d), [k0]), k);
    }
    hide *;
    MapFromKids(e, m);
    MovedInner(Map(n), p, [k0], [k1]);
  }
}
