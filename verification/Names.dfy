/**
 The names nodes are stored under.  Lookups go by upper-cased keys, so path maps do not tell in which case the letters of a
 name were stored; these laws do.
 */
module Names {
  import opened Paths
  import opened Nodes
  import opened Children

  /** The name of the node at p, as it was stored. */
  ghost function NameAt(n: Node, p: Key): Option<string> {
    if Lookup(n, p).Some? then Some(Lookup(n, p).value.name) else None
  }

  /** Every node there is after has the name it had before. */
  ghost predicate NamesKept(before: Node, after: Node) {
    forall p :: Lookup(after, p).Some? ==> NameAt(after, p) == NameAt(before, p)
  }

  /** So it is for all but the node at `at`, which has this name. */
  ghost predicate NamesAdded(before: Node, after: Node, at: Key, name: string) {
    forall p :: Lookup(after, p).Some? ==> NameAt(after, p) == if p == at then Some(name) else NameAt(before, p)
  }

  /** The node at `to` has this name, everything below it the name it had below `from`, everything else its own. */
  ghost predicate NamesMoved(before: Node, after: Node, from: Key, to: Key, name: string) {
    forall p :: Lookup(after, p).Some? ==>
      NameAt(after, p) == if p == to then Some(name) else if Prefix(to, p) then NameAt(before, from + p[|to|..])
                          else NameAt(before, p)
  }

  lemma NamesKeptTrans(a: Node, b: Node, c: Node)
    requires NamesKept(a, b) && NamesKept(b, c)
    ensures NamesKept(a, c)
  {
    forall p | Lookup(c, p).Some? ensures NameAt(c, p) == NameAt(a, p) {
      assert Lookup(b, p).Some?;
    }
  }

  lemma MovedThenKept(a: Node, b: Node, c: Node, from: Key, to: Key, name: string)
    requires NamesMoved(a, b, from, to, name) && NamesKept(b, c)
    ensures NamesMoved(a, c, from, to, name)
  {
    forall p | Lookup(c, p).Some?
      ensures NameAt(c, p) == if p == to then Some(name) else if Prefix(to, p) then NameAt(a, from + p[|to|..])
                              else NameAt(a, p)
    {
      assert NameAt(c, p).Some? && Lookup(b, p).Some?;
    }
  }

  lemma KeptThenMoved(a: Node, b: Node, c: Node, from: Key, to: Key, name: string)
    requires NamesKept(a, b) && NamesMoved(b, c, from, to, name)
    ensures NamesMoved(a, c, from, to, name)
  {
    forall p | Lookup(c, p).Some?
      ensures NameAt(c, p) == if p == to then Some(name) else if Prefix(to, p) then NameAt(a, from + p[|to|..])
                              else NameAt(a, p)
    {
      var q := if Prefix(to, p) then from + p[|to|..] else p;
      assert p != to ==> NameAt(b, q) == NameAt(c, p) && Lookup(b, q).Some?;
    }
  }

  lemma AllNamesKept(n: Node)
    ensures NamesKept(n, n)
  {
  }

  lemma AddedThenMoved(a: Node, b: Node, c: Node, from: Key, to: Key, name: string)
    requires NamesAdded(a, b, to, name) && NamesMoved(b, c, from, to, name) && Apart(from, to)
    ensures NamesMoved(a, c, from, to, name)
  {
    forall p | Lookup(c, p).Some?
      ensures NameAt(c, p) == if p == to then Some(name) else if Prefix(to, p) then NameAt(a, from + p[|to|..])
                              else NameAt(a, p)
    {
      var q := if Prefix(to, p) then from + p[|to|..] else p;
      assert Prefix(to, p) ==> Prefix(from, q);
      if p != to {
        assert q == to ==> Prefix(from, to);
        assert NameAt(b, q) == NameAt(c, p) && Lookup(b, q).Some?;
      }
    }
  }

  /** A new node with nothing below it. */
  lemma AddedIsMoved(a: Node, b: Node, from: Key, to: Key, name: string)
    requires NamesAdded(a, b, to, name)
    requires forall p :: Prefix(to, p) && p != to ==> Lookup(b, p).None?
    ensures NamesMoved(a, b, from, to, name)
  {
  }

  lemma PutNameAt(n: Node, p: Key, m: Node, q: Key)
    requires Fits(n, p, m) && Lookup(Put(n, p, m), q).Some?
    ensures NameAt(Put(n, p, m), q) == if Prefix(p, q) then NameAt(m, q[|p|..]) else NameAt(n, q)
  {
    PutLookup(n, p, m, q);
    if Prefix(q, p) && !Prefix(p, q) {
      PathOfPrefix(q, p);
      assert p[|q|..] == [] ==> p == q;
      PutName(Lookup(n, q).value, p[|q|..], m);
    }
  }

  lemma PathOfPrefix(p: Key, q: Key)
    requires Prefix(p, q)
    ensures p + q[|p|..] == q
  {
  }

  lemma NameBelow(n: Node, p: Key, r: Key)
    requires Lookup(n, p).Some?
    ensures NameAt(n, p + r) == NameAt(Lookup(n, p).value, r)
  {
    LookupConcat(n, p, r);
  }

  /** A new child without children of its own. */
  lemma AddedNames(n: Node, p: Key, x: Node)
    requires Lookup(n, p).Some? && Lookup(n, p).value.Dir? && !HasKid(Lookup(n, p).value, KeyOf(x))
    requires x.File? || x.kids == []
    ensures Fits(n, p, WithKid(Lookup(n, p).value, x))
    ensures NamesAdded(n, Put(n, p, WithKid(Lookup(n, p).value, x)), p + [KeyOf(x)], x.name)
  {
    var d := Lookup(n, p).value;
    var n' := Put(n, p, WithKid(d, x));
    hide Put, WithKid, KeyOf, HasKid;
    forall q | Lookup(n', q).Some?
      ensures NameAt(n', q) == if q == p + [KeyOf(x)] then Some(x.name) else NameAt(n, q)
    {
      PutNameAt(n, p, WithKid(d, x), q);
      if Prefix(p, q) {
        PathOfPrefix(p, q);
        PutLookup(n, p, WithKid(d, x), q);
        AddedNameBelow(n, p, x, q[|p|..]);
      }
    }
  }

  /** The node at r below the directory at p, which has a new child. */
  lemma AddedNameBelow(n: Node, p: Key, x: Node, r: Key)
    requires Lookup(n, p).Some? && Lookup(n, p).value.Dir? && !HasKid(Lookup(n, p).value, KeyOf(x))
    requires x.File? || x.kids == []
    requires Lookup(WithKid(Lookup(n, p).value, x), r).Some?
    ensures NameAt(WithKid(Lookup(n, p).value, x), r) == if p + r == p + [KeyOf(x)] then Some(x.name) else NameAt(n, p + r)
  {
    var d := Lookup(n, p).value;
    NameBelow(n, p, r);
    assert (p + r)[|p|..] == r && (p + [KeyOf(x)])[|p|..] == [KeyOf(x)];
    if r != [] {
      AddedKid(d, x, r[0]);
      assert r == [r[0]] + r[1..];
    }
  }

  lemma RemovedNames(n: Node, p: Key, i: nat)
    requires Lookup(n, p).Some? && Lookup(n, p).value.Dir? && i < |Lookup(n, p).value.kids|
    requires DistinctKeys(Lookup(n, p).value.kids)
    ensures Fits(n, p, WithoutKid(Lookup(n, p).value, i))
    ensures NamesKept(n, Put(n, p, WithoutKid(Lookup(n, p).value, i)))
  {
    var d := Lookup(n, p).value;
    var n' := Put(n, p, WithoutKid(d, i));
    forall q | Lookup(n', q).Some? ensures NameAt(n', q) == NameAt(n, q) {
      PutNameAt(n, p, WithoutKid(d, i), q);
      if Prefix(p, q) {
        var r := q[|p|..];
        PathOfPrefix(p, q);
        NameBelow(n, p, r);
        PutLookup(n, p, WithoutKid(d, i), q);
        if r != [] {
          RemovedKid(d, i, r[0]);
        }
      }
    }
  }

  lemma RenamedNames(n: Node, p: Key, i: nat, name: string)
    requires Lookup(n, p).Some? && Lookup(n, p).value.Dir? && i < |Lookup(n, p).value.kids|
    requires DistinctKeys(Lookup(n, p).value.kids) && !HasKid(Lookup(n, p).value, Upper(name))
    ensures Fits(n, p, WithRenamedKid(Lookup(n, p).value, i, name))
    ensures NamesMoved(n, Put(n, p, WithRenamedKid(Lookup(n, p).value, i, name)),
                       p + [KeyOf(Lookup(n, p).value.kids[i])], p + [Upper(name)], name)
  {
    var d := Lookup(n, p).value;
    var e, from, to := WithRenamedKid(d, i, name), p + [KeyOf(d.kids[i])], p + [Upper(name)];
    var n' := Put(n, p, e);
    hide Put, WithRenamedKid, DistinctKeys, HasKid, KeyOf, Upper, Prefix;
    forall q | Lookup(n', q).Some?
      ensures NameAt(n', q) == if q == to then Some(name) else if Prefix(to, q) then NameAt(n, from + q[|to|..])
                               else NameAt(n, q)
    {
      PutNameAt(n, p, e, q);
      PrefixConcat(p, [Upper(name)], q);
      if Prefix(p, q) {
        PathOfPrefix(p, q);
        PutLookup(n, p, e, q);
        RenamedNameBelow(n, p, i, name, q[|p|..]);
      }
    }
  }

  /** The node at r below the directory at p, one child of which is renamed. */
  lemma RenamedNameBelow(n: Node, p: Key, i: nat, name: string, r: Key)
    requires Lookup(n, p).Some? && Lookup(n, p).value.Dir? && i < |Lookup(n, p).value.kids|
    requires DistinctKeys(Lookup(n, p).value.kids) && !HasKid(Lookup(n, p).value, Upper(name))
    requires Lookup(WithRenamedKid(Lookup(n, p).value, i, name), r).Some?
    ensures var q, from, to := p + r, p + [KeyOf(Lookup(n, p).value.kids[i])], p + [Upper(name)];
            && Prefix(to, q) == (r != [] && r[0] == Upper(name))
            && (q == to <==> r == [Upper(name)])
            && NameAt(WithRenamedKid(Lookup(n, p).value, i, name), r) ==
               if q == to then Some(name) else if Prefix(to, q) then NameAt(n, from + q[|to|..]) else NameAt(n, q)
  {
    var d := Lookup(n, p).value;
    var k := KeyOf(d.kids[i]);
    NameBelow(n, p, r);
    if r != [] {
      RenamedKidName(d, i, name, r);
      hide WithRenamedKid, DistinctKeys, HasKid, KeyOf, Upper, NameAt, Lookup;
      BelowChild(p, r, Upper(name));
      if r[0] == Upper(name) {
        BelowChild(p, r, k);
        NameBelow(n, p, [k] + r[1..]);
      }
    }
  }

  lemma BelowChild(p: Key, r: Key, k: string)
    requires r != []
    ensures Prefix(p + [k], p + r) == (r[0] == k) && (p + r == p + [k] <==> r == [k])
    ensures (p + r)[|p| + 1..] == r[1..] && p + [k] + r[1..] == p + ([k] + r[1..])
  {
    var q := p + r;
    assert q[|p|] == r[0] && q[..|p| + 1] == p + [r[0]];
    assert (p + [r[0]])[|p|] == r[0] && (p + [k])[|p|] == k;
    if q == p + [k] {
      assert q[|p|..] == r && (p + [k])[|p|..] == [k];
    }
  }

  lemma RenamedKidName(d: Node, i: nat, name: string, r: Key)
    requires d.Dir? && i < |d.kids| && DistinctKeys(d.kids) && !HasKid(d, Upper(name))
    requires r != [] && Lookup(WithRenamedKid(d, i, name), r).Some?
    ensures NameAt(WithRenamedKid(d, i, name), r) ==
            if r[0] != Upper(name) then NameAt(d, r) else if r[1..] == [] then Some(name)
            else NameAt(d, [KeyOf(d.kids[i])] + r[1..])
  {
    var e, k := WithRenamedKid(d, i, name), r[0];
    var kids := e.kids;
    assert r == [k] + r[1..];
    assert forall j :: 0 <= j < |kids| && j != i ==> kids[j] == d.kids[j];
    FindIs(d.kids, i);
    var f := Find(d.kids, k);
    FindIsAt(kids, if k == Upper(name) then i else if f == i then |kids| else f, k);
    NameAtKid(e, k, r[1..]);
    NameAtKid(d, k, r[1..]);
    NameAtKid(d, KeyOf(d.kids[i]), r[1..]);
    if k == Upper(name) {
      RenamedNode(d.kids[i], name, r[1..]);
    }
  }

  lemma RenamedNode(x: Node, name: string, r: Key)
    ensures NameAt(Renamed(x, name), r) == if r == [] then Some(name) else NameAt(x, r)
  {
  }

  /** The name at a path through child k. */
  lemma NameAtKid(n: Node, k: string, r: Key)
    ensures NameAt(n, [k] + r) == if HasKid(n, k) then NameAt(Kid(n, k), r) else None
  {
    assert ([k] + r)[1..] == r;
  }

  // ---------- Copies ----------

  /** Below its root every node of d has the name the node there has in s. */
  ghost predicate AgreeBelow(s: Node, d: Node) {
    forall r :: r != [] && Lookup(d, r).Some? ==> NameAt(d, r) == NameAt(s, r)
  }

  ghost predicate KidAgrees(s: Node, d: Node, k: string) {
    HasKid(d, k) ==> HasKid(s, k) && Kid(d, k).name == Kid(s, k).name && AgreeBelow(Kid(s, k), Kid(d, k))
  }

  lemma AgreeByKids(s: Node, d: Node)
    requires forall k :: KidAgrees(s, d, k)
    ensures AgreeBelow(s, d)
  {
    forall r | r != [] && Lookup(d, r).Some? ensures NameAt(d, r) == NameAt(s, r) {
      assert KidAgrees(s, d, r[0]);
      assert r == [r[0]] + r[1..];
      NameAtKid(d, r[0], r[1..]);
      NameAtKid(s, r[0], r[1..]);
      KidName(d, r[0], r[1..]);
    }
  }

  lemma KidName(d: Node, k: string, r: Key)
    ensures Lookup(d, [k] + r).Some? <==> HasKid(d, k) && Lookup(Kid(d, k), r).Some?
  {
    assert ([k] + r)[1..] == r;
  }

  lemma KidOfAgreeing(s: Node, d: Node, k: string)
    requires AgreeBelow(s, d)
    ensures KidAgrees(s, d, k)
  {
    if HasKid(d, k) {
      forall r | Lookup(Kid(d, k), r).Some? ensures HasKid(s, k) && NameAt(Kid(d, k), r) == NameAt(Kid(s, k), r) {
        KidName(d, k, r);
        NameAtKid(d, k, r);
        NameAtKid(s, k, r);
        assert NameAt(d, [k] + r) == NameAt(s, [k] + r);
      }
      assert Lookup(Kid(d, k), []).Some? && NameAt(Kid(d, k), []) == NameAt(Kid(s, k), []);
    }
  }

  /** Child k of d agrees with s, and d's other children are those of an agreeing d0. */
  lemma OneKidAgrees(s: Node, d0: Node, d: Node, k: string)
    requires AgreeBelow(s, d0) && KidAgrees(s, d, k)
    requires forall k' :: k' != k && HasKid(d, k') ==> HasKid(d0, k') && Kid(d, k') == Kid(d0, k')
    ensures AgreeBelow(s, d)
  {
    hide AgreeBelow;
    forall k' ensures KidAgrees(s, d, k') {
      KidOfAgreeing(s, d0, k');
    }
    AgreeByKids(s, d);
  }

  lemma RemovedAgrees(s0: Node, s: Node, f: nat)
    requires AgreeBelow(s0, s) && s.Dir? && f < |s.kids| && DistinctKeys(s.kids)
    ensures AgreeBelow(s0, WithoutKid(s, f))
  {
    hide AgreeBelow;
    forall k'
      ensures HasKid(WithoutKid(s, f), k') ==>
                k' != KeyOf(s.kids[f]) && HasKid(s, k') && Kid(WithoutKid(s, f), k') == Kid(s, k')
    {
      RemovedKid(s, f, k');
    }
    OneKidAgrees(s0, s, WithoutKid(s, f), KeyOf(s.kids[f]));
  }

  lemma AgreesWithItself(s: Node)
    ensures AgreeBelow(s, s)
  {
  }

  lemma EmptyAgrees(s: Node, d: Node)
    requires d.File? || d.kids == []
    ensures AgreeBelow(s, d)
  {
  }
}
