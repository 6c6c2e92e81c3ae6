/** Forests of nested things, and numbers kept per node that sum up its children. */
module Forests {
  import opened Wrappers

  /** Who holds whom, from both ends, and a rank that grows from holder to held. */
  datatype Forest<T(==)> = Forest(parent: map<T, Option<T>>, kids: map<T, seq<T>>, rank: map<T, nat>)

  predicate NoDup<T(==)>(s: seq<T>) {
    forall i, j :: 0 <= i < j < |s| ==> s[i] != s[j]
  }

  ghost predicate SameNodes<T>(f: Forest<T>) {
    f.parent.Keys == f.kids.Keys == f.rank.Keys
  }

  ghost predicate Linked<T>(f: Forest<T>) {
    && (forall x, y :: x in f.kids && y in f.kids[x] ==> y in f.parent && f.parent[y] == Some(x))
    && (forall y :: y in f.parent && f.parent[y].Some? ==>
          f.parent[y].value in f.kids && y in f.kids[f.parent[y].value])
    && (forall x :: x in f.kids ==> NoDup(f.kids[x]))
  }

  ghost predicate Ranked<T>(f: Forest<T>) {
    forall y :: y in f.parent && f.parent[y].Some? ==>
      y in f.rank && f.parent[y].value in f.rank && f.rank[f.parent[y].value] < f.rank[y]
  }

  ghost predicate Valid<T>(f: Forest<T>) {
    SameNodes(f) && Linked(f) && Ranked(f)
  }

  /** A node and everything that holds it. */
  ghost function Up<T>(f: Forest<T>, x: T): (r: set<T>)
    requires Valid(f) && x in f.parent
    ensures x in r && r <= f.parent.Keys
    decreases f.rank[x]
  {
    {x} + if f.parent[x].None? then {} else Up(f, f.parent[x].value)
  }

  lemma {:induction false} UpRank<T>(f: Forest<T>, x: T, y: T)
    requires Valid(f) && x in f.parent && y in Up(f, x) && y != x
    ensures f.rank[y] < f.rank[x]
    decreases f.rank[x]
  {
    var p := f.parent[x].value;
    if y != p {
      UpRank(f, p, y);
    }
  }

  /** The child of y through which y holds x. */
  ghost predicate OnlyKid<T>(f: Forest<T>, x: T, y: T, k: T)
    requires Valid(f) && x in f.parent && y in f.kids
  {
    k in f.kids[y] && k in Up(f, x) && forall k' :: k' in f.kids[y] && k' in Up(f, x) ==> k' == k
  }

  lemma UpStep<T>(f: Forest<T>, x: T)
    requires Valid(f) && x in f.parent
    ensures f.parent[x].Some? ==> f.parent[x].value in f.parent && f.rank[f.parent[x].value] < f.rank[x]
    ensures Up(f, x) == {x} + if f.parent[x].None? then {} else Up(f, f.parent[x].value)
  {
    hide NoDup;
  }

  lemma KidParent<T>(f: Forest<T>, x: T, k: T)
    requires Valid(f) && x in f.parent && k in f.kids[x]
    ensures k in f.parent && f.parent[k] == Some(x) && f.rank[x] < f.rank[k]
  {
    hide NoDup, Up;
  }

  lemma ParentKid<T>(f: Forest<T>, x: T)
    requires Valid(f) && x in f.parent && f.parent[x].Some?
    ensures f.parent[x].value in f.kids && x in f.kids[f.parent[x].value]
  {
    hide NoDup, Up, Ranked;
  }

  lemma NotOwnHolder<T>(f: Forest<T>, x: T, k: T)
    requires Valid(f) && x in f.parent && k in f.kids[x]
    ensures k in f.parent && k !in Up(f, x)
  {
    hide Linked, Ranked, Up;
    KidParent(f, x, k);
    if k in Up(f, x) {
      UpRank(f, x, k);
    }
  }

  /** With its holder in the set of ancestors, at most one child of a node is in it. */
  lemma {:induction false} UpKids<T>(f: Forest<T>, x: T, y: T)
    requires Valid(f) && x in f.parent && y in Up(f, x)
    ensures y == x ==> forall k :: k in f.kids[y] ==> k !in Up(f, x)
    ensures y != x ==> exists k :: OnlyKid(f, x, y, k)
    decreases f.rank[x]
  {
    hide Linked, Ranked, Up;
    UpStep(f, x);
    if y == x {
      forall k | k in f.kids[y]
        ensures k !in Up(f, x)
      {
        NotOwnHolder(f, x, k);
      }
    } else {
      var p := f.parent[x].value;
      ParentKid(f, x);
      UpKids(f, p, y);
      if y == p {
        assert OnlyKid(f, x, y, x);
      } else {
        var k :| OnlyKid(f, p, y, k);
        if x in f.kids[y] { KidParent(f, y, x); }
        assert OnlyKid(f, x, y, k);
      }
    }
  }

  /** Only ancestors have children that are ancestors. */
  lemma {:induction false} UpOnly<T>(f: Forest<T>, x: T, y: T, k: T)
    requires Valid(f) && x in f.parent && y in f.kids && k in f.kids[y] && k in Up(f, x)
    ensures y in Up(f, x)
    decreases f.rank[x]
  {
    if k != x {
      UpOnly(f, f.parent[x].value, y, k);
    }
  }

  // ---------- Summed columns ----------

  function Val<T(==)>(v: map<T, int>, x: T): int {
    if x in v then v[x] else 0
  }

  function Sum<T(==)>(v: map<T, int>, s: seq<T>): int {
    if s == [] then 0 else Val(v, s[0]) + Sum(v, s[1..])
  }

  /** Every node's number is its own share and those of its children. */
  ghost predicate Summed<T>(f: Forest<T>, base: map<T, int>, v: map<T, int>) {
    && f.kids.Keys <= v.Keys
    && forall x :: x in f.kids ==> v[x] == Val(base, x) + Sum(v, f.kids[x])
  }

  function Bump<T(==)>(v: map<T, int>, a: set<T>, d: int): map<T, int> {
    map x | x in v :: if x in a then v[x] + d else v[x]
  }

  lemma {:induction false} SumSame<T>(v: map<T, int>, w: map<T, int>, s: seq<T>)
    requires forall y :: y in s ==> Val(v, y) == Val(w, y)
    ensures Sum(v, s) == Sum(w, s)
    decreases |s|
  {
    if s != [] {
      SumSame(v, w, s[1..]);
    }
  }

  lemma {:induction false} SumConcat<T>(v: map<T, int>, s: seq<T>, t: seq<T>)
    ensures Sum(v, s + t) == Sum(v, s) + Sum(v, t)
    decreases |s|
  {
    if s == [] {
      assert s + t == t;
    } else {
      SumConcat(v, s[1..], t);
      assert (s + t)[1..] == s[1..] + t;
    }
  }

  lemma SumSplit<T>(v: map<T, int>, s: seq<T>, i: nat)
    requires i < |s|
    ensures Sum(v, s) == Sum(v, Remove(s, i)) + Val(v, s[i])
  {
    assert s == s[..i] + ([s[i]] + s[i + 1..]);
    SumConcat(v, s[..i], [s[i]] + s[i + 1..]);
    SumConcat(v, [s[i]], s[i + 1..]);
    assert Sum(v, [s[i]]) == Val(v, s[i]) + Sum(v, [s[i]][1..]);
    SumConcat(v, s[..i], s[i + 1..]);
  }

  lemma SumBump<T>(v: map<T, int>, a: set<T>, d: int, s: seq<T>, k: T)
    requires NoDup(s) && k in s && (forall y :: y in s ==> y in v)
    requires forall y :: y in s ==> (y in a <==> y == k)
    ensures Sum(Bump(v, a, d), s) == Sum(v, s) + d
  {
    var i :| 0 <= i < |s| && s[i] == k;
    var w := Bump(v, a, d);
    SumSplit(v, s, i);
    SumSplit(w, s, i);
    RemoveMembers(s, i);
    SumSame(v, w, Remove(s, i));
  }

  /** Changing the share of one node and passing the difference on to its holders keeps every sum right. */
  lemma BumpSummed<T>(f: Forest<T>, base: map<T, int>, v: map<T, int>, x: T, d: int)
    requires Valid(f) && Summed(f, base, v) && x in f.parent
    ensures Summed(f, base[x := Val(base, x) + d], Bump(v, Up(f, x), d))
  {
    hide Up, Sum;
    var a := Up(f, x);
    var w := Bump(v, a, d);
    forall y | y in f.kids
      ensures w[y] == Val(base[x := Val(base, x) + d], y) + Sum(w, f.kids[y])
    {
      if y in a {
        UpKids(f, x, y);
        if y == x {
          SumSame(v, w, f.kids[y]);
        } else {
          var k :| OnlyKid(f, x, y, k);
          SumBump(v, a, d, f.kids[y], k);
        }
      } else {
        forall k | k in f.kids[y]
          ensures k !in a
        {
          if k in a { UpOnly(f, x, y, k); }
        }
        SumSame(v, w, f.kids[y]);
      }
    }
  }

  /** Changing the numbers of a node and its holders alone breaks a sum. */
  lemma BumpBreaks<T>(f: Forest<T>, base: map<T, int>, v: map<T, int>, x: T, d: int)
    requires Valid(f) && Summed(f, base, v) && x in f.parent && d != 0
    ensures !Summed(f, base, Bump(v, Up(f, x), d))
  {
    hide Up, Sum;
    UpKids(f, x, x);
    SumSame(v, Bump(v, Up(f, x), d), f.kids[x]);
  }

  // ---------- Changing the forest ----------

  lemma {:induction false} UpAgree<T>(f: Forest<T>, g: Forest<T>, x: T)
    requires Valid(f) && Valid(g) && x in f.parent
    requires forall y :: y in Up(f, x) ==> y in g.parent && g.parent[y] == f.parent[y]
    ensures Up(g, x) == Up(f, x)
    decreases f.rank[x]
  {
    if f.parent[x].Some? {
      UpAgree(f, g, f.parent[x].value);
    }
  }

  function Insert<T>(s: seq<T>, i: nat, it: T): (r: seq<T>)
    requires i <= |s|
    ensures |r| == |s| + 1 && r[i] == it
  {
    s[..i] + [it] + s[i..]
  }

  function Remove<T>(s: seq<T>, i: nat): seq<T>
    requires i < |s|
  {
    s[..i] + s[i + 1..]
  }

  lemma InsertMembers<T>(s: seq<T>, i: nat, it: T)
    requires i <= |s|
    ensures forall y :: y in Insert(s, i, it) <==> y == it || y in s
    ensures NoDup(s) && it !in s ==> NoDup(Insert(s, i, it))
    ensures Remove(Insert(s, i, it), i) == s
  {
    assert s == s[..i] + s[i..];
  }

  lemma RemoveMember<T>(s: seq<T>, i: nat, y: T)
    requires i < |s| && NoDup(s)
    ensures y in Remove(s, i) <==> y != s[i] && y in s
  {
    RemoveMembers(s, i);
  }

  lemma RemoveMembers<T>(s: seq<T>, i: nat)
    requires i < |s| && NoDup(s)
    ensures forall y :: y in Remove(s, i) <==> y != s[i] && y in s
    ensures NoDup(Remove(s, i))
  {
    assert s == s[..i] + [s[i]] + s[i + 1..];
  }

  /** A root placed among the children of a node it does not hold. */
  ghost function Attach<T>(f: Forest<T>, c: T, it: T, i: nat): (g: Forest<T>)
    requires Valid(f) && c in f.parent && it in f.parent && i <= |f.kids[c]|
    ensures g.parent.Keys == f.parent.Keys
  {
    Forest(f.parent[it := Some(c)],
           f.kids[c := Insert(f.kids[c], i, it)],
           map x | x in f.parent :: if it in Up(f, x) then f.rank[x] + f.rank[c] + 1 else f.rank[x])
  }

  ghost function Detach<T>(f: Forest<T>, c: T, i: nat): (g: Forest<T>)
    requires Valid(f) && c in f.parent && i < |f.kids[c]|
    ensures g.parent.Keys == f.parent.Keys
  {
    Forest(f.parent[f.kids[c][i] := None], f.kids[c := Remove(f.kids[c], i)], f.rank)
  }

  lemma AttachLinked<T>(f: Forest<T>, c: T, it: T, i: nat)
    requires Valid(f) && c in f.parent && it in f.parent && i <= |f.kids[c]|
    requires f.parent[it] == None
    ensures Linked(Attach(f, c, it, i))
  {
    hide Up, Insert, NoDup;
    InsertMembers(f.kids[c], i, it);
  }

  lemma AttachValid<T>(f: Forest<T>, c: T, it: T, i: nat)
    requires Valid(f) && c in f.parent && it in f.parent && i <= |f.kids[c]|
    requires f.parent[it] == None && it !in Up(f, c)
    ensures Valid(Attach(f, c, it, i)) && Up(Attach(f, c, it, i), c) == Up(f, c)
  {
    hide Insert, NoDup;
    AttachLinked(f, c, it, i);
    var g := Attach(f, c, it, i);
    assert Ranked(g);
    UpAgree(f, g, c);
  }

  /** What is left among the children is still held from above. */
  lemma DetachKid<T>(f: Forest<T>, c: T, i: nat, x: T, y: T)
    requires Valid(f) && c in f.parent && i < |f.kids[c]|
    requires x in f.kids && y in Detach(f, c, i).kids[x]
    ensures y in f.parent && Detach(f, c, i).parent[y] == Some(x)
  {
    hide Remove, Up;
    if x == c {
      RemoveMember(f.kids[c], i, y);
    } else {
      assert f.kids[c][i] in f.kids[c];
    }
  }

  /** What still has a holder is still among its children. */
  lemma DetachHolder<T>(f: Forest<T>, c: T, i: nat, y: T)
    requires Valid(f) && c in f.parent && i < |f.kids[c]|
    requires y in f.parent && Detach(f, c, i).parent[y].Some?
    ensures var x := Detach(f, c, i).parent[y].value; x in f.kids && y in Detach(f, c, i).kids[x]
  {
    hide Remove, Up;
    RemoveMember(f.kids[c], i, y);
  }

  lemma DetachLinked<T>(f: Forest<T>, c: T, i: nat)
    requires Valid(f) && c in f.parent && i < |f.kids[c]|
    ensures Linked(Detach(f, c, i))
  {
    hide Remove, NoDup, Up;
    RemoveMembers(f.kids[c], i);
    var g := Detach(f, c, i);
    forall x, y | x in g.kids && y in g.kids[x]
      ensures y in g.parent && g.parent[y] == Some(x)
    {
      DetachKid(f, c, i, x, y);
    }
    forall y | y in g.parent && g.parent[y].Some?
      ensures g.parent[y].value in g.kids && y in g.kids[g.parent[y].value]
    {
      DetachHolder(f, c, i, y);
    }
  }

  lemma DetachValid<T>(f: Forest<T>, c: T, i: nat)
    requires Valid(f) && c in f.parent && i < |f.kids[c]|
    ensures Valid(Detach(f, c, i)) && Up(Detach(f, c, i), c) == Up(f, c)
  {
    hide Remove, NoDup;
    DetachLinked(f, c, i);
    var g := Detach(f, c, i);
    assert f.kids[c][i] in f.kids[c];
    UpKids(f, c, c);
    UpAgree(f, g, c);
  }

  /** A new node that neither holds nor is held. */
  function Grow<T(==)>(f: Forest<T>, x: T, r: nat): Forest<T> {
    Forest(f.parent[x := None], f.kids[x := []], f.rank[x := r])
  }

  lemma GrowLinked<T>(f: Forest<T>, x: T, r: nat)
    requires Valid(f) && x !in f.parent
    ensures Valid(Grow(f, x, r))
  {
    hide NoDup, Up;
    NoDupNone<T>();
  }

  lemma NoDupNone<T>()
    ensures NoDup<T>([])
  {
  }

  lemma GrowUp<T>(f: Forest<T>, x: T, r: nat, c: T)
    requires Valid(f) && x !in f.parent && c in f.parent
    ensures Valid(Grow(f, x, r)) && Up(Grow(f, x, r), c) == Up(f, c)
  {
    hide Linked, Ranked;
    GrowLinked(f, x, r);
    UpAgree(f, Grow(f, x, r), c);
  }

  lemma GrowValid<T>(f: Forest<T>, x: T, r: nat)
    requires Valid(f) && x !in f.parent
    ensures Valid(Grow(f, x, r))
    ensures forall c :: c in f.parent ==> Up(Grow(f, x, r), c) == Up(f, c)
  {
    hide Valid, Up;
    GrowLinked(f, x, r);
    forall c | c in f.parent
      ensures Up(Grow(f, x, r), c) == Up(f, c)
    {
      GrowUp(f, x, r, c);
    }
  }

  lemma GrowSummed<T>(f: Forest<T>, x: T, r: nat, base: map<T, int>, base': map<T, int>, v: map<T, int>, v': map<T, int>)
    requires Valid(f) && Summed(f, base, v) && x !in f.parent
    requires f.parent.Keys + {x} <= v'.Keys && v'[x] == Val(base', x)
    requires forall y :: y in f.parent ==> v'[y] == v[y] && Val(base', y) == Val(base, y)
    ensures Summed(Grow(f, x, r), base', v')
  {
    hide Ranked, Sum;
    var h := Grow(f, x, r);
    forall y | y in h.kids
      ensures v'[y] == Val(base', y) + Sum(v', h.kids[y])
    {
      if y == x {
        SumNone(v');
      } else {
        KidsKnown(f, y);
        SumSame(v, v', f.kids[y]);
      }
    }
  }

  lemma SumNone<T>(v: map<T, int>)
    ensures Sum(v, []) == 0
  {
  }

  /** Giving one node other children, and the difference as a share, keeps every sum. */
  lemma RebaseSummed<T>(f: Forest<T>, g: Forest<T>, base: map<T, int>, v: map<T, int>, c: T, d: int)
    requires Summed(f, base, v) && c in f.kids
    requires g.kids.Keys == f.kids.Keys && forall x :: x in f.kids && x != c ==> g.kids[x] == f.kids[x]
    requires Sum(v, f.kids[c]) == Sum(v, g.kids[c]) + d
    ensures Summed(g, base[c := Val(base, c) + d], v)
  {
    hide Sum;
  }

  lemma BackAndForth<T>(base: map<T, int>, f: Forest<T>, v: map<T, int>, c: T, d: int)
    requires var b := base[c := Val(base, c) + d]; Summed(f, b[c := Val(b, c) + -d], v)
    ensures Summed(f, base, v)
  {
    hide Sum;
    var b := base[c := Val(base, c) + d];
    assert forall x :: Val(b[c := Val(b, c) + -d], x) == Val(base, x);
  }

  /** An added node passes its own number up to its holders. */
  lemma AttachSummed<T>(f: Forest<T>, base: map<T, int>, v: map<T, int>, c: T, it: T, i: nat)
    requires Valid(f) && c in f.parent && it in f.parent && i <= |f.kids[c]|
    requires f.parent[it] == None && it !in Up(f, c) && Summed(f, base, v)
    ensures Valid(Attach(f, c, it, i))
    ensures Summed(Attach(f, c, it, i), base, Bump(v, Up(f, c), Val(v, it)))
  {
    hide Up, Sum, Ranked, Linked, Insert, Remove, Summed, Bump, Val;
    AttachValid(f, c, it, i);
    var g := Attach(f, c, it, i);
    var d := Val(v, it);
    InsertMembers(f.kids[c], i, it);
    SumSplit(v, g.kids[c], i);
    RebaseSummed(f, g, base, v, c, -d);
    BumpSummed(g, base[c := Val(base, c) + -d], v, c, d);
    BackAndForth(base, g, Bump(v, Up(g, c), d), c, -d);
  }

  lemma DetachSummed<T>(f: Forest<T>, base: map<T, int>, v: map<T, int>, c: T, i: nat)
    requires Valid(f) && c in f.parent && i < |f.kids[c]| && Summed(f, base, v)
    ensures Valid(Detach(f, c, i))
    ensures Summed(Detach(f, c, i), base, Bump(v, Up(f, c), -Val(v, f.kids[c][i])))
  {
    hide Up, Sum, Ranked, Linked, Summed, Bump, Val, Remove;
    DetachValid(f, c, i);
    var g := Detach(f, c, i);
    var d := Val(v, f.kids[c][i]);
    SumSplit(v, f.kids[c], i);
    RebaseSummed(f, g, base, v, c, d);
    BumpSummed(g, base[c := Val(base, c) + d], v, c, -d);
    BackAndForth(base, g, Bump(v, Up(g, c), -d), c, d);
  }

  // ---------- What the sums mean ----------

  /** A node and everything nested in it. */
  ghost function Down<T>(f: Forest<T>, x: T): set<T>
    requires Valid(f) && x in f.parent
  {
    set y | y in f.parent && x in Up(f, y)
  }

  lemma KidUp<T>(f: Forest<T>, x: T, k: T)
    requires Valid(f) && x in f.parent && k in f.kids[x]
    ensures k in f.parent && x in Up(f, k)
  {
  }

  lemma {:induction false} UpTrans<T>(f: Forest<T>, x: T, y: T, z: T)
    requires Valid(f) && x in f.parent && y in Up(f, x) && z in Up(f, y)
    ensures z in Up(f, x)
    decreases f.rank[x]
  {
    if x != y {
      UpTrans(f, f.parent[x].value, y, z);
    }
  }

  lemma DownKid<T>(f: Forest<T>, x: T, k: T)
    requires Valid(f) && x in f.parent && k in f.kids[x]
    ensures k in f.parent && Down(f, k) < Down(f, x) && |Down(f, k)| < |Down(f, x)|
    ensures x !in Down(f, k)
  {
    UpKids(f, x, x);
    forall y | y in Down(f, k)
      ensures y in Down(f, x)
    {
      KidUp(f, x, k);
      UpTrans(f, y, k, x);
    }
    assert x in Down(f, x) - Down(f, k);
    SmallerSet(Down(f, k), Down(f, x), x);
  }

  lemma SmallerSet<T>(a: set<T>, b: set<T>, x: T)
    requires a <= b && x in b && x !in a
    ensures |a| < |b|
  {
    var rest := b - {x};
    assert a <= rest;
    SubsetSize(a, rest);
  }

  lemma {:induction false} SubsetSize<T>(a: set<T>, b: set<T>)
    requires a <= b
    ensures |a| <= |b|
    decreases a
  {
    if x :| x in a {
      SubsetSize(a - {x}, b - {x});
    }
  }

  /** The sum over everything nested in x, counted afresh from the shares. */
  ghost function Recount<T>(f: Forest<T>, base: map<T, int>, x: T): int
    requires Valid(f) && x in f.parent
    decreases |Down(f, x)|, |f.kids[x]| + 1
  {
    Val(base, x) + RecountFrom(f, base, x, 0)
  }

  ghost function RecountFrom<T>(f: Forest<T>, base: map<T, int>, x: T, i: nat): int
    requires Valid(f) && x in f.parent && i <= |f.kids[x]|
    decreases |Down(f, x)|, |f.kids[x]| - i
  {
    if i == |f.kids[x]| then 0
    else
      var k := f.kids[x][i];
      DownKid(f, x, k);
      Recount(f, base, k) + RecountFrom(f, base, x, i + 1)
  }

  /** A summed column is exactly the recount: the equations have one solution. */
  lemma {:induction false} SummedIsRecount<T>(f: Forest<T>, base: map<T, int>, v: map<T, int>, x: T)
    requires Valid(f) && Summed(f, base, v) && x in f.parent
    ensures v[x] == Recount(f, base, x)
    decreases |Down(f, x)|, |f.kids[x]| + 1
  {
    SummedFrom(f, base, v, x, 0);
    assert f.kids[x][0..] == f.kids[x];
  }

  lemma {:induction false} SummedFrom<T>(f: Forest<T>, base: map<T, int>, v: map<T, int>, x: T, i: nat)
    requires Valid(f) && Summed(f, base, v) && x in f.parent && i <= |f.kids[x]|
    ensures Sum(v, f.kids[x][i..]) == RecountFrom(f, base, x, i)
    decreases |Down(f, x)|, |f.kids[x]| - i
  {
    if i < |f.kids[x]| {
      var k := f.kids[x][i];
      DownKid(f, x, k);
      SummedIsRecount(f, base, v, k);
      SummedFrom(f, base, v, x, i + 1);
      assert f.kids[x][i..] == [k] + f.kids[x][i + 1..];
    }
  }

  ghost function Ones<T>(f: Forest<T>): map<T, int> {
    map x | x in f.parent :: 1
  }

  lemma OnesSame<T>(f: Forest<T>, g: Forest<T>)
    requires f.parent.Keys == g.parent.Keys
    ensures Ones(f) == Ones(g)
  {
  }

  /** What is nested in the children of x from the i-th on. */
  ghost function DownFrom<T>(f: Forest<T>, x: T, i: nat): set<T>
    requires Valid(f) && x in f.parent && i <= |f.kids[x]|
  {
    set y | y in f.parent && exists k :: k in f.kids[x][i..] && k in Up(f, y)
  }

  lemma {:induction false} DownDisjoint<T>(f: Forest<T>, x: T, k: T, k': T, y: T)
    requires Valid(f) && x in f.parent && k in f.kids[x] && k' in f.kids[x] && y in f.parent
    requires k in Up(f, y) && k' in Up(f, y)
    ensures k == k'
  {
    KidUp(f, x, k);
    UpTrans(f, y, k, x);
    UpKids(f, y, x);
  }

  /** With a share of one each, the number of a node is how many nodes it holds, itself included. */
  lemma {:induction false} RecountIsSize<T>(f: Forest<T>, x: T)
    requires Valid(f) && x in f.parent
    ensures Recount(f, Ones(f), x) == |Down(f, x)|
    decreases |Down(f, x)|, |f.kids[x]| + 1
  {
    RecountFromIsSize(f, x, 0);
    UpKids(f, x, x);
    forall y
      ensures y in Down(f, x) <==> y == x || y in DownFrom(f, x, 0)
    {
      DownSplit(f, x, y);
    }
    assert x !in DownFrom(f, x, 0);
    assert Down(f, x) == {x} + DownFrom(f, x, 0);
  }

  lemma {:induction false} DownSplit<T>(f: Forest<T>, x: T, y: T)
    requires Valid(f) && x in f.parent
    ensures y in Down(f, x) <==> y == x || y in DownFrom(f, x, 0)
  {
    hide NoDup, Up, Ranked;
    assert f.kids[x][0..] == f.kids[x];
    if y in Down(f, x) && y != x {
      UpKids(f, y, x);
      var k :| OnlyKid(f, y, x, k);
    } else if y in DownFrom(f, x, 0) {
      var k :| k in f.kids[x] && k in Up(f, y);
      KidUp(f, x, k);
      UpTrans(f, y, k, x);
    }
  }

  lemma {:induction false} RecountFromIsSize<T>(f: Forest<T>, x: T, i: nat)
    requires Valid(f) && x in f.parent && i <= |f.kids[x]|
    ensures RecountFrom(f, Ones(f), x, i) == |DownFrom(f, x, i)|
    decreases |Down(f, x)|, |f.kids[x]| - i
  {
    if i == |f.kids[x]| {
      assert DownFrom(f, x, i) == {};
    } else {
      var k := f.kids[x][i];
      DownKid(f, x, k);
      RecountIsSize(f, k);
      RecountFromIsSize(f, x, i + 1);
      DownFromSplit(f, x, i);
    }
  }

  lemma DownFromSplit<T>(f: Forest<T>, x: T, i: nat)
    requires Valid(f) && x in f.parent && i < |f.kids[x]|
    ensures |DownFrom(f, x, i)| == |Down(f, f.kids[x][i])| + |DownFrom(f, x, i + 1)|
  {
    hide Up;
    var k := f.kids[x][i];
    var a, b := Down(f, k), DownFrom(f, x, i + 1);
    assert f.kids[x][i..] == [k] + f.kids[x][i + 1..];
    assert DownFrom(f, x, i) == a + b;
    forall y | y in a && y in b
      ensures false
    {
      var k' :| k' in f.kids[x][i + 1..] && k' in Up(f, y);
      DownDisjoint(f, x, k, k', y);
    }
    assert a !! b;
  }

  // ---------- Breadth-first order ----------

  /** How many nodes are nested in those of a list, they included. */
  ghost function Total<T>(f: Forest<T>, todo: seq<T>): nat
    requires Valid(f) && forall x :: x in todo ==> x in f.parent
  {
    if todo == [] then 0 else |Down(f, todo[0])| + Total(f, todo[1..])
  }

  lemma {:induction false} TotalConcat<T>(f: Forest<T>, a: seq<T>, b: seq<T>)
    requires Valid(f) && (forall x :: x in a ==> x in f.parent) && (forall x :: x in b ==> x in f.parent)
    ensures (forall x :: x in a + b ==> x in f.parent) && Total(f, a + b) == Total(f, a) + Total(f, b)
    decreases |a|
  {
    hide Linked, Ranked, Down;
    if a == [] {
      assert a + b == b;
    } else {
      TotalConcat(f, a[1..], b);
      assert (a + b)[1..] == a[1..] + b;
    }
  }

  lemma KidsKnown<T>(f: Forest<T>, x: T)
    requires Valid(f) && x in f.parent
    ensures forall k :: k in f.kids[x] ==> k in f.parent
  {
  }

  lemma {:induction false} TotalFrom<T>(f: Forest<T>, x: T, i: nat)
    requires Valid(f) && x in f.parent && i <= |f.kids[x]|
    ensures forall k :: k in f.kids[x] ==> k in f.parent
    ensures Total(f, f.kids[x][i..]) == RecountFrom(f, Ones(f), x, i)
    decreases |f.kids[x]| - i
  {
    KidsKnown(f, x);
    if i < |f.kids[x]| {
      var k := f.kids[x][i];
      assert f.kids[x][i..][1..] == f.kids[x][i + 1..];
      DownKid(f, x, k);
      RecountIsSize(f, k);
      TotalFrom(f, x, i + 1);
    }
  }

  lemma TotalKids<T>(f: Forest<T>, x: T)
    requires Valid(f) && x in f.parent
    ensures forall k :: k in f.kids[x] ==> k in f.parent
    ensures |Down(f, x)| == 1 + Total(f, f.kids[x])
  {
    hide Linked, Ranked, Down, Total;
    KidsKnown(f, x);
    TotalFrom(f, x, 0);
    RecountIsSize(f, x);
    assert f.kids[x][0..] == f.kids[x];
  }

  /** Take the first of the list, put its children behind the others: one node less to come. */
  lemma TotalStep<T>(f: Forest<T>, todo: seq<T>)
    requires Valid(f) && todo != [] && forall x :: x in todo ==> x in f.parent
    ensures var rest := todo[1..] + f.kids[todo[0]];
      (forall x :: x in rest ==> x in f.parent) && Total(f, rest) + 1 == Total(f, todo)
  {
    hide Linked, Ranked, Down;
    TotalKids(f, todo[0]);
    TotalConcat(f, todo[1..], f.kids[todo[0]]);
  }

  /** The nodes in breadth-first order. */
  ghost function Bfs<T>(f: Forest<T>, todo: seq<T>): seq<T>
    requires Valid(f) && forall x :: x in todo ==> x in f.parent
    decreases Total(f, todo)
  {
    if todo == [] then []
    else
      TotalStep(f, todo);
      [todo[0]] + Bfs(f, todo[1..] + f.kids[todo[0]])
  }

  lemma {:induction false} BfsVisits<T>(f: Forest<T>, todo: seq<T>, y: T)
    requires Valid(f) && (forall x :: x in todo ==> x in f.parent)
    ensures |Bfs(f, todo)| == Total(f, todo)
    ensures y in Bfs(f, todo) <==> y in f.parent && exists x :: x in todo && x in Up(f, y)
    decreases Total(f, todo)
  {
    hide Linked, Ranked, Down, Up, Total;
    if todo == [] {
      TotalNone(f);
    } else {
      var x := todo[0];
      var rest := todo[1..] + f.kids[x];
      TotalStep(f, todo);
      BfsVisits(f, rest, y);
      assert todo == [x] + todo[1..];
      if y in f.parent {
        UpOrKid(f, x, y);
      }
    }
  }

  lemma BfsStep<T>(f: Forest<T>, todo: seq<T>)
    requires Valid(f) && todo != [] && forall x :: x in todo ==> x in f.parent
    ensures forall x :: x in todo[1..] + f.kids[todo[0]] ==> x in f.parent
    ensures Bfs(f, todo) == [todo[0]] + Bfs(f, todo[1..] + f.kids[todo[0]])
  {
    hide Linked, Ranked;
    TotalStep(f, todo);
  }

  /** What is still to come: the first of the list, or what comes after it. */
  lemma BfsNext<T>(f: Forest<T>, todo: seq<T>, y: T)
    requires Valid(f) && todo != [] && forall x :: x in todo ==> x in f.parent
    ensures var rest := todo[1..] + f.kids[todo[0]];
      && (forall x :: x in rest ==> x in f.parent) && Total(f, rest) + 1 == Total(f, todo)
      && (y in Bfs(f, todo) <==> y == todo[0] || y in Bfs(f, rest))
  {
    hide Valid, Bfs, Total;
    TotalStep(f, todo);
    BfsStep(f, todo);
  }

  lemma BfsNone<T>(f: Forest<T>)
    requires Valid(f)
    ensures Bfs(f, []) == []
  {
  }

  lemma TotalNone<T>(f: Forest<T>)
    requires Valid(f)
    ensures Total(f, []) == 0
  {
  }

  lemma UpOrKid<T>(f: Forest<T>, x: T, y: T)
    requires Valid(f) && x in f.parent && y in f.parent
    ensures x in Up(f, y) <==> y == x || exists k :: k in f.kids[x] && k in Up(f, y)
  {
    hide Linked, Ranked;
    if x in Up(f, y) && y != x {
      UpKids(f, y, x);
      var k :| OnlyKid(f, y, x, k);
    }
    if k :| k in f.kids[x] && k in Up(f, y) {
      UpOnly(f, y, x, k);
    }
  }

  lemma {:induction false} NoDupFromSize<T>(s: seq<T>, a: set<T>)
    requires (forall x :: x in s <==> x in a) && |s| == |a|
    ensures NoDup(s)
    decreases |s|
  {
    if s != [] {
      var x := s[0];
      if x in s[1..] {
        assert forall y :: y in s[1..] <==> y in a;
        ListedSize(s[1..], a);
      } else {
        NoDupFromSize(s[1..], a - {x});
      }
    }
  }

  lemma {:induction false} ListedSize<T>(s: seq<T>, a: set<T>)
    requires forall x :: x in a ==> x in s
    ensures |a| <= |s|
    decreases |s|
  {
    if s == [] {
      assert a == {};
    } else {
      ListedSize(s[1..], a - {s[0]});
      if s[0] in a { assert |a - {s[0]}| == |a| - 1; } else { assert a - {s[0]} == a; }
    }
  }

  /** Breadth first from the children of x: everything nested in x, each exactly once. */
  lemma BfsExactlyOnce<T>(f: Forest<T>, x: T)
    requires Valid(f) && x in f.parent
    ensures forall k :: k in f.kids[x] ==> k in f.parent
    ensures NoDup(Bfs(f, f.kids[x])) && |Bfs(f, f.kids[x])| == |Down(f, x)| - 1
    ensures forall y :: y in Bfs(f, f.kids[x]) <==> y in Down(f, x) && y != x
  {
    hide Linked, Ranked, Up, Total, Bfs, NoDup;
    TotalKids(f, x);
    var visited := Bfs(f, f.kids[x]);
    forall y
      ensures y in visited <==> y in Down(f, x) && y != x
    {
      BfsVisits(f, f.kids[x], y);
      if y in f.parent { UpOrKid(f, x, y); NotInOwnKids(f, x); }
    }
    BfsVisits(f, f.kids[x], x);
    SelfInDown(f, x);
    NoDupFromSize(visited, Down(f, x) - {x});
  }

  lemma SelfInDown<T>(f: Forest<T>, x: T)
    requires Valid(f) && x in f.parent
    ensures x in Down(f, x)
  {
    hide Linked, Ranked;
  }

  lemma NotInOwnKids<T>(f: Forest<T>, x: T)
    requires Valid(f) && x in f.parent
    ensures forall k :: k in f.kids[x] ==> k !in Up(f, x)
  {
    UpKids(f, x, x);
  }
}
