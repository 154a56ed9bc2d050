/** The IP range table: an ordered map whose order takes containment for equality. Containment is not transitive, so this
    is no order on ranges in general; it is one on every table that inserts can build. */
module IpRangeTable {

  datatype Range = Range(from: nat, to: nat)

  predicate Ok(k: Range) { k.from <= k.to }

  function Point(ip: nat): Range { Range(ip, ip) }

  // ----- The comparators of IP_TABLE_KEY -----

  predicate Equal(a: Range, b: Range) {
    || (b.from >= a.from && b.to <= a.to)
    || (a.from >= b.from && a.to <= b.to)
  }

  predicate Less(a: Range, b: Range) {
    if Equal(a, b) then false else a.from < b.from
  }

  predicate Greater(a: Range, b: Range) {
    if Equal(a, b) then false else a.to > b.to
  }

  predicate Contains(a: Range, b: Range) {
    a.from <= b.from && b.to <= a.to
  }

  /** `<` is the strict product order, `>` its converse, and exactly one of <, ==, > holds. */
  lemma Comparators(a: Range, b: Range)
    ensures Less(a, b) <==> a.from < b.from && a.to < b.to
    ensures Greater(a, b) <==> Less(b, a)
    ensures Equal(a, b) <==> Contains(a, b) || Contains(b, a)
    ensures (Less(a, b) && !Equal(a, b) && !Greater(a, b)) || (!Less(a, b) && Equal(a, b) && !Greater(a, b)) ||
            (!Less(a, b) && !Equal(a, b) && Greater(a, b))
  {
  }

  /** Two ranges may both equal a third and not each other, so the comparator is not a strict weak order. */
  lemma EqualIsNotTransitive()
    ensures exists a, b, c :: Ok(a) && Ok(b) && Ok(c) && Equal(a, b) && Equal(b, c) && !Equal(a, c)
  {
    var a, b, c := Range(0, 1), Range(0, 9), Range(8, 9);
    assert Equal(a, b) && Equal(b, c) && !Equal(a, c);
  }

  // ----- Search trees of any shape -----

  /** What is known of a range; 0 stands for unknown in both. */
  datatype Origin = Origin(isp: nat, area: nat)

  datatype Entry = Entry(key: Range, value: Origin)

  datatype Tree = Leaf | Node(left: Tree, entry: Entry, right: Tree)

  datatype Found = Missing | Hit(entry: Entry)

  function Inorder(t: Tree): seq<Entry> {
    match t
    case Leaf => []
    case Node(l, e, r) => Inorder(l) + [e] + Inorder(r)
  }

  /** Before in the product order: the strict order the comparators amount to. */
  predicate Below(a: Range, b: Range) { a.from < b.from && a.to < b.to }

  /** An antichain under containment, in increasing order of both ends. */
  ghost predicate Sorted(s: seq<Entry>) {
    s != [] ==> Ok(s[0].key) && (forall x :: x in s[1..] ==> Below(s[0].key, x.key)) && Sorted(s[1..])
  }

  lemma {:induction false} SortedMeans(s: seq<Entry>, i: nat, j: nat)
    requires Sorted(s) && i < j < |s|
    ensures s[i].key.from < s[j].key.from && s[i].key.to < s[j].key.to && !Equal(s[i].key, s[j].key)
  {
    if i == 0 {
      assert s[j] == s[1..][j - 1];
    } else {
      SortedMeans(s[1..], i - 1, j - 1);
    }
  }

  /** The descent of std::map::lower_bound: the last node at which it turned left. */
  function LowerBound(t: Tree, k: Range, best: Found): Found {
    match t
    case Leaf => best
    case Node(l, e, r) => if !Less(e.key, k) then LowerBound(l, k, Hit(e)) else LowerBound(r, k, best)
  }

  function Find(t: Tree, k: Range): Found {
    var found := LowerBound(t, k, Missing);
    if found.Hit? && Less(k, found.entry.key) then Missing else found
  }

  /** The entry before the place where a descent for insertion ends: the last node at which it turned right. */
  function Before(t: Tree, k: Range, before: Found): Found {
    match t
    case Leaf => before
    case Node(l, e, r) => if Less(k, e.key) then Before(l, k, before) else Before(r, k, Hit(e))
  }

  function Attach(t: Tree, e: Entry): Tree {
    match t
    case Leaf => Node(Leaf, e, Leaf)
    case Node(l, x, r) => if Less(e.key, x.key) then Node(Attach(l, e), x, r) else Node(l, x, Attach(r, e))
  }

  /** The test of std::map::insert: the new key goes in when the entry before its place is less. */
  predicate Admits(t: Tree, k: Range) {
    var before := Before(t, k, Missing);
    before.Missing? || Less(before.entry.key, k)
  }

  function Inserted(t: Tree, e: Entry): Tree {
    if Admits(t, e.key) then Attach(t, e) else t
  }

  // ----- Lookup is a linear scan -----

  /** The reference: the first entry that equals the key. */
  function Scan(s: seq<Entry>, k: Range): Found {
    if s == [] then Missing else if Equal(s[0].key, k) then Hit(s[0]) else Scan(s[1..], k)
  }

  function First(s: seq<Entry>, k: Range): Found {
    if s == [] then Missing else if !Less(s[0].key, k) then Hit(s[0]) else First(s[1..], k)
  }

  lemma {:induction false} FirstConcat(a: seq<Entry>, b: seq<Entry>, k: Range)
    ensures First(a + b, k) == if First(a, k).Hit? then First(a, k) else First(b, k)
  {
    if a == [] {
      assert a + b == b;
    } else {
      assert (a + b)[1..] == a[1..] + b;
      FirstConcat(a[1..], b, k);
    }
  }

  lemma {:induction false} FirstOfLess(s: seq<Entry>, k: Range)
    requires forall x :: x in s ==> Less(x.key, k)
    ensures First(s, k) == Missing
  {
    if s != [] {
      FirstOfLess(s[1..], k);
    }
  }

  ghost function Elems(t: Tree): set<Entry> {
    match t
    case Leaf => {}
    case Node(l, e, r) => Elems(l) + {e} + Elems(r)
  }

  lemma {:induction false} ElemsListed(t: Tree)
    ensures forall x :: x in Elems(t) <==> x in Inorder(t)
  {
    match t
    case Leaf =>
    case Node(l, e, r) =>
      ElemsListed(l);
      ElemsListed(r);
  }

  /** Every tree over a sorted table is a search tree. */
  ghost predicate Ordered(t: Tree) {
    match t
    case Leaf => true
    case Node(l, e, r) =>
      && Ordered(l) && Ordered(r) && Ok(e.key)
      && (forall x :: x in Elems(l) ==> Below(x.key, e.key))
      && (forall x :: x in Elems(r) ==> Below(e.key, x.key))
  }

  lemma {:induction false} SortedConcat(a: seq<Entry>, b: seq<Entry>)
    ensures Sorted(a + b) <==> Sorted(a) && Sorted(b) && forall x, y :: x in a && y in b ==> Below(x.key, y.key)
  {
    if a == [] {
      assert a + b == b;
    } else {
      assert (a + b)[1..] == a[1..] + b;
      SortedConcat(a[1..], b);
      assert forall x :: x in a[1..] + b <==> x in a[1..] || x in b;
      assert forall x :: x in a <==> x == a[0] || x in a[1..];
    }
  }

  lemma {:induction false} OrderedIffSorted(t: Tree)
    ensures Ordered(t) <==> Sorted(Inorder(t))
  {
    match t
    case Leaf =>
    case Node(l, e, r) =>
      OrderedIffSorted(l);
      OrderedIffSorted(r);
      ElemsListed(l);
      ElemsListed(r);
      SortedConcat(Inorder(l) + [e], Inorder(r));
      SortedConcat(Inorder(l), [e]);
      SpliceSorted(Inorder(l), e, Inorder(r));
  }

  lemma SpliceSorted(l: seq<Entry>, e: Entry, r: seq<Entry>)
    ensures Sorted([e]) <==> Ok(e.key)
    ensures (forall x, y :: x in l && y in [e] ==> Below(x.key, y.key)) <==> forall x :: x in l ==> Below(x.key, e.key)
    ensures (forall x :: x in l ==> Below(x.key, e.key)) ==>
              ((forall x, y :: x in l + [e] && y in r ==> Below(x.key, y.key)) <==> forall y :: y in r ==> Below(e.key, y.key))
  {
    assert e in [e];
    assert forall x :: x in l + [e] <==> x in l || x == e;
  }

  /** The descent ends at the first entry that is not less than the key, whatever the shape of the tree. */
  lemma {:induction false} LowerBoundIs(t: Tree, k: Range, best: Found)
    requires Ordered(t)
    ensures LowerBound(t, k, best) == if First(Inorder(t), k).Hit? then First(Inorder(t), k) else best
  {
    match t
    case Leaf =>
    case Node(l, e, r) =>
      FirstConcat(Inorder(l) + [e], Inorder(r), k);
      FirstConcat(Inorder(l), [e], k);
      if !Less(e.key, k) {
        LowerBoundIs(l, k, Hit(e));
      } else {
        LowerBoundIs(r, k, best);
        ElemsListed(l);
        FirstOfLess(Inorder(l), k);
      }
  }

  lemma {:induction false} ScanMissing(s: seq<Entry>, k: Range)
    requires forall x :: x in s ==> !Equal(x.key, k)
    ensures Scan(s, k) == Missing
  {
    if s != [] {
      ScanMissing(s[1..], k);
    }
  }

  lemma {:induction false} FirstIsScan(s: seq<Entry>, k: Range)
    requires Sorted(s)
    ensures Scan(s, k) == if First(s, k).Hit? && Less(k, First(s, k).entry.key) then Missing else First(s, k)
  {
    if s != [] {
      if Less(s[0].key, k) {
        FirstIsScan(s[1..], k);
      } else if Less(k, s[0].key) {
        ScanMissing(s, k);
      }
    }
  }

  /** Lookup in a search tree, with the code's `<` alone, finds what a linear scan of the table finds. */
  lemma FindIsScan(t: Tree, k: Range)
    requires Sorted(Inorder(t))
    ensures Find(t, k) == Scan(Inorder(t), k)
  {
    OrderedIffSorted(t);
    LowerBoundIs(t, k, Missing);
    FirstIsScan(Inorder(t), k);
  }

  predicate Covers(k: Range, ip: nat) { k.from <= ip <= k.to }

  ghost predicate Leftmost(s: seq<Entry>, n: int, ip: nat) {
    0 <= n < |s| && Covers(s[n].key, ip) && forall i :: 0 <= i < n ==> !Covers(s[i].key, ip)
  }

  lemma {:induction false} ScanLeftmost(s: seq<Entry>, ip: nat)
    requires forall x :: x in s ==> Ok(x.key)
    ensures Scan(s, Point(ip)).Hit? ==> exists n :: Leftmost(s, n, ip) && s[n] == Scan(s, Point(ip)).entry
    ensures Scan(s, Point(ip)).Missing? <==> forall x :: x in s ==> !Covers(x.key, ip)
  {
    if s != [] {
      ScanLeftmost(s[1..], ip);
      var found := Scan(s, Point(ip));
      if Covers(s[0].key, ip) {
        assert Leftmost(s, 0, ip);
      } else if found.Hit? {
        var n :| Leftmost(s[1..], n, ip) && s[1..][n] == found.entry;
        assert forall i :: 1 <= i < |s| ==> s[i] == s[1..][i - 1];
        assert Leftmost(s, n + 1, ip);
      }
      assert forall x :: x in s <==> x == s[0] || x in s[1..];
    }
  }

  lemma {:induction false} SortedOk(s: seq<Entry>)
    requires Sorted(s)
    ensures forall x :: x in s ==> Ok(x.key)
  {
    if s != [] {
      SortedOk(s[1..]);
    }
  }

  /** find(ip) returns the leftmost stored range that contains ip, and misses exactly when there is none. */
  lemma FindAddress(t: Tree, ip: nat)
    requires Sorted(Inorder(t))
    ensures var s, found := Inorder(t), Find(t, Point(ip));
      && (found.Hit? ==> exists n :: Leftmost(s, n, ip) && s[n] == found.entry)
      && (found.Missing? <==> forall x :: x in s ==> !Covers(x.key, ip))
  {
    FindIsScan(t, Point(ip));
    SortedOk(Inorder(t));
    ScanLeftmost(Inorder(t), ip);
  }

  // ----- Inserts keep an antichain -----

  lemma {:induction false} AdmitsFrom(t: Tree, k: Range, before: Found)
    requires Ordered(t)
    requires before.Hit? ==> !Less(k, before.entry.key) && forall x :: x in Elems(t) ==> Below(before.entry.key, x.key)
    ensures var b := Before(t, k, before);
      (b.Missing? || Less(b.entry.key, k)) <==>
      ((before.Missing? || Less(before.entry.key, k)) && forall x :: x in Elems(t) ==> !Equal(x.key, k))
  {
    match t
    case Leaf =>
    case Node(l, e, r) =>
      if Less(k, e.key) {
        AdmitsFrom(l, k, before);
      } else {
        AdmitsFrom(r, k, Hit(e));
        assert e in Elems(t);
      }
  }

  /** An insert is accepted exactly when no stored range contains the new one or is contained in it. */
  lemma AdmitsIffIncomparable(t: Tree, k: Range)
    requires Sorted(Inorder(t))
    ensures Admits(t, k) <==> forall x :: x in Inorder(t) ==> !Equal(x.key, k)
  {
    OrderedIffSorted(t);
    AdmitsFrom(t, k, Missing);
    ElemsListed(t);
  }

  lemma {:induction false} AttachAdds(t: Tree, e: Entry)
    ensures multiset(Inorder(Attach(t, e))) == multiset(Inorder(t)) + multiset{e}
  {
    match t
    case Leaf =>
    case Node(l, y, r) =>
      if Less(e.key, y.key) {
        AttachAdds(l, e);
      } else {
        AttachAdds(r, e);
      }
  }

  lemma {:induction false} AttachElems(t: Tree, e: Entry)
    ensures Elems(Attach(t, e)) == Elems(t) + {e}
  {
    match t
    case Leaf =>
    case Node(l, y, r) =>
      if Less(e.key, y.key) {
        AttachElems(l, e);
      } else {
        AttachElems(r, e);
      }
  }

  lemma {:induction false} AttachKeeps(t: Tree, e: Entry)
    requires Ordered(t) && Ok(e.key) && forall x :: x in Elems(t) ==> !Equal(x.key, e.key)
    ensures Ordered(Attach(t, e))
  {
    match t
    case Leaf =>
    case Node(l, y, r) =>
      assert y in Elems(t);
      if Less(e.key, y.key) {
        AttachKeeps(l, e);
        AttachElems(l, e);
      } else {
        AttachKeeps(r, e);
        AttachElems(r, e);
      }
  }

  /** The table stays sorted; an accepted entry is added and nothing else changes; a rejected one leaves the table alone. */
  lemma InsertKeeps(t: Tree, e: Entry)
    requires Sorted(Inorder(t)) && Ok(e.key)
    ensures Sorted(Inorder(Inserted(t, e)))
    ensures !Admits(t, e.key) ==> Inserted(t, e) == t
    ensures Admits(t, e.key) ==> multiset(Inorder(Inserted(t, e))) == multiset(Inorder(t)) + multiset{e}
    ensures Elems(Inserted(t, e)) == Elems(t) + if Admits(t, e.key) then {e} else {}
  {
    OrderedIffSorted(t);
    AdmitsFrom(t, e.key, Missing);
    if Admits(t, e.key) {
      AttachKeeps(t, e);
      AttachAdds(t, e);
      AttachElems(t, e);
      OrderedIffSorted(Attach(t, e));
    }
  }

  // ----- Whole loads -----

  ghost function Listed(es: seq<Entry>): set<Entry> {
    set e | e in es
  }

  lemma ListedSnoc(es: seq<Entry>)
    requires es != []
    ensures Listed(es) == Listed(es[..|es| - 1]) + {es[|es| - 1]}
  {
    assert es == es[..|es| - 1] + [es[|es| - 1]];
  }

  ghost predicate InsertsLast(es: seq<Entry>, u: Tree, t: Tree) {
    es != [] && Inorder(t) == Inorder(Inserted(u, es[|es| - 1]))
  }

  /** Entries inserted one after another, with the tree brought into any other shape at any time. */
  ghost predicate Built(t0: Tree, es: seq<Entry>, t: Tree) {
    if es == [] then Inorder(t) == Inorder(t0)
    else exists u :: Built(t0, es[..|es| - 1], u) && InsertsLast(es, u, t)
  }

  lemma BuiltSnoc(t0: Tree, es: seq<Entry>, u: Tree, e: Entry, t: Tree)
    requires Built(t0, es, u) && Inorder(t) == Inorder(Inserted(u, e))
    ensures Built(t0, es + [e], t)
  {
    hide Inorder, Inserted;
    assert (es + [e])[..|es + [e]| - 1] == es;
    assert InsertsLast(es + [e], u, t);
  }

  ghost predicate AllOk(es: seq<Entry>) {
    forall i :: 0 <= i < |es| ==> Ok(es[i].key)
  }

  lemma SameElems(a: Tree, b: Tree)
    requires Inorder(a) == Inorder(b)
    ensures Elems(a) == Elems(b)
  {
    ElemsListed(a);
    ElemsListed(b);
  }

  /** Every table that inserts build is an antichain, and everything in it was inserted. */
  lemma {:induction false} LoadSorted(es: seq<Entry>, t: Tree)
    requires AllOk(es) && Built(Leaf, es, t)
    ensures Sorted(Inorder(t)) && Elems(t) <= Listed(es)
  {
    hide Inserted, Admits, Listed, Inorder, Sorted, Elems;
    if es == [] {
      LeafSorted();
      SameElems(t, Leaf);
    } else {
      var front, e := es[..|es| - 1], es[|es| - 1];
      var u :| Built(Leaf, front, u) && InsertsLast(es, u, t);
      LoadSorted(front, u);
      InsertKeeps(u, e);
      SameElems(t, Inserted(u, e));
      ListedSnoc(es);
    }
  }

  lemma LeafSorted()
    ensures Sorted(Inorder(Leaf)) && Elems(Leaf) == {}
  {
  }

  lemma {:induction false} SortedSame(a: seq<Entry>, b: seq<Entry>)
    requires Sorted(a) && Sorted(b) && forall x :: x in a <==> x in b
    ensures a == b
  {
    assert (a != [] ==> a[0] in b) && (b != [] ==> b[0] in a);
    if a != [] {
      assert a == [a[0]] + a[1..] && b == [b[0]] + b[1..];
      assert a[0] == b[0];
      assert a[0] !in a[1..] && b[0] !in b[1..];
      assert forall x :: x in a[1..] <==> x in a && x != a[0];
      assert forall x :: x in b[1..] <==> x in b && x != b[0];
      SortedSame(a[1..], b[1..]);
    }
  }

  /** An insert into another shape of the same table makes the same table. */
  lemma InsertAnyShape(a: Tree, b: Tree, e: Entry)
    requires Sorted(Inorder(a)) && Inorder(a) == Inorder(b) && Ok(e.key)
    ensures Admits(a, e.key) == Admits(b, e.key)
    ensures Inorder(Inserted(a, e)) == Inorder(Inserted(b, e))
  {
    hide Inserted, Admits, Inorder, Sorted, Elems, Equal;
    AdmitsIffIncomparable(a, e.key);
    AdmitsIffIncomparable(b, e.key);
    InsertKeeps(a, e);
    InsertKeeps(b, e);
    SameElems(a, b);
    ElemsListed(Inserted(a, e));
    ElemsListed(Inserted(b, e));
    SortedSame(Inorder(Inserted(a, e)), Inorder(Inserted(b, e)));
  }

  /** A load has one result, however the map shapes its tree on the way. */
  lemma {:induction false} BuiltOnce(es: seq<Entry>, t: Tree, t': Tree)
    requires AllOk(es) && Built(Leaf, es, t) && Built(Leaf, es, t')
    ensures Inorder(t) == Inorder(t')
  {
    hide Inserted, Admits, Inorder, Sorted, Elems;
    if es != [] {
      var front := es[..|es| - 1];
      var u :| Built(Leaf, front, u) && InsertsLast(es, u, t);
      var u' :| Built(Leaf, front, u') && InsertsLast(es, u', t');
      BuiltOnce(front, u, u');
      LoadSorted(front, u);
      InsertAnyShape(u, u', es[|es| - 1]);
    }
  }

  ghost predicate Disjoint(es: seq<Entry>) {
    forall i, j :: 0 <= i < j < |es| ==> es[i].key.to < es[j].key.from || es[j].key.to < es[i].key.from
  }

  /** Disjoint ranges are all kept. */
  lemma {:induction false} DisjointLoadKeepsAll(es: seq<Entry>, t: Tree)
    requires AllOk(es) && Disjoint(es) && Built(Leaf, es, t)
    ensures Elems(t) == Listed(es)
  {
    hide Inserted, Admits, Equal, Inorder, Sorted, Elems, Listed;
    if es == [] {
      SameElems(t, Leaf);
      LeafSorted();
      assert Listed(es) == {} by { NothingListed(); }
    } else {
      var front, e := es[..|es| - 1], es[|es| - 1];
      var u :| Built(Leaf, front, u) && InsertsLast(es, u, t);
      ListedSnoc(es);
      LoadSorted(front, u);
      DisjointLoadKeepsAll(front, u);
      LastIncomparable(es);
      ElemsListed(u);
      AdmitsIffIncomparable(u, e.key);
      InsertKeeps(u, e);
      SameElems(t, Inserted(u, e));
    }
  }

  lemma NothingListed()
    ensures Listed([]) == {}
  {
  }

  lemma LastIncomparable(es: seq<Entry>)
    requires AllOk(es) && Disjoint(es) && es != []
    ensures forall x :: x in Listed(es[..|es| - 1]) ==> !Equal(x.key, es[|es| - 1].key)
  {
    forall x | x in Listed(es[..|es| - 1]) ensures !Equal(x.key, es[|es| - 1].key) {
      var i :| 0 <= i < |es| - 1 && es[..|es| - 1][i] == x;
      assert es[i] == x;
    }
  }

  /** With disjoint ranges, in any order of loading and any shape of tree, every address is looked up in its own range. */
  lemma DisjointLookup(es: seq<Entry>, t: Tree, n: nat, ip: nat)
    requires AllOk(es) && Disjoint(es) && Built(Leaf, es, t)
    requires n < |es| && Covers(es[n].key, ip)
    ensures Find(t, Point(ip)) == Hit(es[n])
  {
    hide Sorted, Inorder, Find, Built, Elems;
    LoadSorted(es, t);
    DisjointLoadKeepsAll(es, t);
    ElemsListed(t);
    FindAddress(t, ip);
    assert es[n] in Listed(es);
    var found := Find(t, Point(ip));
    assert found.Hit?;
    assert found.entry in Listed(es);
    var m :| 0 <= m < |es| && es[m] == found.entry;
  }

  // ----- The table -----

  /** An IP_TABLE: its map is a search tree. */
  class IpTable {
    var root: Tree

    ghost predicate Valid()
      reads this
    {
      Sorted(Inorder(root))
    }

    constructor ()
      ensures Valid() && Inorder(root) == []
    {
      root := Leaf;
    }

    method Insert(from: nat, to: nat, value: Origin) returns (accepted: bool)
      requires Valid() && from <= to
      modifies this
      ensures Valid() && Inorder(root) == Inorder(Inserted(old(root), Entry(Range(from, to), value)))
      ensures accepted <==> forall x :: x in old(Inorder(root)) ==> !Equal(x.key, Range(from, to))
      ensures !accepted ==> root == old(root)
      ensures accepted ==>
                multiset(Inorder(root)) == multiset(old(Inorder(root))) + multiset{Entry(Range(from, to), value)}
    {
      var e := Entry(Range(from, to), value);
      AdmitsIffIncomparable(root, e.key);
      InsertKeeps(root, e);
      accepted := Admits(root, e.key);
      if accepted {
        root := Attach(root, e);
        Rebalance();
      }
    }

    /** std::map brings its tree into a shape of its own choice; the order of the entries stays. */
    method Rebalance()
      requires Valid()
      modifies this
      ensures Valid() && Inorder(root) == old(Inorder(root))
    {
      var t: Tree := *;
      if Inorder(t) == Inorder(root) {
        root := t;
      }
    }

    method GetValue(ip: nat) returns (v: Origin)
      requires Valid()
      ensures v == match Scan(Inorder(root), Point(ip)) case Hit(e) => e.value case Missing => Origin(0, 0)
    {
      FindIsScan(root, Point(ip));
      var found := Find(root, Point(ip));
      v := if found.Hit? then found.entry.value else Origin(0, 0);
    }
  }
}
