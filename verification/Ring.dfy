/** The consistent-hash ring as a value: points on a 64-bit circle, each owned by a node.
    The hash of a virtual node is an uninterpreted function. */
module Ring {
  import opened Bytes
  import opened Ordering

  const Circle := 0x1_0000_0000_0000_0000

  type Point = x: nat | x < 0x1_0000_0000_0000_0000

  /** Where the virtual nodes of each name lie, and how many each has. */
  datatype Layout = Layout(point: (string, nat) -> Point, vnodes: nat)

  datatype RingState = RingState(nodes: seq<Point>, owners: map<Point, string>)

  predicate Ascending(a: Point, b: Point) {
    a <= b
  }

  function Lookup(owners: map<Point, string>, p: Point): string {
    if p in owners then owners[p] else ""
  }

  // ---- The two updates ----

  function Points(l: Layout, name: string, k: nat): (ps: seq<Point>)
    ensures |ps| == k && forall i | 0 <= i < k :: ps[i] == l.point(name, i)
  {
    seq<Point>(k, i requires 0 <= i < k => l.point(name, i))
  }

  function Owned(l: Layout, owners: map<Point, string>, name: string, k: nat): map<Point, string> {
    if k == 0 then owners else Owned(l, owners, name, k - 1)[l.point(name, k - 1) := name]
  }

  /** `ring.add`: append every virtual node, then sort. */
  function Added(l: Layout, r: RingState, name: string): RingState {
    RingState(Sort(r.nodes + Points(l, name, l.vnodes), Ascending), Owned(l, r.owners, name, l.vnodes))
  }

  /** `ring.remove` after its first `k` points. */
  function Strip(r: RingState, name: string, k: nat): RingState
    requires k <= |r.nodes|
  {
    if k == 0 then RingState([], r.owners)
    else
      var done := Strip(r, name, k - 1);
      var h := r.nodes[k - 1];
      if Lookup(done.owners, h) == name then RingState(done.nodes, done.owners - {h})
      else RingState(done.nodes + [h], done.owners)
  }

  function Removed(r: RingState, name: string): RingState {
    Strip(r, name, |r.nodes|)
  }

  // ---- What a ring should be ----

  /** No two virtual nodes of these names share a point. */
  ghost predicate Distinct(l: Layout, names: set<string>) {
    forall a, b, i, j | a in names && b in names && 0 <= i < l.vnodes && 0 <= j < l.vnodes ::
      l.point(a, i) == l.point(b, j) ==> a == b && i == j
  }

  ghost predicate Strict(nodes: seq<Point>) {
    forall i, j | 0 <= i < j < |nodes| :: nodes[i] < nodes[j]
  }

  predicate Placed(l: Layout, name: string, p: Point) {
    exists i | 0 <= i < l.vnodes :: l.point(name, i) == p
  }

  /** The ring of exactly these names. */
  ghost predicate IsRing(l: Layout, names: set<string>, r: RingState) {
    && Strict(r.nodes)
    && (forall p | p in r.nodes :: p in r.owners && r.owners[p] in names && Placed(l, r.owners[p], p))
    && (forall p | p in r.owners :: p in r.nodes)
    && (forall n, i | n in names && 0 <= i < l.vnodes :: l.point(n, i) in r.nodes)
  }

  lemma AscendingTotal()
    ensures TotalOrder(Ascending)
  {}

  lemma CountTwo(s: seq<Point>, i: nat, j: nat)
    requires i < j < |s| && s[i] == s[j]
    ensures multiset(s)[s[i]] >= 2
  {
    assert s == s[..j] + s[j..] && s[i] in s[..j] && s[j] in s[j..];
    assert multiset(s) == multiset(s[..j]) + multiset(s[j..]);
  }

  /** Sorting distinct points puts them in strict order. */
  lemma SortStrict(s: seq<Point>)
    requires NoRepeats(s)
    ensures Strict(Sort(s, Ascending))
  {
    AscendingTotal();
    var t := Sort(s, Ascending);
    forall i, j | 0 <= i < j < |t| ensures t[i] < t[j] {
      CountOne(s, t[i]);
      if t[i] == t[j] { CountTwo(t, i, j); }
      assert Ascending(t[i], t[j]);
    }
  }

  lemma {:induction false} OwnedAt(l: Layout, owners: map<Point, string>, name: string, k: nat)
    ensures forall p | p in Owned(l, owners, name, k) ::
              (p in owners && Owned(l, owners, name, k)[p] == owners[p])
              || (Owned(l, owners, name, k)[p] == name && exists i | 0 <= i < k :: l.point(name, i) == p)
    ensures forall p | p in owners :: p in Owned(l, owners, name, k)
    ensures forall i | 0 <= i < k :: l.point(name, i) in Owned(l, owners, name, k)
                                     && Owned(l, owners, name, k)[l.point(name, i)] == name
  {
    if k > 0 { OwnedAt(l, owners, name, k - 1); }
  }

  lemma AddedDistinct(l: Layout, names: set<string>, r: RingState, name: string)
    requires IsRing(l, names, r) && name !in names && Distinct(l, names + {name})
    ensures NoRepeats(r.nodes + Points(l, name, l.vnodes))
  {
    var s := r.nodes + Points(l, name, l.vnodes);
    forall i, j | 0 <= i < j < |s| ensures s[i] != s[j] {
      if i < |r.nodes| <= j {
        assert s[i] in r.nodes;
        var k :| 0 <= k < l.vnodes && l.point(r.owners[s[i]], k) == s[i];
        assert s[j] == l.point(name, j - |r.nodes|);
      } else if |r.nodes| <= i {
        assert s[i] == l.point(name, i - |r.nodes|) && s[j] == l.point(name, j - |r.nodes|);
      }
    }
  }

  lemma AddedPoints(l: Layout, r: RingState, name: string, p: Point)
    ensures p in Added(l, r, name).nodes <==> p in r.nodes || Placed(l, name, p)
  {
    var ps := Points(l, name, l.vnodes);
    var s := r.nodes + ps;
    assert p in Sort(s, Ascending) <==> p in multiset(Sort(s, Ascending));
    assert p in s <==> p in multiset(s);
    if Placed(l, name, p) {
      var i :| 0 <= i < l.vnodes && l.point(name, i) == p;
      assert ps[i] == p;
    }
  }

  lemma AddKeepsRing(l: Layout, names: set<string>, r: RingState, name: string)
    requires IsRing(l, names, r) && name !in names && Distinct(l, names + {name})
    ensures IsRing(l, names + {name}, Added(l, r, name))
  {
    AddedDistinct(l, names, r, name);
    SortStrict(r.nodes + Points(l, name, l.vnodes));
    OwnedAt(l, r.owners, name, l.vnodes);
    var u := Added(l, r, name);
    forall p ensures p in u.nodes <==> p in r.nodes || Placed(l, name, p) { AddedPoints(l, r, name, p); }
    forall p | p in u.nodes ensures p in u.owners && u.owners[p] in names + {name} && Placed(l, u.owners[p], p) {}
    forall n, i | n in names + {name} && 0 <= i < l.vnodes ensures l.point(n, i) in u.nodes {
      if n == name { assert Placed(l, name, l.point(n, i)); }
    }
  }

  /** The points and owners left once the first `k` points were looked at. */
  ghost predicate Stripped(r: RingState, name: string, k: nat, u: RingState)
    requires k <= |r.nodes| && forall p | p in r.nodes :: p in r.owners
  {
    && Strict(u.nodes)
    && (forall p | p in u.nodes :: p in r.nodes[..k] && r.owners[p] != name)
    && (forall i | 0 <= i < k && r.owners[r.nodes[i]] != name :: r.nodes[i] in u.nodes)
    && (forall p | p in u.owners :: p in r.owners && u.owners[p] == r.owners[p])
    && (forall i | 0 <= i < |r.nodes| :: r.nodes[i] in u.owners <==> k <= i || r.owners[r.nodes[i]] != name)
  }

  lemma StripStep(r: RingState, name: string, k: nat)
    requires 0 < k <= |r.nodes| && Strict(r.nodes) && forall p | p in r.nodes :: p in r.owners
    requires Stripped(r, name, k - 1, Strip(r, name, k - 1))
    ensures Stripped(r, name, k, Strip(r, name, k))
  {
    var h, done := r.nodes[k - 1], Strip(r, name, k - 1);
    assert h in done.owners && done.owners[h] == r.owners[h];
    if r.owners[h] == name { StripDrop(r, name, k, done); } else { StripKeep(r, name, k, done); }
  }

  lemma StripDrop(r: RingState, name: string, k: nat, done: RingState)
    requires 0 < k <= |r.nodes| && Strict(r.nodes) && forall p | p in r.nodes :: p in r.owners
    requires Stripped(r, name, k - 1, done) && r.owners[r.nodes[k - 1]] == name
    ensures Stripped(r, name, k, RingState(done.nodes, done.owners - {r.nodes[k - 1]}))
  {
    assert r.nodes[..k] == r.nodes[..k - 1] + [r.nodes[k - 1]];
  }

  lemma StripKeep(r: RingState, name: string, k: nat, done: RingState)
    requires 0 < k <= |r.nodes| && Strict(r.nodes) && forall p | p in r.nodes :: p in r.owners
    requires Stripped(r, name, k - 1, done) && r.owners[r.nodes[k - 1]] != name
    ensures Stripped(r, name, k, RingState(done.nodes + [r.nodes[k - 1]], done.owners))
  {
    var h := r.nodes[k - 1];
    assert r.nodes[..k] == r.nodes[..k - 1] + [h];
    forall i | 0 <= i < |done.nodes| ensures done.nodes[i] < h {
      assert done.nodes[i] in done.nodes;
    }
  }

  lemma {:induction false} StripSplits(r: RingState, name: string, k: nat)
    requires Strict(r.nodes) && k <= |r.nodes| && forall p | p in r.nodes :: p in r.owners
    ensures Stripped(r, name, k, Strip(r, name, k))
  {
    if k > 0 {
      StripSplits(r, name, k - 1);
      StripStep(r, name, k);
    }
  }

  lemma RemoveKeepsRing(l: Layout, names: set<string>, r: RingState, name: string)
    requires IsRing(l, names, r) && Distinct(l, names)
    ensures IsRing(l, names - {name}, Removed(r, name))
  {
    StripSplits(r, name, |r.nodes|);
    assert r.nodes[..|r.nodes|] == r.nodes;
    StrippedIsRing(l, names, r, name, Removed(r, name));
  }

  lemma StrippedIsRing(l: Layout, names: set<string>, r: RingState, name: string, u: RingState)
    requires IsRing(l, names, r) && Distinct(l, names) && Stripped(r, name, |r.nodes|, u)
    ensures IsRing(l, names - {name}, u)
  {
    assert forall p | p in u.owners :: p in r.nodes;
    forall n, i | n in names - {name} && 0 <= i < l.vnodes ensures l.point(n, i) in u.nodes {
      PointOwner(l, names, r, n, i);
    }
  }

  lemma PointOwner(l: Layout, names: set<string>, r: RingState, n: string, i: nat)
    requires IsRing(l, names, r) && Distinct(l, names) && n in names && i < l.vnodes
    ensures l.point(n, i) in r.nodes && r.owners[l.point(n, i)] == n
  {
    var p := l.point(n, i);
    assert p in r.nodes;
    var j :| 0 <= j < l.vnodes && l.point(r.owners[p], j) == p;
  }

  /** Removing a name first makes adding it again harmless. */
  lemma ReaddKeepsRing(l: Layout, names: set<string>, r: RingState, name: string)
    requires IsRing(l, names, r) && Distinct(l, names + {name})
    ensures IsRing(l, names + {name}, Added(l, Removed(r, name), name))
  {
    RemoveKeepsRing(l, names, r, name);
    assert names - {name} + {name} == names + {name};
    AddKeepsRing(l, names - {name}, Removed(r, name), name);
  }

  lemma EmptyRing(l: Layout)
    ensures IsRing(l, {}, RingState([], map[]))
  {}

  /** The names alone determine the ring, whatever happened before. */
  lemma RingIsUnique(l: Layout, names: set<string>, r: RingState, u: RingState)
    requires IsRing(l, names, r) && IsRing(l, names, u) && Distinct(l, names)
    ensures r == u
  {
    forall p | p in r.nodes ensures p in u.nodes && r.owners[p] == u.owners[p] { SamePoint(l, names, r, u, p); }
    forall p | p in u.nodes ensures p in r.nodes { SamePoint(l, names, u, r, p); }
    StrictUnique(r.nodes, u.nodes);
  }

  lemma SamePoint(l: Layout, names: set<string>, r: RingState, u: RingState, p: Point)
    requires IsRing(l, names, r) && IsRing(l, names, u) && Distinct(l, names) && p in r.nodes
    ensures p in u.nodes && r.owners[p] == u.owners[p]
  {
    var i :| 0 <= i < l.vnodes && l.point(r.owners[p], i) == p;
    assert p in u.nodes;
    var j :| 0 <= j < l.vnodes && l.point(u.owners[p], j) == p;
  }

  lemma StrictUnique(a: seq<Point>, b: seq<Point>)
    requires Strict(a) && Strict(b) && forall p :: p in a <==> p in b
    ensures a == b
  {
    AscendingTotal();
    SameBag(a, b);
    SortedUnique(a, b, Ascending);
  }

  /** Removing a name right after adding it restores the ring. */
  lemma RemoveUndoesAdd(l: Layout, names: set<string>, r: RingState, name: string)
    requires IsRing(l, names, r) && name !in names && Distinct(l, names + {name})
    ensures Removed(Added(l, r, name), name) == r
  {
    AddKeepsRing(l, names, r, name);
    RemoveKeepsRing(l, names + {name}, Added(l, r, name), name);
    assert names + {name} - {name} == names;
    RingIsUnique(l, names, Removed(Added(l, r, name), name), r);
  }

  // ---- Shared points ----

  /** A point owned by the removed name is nobody's once it has been looked at. */
  lemma {:induction false} StripDisowns(r: RingState, name: string, k: nat, i: nat)
    requires i < k <= |r.nodes| && Lookup(r.owners, r.nodes[i]) == name
    ensures name != "" ==> r.nodes[i] !in Strip(r, name, k).owners
    decreases k
  {
    if name != "" {
      StripOnlyDeletes(r, name, k - 1);
      if i < k - 1 { StripDisowns(r, name, k - 1, i); }
    }
  }

  lemma {:induction false} StripOnlyDeletes(r: RingState, name: string, k: nat)
    requires k <= |r.nodes|
    ensures var u := Strip(r, name, k); forall p | p in u.owners :: p in r.owners && u.owners[p] == r.owners[p]
  {
    if k > 0 { StripOnlyDeletes(r, name, k - 1); }
  }

  /** A second copy of such a point no longer belongs to the name, and stays. */
  lemma {:induction false} StripKeepsSecond(r: RingState, name: string, k: nat, i: nat, j: nat)
    requires i < j < k <= |r.nodes| && r.nodes[i] == r.nodes[j] && name != "" && Lookup(r.owners, r.nodes[i]) == name
    ensures r.nodes[j] in Strip(r, name, k).nodes
    decreases k
  {
    if j < k - 1 {
      StripKeepsSecond(r, name, k - 1, i, j);
    } else {
      StripDisowns(r, name, k - 1, i);
    }
  }

  /** What is counted twice has two places. */
  lemma {:induction false} TwoPlaces(s: seq<Point>, p: Point) returns (i: nat, j: nat)
    requires multiset(s)[p] >= 2
    ensures i < j < |s| && s[i] == s[j] == p
  {
    assert s == [s[0]] + s[1..];
    if s[0] == p {
      assert p in multiset(s[1..]);
      i, j := 0, 1;
      while s[j] != p
        invariant 1 <= j < |s| && p in s[j..]
        decreases |s| - j
      {
        assert s[j..] == [s[j]] + s[j + 1..];
        j := j + 1;
      }
    } else {
      i, j := TwoPlaces(s[1..], p);
      i, j := i + 1, j + 1;
    }
  }

  /** A point of the added name that somebody else holds, or that the name holds twice, is
      disowned by the removal and left behind on the ring. */
  lemma SharedPointIsLeftBehind(l: Layout, r: RingState, name: string, p: Point)
    requires name != "" && multiset(r.nodes + Points(l, name, l.vnodes))[p] >= 2 && Placed(l, name, p)
    ensures var u := Removed(Added(l, r, name), name); p in u.nodes && p !in u.owners
  {
    var both := Added(l, r, name);
    OwnedAt(l, r.owners, name, l.vnodes);
    var i, j := TwoPlaces(both.nodes, p);
    StripKeepsSecond(both, name, |both.nodes|, i, j);
    StripDisowns(both, name, |both.nodes|, i);
  }

  lemma {:induction false} TwiceAmong(l: Layout, name: string, k: nat, i: nat, j: nat)
    requires i < j < k && l.point(name, i) == l.point(name, j)
    ensures multiset(Points(l, name, k))[l.point(name, i)] >= 2
  {
    CountTwo(Points(l, name, k), i, j);
  }

  /** With a shared point the history shows: joining and leaving again takes a peer's point away. */
  lemma CollisionForgetsAPeer(l: Layout, names: set<string>, r: RingState, name: string, i: nat, m: string, j: nat)
    requires IsRing(l, names, r) && name !in names && name != "" && m in names && i < l.vnodes && j < l.vnodes
    requires l.point(name, i) == l.point(m, j)
    ensures var p, u := l.point(m, j), Removed(Added(l, r, name), name);
            p in r.nodes && p in r.owners && r.owners[p] in names && p in u.nodes && p !in u.owners
  {
    var p := l.point(m, j);
    assert p in r.nodes;
    var ps := Points(l, name, l.vnodes);
    assert ps[i] == p && p in ps;
    assert multiset(r.nodes + ps)[p] == multiset(r.nodes)[p] + multiset(ps)[p];
    assert p in multiset(r.nodes) && p in multiset(ps);
    SharedPointIsLeftBehind(l, r, name, p);
  }

  /** A name on two of its own points: one of them stays behind when it leaves. */
  lemma SelfCollisionStays(l: Layout, names: set<string>, r: RingState, name: string, i: nat, j: nat)
    requires IsRing(l, names, r) && name != "" && i < j < l.vnodes && l.point(name, i) == l.point(name, j)
    ensures var p, u := l.point(name, i), Removed(Added(l, r, name), name); p in u.nodes && p !in u.owners
  {
    var p, ps := l.point(name, i), Points(l, name, l.vnodes);
    TwiceAmong(l, name, l.vnodes, i, j);
    assert multiset(r.nodes + ps)[p] == multiset(r.nodes)[p] + multiset(ps)[p];
    SharedPointIsLeftBehind(l, r, name, p);
  }

  /** Removing right after adding restores the ring exactly when no virtual node of the name
      shares a point with another one. */
  lemma RemoveUndoesAddIffDistinct(l: Layout, names: set<string>, r: RingState, name: string)
    requires IsRing(l, names, r) && Distinct(l, names) && name !in names && name != ""
    ensures Removed(Added(l, r, name), name) == r <==> Distinct(l, names + {name})
  {
    if Distinct(l, names + {name}) {
      RemoveUndoesAdd(l, names, r, name);
    } else {
      var a, b, i, j :| a in names + {name} && b in names + {name} && 0 <= i < l.vnodes && 0 <= j < l.vnodes
                        && l.point(a, i) == l.point(b, j) && !(a == b && i == j);
      if a in names {
        CollisionForgetsAPeer(l, names, r, name, j, a, i);
      } else if b in names {
        CollisionForgetsAPeer(l, names, r, name, i, b, j);
      } else {
        SelfCollisionStays(l, names, r, name, if i < j then i else j, if i < j then j else i);
      }
    }
  }

  // ---- Ownership ----

  /** Clockwise distance from a key to a point. */
  function Distance(h: Point, p: Point): nat {
    if p >= h then p - h else p + Circle - h
  }

  ghost predicate Nearest(nodes: seq<Point>, h: Point, p: Point) {
    p in nodes && forall q | q in nodes :: Distance(h, p) <= Distance(h, q)
  }

  /** Some point of `name` is the first one clockwise of `h`, among all points of `names`. */
  ghost predicate Owns(l: Layout, names: set<string>, h: Point, name: string) {
    name in names && exists i | 0 <= i < l.vnodes :: FirstPoint(l, names, h, l.point(name, i))
  }

  ghost predicate FirstPoint(l: Layout, names: set<string>, h: Point, p: Point) {
    forall n, j | n in names && 0 <= j < l.vnodes :: Distance(h, p) <= Distance(h, l.point(n, j))
  }

  lemma NearestOwns(l: Layout, names: set<string>, r: RingState, h: Point, p: Point)
    requires IsRing(l, names, r) && Nearest(r.nodes, h, p)
    ensures Owns(l, names, h, r.owners[p])
  {
    var i :| 0 <= i < l.vnodes && l.point(r.owners[p], i) == p;
    assert FirstPoint(l, names, h, l.point(r.owners[p], i));
  }

  /** Every key has one owner. */
  lemma OwnerIsUnique(l: Layout, names: set<string>, h: Point, a: string, b: string)
    requires Distinct(l, names) && Owns(l, names, h, a) && Owns(l, names, h, b)
    ensures a == b
  {
    var i :| 0 <= i < l.vnodes && FirstPoint(l, names, h, l.point(a, i));
    var j :| 0 <= j < l.vnodes && FirstPoint(l, names, h, l.point(b, j));
    assert Distance(h, l.point(a, i)) == Distance(h, l.point(b, j));
  }

  /** Removing a node moves only the keys it owned. */
  lemma RemovalMovesOnlyItsKeys(l: Layout, names: set<string>, gone: string, h: Point, a: string, b: string)
    requires Distinct(l, names) && Owns(l, names, h, a) && Owns(l, names - {gone}, h, b)
    ensures a != gone ==> a == b
  {
    if a != gone {
      var i :| 0 <= i < l.vnodes && FirstPoint(l, names, h, l.point(a, i));
      assert FirstPoint(l, names - {gone}, h, l.point(a, i));
      OwnerIsUnique(l, names - {gone}, h, a, b);
    }
  }

  /** Adding a node moves keys only to it. */
  lemma AdditionMovesOnlyToIt(l: Layout, names: set<string>, came: string, h: Point, a: string, b: string)
    requires came !in names && Distinct(l, names + {came})
    requires Owns(l, names, h, a) && Owns(l, names + {came}, h, b)
    ensures b == a || b == came
  {
    assert names + {came} - {came} == names;
    RemovalMovesOnlyItsKeys(l, names + {came}, came, h, b, a);
  }

  /** The two movement laws on the rings themselves: `p` and `q` are the points the search
      finds before and after. */
  lemma RemovalOnTheRing(l: Layout, names: set<string>, r: RingState, gone: string, h: Point, p: Point, q: Point)
    requires IsRing(l, names, r) && Distinct(l, names)
    requires Nearest(r.nodes, h, p) && Nearest(Removed(r, gone).nodes, h, q)
    ensures r.owners[p] != gone ==> q in Removed(r, gone).owners && Removed(r, gone).owners[q] == r.owners[p]
  {
    var u := Removed(r, gone);
    RemoveKeepsRing(l, names, r, gone);
    NearestOwns(l, names, r, h, p);
    NearestOwns(l, names - {gone}, u, h, q);
    RemovalMovesOnlyItsKeys(l, names, gone, h, r.owners[p], u.owners[q]);
  }

  lemma AdditionOnTheRing(l: Layout, names: set<string>, r: RingState, came: string, h: Point, p: Point, q: Point)
    requires IsRing(l, names, r) && came !in names && Distinct(l, names + {came})
    requires Nearest(r.nodes, h, p) && Nearest(Added(l, r, came).nodes, h, q)
    ensures var u := Added(l, r, came); q in u.owners && (u.owners[q] == r.owners[p] || u.owners[q] == came)
  {
    var u := Added(l, r, came);
    AddKeepsRing(l, names, r, came);
    NearestOwns(l, names, r, h, p);
    NearestOwns(l, names + {came}, u, h, q);
    AdditionMovesOnlyToIt(l, names, came, h, r.owners[p], u.owners[q]);
  }

  // ---- Digests ----

  function PointSet(l: Layout, names: set<string>): set<Point> {
    set n, i | n in names && 0 <= i < l.vnodes :: l.point(n, i)
  }

  lemma {:induction false} PointsSize(l: Layout, name: string, k: nat)
    requires k <= l.vnodes && Distinct(l, {name})
    ensures |set i | 0 <= i < k :: l.point(name, i)| == k
  {
    if k > 0 {
      PointsSize(l, name, k - 1);
      var less := set i | 0 <= i < k - 1 :: l.point(name, i);
      assert l.point(name, k - 1) !in less;
      assert (set i | 0 <= i < k :: l.point(name, i)) == less + {l.point(name, k - 1)};
    }
  }

  lemma PointSetSplit(l: Layout, names: set<string>, n: string)
    requires Distinct(l, names) && n in names
    ensures |PointSet(l, names)| == |PointSet(l, names - {n})| + l.vnodes
  {
    PointsSize(l, n, l.vnodes);
    PointSetParts(l, names, n);
  }

  lemma PointSetParts(l: Layout, names: set<string>, n: string)
    requires Distinct(l, names) && n in names
    ensures var own := set i | 0 <= i < l.vnodes :: l.point(n, i);
            PointSet(l, names - {n}) !! own && PointSet(l, names) == PointSet(l, names - {n}) + own
  {
    var own, rest := set i | 0 <= i < l.vnodes :: l.point(n, i), PointSet(l, names - {n});
    forall p | p in PointSet(l, names) ensures p in rest + own {
      var m, i :| m in names && 0 <= i < l.vnodes && l.point(m, i) == p;
      if m != n { assert m in names - {n}; }
    }
  }

  lemma {:induction false} PointSetSize(l: Layout, names: set<string>)
    requires Distinct(l, names)
    ensures |PointSet(l, names)| == |names| * l.vnodes
  {
    if names != {} {
      var n :| n in names;
      PointSetSize(l, names - {n});
      PointSetSplit(l, names, n);
      assert |names| == |names - {n}| + 1;
      assert |names| * l.vnodes == |names - {n}| * l.vnodes + l.vnodes;
    }
  }

  /** The digest's `Size` is the number of names on the ring. */
  lemma DigestSize(l: Layout, names: set<string>, r: RingState)
    requires IsRing(l, names, r) && Distinct(l, names) && l.vnodes > 0
    ensures |r.owners| / l.vnodes == |names|
  {
    forall p ensures p in r.owners.Keys <==> p in PointSet(l, names) {
      if p in r.owners { var i :| 0 <= i < l.vnodes && l.point(r.owners[p], i) == p; }
    }
    assert r.owners.Keys == PointSet(l, names);
    PointSetSize(l, names);
    assert |r.owners| == |r.owners.Keys|;
    Quotient(|names|, l.vnodes);
  }

  lemma Quotient(a: nat, b: nat)
    requires b > 0
    ensures a * b / b == a
  {
    QuotientIs(a, b, a * b / b, a * b % b);
  }

  lemma QuotientIs(a: nat, b: nat, q: int, r: nat)
    requires a * b == q * b + r && r < b
    ensures a == q
  {
    if a > q { Scaled(q + 1, a, b); }
    if a < q { Scaled(a, q - 1, b); }
  }

  lemma Scaled(x: int, y: int, b: nat)
    requires x <= y
    ensures x * b <= y * b
  {}

  /** What `digest` feeds to its hash. */
  function DigestInput(nodes: seq<Point>): (b: seq<Byte>)
    ensures |b| == 8 * |nodes|
  {
    if nodes == [] then [] else BigEndian(nodes[0], 8) + DigestInput(nodes[1..])
  }

  lemma {:induction false} DigestInputInjective(a: seq<Point>, b: seq<Point>)
    requires DigestInput(a) == DigestInput(b)
    ensures a == b
  {
    assert |DigestInput(a)| == 8 * |a| && |DigestInput(b)| == 8 * |b|;
    if a != [] {
      assert BigEndian(a[0], 8) == DigestInput(a)[..8] && BigEndian(b[0], 8) == DigestInput(b)[..8];
      assert DigestInput(a[1..]) == DigestInput(a)[8..] && DigestInput(b[1..]) == DigestInput(b)[8..];
      Pow256Known();
      BigEndianInjective(a[0], b[0], 8);
      DigestInputInjective(a[1..], b[1..]);
    }
  }

  /** Two nodes feed their digests the same bytes exactly when they know the same peers. */
  lemma DigestsMatchIffPeersMatch(l: Layout, a: set<string>, b: set<string>, r: RingState, u: RingState)
    requires IsRing(l, a, r) && IsRing(l, b, u) && Distinct(l, a + b) && l.vnodes > 0
    ensures DigestInput(r.nodes) == DigestInput(u.nodes) <==> a == b
  {
    if a == b {
      RingIsUnique(l, a, r, u);
    }
    if DigestInput(r.nodes) == DigestInput(u.nodes) {
      DigestInputInjective(r.nodes, u.nodes);
      KnowsAll(l, a, b, r, u);
      KnowsAll(l, b, a, u, r);
    }
  }

  lemma KnowsAll(l: Layout, a: set<string>, b: set<string>, r: RingState, u: RingState)
    requires IsRing(l, a, r) && IsRing(l, b, u) && Distinct(l, a + b) && l.vnodes > 0 && r.nodes == u.nodes
    ensures a <= b
  {
    forall n | n in a ensures n in b {
      var p := l.point(n, 0);
      assert p in u.nodes;
      var j :| 0 <= j < l.vnodes && l.point(u.owners[p], j) == p;
    }
  }
}

/** A node's view of the cluster: its peers and the ring it routes by. */
module Membership {
  import opened Ordering
  import opened Ring

  class HashRing {
    const layout: Layout
    var nodes: seq<Point>
    var owners: map<Point, string>

    ghost function State(): RingState
      reads this
    {
      RingState(nodes, owners)
    }

    constructor (layout: Layout)
      ensures this.layout == layout && State() == RingState([], map[])
    {
      this.layout := layout;
      nodes := [];
      owners := map[];
    }

    /** `ring.add`. */
    method Add(name: string)
      modifies this
      ensures State() == Added(layout, old(State()), name)
    {
      for i := 0 to layout.vnodes
        invariant nodes == old(nodes) + Points(layout, name, i)
        invariant owners == Owned(layout, old(owners), name, i)
      {
        var h := layout.point(name, i);
        nodes := nodes + [h];
        owners := owners[h := name];
      }
      nodes := Sort(nodes, Ascending);
    }

    /** `ring.remove`. */
    method Remove(name: string)
      modifies this
      ensures State() == Removed(old(State()), name)
    {
      var kept: seq<Point> := [];
      for i := 0 to |nodes|
        invariant nodes == old(nodes) && RingState(kept, owners) == Strip(old(State()), name, i)
      {
        var h := nodes[i];
        if Lookup(owners, h) == name {
          owners := owners - {h};
        } else {
          kept := kept + [h];
        }
      }
      nodes := kept;
    }

    /** `ring.get`: a binary search for the first point at or past the key, wrapping around. */
    method Get(h: Point) returns (name: string, ghost p: Point)
      requires SortedBy(nodes, Ascending)
      ensures nodes == [] ==> name == ""
      ensures nodes != [] ==> Nearest(nodes, h, p) && name == Lookup(owners, p)
    {
      p := 0;
      if nodes == [] { return "", 0; }
      var lo, hi := 0, |nodes|;
      while lo < hi
        invariant 0 <= lo <= hi <= |nodes|
        invariant forall k | 0 <= k < lo :: nodes[k] < h
        invariant forall k | hi <= k < |nodes| :: nodes[k] >= h
      {
        var mid := lo + (hi - lo) / 2;
        if nodes[mid] < h {
          assert forall k | 0 <= k < mid :: Ascending(nodes[k], nodes[mid]);
          lo := mid + 1;
        } else {
          assert forall k | mid < k < |nodes| :: Ascending(nodes[mid], nodes[k]);
          hi := mid;
        }
      }
      var idx := if lo == |nodes| then 0 else lo;
      p := nodes[idx];
      name := Lookup(owners, nodes[idx]);
      forall k | 0 <= k < |nodes| ensures Distance(h, p) <= Distance(h, nodes[k]) {
        if idx < k { assert Ascending(nodes[idx], nodes[k]); }
      }
    }
  }

  /** A peer joined or was refreshed, was reported gone, or was removed by a prune. */
  datatype Change = Join(name: string, info: string) | Leave(name: string) | Drop(name: string)

  /** The names a change leaves in the cluster; a node never hears of its own leaving. */
  function NamesAfter(self: string, names: set<string>, c: Change): set<string> {
    match c
    case Join(name, _) => names + {name}
    case Leave(name) => if name == self then names else names - {name}
    case Drop(name) => names - {name}
  }

  function AllAfter(self: string, names: set<string>, history: seq<Change>): set<string> {
    if history == [] then names
    else NamesAfter(self, AllAfter(self, names, history[..|history| - 1]), history[|history| - 1])
  }

  function Gap(gaps: seq<seq<Change>>, i: nat): seq<Change> {
    if i < |gaps| then gaps[i] else []
  }

  /** A prune gives the lock up before every removal: what happens in the gaps comes between. */
  function Woven(gaps: seq<seq<Change>>, stale: seq<string>): seq<Change> {
    if stale == [] then []
    else
      var n := |stale| - 1;
      Woven(gaps, stale[..n]) + Gap(gaps, n) + [Drop(stale[n])]
  }

  lemma {:induction false} AllAfterBoth(self: string, names: set<string>, a: seq<Change>, b: seq<Change>)
    ensures AllAfter(self, names, a + b) == AllAfter(self, AllAfter(self, names, a), b)
  {
    if b == [] {
      assert a + b == a;
    } else {
      var most := b[..|b| - 1];
      AllAfterBoth(self, names, a, most);
      assert (a + b)[..|a + b| - 1] == a + most;
    }
  }

  lemma WovenStep(self: string, names: set<string>, gaps: seq<seq<Change>>, stale: seq<string>, n: nat)
    requires n < |stale|
    ensures AllAfter(self, names, Woven(gaps, stale[..n + 1]))
            == AllAfter(self, AllAfter(self, names, Woven(gaps, stale[..n])), Gap(gaps, n)) - {stale[n]}
  {
    var before, gap := Woven(gaps, stale[..n]), Gap(gaps, n);
    assert stale[..n + 1][..n] == stale[..n];
    AllAfterBoth(self, names, before, gap);
    var all := before + gap + [Drop(stale[n])];
    assert all[..|all| - 1] == before + gap;
  }

  /** Nobody joins under this name. */
  predicate NoJoin(h: seq<Change>, n: string) {
    forall c | c in h :: c.Join? ==> c.name != n
  }

  predicate NotNamed(h: seq<Change>, n: string) {
    forall c | c in h :: c.name != n
  }

  lemma {:induction false} StaysOut(self: string, names: set<string>, h: seq<Change>, n: string)
    requires n !in names && NoJoin(h, n)
    ensures n !in AllAfter(self, names, h)
  {
    if h != [] { StaysOut(self, names, h[..|h| - 1], n); }
  }

  lemma {:induction false} StaysAsIs(self: string, names: set<string>, h: seq<Change>, n: string)
    requires NotNamed(h, n)
    ensures n in AllAfter(self, names, h) <==> n in names
  {
    if h != [] { StaysAsIs(self, names, h[..|h| - 1], n); }
  }

  /** A name found stale is gone after the prune unless it joins in a gap behind its removal: a
      peer that came back between the collection and the removal is removed all the same. */
  lemma {:induction false} PrunedIsGone(
    self: string, names: set<string>, gaps: seq<seq<Change>>, stale: seq<string>, i: nat, k: nat)
    requires i < k <= |stale| && forall j | i < j < k :: NoJoin(Gap(gaps, j), stale[i])
    ensures stale[i] !in AllAfter(self, names, Woven(gaps, stale[..k]))
    decreases k
  {
    var was := AllAfter(self, names, Woven(gaps, stale[..k - 1]));
    WovenStep(self, names, gaps, stale, k - 1);
    if i < k - 1 { PrunedIsGone(self, names, gaps, stale, i, k - 1); }
    OutBehind(self, was, Gap(gaps, k - 1), stale[k - 1], stale[i]);
  }

  lemma KeysWith(m: map<string, string>, k: string, v: string)
    ensures m[k := v].Keys == m.Keys + {k}
  {}

  /** Behind a gap and a removal a name is out if it is the one removed, or was out and did not
      join. */
  lemma OutBehind(self: string, was: set<string>, gap: seq<Change>, x: string, n: string)
    requires n == x || (n !in was && NoJoin(gap, n))
    ensures n !in AllAfter(self, was, gap) - {x}
  {
    if n != x { StaysOut(self, was, gap, n); }
  }

  /** A name the gaps do not touch stays exactly when it was not found stale. */
  lemma {:induction false} PruneSpares(
    self: string, names: set<string>, gaps: seq<seq<Change>>, stale: seq<string>, n: string, k: nat)
    requires k <= |stale| && forall j | 0 <= j < k :: NotNamed(Gap(gaps, j), n)
    ensures n in AllAfter(self, names, Woven(gaps, stale[..k])) <==> n in names && n !in stale[..k]
  {
    if k > 0 {
      PruneSpares(self, names, gaps, stale, n, k - 1);
      WovenStep(self, names, gaps, stale, k - 1);
      StaysAsIs(self, AllAfter(self, names, Woven(gaps, stale[..k - 1])), Gap(gaps, k - 1), n);
      InFront(stale, k, n);
    }
  }

  lemma InFront<T>(s: seq<T>, k: nat, x: T)
    requires 0 < k <= |s|
    ensures x in s[..k] <==> x in s[..k - 1] || x == s[k - 1]
  {
    assert s[..k] == s[..k - 1] + [s[k - 1]];
  }

  class Cluster {
    const self: string
    const ring: HashRing
    var peers: map<string, string>

    ghost predicate Valid()
      reads this, ring
    {
      ring.layout.vnodes > 0 && IsRing(ring.layout, peers.Keys, ring.State())
    }

    constructor (self: string, info: string, layout: Layout)
      requires layout.vnodes > 0 && Distinct(layout, {self})
      ensures Valid() && fresh(ring) && this.self == self && ring.layout == layout && peers == map[self := info]
    {
      this.self := self;
      ring := new HashRing(layout);
      peers := map[];
      new;
      EmptyRing(layout);
      assert {} + {self} == {self};
      AddPeer(self, info);
    }

    method AddPeer(name: string, info: string)
      requires Valid() && Distinct(ring.layout, peers.Keys + {name})
      modifies this, ring
      ensures Valid() && peers == old(peers)[name := info]
    {
      ghost var names := peers.Keys;
      peers := peers[name := info];
      ReaddKeepsRing(ring.layout, names, ring.State(), name);
      ring.Remove(name);
      ring.Add(name);
      KeysWith(old(peers), name, info);
    }

    method RemovePeer(name: string)
      requires Valid() && Distinct(ring.layout, peers.Keys)
      modifies this, ring
      ensures Valid() && peers == old(peers) - {name}
    {
      RemoveKeepsRing(ring.layout, peers.Keys, ring.State(), name);
      peers := peers - {name};
      ring.Remove(name);
    }

    /** `NotifyLeave`. */
    method PeerLeft(name: string)
      requires Valid() && Distinct(ring.layout, peers.Keys)
      modifies this, ring
      ensures Valid() && peers == if name == self then old(peers) else old(peers) - {name}
    {
      if name == self { return; }
      RemovePeer(name);
    }

    /** The names missing from the live set, in any order. */
    method CollectStale(live: set<string>) returns (stale: seq<string>)
      ensures NoRepeats(stale) && forall n :: n in stale <==> n in peers && n !in live
    {
      stale := [];
      var todo := peers.Keys - live;
      while todo != {}
        invariant NoRepeats(stale) && todo <= peers.Keys - live
        invariant forall n :: n in stale <==> n in peers && n !in live && n !in todo
        decreases |todo|
      {
        var name :| name in todo;
        stale, todo := stale + [name], todo - {name};
      }
    }

    /** `pruneStalePeers`: the lock is free between collecting the names and each removal;
        `gaps` are the changes that get in between. */
    method PruneStale(live: set<string>, gaps: seq<seq<Change>>, ghost world: set<string>) returns (stale: seq<string>)
      requires Valid() && Distinct(ring.layout, world) && peers.Keys <= world
      requires forall g, c | g in gaps && c in g && c.Join? :: c.name in world
      modifies this, ring
      ensures NoRepeats(stale) && forall n :: n in stale <==> n in old(peers) && n !in live
      ensures Valid() && peers.Keys == AllAfter(self, old(peers).Keys, Woven(gaps, stale)) && peers.Keys <= world
    {
      stale := CollectStale(live);
      for i := 0 to |stale|
        invariant Valid() && peers.Keys <= world
        invariant peers.Keys == AllAfter(self, old(peers).Keys, Woven(gaps, stale[..i]))
      {
        WovenStep(self, old(peers).Keys, gaps, stale, i);
        if i < |gaps| {
          assert gaps[i] in gaps;
          Replay(gaps[i], world);
        }
        RemovePeer(stale[i]);
      }
      assert stale[..|stale|] == stale;
    }

    /** Any history of joins, leaves, re-adds and prune removals leaves the ring of the final peers. */
    method Replay(history: seq<Change>, ghost world: set<string>)
      requires Valid() && Distinct(ring.layout, world) && peers.Keys <= world
      requires forall c | c in history && c.Join? :: c.name in world
      modifies this, ring
      ensures Valid() && peers.Keys == AllAfter(self, old(peers).Keys, history) && peers.Keys <= world
    {
      for i := 0 to |history|
        invariant Valid() && peers.Keys == AllAfter(self, old(peers).Keys, history[..i]) && peers.Keys <= world
      {
        assert history[..i + 1][..i] == history[..i];
        match history[i]
        case Join(name, info) => AddPeer(name, info);
        case Leave(name) => PeerLeft(name);
        case Drop(name) => RemovePeer(name);
      }
      assert history[..|history|] == history;
    }

    /** The ring's answer for a key: the owner among the current peers, or nobody. */
    method Owner(h: Point) returns (name: string)
      requires Valid()
      ensures peers == map[] ==> name == ""
      ensures peers != map[] ==> Owns(ring.layout, peers.Keys, h, name)
    {
      ghost var p;
      name, p := ring.Get(h);
      assert forall n | n in peers :: ring.layout.point(n, 0) in ring.nodes;
      if ring.nodes != [] { NearestOwns(ring.layout, peers.Keys, ring.State(), h, p); }
    }
  }

  /** Two nodes with the same peers have the same ring, whatever each went through. */
  lemma SamePeersSameRing(a: Cluster, b: Cluster)
    requires a.Valid() && b.Valid() && a.ring.layout == b.ring.layout
    requires Distinct(a.ring.layout, a.peers.Keys + b.peers.Keys)
    ensures a.peers.Keys == b.peers.Keys ==> a.ring.State() == b.ring.State()
    ensures a.peers.Keys == b.peers.Keys <==> DigestInput(a.ring.nodes) == DigestInput(b.ring.nodes)
    ensures |a.ring.owners| / a.ring.layout.vnodes == |a.peers|
  {
    RingsAgree(a.ring.layout, a.peers.Keys, b.peers.Keys, a.ring.State(), b.ring.State());
    assert |a.peers| == |a.peers.Keys|;
  }

  lemma RingsAgree(l: Layout, a: set<string>, b: set<string>, r: RingState, u: RingState)
    requires IsRing(l, a, r) && IsRing(l, b, u) && Distinct(l, a + b) && l.vnodes > 0
    ensures a == b ==> r == u
    ensures a == b <==> DigestInput(r.nodes) == DigestInput(u.nodes)
    ensures |r.owners| / l.vnodes == |a|
  {
    if a == b { RingIsUnique(l, a, r, u); }
    DigestsMatchIffPeersMatch(l, a, b, r, u);
    DigestSize(l, a, r);
  }
}
