/** Canonical query strings: which parameters reach the cache key, in which order, and what a
    reordered query does to it. */
module Query {
  import opened Ordering
  import opened Text

  datatype Option<T> = None | Some(value: T)

  /** `keep` is the allowlist; without one, `strip`, `prefixes` and `stripEmpty` decide. */
  datatype Policy = Policy(
    keep: Option<set<string>>, strip: set<string>, prefixes: seq<string>, stripEmpty: bool, dedup: bool)

  datatype Pair = Pair(k: string, v: string)

  /** `url.QueryUnescape` and `url.QueryEscape`, left uninterpreted. */
  datatype Url = Url(unescape: string -> Option<string>, escape: string -> string)

  // ---- The parameters of a query ----

  /** The segments both parsers see. */
  function Segments(raw: string): seq<string> {
    Pieces(raw, '&')
  }

  /** `strings.Cut(seg, "=")`. */
  function Cut(seg: string): Pair {
    var i := IndexOf(seg, '=');
    if i == |seg| then Pair(seg, "") else Pair(seg[..i], seg[i + 1..])
  }

  predicate HasPrefix(p: Policy, k: string) {
    exists i | 0 <= i < |p.prefixes| :: p.prefixes[i] <= k
  }

  predicate NameStripped(p: Policy, k: string) {
    (p.keep.Some? && k !in p.keep.value) || k in p.strip || HasPrefix(p, k)
  }

  predicate EmptyStripped(p: Policy, v: string) {
    p.keep.None? && p.stripEmpty && v == ""
  }

  /** `shouldStripParam`, `seen` being the pairs already collected. */
  predicate ShouldStrip(p: Policy, x: Pair, seen: seq<Pair>) {
    NameStripped(p, x.k) || EmptyStripped(p, x.v) || (p.dedup && exists y | y in seen :: y.k == x.k)
  }

  predicate Escaped(x: Pair) {
    '%' in x.k || '%' in x.v
  }

  /** The fast path: at most eight unescaped pairs, or none at all. */
  function Collect(p: Policy, segs: seq<string>, got: seq<Pair>): Option<seq<Pair>>
    decreases |segs|
  {
    if segs == [] then Some(got)
    else
      var x := Cut(segs[0]);
      if ShouldStrip(p, x, got) then Collect(p, segs[1..], got)
      else if Escaped(x) || |got| >= 8 then None
      else Collect(p, segs[1..], got + [x])
  }

  /** One segment as `url.ParseQuery` reads it. */
  function ParseSegment(u: Url, seg: string): Option<Pair> {
    if seg == "" || ';' in seg then None
    else
      var x := Cut(seg);
      match (u.unescape(x.k), u.unescape(x.v))
      case (Some(k), Some(v)) => Some(Pair(k, v))
      case _ => None
  }

  function FilterMap<T, U>(f: T -> Option<U>, s: seq<T>): seq<U> {
    if s == [] then []
    else FilterMap(f, s[..|s| - 1]) + Listed(f(s[|s| - 1]))
  }

  function Listed<U>(o: Option<U>): seq<U> {
    if o.Some? then [o.value] else []
  }

  function Decoded(u: Url, segs: seq<string>): seq<Pair> {
    FilterMap(seg => ParseSegment(u, seg), segs)
  }

  function Values(pairs: seq<Pair>, k: string): seq<string> {
    FilterMap((x: Pair) => if x.k == k then Some(x.v) else None, pairs)
  }

  /** The distinct names, in order of appearance. */
  function Names(pairs: seq<Pair>): seq<string> {
    if pairs == [] then []
    else
      var before, k := Names(pairs[..|pairs| - 1]), pairs[|pairs| - 1].k;
      if k in before then before else before + [k]
  }

  function DropEmpty(vals: seq<string>): seq<string> {
    FilterMap(v => if v == "" then None else Some(v), vals)
  }

  /** The values the slow path writes for one name. */
  function SlowValues(p: Policy, vals: seq<string>): seq<string> {
    var picked := if p.dedup then vals[..if vals == [] then 0 else 1] else Sort(vals, Leq);
    if p.stripEmpty && p.keep.None? then DropEmpty(picked) else picked
  }

  predicate AllEmpty(vals: seq<string>) {
    forall v | v in vals :: v == ""
  }

  predicate SlowSkips(p: Policy, pairs: seq<Pair>, k: string) {
    NameStripped(p, k) || (p.stripEmpty && p.keep.None? && AllEmpty(Values(pairs, k)))
  }

  function WithValues(u: Url, k: string, vals: seq<string>): (r: seq<Pair>)
    ensures |r| == |vals|
  {
    if vals == [] then [] else WithValues(u, k, vals[..|vals| - 1]) + [Pair(u.escape(k), u.escape(vals[|vals| - 1]))]
  }

  /** What the slow path writes for these names, in this order. */
  function SlowPairs(u: Url, p: Policy, pairs: seq<Pair>, names: seq<string>): seq<Pair> {
    if names == [] then []
    else
      var k := names[|names| - 1];
      SlowPairs(u, p, pairs, names[..|names| - 1]) + WithValues(u, k, SlowValues(p, Values(pairs, k)))
  }

  function SlowNames(p: Policy, pairs: seq<Pair>): seq<string> {
    Sort(FilterMap(k => if SlowSkips(p, pairs, k) then None else Some(k), Names(pairs)), Leq)
  }

  predicate PairLeq(a: Pair, b: Pair) {
    if a.k == b.k then Leq(a.v, b.v) else Leq(a.k, b.k)
  }

  function Written(pairs: seq<Pair>): string {
    if pairs == [] then ""
    else
      var x := pairs[|pairs| - 1];
      Written(pairs[..|pairs| - 1]) + (if |pairs| == 1 then "" else "&") + x.k + "=" + x.v
  }

  /** What the slow path writes. */
  function SlowBytes(u: Url, p: Policy, segs: seq<string>): string {
    var pairs := Decoded(u, segs);
    Written(SlowPairs(u, p, pairs, SlowNames(p, pairs)))
  }

  function CanonicalOf(u: Url, p: Policy, segs: seq<string>): string {
    match Collect(p, segs, [])
    case Some(pairs) => Written(Sort(pairs, PairLeq))
    case None => SlowBytes(u, p, segs)
  }

  /** The canonical bytes of a raw query. */
  function Canonical(u: Url, p: Policy, raw: string): string {
    CanonicalOf(u, p, Segments(raw))
  }

  // ---- Reordering ----

  function Without<T>(s: seq<T>, i: nat): seq<T>
    requires i < |s|
  {
    s[..i] + s[i + 1..]
  }

  lemma Assoc<U>(a: seq<U>, b: seq<U>, c: seq<U>)
    ensures a + (b + c) == a + b + c
  {}

  lemma {:induction false} FilterMapConcat<T, U>(f: T -> Option<U>, a: seq<T>, b: seq<T>)
    ensures FilterMap(f, a + b) == FilterMap(f, a) + FilterMap(f, b)
  {
    if b == [] {
      assert a + b == a;
    } else {
      var most, x := b[..|b| - 1], b[|b| - 1];
      FilterMapConcat(f, a, most);
      assert (a + b)[..|a + b| - 1] == a + most && (a + b)[|a + b| - 1] == x;
      Assoc(FilterMap(f, a), FilterMap(f, most), Listed(f(x)));
    }
  }

  lemma FilterMapOne<T, U>(f: T -> Option<U>, x: T)
    ensures FilterMap(f, [x]) == Listed(f(x))
  {
    assert [x][..0] == [];
  }

  lemma FilterMapMiddle<T, U>(f: T -> Option<U>, a: seq<T>, x: T, b: seq<T>)
    ensures multiset(FilterMap(f, a + ([x] + b))) == multiset(FilterMap(f, a + b)) + multiset(Listed(f(x)))
  {
    FilterMapConcat(f, a, [x] + b);
    FilterMapConcat(f, [x], b);
    FilterMapOne(f, x);
    FilterMapConcat(f, a, b);
    BagMiddle(FilterMap(f, a), Listed(f(x)), FilterMap(f, b));
  }

  lemma FilterMapWithout<T, U>(f: T -> Option<U>, s: seq<T>, i: nat)
    requires i < |s|
    ensures multiset(FilterMap(f, s)) == multiset(FilterMap(f, Without(s, i))) + multiset(Listed(f(s[i])))
  {
    SplitAt(s, i);
    FilterMapMiddle(f, s[..i], s[i], s[i + 1..]);
  }

  lemma SplitAt<T>(s: seq<T>, i: nat)
    requires i < |s|
    ensures s == s[..i] + ([s[i]] + s[i + 1..])
  {}

  lemma BagMiddle<U>(a: seq<U>, x: seq<U>, b: seq<U>)
    ensures multiset(a + (x + b)) == multiset(a + b) + multiset(x)
  {}

  lemma BagWithout<T>(s: seq<T>, i: nat)
    requires i < |s|
    ensures multiset(Without(s, i)) == multiset(s) - multiset{s[i]}
  {
    assert s == s[..i] + [s[i]] + s[i + 1..];
  }

  /** Filtering and mapping item by item only sees the multiset. */
  lemma {:induction false} FilterMapPermutes<T, U>(f: T -> Option<U>, a: seq<T>, b: seq<T>)
    requires multiset(a) == multiset(b)
    ensures multiset(FilterMap(f, a)) == multiset(FilterMap(f, b))
    decreases |a|
  {
    assert |multiset(a)| == |multiset(b)|;
    if a != [] {
      assert a[0] in multiset(b);
      var i :| 0 <= i < |b| && b[i] == a[0];
      BagWithout(a, 0);
      BagWithout(b, i);
      FilterMapPermutes(f, Without(a, 0), Without(b, i));
      FilterMapWithout(f, a, 0);
      FilterMapWithout(f, b, i);
    }
  }

  lemma SameMembers<T>(a: seq<T>, b: seq<T>, x: T)
    requires multiset(a) == multiset(b)
    ensures x in a <==> x in b
  {
    assert x in a <==> x in multiset(a);
    assert x in b <==> x in multiset(b);
  }

  /** The pair a segment contributes, whatever came before it. */
  function Contributed(p: Policy, seg: string): Option<Pair> {
    if ShouldStrip(p, Cut(seg), []) then None else Some(Cut(seg))
  }

  function Kept(p: Policy, segs: seq<string>): seq<Pair> {
    FilterMap(seg => Contributed(p, seg), segs)
  }

  predicate Simple(pairs: seq<Pair>) {
    |pairs| <= 8 && forall x | x in pairs :: !Escaped(x)
  }

  lemma FilterMapFront<T, U>(f: T -> Option<U>, s: seq<T>)
    requires s != []
    ensures FilterMap(f, s) == Listed(f(s[0])) + FilterMap(f, s[1..])
  {
    assert s == [s[0]] + s[1..];
    FilterMapConcat(f, [s[0]], s[1..]);
    FilterMapOne(f, s[0]);
  }

  /** Without dedup the fast path succeeds exactly when all that is kept is simple. */
  lemma {:induction false} CollectsKept(p: Policy, segs: seq<string>, got: seq<Pair>)
    requires !p.dedup && Simple(got)
    ensures Collect(p, segs, got) == if Simple(got + Kept(p, segs)) then Some(got + Kept(p, segs)) else None
    decreases |segs|
  {
    if segs == [] {
      assert got + Kept(p, segs) == got;
    } else {
      var x := Cut(segs[0]);
      FilterMapFront(seg => Contributed(p, seg), segs);
      if ShouldStrip(p, x, got) {
        CollectsKept(p, segs[1..], got);
        assert Kept(p, segs) == Kept(p, segs[1..]);
      } else {
        assert Kept(p, segs) == [x] + Kept(p, segs[1..]);
        assert got + Kept(p, segs) == got + [x] + Kept(p, segs[1..]);
        assert x in got + [x] + Kept(p, segs[1..]);
        if !Escaped(x) && |got| < 8 { CollectsKept(p, segs[1..], got + [x]); }
      }
    }
  }

  lemma PairLeqTotalOrder()
    ensures TotalOrder(PairLeq)
  {
    LeqTotalOrder();
  }

  /** The fast path: the choice and the bytes depend on the multiset of segments only. */
  lemma FastPermutes(p: Policy, a: seq<string>, b: seq<string>)
    requires !p.dedup && multiset(a) == multiset(b)
    ensures Collect(p, a, []).Some? <==> Collect(p, b, []).Some?
    ensures Collect(p, a, []).Some? ==>
              Sort(Collect(p, a, []).value, PairLeq) == Sort(Collect(p, b, []).value, PairLeq)
  {
    CollectsKept(p, a, []);
    CollectsKept(p, b, []);
    var ka, kb := Kept(p, a), Kept(p, b);
    assert [] + ka == ka && [] + kb == kb;
    FilterMapPermutes(seg => Contributed(p, seg), a, b);
    assert |multiset(ka)| == |multiset(kb)|;
    forall x ensures x in ka <==> x in kb { SameMembers(ka, kb, x); }
    PairLeqTotalOrder();
    SortPermutation(ka, kb, PairLeq);
  }

  lemma {:induction false} NamesAre(pairs: seq<Pair>)
    ensures forall k :: k in Names(pairs) <==> exists x | x in pairs :: x.k == k
    ensures NoRepeats(Names(pairs))
  {
    if pairs != [] {
      NamesAre(pairs[..|pairs| - 1]);
      assert pairs == pairs[..|pairs| - 1] + [pairs[|pairs| - 1]];
    }
  }

  lemma NamesPermute(a: seq<Pair>, b: seq<Pair>)
    requires multiset(a) == multiset(b)
    ensures multiset(Names(a)) == multiset(Names(b))
  {
    NamesAre(a);
    NamesAre(b);
    forall x ensures x in a <==> x in b { SameMembers(a, b, x); }
    SameBag(Names(a), Names(b));
  }

  lemma ValuesPermute(a: seq<Pair>, b: seq<Pair>, k: string)
    requires multiset(a) == multiset(b)
    ensures multiset(Values(a, k)) == multiset(Values(b, k))
    ensures Sort(Values(a, k), Leq) == Sort(Values(b, k), Leq)
    ensures AllEmpty(Values(a, k)) <==> AllEmpty(Values(b, k))
  {
    FilterMapPermutes((x: Pair) => if x.k == k then Some(x.v) else None, a, b);
    LeqTotalOrder();
    SortPermutation(Values(a, k), Values(b, k), Leq);
    forall v ensures v in Values(a, k) <==> v in Values(b, k) { SameMembers(Values(a, k), Values(b, k), v); }
  }

  lemma {:induction false} SlowPairsPermute(u: Url, p: Policy, a: seq<Pair>, b: seq<Pair>, names: seq<string>)
    requires !p.dedup && multiset(a) == multiset(b)
    ensures SlowPairs(u, p, a, names) == SlowPairs(u, p, b, names)
  {
    if names != [] {
      SlowPairsPermute(u, p, a, b, names[..|names| - 1]);
      ValuesPermute(a, b, names[|names| - 1]);
    }
  }

  lemma {:induction false} FilterMapSame<T, U>(f: T -> Option<U>, g: T -> Option<U>, s: seq<T>)
    requires forall x | x in s :: f(x) == g(x)
    ensures FilterMap(f, s) == FilterMap(g, s)
  {
    if s != [] { FilterMapSame(f, g, s[..|s| - 1]); }
  }

  lemma SlowNamesPermute(p: Policy, a: seq<Pair>, b: seq<Pair>)
    requires multiset(a) == multiset(b)
    ensures SlowNames(p, a) == SlowNames(p, b)
  {
    var f := k => if SlowSkips(p, a, k) then None else Some(k);
    var g := k => if SlowSkips(p, b, k) then None else Some(k);
    NamesPermute(a, b);
    FilterMapPermutes(f, Names(a), Names(b));
    forall k | k in Names(b) ensures f(k) == g(k) { ValuesPermute(a, b, k); }
    FilterMapSame(f, g, Names(b));
    LeqTotalOrder();
    SortPermutation(FilterMap(f, Names(a)), FilterMap(g, Names(b)), Leq);
  }

  /** Without dedup the choice of path and the canonical bytes are functions of the multiset of
      segments. */
  lemma CanonicalPermutes(u: Url, p: Policy, a: seq<string>, b: seq<string>)
    requires !p.dedup && multiset(a) == multiset(b)
    ensures Collect(p, a, []).Some? <==> Collect(p, b, []).Some?
    ensures CanonicalOf(u, p, a) == CanonicalOf(u, p, b)
  {
    FastPermutes(p, a, b);
    var da, db := Decoded(u, a), Decoded(u, b);
    FilterMapPermutes(seg => ParseSegment(u, seg), a, b);
    SlowNamesPermute(p, da, db);
    SlowPairsPermute(u, p, da, db, SlowNames(p, da));
  }

  // ---- An empty segment more or less ----

  const EmptyPair := Pair("", "")

  /** An empty segment behind `segs` leaves no trace: the policy strips it, or the slow path,
      which skips it, is taken either way, or it is the ninth pair and the slow path it forces
      happens to write what the fast one wrote. */
  predicate Traceless(u: Url, p: Policy, segs: seq<string>) {
    var k := Kept(p, segs);
    || ShouldStrip(p, EmptyPair, [])
    || !Simple(k)
    || (|k| == 8 && Written(Sort(k, PairLeq)) == SlowBytes(u, p, segs))
  }

  lemma CutEmpty()
    ensures Cut("") == EmptyPair
  {}

  lemma EmptyDecodes(u: Url, segs: seq<string>)
    ensures Decoded(u, segs + [""]) == Decoded(u, segs)
  {
    assert (segs + [""])[..|segs|] == segs;
  }

  lemma {:induction false} WrittenCons(x: Pair, s: seq<Pair>)
    ensures |Written([x] + s)| == |Written(s)| + |x.k| + |x.v| + 1 + if s == [] then 0 else 1
  {
    if s == [] {
      assert [x] + s == [x] && [x][..0] == [];
    } else {
      var most, last := s[..|s| - 1], s[|s| - 1];
      WrittenCons(x, most);
      WrittenPush(most, last);
      WrittenPush([x] + most, last);
      assert most + [last] == s && [x] + most + [last] == [x] + s;
    }
  }

  lemma WrittenPush(s: seq<Pair>, x: Pair)
    ensures |Written(s + [x])| == |Written(s)| + |x.k| + |x.v| + 1 + if s == [] then 0 else 1
  {
    assert (s + [x])[..|s|] == s;
  }

  /** The blank pair sorts first. */
  lemma EmptyPairFirst(k: seq<Pair>)
    ensures Sort(k + [EmptyPair], PairLeq) == [EmptyPair] + Sort(k, PairLeq)
  {
    PairLeqTotalOrder();
    EmptyPairLeast(Sort(k, PairLeq));
    SortedUnique(Sort(k + [EmptyPair], PairLeq), [EmptyPair] + Sort(k, PairLeq), PairLeq);
  }

  lemma EmptyPairLeast(s: seq<Pair>)
    requires SortedBy(s, PairLeq)
    ensures SortedBy([EmptyPair] + s, PairLeq)
  {}

  /** Without dedup: the fast path if what is kept is simple. */
  lemma CanonicalIs(u: Url, p: Policy, segs: seq<string>)
    requires !p.dedup
    ensures var k := Kept(p, segs);
            CanonicalOf(u, p, segs) == if Simple(k) then Written(Sort(k, PairLeq)) else SlowBytes(u, p, segs)
  {
    CollectsKept(p, segs, []);
    assert [] + Kept(p, segs) == Kept(p, segs);
  }

  lemma SlowSkipsEmpty(u: Url, p: Policy, segs: seq<string>)
    ensures SlowBytes(u, p, segs + [""]) == SlowBytes(u, p, segs)
  {
    EmptyDecodes(u, segs);
  }

  /** An empty pair more is an equals sign more at least. */
  lemma EmptyPairShows(k: seq<Pair>)
    ensures Written(Sort(k + [EmptyPair], PairLeq)) != Written(Sort(k, PairLeq))
  {
    EmptyPairFirst(k);
    WrittenCons(EmptyPair, Sort(k, PairLeq));
  }

  /** One more empty segment leaves the canonical bytes alone exactly when it is traceless. */
  lemma EmptySegmentShows(u: Url, p: Policy, segs: seq<string>)
    requires !p.dedup
    ensures CanonicalOf(u, p, segs + [""]) == CanonicalOf(u, p, segs) <==> Traceless(u, p, segs)
  {
    var k := Kept(p, segs);
    CanonicalIs(u, p, segs);
    CanonicalIs(u, p, segs + [""]);
    SlowSkipsEmpty(u, p, segs);
    KeptMore(p, segs);
    if !ShouldStrip(p, EmptyPair, []) {
      EmptyPairShows(k);
      if Simple(k) { OneMore(k); } else { NotSimpler(k); }
    }
  }

  lemma KeptMore(p: Policy, segs: seq<string>)
    ensures Kept(p, segs + [""]) == Kept(p, segs) + if ShouldStrip(p, EmptyPair, []) then [] else [EmptyPair]
    ensures ShouldStrip(p, EmptyPair, []) ==> Kept(p, segs + [""]) == Kept(p, segs)
  {
    CutEmpty();
    assert (segs + [""])[..|segs|] == segs;
  }

  lemma NotSimpler(k: seq<Pair>)
    requires !Simple(k)
    ensures !Simple(k + [EmptyPair])
  {
    forall x | x in k ensures x in k + [EmptyPair] {}
  }

  lemma OneMore(k: seq<Pair>)
    requires Simple(k)
    ensures Simple(k + [EmptyPair]) <==> |k| < 8
  {}

  // ---- Queries as lists of segments ----

  /** A list of segments without a final empty one. */
  function Seen(parts: seq<string>): seq<string>
    requires parts != []
  {
    if parts[|parts| - 1] == "" then parts[..|parts| - 1] else parts
  }

  lemma SegmentsHead(head: string, rest: string)
    requires '&' !in head
    ensures Segments(head + "&" + rest) == [head] + Segments(rest)
  {
    PiecesHead(head, rest, '&');
  }

  lemma SegmentsOne(seg: string)
    requires '&' !in seg
    ensures Segments(seg) == if seg == "" then [] else [seg]
  {
    IndexOfUnique(seg, '&', |seg|);
  }

  lemma SeenCons(head: string, rest: seq<string>)
    requires rest != []
    ensures Seen([head] + rest) == [head] + Seen(rest)
  {}

  lemma JoinCons(head: string, rest: seq<string>, sep: string)
    requires rest != []
    ensures Join([head] + rest, sep) == head + sep + Join(rest, sep)
  {
    assert ([head] + rest)[1..] == rest;
  }

  lemma {:induction false} JoinedSegments(parts: seq<string>)
    requires parts != [] && forall s | s in parts :: '&' !in s
    ensures Segments(Join(parts, "&")) == Seen(parts)
  {
    assert parts[0] in parts;
    if |parts| == 1 {
      SegmentsOne(parts[0]);
    } else {
      var head, tail := parts[0], parts[1..];
      assert parts == [head] + tail;
      JoinedSegments(tail);
      SegmentsHead(head, Join(tail, "&"));
      SeenCons(head, tail);
      JoinCons(head, tail, "&");
    }
  }

  lemma BagFront<T>(a: seq<T>)
    requires a != []
    ensures multiset(a[..|a| - 1]) == multiset(a) - multiset{a[|a| - 1]}
  {
    assert a == a[..|a| - 1] + [a[|a| - 1]];
  }

  predicate EndsEmpty(parts: seq<string>) {
    parts != [] && parts[|parts| - 1] == ""
  }

  lemma SeenPermutes(a: seq<string>, b: seq<string>)
    requires a != [] && b != [] && multiset(a) == multiset(b)
    ensures EndsEmpty(a) == EndsEmpty(b) ==> multiset(Seen(a)) == multiset(Seen(b))
    ensures EndsEmpty(a) && !EndsEmpty(b) ==> multiset(Seen(a) + [""]) == multiset(Seen(b))
  {
    BagFront(a);
    BagFront(b);
  }

  lemma ReorderedOneWay(u: Url, p: Policy, a: seq<string>, b: seq<string>)
    requires !p.dedup && a != [] && b != [] && multiset(a) == multiset(b) && EndsEmpty(a) && !EndsEmpty(b)
    ensures CanonicalOf(u, p, Seen(a)) == CanonicalOf(u, p, Seen(b)) <==> Traceless(u, p, Seen(a))
  {
    SeenPermutes(a, b);
    CanonicalPermutes(u, p, Seen(a) + [""], Seen(b));
    EmptySegmentShows(u, p, Seen(a));
  }

  /** Reordering the segments of a query leaves its canonical bytes alone exactly when a final
      empty segment stays final or the one that moved leaves no trace. */
  lemma ReorderedQuery(u: Url, p: Policy, a: seq<string>, b: seq<string>)
    requires !p.dedup && a != [] && multiset(a) == multiset(b) && forall s | s in a :: '&' !in s
    ensures b != []
    ensures Canonical(u, p, Join(a, "&")) == Canonical(u, p, Join(b, "&"))
            <==> EndsEmpty(a) == EndsEmpty(b) || Traceless(u, p, Seen(if EndsEmpty(a) then a else b))
  {
    SameMembers(a, b, a[0]);
    forall s | s in b ensures '&' !in s { SameMembers(a, b, s); }
    JoinedSegments(a);
    JoinedSegments(b);
    SeenPermutes(a, b);
    if EndsEmpty(a) == EndsEmpty(b) {
      CanonicalPermutes(u, p, Seen(a), Seen(b));
    } else if EndsEmpty(a) {
      ReorderedOneWay(u, p, a, b);
    } else {
      ReorderedOneWay(u, p, b, a);
    }
  }

  const Open := Policy(None, {}, [], false, false)

  /** So the queries `a&` and `&a`, for any bare name, have different canonical bytes when no
      policy is set. */
  lemma FinalEmptySegmentShows(u: Url, a: string)
    requires a != "" && '=' !in a && '%' !in a && '&' !in a
    ensures Canonical(u, Open, Join([a, ""], "&")) != Canonical(u, Open, Join(["", a], "&"))
  {
    OpenTraces(u, a);
    MovedEmpty(a);
    ReorderedQuery(u, Open, [a, ""], ["", a]);
  }

  lemma OpenTraces(u: Url, a: string)
    requires '=' !in a && '%' !in a
    ensures !Traceless(u, Open, [a])
  {
    IndexOfUnique(a, '=', |a|);
    FilterMapOne(seg => Contributed(Open, seg), a);
    assert Kept(Open, [a]) == [Pair(a, "")];
  }

  lemma MovedEmpty(a: string)
    requires a != ""
    ensures multiset([a, ""]) == multiset(["", a]) && EndsEmpty([a, ""]) && !EndsEmpty(["", a]) && Seen([a, ""]) == [a]
  {}
}
