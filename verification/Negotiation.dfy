/** Accept-Encoding and Accept-Language buckets: the negotiation outcome the cache keys on and
    asks the origin for. */
module Negotiation {
  import opened Ordering
  import opened Text
  import opened Query

  /** A parsed quality weight; number parsing itself is left uninterpreted. */
  datatype Quality = Inf | Fin(value: real)
  datatype Weight = NaN | Number(quality: Quality)

  type Parser = string -> Option<Weight>

  const One := Fin(1.0)

  predicate Above(a: Quality, b: Quality) {
    b.Fin? && (a.Inf? || a.value > b.value)
  }

  /** `q <= 0`. */
  predicate Refused(w: Weight) {
    w.Number? && w.quality.Fin? && w.quality.value <= 0.0
  }

  // ---- Lists ----

  /** The items of a list field. */
  function Items(v: string): seq<string> {
    TrimAll(Split(v, ','))
  }

  // ---- Weights ----

  predicate IsWeight(p: string) {
    |p| >= 2 && Lower(p[..2]) == "q="
  }

  /** The first weight parameter, unless it is no number or negative. */
  function FirstWeight(num: Parser, ps: seq<string>): Option<Weight> {
    if ps == [] then None
    else
      var p := TrimSpace(ps[0]);
      if !IsWeight(p) then FirstWeight(num, ps[1..])
      else
        match num(TrimSpace(p[2..]))
        case None => None
        case Some(q) => if Negative(q) then None else Some(q)
  }

  predicate Negative(w: Weight) {
    w.Number? && w.quality.Fin? && w.quality.value < 0.0
  }

  /** `parseAEWeight`. */
  method ParseWeight(num: Parser, params: string) returns (q: Option<Weight>)
    ensures q == FirstWeight(num, Pieces(params, ';'))
  {
    var rest := params;
    while rest != ""
      invariant FirstWeight(num, Pieces(rest, ';')) == FirstWeight(num, Pieces(params, ';'))
      decreases |rest|
    {
      ghost var ps := Pieces(rest, ';');
      var p;
      p, rest := NextPiece(rest, ';');
      assert ps[0] == p && ps[1..] == Pieces(rest, ';');
      p := TrimSpace(p);
      if !IsWeight(p) { continue; }
      var parsed := num(TrimSpace(p[2..]));
      if parsed.None? { return None; }
      if Negative(parsed.value) { return None; }
      return parsed;
    }
    return None;
  }

  /** `strings.Cut(item, ";")`. */
  function CutParams(item: string): (string, string) {
    var i := IndexOf(item, ';');
    if i == |item| then (item, "") else (item[..i], item[i + 1..])
  }

  function WeightOf(num: Parser, params: string): Weight {
    if params == "" then Number(One)
    else
      match FirstWeight(num, Pieces(params, ';'))
      case None => Number(One)
      case Some(q) => q
  }

  method ReadWeight(num: Parser, params: string) returns (q: Weight)
    ensures q == WeightOf(num, params)
  {
    q := Number(One);
    if params != "" {
      var parsed := ParseWeight(num, params);
      if parsed.Some? { q := parsed.value; }
    }
  }

  // ---- Picking a winner ----

  /** Both loops: the running best gives way to an item that beats it. */
  function Fold<C>(beats: (C, C) -> bool, offer: string -> Option<C>, best: C, items: seq<string>): C
    decreases |items|
  {
    if items == [] then best else Fold(beats, offer, Better(beats, best, offer(items[0])), items[1..])
  }

  function Better<C>(beats: (C, C) -> bool, best: C, o: Option<C>): C {
    if o.Some? && beats(o.value, best) then o.value else best
  }

  ghost predicate StrictWeak<C(!new)>(beats: (C, C) -> bool) {
    && (forall a, b :: beats(a, b) ==> !beats(b, a))
    && (forall a, b, c :: beats(a, c) ==> beats(a, b) || beats(b, c))
  }

  /** Nothing on offer beats `c`. */
  ghost predicate Top<C>(beats: (C, C) -> bool, offer: string -> Option<C>, items: seq<string>, c: C) {
    forall i | 0 <= i < |items| :: offer(items[i]).Some? ==> !beats(offer(items[i]).value, c)
  }

  /** The winner is the initial value or the first item nothing beats, and is beaten by neither. */
  lemma {:induction false} FoldIsTop<C(!new)>(beats: (C, C) -> bool, offer: string -> Option<C>, best: C,
          items: seq<string>)
    requires StrictWeak(beats)
    ensures var r := Fold(beats, offer, best, items);
            && Top(beats, offer, items, r) && !beats(best, r)
            && (r != best ==> beats(r, best) && FirstAt(beats, offer, items, r))
    decreases |items|
  {
    if items != [] {
      var o, rest := offer(items[0]), items[1..];
      var next := Better(beats, best, o);
      FoldIsTop(beats, offer, next, rest);
      var r := Fold(beats, offer, best, items);
      if r != best {
        if r == next {
          assert offer(items[0]) == Some(r) && WonAt(beats, offer, items, r, 0);
        } else {
          var i: nat :| WonAt(beats, offer, rest, r, i);
          forall j | 0 <= j < i + 1 && offer(items[j]).Some? ensures beats(r, offer(items[j]).value) {
            if j > 0 { assert items[j] == rest[j - 1]; }
          }
          assert WonAt(beats, offer, items, r, i + 1);
        }
      }
    }
  }

  /** Item `i` offers `c` and beats everything offered before it. */
  ghost predicate WonAt<C>(beats: (C, C) -> bool, offer: string -> Option<C>, items: seq<string>, c: C, i: nat) {
    && i < |items| && offer(items[i]) == Some(c)
    && forall j | 0 <= j < i && offer(items[j]).Some? :: beats(c, offer(items[j]).value)
  }

  ghost predicate FirstAt<C>(beats: (C, C) -> bool, offer: string -> Option<C>, items: seq<string>, c: C) {
    exists i: nat :: WonAt(beats, offer, items, c, i)
  }

  /** Reordered items have winners that do not beat each other. */
  lemma FoldReordered<C(!new)>(beats: (C, C) -> bool, offer: string -> Option<C>, best: C, a: seq<string>,
          b: seq<string>)
    requires StrictWeak(beats) && multiset(a) == multiset(b)
    ensures var ra, rb := Fold(beats, offer, best, a), Fold(beats, offer, best, b); !beats(ra, rb) && !beats(rb, ra)
  {
    FoldIsTop(beats, offer, best, a);
    FoldIsTop(beats, offer, best, b);
    NotBeaten(beats, offer, best, a, b);
    NotBeaten(beats, offer, best, b, a);
  }

  lemma NotBeaten<C(!new)>(beats: (C, C) -> bool, offer: string -> Option<C>, best: C, a: seq<string>, b: seq<string>)
    requires StrictWeak(beats) && multiset(a) == multiset(b)
    ensures !beats(Fold(beats, offer, best, a), Fold(beats, offer, best, b))
  {
    FoldIsTop(beats, offer, best, a);
    FoldIsTop(beats, offer, best, b);
    var ra := Fold(beats, offer, best, a);
    if ra != best {
      var i: nat :| WonAt(beats, offer, a, ra, i);
      SameMembers(a, b, a[i]);
      var j :| 0 <= j < |b| && b[j] == a[i];
    }
  }

  // ---- The list as the loops cut it ----

  /** Trimming the list and stopping at a final comma lose no item. */
  lemma FoldOfPieces<C>(beats: (C, C) -> bool, offer: string -> Option<C>, best: C, v: string)
    requires offer("") == None
    ensures Fold(beats, offer, best, TrimAll(Pieces(TrimSpace(v), ','))) == Fold(beats, offer, best, Items(v))
  {
    FoldPieces(beats, offer, best, TrimSpace(v));
    ItemsTrimmed(v);
  }

  lemma {:induction false} FoldPieces<C>(beats: (C, C) -> bool, offer: string -> Option<C>, best: C, s: string)
    requires offer("") == None
    ensures Fold(beats, offer, best, TrimAll(Pieces(s, ','))) == Fold(beats, offer, best, Items(s))
    decreases |s|
  {
    var i := IndexOf(s, ',');
    if s == "" {
      TrimSpaceFixed("");
      assert Items(s) == [""];
      FoldOne(beats, offer, best, "");
    } else if i < |s| {
      var head, tail := s[..i], s[i + 1..];
      assert s == head + [','] + tail;
      FoldPieces(beats, offer, Better(beats, best, offer(TrimSpace(head))), tail);
      FoldHead(beats, offer, best, head, tail);
    }
  }

  lemma FoldHead<C>(beats: (C, C) -> bool, offer: string -> Option<C>, best: C, head: string, tail: string)
    requires ',' !in head
    ensures var s, next := head + [','] + tail, Better(beats, best, offer(TrimSpace(head)));
            && Fold(beats, offer, best, TrimAll(Pieces(s, ','))) == Fold(beats, offer, next, TrimAll(Pieces(tail, ',')))
            && Fold(beats, offer, best, Items(s)) == Fold(beats, offer, next, Items(tail))
  {
    PiecesHead(head, tail, ',');
    SplitHead(head, tail, ',');
    TrimAllCons(head, Pieces(tail, ','));
    TrimAllCons(head, Split(tail, ','));
    FoldCons(beats, offer, best, TrimSpace(head), TrimAll(Pieces(tail, ',')));
    FoldCons(beats, offer, best, TrimSpace(head), Items(tail));
  }

  lemma FoldCons<C>(beats: (C, C) -> bool, offer: string -> Option<C>, best: C, item: string, rest: seq<string>)
    ensures Fold(beats, offer, best, [item] + rest) == Fold(beats, offer, Better(beats, best, offer(item)), rest)
  {
    assert ([item] + rest)[1..] == rest;
  }

  lemma FoldOne<C>(beats: (C, C) -> bool, offer: string -> Option<C>, best: C, item: string)
    ensures Fold(beats, offer, best, [item]) == Better(beats, best, offer(item))
  {
    assert [item][1..] == [];
  }

  lemma FirstHolds<C>(beats: (C, C) -> bool, offer: string -> Option<C>, best: C, x: string, y: string, a: C, b: C)
    requires offer(x) == Some(a) && offer(y) == Some(b) && beats(a, best) && !beats(b, a)
    ensures Fold(beats, offer, best, [x, y]) == a
  {
    assert [x, y] == [x] + [y];
    FoldCons(beats, offer, best, x, [y]);
    FoldOne(beats, offer, a, y);
  }

  predicate Blank(s: string) {
    forall i | 0 <= i < |s| :: IsSpace(s[i])
  }

  lemma ItemsTrimmed(v: string)
    ensures Items(TrimSpace(v)) == Items(v)
  {
    var lo := LeadSpaces(v);
    var hi := TextEnd(v, lo, |v|);
    ThreeParts(v, lo, hi);
    BlankFront(v[..lo], v[lo..hi] + v[hi..]);
    BlankBack(v[lo..hi], v[hi..]);
  }

  lemma ThreeParts(v: string, lo: nat, hi: nat)
    requires lo <= hi <= |v|
    ensures v == v[..lo] + (v[lo..hi] + v[hi..])
  {}

  lemma {:induction false} BlankFront(front: string, s: string)
    requires Blank(front)
    ensures Items(front + s) == Items(s)
  {
    if front == "" {
      assert front + s == s;
    } else {
      BlankFront(front[1..], s);
      SplitLeadingSpace(front[0], front[1..] + s);
      assert front + s == [front[0]] + (front[1..] + s);
    }
  }

  lemma {:induction false} BlankBack(s: string, back: string)
    requires Blank(back)
    ensures Items(s + back) == Items(s)
  {
    if back == "" {
      assert s + back == s;
    } else {
      var most, c := back[..|back| - 1], back[|back| - 1];
      BlankBack(s, most);
      SpaceBack(s + most, c);
      assert s + back == s + most + [c];
    }
  }

  lemma {:induction false} SpaceBack(s: string, c: char)
    requires IsSpace(c)
    ensures Items(s + [c]) == Items(s)
    decreases |s|
  {
    var i := IndexOf(s, ',');
    if i < |s| {
      var head, tail := s[..i], s[i + 1..];
      SpaceBack(tail, c);
      assert s == head + [','] + tail && s + [c] == head + [','] + (tail + [c]);
      SplitHead(head, tail, ',');
      SplitHead(head, tail + [c], ',');
      TrimAllCons(head, Split(tail, ','));
      TrimAllCons(head, Split(tail + [c], ','));
    } else {
      IndexOfUnique(s + [c], ',', i + 1);
      TrimTrailing(s, c);
    }
  }

  /** What is left of a loop over the rest of a list. */
  function Left<C>(beats: (C, C) -> bool, offer: string -> Option<C>, best: C, rest: string): C {
    Fold(beats, offer, best, TrimAll(Pieces(rest, ',')))
  }

  lemma LeftStep<C>(beats: (C, C) -> bool, offer: string -> Option<C>, best: C, s: string, piece: string, rest: string)
    requires Pieces(s, ',') == [piece] + Pieces(rest, ',')
    ensures Left(beats, offer, best, s) == Left(beats, offer, Better(beats, best, offer(TrimSpace(piece))), rest)
  {
    TrimAllCons(piece, Pieces(rest, ','));
  }

  // ---- Accept-Encoding ----

  /** `aeRank`; 0 stands for a coding that does not take part. */
  function Rank(coding: string): nat {
    if coding == "br" then 3 else if coding == "zstd" then 2 else if coding == "gzip" then 1 else 0
  }

  function Token(rank: nat): string {
    if rank == 3 then "br" else if rank == 2 then "zstd" else if rank == 1 then "gzip" else "identity"
  }

  datatype Coding = Coding(rank: nat, quality: Quality)

  /** What an item offers; a weight that is not a number compares with nothing. */
  function EncodingOffer(num: Parser, item: string): Option<Coding> {
    var (name, params) := CutParams(item);
    var rank, w := Rank(Lower(TrimSpace(name))), WeightOf(num, params);
    if item == "" || rank == 0 || w.NaN? || Refused(w) then None else Some(Coding(rank, w.quality))
  }

  predicate CodingBeats(a: Coding, b: Coding) {
    Above(a.quality, b.quality) || (a.quality == b.quality && a.rank > b.rank)
  }

  const NoCoding := Coding(0, Fin(-1.0))

  function BestCoding(num: Parser, items: seq<string>): Coding {
    Fold(CodingBeats, item => EncodingOffer(num, item), NoCoding, items)
  }

  /** One item of the loop against the running best. */
  method TryCoding(num: Parser, item: string, best: Coding) returns (next: Coding)
    ensures next == Better(CodingBeats, best, EncodingOffer(num, item))
  {
    next := best;
    if item == "" { return; }
    var (coding, params) := CutParams(item);
    var rank := Rank(Lower(TrimSpace(coding)));
    if rank == 0 { return; }
    var q := ReadWeight(num, params);
    if Refused(q) { return; }
    if q.Number? && (Above(q.quality, best.quality) || (q.quality == best.quality && rank > best.rank)) {
      next := Coding(rank, q.quality);
    }
  }

  /** `encodingBucket`. */
  method EncodingBucket(num: Parser, v: string) returns (bucket: string)
    ensures bucket == Token(BestCoding(num, Items(v)).rank)
  {
    ghost var offer := item => EncodingOffer(num, item);
    var best := NoCoding;
    var rest := TrimSpace(v);
    while rest != ""
      invariant Left(CodingBeats, offer, best, rest) == Left(CodingBeats, offer, NoCoding, TrimSpace(v))
      decreases |rest|
    {
      ghost var s := rest;
      var item;
      item, rest := NextPiece(rest, ',');
      LeftStep(CodingBeats, offer, best, s, item, rest);
      best := TryCoding(num, TrimSpace(item), best);
    }
    FoldOfPieces(CodingBeats, offer, NoCoding, v);
    return Token(best.rank);
  }

  lemma CodingOrder()
    ensures StrictWeak(CodingBeats)
  {}

  /** The bucket names a coding of the highest weight, br before zstd before gzip among equals,
      never one of weight zero; without an acceptable coding it is identity. */
  lemma BucketIsBest(num: Parser, items: seq<string>)
    ensures var best := BestCoding(num, items);
            && Top(CodingBeats, item => EncodingOffer(num, item), items, best)
            && (best == NoCoding ==> forall i | 0 <= i < |items| :: EncodingOffer(num, items[i]).None?)
            && (best != NoCoding ==> exists i | 0 <= i < |items| :: EncodingOffer(num, items[i]) == Some(best))
  {
    CodingOrder();
    var offer := item => EncodingOffer(num, item);
    FoldIsTop(CodingBeats, offer, NoCoding, items);
    var best := BestCoding(num, items);
    if best == NoCoding {
      forall i | 0 <= i < |items| ensures EncodingOffer(num, items[i]).None? {
        assert offer(items[i]).Some? ==> CodingBeats(offer(items[i]).value, NoCoding);
      }
    } else {
      var i: nat :| WonAt(CodingBeats, offer, items, best, i);
    }
  }

  /** Reordering the list changes nothing. */
  lemma BucketIgnoresOrder(num: Parser, a: seq<string>, b: seq<string>)
    requires multiset(a) == multiset(b)
    ensures BestCoding(num, a) == BestCoding(num, b)
  {
    CodingOrder();
    FoldReordered(CodingBeats, item => EncodingOffer(num, item), NoCoding, a, b);
  }

  lemma TrimAllLast(ps: seq<string>, p: string)
    ensures TrimAll(ps + [p]) == TrimAll(ps) + [TrimSpace(p)]
  {}

  lemma {:induction false} TrimmedIsMap(ps: seq<string>)
    ensures TrimAll(ps) == FilterMap((p: string) => Some(TrimSpace(p)), ps)
  {
    if ps != [] {
      var most, last := ps[..|ps| - 1], ps[|ps| - 1];
      TrimmedIsMap(most);
      TrimAllLast(most, last);
      assert ps == most + [last];
    }
  }

  /** Reordering the comma-separated parts of a field value reorders its items. */
  lemma ReorderedItems(a: seq<string>, b: seq<string>)
    requires a != [] && multiset(a) == multiset(b) && forall p | p in a :: ',' !in p
    ensures multiset(Items(Join(a, ","))) == multiset(Items(Join(b, ",")))
  {
    assert a[0] in multiset(b);
    forall p | p in b ensures ',' !in p { SameMembers(a, b, p); }
    SplitJoin(a, ',');
    SplitJoin(b, ',');
    TrimmedIsMap(a);
    TrimmedIsMap(b);
    FilterMapPermutes((p: string) => Some(TrimSpace(p)), a, b);
  }

  /** The bucket of a field value does not depend on the order of its list. */
  lemma ReorderedField(num: Parser, a: seq<string>, b: seq<string>)
    requires a != [] && multiset(a) == multiset(b) && forall p | p in a :: ',' !in p
    ensures BestCoding(num, Items(Join(a, ","))) == BestCoding(num, Items(Join(b, ",")))
  {
    ReorderedItems(a, b);
    BucketIgnoresOrder(num, Items(Join(a, ",")), Items(Join(b, ",")));
  }

  /** `rewriteOutboundAE`: the origin is asked for the bucket's token, or for nothing. */
  function OutboundEncoding(num: Parser, v: string): string {
    var bucket := Token(BestCoding(num, Items(v)).rank);
    if bucket == "identity" then "" else bucket
  }

  /** A plain token is a list of one item at full weight. */
  lemma PlainItem(t: string)
    requires forall i | 0 <= i < |t| :: !IsSpace(t[i]) && t[i] != ',' && t[i] != ';'
    ensures Items(t) == [t] && TrimSpace(t) == t && CutParams(t) == (t, "")
  {
    TrimSpaceFixed(t);
    IndexOfUnique(t, ',', |t|);
    IndexOfUnique(t, ';', |t|);
  }

  lemma TokenOffer(num: Parser, rank: nat)
    requires 1 <= rank <= 3
    ensures Items(Token(rank)) == [Token(rank)]
    ensures EncodingOffer(num, Token(rank)) == Some(Coding(rank, One))
  {
    KnownToken(num, if rank == 3 then "br" else if rank == 2 then "zstd" else "gzip");
  }

  lemma KnownToken(num: Parser, t: string)
    requires Rank(t) > 0 && forall i | 0 <= i < |t| :: 'a' <= t[i] <= 'z'
    ensures Items(t) == [t] && EncodingOffer(num, t) == Some(Coding(Rank(t), One))
  {
    PlainItem(t);
    LowerPlain(t);
    PlainOffer(num, t);
  }

  lemma PlainOffer(num: Parser, t: string)
    requires Rank(t) > 0 && CutParams(t) == (t, "") && TrimSpace(t) == t == Lower(t)
    ensures EncodingOffer(num, t) == Some(Coding(Rank(t), One))
  {}

  lemma LowerPlain(t: string)
    requires forall i | 0 <= i < |t| :: 'a' <= t[i] <= 'z'
    ensures Lower(t) == t
  {}

  lemma BestRank(num: Parser, items: seq<string>)
    ensures BestCoding(num, items).rank <= 3
  {
    BucketIsBest(num, items);
  }

  /** Bucketing the origin-bound value gives the bucket again. */
  lemma EncodingRebuckets(num: Parser, v: string)
    ensures Token(BestCoding(num, Items(OutboundEncoding(num, v))).rank) == Token(BestCoding(num, Items(v)).rank)
  {
    var offer := item => EncodingOffer(num, item);
    var rank := BestCoding(num, Items(v)).rank;
    BestRank(num, Items(v));
    if rank == 0 {
      PlainItem("");
      FoldOne(CodingBeats, offer, NoCoding, "");
    } else {
      assert OutboundEncoding(num, v) == Token(rank);
      TokenOffer(num, rank);
      FoldOne(CodingBeats, offer, NoCoding, Token(rank));
    }
  }

  // ---- Accept-Language ----

  predicate IsTagChar(c: char) {
    'a' <= c <= 'z' || 'A' <= c <= 'Z' || '0' <= c <= '9'
  }

  predicate Subtag(s: string) {
    1 <= |s| <= 8 && forall i | 0 <= i < |s| :: IsTagChar(s[i])
  }

  /** Up to eight hyphenated subtags of one to eight letters or digits. */
  predicate LanguageTag(tag: string) {
    |Split(tag, '-')| <= 8 && forall s | s in Split(tag, '-') :: Subtag(s)
  }

  method SubtagAt(tag: string, start: nat, end: nat) returns (ok: bool)
    requires start <= end <= |tag|
    ensures ok <==> Subtag(tag[start..end])
  {
    var s := tag[start..end];
    if start == end || end - start > 8 { return false; }
    for j := start to end
      invariant forall i | 0 <= i < j - start :: IsTagChar(s[i])
    {
      if !IsTagChar(tag[j]) {
        assert s[j - start] == tag[j];
        return false;
      }
    }
    return true;
  }

  /** `isLanguageTag`. */
  method IsLanguageTag(tag: string) returns (ok: bool)
    ensures ok <==> LanguageTag(tag)
  {
    if tag == "" || tag == "*" {
      SplitNone(tag);
      return false;
    }
    var segStart: nat, segs: nat := 0, 0;
    ghost var done: seq<string> := [];
    ScanStart(tag);
    for i := 0 to |tag| + 1
      invariant segStart <= i && segs == |done| && Scanned(tag, done, segStart, i)
      invariant forall s | s in done :: Subtag(s)
    {
      var good;
      good, segStart, segs, done := ScanByte(tag, segStart, segs, i, done);
      if !good { return false; }
    }
    ScanEnd(tag, done, segStart);
    return 1 <= segs <= 8;
  }

  /** One round of its loop. */
  method ScanByte(tag: string, start: nat, n: nat, i: nat, ghost done: seq<string>)
      returns (good: bool, segStart: nat, segs: nat, ghost more: seq<string>)
    requires start <= i <= |tag| && n == |done| && Scanned(tag, done, start, i)
    requires forall s | s in done :: Subtag(s)
    ensures !good ==> !LanguageTag(tag)
    ensures good ==> segStart <= i + 1 && segs == |more| && Scanned(tag, more, segStart, i + 1)
    ensures good ==> forall s | s in more :: Subtag(s)
  {
    good, segStart, segs, more := true, start, n, done;
    if i == |tag| || tag[i] == '-' {
      good := CloseSubtag(tag, start, i, done);
      segStart, segs, more := i + 1, n + 1, done + [tag[start..i]];
    } else {
      ScanOn(tag, done, start, i);
    }
  }

  lemma ScanEnd(tag: string, done: seq<string>, start: nat)
    requires Scanned(tag, done, start, |tag| + 1) && forall s | s in done :: Subtag(s)
    ensures LanguageTag(tag) <==> 1 <= |done| <= 8
  {}

  /** The subtag that ends at `i`. */
  method CloseSubtag(tag: string, start: nat, i: nat, ghost done: seq<string>) returns (good: bool)
    requires i <= |tag| && (i == |tag| || tag[i] == '-') && Scanned(tag, done, start, i)
    ensures good ==> Subtag(tag[start..i]) && Scanned(tag, done + [tag[start..i]], i + 1, i + 1)
    ensures !good ==> !LanguageTag(tag)
  {
    ScanCut(tag, done, start, i);
    good := SubtagAt(tag, start, i);
  }

  lemma ScanStart(tag: string)
    ensures Scanned(tag, [], 0, 0)
  {
    assert tag[0..] == tag && [] + Split(tag, '-') == Split(tag, '-');
  }

  /** The subtags up to `start`, no separator between there and `i`. */
  ghost predicate Scanned(tag: string, done: seq<string>, start: nat, i: nat) {
    && (i <= |tag| ==> start <= i && '-' !in tag[start..i] && Split(tag, '-') == done + Split(tag[start..], '-'))
    && (i > |tag| ==> Split(tag, '-') == done)
  }

  lemma ScanOn(tag: string, done: seq<string>, start: nat, i: nat)
    requires i < |tag| && tag[i] != '-' && Scanned(tag, done, start, i)
    ensures Scanned(tag, done, start, i + 1)
  {
    assert tag[start..i + 1] == tag[start..i] + [tag[i]];
  }

  lemma ScanCut(tag: string, done: seq<string>, start: nat, i: nat)
    requires i <= |tag| && (i == |tag| || tag[i] == '-') && Scanned(tag, done, start, i)
    ensures Scanned(tag, done + [tag[start..i]], i + 1, i + 1) && tag[start..i] in Split(tag, '-')
  {
    CutAtDash(tag, start, i);
    var part := tag[start..i];
    if i == |tag| {
      Appended(done, part, []);
    } else {
      Appended(done, part, Split(tag[i + 1..], '-'));
      assert tag[i + 1..i + 1] == "";
    }
  }

  lemma Appended<T>(done: seq<T>, part: T, more: seq<T>)
    ensures done + ([part] + more) == done + [part] + more
    ensures part in done + ([part] + more)
    ensures more == [] ==> done + ([part] + more) == done + [part]
  {
    assert (done + ([part] + more))[|done|] == part;
  }

  /** An accepted tag keeps the rule the comment states, a primary subtag of two to eight
      characters, exactly when that subtag is not a single character. */
  lemma CommentedRuleHolds(tag: string)
    requires LanguageTag(tag)
    ensures 2 <= |Split(tag, '-')[0]| <= 8 <==> |Split(tag, '-')[0]| != 1
  {
    assert Split(tag, '-')[0] in Split(tag, '-');
  }

  /** One character is accepted. */
  lemma OneCharacterTag()
    ensures LanguageTag("x") && |Split("x", '-')[0]| == 1
  {
    IndexOfUnique("x", '-', 1);
    assert Split("x", '-') == ["x"];
  }

  lemma SplitNone(s: string)
    requires s == "" || s == "*"
    ensures Split(s, '-') == [s] && !Subtag(s) && !LanguageTag(s)
  {
    IndexOfUnique(s, '-', |s|);
    assert s in Split(s, '-');
  }

  /** Splitting from `start`, with the next separator, or the end, at `i`. */
  lemma CutAtDash(tag: string, start: nat, i: nat)
    requires start <= i <= |tag| && '-' !in tag[start..i] && (i == |tag| || tag[i] == '-')
    ensures Split(tag[start..], '-') == [tag[start..i]] + if i == |tag| then [] else Split(tag[i + 1..], '-')
  {
    var rest := tag[start..];
    if i == |tag| {
      assert rest == tag[start..i];
      IndexOfUnique(rest, '-', |rest|);
    } else {
      assert rest == tag[start..i] + ['-'] + tag[i + 1..];
      SplitHead(tag[start..i], tag[i + 1..], '-');
    }
  }

  /** `langTagLess`: the order of the lowered tags. */
  predicate TagLess(a: string, b: string) {
    Leq(Lower(a), Lower(b)) && Lower(a) != Lower(b)
  }

  lemma {:induction false} LeqPrefix(a: string, b: string, i: nat)
    requires i <= |a| && i <= |b| && a[..i] == b[..i]
    ensures Leq(a, b) <==> Leq(a[i..], b[i..])
  {
    if i > 0 {
      assert a[0] == a[..i][0] && b[0] == b[..i][0];
      assert a[1..][..i - 1] == a[..i][1..] && b[1..][..i - 1] == b[..i][1..];
      LeqPrefix(a[1..], b[1..], i - 1);
      assert a[1..][i - 1..] == a[i..] && b[1..][i - 1..] == b[i..];
    } else {
      assert a[0..] == a && b[0..] == b;
    }
  }

  method LangTagLess(a: string, b: string) returns (less: bool)
    ensures less <==> TagLess(a, b)
  {
    var n := if |a| <= |b| then |a| else |b|;
    ghost var x, y := Lower(a), Lower(b);
    for i := 0 to n
      invariant x[..i] == y[..i]
    {
      LeqPrefix(x, y, i);
      var ca, cb := FoldChar(a[i]), FoldChar(b[i]);
      assert x[i..][0] == ca && y[i..][0] == cb;
      if ca != cb { return ca < cb; }
      assert x[..i + 1] == x[..i] + [ca] && y[..i + 1] == y[..i] + [cb];
    }
    LeqPrefix(x, y, n);
    return |a| < |b|;
  }

  datatype Tag = Tag(text: string, quality: Quality)

  function LanguageOffer(num: Parser, item: string): Option<Tag> {
    var (name, params) := CutParams(item);
    var tag, w := TrimSpace(name), WeightOf(num, params);
    if !LanguageTag(tag) || w.NaN? || Refused(w) then None else Some(Tag(tag, w.quality))
  }

  predicate TagBeats(a: Tag, b: Tag) {
    Above(a.quality, b.quality) || (a.quality == b.quality && TagLess(a.text, b.text))
  }

  const NoTag := Tag("", Fin(-1.0))

  function BestTag(num: Parser, items: seq<string>): Tag {
    Fold(TagBeats, item => LanguageOffer(num, item), NoTag, items)
  }

  method TryTag(num: Parser, item: string, best: Tag) returns (next: Tag)
    ensures next == Better(TagBeats, best, LanguageOffer(num, item))
  {
    next := best;
    var (name, params) := CutParams(item);
    var tag := TrimSpace(name);
    var ok := IsLanguageTag(tag);
    if !ok { return; }
    var q := ReadWeight(num, params);
    if Refused(q) || q.NaN? { return; }
    if Above(q.quality, best.quality) { return Tag(tag, q.quality); }
    if q.quality != best.quality || Lower(tag) == Lower(best.text) { return; }
    var less := LangTagLess(tag, best.text);
    if less { next := Tag(tag, best.quality); }
  }

  /** `langBucket`: the winning tag as the client spelled it. */
  method LangBucket(num: Parser, v: string) returns (bucket: Option<string>)
    ensures bucket == Language(num, Items(v))
  {
    ghost var offer := item => LanguageOffer(num, item);
    var best := NoTag;
    var rest := TrimSpace(v);
    while rest != ""
      invariant Left(TagBeats, offer, best, rest) == Left(TagBeats, offer, NoTag, TrimSpace(v))
      decreases |rest|
    {
      ghost var s := rest;
      var item;
      item, rest := NextPiece(rest, ',');
      LeftStep(TagBeats, offer, best, s, item, rest);
      best := TryTag(num, TrimSpace(item), best);
    }
    NoEmptyTag(num);
    FoldOfPieces(TagBeats, offer, NoTag, v);
    return if best.text == "" then None else Some(best.text);
  }

  function Language(num: Parser, items: seq<string>): Option<string> {
    var best := BestTag(num, items);
    if best.text == "" then None else Some(best.text)
  }

  lemma NoEmptyTag(num: Parser)
    ensures LanguageOffer(num, "") == None
  {
    SplitNone("");
    TrimSpaceFixed("");
    assert "" in Split("", '-');
  }

  lemma TagOrder()
    ensures StrictWeak(TagBeats)
  {
    LeqTotalOrder();
  }

  lemma OfferedTag(num: Parser, item: string)
    requires LanguageOffer(num, item).Some?
    ensures var t := LanguageOffer(num, item).value; t.text != "" && LanguageTag(t.text) && TagBeats(t, NoTag)
  {
    SplitNone("");
    assert "" in Split("", '-');
  }

  /** The bucket is a tag of the highest weight, the least of them ignoring case, never one of
      weight zero; there is none exactly when no item is acceptable. */
  lemma LanguageIsBest(num: Parser, items: seq<string>)
    ensures var best := BestTag(num, items);
            && Top(TagBeats, item => LanguageOffer(num, item), items, best)
            && (Language(num, items) == None <==> forall i | 0 <= i < |items| :: LanguageOffer(num, items[i]).None?)
            && (Language(num, items) != None
                ==> exists i | 0 <= i < |items| :: LanguageOffer(num, items[i]) == Some(best))
  {
    TagOrder();
    var offer := item => LanguageOffer(num, item);
    FoldIsTop(TagBeats, offer, NoTag, items);
    forall i | 0 <= i < |items| && offer(items[i]).Some? ensures TagBeats(offer(items[i]).value, NoTag) {
      OfferedTag(num, items[i]);
    }
    var best := BestTag(num, items);
    if best != NoTag {
      var i: nat :| WonAt(TagBeats, offer, items, best, i);
      OfferedTag(num, items[i]);
    }
  }

  /** Ignoring case, reordering the list changes nothing. */
  lemma LanguageIgnoresOrder(num: Parser, a: seq<string>, b: seq<string>)
    requires multiset(a) == multiset(b)
    ensures BestTag(num, a).quality == BestTag(num, b).quality
    ensures Lower(BestTag(num, a).text) == Lower(BestTag(num, b).text)
  {
    TagOrder();
    LeqTotalOrder();
    FoldReordered(TagBeats, item => LanguageOffer(num, item), NoTag, a, b);
  }

  /** Ignoring case, the bucket of a field value does not depend on the order of its list. */
  lemma ReorderedLanguage(num: Parser, a: seq<string>, b: seq<string>)
    requires a != [] && multiset(a) == multiset(b) && forall p | p in a :: ',' !in p
    ensures var x, y := BestTag(num, Items(Join(a, ","))), BestTag(num, Items(Join(b, ",")));
            x.quality == y.quality && Lower(x.text) == Lower(y.text)
  {
    ReorderedItems(a, b);
    LanguageIgnoresOrder(num, Items(Join(a, ",")), Items(Join(b, ",")));
  }

  /** Item `i` offers a tag nothing on the list beats. */
  ghost predicate Unbeaten(num: Parser, items: seq<string>, i: nat) {
    && i < |items| && LanguageOffer(num, items[i]).Some?
    && Top(TagBeats, item => LanguageOffer(num, item), items, LanguageOffer(num, items[i]).value)
  }

  /** All items nothing beats spell their tag alike. */
  ghost predicate OneSpelling(num: Parser, items: seq<string>) {
    forall i: nat, j: nat | Unbeaten(num, items, i) && Unbeaten(num, items, j) ::
      LanguageOffer(num, items[i]).value.text == LanguageOffer(num, items[j]).value.text
  }

  /** An item nothing beats wins when it comes first. */
  lemma FirstTopWins(num: Parser, items: seq<string>, i: nat) returns (moved: seq<string>)
    requires Unbeaten(num, items, i)
    ensures multiset(moved) == multiset(items) && BestTag(num, moved) == LanguageOffer(num, items[i]).value
  {
    moved := [items[i]] + Without(items, i);
    var t := LanguageOffer(num, items[i]).value;
    BagWithout(items, i);
    assert items[i] in items;
    var offer := item => LanguageOffer(num, item);
    TagOrder();
    FoldIsTop(TagBeats, offer, NoTag, moved);
    OfferedTag(num, items[i]);
    var r := BestTag(num, moved);
    assert moved[0] == items[i] && !TagBeats(offer(moved[0]).value, r);
    assert r != NoTag;
    var k: nat :| WonAt(TagBeats, offer, moved, r, k);
    SameMembers(moved, items, moved[k]);
    var j :| 0 <= j < |items| && items[j] == moved[k];
    assert offer(items[j]).Some? && !TagBeats(offer(items[j]).value, t);
  }

  /** The winner is an item nothing beats, unless nothing is offered. */
  lemma WinnerUnbeaten(num: Parser, items: seq<string>) returns (i: nat)
    requires BestTag(num, items) != NoTag
    ensures Unbeaten(num, items, i) && LanguageOffer(num, items[i]).value == BestTag(num, items)
  {
    TagOrder();
    var offer := item => LanguageOffer(num, item);
    FoldIsTop(TagBeats, offer, NoTag, items);
    i :| WonAt(TagBeats, offer, items, BestTag(num, items), i);
  }

  /** Every arrangement of the items has the same winner. */
  ghost predicate OrderFree(num: Parser, items: seq<string>) {
    forall b | multiset(b) == multiset(items) :: BestTag(num, b) == BestTag(num, items)
  }

  /** The spelling of the bucket survives every reordering exactly when all items nothing beats
      spell it alike. */
  lemma SpellingNeedsOneSpelling(num: Parser, items: seq<string>)
    ensures OrderFree(num, items) <==> OneSpelling(num, items)
  {
    if OrderFree(num, items) {
      forall i: nat, j: nat | Unbeaten(num, items, i) && Unbeaten(num, items, j)
        ensures LanguageOffer(num, items[i]).value.text == LanguageOffer(num, items[j]).value.text
      {
        var a := FirstTopWins(num, items, i);
        var b := FirstTopWins(num, items, j);
        assert BestTag(num, a) == BestTag(num, items) == BestTag(num, b);
      }
    }
    if OneSpelling(num, items) {
      forall b | multiset(b) == multiset(items) ensures BestTag(num, b) == BestTag(num, items) {
        SameSpelling(num, items, b);
      }
    }
  }

  /** Being unbeaten does not depend on the order either. */
  lemma UnbeatenMoves(num: Parser, items: seq<string>, b: seq<string>, k: nat) returns (i: nat)
    requires multiset(b) == multiset(items) && Unbeaten(num, b, k)
    ensures Unbeaten(num, items, i) && items[i] == b[k]
  {
    SameMembers(b, items, b[k]);
    i :| 0 <= i < |items| && items[i] == b[k];
    var offer, t := item => LanguageOffer(num, item), LanguageOffer(num, b[k]).value;
    forall j | 0 <= j < |items| && offer(items[j]).Some? ensures !TagBeats(offer(items[j]).value, t) {
      SameMembers(b, items, items[j]);
      var m :| 0 <= m < |b| && b[m] == items[j];
    }
  }

  lemma SameSpelling(num: Parser, items: seq<string>, b: seq<string>)
    requires multiset(b) == multiset(items) && OneSpelling(num, items)
    ensures BestTag(num, b) == BestTag(num, items)
  {
    LanguageIgnoresOrder(num, b, items);
    if BestTag(num, b) != NoTag {
      var k := WinnerUnbeaten(num, b);
      var i := UnbeatenMoves(num, items, b, k);
      BothWin(num, items, b, k);
      var j := WinnerUnbeaten(num, items);
      assert LanguageOffer(num, items[i]).value.text == LanguageOffer(num, items[j]).value.text;
    } else {
      NoneWins(num, b, items);
    }
  }

  lemma BothWin(num: Parser, items: seq<string>, b: seq<string>, k: nat)
    requires multiset(b) == multiset(items) && k < |b| && LanguageOffer(num, b[k]).Some?
    ensures BestTag(num, items) != NoTag
  {
    SameMembers(b, items, b[k]);
    var i :| 0 <= i < |items| && items[i] == b[k];
    LanguageIsBest(num, items);
  }

  lemma NoneWins(num: Parser, b: seq<string>, items: seq<string>)
    requires multiset(b) == multiset(items) && BestTag(num, b) == NoTag
    ensures BestTag(num, items) == NoTag
  {
    if BestTag(num, items) != NoTag {
      var i := WinnerUnbeaten(num, items);
      BothWin(num, b, items, i);
    }
  }

  /** Two spellings of one tag at equal weight: the first one written wins. */
  lemma FirstSpellingWins(num: Parser, x: string, y: string)
    requires LanguageTag(x) && LanguageTag(y) && Lower(x) == Lower(y)
    ensures BestTag(num, [x, y]) == Tag(x, One)
  {
    PlainTag(num, x);
    PlainTag(num, y);
    var offer := item => LanguageOffer(num, item);
    FirstHolds(TagBeats, offer, NoTag, x, y, Tag(x, One), Tag(y, One));
  }

  /** So `en,EN` and `EN,en` ask the origin for different spellings. */
  lemma SpellingFollowsOrder(num: Parser)
    ensures BestTag(num, ["en", "EN"]).text == "en" && BestTag(num, ["EN", "en"]).text == "EN"
  {
    IndexOfUnique("en", '-', 2);
    IndexOfUnique("EN", '-', 2);
    assert Split("en", '-') == ["en"] && Split("EN", '-') == ["EN"];
    assert Lower("EN") == "en" == Lower("en");
    FirstSpellingWins(num, "en", "EN");
    FirstSpellingWins(num, "EN", "en");
  }

  /** A bare tag is a list of one item that offers it at full weight. */
  lemma PlainTag(num: Parser, t: string)
    requires LanguageTag(t)
    ensures Items(t) == [t] && LanguageOffer(num, t) == Some(Tag(t, One)) && TagBeats(Tag(t, One), NoTag)
  {
    TagChars(t);
    PlainItem(t);
  }

  lemma {:induction false} TagChars(t: string)
    requires forall s | s in Split(t, '-') :: Subtag(s)
    ensures forall i | 0 <= i < |t| :: IsTagChar(t[i]) || t[i] == '-'
    decreases |t|
  {
    var i := IndexOf(t, '-');
    if i < |t| {
      var rest := t[i + 1..];
      assert Split(t, '-') == [t[..i]] + Split(rest, '-');
      TagChars(rest);
      assert t[..i] in Split(t, '-');
      forall j | 0 <= j < |t| ensures IsTagChar(t[j]) || t[j] == '-' {
        if j < i { assert t[j] == t[..i][j]; } else if j > i { assert t[j] == rest[j - i - 1]; }
      }
    } else {
      assert t in Split(t, '-');
    }
  }

  /** Bucketing the origin-bound tag gives it back, spelling included. */
  lemma LanguageRebuckets(num: Parser, v: string)
    requires Language(num, Items(v)).Some?
    ensures Language(num, Items(Language(num, Items(v)).value)) == Language(num, Items(v))
  {
    WinnerIsATag(num, Items(v));
    OneTag(num, Language(num, Items(v)).value);
  }

  lemma WinnerIsATag(num: Parser, items: seq<string>)
    requires Language(num, items).Some?
    ensures LanguageTag(Language(num, items).value)
  {
    LanguageIsBest(num, items);
    var i :| 0 <= i < |items| && LanguageOffer(num, items[i]) == Some(BestTag(num, items));
  }

  lemma OneTag(num: Parser, t: string)
    requires LanguageTag(t) && t != ""
    ensures Language(num, Items(t)) == Some(t)
  {
    PlainTag(num, t);
    FoldOne(TagBeats, item => LanguageOffer(num, item), NoTag, t);
  }
}
