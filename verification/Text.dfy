/** Byte strings as the cache handles them. A Go string is a `string` whose
    characters stand for bytes; only ASCII letters have case and only the ASCII
    white space is trimmed. */
module Text {
  import opened Ordering

  /** Go's `<=` on strings: byte-wise lexicographic. */
  predicate Leq(a: string, b: string) {
    a == [] || (b != [] && (a[0] < b[0] || (a[0] == b[0] && Leq(a[1..], b[1..]))))
  }

  lemma {:induction false} LeqTotal(a: string, b: string)
    ensures Leq(a, b) || Leq(b, a)
  {
    if a != [] && b != [] { LeqTotal(a[1..], b[1..]); }
  }

  lemma {:induction false} LeqAntisymmetric(a: string, b: string)
    requires Leq(a, b) && Leq(b, a)
    ensures a == b
  {
    if a != [] {
      LeqAntisymmetric(a[1..], b[1..]);
      assert a == [a[0]] + a[1..] && b == [b[0]] + b[1..];
    }
  }

  lemma {:induction false} LeqTransitive(a: string, b: string, c: string)
    requires Leq(a, b) && Leq(b, c)
    ensures Leq(a, c)
  {
    if a != [] && a[0] == b[0] == c[0] { LeqTransitive(a[1..], b[1..], c[1..]); }
  }

  lemma LeqTotalOrder()
    ensures TotalOrder(Leq)
  {
    forall a: string, b: string ensures Leq(a, b) || Leq(b, a) { LeqTotal(a, b); }
    forall a: string, b: string | Leq(a, b) && Leq(b, a) ensures a == b { LeqAntisymmetric(a, b); }
    forall a: string, b: string, c: string | Leq(a, b) && Leq(b, c) ensures Leq(a, c) { LeqTransitive(a, b, c); }
  }

  /** `foldASCII`: lowercase one ASCII byte. */
  function FoldChar(c: char): char {
    if 'A' <= c <= 'Z' then (c as int + 32) as char else c
  }

  function Lower(s: string): (r: string)
    ensures |r| == |s|
    ensures forall i | 0 <= i < |s| :: r[i] == FoldChar(s[i])
  {
    seq(|s|, i requires 0 <= i < |s| => FoldChar(s[i]))
  }

  lemma LowerIdempotent(s: string)
    ensures Lower(Lower(s)) == Lower(s)
  {}

  predicate IsSpace(c: char) {
    c == ' ' || 9 as char <= c <= 13 as char
  }

  /** Number of leading white-space bytes. */
  function LeadSpaces(s: string): (n: nat)
    ensures n <= |s|
    ensures forall i | 0 <= i < n :: IsSpace(s[i])
    ensures n < |s| ==> !IsSpace(s[n])
  {
    if s != [] && IsSpace(s[0]) then 1 + LeadSpaces(s[1..]) else 0
  }

  /** End of the text in s[lo..hi] once trailing white space is dropped. */
  function TextEnd(s: string, lo: nat, hi: nat): (e: nat)
    requires lo <= hi <= |s|
    ensures lo <= e <= hi
    ensures forall i | e <= i < hi :: IsSpace(s[i])
    ensures lo < e ==> !IsSpace(s[e - 1])
  {
    if lo < hi && IsSpace(s[hi - 1]) then TextEnd(s, lo, hi - 1) else hi
  }

  function TrimSpace(s: string): (r: string)
    ensures |r| <= |s|
    ensures forall c | c in r :: c in s
    ensures r == [] || (!IsSpace(r[0]) && !IsSpace(r[|r| - 1]))
  {
    var lo := LeadSpaces(s);
    s[lo..TextEnd(s, lo, |s|)]
  }

  /** Only white space outside `lo..hi`, and none at its ends. */
  ghost predicate Edges(s: string, lo: nat, hi: nat) {
    && lo <= hi <= |s|
    && (forall i | 0 <= i < lo || hi <= i < |s| :: IsSpace(s[i]))
    && (lo < hi ==> !IsSpace(s[lo]) && !IsSpace(s[hi - 1]))
  }

  lemma TrimEdges(s: string) returns (lo: nat, hi: nat)
    ensures Edges(s, lo, hi) && TrimSpace(s) == s[lo..hi]
  {
    lo := LeadSpaces(s);
    hi := TextEnd(s, lo, |s|);
  }

  /** A trimmed string is determined by where its first and last non-space lie. */
  lemma {:induction false} TrimSpaceIsSlice(s: string, lo: nat, hi: nat)
    requires Edges(s, lo, hi)
    ensures TrimSpace(s) == s[lo..hi]
  {
    var l := LeadSpaces(s);
    if lo < hi {
      assert l == lo;
      assert TextEnd(s, l, |s|) == hi;
    } else {
      assert l == |s|;
    }
  }

  lemma {:induction false} TrimSpaceFixed(s: string)
    requires s == [] || (!IsSpace(s[0]) && !IsSpace(s[|s| - 1]))
    ensures TrimSpace(s) == s
  {
    TrimSpaceIsSlice(s, 0, |s|);
    assert s[0..|s|] == s;
  }

  lemma SliceShift(c: char, s: string, lo: nat, hi: nat)
    requires lo <= hi <= |s|
    ensures ([c] + s)[lo + 1..hi + 1] == s[lo..hi]
  {}

  lemma EdgesShift(c: char, s: string, lo: nat, hi: nat)
    requires IsSpace(c) && Edges(s, lo, hi)
    ensures Edges([c] + s, lo + 1, hi + 1)
  {}

  /** A space in front is trimmed away. */
  lemma TrimLeading(c: char, s: string)
    requires IsSpace(c)
    ensures TrimSpace([c] + s) == TrimSpace(s)
  {
    var lo, hi := TrimEdges(s);
    EdgesShift(c, s, lo, hi);
    TrimSpaceIsSlice([c] + s, lo + 1, hi + 1);
    SliceShift(c, s, lo, hi);
  }

  lemma SliceFront(s: string, c: char, lo: nat, hi: nat)
    requires lo <= hi <= |s|
    ensures (s + [c])[lo..hi] == s[lo..hi]
  {}

  lemma EdgesFront(s: string, c: char, lo: nat, hi: nat)
    requires IsSpace(c) && Edges(s, lo, hi)
    ensures Edges(s + [c], lo, hi)
  {}

  /** A space behind is trimmed away. */
  lemma TrimTrailing(s: string, c: char)
    requires IsSpace(c)
    ensures TrimSpace(s + [c]) == TrimSpace(s)
  {
    var lo, hi := TrimEdges(s);
    EdgesFront(s, c, lo, hi);
    TrimSpaceIsSlice(s + [c], lo, hi);
    SliceFront(s, c, lo, hi);
  }

  lemma LowerEdges(s: string, lo: nat, hi: nat)
    requires Edges(s, lo, hi)
    ensures Edges(Lower(s), lo, hi)
  {
    FoldKeepsSpace();
  }

  lemma LowerSlice(s: string, lo: nat, hi: nat)
    requires lo <= hi <= |s|
    ensures Lower(s)[lo..hi] == Lower(s[lo..hi])
  {}

  /** Trimming and lowercasing commute. */
  lemma TrimLower(s: string)
    ensures TrimSpace(Lower(s)) == Lower(TrimSpace(s))
  {
    var lo, hi := TrimEdges(s);
    LowerEdges(s, lo, hi);
    TrimSpaceIsSlice(Lower(s), lo, hi);
    LowerSlice(s, lo, hi);
  }

  lemma FoldKeepsSpace()
    ensures forall c: char :: IsSpace(FoldChar(c)) <==> IsSpace(c)
  {}

  /** Index of the first `c` in `s`, or |s|. */
  function IndexOf(s: string, c: char): (i: nat)
    ensures i <= |s|
    ensures i < |s| ==> s[i] == c
    ensures forall j | 0 <= j < i :: s[j] != c
  {
    if s == [] || s[0] == c then 0 else 1 + IndexOf(s[1..], c)
  }

  lemma IndexOfUnique(s: string, c: char, i: nat)
    requires i <= |s|
    requires i < |s| ==> s[i] == c
    requires forall j | 0 <= j < i :: s[j] != c
    ensures IndexOf(s, c) == i
  {}

  /** `strings.Split` on a one-byte separator: always at least one part. */
  function Split(s: string, c: char): (r: seq<string>)
    ensures |r| >= 1
    ensures forall p | p in r :: c !in p
    decreases |s|
  {
    var i := IndexOf(s, c);
    if i == |s| then
      assert c !in s;
      [s]
    else
      assert c !in s[..i];
      [s[..i]] + Split(s[i + 1..], c)
  }

  function Join(parts: seq<string>, sep: string): string {
    if parts == [] then "" else if |parts| == 1 then parts[0]
    else parts[0] + sep + Join(parts[1..], sep)
  }

  /** Joining with the separator byte and splitting again is the identity. */
  lemma {:induction false} SplitJoin(parts: seq<string>, c: char)
    requires parts != []
    requires forall p | p in parts :: c !in p
    ensures Split(Join(parts, [c]), c) == parts
  {
    var j := Join(parts, [c]);
    if |parts| == 1 {
      assert j == parts[0] && parts[0] in parts;
      IndexOfUnique(j, c, |j|);
    } else {
      SplitJoin(parts[1..], c);
      SplitHead(parts[0], Join(parts[1..], [c]), c);
    }
  }

  lemma {:induction false} SplitHead(head: string, rest: string, c: char)
    requires c !in head
    ensures Split(head + [c] + rest, c) == [head] + Split(rest, c)
  {
    var j := head + [c] + rest;
    IndexOfUnique(j, c, |head|);
    assert j[|head| + 1..] == rest;
    assert j[..|head|] == head;
  }

  function LowerAll(parts: seq<string>): (r: seq<string>)
    ensures |r| == |parts| && forall i | 0 <= i < |parts| :: r[i] == Lower(parts[i])
  {
    seq(|parts|, i requires 0 <= i < |parts| => Lower(parts[i]))
  }

  /** A separator without case splits before or after lowercasing alike. */
  lemma {:induction false} SplitLower(s: string, c: char)
    requires forall d: char :: FoldChar(d) == c <==> d == c
    ensures Split(Lower(s), c) == LowerAll(Split(s, c))
    decreases |s|
  {
    var i := IndexOf(s, c);
    if i < |s| {
      var head, tail := s[..i], s[i + 1..];
      SplitLower(tail, c);
      assert Lower(s) == Lower(head) + [c] + Lower(tail);
      SplitHead(Lower(head), Lower(tail), c);
      LowerAllCons(head, Split(tail, c));
    } else {
      IndexOfUnique(Lower(s), c, |s|);
      assert LowerAll([s]) == [Lower(s)];
    }
  }

  lemma LowerAllCons(head: string, rest: seq<string>)
    ensures LowerAll([head] + rest) == [Lower(head)] + LowerAll(rest)
  {}

  /** The pieces a `strings.Cut` loop sees: nothing follows a final separator. */
  function Pieces(s: string, c: char): seq<string>
    decreases |s|
  {
    if s == "" then []
    else
      var i := IndexOf(s, c);
      if i == |s| then [s] else [s[..i]] + Pieces(s[i + 1..], c)
  }

  method NextPiece(s: string, c: char) returns (piece: string, rest: string)
    requires s != ""
    ensures Pieces(s, c) == [piece] + Pieces(rest, c) && |rest| < |s|
  {
    var i := IndexOf(s, c);
    if i < |s| { return s[..i], s[i + 1..]; }
    return s, "";
  }

  lemma PiecesHead(head: string, rest: string, c: char)
    requires c !in head
    ensures Pieces(head + [c] + rest, c) == [head] + Pieces(rest, c)
  {
    var s := head + [c] + rest;
    IndexOfUnique(s, c, |head|);
    assert s[..|head|] == head && s[|head| + 1..] == rest;
  }

  function TrimAll(ps: seq<string>): (r: seq<string>)
    ensures |r| == |ps| && forall i | 0 <= i < |ps| :: r[i] == TrimSpace(ps[i])
  {
    seq(|ps|, i requires 0 <= i < |ps| => TrimSpace(ps[i]))
  }

  lemma TrimAllCons(p: string, ps: seq<string>)
    ensures TrimAll([p] + ps) == [TrimSpace(p)] + TrimAll(ps)
    ensures TrimAll([p] + ps)[0] == TrimSpace(p) && TrimAll([p] + ps)[1..] == TrimAll(ps)
  {}

  /** A space in front of a list is trimmed with its first part. */
  lemma SplitLeadingSpace(c: char, s: string)
    requires IsSpace(c)
    ensures TrimAll(Split([c] + s, ',')) == TrimAll(Split(s, ','))
  {
    var i := IndexOf(s, ',');
    if i < |s| {
      var head, tail := s[..i], s[i + 1..];
      var parts := Split(tail, ',');
      assert s == head + [','] + tail && [c] + s == ([c] + head) + [','] + tail;
      SplitHead(head, tail, ',');
      SplitHead([c] + head, tail, ',');
      TrimAllCons(head, parts);
      TrimAllCons([c] + head, parts);
      TrimLeading(c, head);
    } else {
      IndexOfUnique([c] + s, ',', i + 1);
      assert Split(s, ',') == [s] && Split([c] + s, ',') == [[c] + s];
      TrimLeading(c, s);
    }
  }
}
