/** The primary cache key: canonical bytes written into a 512-byte buffer that only counts
    what no longer fits, and once more into a buffer of the counted size. */
module KeyBuild {
  import opened Ordering
  import opened Text
  import opened Query

  const StackSize := 512

  /** `n` bytes of `s` were appended; those that fit are in the buffer. */
  ghost predicate Holds(buf: array<char>, n: nat, s: string)
    reads buf
  {
    n == |s| && forall i | 0 <= i < n && i < buf.Length :: buf[i] == s[i]
  }

  method AppendByte(buf: array<char>, n: nat, c: char, ghost s: string) returns (m: nat)
    requires Holds(buf, n, s)
    modifies buf
    ensures Holds(buf, m, s + [c])
  {
    if n < buf.Length { buf[n] := c; }
    m := n + 1;
  }

  /** `copyOverflow`: copy what fits, count all of it. */
  method CopyOverflow(buf: array<char>, n: nat, src: string, ghost s: string) returns (k: nat)
    requires Holds(buf, n, s)
    modifies buf
    ensures k == |src| && Holds(buf, n + k, s + src)
  {
    if n < buf.Length {
      var fits := if |src| <= buf.Length - n then |src| else buf.Length - n;
      for i := 0 to fits
        invariant forall j | 0 <= j < n :: buf[j] == s[j]
        invariant forall j | 0 <= j < i :: buf[n + j] == src[j]
      {
        buf[n + i] := src[i];
      }
    }
    k := |src|;
  }

  // ---- Host and path ----

  predicate EndsIn(s: string, suffix: string) {
    |suffix| <= |s| && s[|s| - |suffix|..] == suffix
  }

  /** Lower case, without a default port. */
  function CanonicalHost(host: string): (r: string)
    ensures |host| - 4 <= |r| <= |host|
  {
    var h := Lower(host);
    if EndsIn(h, ":80") then h[..|h| - 3] else if EndsIn(h, ":443") then h[..|h| - 4] else h
  }

  /** `hasSuffix`: false whenever the text has outgrown the buffer. */
  method HasSuffix(buf: array<char>, n: nat, suffix: string, ghost s: string) returns (r: bool)
    requires Holds(buf, n, s)
    ensures r <==> n <= buf.Length && EndsIn(s, suffix)
  {
    if n < |suffix| || n > buf.Length { return false; }
    assert buf[n - |suffix|..n] == s[n - |suffix|..];
    return buf[n - |suffix|..n] == suffix;
  }

  /** A separator before the host keeps the suffix test inside the host. */
  lemma SuffixInHost(s: string, h: string, suffix: string)
    requires s != "" && s[|s| - 1] !in suffix
    ensures EndsIn(s + h, suffix) <==> EndsIn(h, suffix)
  {
    var t := s + h;
    if |suffix| <= |h| {
      assert t[|t| - |suffix|..] == h[|h| - |suffix|..];
    } else if |suffix| <= |t| {
      assert t[|t| - |suffix|..][|suffix| - |h| - 1] == s[|s| - 1];
    }
  }

  method AppendLower(buf: array<char>, n: nat, host: string, ghost s: string) returns (m: nat)
    requires Holds(buf, n, s)
    modifies buf
    ensures Holds(buf, m, s + Lower(host))
  {
    m := n;
    ghost var h := Lower(host);
    for i := 0 to |host|
      invariant m == n + i && Holds(buf, m, s + h[..i])
    {
      assert h[..i + 1] == h[..i] + [FoldChar(host[i])];
      if m < buf.Length { buf[m] := FoldChar(host[i]); }
      m := m + 1;
    }
    assert h[..|host|] == h;
  }

  lemma HoldsLess(buf: array<char>, n: nat, s: string, h: string, k: nat)
    requires Holds(buf, n, s + h) && k <= |h|
    ensures Holds(buf, n - k, s + h[..|h| - k])
  {
    assert s + h[..|h| - k] == (s + h)[..n - k];
  }

  /** `appendCanonicalHost`: the default port stays if the host has outgrown the buffer. */
  method AppendHost(buf: array<char>, n: nat, host: string, ghost s: string) returns (m: nat)
    requires Holds(buf, n, s) && s != "" && s[|s| - 1] == '|'
    modifies buf
    ensures Holds(buf, m, s + if n + |host| <= buf.Length then CanonicalHost(host) else Lower(host))
  {
    m := AppendLower(buf, n, host, s);
    ghost var h := Lower(host);
    SuffixInHost(s, h, ":80");
    SuffixInHost(s, h, ":443");
    var p80 := HasSuffix(buf, m, ":80", s + h);
    if p80 {
      HoldsLess(buf, m, s, h, 3);
      return m - 3;
    }
    var p443 := HasSuffix(buf, m, ":443", s + h);
    if p443 {
      HoldsLess(buf, m, s, h, 4);
      return m - 4;
    }
  }

  function Collapse(p: string): string {
    if p == "" then ""
    else
      var q, c := Collapse(p[..|p| - 1]), p[|p| - 1];
      if c == '/' && q != "" && q[|q| - 1] == '/' then q else q + [c]
  }

  /** The path without repeated slashes; the empty path is the root. */
  function CanonicalPath(p: string): string {
    Collapse(if p == "" then "/" else p)
  }

  /** `appendCanonicalPathString`. */
  method AppendPath(buf: array<char>, n: nat, path: string, ghost s: string) returns (m: nat)
    requires Holds(buf, n, s)
    modifies buf
    ensures Holds(buf, m, s + CanonicalPath(path))
  {
    var p := if path == "" then "/" else path;
    var prev := 0 as char;
    m := n;
    for i := 0 to |p|
      invariant Holds(buf, m, s + Collapse(p[..i]))
      invariant var q := Collapse(p[..i]); prev == if q == "" then 0 as char else q[|q| - 1]
    {
      var c := p[i];
      assert p[..i + 1][..i] == p[..i];
      if c == '/' && prev == '/' { continue; }
      if m < buf.Length { buf[m] := c; }
      m := m + 1;
      prev := c;
      assert s + (Collapse(p[..i]) + [c]) == s + Collapse(p[..i]) + [c];
    }
    assert p[..|p|] == p;
  }

  predicate NoDoubleSlash(p: string) {
    forall i | 0 < i < |p| :: !(p[i - 1] == '/' && p[i] == '/')
  }

  lemma {:induction false} CollapseIsClean(p: string)
    ensures NoDoubleSlash(Collapse(p)) && (p != "" ==> Collapse(p) != "")
    ensures NoDoubleSlash(p) ==> Collapse(p) == p
    ensures p != "" ==> Collapse(p)[|Collapse(p)| - 1] == p[|p| - 1]
  {
    if p != "" {
      CollapseIsClean(p[..|p| - 1]);
      assert p == p[..|p| - 1] + [p[|p| - 1]];
    }
  }

  /** What one more byte does to the canonical form. */
  lemma CollapseMore(p: string, c: char)
    ensures var q := Collapse(p);
            Collapse(p + [c]) == if c == '/' && q != "" && q[|q| - 1] == '/' then q else q + [c]
  {
    assert (p + [c])[..|p|] == p;
  }

  /** Paths with one canonical form keep having one, whatever follows. */
  lemma {:induction false} CollapseBehind(p: string, q: string, b: string)
    requires Collapse(p) == Collapse(q)
    ensures Collapse(p + b) == Collapse(q + b)
  {
    if b == "" {
      assert p + b == p && q + b == q;
    } else {
      var most, c := b[..|b| - 1], b[|b| - 1];
      CollapseBehind(p, q, most);
      CollapseMore(p + most, c);
      CollapseMore(q + most, c);
      SplitLast(p, b);
      SplitLast(q, b);
    }
  }

  lemma SplitLast(a: string, b: string)
    requires b != ""
    ensures a + b == a + b[..|b| - 1] + [b[|b| - 1]]
  {}

  lemma SlashTwice(p: string)
    requires p != "" && p[|p| - 1] == '/'
    ensures Collapse(p + ['/']) == Collapse(p)
  {
    CollapseIsClean(p);
    CollapseMore(p, '/');
  }

  /** Paths that differ in repeated slashes only have the same canonical form. */
  lemma CollapseSqueezes(a: string, b: string)
    ensures Collapse(a + "//" + b) == Collapse(a + "/" + b)
  {
    var one := a + "/";
    SlashTwice(one);
    assert one + ['/'] == a + "//";
    CollapseBehind(a + "//", one, b);
  }

  // ---- The query ----

  /** One pair of `writeSortedPairs` or of the slow path. */
  method WritePair(buf: array<char>, n: nat, x: Pair, ghost pairs: seq<Pair>, ghost s: string, first: bool)
      returns (m: nat)
    requires Holds(buf, n, s + Written(pairs)) && (first <==> pairs == [])
    modifies buf
    ensures Holds(buf, m, s + Written(pairs + [x]))
  {
    m := n;
    ghost var t := s + Written(pairs);
    if !first {
      m := AppendByte(buf, m, '&', t);
      t := t + "&";
    }
    var k := CopyOverflow(buf, m, x.k, t);
    m := AppendByte(buf, m + k, '=', t + x.k);
    var v := CopyOverflow(buf, m, x.v, t + x.k + "=");
    m := m + v;
    WrittenMore(s, pairs, x);
  }

  lemma WrittenMore(s: string, pairs: seq<Pair>, x: Pair)
    ensures s + Written(pairs + [x])
            == (if pairs == [] then s + Written(pairs) else s + Written(pairs) + "&") + x.k + "=" + x.v
  {
    var all := pairs + [x];
    assert all[..|all| - 1] == pairs && all[|all| - 1] == x;
  }

  /** `writeSortedPairs`. */
  method WritePairs(buf: array<char>, n: nat, pairs: array<Pair>, np: nat, ghost s: string) returns (m: nat)
    requires Holds(buf, n, s) && np <= pairs.Length
    modifies buf
    ensures Holds(buf, m, s + Written(pairs[..np]))
  {
    m := n;
    var first := true;
    assert s + Written([]) == s;
    for i := 0 to np
      invariant Holds(buf, m, s + Written(pairs[..i])) && (first <==> i == 0)
    {
      m := WritePair(buf, m, pairs[i], pairs[..i], s, first);
      first := false;
      assert pairs[..i + 1] == pairs[..i] + [pairs[i]];
    }
  }

  /** The parsing loop of the fast path; `simple` is false once a pair does not qualify. */
  method CollectPairs(p: Policy, raw: string, stack: array<Pair>) returns (np: nat, simple: bool)
    requires stack.Length == 8
    modifies stack
    ensures np <= 8 && Collect(p, Segments(raw), []) == if simple then Some(stack[..np]) else None
  {
    np, simple := 0, true;
    var s := raw;
    while s != ""
      invariant np <= 8 && Collect(p, Segments(s), stack[..np]) == Collect(p, Segments(raw), [])
      decreases |s|
    {
      ghost var segs := Segments(s);
      var seg;
      seg, s := NextPiece(s, '&');
      assert segs[0] == seg && segs[1..] == Segments(s);
      var x := Cut(seg);
      if ShouldStrip(p, x, stack[..np]) { continue; }
      if Escaped(x) || np >= 8 { return np, false; }
      ghost var got := stack[..np];
      stack[np] := x;
      np := np + 1;
      assert stack[..np] == got + [x];
    }
  }

  /** What both fast paths do with the pairs they collected. */
  method WriteSorted(buf: array<char>, n: nat, pairs: array<Pair>, np: nat, ghost s: string) returns (m: nat)
    requires Holds(buf, n, s) && np <= pairs.Length
    modifies buf, pairs
    ensures Holds(buf, m, s + Written(Sort(old(pairs[..np]), PairLeq)))
  {
    PairLeqTotalOrder();
    InsertionSort(pairs, np, PairLeq);
    m := WritePairs(buf, n, pairs, np, s);
  }

  /** `appendCanonicalQueryString` with a policy. */
  method AppendUnder(u: Url, p: Policy, buf: array<char>, n: nat, raw: string, ghost s: string) returns (m: nat)
    requires Holds(buf, n, s)
    modifies buf
    ensures Holds(buf, m, s + Canonical(u, p, raw))
  {
    var stack := new Pair[8](_ => Pair("", ""));
    var np, simple := CollectPairs(p, raw, stack);
    if simple {
      m := WriteSorted(buf, n, stack, np, s);
    } else {
      m := AppendSlow(u, p, buf, n, raw, s);
    }
  }

  /** The parsing loop without a policy: no pair is stripped. */
  method CollectAll(raw: string, stack: array<Pair>) returns (np: nat, simple: bool)
    requires stack.Length == 8
    modifies stack
    ensures np <= 8 && Collect(Open, Segments(raw), []) == if simple then Some(stack[..np]) else None
  {
    np, simple := 0, true;
    var s := raw;
    while s != ""
      invariant np <= 8 && Collect(Open, Segments(s), stack[..np]) == Collect(Open, Segments(raw), [])
      decreases |s|
    {
      ghost var segs := Segments(s);
      var seg;
      seg, s := NextPiece(s, '&');
      assert segs[0] == seg && segs[1..] == Segments(s);
      var x := Cut(seg);
      OpenKeeps(x, stack[..np]);
      if Escaped(x) || np >= 8 { return np, false; }
      ghost var got := stack[..np];
      stack[np] := x;
      np := np + 1;
      assert stack[..np] == got + [x];
    }
  }

  lemma OpenKeeps(x: Pair, seen: seq<Pair>)
    ensures !ShouldStrip(Open, x, seen)
  {}

  /** `appendCanonicalQueryStringNoPolicy`. */
  method AppendNoPolicy(u: Url, buf: array<char>, n: nat, raw: string, ghost s: string) returns (m: nat)
    requires Holds(buf, n, s)
    modifies buf
    ensures Holds(buf, m, s + Canonical(u, Open, raw))
  {
    var stack := new Pair[8](_ => Pair("", ""));
    var np, simple := CollectAll(raw, stack);
    if simple {
      m := WriteSorted(buf, n, stack, np, s);
    } else {
      m := AppendSlowNoPolicy(u, buf, n, raw, s);
    }
  }

  /** `appendCanonicalQuerySlowStringNoPolicy`: every name, every value, sorted. */
  method AppendSlowNoPolicy(u: Url, buf: array<char>, n: nat, raw: string, ghost s: string) returns (m: nat)
    requires Holds(buf, n, s)
    modifies buf
    ensures var pairs := Decoded(u, Segments(raw));
            Holds(buf, m, s + Written(SlowPairs(u, Open, pairs, SlowNames(Open, pairs))))
  {
    ghost var pairs := Decoded(u, Segments(raw));
    var params := ParseQuery(u, raw);
    var keys := AllKeys(params, pairs);
    m := n;
    var first := true;
    assert s + Written([]) == s;
    for i := 0 to |keys|
      invariant Holds(buf, m, s + Written(SlowPairs(u, Open, pairs, keys[..i])))
      invariant first <==> SlowPairs(u, Open, pairs, keys[..i]) == []
    {
      var vals := Sort(params[keys[i]], Leq);
      SlowPairsMore(u, Open, pairs, keys, i);
      m, first := WriteValues(u, buf, m, keys[i], vals, SlowPairs(u, Open, pairs, keys[..i]), s, first);
    }
    assert keys[..|keys|] == keys;
  }

  /** All the names, in any order, then sorted. */
  method AllKeys(params: map<string, seq<string>>, ghost pairs: seq<Pair>) returns (keys: seq<string>)
    requires Groups(params, pairs)
    ensures keys == SlowNames(Open, pairs) && forall k | k in keys :: k in params
  {
    keys := [];
    var todo := params.Keys;
    while todo != {}
      invariant todo <= params.Keys && NoRepeats(keys)
      invariant forall k :: k in keys <==> k in params && k !in todo
      decreases |todo|
    {
      var k :| k in todo;
      todo := todo - {k};
      keys := keys + [k];
    }
    SameNames(Open, pairs, keys);
    forall k | k in SlowNames(Open, pairs) ensures k in params { SlowNamesKnown(Open, pairs, k); }
    keys := Sort(keys, Leq);
  }

  /** No policy at all, or what to keep of the query and whether to leave the host out. */
  datatype KeyPolicy = NoPolicy | KeyPolicy(query: Policy, excludeHost: bool)

  function QueryPolicy(kp: KeyPolicy): Policy {
    if kp.NoPolicy? then Open else kp.query
  }

  /** `appendCanonicalQueryString`. */
  method AppendQuery(u: Url, kp: KeyPolicy, buf: array<char>, n: nat, raw: string, ghost s: string) returns (m: nat)
    requires Holds(buf, n, s)
    modifies buf
    ensures Holds(buf, m, s + Canonical(u, QueryPolicy(kp), raw))
  {
    if raw == "" {
      EmptyQuery(u, QueryPolicy(kp), s);
      return n;
    }
    if kp.NoPolicy? {
      m := AppendNoPolicy(u, buf, n, raw, s);
    } else {
      m := AppendUnder(u, kp.query, buf, n, raw, s);
    }
  }

  lemma EmptyQuery(u: Url, p: Policy, s: string)
    ensures s + Canonical(u, p, "") == s
  {}

  /** `url.ParseQuery`: the values of every name, in order. */
  method ParseQuery(u: Url, raw: string) returns (params: map<string, seq<string>>)
    ensures var pairs := Decoded(u, Segments(raw));
            && (forall k :: k in params <==> k in Names(pairs))
            && (forall k | k in params :: params[k] == Values(pairs, k))
  {
    params := map[];
    var s := raw;
    ghost var done: seq<string> := [];
    while s != ""
      invariant done + Segments(s) == Segments(raw)
      invariant Groups(params, Decoded(u, done))
      decreases |s|
    {
      ghost var segs := Segments(s);
      var seg;
      seg, s := NextPiece(s, '&');
      assert done + segs == done + [seg] + Segments(s);
      DecodedMore(u, done, seg);
      var parsed := ParseSegment(u, seg);
      if parsed.Some? {
        var x := parsed.value;
        GroupsMore(params, Decoded(u, done), x);
        params := params[x.k := (if x.k in params then params[x.k] else []) + [x.v]];
      }
      done := done + [seg];
    }
    assert done + [] == done;
  }

  ghost predicate Groups(params: map<string, seq<string>>, pairs: seq<Pair>) {
    && (forall k :: k in params <==> k in Names(pairs))
    && (forall k | k in params :: params[k] == Values(pairs, k))
  }

  lemma DecodedMore(u: Url, done: seq<string>, seg: string)
    ensures Decoded(u, done + [seg]) == Decoded(u, done) + Listed(ParseSegment(u, seg))
    ensures ParseSegment(u, seg).None? ==> Decoded(u, done + [seg]) == Decoded(u, done)
  {
    assert (done + [seg])[..|done|] == done;
  }

  lemma GroupsMore(params: map<string, seq<string>>, pairs: seq<Pair>, x: Pair)
    requires Groups(params, pairs)
    ensures Groups(params[x.k := (if x.k in params then params[x.k] else []) + [x.v]], pairs + [x])
  {
    var all := pairs + [x];
    assert all[..|all| - 1] == pairs;
    if x.k !in params { NoValues(pairs, x.k); }
  }

  lemma {:induction false} NoValues(pairs: seq<Pair>, k: string)
    requires k !in Names(pairs)
    ensures Values(pairs, k) == []
  {
    if pairs != [] { NoValues(pairs[..|pairs| - 1], k); }
  }

  /** The names that survive the policy, in any order, then sorted. */
  method SlowKeys(p: Policy, params: map<string, seq<string>>, ghost pairs: seq<Pair>) returns (keys: seq<string>)
    requires Groups(params, pairs)
    ensures keys == SlowNames(p, pairs)
  {
    keys := [];
    var todo := params.Keys;
    while todo != {}
      invariant todo <= params.Keys
      invariant NoRepeats(keys)
      invariant forall k :: k in keys <==> k in params && k !in todo && !SlowSkips(p, pairs, k)
      decreases |todo|
    {
      var k :| k in todo;
      todo := todo - {k};
      if NameStripped(p, k) || (p.stripEmpty && p.keep.None? && AllEmpty(params[k])) { continue; }
      keys := keys + [k];
    }
    SameNames(p, pairs, keys);
    keys := Sort(keys, Leq);
  }

  lemma SameNames(p: Policy, pairs: seq<Pair>, keys: seq<string>)
    requires NoRepeats(keys)
    requires forall k :: k in keys <==> k in Names(pairs) && !SlowSkips(p, pairs, k)
    ensures Sort(keys, Leq) == SlowNames(p, pairs)
  {
    var f := k => if SlowSkips(p, pairs, k) then None else Some(k);
    var names := FilterMap(f, Names(pairs));
    NamesAre(pairs);
    FilterKeeps(f, Names(pairs));
    SameBag(keys, names);
    LeqTotalOrder();
    SortPermutation(keys, names, Leq);
  }

  lemma {:induction false} FilterKeeps(f: string -> Option<string>, names: seq<string>)
    requires forall k :: f(k).Some? ==> f(k).value == k
    requires NoRepeats(names)
    ensures forall k :: k in FilterMap(f, names) <==> k in names && f(k).Some?
    ensures NoRepeats(FilterMap(f, names))
  {
    if names != [] {
      var most, k := names[..|names| - 1], names[|names| - 1];
      FilterKeeps(f, most);
      assert names == most + [k];
      var r := FilterMap(f, most);
      assert k !in most && forall i | 0 <= i < |r| :: r[i] in r && r[i] in most;
    }
  }

  /** The values of one name: sorted or only the first, and without the empty ones. */
  method PickValues(p: Policy, all: seq<string>) returns (vals: seq<string>)
    requires all != []
    ensures vals == SlowValues(p, all)
  {
    vals := if p.dedup then all[..1] else Sort(all, Leq);
    if p.stripEmpty && p.keep.None? { vals := WithoutEmpty(vals); }
  }

  method WithoutEmpty(vals: seq<string>) returns (filtered: seq<string>)
    ensures filtered == DropEmpty(vals)
  {
    filtered := [];
    for i := 0 to |vals|
      invariant filtered == DropEmpty(vals[..i])
    {
      assert vals[..i + 1][..i] == vals[..i];
      if vals[i] != "" { filtered := filtered + [vals[i]]; }
    }
    assert vals[..|vals|] == vals;
  }

  /** `appendCanonicalQuerySlowString`. */
  method AppendSlow(u: Url, p: Policy, buf: array<char>, n: nat, raw: string, ghost s: string) returns (m: nat)
    requires Holds(buf, n, s)
    modifies buf
    ensures var pairs := Decoded(u, Segments(raw));
            Holds(buf, m, s + Written(SlowPairs(u, p, pairs, SlowNames(p, pairs))))
  {
    ghost var pairs := Decoded(u, Segments(raw));
    var params := ParseQuery(u, raw);
    var keys := SlowKeys(p, params, pairs);
    forall k | k in keys ensures k in Names(pairs) && Values(pairs, k) != [] { SlowNamesKnown(p, pairs, k); }
    m := AppendNames(u, p, buf, n, params, keys, pairs, s);
  }

  /** The writing loops of the slow path. */
  method AppendNames(u: Url, p: Policy, buf: array<char>, n: nat, params: map<string, seq<string>>, keys: seq<string>,
                     ghost pairs: seq<Pair>, ghost s: string) returns (m: nat)
    requires Holds(buf, n, s)
    requires forall k | k in keys :: k in params && params[k] == Values(pairs, k) && params[k] != []
    modifies buf
    ensures Holds(buf, m, s + Written(SlowPairs(u, p, pairs, keys)))
  {
    m := n;
    var first := true;
    assert s + Written([]) == s;
    for i := 0 to |keys|
      invariant Holds(buf, m, s + Written(SlowPairs(u, p, pairs, keys[..i])))
      invariant first <==> SlowPairs(u, p, pairs, keys[..i]) == []
    {
      var vals := PickValues(p, params[keys[i]]);
      SlowPairsMore(u, p, pairs, keys, i);
      m, first := WriteValues(u, buf, m, keys[i], vals, SlowPairs(u, p, pairs, keys[..i]), s, first);
    }
    assert keys[..|keys|] == keys;
  }

  lemma SlowPairsMore(u: Url, p: Policy, pairs: seq<Pair>, names: seq<string>, i: nat)
    requires i < |names|
    ensures SlowPairs(u, p, pairs, names[..i + 1])
            == SlowPairs(u, p, pairs, names[..i]) + WithValues(u, names[i], SlowValues(p, Values(pairs, names[i])))
  {
    assert names[..i + 1][..i] == names[..i];
  }

  lemma SlowNamesKnown(p: Policy, pairs: seq<Pair>, k: string)
    requires k in SlowNames(p, pairs)
    ensures k in Names(pairs) && Values(pairs, k) != []
  {
    var f := k => if SlowSkips(p, pairs, k) then None else Some(k);
    NamesAre(pairs);
    FilterKeeps(f, Names(pairs));
    SameMembers(FilterMap(f, Names(pairs)), SlowNames(p, pairs), k);
    SomeValue(pairs, k);
  }

  lemma {:induction false} SomeValue(pairs: seq<Pair>, k: string)
    requires k in Names(pairs)
    ensures Values(pairs, k) != []
  {
    if pairs[|pairs| - 1].k != k { SomeValue(pairs[..|pairs| - 1], k); }
  }

  method WriteValues(u: Url, buf: array<char>, n: nat, k: string, vals: seq<string>,
                     ghost pairs: seq<Pair>, ghost s: string, first: bool) returns (m: nat, still: bool)
    requires Holds(buf, n, s + Written(pairs)) && (first <==> pairs == [])
    modifies buf
    ensures Holds(buf, m, s + Written(pairs + WithValues(u, k, vals)))
    ensures still <==> pairs + WithValues(u, k, vals) == []
  {
    m, still := n, first;
    assert pairs + [] == pairs;
    for i := 0 to |vals|
      invariant Holds(buf, m, s + Written(pairs + WithValues(u, k, vals[..i])))
      invariant still <==> pairs + WithValues(u, k, vals[..i]) == []
    {
      var x := Pair(u.escape(k), u.escape(vals[i]));
      assert vals[..i + 1][..i] == vals[..i];
      assert pairs + WithValues(u, k, vals[..i + 1]) == pairs + WithValues(u, k, vals[..i]) + [x];
      m := WritePair(buf, m, x, pairs + WithValues(u, k, vals[..i]), s, still);
      still := false;
    }
    assert vals[..|vals|] == vals;
  }

  // ---- The whole key ----

  /** `includeHostKey`. */
  predicate IncludesHost(kp: KeyPolicy) {
    kp.NoPolicy? || !kp.excludeHost
  }

  function CanonicalMethod(verb: string): string {
    if verb == "HEAD" then "GET" else verb
  }

  /** What is hashed, with the host part given. */
  function KeyWith(u: Url, kp: KeyPolicy, scheme: string, hostPart: string, path: string, query: string,
          verb: string): string {
    scheme + "|" + hostPart + "|" + CanonicalPath(path) + "|" + Canonical(u, QueryPolicy(kp), query) + "|"
    + CanonicalMethod(verb)
  }

  function CanonicalKey(u: Url, kp: KeyPolicy, scheme: string, host: string, path: string, query: string,
          verb: string): string {
    KeyWith(u, kp, scheme, if IncludesHost(kp) then CanonicalHost(host) else "", path, query, verb)
  }

  function HostPart(kp: KeyPolicy, fits: bool, host: string): string {
    if !IncludesHost(kp) then "" else if fits then CanonicalHost(host) else Lower(host)
  }

  /** The host segment behind the scheme. */
  method FillHost(kp: KeyPolicy, buf: array<char>, start: nat, host: string, ghost s: string) returns (n: nat)
    requires Holds(buf, start, s) && s != "" && s[|s| - 1] == '|'
    modifies buf
    ensures Holds(buf, n, s + HostPart(kp, |s| + |host| <= buf.Length, host))
  {
    n := start;
    assert s + "" == s;
    if IncludesHost(kp) { n := AppendHost(buf, n, host, s); }
  }

  /** Path, query and method. */
  method FillTail(u: Url, kp: KeyPolicy, buf: array<char>, start: nat, path: string, query: string, verb: string,
          ghost s: string)
      returns (n: nat)
    requires Holds(buf, start, s)
    modifies buf
    ensures var query' := Canonical(u, QueryPolicy(kp), query);
            Holds(buf, n, s + "|" + CanonicalPath(path) + "|" + query' + "|" + CanonicalMethod(verb))
  {
    n := AppendByte(buf, start, '|', s);
    ghost var t := s + "|";
    n := AppendPath(buf, n, path, t);
    t := t + CanonicalPath(path);
    n := AppendByte(buf, n, '|', t);
    t := t + "|";
    n := AppendQuery(u, kp, buf, n, query, t);
    t := t + Canonical(u, QueryPolicy(kp), query);
    n := AppendByte(buf, n, '|', t);
    t := t + "|";
    var k := CopyOverflow(buf, n, CanonicalMethod(verb), t);
    n := n + k;
  }

  function Scheme(tls: bool): string {
    if tls then "https" else "http"
  }

  lemma SchemeBar(tls: bool)
    ensures (if tls then "https|" else "http|") == Scheme(tls) + "|"
    ensures "" + (Scheme(tls) + "|") == Scheme(tls) + "|"
  {}

  /** What one pass leaves in a buffer of this size. */
  function PassResult(u: Url, kp: KeyPolicy, size: nat, scheme: string, host: string, path: string,
          query: string, verb: string): string {
    KeyWith(u, kp, scheme, HostPart(kp, |scheme| + 1 + |host| <= size, host), path, query, verb)
  }

  /** Behind the host there are at least four more bytes, as many as a default port has: a
      pass over a buffer of the canonical size or more always sees the port, and a pass that
      did not see it has counted past its buffer. */
  lemma PassIsCanonical(u: Url, kp: KeyPolicy, size: nat, scheme: string, host: string, path: string,
          query: string, verb: string)
    ensures var key := CanonicalKey(u, kp, scheme, host, path, query, verb);
            var got := PassResult(u, kp, size, scheme, host, path, query, verb);
            && |key| <= |got|
            && (|key| <= size || |got| <= size ==> got == key)
  {
    CollapseIsClean(if path == "" then "/" else path);
  }

  // ---- The three builders ----

  datatype RequestInfo = RequestInfo(verb: string, uri: string, host: string, path: string, tls: bool)

  function RawQuery(uri: string): string {
    var i := IndexOf(uri, '?');
    if i == |uri| then "" else uri[i + 1..]
  }

  method PassInfo(u: Url, kp: KeyPolicy, buf: array<char>, ri: RequestInfo) returns (n: nat)
    modifies buf
    ensures Holds(buf, n, PassResult(u, kp, buf.Length, Scheme(ri.tls), ri.host, ri.path, RawQuery(ri.uri), ri.verb))
  {
    SchemeBar(ri.tls);
    n := CopyOverflow(buf, 0, if ri.tls then "https|" else "http|", "");
    ghost var s := Scheme(ri.tls) + "|";
    n := FillHost(kp, buf, n, ri.host, s);
    n := FillTail(u, kp, buf, n, ri.path, RawQuery(ri.uri), ri.verb,
                  s + HostPart(kp, |s| + |ri.host| <= buf.Length, ri.host));
  }

  /** `BuildKey` and `buildKeyHeap`. */
  method BuildKey(u: Url, kp: KeyPolicy, ri: RequestInfo) returns (key: string)
    ensures key == CanonicalKey(u, kp, Scheme(ri.tls), ri.host, ri.path, RawQuery(ri.uri), ri.verb)
  {
    var buf := new char[StackSize](_ => 0 as char);
    var n := PassInfo(u, kp, buf, ri);
    PassIsCanonical(u, kp, StackSize, Scheme(ri.tls), ri.host, ri.path, RawQuery(ri.uri), ri.verb);
    if n > StackSize {
      PassIsCanonical(u, kp, n, Scheme(ri.tls), ri.host, ri.path, RawQuery(ri.uri), ri.verb);
      buf := new char[n](_ => 0 as char);
      n := PassInfo(u, kp, buf, ri);
    }
    return buf[..n];
  }

  /** The byte-slice pass skips an empty query. */
  method PassFast(u: Url, kp: KeyPolicy, buf: array<char>, verb: string, query: string, host: string,
          path: string, tls: bool)
      returns (n: nat)
    modifies buf
    ensures Holds(buf, n, PassResult(u, kp, buf.Length, Scheme(tls), host, path, query, verb))
  {
    SchemeBar(tls);
    n := CopyOverflow(buf, 0, if tls then "https|" else "http|", "");
    ghost var s := Scheme(tls) + "|";
    n := FillHost(kp, buf, n, host, s);
    s := s + HostPart(kp, |s| + |host| <= buf.Length, host);
    n := AppendByte(buf, n, '|', s);
    s := s + "|";
    n := AppendPath(buf, n, path, s);
    s := s + CanonicalPath(path);
    n := AppendByte(buf, n, '|', s);
    s := s + "|";
    EmptyQuery(u, QueryPolicy(kp), s);
    if query != "" { n := AppendQuery(u, kp, buf, n, query, s); }
    s := s + Canonical(u, QueryPolicy(kp), query);
    n := AppendByte(buf, n, '|', s);
    s := s + "|";
    var k := CopyOverflow(buf, n, CanonicalMethod(verb), s);
    n := n + k;
  }

  /** `BuildKeyFast`. */
  method BuildKeyFast(u: Url, kp: KeyPolicy, verb: string, uri: string, host: string, path: string, tls: bool)
    returns (key: string)
    ensures key == CanonicalKey(u, kp, Scheme(tls), host, path, RawQuery(uri), verb)
  {
    var query := RawQuery(uri);
    var buf := new char[StackSize](_ => 0 as char);
    var n := PassFast(u, kp, buf, verb, query, host, path, tls);
    PassIsCanonical(u, kp, StackSize, Scheme(tls), host, path, query, verb);
    if n > StackSize {
      PassIsCanonical(u, kp, n, Scheme(tls), host, path, query, verb);
      buf := new char[n](_ => 0 as char);
      n := PassFast(u, kp, buf, verb, query, host, path, tls);
    }
    return buf[..n];
  }

  datatype RawRequest = RawRequest(scheme: string, host: string, path: string, query: string, verb: string)

  function SchemeOf(req: RawRequest): string {
    if req.scheme == "" then "http" else req.scheme
  }

  method PassRaw(u: Url, kp: KeyPolicy, buf: array<char>, req: RawRequest) returns (n: nat)
    modifies buf
    ensures Holds(buf, n, PassResult(u, kp, buf.Length, SchemeOf(req), req.host, req.path, req.query, req.verb))
  {
    n := CopyOverflow(buf, 0, SchemeOf(req), "");
    assert "" + SchemeOf(req) == SchemeOf(req);
    n := AppendByte(buf, n, '|', SchemeOf(req));
    ghost var s := SchemeOf(req) + "|";
    n := FillHost(kp, buf, n, req.host, s);
    n := FillTail(u, kp, buf, n, req.path, req.query, req.verb,
                  s + HostPart(kp, |s| + |req.host| <= buf.Length, req.host));
  }

  /** `buildKeyFromRaw`. */
  method BuildKeyFromRaw(u: Url, kp: KeyPolicy, req: RawRequest) returns (key: string)
    ensures key == CanonicalKey(u, kp, SchemeOf(req), req.host, req.path, req.query, req.verb)
  {
    var buf := new char[StackSize](_ => 0 as char);
    var n := PassRaw(u, kp, buf, req);
    PassIsCanonical(u, kp, StackSize, SchemeOf(req), req.host, req.path, req.query, req.verb);
    if n > StackSize {
      PassIsCanonical(u, kp, n, SchemeOf(req), req.host, req.path, req.query, req.verb);
      buf := new char[n](_ => 0 as char);
      n := PassRaw(u, kp, buf, req);
    }
    return buf[..n];
  }
}
