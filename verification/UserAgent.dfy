/** The User-Agent bypass matcher: a greedy, segment-wise glob match proved
    equivalent to the textbook meaning of the pattern. */
module UserAgent {
  import opened Text

  // ---- What a pattern means ----

  /** The meaning of a pattern: `*` stands for any run of bytes, every other byte for itself. */
  ghost predicate Wild(p: string, u: string)
    decreases |p| + |u|
  {
    if p == [] then u == []
    else if p[0] == '*' then Wild(p[1..], u) || (u != [] && Wild(p, u[1..]))
    else u != [] && u[0] == p[0] && Wild(p[1..], u[1..])
  }

  predicate StartsAt(u: string, i: nat, seg: string) {
    i + |seg| <= |u| && u[i..i + |seg|] == seg
  }

  /** `u` is w1 segs[0] w2 segs[1] ... wn segs[n-1] for some runs w. */
  ghost predicate Gapped(segs: seq<string>, u: string)
    decreases |segs|
  {
    if segs == [] then u == []
    else exists i: nat :: StartsAt(u, i, segs[0]) && Gapped(segs[1..], u[i + |segs[0]|..])
  }

  /** `u` is segs[0] w1 segs[1] ... wn segs[n]. */
  ghost predicate Splits(segs: seq<string>, u: string)
    requires segs != []
  {
    StartsAt(u, 0, segs[0]) && Gapped(segs[1..], u[|segs[0]|..])
  }

  /** The middle segments occur in `u` in order without overlap. */
  ghost predicate Within(mids: seq<string>, u: string)
    decreases |mids|
  {
    mids == [] || exists i: nat :: StartsAt(u, i, mids[0]) && Within(mids[1..], u[i + |mids[0]|..])
  }

  // ---- Why the greedy choice is enough ----

  /** Dropping a prefix can only lose occurrences. */
  lemma {:induction false} WithinLonger(mids: seq<string>, u: string, k: nat)
    requires k <= |u| && Within(mids, u[k..])
    ensures Within(mids, u)
  {
    if mids != [] {
      var i: nat :| StartsAt(u[k..], i, mids[0]) && Within(mids[1..], u[k..][i + |mids[0]|..]);
      assert u[k..][i..i + |mids[0]|] == u[k + i..k + i + |mids[0]|];
      assert u[k..][i + |mids[0]|..] == u[k + i + |mids[0]|..];
      assert StartsAt(u, k + i, mids[0]);
    }
  }

  /** Taking the leftmost occurrence never loses a match. */
  lemma LeftmostIsBest(mids: seq<string>, u: string, first: nat)
    requires mids != [] && StartsAt(u, first, mids[0])
    requires forall i: nat | i < first :: !StartsAt(u, i, mids[0])
    ensures Within(mids, u) <==> Within(mids[1..], u[first + |mids[0]|..])
  {
    if Within(mids, u) {
      var i: nat :| StartsAt(u, i, mids[0]) && Within(mids[1..], u[i + |mids[0]|..]);
      assert first <= i;
      var rest := u[first + |mids[0]|..];
      assert rest[i - first..] == u[i + |mids[0]|..];
      WithinLonger(mids[1..], rest, i - first);
    }
  }

  /** Pinning the last segment to the end leaves the middle ones free. */
  ghost predicate EndsWith(mids: seq<string>, last: string, u: string) {
    |last| <= |u| && u[|u| - |last|..] == last && Within(mids, u[..|u| - |last|])
  }

  lemma {:induction false} GappedLast(mids: seq<string>, last: string, u: string)
    ensures Gapped(mids + [last], u) <==> EndsWith(mids, last, u)
    decreases |mids|, 2
  {
    var segs := mids + [last];
    if mids == [] {
      assert segs[1..] == [];
      if EndsWith(mids, last, u) {
        assert StartsAt(u, |u| - |last|, segs[0]);
      }
    } else {
      assert segs[1..] == mids[1..] + [last] && segs[0] == mids[0];
      if Gapped(segs, u) {
        var i: nat :| StartsAt(u, i, segs[0]) && Gapped(segs[1..], u[i + |segs[0]|..]);
        GappedStep(mids, last, u, i);
      }
      if EndsWith(mids, last, u) { EndsGapped(mids, last, u); }
    }
  }

  lemma EndsGapped(mids: seq<string>, last: string, u: string)
    requires mids != [] && EndsWith(mids, last, u)
    ensures exists i: nat :: StartsAt(u, i, mids[0]) && Gapped(mids[1..] + [last], u[i + |mids[0]|..])
    decreases |mids|, 1
  {
    var body := u[..|u| - |last|];
    var i: nat :| StartsAt(body, i, mids[0]) && Within(mids[1..], body[i + |mids[0]|..]);
    assert body[i..i + |mids[0]|] == u[i..i + |mids[0]|];
    assert StartsAt(u, i, mids[0]);
    GappedStep(mids, last, u, i);
    assert Gapped(mids[1..] + [last], u[i + |mids[0]|..]);
  }

  lemma GappedStep(mids: seq<string>, last: string, u: string, i: nat)
    requires mids != [] && StartsAt(u, i, mids[0])
    ensures Gapped(mids[1..] + [last], u[i + |mids[0]|..])
        <==> && i + |mids[0]| + |last| <= |u| && u[|u| - |last|..] == last
             && StartsAt(u[..|u| - |last|], i, mids[0])
             && Within(mids[1..], u[..|u| - |last|][i + |mids[0]|..])
    decreases |mids|, 0
  {
    var v := u[i + |mids[0]|..];
    GappedLast(mids[1..], last, v);
    if |last| <= |v| {
      var body := u[..|u| - |last|];
      assert v[|v| - |last|..] == u[|u| - |last|..];
      assert v[..|v| - |last|] == body[i + |mids[0]|..];
      assert body[i..i + |mids[0]|] == u[i..i + |mids[0]|];
    }
  }

  // ---- Patterns and their segments ----

  lemma {:induction false} WildPrefix(p: string, rest: string, u: string)
    requires '*' !in p
    ensures Wild(p + rest, u) <==> StartsAt(u, 0, p) && Wild(rest, u[|p|..])
    decreases |p|
  {
    if p == [] {
      assert p + rest == rest;
    } else {
      assert (p + rest)[0] == p[0];
      assert (p + rest)[1..] == p[1..] + rest;
      assert p[0] in p && forall c | c in p[1..] :: c in p;
      if u != [] {
        WildPrefix(p[1..], rest, u[1..]);
        StartsStep(p, u);
        assert |p| <= |u| ==> u[1..][|p[1..]|..] == u[|p|..];
      }
    }
  }

  lemma StartsStep(p: string, u: string)
    requires p != [] && u != []
    ensures StartsAt(u, 0, p) <==> u[0] == p[0] && StartsAt(u[1..], 0, p[1..])
  {
    if |p| <= |u| {
      assert u[0..|p|] == [u[0]] + u[1..][0..|p| - 1];
      assert p == [p[0]] + p[1..];
    }
  }

  ghost predicate Anywhere(rest: string, u: string) {
    exists i: nat :: i <= |u| && Wild(rest, u[i..])
  }

  /** A leading star lets the rest of the pattern start anywhere. */
  lemma {:induction false} WildStar(rest: string, u: string)
    ensures Wild("*" + rest, u) <==> Anywhere(rest, u)
    decreases |u|
  {
    var p := "*" + rest;
    assert p[1..] == rest && p[0] == '*';
    assert u[0..] == u;
    if u != [] {
      WildStar(rest, u[1..]);
      forall i: nat | i <= |u[1..]| ensures u[1..][i..] == u[i + 1..] {}
      forall i: nat | 0 < i <= |u| ensures u[i..] == u[1..][i - 1..] {}
    }
  }

  /** Splitting at the stars keeps the meaning of the pattern. */
  lemma {:induction false} SplitMeaning(p: string, u: string)
    ensures Wild(p, u) <==> Splits(Split(p, '*'), u)
    decreases |p|, 0
  {
    var i := IndexOf(p, '*');
    if i == |p| {
      assert '*' !in p;
      assert p + [] == p;
      WildPrefix(p, [], u);
      assert Split(p, '*') == [p];
    } else {
      var head, rest := p[..i], p[i + 1..];
      assert '*' !in head && p == head + ("*" + rest);
      WildPrefix(head, "*" + rest, u);
      var segs := Split(rest, '*');
      assert Split(p, '*') == [head] + segs && ([head] + segs)[1..] == segs;
      if StartsAt(u, 0, head) {
        WildStar(rest, u[|head|..]);
        GapMeaning(rest, u[|head|..]);
      }
    }
  }

  lemma {:induction false} GapMeaning(rest: string, v: string)
    ensures Anywhere(rest, v) <==> Gapped(Split(rest, '*'), v)
    decreases |rest|, 3
  {
    if Anywhere(rest, v) {
      var i: nat :| i <= |v| && Wild(rest, v[i..]);
      GapAt(rest, v, i);
    }
    if Gapped(Split(rest, '*'), v) { GapStart(rest, v); }
  }

  lemma {:induction false} GapStart(rest: string, v: string)
    requires Gapped(Split(rest, '*'), v)
    ensures Anywhere(rest, v)
    decreases |rest|, 2
  {
    var segs := Split(rest, '*');
    var i: nat :| StartsAt(v, i, segs[0]) && Gapped(segs[1..], v[i + |segs[0]|..]);
    GapAt(rest, v, i);
  }

  lemma {:induction false} GapAt(rest: string, v: string, i: nat)
    requires i <= |v|
    ensures var segs := Split(rest, '*');
            Wild(rest, v[i..]) <==> StartsAt(v, i, segs[0]) && Gapped(segs[1..], v[i + |segs[0]|..])
    decreases |rest|, 1
  {
    var segs := Split(rest, '*');
    SplitMeaning(rest, v[i..]);
    if i + |segs[0]| <= |v| {
      assert v[i..][0..|segs[0]|] == v[i..i + |segs[0]|];
      assert v[i..][|segs[0]|..] == v[i + |segs[0]|..];
    }
  }

  // ---- The code ----

  /** `asciiEqualFold`. */
  method AsciiEqualFold(a: string, b: string) returns (eq: bool)
    ensures eq <==> Lower(a) == b
  {
    if |a| != |b| { return false; }
    for i := 0 to |b|
      invariant forall j | 0 <= j < i :: FoldChar(a[j]) == b[j]
    {
      if FoldChar(a[i]) != b[i] {
        assert Lower(a)[i] != b[i];
        return false;
      }
    }
    return true;
  }

  /** `asciiIndex`: the first occurrence of `sub` in the folded `s`, or -1. */
  method AsciiIndex(s: string, sub: string) returns (idx: int)
    ensures idx < 0 ==> forall i: nat :: !StartsAt(Lower(s), i, sub)
    ensures idx >= 0 ==> StartsAt(Lower(s), idx, sub) && forall i: nat | i < idx :: !StartsAt(Lower(s), i, sub)
  {
    var i := 0;
    while i + |sub| <= |s|
      invariant 0 <= i <= |s| + 1
      invariant forall k: nat | k < i :: !StartsAt(Lower(s), k, sub)
    {
      var j := 0;
      while j < |sub| && FoldChar(s[i + j]) == sub[j]
        invariant 0 <= j <= |sub|
        invariant forall k | 0 <= k < j :: FoldChar(s[i + k]) == sub[k]
      {
        j := j + 1;
      }
      if j == |sub| {
        assert Lower(s)[i..i + |sub|] == sub;
        return i;
      }
      assert Lower(s)[i..i + |sub|][j] != sub[j];
      i := i + 1;
    }
    return -1;
  }

  /** `uaGlobMatch`: prefix, suffix, then the middle segments leftmost first. */
  method UaGlobMatch(segs: seq<string>, ua: string) returns (ok: bool)
    requires segs != []
    ensures ok <==> Splits(segs, Lower(ua))
  {
    var n := |segs|;
    ghost var u := Lower(ua);
    if n == 1 {
      ok := AsciiEqualFold(ua, segs[0]);
      assert StartsAt(u, 0, segs[0]) && u[|segs[0]|..] == [] ==> u == segs[0];
      assert u == segs[0] ==> u[0..|segs[0]|] == u;
      return;
    }
    var first, last := segs[0], segs[n - 1];
    ghost var mids := segs[1..n - 1];
    assert segs[1..] == mids + [last];
    GlobEnds(segs, u);
    if |ua| < |first| + |last| { return false; }
    assert Lower(ua[..|first|]) == u[..|first|];
    assert Lower(ua[|ua| - |last|..]) == u[|u| - |last|..];
    var head := AsciiEqualFold(ua[..|first|], first);
    if !head { return false; }
    var tail := AsciiEqualFold(ua[|ua| - |last|..], last);
    if !tail { return false; }
    var rest := ua[|first|..|ua| - |last|];
    assert Lower(rest) == u[|first|..|u| - |last|];
    for k := 1 to n - 1
      invariant Splits(segs, u) <==> Within(segs[k..n - 1], Lower(rest))
    {
      var seg := segs[k];
      assert segs[k..n - 1][0] == seg && segs[k..n - 1][1..] == segs[k + 1..n - 1];
      var idx := AsciiIndex(rest, seg);
      if idx < 0 { return false; }
      LeftmostIsBest(segs[k..n - 1], Lower(rest), idx);
      assert Lower(rest[idx + |seg|..]) == Lower(rest)[idx + |seg|..];
      rest := rest[idx + |seg|..];
    }
    return true;
  }

  lemma GlobEnds(segs: seq<string>, u: string)
    requires |segs| >= 2
    ensures var first, last := segs[0], segs[|segs| - 1];
            Splits(segs, u) <==> && |first| + |last| <= |u| && u[..|first|] == first && u[|u| - |last|..] == last
                                 && Within(segs[1..|segs| - 1], u[|first|..|u| - |last|])
  {
    var n := |segs|;
    var first, last := segs[0], segs[n - 1];
    assert segs[1..] == segs[1..n - 1] + [last];
    if |first| <= |u| {
      var v := u[|first|..];
      GappedLast(segs[1..n - 1], last, v);
      assert u[0..|first|] == u[..|first|];
      if |last| <= |v| {
        assert v[|v| - |last|..] == u[|u| - |last|..];
        assert v[..|v| - |last|] == u[|first|..|u| - |last|];
      }
    }
  }

  /** A pattern survives compilation when it names at least one literal byte. */
  predicate Usable(pattern: string) {
    exists c | c in TrimSpace(pattern) :: c != '*'
  }

  /** The segments a compiled pattern holds. */
  function CompiledSegs(pattern: string): (segs: seq<string>)
    ensures segs != []
  {
    LowerAll(Split(TrimSpace(pattern), '*'))
  }

  /** `compileUABypass`: skips empty and star-only patterns. */
  method Compile(patterns: seq<string>) returns (globs: seq<seq<string>>)
    ensures forall g | g in globs :: exists p | p in patterns :: Usable(p) && g == CompiledSegs(p)
    ensures forall p | p in patterns && Usable(p) :: CompiledSegs(p) in globs
  {
    globs := [];
    for k := 0 to |patterns|
      invariant forall g | g in globs :: exists p | p in patterns :: Usable(p) && g == CompiledSegs(p)
      invariant forall p | p in patterns[..k] && Usable(p) :: CompiledSegs(p) in globs
    {
      var p := TrimSpace(patterns[k]);
      var segs := Split(p, '*');
      OnlyStars(p);
      assert patterns[..k + 1] == patterns[..k] + [patterns[k]];
      if p != "" && exists s | s in segs :: s != "" {
        assert patterns[k] in patterns && LowerAll(segs) == CompiledSegs(patterns[k]);
        globs := globs + [LowerAll(segs)];
      }
    }
  }

  /** All segments are empty exactly when the pattern holds nothing but stars. */
  lemma {:induction false} OnlyStars(p: string)
    ensures (exists s | s in Split(p, '*') :: s != "") <==> (exists c | c in p :: c != '*')
    decreases |p|
  {
    var i := IndexOf(p, '*');
    if i < |p| {
      OnlyStars(p[i + 1..]);
      var head, tail := p[..i], p[i + 1..];
      assert p == head + ['*'] + tail;
      assert Split(p, '*') == [head] + Split(tail, '*');
      if head != "" { assert head[0] in p && head[0] != '*'; assert head in Split(p, '*'); }
      if s :| s in Split(tail, '*') && s != "" {
        assert s in Split(p, '*');
        var c :| c in tail && c != '*';
        assert c in p;
      }
    } else {
      assert Split(p, '*') == [p];
      assert p in Split(p, '*');
      if p != "" { assert p[0] in p; }
    }
  }

  /** Compilation and matching together: a compiled pattern accepts exactly the
      strings its text describes, ignoring ASCII case on both sides. */
  lemma CompiledMeaning(pattern: string, ua: string)
    ensures Splits(CompiledSegs(pattern), Lower(ua)) <==> Wild(Lower(TrimSpace(pattern)), Lower(ua))
  {
    SplitLower(TrimSpace(pattern), '*');
    SplitMeaning(Lower(TrimSpace(pattern)), Lower(ua));
  }

  /** The pattern, read as text, covers the User-Agent. */
  ghost predicate Covers(pattern: string, ua: string) {
    Usable(pattern) && Wild(Lower(TrimSpace(pattern)), Lower(ua))
  }

  /** `matchBytes` / `matchString`. */
  method MatchAny(globs: seq<seq<string>>, ua: string) returns (hit: bool)
    requires [] !in globs
    ensures hit <==> exists g | g in globs :: g != [] && Splits(g, Lower(ua))
  {
    for k := 0 to |globs|
      invariant forall j | 0 <= j < k :: globs[j] in globs && !Splits(globs[j], Lower(ua))
    {
      assert globs[k] in globs;
      hit := UaGlobMatch(globs[k], ua);
      if hit { return; }
    }
    return false;
  }

  /** A route bypasses the cache exactly when some usable pattern covers the User-Agent. */
  method Bypasses(patterns: seq<string>, ua: string) returns (hit: bool)
    ensures hit <==> exists p | p in patterns :: Covers(p, ua)
  {
    var globs := Compile(patterns);
    hit := MatchAny(globs, ua);
    forall p ensures Splits(CompiledSegs(p), Lower(ua)) <==> Wild(Lower(TrimSpace(p)), Lower(ua)) {
      CompiledMeaning(p, ua);
    }
    if hit {
      ghost var g :| g in globs && g != [] && Splits(g, Lower(ua));
      ghost var p :| p in patterns && Usable(p) && g == CompiledSegs(p);
      assert Covers(p, ua);
    } else {
      forall p | p in patterns && Usable(p) ensures !Covers(p, ua) {
        assert CompiledSegs(p) in globs;
      }
    }
  }
}
