/** Variant keys: the bytes hashed for a Vary list and a request, the bounded forms that write
    them into stack buffers, and the Vary list a route policy declares by itself. */
module VaryKeys {
  import opened Ordering
  import opened Text
  import opened Query
  import opened KeyBuild

  const MaxFields := 16
  const BufSize := 256
  const PresenceField := "x-bouine-cookie-presence"
  const ValuesField := "x-bouine-cookie-values"

  /** What a request answers: one header value per name, and all its cookies joined. */
  datatype Source = Source(get: string -> string, cookies: string)

  /** The key policy of a route. `reduceHeader` and `reduceAssertion` are the two header value
      normalizations, `presence` and `values` the cookie reductions. */
  datatype VaryPolicy = VaryPolicy(
    exclude: set<string>, included: seq<string>, hasPresence: bool, hasValues: bool,
    reduceHeader: (string, string) -> string, reduceAssertion: (string, string) -> string,
    presence: string -> string, values: string -> string)

  /** The primary key itself, or the primary key mixed with the hash of `input`. */
  datatype VariantKey = Primary | Varied(input: string)

  // ---- The bytes hashed ----

  function Value(pol: VaryPolicy, reduce: (string, string) -> string, src: Source, f: string): string {
    if f == ValuesField && pol.hasValues then pol.values(src.cookies)
    else if f == PresenceField && pol.hasPresence then pol.presence(src.cookies)
    else reduce(f, src.get(f))
  }

  function Entry(f: string, val: string): string {
    f + "=" + val + ";"
  }

  function Input(pol: VaryPolicy, reduce: (string, string) -> string, src: Source, fields: seq<string>): string {
    if fields == [] then ""
    else
      var f := fields[|fields| - 1];
      Input(pol, reduce, src, fields[..|fields| - 1])
      + if f in pol.exclude then "" else Entry(f, Value(pol, reduce, src, f))
  }

  function Clean(f: string): string {
    Lower(TrimSpace(f))
  }

  function CleanAll(fs: seq<string>): (r: seq<string>)
    ensures |r| == |fs| && forall i | 0 <= i < |fs| :: r[i] == Clean(fs[i])
  {
    seq(|fs|, i requires 0 <= i < |fs| => Clean(fs[i]))
  }

  /** The trimmed lower-case names of a Vary value. */
  function FieldsOf(vary: string): seq<string> {
    CleanAll(Split(vary, ','))
  }

  predicate HasStar(vary: string) {
    exists f | f in Split(vary, ',') :: TrimSpace(f) == "*"
  }

  predicate AllExcluded(pol: VaryPolicy, fields: seq<string>) {
    forall f | f in fields :: f in pol.exclude
  }

  function KeyOf(pol: VaryPolicy, src: Source, fields: seq<string>): VariantKey {
    if AllExcluded(pol, fields) then Primary else Varied(Input(pol, pol.reduceHeader, src, fields))
  }

  /** The variant key of a request under a Vary value. */
  function Variant(pol: VaryPolicy, src: Source, vary: string): VariantKey {
    if vary == "" || HasStar(vary) then Primary else KeyOf(pol, src, Sort(FieldsOf(vary), Leq))
  }

  // ---- The allocating form ----

  lemma LowerThenTrim(vary: string)
    ensures TrimAll(Split(Lower(vary), ',')) == FieldsOf(vary)
  {
    SplitLower(vary, ',');
    var parts := Split(vary, ',');
    forall i | 0 <= i < |parts| ensures TrimSpace(Lower(parts[i])) == Clean(parts[i]) { TrimLower(parts[i]); }
  }

  lemma InputMore(pol: VaryPolicy, reduce: (string, string) -> string, src: Source, fields: seq<string>, i: nat)
    requires i < |fields|
    ensures Input(pol, reduce, src, fields[..i + 1])
            == Input(pol, reduce, src, fields[..i])
               + if fields[i] in pol.exclude then "" else Entry(fields[i], Value(pol, reduce, src, fields[i]))
    ensures AllExcluded(pol, fields[..i + 1]) <==> AllExcluded(pol, fields[..i]) && fields[i] in pol.exclude
  {
    assert fields[..i + 1][..i] == fields[..i];
    assert fields[..i + 1] == fields[..i] + [fields[i]];
  }

  /** `variantKeySlow`: lower the whole value, split, trim, sort, and feed a running hash. */
  method TrimFields(parts: seq<string>) returns (fields: seq<string>)
    ensures fields == TrimAll(parts)
  {
    fields := parts;
    for i := 0 to |fields|
      invariant |fields| == |parts|
      invariant forall j | 0 <= j < i :: fields[j] == TrimSpace(parts[j])
      invariant forall j | i <= j < |fields| :: fields[j] == parts[j]
    {
      fields := fields[i := TrimSpace(fields[i])];
    }
  }

  method VariantSlow(pol: VaryPolicy, src: Source, vary: string) returns (r: VariantKey)
    ensures r == KeyOf(pol, src, Sort(FieldsOf(vary), Leq))
  {
    var fields := TrimFields(Split(Lower(vary), ','));
    LowerThenTrim(vary);
    fields := Sort(fields, Leq);
    var hashed, written := "", false;
    for i := 0 to |fields|
      invariant hashed == Input(pol, pol.reduceHeader, src, fields[..i])
      invariant written <==> !AllExcluded(pol, fields[..i])
    {
      InputMore(pol, pol.reduceHeader, src, fields, i);
      var f := fields[i];
      if f in pol.exclude { continue; }
      hashed := hashed + Entry(f, Value(pol, pol.reduceHeader, src, f));
      written := true;
    }
    assert fields[..|fields|] == fields;
    return if written then Varied(hashed) else Primary;
  }

  // ---- The bounded form ----

  method ContainsStar(vary: string) returns (r: bool)
    ensures r <==> HasStar(vary)
  {
    var parts := Split(vary, ',');
    for i := 0 to |parts|
      invariant forall f | f in parts[..i] :: TrimSpace(f) != "*"
    {
      if TrimSpace(parts[i]) == "*" { return true; }
      assert parts[..i + 1] == parts[..i] + [parts[i]];
    }
    assert parts[..|parts|] == parts;
    return false;
  }

  /** Up to sixteen cleaned fields in a stack array, or too many. */
  method StackFields(vary: string, fields: array<string>) returns (n: nat, fits: bool)
    requires fields.Length == MaxFields
    modifies fields
    ensures fits ==> n <= MaxFields && fields[..n] == FieldsOf(vary)
  {
    var parts := Split(vary, ',');
    n := 0;
    while n < |parts|
      invariant n <= |parts| && n <= MaxFields
      invariant forall i | 0 <= i < n :: fields[i] == Clean(parts[i])
    {
      if n >= MaxFields { return n, false; }
      fields[n] := Clean(parts[n]);
      n := n + 1;
    }
    assert fields[..n] == CleanAll(parts);
    return n, true;
  }

  /** One `field=value;` entry behind `s`. */
  method WriteEntry(buf: array<char>, off: nat, f: string, val: string, ghost s: string) returns (m: nat)
    requires Holds(buf, off, s)
    modifies buf
    ensures Holds(buf, m, s + Entry(f, val))
  {
    var k := CopyOverflow(buf, off, f, s);
    m := FinishEntry(buf, off + k, f, val, s);
  }

  /** The entries of sorted fields in the 256-byte buffer, unless one does not fit. */
  method FillVariant(pol: VaryPolicy, src: Source, fields: array<string>, n: nat, buf: array<char>)
      returns (off: nat, written: bool, fits: bool)
    requires n <= fields.Length && buf.Length == BufSize
    modifies buf
    ensures fits ==> off <= BufSize && Holds(buf, off, Input(pol, pol.reduceHeader, src, fields[..n]))
    ensures fits ==> (written <==> !AllExcluded(pol, fields[..n]))
  {
    off, written := 0, false;
    for i := 0 to n
      invariant off <= BufSize && Holds(buf, off, Input(pol, pol.reduceHeader, src, fields[..i]))
      invariant written <==> !AllExcluded(pol, fields[..i])
    {
      InputMore(pol, pol.reduceHeader, src, fields[..n], i);
      assert fields[..n][..i] == fields[..i] && fields[..n][..i + 1] == fields[..i + 1];
      var f := fields[i];
      if f in pol.exclude { continue; }
      var val := Value(pol, pol.reduceHeader, src, f);
      if off + |f| + 1 + |val| + 1 > BufSize { return off, written, false; }
      off := WriteEntry(buf, off, f, val, Input(pol, pol.reduceHeader, src, fields[..i]));
      written := true;
    }
    fits := true;
  }

  /** `variantKeyCore`. */
  method VariantCore(pol: VaryPolicy, src: Source, vary: string) returns (r: VariantKey)
    ensures r == Variant(pol, src, vary)
  {
    if vary == "" { return Primary; }
    var star := ContainsStar(vary);
    if star { return Primary; }
    var fields := new string[MaxFields](_ => "");
    var n, fits := StackFields(vary, fields);
    if !fits {
      r := VariantSlow(pol, src, vary);
      return;
    }
    r, fits := VariantStack(pol, src, fields, n, FieldsOf(vary));
    if !fits { r := VariantSlow(pol, src, vary); }
  }

  /** Its stack part: sort the fields, write their entries, hash them. */
  method VariantStack(pol: VaryPolicy, src: Source, fields: array<string>, n: nat, ghost fs: seq<string>)
      returns (r: VariantKey, fits: bool)
    requires n <= fields.Length && fields[..n] == fs
    modifies fields
    ensures fits ==> r == KeyOf(pol, src, Sort(fs, Leq))
  {
    LeqTotalOrder();
    InsertionSort(fields, n, Leq);
    var buf := new char[BufSize](_ => 0 as char);
    var off, written;
    off, written, fits := FillVariant(pol, src, fields, n, buf);
    r := Primary;
    if fits && written {
      assert buf[..off] == Input(pol, pol.reduceHeader, src, Sort(fs, Leq));
      r := Varied(buf[..off]);
    }
  }

  // ---- Order, case and spaces do not matter ----

  lemma StarIsAField(vary: string)
    ensures HasStar(vary) <==> "*" in FieldsOf(vary)
  {
    var parts := Split(vary, ',');
    forall i | 0 <= i < |parts| ensures TrimSpace(parts[i]) == "*" <==> FieldsOf(vary)[i] == "*" {
      LowerIsStar(TrimSpace(parts[i]));
    }
  }

  lemma LowerIsStar(t: string)
    ensures Lower(t) == "*" <==> t == "*"
  {
    if |t| == 1 {
      assert Lower(t)[0] == FoldChar(t[0]);
      assert t == "*" <==> t[0] == '*';
      assert Lower(t) == "*" <==> Lower(t)[0] == '*';
    }
  }

  /** Two Vary values with the same fields, in any order, case and spacing, give the same key
      exactly when neither or both are the empty string, or the policy excludes the empty name. */
  lemma VariantIgnoresSpelling(pol: VaryPolicy, src: Source, a: string, b: string)
    requires multiset(FieldsOf(a)) == multiset(FieldsOf(b))
    ensures Variant(pol, src, a) == Variant(pol, src, b) <==> (a == "" <==> b == "") || "" in pol.exclude
  {
    if a == "" <==> b == "" {
      SameFieldsSameKey(pol, src, a, b);
    } else if a == "" {
      OnlyEmptyName(pol, src, b);
    } else {
      OnlyEmptyName(pol, src, a);
    }
  }

  lemma SameFieldsSameKey(pol: VaryPolicy, src: Source, a: string, b: string)
    requires multiset(FieldsOf(a)) == multiset(FieldsOf(b)) && (a == "" <==> b == "")
    ensures Variant(pol, src, a) == Variant(pol, src, b)
  {
    StarIsAField(a);
    StarIsAField(b);
    SameMembers(FieldsOf(a), FieldsOf(b), "*");
    LeqTotalOrder();
    SortPermutation(FieldsOf(a), FieldsOf(b), Leq);
  }

  lemma FieldsOfEmpty()
    ensures FieldsOf("") == [""]
  {
    IndexOfUnique("", ',', 0);
    TrimSpaceFixed("");
  }

  /** A non-empty value with the fields of the empty one names the empty field and no other. */
  lemma OnlyEmptyName(pol: VaryPolicy, src: Source, vary: string)
    requires vary != "" && multiset(FieldsOf(vary)) == multiset(FieldsOf(""))
    ensures Variant(pol, src, vary) == Primary <==> "" in pol.exclude
  {
    FieldsOfEmpty();
    var sorted := Sort(FieldsOf(vary), Leq);
    forall f ensures f in FieldsOf(vary) <==> f == "" { SameMembers(FieldsOf(vary), [""], f); }
    forall f ensures f in sorted <==> f == "" { SameMembers(FieldsOf(vary), sorted, f); }
    StarIsAField(vary);
  }

  /** One blank is such a value. */
  lemma BlankIsNotEmpty(pol: VaryPolicy, src: Source)
    ensures FieldsOf(" ") == FieldsOf("") && Variant(pol, src, "") == Primary
    ensures Variant(pol, src, " ") == Primary <==> "" in pol.exclude
  {
    FieldsOfEmpty();
    IndexOfUnique(" ", ',', 1);
    assert Split(" ", ',') == [" "];
    TrimSpaceIsSlice(" ", 0, 0);
    assert FieldsOf(" ") == [""];
    OnlyEmptyName(pol, src, " ");
  }

  // ---- The stored assertion key ----

  /** Here the raw fields are sorted, and cleaned one by one afterwards. */
  function AssertionInput(pol: VaryPolicy, src: Source, vary: string): string {
    Input(pol, pol.reduceAssertion, src, CleanAll(Sort(Split(vary, ','), Leq)))
  }

  method CleanField(s: string) returns (f: string)
    ensures f == Clean(s)
  {
    TrimLower(s);
    f := TrimSpace(Lower(s));
  }

  /** `buildVaryKeyInto`: as much as fits, and the length of all of it. */
  method AssertionInto(pol: VaryPolicy, src: Source, raw: seq<string>, dst: array<char>) returns (n: nat)
    modifies dst
    ensures Holds(dst, n, Input(pol, pol.reduceAssertion, src, CleanAll(raw)))
  {
    n := 0;
    ghost var fields := CleanAll(raw);
    for i := 0 to |raw|
      invariant Holds(dst, n, Input(pol, pol.reduceAssertion, src, fields[..i]))
    {
      InputMore(pol, pol.reduceAssertion, src, fields, i);
      var f := CleanField(raw[i]);
      if f in pol.exclude { continue; }
      n := WriteEntry(dst, n, f, Value(pol, pol.reduceAssertion, src, f),
                      Input(pol, pol.reduceAssertion, src, fields[..i]));
    }
    assert fields[..|raw|] == fields;
  }

  /** `buildVaryKeySlow`. */
  method AssertionSlow(pol: VaryPolicy, src: Source, vary: string) returns (hashed: string)
    ensures hashed == AssertionInput(pol, src, vary)
  {
    var fields := Sort(Split(vary, ','), Leq);
    var stack := new char[BufSize](_ => 0 as char);
    var n := AssertionInto(pol, src, fields, stack);
    if n <= BufSize {
      return stack[..n];
    }
    var heap := new char[n](_ => 0 as char);
    n := AssertionInto(pol, src, fields, heap);
    return heap[..];
  }

  predicate Ascii(s: string) {
    forall c | c in s :: c < 128 as char
  }

  /** `trimASCIISpace`. */
  method TrimAscii(s: string) returns (t: string, ok: bool)
    ensures ok <==> Ascii(s)
    ensures ok ==> t == TrimSpace(s)
  {
    for i := 0 to |s|
      invariant Ascii(s[..i])
    {
      assert s[i] in s;
      if s[i] >= 128 as char { return "", false; }
      assert s[..i + 1] == s[..i] + [s[i]];
    }
    assert s[..|s|] == s;
    var start, end := 0, |s|;
    while start < end && IsSpace(s[start])
      invariant 0 <= start <= end && forall i | 0 <= i < start :: IsSpace(s[i])
    {
      start := start + 1;
    }
    while end > start && IsSpace(s[end - 1])
      invariant start <= end <= |s| && forall i | end <= i < |s| :: IsSpace(s[i])
    {
      end := end - 1;
    }
    TrimSpaceIsSlice(s, start, end);
    return s[start..end], true;
  }

  method RawFields(vary: string, fields: array<string>) returns (n: nat, fits: bool)
    requires fields.Length == MaxFields
    modifies fields
    ensures fits <==> |Split(vary, ',')| <= MaxFields
    ensures fits ==> n <= MaxFields && fields[..n] == Split(vary, ',')
  {
    var parts := Split(vary, ',');
    n := 0;
    while n < |parts|
      invariant n <= |parts| && n <= MaxFields && fields[..n] == parts[..n]
    {
      if n >= MaxFields { return n, false; }
      ghost var before := fields[..n];
      fields[n] := parts[n];
      n := n + 1;
      assert fields[..n] == before + [parts[n - 1]];
    }
    return n, true;
  }

  function EntryOf(pol: VaryPolicy, src: Source, f: string): string {
    if f in pol.exclude then "" else Entry(f, Value(pol, pol.reduceAssertion, src, f))
  }

  /** What keeps one field behind `off` bytes out of the bounded form. */
  predicate TooMuch(pol: VaryPolicy, src: Source, off: nat, raw: string) {
    !Ascii(raw) || off + |TrimSpace(raw)| + 2 > BufSize || off + |EntryOf(pol, src, Clean(raw))| > BufSize
  }

  /** One field: the lowered name lands in the buffer at once, the entry is completed around it. */
  method AssertionEntry(pol: VaryPolicy, src: Source, raw: string, buf: array<char>, off: nat, ghost s: string)
      returns (m: nat, fits: bool)
    requires Holds(buf, off, s) && off <= BufSize == buf.Length
    modifies buf
    ensures fits <==> !TooMuch(pol, src, off, raw)
    ensures fits ==> m <= BufSize && Holds(buf, m, s + EntryOf(pol, src, Clean(raw)))
  {
    var t, ok := TrimAscii(raw);
    if !ok { return off, false; }
    if off + |t| + 2 > BufSize { return off, false; }
    m := AppendLower(buf, off, t, s);
    HoldsSlice(buf, m, s, Lower(t));
    var f := buf[off..m];
    if f in pol.exclude {
      assert s + "" == s;
      return off, true;
    }
    var val := Value(pol, pol.reduceAssertion, src, f);
    if off + |t| + 1 + |val| + 1 > BufSize { return off, false; }
    m := FinishEntry(buf, m, f, val, s);
    fits := true;
  }

  lemma HoldsSlice(buf: array<char>, n: nat, s: string, h: string)
    requires Holds(buf, n, s + h) && n <= buf.Length
    ensures buf[|s|..n] == h
  {
    assert buf[..n] == s + h && (s + h)[|s|..] == h;
    assert buf[|s|..n] == buf[..n][|s|..];
  }

  method FinishEntry(buf: array<char>, n: nat, f: string, val: string, ghost s: string) returns (m: nat)
    requires Holds(buf, n, s + f)
    modifies buf
    ensures Holds(buf, m, s + Entry(f, val))
  {
    m := AppendByte(buf, n, '=', s + f);
    var k := CopyOverflow(buf, m, val, s + f + "=");
    m := AppendByte(buf, m + k, ';', s + f + "=" + val);
    assert s + f + "=" + val + ";" == s + Entry(f, val);
  }

  /** The entries of the first `i` fields. */
  function Upto(pol: VaryPolicy, src: Source, raw: seq<string>, i: nat): string
    requires i <= |raw|
  {
    Input(pol, pol.reduceAssertion, src, CleanAll(raw)[..i])
  }

  lemma UptoMore(pol: VaryPolicy, src: Source, raw: seq<string>, i: nat)
    requires i < |raw|
    ensures Upto(pol, src, raw, i + 1) == Upto(pol, src, raw, i) + EntryOf(pol, src, Clean(raw[i]))
  {
    InputMore(pol, pol.reduceAssertion, src, CleanAll(raw), i);
  }

  /** One of the first `i` fields does not fit behind the ones before it. */
  predicate Declined(pol: VaryPolicy, src: Source, raw: seq<string>, i: nat)
    requires i <= |raw|
  {
    i > 0 && (Declined(pol, src, raw, i - 1) || TooMuch(pol, src, |Upto(pol, src, raw, i - 1)|, raw[i - 1]))
  }

  lemma {:induction false} DeclinedStays(pol: VaryPolicy, src: Source, raw: seq<string>, i: nat)
    requires i <= |raw| && Declined(pol, src, raw, i)
    ensures Declined(pol, src, raw, |raw|)
    decreases |raw| - i
  {
    if i < |raw| { DeclinedStays(pol, src, raw, i + 1); }
  }

  method FillAssertion(pol: VaryPolicy, src: Source, raw: seq<string>, buf: array<char>) returns (off: nat, fits: bool)
    requires buf.Length == BufSize
    modifies buf
    ensures fits <==> !Declined(pol, src, raw, |raw|)
    ensures fits ==> off <= BufSize && Holds(buf, off, Upto(pol, src, raw, |raw|))
  {
    off, fits := 0, true;
    for i := 0 to |raw|
      invariant off <= BufSize && fits && Holds(buf, off, Upto(pol, src, raw, i)) && !Declined(pol, src, raw, i)
    {
      UptoMore(pol, src, raw, i);
      off, fits := AssertionEntry(pol, src, raw[i], buf, off, Upto(pol, src, raw, i));
      if !fits {
        DeclinedStays(pol, src, raw, i + 1);
        return;
      }
    }
  }

  predicate Declines(pol: VaryPolicy, src: Source, raw: seq<string>) {
    Declined(pol, src, raw, |raw|)
  }

  lemma UptoAll(pol: VaryPolicy, src: Source, raw: seq<string>)
    ensures Upto(pol, src, raw, |raw|) == Input(pol, pol.reduceAssertion, src, CleanAll(raw))
  {
    assert CleanAll(raw)[..|raw|] == CleanAll(raw);
  }

  method AssertionBytes(pol: VaryPolicy, src: Source, raw: seq<string>) returns (hashed: Option<string>)
    ensures hashed.None? <==> Declines(pol, src, raw)
    ensures hashed.Some? ==> hashed.value == Input(pol, pol.reduceAssertion, src, CleanAll(raw))
  {
    var buf := new char[BufSize](_ => 0 as char);
    var off, fits := FillAssertion(pol, src, raw, buf);
    if !fits { return None; }
    UptoAll(pol, src, raw);
    assert buf[..off] == Upto(pol, src, raw, |raw|);
    return Some(buf[..off]);
  }

  /** `varyAssertionHash`: the same bytes, unless the list or an entry passes a bound. */
  method AssertionFast(pol: VaryPolicy, src: Source, vary: string) returns (hashed: Option<string>)
    ensures hashed.None? <==> |Split(vary, ',')| > MaxFields || Declines(pol, src, Sort(Split(vary, ','), Leq))
    ensures hashed.Some? ==> hashed.value == AssertionInput(pol, src, vary)
  {
    var fields := new string[MaxFields](_ => "");
    var n, fits := RawFields(vary, fields);
    if !fits { return None; }
    LeqTotalOrder();
    InsertionSort(fields, n, Leq);
    hashed := AssertionBytes(pol, src, fields[..n]);
  }

  // ---- The Vary list a route declares ----

  /** Drop every element equal to the one before it. */
  function Uniq(s: seq<string>): seq<string> {
    if |s| <= 1 then s
    else if s[|s| - 1] == s[|s| - 2] then Uniq(s[..|s| - 1])
    else Uniq(s[..|s| - 1]) + [s[|s| - 1]]
  }

  method Overwrite(a: array<string>, u: nat, f: string)
    requires u < a.Length
    modifies a
    ensures a[..u + 1] == old(a[..u]) + [f] && forall j | u < j < a.Length :: a[j] == old(a[j])
    ensures a[u] == f
  {
    a[u] := f;
  }

  /** The in-place loop: the result is written over the front of the array it is read from. */
  method Dedupe(a: array<string>) returns (u: nat)
    modifies a
    ensures u <= a.Length && a[..u] == Uniq(old(a[..]))
  {
    u := 0;
    ghost var was := a[..];
    for i := 0 to a.Length
      invariant u <= i && a[..u] == Uniq(was[..i])
      invariant forall j | i <= j < a.Length :: a[j] == was[j]
      invariant i > 0 ==> u > 0 && a[i - 1] == was[i - 1]
    {
      var f := a[i];
      UniqMore(was, i);
      if i == 0 || f != a[i - 1] {
        Overwrite(a, u, f);
        u := u + 1;
      }
    }
    assert was[..a.Length] == was;
  }

  lemma UniqMore(s: seq<string>, i: nat)
    requires i < |s|
    ensures Uniq(s[..i + 1]) == if i > 0 && s[i] == s[i - 1] then Uniq(s[..i]) else Uniq(s[..i]) + [s[i]]
  {
    assert s[..i + 1][..i] == s[..i];
    if i == 0 { assert s[..0] == [] && s[..1] == [s[0]]; }
  }

  /** The fields the policy names by itself. */
  function Declared(pol: VaryPolicy): seq<string> {
    pol.included + (if pol.hasPresence then [PresenceField] else []) + (if pol.hasValues then [ValuesField] else [])
  }

  function OriginFields(joined: string): seq<string> {
    if joined == "" then [] else FieldsOf(joined)
  }

  function Listing(fields: seq<string>): string {
    Join(Uniq(Sort(fields, Leq)), ", ")
  }

  method SortDedupeJoin(fields: seq<string>) returns (vary: string)
    ensures vary == Listing(fields)
  {
    var uniq := DedupeSeq(Sort(fields, Leq));
    return Join(uniq, ", ");
  }

  method DedupeSeq(s: seq<string>) returns (r: seq<string>)
    ensures r == Uniq(s)
  {
    var a := new string[|s|](i requires 0 <= i < |s| => s[i]);
    assert a[..] == s;
    var u := Dedupe(a);
    return a[..u];
  }

  /** `computeDerivedVary`. */
  method DerivedVary(pol: VaryPolicy) returns (vary: string)
    ensures vary == Listing(Declared(pol))
  {
    vary := SortDedupeJoin(Declared(pol));
  }

  method CleanParts(joined: string) returns (fields: seq<string>)
    ensures fields == FieldsOf(joined)
  {
    var parts := Split(joined, ',');
    fields := [];
    for i := 0 to |parts|
      invariant |fields| == i && forall j | 0 <= j < i :: fields[j] == Clean(parts[j])
    {
      var f := CleanField(parts[i]);
      fields := fields + [f];
    }
  }

  /** `effectiveVary`, from the origin's joined Vary lines. */
  method EffectiveVary(pol: VaryPolicy, joined: string) returns (vary: string)
    ensures vary == Effective(pol, joined)
  {
    if pol.included == [] && !pol.hasPresence && !pol.hasValues { return joined; }
    var fields: seq<string> := [];
    if joined != "" { fields := CleanParts(joined); }
    vary := SortDedupeJoin(fields + Declared(pol));
  }

  function Effective(pol: VaryPolicy, joined: string): string {
    if Declared(pol) == [] then joined else Listing(OriginFields(joined) + Declared(pol))
  }

  lemma {:induction false} UniqOfSorted(s: seq<string>)
    requires SortedBy(s, Leq)
    ensures SortedBy(Uniq(s), Leq) && NoRepeats(Uniq(s)) && forall x :: x in Uniq(s) <==> x in s
    ensures s != [] ==> Uniq(s) != [] && Uniq(s)[|Uniq(s)| - 1] == s[|s| - 1]
  {
    if |s| > 1 {
      var last, most := s[|s| - 1], s[..|s| - 1];
      UniqOfSorted(most);
      assert s == most + [last];
      if last != s[|s| - 2] {
        AboveAll(s, Uniq(most));
        NewLast(Uniq(most), last);
      }
    }
  }

  /** A new last element of a sorted sequence lies strictly above those before it. */
  lemma AboveAll(s: seq<string>, u: seq<string>)
    requires |s| > 1 && SortedBy(s, Leq) && s[|s| - 1] != s[|s| - 2] && forall x | x in u :: x in s[..|s| - 1]
    ensures forall x | x in u :: Leq(x, s[|s| - 1]) && x != s[|s| - 1]
  {
    forall x | x in u ensures Leq(x, s[|s| - 1]) && x != s[|s| - 1] {
      var j :| 0 <= j < |s| - 1 && s[j] == x;
      if x == s[|s| - 1] && j < |s| - 2 { LeqAntisymmetric(s[|s| - 2], s[|s| - 1]); }
    }
  }

  lemma NewLast(u: seq<string>, x: string)
    requires SortedBy(u, Leq) && NoRepeats(u) && forall y | y in u :: Leq(y, x) && y != x
    ensures SortedBy(u + [x], Leq) && NoRepeats(u + [x])
  {}

  /** The listing is a function of the set of fields. */
  lemma ListingOfSet(a: seq<string>, b: seq<string>)
    requires forall x :: x in a <==> x in b
    ensures Uniq(Sort(a, Leq)) == Uniq(Sort(b, Leq)) && Listing(a) == Listing(b)
  {
    LeqTotalOrder();
    var sa, sb := Sort(a, Leq), Sort(b, Leq);
    UniqOfSorted(sa);
    UniqOfSorted(sb);
    forall x ensures x in sa <==> x in sb {
      SameMembers(a, sa, x);
      SameMembers(b, sb, x);
    }
    SameBag(Uniq(sa), Uniq(sb));
    SortedUnique(Uniq(sa), Uniq(sb), Leq);
  }

  // ---- Flight keys ----

  predicate IsClean(f: string) {
    Clean(f) == f && ',' !in f
  }

  /** What `NewKeyPolicy` and the config loader guarantee of the included names: trimmed,
      lower case, no commas; no raw `cookie` beside cookie keying. */
  predicate WellFormed(pol: VaryPolicy) {
    && (forall f | f in pol.included :: IsClean(f))
    && (pol.hasPresence || pol.hasValues ==> "cookie" !in pol.included)
  }

  /** What the flight's snapshot of a request answers. */
  function FlightSource(pol: VaryPolicy, src: Source): Source {
    Source(f => if f == "cookie" && (pol.hasPresence || pol.hasValues) then src.cookies
                else if f in pol.included then src.get(f) else "",
           if pol.hasPresence || pol.hasValues then src.cookies
           else if "cookie" in pol.included then src.get("cookie") else "")
  }

  function Found(m: map<string, string>, f: string): string {
    if f in m then m[f] else ""
  }

  /** `flightHeaders`: a fresh map with the declared inputs of the request and nothing else. */
  method FlightHeaders(pol: VaryPolicy, src: Source) returns (m: map<string, string>)
    ensures forall f :: Found(m, f) == FlightSource(pol, src).get(f)
    ensures Found(m, "cookie") == FlightSource(pol, src).cookies
    ensures forall f | f in m :: f in pol.included || (f == "cookie" && (pol.hasPresence || pol.hasValues))
  {
    m := map[];
    for i := 0 to |pol.included|
      invariant forall f :: Found(m, f) == if f in pol.included[..i] then src.get(f) else ""
      invariant forall f | f in m :: f in pol.included
    {
      assert pol.included[..i + 1] == pol.included[..i] + [pol.included[i]];
      m := m[pol.included[i] := src.get(pol.included[i])];
    }
    assert pol.included[..|pol.included|] == pol.included;
    if pol.hasPresence || pol.hasValues { m := m["cookie" := src.cookies]; }
  }

  lemma CleanAllCons(head: string, rest: seq<string>)
    ensures CleanAll([head] + rest) == [Clean(head)] + CleanAll(rest)
  {
    MapCons(Clean, head, rest, CleanAll([head] + rest), CleanAll(rest));
  }

  lemma MapCons(f: string -> string, head: string, rest: seq<string>, all: seq<string>, most: seq<string>)
    requires |all| == |rest| + 1 && forall i | 0 <= i < |all| :: all[i] == f(([head] + rest)[i])
    requires |most| == |rest| && forall i | 0 <= i < |most| :: most[i] == f(rest[i])
    ensures all == [f(head)] + most
  {}

  lemma SpacedHead(head: string, rest: string)
    requires ',' !in head
    ensures CleanAll(Split(head + ", " + rest, ',')) == [Clean(head)] + CleanAll(Split(rest, ','))
  {
    assert head + ", " + rest == head + [','] + (" " + rest);
    SplitHead(head, " " + rest, ',');
    CleanAllCons(head, Split(" " + rest, ','));
    LeadingSpace(rest);
  }

  lemma {:induction false} SpacedSplit(fs: seq<string>)
    requires fs != [] && forall f | f in fs :: IsClean(f)
    ensures CleanAll(Split(Join(fs, ", "), ',')) == fs
  {
    var head, tail := fs[0], fs[1..];
    assert head in fs;
    if |fs| == 1 {
      IndexOfUnique(head, ',', |head|);
    } else {
      assert fs == [head] + tail;
      SpacedSplit(tail);
      JoinCons(head, tail, ", ");
      SpacedHead(head, Join(tail, ", "));
    }
  }

  /** A space behind the separator is trimmed away. */
  lemma LeadingSpace(s: string)
    ensures CleanAll(Split(" " + s, ',')) == CleanAll(Split(s, ','))
  {
    SplitLeadingSpace(' ', s);
    var a, b := Split(" " + s, ','), Split(s, ',');
    assert |TrimAll(a)| == |TrimAll(b)|;
    forall i | 0 <= i < |a| ensures Clean(a[i]) == Clean(b[i]) {
      assert TrimAll(a)[i] == TrimAll(b)[i];
    }
  }

  lemma CleanAlready(f: string)
    requires f != "" && forall i | 0 <= i < |f| :: FoldChar(f[i]) == f[i] && !IsSpace(f[i]) && f[i] != ','
    ensures IsClean(f)
  {
    TrimSpaceFixed(f);
    assert Lower(f) == f;
  }

  lemma SyntheticClean()
    ensures IsClean(PresenceField) && IsClean(ValuesField)
  {
    CleanAlready(PresenceField);
    CleanAlready(ValuesField);
  }

  lemma DeclaredClean(pol: VaryPolicy, f: string)
    requires WellFormed(pol) && f in Declared(pol)
    ensures IsClean(f)
  {
    if f !in pol.included {
      DeclaredSynthetic(pol, f, PresenceField, ValuesField);
      SyntheticClean();
    }
  }

  lemma DeclaredSynthetic(pol: VaryPolicy, f: string, p: string, v: string)
    requires p == PresenceField && v == ValuesField && f in Declared(pol) && f !in pol.included
    ensures f == p || f == v
  {}

  /** A listing of clean names names exactly these. */
  lemma ListingFields(fields: seq<string>, f: string)
    requires fields != [] && forall x | x in fields :: IsClean(x)
    ensures f in FieldsOf(Listing(fields)) <==> f in fields
  {
    LeqTotalOrder();
    var sorted := Sort(fields, Leq);
    UniqOfSorted(sorted);
    forall x ensures x in sorted <==> x in fields { SameMembers(fields, sorted, x); }
    SameMembers(fields, sorted, fields[0]);
    SpacedSplit(Uniq(sorted));
  }

  lemma FieldsClean(vary: string, f: string)
    requires f in FieldsOf(vary)
    ensures IsClean(f)
  {
    var parts := Split(vary, ',');
    var i :| 0 <= i < |parts| && f == Clean(parts[i]);
    assert parts[i] in parts;
    CleanIsClean(parts[i]);
  }

  lemma CleanIsClean(p: string)
    requires ',' !in p
    ensures IsClean(Clean(p))
  {
    CleanTwice(p);
    var t := TrimSpace(p);
    forall i | 0 <= i < |t| ensures Lower(t)[i] != ',' {
      assert t[i] in p;
    }
  }

  lemma CleanTwice(p: string)
    ensures Clean(Clean(p)) == Clean(p)
  {
    var t := TrimSpace(p);
    TrimSpaceFixed(t);
    TrimLower(t);
    LowerIdempotent(t);
  }

  /** The effective Vary is the derived one exactly when the origin's Vary names only declared
      fields. */
  lemma EffectiveIsDerived(pol: VaryPolicy, joined: string)
    requires WellFormed(pol) && Declared(pol) != []
    ensures Effective(pol, joined) == Listing(Declared(pol))
            <==> forall f | f in OriginFields(joined) :: f in Declared(pol)
  {
    var all := OriginFields(joined) + Declared(pol);
    forall f | f in Declared(pol) ensures IsClean(f) { DeclaredClean(pol, f); }
    forall f | f in OriginFields(joined) ensures IsClean(f) { FieldsClean(joined, f); }
    if forall f | f in OriginFields(joined) :: f in Declared(pol) {
      ListingOfSet(all, Declared(pol));
    }
    forall f | f in OriginFields(joined) && Listing(all) == Listing(Declared(pol)) ensures f in Declared(pol) {
      assert f in all;
      ListingFields(all, f);
      ListingFields(Declared(pol), f);
    }
  }

  /** Sources that agree on the listed fields give the same key. */
  lemma {:induction false} InputAgrees(pol: VaryPolicy, a: Source, b: Source, fields: seq<string>)
    requires forall f | f in fields :: Value(pol, pol.reduceHeader, a, f) == Value(pol, pol.reduceHeader, b, f)
    ensures Input(pol, pol.reduceHeader, a, fields) == Input(pol, pol.reduceHeader, b, fields)
  {
    if fields != [] { InputAgrees(pol, a, b, fields[..|fields| - 1]); }
  }

  lemma VariantAgrees(pol: VaryPolicy, a: Source, b: Source, vary: string)
    requires forall f | f in FieldsOf(vary) :: Value(pol, pol.reduceHeader, a, f) == Value(pol, pol.reduceHeader, b, f)
    ensures Variant(pol, a, vary) == Variant(pol, b, vary)
  {
    var sorted := Sort(FieldsOf(vary), Leq);
    forall f | f in sorted ensures f in FieldsOf(vary) { SameMembers(FieldsOf(vary), sorted, f); }
    InputAgrees(pol, a, b, sorted);
  }

  /** The snapshot answers for every declared field as the request does. */
  lemma FlightValue(pol: VaryPolicy, src: Source, f: string)
    requires WellFormed(pol) && f in Declared(pol)
    ensures Value(pol, pol.reduceHeader, FlightSource(pol, src), f) == Value(pol, pol.reduceHeader, src, f)
  {
    if f !in pol.included {
      assert f == PresenceField || f == ValuesField;
    }
  }

  /** A cold flight is keyed exactly as the variant its response will be stored under, whenever
      the origin's Vary stays within what the route declares. */
  lemma FlightKeyIsStorageKey(pol: VaryPolicy, src: Source, joined: string)
    requires WellFormed(pol) && Declared(pol) != [] && forall f | f in OriginFields(joined) :: f in Declared(pol)
    ensures Variant(pol, FlightSource(pol, src), Listing(Declared(pol))) == Variant(pol, src, Effective(pol, joined))
  {
    EffectiveIsDerived(pol, joined);
    var vary := Listing(Declared(pol));
    forall f | f in FieldsOf(vary)
      ensures Value(pol, pol.reduceHeader, FlightSource(pol, src), f) == Value(pol, pol.reduceHeader, src, f)
    {
      forall x | x in Declared(pol) ensures IsClean(x) { DeclaredClean(pol, x); }
      ListingFields(Declared(pol), f);
      FlightValue(pol, src, f);
    }
    VariantAgrees(pol, FlightSource(pol, src), src, vary);
  }

  /** Two requests share a cold flight exactly when their stored variants have the same input. */
  lemma FlightSharedIffSameVariant(pol: VaryPolicy, a: Source, b: Source, joined: string)
    requires WellFormed(pol) && Declared(pol) != [] && forall f | f in OriginFields(joined) :: f in Declared(pol)
    ensures Variant(pol, FlightSource(pol, a), Listing(Declared(pol)))
            == Variant(pol, FlightSource(pol, b), Listing(Declared(pol)))
            <==> Variant(pol, a, Effective(pol, joined)) == Variant(pol, b, Effective(pol, joined))
  {
    FlightKeyIsStorageKey(pol, a, joined);
    FlightKeyIsStorageKey(pol, b, joined);
  }
}
