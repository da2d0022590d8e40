/** Total orders, sorting and the uniqueness of sorted sequences.
    Every canonical form of the cache (query pairs, Vary fields, ring points)
    is "sort, then write", so order independence always ends in `SortedUnique`. */
module Ordering {

  ghost predicate TotalOrder<T(!new)>(le: (T, T) -> bool) {
    && (forall x, y :: le(x, y) || le(y, x))
    && (forall x, y :: le(x, y) && le(y, x) ==> x == y)
    && (forall x, y, z :: le(x, y) && le(y, z) ==> le(x, z))
  }

  ghost predicate SortedBy<T>(s: seq<T>, le: (T, T) -> bool) {
    forall i, j | 0 <= i < j < |s| :: le(s[i], s[j])
  }

  /** Two sorted arrangements of the same elements are the same sequence. */
  lemma {:induction false} SortedUnique<T(!new)>(a: seq<T>, b: seq<T>, le: (T, T) -> bool)
    requires TotalOrder(le)
    requires SortedBy(a, le) && SortedBy(b, le)
    requires multiset(a) == multiset(b)
    ensures a == b
  {
    assert |multiset(a)| == |multiset(b)|;
    if a != [] {
      SameHead(a, b, le);
      SameTails(a, b, le);
      SortedUnique(a[1..], b[1..], le);
      Recomposed(a, b);
    }
  }

  lemma Recomposed<T>(a: seq<T>, b: seq<T>)
    requires a != [] && b != [] && a[0] == b[0] && a[1..] == b[1..]
    ensures a == b
  {
    assert a == [a[0]] + a[1..] && b == [b[0]] + b[1..];
  }

  /** The tails are sorted arrangements of the same elements again. */
  lemma SameTails<T(!new)>(a: seq<T>, b: seq<T>, le: (T, T) -> bool)
    requires SortedBy(a, le) && SortedBy(b, le) && a != [] && b != []
    requires multiset(a) == multiset(b) && a[0] == b[0]
    ensures SortedBy(a[1..], le) && SortedBy(b[1..], le) && multiset(a[1..]) == multiset(b[1..])
  {
    BagTail(a);
    BagTail(b);
  }

  lemma SameHead<T(!new)>(a: seq<T>, b: seq<T>, le: (T, T) -> bool)
    requires TotalOrder(le) && SortedBy(a, le) && SortedBy(b, le)
    requires multiset(a) == multiset(b) && a != [] && b != []
    ensures a[0] == b[0]
  {
    assert a[0] in multiset(b) && b[0] in multiset(a);
    assert le(a[0], b[0]) && le(b[0], a[0]);
  }

  lemma BagTail<T>(a: seq<T>)
    requires a != []
    ensures multiset(a[1..]) == multiset(a) - multiset{a[0]}
  {
    assert a == [a[0]] + a[1..];
  }

  function Insert<T>(x: T, s: seq<T>, le: (T, T) -> bool): (r: seq<T>)
    ensures multiset(r) == multiset(s) + multiset{x}
  {
    if s == [] then [x]
    else if le(x, s[0]) then
      [x] + s
    else
      assert s == [s[0]] + s[1..];
      [s[0]] + Insert(x, s[1..], le)
  }

  lemma {:induction false} InsertSorted<T(!new)>(x: T, s: seq<T>, le: (T, T) -> bool)
    requires TotalOrder(le) && SortedBy(s, le)
    ensures SortedBy(Insert(x, s, le), le)
  {
    if s != [] && !le(x, s[0]) {
      InsertSorted(x, s[1..], le);
      var rest := Insert(x, s[1..], le);
      forall i | 0 <= i < |rest| ensures le(s[0], rest[i]) {
        assert rest[i] in multiset(rest);
        assert rest[i] == x || rest[i] in s[1..];
      }
    }
  }

  /** The library sort (`sort.Strings`, `slices.Sort`), given by what it returns. */
  function Sort<T(!new)>(s: seq<T>, le: (T, T) -> bool): (r: seq<T>)
    ensures multiset(r) == multiset(s)
    ensures TotalOrder(le) ==> SortedBy(r, le)
  {
    if s == [] then []
    else
      assert s == [s[0]] + s[1..];
      assert TotalOrder(le) ==> SortedBy(Insert(s[0], Sort(s[1..], le), le), le) by {
        if TotalOrder(le) { InsertSorted(s[0], Sort(s[1..], le), le); }
      }
      Insert(s[0], Sort(s[1..], le), le)
  }

  /** Sorting forgets the order it was given. */
  lemma SortPermutation<T(!new)>(a: seq<T>, b: seq<T>, le: (T, T) -> bool)
    requires TotalOrder(le)
    requires multiset(a) == multiset(b)
    ensures Sort(a, le) == Sort(b, le)
  {
    SortedUnique(Sort(a, le), Sort(b, le), le);
  }

  /** The insertion sort the key builders run in place over the first `n` slots. */
  method InsertionSort<T(!new)>(a: array<T>, n: nat, le: (T, T) -> bool)
    requires n <= a.Length
    requires TotalOrder(le)
    modifies a
    ensures a[..n] == Sort(old(a[..n]), le)
    ensures a[n..] == old(a[n..])
  {
    ghost var was := a[..n];
    var i := 1;
    while i < n
      invariant 1 <= i && (i <= n ==> SortedBy(a[..i], le)) && (n > 0 ==> i <= n)
      invariant multiset(a[..n]) == multiset(was) && a[n..] == old(a[n..])
    {
      ghost var j := SinkLast(a, i, n, le);
      SettledSorted(a[..i + 1], j, le);
      i := i + 1;
    }
    SortedIsSort(a[..n], was, le);
  }

  lemma SortedIsSort<T(!new)>(s: seq<T>, was: seq<T>, le: (T, T) -> bool)
    requires TotalOrder(le) && SortedBy(s, le) && multiset(s) == multiset(was)
    ensures s == Sort(was, le)
  {
    SortedUnique(s, Sort(was, le), le);
  }

  /** One outer iteration: slot `i` is swapped down the sorted prefix until it settles at `j`. */
  method SinkLast<T(!new)>(a: array<T>, i: nat, n: nat, le: (T, T) -> bool) returns (ghost j: nat)
    requires 0 < i < n <= a.Length
    requires forall x, y :: le(x, y) || le(y, x)
    requires SortedBy(a[..i], le)
    modifies a
    ensures j <= i && (j == 0 || le(a[j - 1], a[j]))
    ensures forall p, q | 0 <= p < q <= i && q != j :: le(a[p], a[q])
    ensures multiset(a[..n]) == old(multiset(a[..n]))
    ensures a[n..] == old(a[n..])
  {
    var k := i;
    while k > 0 && !le(a[k - 1], a[k])
      invariant 0 <= k <= i
      invariant forall p, q | 0 <= p < q <= i && q != k :: le(a[p], a[q])
      invariant multiset(a[..n]) == old(multiset(a[..n]))
      invariant a[n..] == old(a[n..])
    {
      Swap(a, k, n);
      k := k - 1;
    }
    j := k;
  }

  lemma SettledSorted<T(!new)>(s: seq<T>, j: nat, le: (T, T) -> bool)
    requires TotalOrder(le)
    requires j < |s| && (j == 0 || le(s[j - 1], s[j]))
    requires forall p, q | 0 <= p < q < |s| && q != j :: le(s[p], s[q])
    ensures SortedBy(s, le)
  {
    forall p | 0 <= p < j ensures le(s[p], s[j]) {
      assert p < j - 1 ==> le(s[p], s[j - 1]);
    }
  }

  /** Exchange two neighbouring slots. */
  method Swap<T>(a: array<T>, j: nat, n: nat)
    requires 0 < j < n <= a.Length
    modifies a
    ensures a[j - 1] == old(a[j]) && a[j] == old(a[j - 1])
    ensures forall i | 0 <= i < a.Length && i != j && i != j - 1 :: a[i] == old(a[i])
    ensures multiset(a[..n]) == old(multiset(a[..n]))
    ensures a[n..] == old(a[n..])
  {
    ghost var s := a[..n];
    a[j - 1], a[j] := a[j], a[j - 1];
    assert a[..n] == s[j - 1 := s[j]][j := s[j - 1]];
  }

  ghost predicate NoRepeats<T>(s: seq<T>) {
    forall i, j | 0 <= i < j < |s| :: s[i] != s[j]
  }

  lemma {:induction false} CountOne<T>(s: seq<T>, x: T)
    requires NoRepeats(s)
    ensures multiset(s)[x] == if x in s then 1 else 0
  {
    if s != [] {
      CountOne(s[1..], x);
      assert s == [s[0]] + s[1..];
    }
  }

  lemma SameBag<T(!new)>(a: seq<T>, b: seq<T>)
    requires NoRepeats(a) && NoRepeats(b) && forall x :: x in a <==> x in b
    ensures multiset(a) == multiset(b)
  {
    forall x ensures multiset(a)[x] == multiset(b)[x] {
      CountOne(a, x);
      CountOne(b, x);
    }
  }
}
