/** Binary search over a read-only vector, as the three implementations of the
    benchmark perform it: one comparison at a time.

    A lookup in progress is a window `[first, first + len)` of the vector; `Probe`
    is one comparison. `Answer` is what the lookup will report in the end, and
    `Steps` how many comparisons it still needs. */
module Search {

  datatype Lookup =
    | Searching(first: nat, len: nat, key: int)
    | Finished(key: int, hit: bool)

  predicate Fits(v: seq<int>, l: Lookup) {
    l.Searching? ==> 0 < l.len && l.first + l.len <= |v|
  }

  /** A lookup before its first comparison; an empty vector needs none. */
  function Begin(v: seq<int>, key: int): Lookup {
    if |v| == 0 then Finished(key, false) else Searching(0, |v|, key)
  }

  /** The window `[first, first + len)`, which is a finished miss once it is empty. */
  function Window(first: nat, len: nat, key: int): Lookup {
    if len == 0 then Finished(key, false) else Searching(first, len, key)
  }

  /** One comparison with the element in the middle of the window. */
  function Probe(v: seq<int>, l: Lookup): (r: Lookup)
    requires Fits(v, l) && l.Searching?
    ensures Fits(v, r) && r.key == l.key
    ensures r.Searching? ==> r.len <= l.len / 2
  {
    var half := l.len / 2;
    var middle := l.first + half;
    if v[middle] == l.key then Finished(l.key, true)
    else if v[middle] < l.key then Window(middle + 1, l.len - half - 1, l.key)
    else Window(l.first, half, l.key)
  }

  function Answer(v: seq<int>, l: Lookup): bool
    requires Fits(v, l)
    decreases if l.Searching? then l.len else 0
  {
    if l.Finished? then l.hit else Answer(v, Probe(v, l))
  }

  function Steps(v: seq<int>, l: Lookup): nat
    requires Fits(v, l)
    decreases if l.Searching? then l.len else 0
  {
    if l.Finished? then 0 else 1 + Steps(v, Probe(v, l))
  }

  /** The result of a whole lookup. */
  predicate Found(v: seq<int>, key: int) {
    Answer(v, Begin(v, key))
  }

  // ---------- What the search means, independently of how it proceeds ----------

  ghost predicate Sorted(v: seq<int>) {
    forall i, j :: 0 <= i < j < |v| ==> v[i] <= v[j]
  }

  ghost predicate Distinct(v: seq<int>) {
    forall i, j :: 0 <= i < j < |v| ==> v[i] != v[j]
  }

  /** The order a search for `key` relies on within `[lo, hi)`: the smaller
      elements come first and the larger ones last. */
  ghost predicate Partitioned(v: seq<int>, lo: nat, hi: nat, key: int)
    requires hi <= |v|
  {
    forall i, j :: lo <= i < j < hi ==> (v[j] < key ==> v[i] < key) && (key < v[i] ==> key < v[j])
  }

  /** A hit is never invented, whatever the order of the vector. */
  lemma {:induction false} AnswerSound(v: seq<int>, l: Lookup) returns (at: nat)
    requires Fits(v, l) && l.Searching? && Answer(v, l)
    ensures l.first <= at < l.first + l.len && v[at] == l.key
    decreases l.len
  {
    var r := Probe(v, l);
    if r.Finished? {
      at := l.first + l.len / 2;
    } else {
      at := AnswerSound(v, r);
    }
  }

  /** In a partitioned window no occurrence is missed. */
  lemma {:induction false} AnswerComplete(v: seq<int>, l: Lookup, at: nat)
    requires Fits(v, l) && l.Searching?
    requires Partitioned(v, l.first, l.first + l.len, l.key)
    requires l.first <= at < l.first + l.len && v[at] == l.key
    ensures Answer(v, l)
    decreases l.len
  {
    var r := Probe(v, l);
    var middle := l.first + l.len / 2;
    if v[middle] != l.key {
      assert v[middle] < l.key ==> middle < at;
      assert l.key < v[middle] ==> at < middle;
      AnswerComplete(v, r, at);
    }
  }

  /** On a sorted vector, the keys found are exactly the keys that occur. */
  lemma SortedFound(v: seq<int>, key: int)
    requires Sorted(v)
    ensures Found(v, key) <==> key in v
  {
    if Found(v, key) {
      var at := AnswerSound(v, Begin(v, key));
    }
    if key in v {
      var at :| 0 <= at < |v| && v[at] == key;
      AnswerComplete(v, Begin(v, key), at);
    }
  }

  /** The element at index i is found by a search of the given window. */
  ghost predicate FindsElement(v: seq<int>, first: nat, len: nat, i: nat)
    requires first + len <= |v| && i < |v|
  {
    Answer(v, Window(first, len, v[i]))
  }

  ghost predicate FindsOwnElements(v: seq<int>, first: nat, len: nat)
    requires first + len <= |v|
  {
    forall i :: first <= i < first + len ==> FindsElement(v, first, len, i)
  }

  /** Without duplicates, an element that its window finds lies on the side of the
      middle where the search looks for it, and is found there. */
  lemma FoundOnItsSide(v: seq<int>, first: nat, len: nat, i: nat)
    requires first + len <= |v| && Distinct(v)
    requires first <= i < first + len && i != first + len / 2
    requires FindsElement(v, first, len, i)
    ensures i < first + len / 2 ==>
              v[i] < v[first + len / 2] && FindsElement(v, first, len / 2, i)
    ensures first + len / 2 < i ==>
              v[first + len / 2] < v[i]
              && FindsElement(v, first + len / 2 + 1, len - len / 2 - 1, i)
  {
    var l := Searching(first, len, v[i]);
    var r := Probe(v, l);
    assert Answer(v, r);
    var at := AnswerSound(v, r);
    assert at == i;
  }

  ghost predicate Increasing(v: seq<int>, lo: nat, hi: nat)
    requires hi <= |v|
  {
    forall i, j :: lo <= i < j < hi ==> v[i] < v[j]
  }

  lemma FoundOnTheirSides(v: seq<int>, first: nat, len: nat)
    requires 0 < len && first + len <= |v| && Distinct(v)
    requires FindsOwnElements(v, first, len)
    ensures FindsOwnElements(v, first, len / 2)
    ensures FindsOwnElements(v, first + len / 2 + 1, len - len / 2 - 1)
    ensures forall i :: first <= i < first + len / 2 ==> v[i] < v[first + len / 2]
    ensures forall i :: first + len / 2 < i < first + len ==> v[first + len / 2] < v[i]
  {
    forall i | first <= i < first + len / 2
      ensures v[i] < v[first + len / 2] && FindsElement(v, first, len / 2, i)
    {
      FoundOnItsSide(v, first, len, i);
    }
    forall i | first + len / 2 < i < first + len
      ensures v[first + len / 2] < v[i]
      ensures FindsElement(v, first + len / 2 + 1, len - len / 2 - 1, i)
    {
      FoundOnItsSide(v, first, len, i);
    }
  }

  lemma IncreasingAround(v: seq<int>, lo: nat, mid: nat, hi: nat)
    requires lo <= mid < hi <= |v|
    requires Increasing(v, lo, mid) && Increasing(v, mid + 1, hi)
    requires forall i :: lo <= i < mid ==> v[i] < v[mid]
    requires forall i :: mid < i < hi ==> v[mid] < v[i]
    ensures Increasing(v, lo, hi)
  {
    forall i, j | lo <= i < j < hi ensures v[i] < v[j] {
      if i < mid && mid < j {
        assert v[i] < v[mid] < v[j];
      }
    }
  }

  /** Without duplicates, a window whose every element is found is in order. */
  lemma {:induction false} FindsOwnElementsIncreasing(v: seq<int>, first: nat, len: nat)
    requires first + len <= |v| && Distinct(v)
    requires FindsOwnElements(v, first, len)
    ensures Increasing(v, first, first + len)
    decreases len
  {
    if 0 < len {
      FoundOnTheirSides(v, first, len);
      FindsOwnElementsIncreasing(v, first, len / 2);
      FindsOwnElementsIncreasing(v, first + len / 2 + 1, len - len / 2 - 1);
      IncreasingAround(v, first, first + len / 2, first + len);
    }
  }

  /** Exactly when the search can be trusted: a vector without duplicates finds all
      of its own elements if and only if it is sorted. */
  lemma FindsAllIffSorted(v: seq<int>)
    requires Distinct(v)
    ensures (forall key :: key in v ==> Found(v, key)) <==> Sorted(v)
  {
    if Sorted(v) {
      forall key | key in v ensures Found(v, key) { SortedFound(v, key); }
    }
    if |v| > 0 && forall key :: key in v ==> Found(v, key) {
      forall i | 0 <= i < |v| ensures FindsElement(v, 0, |v|, i) {
        assert v[i] in v;
        assert Found(v, v[i]);
      }
      FindsOwnElementsIncreasing(v, 0, |v|);
    }
  }

  /** Two unsorted vectors: one misses an element; in the other, which has duplicates,
      every element is found all the same. */
  lemma UnsortedInstances()
    ensures Distinct([2, 1]) && !Sorted([2, 1]) && !Found([2, 1], 2)
    ensures !Distinct([1, 2, 1]) && !Sorted([1, 2, 1]) && forall key :: key in [1, 2, 1] ==> Found([1, 2, 1], key)
  {
    var v := [2, 1];
    assert v[0] == 2 && v[1] == 1;
    assert Probe(v, Searching(0, 2, 2)) == Finished(2, false);
    var d := [1, 2, 1];
    assert d[0] == 1 && d[1] == 2 && d[2] == 1;
    assert Probe(d, Searching(0, 3, 1)) == Searching(0, 1, 1);
    assert Probe(d, Searching(0, 1, 1)) == Finished(1, true);
    assert Probe(d, Searching(0, 3, 2)) == Finished(2, true);
  }

  // ---------- The cost of a lookup ----------

  function Log2(n: nat): (r: nat)
    requires 0 < n
  {
    if n == 1 then 0 else 1 + Log2(n / 2)
  }

  function Pow2(n: nat): (r: nat)
    ensures 0 < r
  {
    if n == 0 then 1 else 2 * Pow2(n - 1)
  }

  /** `Log2` is the logarithm rounded down. */
  lemma {:induction false} Log2IsFloor(n: nat)
    requires 0 < n
    ensures Pow2(Log2(n)) <= n < Pow2(Log2(n) + 1)
  {
    if n != 1 {
      Log2IsFloor(n / 2);
    }
  }

  lemma {:induction false} Log2Monotone(m: nat, n: nat)
    requires 0 < m <= n
    ensures Log2(m) <= Log2(n)
  {
    if m != 1 {
      Log2Monotone(m / 2, n / 2);
    }
  }

  /** A lookup in a window of n elements takes at most floor(log2 n) + 1 comparisons. */
  lemma {:induction false} StepBound(v: seq<int>, l: Lookup)
    requires Fits(v, l) && l.Searching?
    ensures 1 <= Steps(v, l) <= Log2(l.len) + 1
    decreases l.len
  {
    var r := Probe(v, l);
    if r.Searching? {
      StepBound(v, r);
      Log2Monotone(r.len, l.len / 2);
    }
  }

  // ---------- Totals over a list of keys ----------

  function Total(f: int -> nat, keys: seq<int>): nat {
    if keys == [] then 0 else Total(f, keys[..|keys| - 1]) + f(keys[|keys| - 1])
  }

  lemma TotalSnoc(f: int -> nat, keys: seq<int>, key: int)
    ensures Total(f, keys + [key]) == Total(f, keys) + f(key)
  {
    assert (keys + [key])[..|keys|] == keys;
  }

  lemma {:induction false} TotalConcat(f: int -> nat, a: seq<int>, b: seq<int>)
    ensures Total(f, a + b) == Total(f, a) + Total(f, b)
  {
    if b == [] {
      assert a + b == a;
    } else {
      assert (a + b)[..|a + b| - 1] == a + b[..|b| - 1];
      TotalConcat(f, a, b[..|b| - 1]);
    }
  }

  /** A total does not depend on the order of the keys. */
  lemma {:induction false} TotalPermutation(f: int -> nat, a: seq<int>, b: seq<int>)
    requires multiset(a) == multiset(b)
    ensures Total(f, a) == Total(f, b)
    decreases |a|
  {
    if a == [] {
      assert |multiset(b)| == |b|;
      assert |multiset(a)| == 0;
    } else {
      var n := |a| - 1;
      assert a[n] in multiset(a);
      var j :| 0 <= j < |b| && b[j] == a[n];
      assert a == a[..n] + [a[n]];
      assert b == b[..j] + ([b[j]] + b[j + 1..]);
      assert multiset(a) == multiset(a[..n]) + multiset{a[n]};
      assert multiset(b) == multiset(b[..j] + b[j + 1..]) + multiset{b[j]};
      assert multiset(b[..j] + b[j + 1..]) == multiset(a) - multiset{a[n]};
      TotalPermutation(f, a[..n], b[..j] + b[j + 1..]);
      TotalConcat(f, b[..j], b[j + 1..]);
      TotalConcat(f, b[..j], [b[j]] + b[j + 1..]);
      TotalConcat(f, [b[j]], b[j + 1..]);
      assert Total(f, [b[j]]) == f(b[j]) by { assert [b[j]][..0] == []; }
    }
  }

  lemma {:induction false} TotalBound(f: int -> nat, keys: seq<int>, bound: nat)
    requires forall i :: 0 <= i < |keys| ==> f(keys[i]) <= bound
    ensures Total(f, keys) <= |keys| * bound
  {
    if keys == [] {
      assert |keys| * bound == 0;
    } else {
      var n := |keys| - 1;
      TotalBound(f, keys[..n], bound);
      assert Total(f, keys[..n]) <= n * bound;
      assert |keys| * bound == n * bound + bound;
    }
  }

  function HitOf(v: seq<int>): int -> nat {
    key => if Found(v, key) then 1 else 0
  }

  function StepsOf(v: seq<int>): int -> nat {
    key => Steps(v, Begin(v, key))
  }

  /** How many of the keys are found. */
  function Hits(v: seq<int>, keys: seq<int>): nat {
    Total(HitOf(v), keys)
  }

  /** How many comparisons looking up all the keys takes. */
  function Comparisons(v: seq<int>, keys: seq<int>): nat {
    Total(StepsOf(v), keys)
  }

  /** The hits on a sorted vector are the keys that occur in it. */
  lemma {:induction false} SortedHits(v: seq<int>, keys: seq<int>)
    requires Sorted(v)
    ensures Hits(v, keys) == |set i | 0 <= i < |keys| && keys[i] in v|
  {
    var hits := set i | 0 <= i < |keys| && keys[i] in v;
    if keys != [] {
      var n := |keys| - 1;
      var before := set i | 0 <= i < |keys[..n]| && keys[..n][i] in v;
      SortedHits(v, keys[..n]);
      SortedFound(v, keys[n]);
      hide Found, Sorted;
      forall i ensures i in hits <==> i in before || (i == n && keys[n] in v) {
        assert 0 <= i < n ==> keys[..n][i] == keys[i];
      }
      assert hits == before + (if keys[n] in v then {n} else {});
      assert n !in before;
    }
  }

  /** At most |keys| * (floor(log2 n) + 1) comparisons in all. */
  lemma ComparisonsBound(v: seq<int>, keys: seq<int>)
    requires |v| > 0
    ensures Comparisons(v, keys) <= |keys| * (Log2(|v|) + 1)
  {
    forall i | 0 <= i < |keys| ensures StepsOf(v)(keys[i]) <= Log2(|v|) + 1 {
      StepBound(v, Begin(v, keys[i]));
    }
    TotalBound(StepsOf(v), keys, Log2(|v|) + 1);
  }

  // ---------- The plain loop ----------

  /** One iteration of the loop keeps the answer. */
  lemma WindowAnswer(v: seq<int>, first: nat, len: nat, key: int)
    requires first + len <= |v|
    ensures var half := len / 2;
            var middle := first + half;
            Answer(v, Window(first, len, key))
            == if len == 0 then false
               else if v[middle] == key then true
               else if v[middle] < key then Answer(v, Window(middle + 1, len - half - 1, key))
               else Answer(v, Window(first, half, key))
  {
  }

  method NaiveBinarySearch(v: seq<int>, val: int) returns (found: bool)
    ensures found == Found(v, val)
  {
    hide Answer;
    var first: nat, len: nat := 0, |v|;
    while len > 0
      invariant first + len <= |v|
      invariant Found(v, val) == Answer(v, Window(first, len, val))
    {
      var half := len / 2;
      var middle := first + half;
      var middleKey := v[middle];
      WindowAnswer(v, first, len, val);
      if middleKey < val {
        first := middle + 1;
        len := len - half - 1;
      } else {
        len := half;
      }
      if middleKey == val {
        return true;
      }
    }
    WindowAnswer(v, first, len, val);
    return false;
  }

  method TestNaive(v: seq<int>, lookups: seq<int>) returns (found: nat)
    ensures found == Hits(v, lookups)
  {
    found := 0;
    for k := 0 to |lookups|
      invariant found == Hits(v, lookups[..k])
    {
      assert lookups[..k + 1][..k] == lookups[..k];
      var hit := NaiveBinarySearch(v, lookups[k]);
      if hit {
        found := found + 1;
      }
    }
    assert lookups[..|lookups|] == lookups;
  }
}
