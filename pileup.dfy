/** The pileup list of a per-file request: repeated until it has an entry
    for every input file, then shuffled in place. */
module Pileup {
  import opened Basics

  /** `s * k` */
  function Repeat<T>(s: seq<T>, k: nat): (r: seq<T>)
    ensures |r| == k * |s|
  {
    if k == 0 then [] else Repeat(s, k - 1) + s
  }

  /** Entry r of block q of the repetition is entry r of the list. */
  lemma {:induction false} RepeatBlock<T>(s: seq<T>, k: nat, q: nat, r: nat)
    requires q < k && r < |s|
    ensures q * |s| + r < k * |s| && Repeat(s, k)[q * |s| + r] == s[r]
  {
    var prev := Repeat(s, k - 1);
    assert k * |s| == (k - 1) * |s| + |s|;
    if q < k - 1 {
      RepeatBlock(s, k - 1, q, r);
    } else {
      assert q * |s| + r == |prev| + r;
    }
  }

  /** Every entry of the list occurs k times in the repetition. */
  lemma {:induction false} RepeatCount<T>(s: seq<T>, k: nat, x: T)
    ensures multiset(Repeat(s, k))[x] == k * multiset(s)[x]
  {
    if k > 0 {
      RepeatCount(s, k - 1, x);
      assert multiset(Repeat(s, k)) == multiset(Repeat(s, k - 1)) + multiset(s);
      assert k * multiset(s)[x] == (k - 1) * multiset(s)[x] + multiset(s)[x];
    }
  }

  lemma {:induction false} CoverBound(n: nat, m: nat)
    requires m > 0
    ensures n < m * (n / m + 1)
  {
    var q := n / m;
    assert n == m * q + n % m;
    assert m * (q + 1) == m * q + m;
  }

  /** `if len(pileup) < n: pileup *= n // len(pileup) + 1`, which divides by
      zero when the pileup dataset is empty and there are input files. */
  function Extend<T>(p: seq<T>, n: nat): (r: Result<seq<T>>)
    ensures r.Err? <==> p == [] && n > 0
    ensures r.Ok? ==> n <= |r.value|
  {
    if |p| < n then
      if p == [] then Err(EmptyPileup)
      else
        CoverBound(n, |p|);
        Ok(Repeat(p, n / |p| + 1))
    else Ok(p)
  }

  /** A pileup list that is long enough is used as it is; a shorter one is
      repeated `n // |p| + 1` times, each file as often as the others. */
  lemma {:induction false} ExtendContents<T>(p: seq<T>, n: nat, x: T)
    requires Extend(p, n).Ok?
    ensures |p| >= n ==> Extend(p, n).value == p
    ensures |p| < n ==> Extend(p, n).value == Repeat(p, n / |p| + 1)
    ensures |p| < n ==> |Extend(p, n).value| == |p| * (n / |p| + 1)
    ensures |p| < n ==> multiset(Extend(p, n).value)[x] == (n / |p| + 1) * multiset(p)[x]
  {
    if |p| < n {
      var k := n / |p| + 1;
      assert Extend(p, n).value == Repeat(p, k);
      assert |Repeat(p, k)| == k * |p| == |p| * k;
      RepeatCount(p, k, x);
    }
  }

  /** `randbelow(bound)` as the k-th of a stream of draws: any natural number,
      reduced below the bound; 0 once the stream is exhausted. */
  function Draw(picks: seq<nat>, k: nat, bound: nat): (j: nat)
    requires bound > 0
    ensures j < bound
  {
    (if k < |picks| then picks[k] else 0) % bound
  }

  function Swap<T>(s: seq<T>, i: nat, j: nat): (r: seq<T>)
    requires i < |s| && j < |s|
    ensures |r| == |s|
  {
    s[i := s[j]][j := s[i]]
  }

  /** The remaining steps of `random.shuffle`: positions top, top-1, ..., 1
      are each swapped with one drawn below or at them. */
  function ShuffleDown<T>(s: seq<T>, top: nat, picks: seq<nat>): (r: seq<T>)
    requires top < |s|
    ensures |r| == |s|
    decreases top
  {
    if top == 0 then s
    else ShuffleDown(Swap(s, top, Draw(picks, |s| - 1 - top, top + 1)), top - 1, picks)
  }

  /** `random.shuffle(s)` driven by the given draws. */
  function Shuffled<T>(s: seq<T>, picks: seq<nat>): (r: seq<T>)
    ensures |r| == |s|
  {
    if |s| <= 1 then s else ShuffleDown(s, |s| - 1, picks)
  }

  /** The in-place Fisher-Yates shuffle of the pileup list. */
  method Shuffle<T>(a: array<T>, picks: seq<nat>)
    modifies a
    ensures a[..] == Shuffled(old(a[..]), picks)
  {
    if a.Length <= 1 {
      return;
    }
    var i := a.Length - 1;
    while i > 0
      invariant 0 <= i < a.Length
      invariant ShuffleDown(a[..], i, picks) == Shuffled(old(a[..]), picks)
    {
      var j := Draw(picks, a.Length - 1 - i, i + 1);
      ghost var before := a[..];
      a[i], a[j] := a[j], a[i];
      assert a[..] == Swap(before, i, j);
      i := i - 1;
    }
  }

  lemma {:induction false} SwapPermutes<T>(s: seq<T>, i: nat, j: nat)
    requires i < |s| && j < |s|
    ensures multiset(Swap(s, i, j)) == multiset(s)
  {
    var t := s[i := s[j]];
    assert multiset(t) == multiset(s) - multiset{s[i]} + multiset{s[j]};
    assert t[i] == s[j];
    assert multiset(t[j := s[i]]) == multiset(t) - multiset{t[j]} + multiset{s[i]};
  }

  lemma {:induction false} ShuffleDownPermutes<T>(s: seq<T>, top: nat, picks: seq<nat>)
    requires top < |s|
    ensures multiset(ShuffleDown(s, top, picks)) == multiset(s)
    decreases top
  {
    if top > 0 {
      var j := Draw(picks, |s| - 1 - top, top + 1);
      SwapPermutes(s, top, j);
      ShuffleDownPermutes(Swap(s, top, j), top - 1, picks);
    }
  }

  /** Whatever the draws, the shuffle is a permutation of the list. */
  lemma {:induction false} ShufflePermutes<T>(s: seq<T>, picks: seq<nat>)
    ensures multiset(Shuffled(s, picks)) == multiset(s)
  {
    if |s| > 1 {
      ShuffleDownPermutes(s, |s| - 1, picks);
    }
  }
}
