/**
 * `get_batches_from_generator`: split a list into consecutive chunks of at
 * most `n` elements, the way repeated `tuple(islice(it, n))` calls do.
 */
module Batching {
  import opened StoreErrors
  import opened Sequences

  /**
   * The chunks the generator yields for a non-negative `n`. With `n == 0`
   * every `islice(it, 0)` is empty, so nothing is yielded at all.
   */
  function Batches<T>(s: seq<T>, n: nat): seq<seq<T>>
    decreases |s|
  {
    if n == 0 || s == [] then []
    else if |s| <= n then [s]
    else [s[..n]] + Batches(s[n..], n)
  }

  /** Nothing is yielded exactly when the input is empty or `n` is zero. */
  lemma BatchesEmpty<T>(s: seq<T>, n: nat)
    ensures Batches(s, n) == [] <==> (s == [] || n == 0)
  {
  }

  /**
   * Every batch is non-empty and holds at most `n` elements; all but the
   * last hold exactly `n`.
   */
  lemma {:induction false} BatchesShape<T>(s: seq<T>, n: nat)
    ensures forall k :: 0 <= k < |Batches(s, n)| ==> 0 < |Batches(s, n)[k]| <= n
    ensures forall k :: 0 <= k < |Batches(s, n)| - 1 ==> |Batches(s, n)[k]| == n
    decreases |s|
  {
    if n > 0 && |s| > n {
      BatchesShape(s[n..], n);
      var rest := Batches(s[n..], n);
      var r := Batches(s, n);
      assert r == [s[..n]] + rest;
      forall k | 0 <= k < |r|
        ensures 0 < |r[k]| <= n
        ensures k < |r| - 1 ==> |r[k]| == n
      {
        if k > 0 {
          assert r[k] == rest[k - 1];
        }
      }
    }
  }

  /** Concatenating the batches gives back the input, in order. */
  lemma {:induction false} BatchesFlatten<T>(s: seq<T>, n: nat)
    requires n > 0
    ensures Flatten(Batches(s, n)) == s
    decreases |s|
  {
    if s == [] {
    } else if |s| <= n {
      assert Flatten([s]) == s + Flatten([s][1..]);
    } else {
      BatchesFlatten(s[n..], n);
      assert ([s[..n]] + Batches(s[n..], n))[1..] == Batches(s[n..], n);
      assert s == s[..n] + s[n..];
    }
  }

  /** Every element sits in some batch and every batch holds input elements. */
  lemma BatchesCover<T>(s: seq<T>, n: nat, x: T)
    requires n > 0
    ensures x in s <==> exists k :: 0 <= k < |Batches(s, n)| && x in Batches(s, n)[k]
  {
    BatchesFlatten(s, n);
    FlattenMembership(Batches(s, n), x);
  }

  /** `sys.maxsize` on a 64-bit CPython: the largest stop `islice` accepts. */
  const SYS_MAXSIZE: int := 0x7FFF_FFFF_FFFF_FFFF

  /** A stop `islice` accepts: an integer from 0 to `sys.maxsize`. */
  predicate IsIsliceStop(n: int) {
    0 <= n <= SYS_MAXSIZE
  }

  function Min(a: int, b: int): int {
    if a <= b then a else b
  }

  /** One round of the generator: the first chunk of what is left, then the rest. */
  lemma BatchesStep<T>(s: seq<T>, it: nat, n: nat)
    requires it < |s| && n > 0
    ensures Batches(s[it..], n) == [s[it..Min(it + n, |s|)]] + Batches(s[Min(it + n, |s|)..], n)
  {
    var rest := s[it..];
    if |rest| > n {
      assert rest[..n] == s[it..it + n];
      assert rest[n..] == s[it + n..];
    } else {
      assert s[it..Min(it + n, |s|)] == rest;
      assert s[Min(it + n, |s|)..] == [];
    }
  }

  /**
   * The generator itself: `it` is the position reached in `iterable`, and
   * each round takes the next (at most) `n` elements; the loop stops at the
   * first empty chunk. A negative `n`, or one above `sys.maxsize`, makes
   * `islice` raise ValueError.
   */
  method GetBatchesFromGenerator<T>(iterable: seq<T>, n: int) returns (r: Result<seq<seq<T>>>)
    ensures !IsIsliceStop(n) ==> r == Err(ValueError(InvalidIsliceStop))
    ensures IsIsliceStop(n) ==> r == Ok(Batches(iterable, n))
  {
    if !IsIsliceStop(n) {
      return Err(ValueError(InvalidIsliceStop));
    }
    var size: nat := n;
    var batches: seq<seq<T>> := [];
    var it := 0;
    var x := iterable[it..Min(it + size, |iterable|)];
    while |x| > 0
      invariant 0 <= it <= |iterable|
      invariant x == iterable[it..Min(it + size, |iterable|)]
      invariant batches + Batches(iterable[it..], size) == Batches(iterable, size)
      decreases |iterable| - it
    {
      BatchesStep(iterable, it, size);
      ghost var next := Min(it + size, |iterable|);
      assert it + |x| == next;
      assert (batches + [x]) + Batches(iterable[next..], size) == batches + Batches(iterable[it..], size);
      batches := batches + [x];
      it := it + |x|;
      x := iterable[it..Min(it + size, |iterable|)];
    }
    assert iterable[it..] == [] || size == 0;
    assert Batches(iterable[it..], size) == [];
    assert batches + [] == batches;
    return Ok(batches);
  }
}
