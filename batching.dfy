/** The batching policy of the copy loop as a specification: the source's
    documents are cut into consecutive batches of `BULKSIZE`, followed by one
    final batch holding the remainder (possibly none). */
module Batching {
  import opened JavaInt

  /** Number of documents after which the copy loop flushes. */
  const BULKSIZE: nat := 100

  /** Concatenation of a sequence of sequences, in order. */
  function Flatten<T>(xs: seq<seq<T>>): (r: seq<T>) {
    if xs == [] then [] else Flatten(xs[..|xs| - 1]) + xs[|xs| - 1]
  }

  lemma FlattenAppend<T>(xs: seq<seq<T>>, x: seq<T>)
    ensures Flatten(xs + [x]) == Flatten(xs) + x
  {
  }

  lemma {:induction false} FlattenPrepend<T>(x: seq<T>, xs: seq<seq<T>>)
    ensures Flatten([x] + xs) == x + Flatten(xs)
    decreases |xs|
  {
    if xs == [] {
      assert [x] + xs == [] + [x];
      FlattenAppend([], x);
    } else {
      var init, last := xs[..|xs| - 1], xs[|xs| - 1];
      assert xs == init + [last];
      assert [x] + xs == ([x] + init) + [last];
      FlattenAppend([x] + init, last);
      FlattenPrepend(x, init);
      FlattenAppend(init, last);
    }
  }

  /** The batches the copy loop hands to the collection, in order: one per
      `BULKSIZE` documents, then the final, partial one. */
  function Batches<T>(docs: seq<T>): (r: seq<seq<T>>)
    decreases |docs|
  {
    if |docs| < BULKSIZE then [docs]
    else [docs[..BULKSIZE]] + Batches(docs[BULKSIZE..])
  }

  /** `bs` splits `docs` in order into full batches followed by one final
      batch smaller than `BULKSIZE`. */
  ghost predicate IsBatching<T>(bs: seq<seq<T>>, docs: seq<T>) {
    && |bs| >= 1
    && Flatten(bs) == docs
    && (forall k :: 0 <= k < |bs| - 1 ==> |bs[k]| == BULKSIZE)
    && |bs[|bs| - 1]| < BULKSIZE
  }

  /** `Batches` has exactly that shape: the batches, joined, give back the
      documents in order, and only the last one is short. */
  lemma {:induction false} BatchesSplit<T>(docs: seq<T>)
    ensures IsBatching(Batches(docs), docs)
    decreases |docs|
  {
    if |docs| < BULKSIZE {
      assert Batches(docs) == [] + [docs];
      FlattenAppend<T>([], docs);
    } else {
      var rest := docs[BULKSIZE..];
      BatchesSplit(rest);
      FlattenPrepend(docs[..BULKSIZE], Batches(rest));
      assert docs == docs[..BULKSIZE] + rest;
      var bs := Batches(docs);
      forall k | 0 <= k < |bs| - 1 ensures |bs[k]| == BULKSIZE {
        if k > 0 { assert bs[k] == Batches(rest)[k - 1]; }
      }
    }
  }

  /** A batching of the documents is unique: any split of that shape is `Batches(docs)`. */
  lemma {:induction false} BatchingUnique<T>(bs: seq<seq<T>>, docs: seq<T>)
    requires IsBatching(bs, docs)
    ensures bs == Batches(docs)
    decreases |bs|
  {
    if |bs| == 1 {
      assert bs == [] + [bs[0]];
      FlattenAppend<T>([], bs[0]);
      assert docs == bs[0] && |docs| < BULKSIZE;
      assert bs == [docs];
    } else {
      var rest := bs[1..];
      assert bs == [bs[0]] + rest;
      FlattenPrepend(bs[0], rest);
      assert |bs[0]| == BULKSIZE;
      assert docs[..BULKSIZE] == bs[0];
      assert docs[BULKSIZE..] == Flatten(rest);
      forall k | 0 <= k < |rest| - 1 ensures |rest[k]| == BULKSIZE {
        assert rest[k] == bs[k + 1];
      }
      BatchingUnique(rest, docs[BULKSIZE..]);
    }
  }

  /** There are `|docs| / BULKSIZE` full batches and one final batch of
      `|docs| % BULKSIZE` documents. */
  lemma {:induction false} BatchCount<T>(docs: seq<T>)
    ensures |Batches(docs)| == |docs| / BULKSIZE + 1
    ensures |Batches(docs)[|docs| / BULKSIZE]| == |docs| % BULKSIZE
    decreases |docs|
  {
    if |docs| >= BULKSIZE {
      var rest := docs[BULKSIZE..];
      BatchCount(rest);
      assert |rest| / BULKSIZE + 1 == |docs| / BULKSIZE;
      assert |rest| % BULKSIZE == |docs| % BULKSIZE;
    }
  }

  /** The program's `int` counter after `n` documents: `n` increments from
      0, wrapping past the largest `int`. */
  function Counter(n: nat): (r: int32)
    decreases n
  {
    if n == 0 then 0 else Inc(Counter(n - 1))
  }

  /** The number of periodic flushes during the first `n` documents: the
      increments after which the counter's remainder by `BULKSIZE` is 0. */
  function Ticks(n: nat): (r: nat)
    decreases n
  {
    if n == 0 then 0
    else Ticks(n - 1) + (if Rem(Counter(n) as int, BULKSIZE) == 0 then 1 else 0)
  }

  /** Below the wrap-around, the counter is the number of documents. */
  lemma {:induction false} CounterBelowWrap(n: nat)
    requires n <= INT_MAX
    ensures Counter(n) as int == n
    decreases n
  {
    if n > 0 { CounterBelowWrap(n - 1); }
  }

  /** Below the wrap-around, there is one periodic flush per `BULKSIZE` documents. */
  lemma {:induction false} TicksBelowWrap(n: nat)
    requires n <= INT_MAX
    ensures Ticks(n) == n / BULKSIZE
    decreases n
  {
    if n > 0 {
      TicksBelowWrap(n - 1);
      CounterBelowWrap(n);
    }
  }

  /** The document after the `INT_MAX`-th leaves the counter at `INT_MIN`,
      whose remainder by `BULKSIZE` is -48, so the flush phase shifts. */
  lemma CounterWraps()
    ensures Counter(INT_MAX + 1) as int == INT_MIN
    ensures Rem(Counter(INT_MAX + 1) as int, BULKSIZE) == -48
  {
    CounterBelowWrap(INT_MAX);
  }

  /** The number of documents written since the last periodic flush (or
      since the start), after `n` documents: what the buffer holds. */
  function Since(n: nat): (r: nat)
    decreases n
  {
    if n == 0 then 0
    else if Rem(Counter(n) as int, BULKSIZE) == 0 then 0
    else Since(n - 1) + 1
  }

  /** The last counter value at which the loop flushed before reaching
      `INT_MIN + 48` is 2147483600, before the wrap-around. */
  const LAST_TICK_BEFORE_WRAP: int := 2147483600

  /** `Since` as a function of the counter: the distance back to the last
      multiple of `BULKSIZE` the counter passed, counted across the
      wrap-around for the counter values just after it. */
  function Phase(c: int32): (r: nat)
    ensures r < BULKSIZE
  {
    if c as int < -LAST_TICK_BEFORE_WRAP then c as int - INT_MIN + (INT_MAX - LAST_TICK_BEFORE_WRAP) + 1
    else c as int % BULKSIZE
  }

  /** One increment that does not wrap: the phase restarts at 0 exactly
      when the new counter's remainder by `BULKSIZE` is 0, and grows by one
      otherwise. */
  lemma PhaseStep(c: int32)
    requires c as int < INT_MAX
    ensures Phase((c as int + 1) as int32)
      == if Rem(c as int + 1, BULKSIZE) == 0 then 0 else Phase(c) + 1
  {
    var c' := c as int + 1;
    if c' >= 0 {
      assert Rem(c', BULKSIZE) == c' % BULKSIZE;
    } else if c' < -LAST_TICK_BEFORE_WRAP {
      assert LAST_TICK_BEFORE_WRAP < -c' < INT_MAX + 1;
      assert Rem(c', BULKSIZE) != 0;
    } else {
      assert Rem(c', BULKSIZE) == 0 <==> c' % BULKSIZE == 0;
      if c' % BULKSIZE != 0 {
        assert c' != -LAST_TICK_BEFORE_WRAP;
        assert c' % BULKSIZE == (c as int) % BULKSIZE + 1;
      }
    }
  }

  /** The wrapping increment: `INT_MIN` is not a multiple of `BULKSIZE`, so the
      phase goes on growing from the one at `INT_MAX`. */
  lemma PhaseWrap()
    ensures Rem(INT_MIN, BULKSIZE) != 0
    ensures Phase(INT_MIN as int32) == Phase(INT_MAX as int32) + 1
  {
  }

  lemma {:induction false} SinceIsPhase(n: nat)
    ensures Since(n) == Phase(Counter(n))
    decreases n
  {
    if n > 0 {
      SinceIsPhase(n - 1);
      var c := Counter(n - 1);
      if c as int == INT_MAX {
        PhaseWrap();
      } else {
        PhaseStep(c);
      }
    }
  }

  /** The buffer never holds `BULKSIZE` documents at the head of an
      iteration, wrap-around included. */
  lemma SinceBound(n: nat)
    ensures Since(n) < BULKSIZE
  {
    SinceIsPhase(n);
  }

  /** Below the wrap-around, the buffer holds `n % BULKSIZE` documents. */
  lemma SinceBelowWrap(n: nat)
    requires n <= INT_MAX
    ensures Since(n) == n % BULKSIZE
  {
    SinceIsPhase(n);
    CounterBelowWrap(n);
  }

  /** The size of the one batch whose flush comes first after the
      wrap-around, at counter value `-LAST_TICK_BEFORE_WRAP`: the 47 documents
      counted 2147483601 to `INT_MAX` and the 49 counted `INT_MIN` to
      -2147483600. */
  const WRAP_BATCH: nat := 96

  /** A counter value whose non-wrapping increment is a multiple of
      `BULKSIZE` has phase `BULKSIZE - 1`, except the value just below the
      first such multiple after the wrap-around. */
  lemma TickPhase(c: int32)
    requires c as int < INT_MAX && Rem(c as int + 1, BULKSIZE) == 0
    ensures Phase(c) + 1
      == if c as int + 1 == -LAST_TICK_BEFORE_WRAP then WRAP_BATCH else BULKSIZE
  {
    var d := c as int + 1;
    if d != -LAST_TICK_BEFORE_WRAP {
      assert d % BULKSIZE == 0;
      var q := d / BULKSIZE;
      assert d == BULKSIZE * q;
      assert d > -LAST_TICK_BEFORE_WRAP;
      assert (c as int) % BULKSIZE == BULKSIZE - 1;
    }
  }

  /** The batch an in-loop flush hands over after `n` documents holds the
      `Since(n - 1)` documents staged before plus the `n`-th: `BULKSIZE` of
      them at every flush except the first one after the wrap-around. */
  lemma TickBatchSize(n: nat)
    requires n > 0 && Rem(Counter(n) as int, BULKSIZE) == 0
    ensures Since(n - 1) + 1
      == if Counter(n) as int == -LAST_TICK_BEFORE_WRAP then WRAP_BATCH else BULKSIZE
  {
    SinceIsPhase(n - 1);
    PhaseWrap();
    var c := Counter(n - 1);
    assert c as int != INT_MAX;
    TickPhase(c);
  }

  /** No more documents are staged than were written. */
  lemma {:induction false} SinceAtMost(n: nat)
    ensures Since(n) <= n
    decreases n
  {
    if n > 0 { SinceAtMost(n - 1); }
  }

  /** The documents staged in the buffer after `docs` have gone through the
      loop: the last `Since(|docs|)` of them. */
  function Pending<T>(docs: seq<T>): (r: seq<T>)
    ensures |r| == Since(|docs|) <= |docs| && forall j :: 0 <= j < |r| ==> r[j] == docs[|docs| - |r| + j]
  {
    SinceAtMost(|docs|);
    docs[|docs| - Since(|docs|)..]
  }

  /** The batches the copy loop's in-loop flushes hand over for `docs`, in
      order, for any number of documents: whenever the counter's remainder
      by `BULKSIZE` is 0 after a document, the staged documents and that one. */
  function LoopBatches<T>(docs: seq<T>): (r: seq<seq<T>>)
    decreases |docs|
  {
    if docs == [] then []
    else
      var prev := docs[..|docs| - 1];
      if Rem(Counter(|docs|) as int, BULKSIZE) == 0
      then LoopBatches(prev) + [Pending(prev) + [docs[|docs| - 1]]]
      else LoopBatches(prev)
  }

  lemma SuffixGrows<T>(prev: seq<T>, last: T, k: nat)
    requires k <= |prev|
    ensures (prev + [last])[|prev| - k..] == prev[|prev| - k..] + [last]
  {
  }

  /** One document more without a flush: the buffer gains the document at
      its end. */
  lemma PendingGrows<T>(prev: seq<T>, last: T)
    requires Since(|prev| + 1) == Since(|prev|) + 1
    ensures Pending(prev + [last]) == Pending(prev) + [last]
  {
    SinceAtMost(|prev|);
    SuffixGrows(prev, last, Since(|prev|));
  }

  /** The in-loop batches, joined, followed by the staged documents, are the
      documents in order: the loop loses, duplicates or reorders nothing. */
  lemma {:induction false} LoopBatchesJoin<T>(docs: seq<T>)
    ensures Flatten(LoopBatches(docs)) + Pending(docs) == docs
    decreases |docs|
  {
    if docs != [] {
      var prev, last := docs[..|docs| - 1], docs[|docs| - 1];
      assert docs == prev + [last];
      LoopBatchesJoin(prev);
      if Rem(Counter(|docs|) as int, BULKSIZE) == 0 {
        FlattenAppend(LoopBatches(prev), Pending(prev) + [last]);
      } else {
        PendingGrows(prev, last);
      }
    }
  }

  /** Every in-loop batch holds `BULKSIZE` documents, except those flushed
      first after a wrap-around, which hold `WRAP_BATCH`. */
  lemma {:induction false} LoopBatchSizes<T>(docs: seq<T>)
    ensures forall j :: 0 <= j < |LoopBatches(docs)| ==>
      |LoopBatches(docs)[j]| == BULKSIZE || |LoopBatches(docs)[j]| == WRAP_BATCH
    decreases |docs|
  {
    if docs != [] {
      var n, prev := |docs|, docs[..|docs| - 1];
      LoopBatchSizes(prev);
      if Rem(Counter(n) as int, BULKSIZE) == 0 {
        TickBatchSize(n);
        assert |prev| == n - 1;
      }
    }
  }

  /** One document of the copy loop: the buffer had room for it, and below
      the wrap-around a periodic flush after it finds the buffer full. */
  lemma FlushStep(k: nat)
    ensures Since(k) < BULKSIZE
    ensures k < INT_MAX && Rem(Counter(k + 1) as int, BULKSIZE) == 0 ==> Since(k) == BULKSIZE - 1
  {
    SinceBound(k);
    if k < INT_MAX {
      SinceBelowWrap(k);
      CounterBelowWrap(k + 1);
    }
  }

  /** Every batch in `bs` holds at most `BULKSIZE` documents. */
  ghost predicate AtMostFull<T>(bs: seq<seq<T>>) {
    forall j :: 0 <= j < |bs| ==> |bs[j]| <= BULKSIZE
  }

  lemma AtMostFullAppend<T>(bs: seq<seq<T>>, b: seq<T>)
    requires AtMostFull(bs) && |b| <= BULKSIZE
    ensures AtMostFull(bs + [b])
  {
    assert forall j :: 0 <= j < |bs| ==> (bs + [b])[j] == bs[j];
  }

  /** Every batch in `bs` holds exactly `BULKSIZE` documents. */
  ghost predicate AllFull<T>(bs: seq<seq<T>>) {
    forall j :: 0 <= j < |bs| ==> |bs[j]| == BULKSIZE
  }

  lemma AllFullAppend<T>(bs: seq<seq<T>>, b: seq<T>)
    requires AllFull(bs) && |b| == BULKSIZE
    ensures AllFull(bs + [b])
  {
    assert forall j :: 0 <= j < |bs| ==> (bs + [b])[j] == bs[j];
  }

  /** The copy loop's end state below the wrap-around: full batches, then a
      buffer of the last `|docs| % BULKSIZE` documents, together in order,
      make up `Batches(docs)` once the buffer is flushed as well. */
  lemma FinalFlush<T>(bs: seq<seq<T>>, buffer: seq<T>, docs: seq<T>)
    requires AllFull(bs) && Flatten(bs) + buffer == docs
    requires |buffer| == |docs| % BULKSIZE
    ensures bs + [buffer] == Batches(docs)
  {
    FlattenAppend(bs, buffer);
    assert IsBatching(bs + [buffer], docs) by {
      forall j | 0 <= j < |bs + [buffer]| - 1 ensures |(bs + [buffer])[j]| == BULKSIZE {
        assert (bs + [buffer])[j] == bs[j];
      }
    }
    BatchingUnique(bs + [buffer], docs);
  }
}
