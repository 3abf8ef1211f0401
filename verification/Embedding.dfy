/** Embedding texts in chunks, with one retry budget for all chunks of a batch. */
module Embedding {
  import opened Options
  import D = Distinct

  type Vector = seq<real>

  datatype Datum = Datum(index: Option<int>, embedding: Vector)

  /** What one provider call comes to, as the retry loop sees it. */
  datatype Answer = Data(data: seq<Datum>) | Failed(transient: bool) | Cancelled

  // ----- Placing the vectors of one response

  predicate HasIndexes(data: seq<Datum>) {
    exists d :: d in data && d.index.Some?
  }

  function Slot(data: seq<Datum>, i: nat): int
    requires i < |data|
  {
    if !HasIndexes(data) then i else if data[i].index.Some? then data[i].index.value else -1
  }

  function Slots(data: seq<Datum>): (r: seq<int>)
    ensures |r| == |data| && forall i :: 0 <= i < |data| ==> r[i] == Slot(data, i)
  {
    seq(|data|, i requires 0 <= i < |data| => Slot(data, i))
  }

  /** One vector of the right size for each text; given indexes are a permutation of the text positions. */
  ghost predicate GoodResponse(n: nat, dimensions: nat, data: seq<Datum>) {
    && |data| == n && (forall i :: 0 <= i < n ==> |data[i].embedding| == dimensions)
    && (forall i :: 0 <= i < n ==> 0 <= Slot(data, i) < n) && D.NoRepeats(Slots(data))
  }

  method PlaceVectors(n: nat, dimensions: nat, data: seq<Datum>) returns (ok: bool, result: seq<Vector>)
    ensures ok <==> GoodResponse(n, dimensions, data)
    ensures ok ==> |result| == n && forall i :: 0 <= i < n ==> result[Slot(data, i)] == data[i].embedding
  {
    hide HasIndexes, Slot, D.NoRepeats;
    if |data| != n {
      return false, [];
    }
    var hasIndexes := HasIndexes(data);
    SlotsExactly(data);
    var slots := new Vector[n](_ => []);
    var seen := new bool[n](_ => false);
    ghost var places := Slots(data);
    ghost var filledBy: map<int, int> := map[];
    for i := 0 to n
      invariant forall k :: 0 <= k < i ==> |data[k].embedding| == dimensions && 0 <= places[k] < n
      invariant forall k :: 0 <= k < i ==> slots[places[k]] == data[k].embedding
      invariant forall k :: 0 <= k < i ==> places[k] in filledBy && filledBy[places[k]] == k
      invariant forall x :: x in filledBy ==> 0 <= filledBy[x] < i && places[filledBy[x]] == x
      invariant hasIndexes ==> forall x :: 0 <= x < n ==> (seen[x] <==> x in filledBy)
    {
      if |data[i].embedding| != dimensions {
        return false, [];
      }
      var outputIndex: int := i;
      if hasIndexes {
        var index := data[i].index;
        if index.None? || index.value < 0 || index.value >= n || seen[index.value] {
          if index.Some? && 0 <= index.value < n {
            RepeatedPlace(places, filledBy[index.value], i);
          }
          return false, [];
        }
        outputIndex := index.value;
        seen[outputIndex] := true;
      }
      slots[outputIndex] := data[i].embedding;
      filledBy := filledBy[outputIndex := i];
    }
    result := slots[..];
    ok := true;
    DistinctPlaces(places, filledBy);
  }

  lemma {:induction false} RepeatedPlace(places: seq<int>, j: nat, i: nat)
    requires j < i < |places| && places[j] == places[i]
    ensures !D.NoRepeats(places)
  {
  }

  lemma {:induction false} DistinctPlaces(places: seq<int>, filledBy: map<int, int>)
    requires forall k :: 0 <= k < |places| ==> places[k] in filledBy && filledBy[places[k]] == k
    ensures D.NoRepeats(places)
  {
  }

  lemma {:induction false} SlotsExactly(data: seq<Datum>)
    ensures !HasIndexes(data) ==> forall i :: 0 <= i < |data| ==> Slot(data, i) == i
    ensures HasIndexes(data) ==>
              forall i :: 0 <= i < |data| ==> Slot(data, i) == (if data[i].index.Some? then data[i].index.value else -1)
  {
    hide HasIndexes;
  }

  lemma {:induction false} BoundedSet(s: set<int>, n: nat)
    requires forall x :: x in s ==> 0 <= x < n
    ensures |s| <= n && (|s| == n ==> forall x :: 0 <= x < n ==> x in s)
  {
    if n == 0 {
      assert forall x :: x !in s;
    } else {
      BoundedSet(s - {n - 1}, n - 1);
      if |s| == n {
        assert n - 1 in s;
      }
    }
  }

  /** A good response fills every slot, each exactly once. */
  lemma {:induction false} EverySlotFilledOnce(n: nat, dimensions: nat, data: seq<Datum>, x: nat) returns (i: nat)
    requires GoodResponse(n, dimensions, data) && x < n
    ensures i < n && Slot(data, i) == x && forall k :: 0 <= k < n && Slot(data, k) == x ==> k == i
  {
    hide HasIndexes, Slot;
    var slots := Slots(data);
    D.NoRepeatsSize(slots);
    BoundedSet(D.Members(slots), n);
    assert x in D.Members(slots);
    i :| 0 <= i < n && slots[i] == x;
  }

  /** The provider labels each vector with the position of its text, or returns them in order. */
  ghost predicate Honest(vector: string -> Vector, texts: seq<string>, data: seq<Datum>) {
    && (!HasIndexes(data) && |data| == |texts| ==> forall i :: 0 <= i < |data| ==>
        data[i].embedding == vector(texts[i]))
    && (forall d :: d in data && d.index.Some? && 0 <= d.index.value < |texts| ==>
        d.embedding == vector(texts[d.index.value]))
  }

  /** Result i is the vector of text i. */
  ghost predicate InOrder(vector: string -> Vector, texts: seq<string>, result: seq<Vector>) {
    |result| == |texts| && forall i :: 0 <= i < |texts| ==> result[i] == vector(texts[i])
  }

  lemma {:induction false} PlacedInOrder(vector: string -> Vector, texts: seq<string>, dimensions: nat,
                                         data: seq<Datum>, result: seq<Vector>)
    requires Honest(vector, texts, data) && GoodResponse(|texts|, dimensions, data) && |result| == |texts|
    requires forall i :: 0 <= i < |data| ==> result[Slot(data, i)] == data[i].embedding
    ensures InOrder(vector, texts, result)
  {
    forall x: nat | x < |texts|
      ensures result[x] == vector(texts[x])
    {
      var i := EverySlotFilledOnce(|texts|, dimensions, data, x);
      assert data[i] in data;
    }
  }

  // ----- Chunks and retries

  /** Calls without any retry: one for each chunk, and one for an empty batch. */
  function Chunks(n: nat, b: nat): nat
    requires b > 0
  {
    if n <= b then 1 else 1 + Chunks(n - b, b)
  }

  /** The number of chunks is the quotient rounded up. */
  lemma {:induction false} ChunksRoundUp(n: nat, b: nat)
    requires b > 0
    ensures Chunks(n, b) == if n == 0 then 1 else (n + b - 1) / b
    decreases n
  {
    if n > b {
      ChunksRoundUp(n - b, b);
      DivideLess(n - 1, b);
      assert n - b + b - 1 == n - 1 && (n + b - 1) - b == n - 1;
      DivideLess(n + b - 1, b);
    } else if n > 0 {
      Quotient(n + b - 1, b, 1, n - 1);
    }
  }

  lemma {:induction false} Quotient(x: nat, b: nat, q: nat, r: nat)
    requires b > 0 && x == q * b + r && r < b
    ensures x / b == q
  {
    var d, m := x / b, x % b;
    assert x == d * b + m;
    assert (d - q) * b == r - m;
    SmallMultiple(d - q, b);
  }

  lemma {:induction false} SmallMultiple(k: int, b: int)
    requires b > 0 && -b < k * b < b
    ensures k == 0
  {
  }

  lemma {:induction false} DivideLess(x: nat, b: nat)
    requires b > 0 && x >= b
    ensures x / b == (x - b) / b + 1
  {
    var q, r := (x - b) / b, (x - b) % b;
    assert x == (q + 1) * b + r by { assert x - b == q * b + r; }
    Quotient(x, b, q + 1, r);
  }

  class RetryProvider {
    const maxBatchItems: nat
    const maxRetries: nat
    const dimensions: nat
    ghost const vector: string -> Vector
    /** The provider and the caller's context as an oracle: the answer to each call, and whether to stop before it. */
    const answers: (nat, seq<string>) -> Answer
    const stopped: nat -> bool
    var calls: nat
    var sent: nat
    var retries: nat

    ghost predicate Valid()
      reads this
    {
      && maxBatchItems > 0
      && forall n, texts :: answers(n, texts).Data? ==> Honest(vector, texts, answers(n, texts).data)
    }

    constructor (maxBatchItems: nat, maxRetries: nat, dimensions: nat, ghost vector: string -> Vector,
                 answers: (nat, seq<string>) -> Answer, stopped: nat -> bool)
      requires maxBatchItems > 0
      requires forall n, texts :: answers(n, texts).Data? ==> Honest(vector, texts, answers(n, texts).data)
      ensures Valid() && calls == 0 && sent == 0
    {
      this.maxBatchItems, this.maxRetries, this.dimensions, this.vector := maxBatchItems, maxRetries, dimensions,
          vector;
      this.answers, this.stopped := answers, stopped;
      calls, sent, retries := 0, 0, 0;
    }

    /** One provider call. */
    method Call(texts: seq<string>) returns (answer: Answer, vectors: seq<Vector>)
      requires Valid()
      modifies this`calls, this`sent
      ensures calls == old(calls) + 1 && sent == old(sent) + |texts|
      ensures answer.Data? ==> InOrder(vector, texts, vectors)
      ensures var given := answers(old(calls), texts);
              answer == if given.Data? && !GoodResponse(|texts|, dimensions, given.data) then Failed(false) else given
    {
      answer, vectors := answers(calls, texts), [];
      calls, sent := calls + 1, sent + |texts|;
      if answer.Data? {
        var ok, placed := PlaceVectors(|texts|, dimensions, answer.data);
        if ok {
          PlacedInOrder(vector, texts, dimensions, answer.data, placed);
          vectors := placed;
        } else {
          answer := Failed(false);
        }
      }
    }

    /** Call n sends the chunk and gets its vectors. */
    ghost predicate Answered(n: nat, chunk: seq<string>) {
      !stopped(n) && answers(n, chunk).Data? && GoodResponse(|chunk|, dimensions, answers(n, chunk).data)
    }

    /** Call n sends the chunk and fails for now. */
    predicate Retried(n: nat, chunk: seq<string>) {
      !stopped(n) && answers(n, chunk) == Failed(true)
    }

    /** From call n on, the chunk gets its vectors after k transient failures. */
    ghost predicate AnsweredAfter(n: nat, chunk: seq<string>, k: nat) {
      Answered(n + k, chunk) && forall m: nat :: n <= m < n + k ==> Retried(m, chunk)
    }

    /** From call n on, every chunk in turn gets its vectors, with no more transient failures in all than the budget. */
    ghost predicate Served(texts: seq<string>, n: nat, budget: nat)
      requires maxBatchItems > 0
      decreases |texts|
    {
      exists k: nat :: k <= budget && ServedWith(texts, n, budget, k)
    }

    ghost predicate ServedWith(texts: seq<string>, n: nat, budget: nat, k: nat)
      requires maxBatchItems > 0 && k <= budget
      decreases |texts|, 0
    {
      if |texts| <= maxBatchItems then AnsweredAfter(n, texts, k)
      else AnsweredAfter(n, texts[..maxBatchItems], k) && Served(texts[maxBatchItems..], n + k + 1, budget - k)
    }

    lemma {:induction false} AnsweredOnce(n: nat, chunk: seq<string>, k: nat, l: nat)
      requires AnsweredAfter(n, chunk, k) && AnsweredAfter(n, chunk, l)
      ensures k == l
    {
      assert !Retried(n + k, chunk) && !Retried(n + l, chunk);
    }

    /** Whether the rest is served is settled by how the first chunk is. */
    lemma {:induction false} FirstChunk(texts: seq<string>, n: nat, budget: nat, k: nat)
      requires maxBatchItems > 0 && |texts| > maxBatchItems && k <= budget
      requires AnsweredAfter(n, texts[..maxBatchItems], k)
      ensures Served(texts, n, budget) <==> Served(texts[maxBatchItems..], n + k + 1, budget - k)
    {
      hide AnsweredAfter;
      if l: nat :| l <= budget && ServedWith(texts, n, budget, l) {
        AnsweredOnce(n, texts[..maxBatchItems], k, l);
      }
      if Served(texts[maxBatchItems..], n + k + 1, budget - k) {
        assert ServedWith(texts, n, budget, k);
      }
    }

    lemma {:induction false} OneChunk(texts: seq<string>, n: nat, budget: nat)
      requires 0 < maxBatchItems && |texts| <= maxBatchItems
      ensures Served(texts, n, budget) <==> exists k: nat :: k <= budget && AnsweredAfter(n, texts, k)
    {
      hide AnsweredAfter;
      assert forall k: nat :: k <= budget ==> (ServedWith(texts, n, budget, k) <==> AnsweredAfter(n, texts, k));
    }

    /** One turn of the loop over the chunks: the texts from start are served exactly if this chunk and the rest are. */
    lemma {:induction false} NextChunk(texts: seq<string>, start: nat, end: nat, n: nat, budget: nat, k: nat, ok: bool)
      requires 0 < maxBatchItems && start < |texts| && k <= budget
      requires end == if start + maxBatchItems < |texts| then start + maxBatchItems else |texts|
      requires ok <==> exists l: nat :: l <= budget && AnsweredAfter(n, texts[start..end], l)
      requires ok ==> AnsweredAfter(n, texts[start..end], k)
      ensures ok && end < |texts| ==>
                (Served(texts[start..], n, budget) <==> Served(texts[end..], n + k + 1, budget - k))
      ensures end == |texts| || !ok ==> (Served(texts[start..], n, budget) <==> ok)
    {
      hide AnsweredAfter, Served;
      var rest := texts[start..];
      if end == |texts| {
        assert texts[start..end] == rest;
        OneChunk(rest, n, budget);
      } else {
        assert texts[start..end] == rest[..maxBatchItems] && texts[end..] == rest[maxBatchItems..];
        if ok {
          FirstChunk(rest, n, budget, k);
        } else {
          NotServed(rest, n, budget);
        }
      }
    }

    lemma {:induction false} NotServed(texts: seq<string>, n: nat, budget: nat)
      requires 0 < maxBatchItems < |texts|
      requires !exists l: nat :: l <= budget && AnsweredAfter(n, texts[..maxBatchItems], l)
      ensures !Served(texts, n, budget)
    {
      hide AnsweredAfter;
    }

    /** A provider that fails at most as often as the budget allows, each time for now, serves everything. */
    lemma {:induction false} FewFailuresAreServed(texts: seq<string>, n: nat, budget: nat, failing: set<nat>)
      requires maxBatchItems > 0 && |failing| <= budget && forall m :: m in failing ==> m >= n
      requires forall m: nat, chunk :: m >= n && |chunk| <= maxBatchItems && m !in failing ==> Answered(m, chunk)
      requires forall m, chunk :: m in failing && |chunk| <= maxBatchItems ==> Answered(m, chunk) || Retried(m, chunk)
      ensures Served(texts, n, budget)
      decreases |texts|
    {
      hide Answered, Retried;
      var chunk := if |texts| <= maxBatchItems then texts else texts[..maxBatchItems];
      var k := FirstAnswer(chunk, n, failing);
      if |texts| > maxBatchItems {
        var later := set m | m in failing && m > n + k;
        var spent := set m | m in failing && m <= n + k;
        assert later + spent == failing && later !! spent;
        FewFailuresAreServed(texts[maxBatchItems..], n + k + 1, budget - k, later);
      }
      assert ServedWith(texts, n, budget, k);
    }

    lemma {:induction false} FirstAnswer(chunk: seq<string>, n: nat, failing: set<nat>) returns (k: nat)
      requires forall m :: m in failing ==> m >= n
      requires forall m: nat :: m >= n && m !in failing ==> Answered(m, chunk)
      requires forall m :: m in failing ==> Answered(m, chunk) || Retried(m, chunk)
      ensures AnsweredAfter(n, chunk, k)
      ensures k <= |set m | m in failing && m <= n + k|
      decreases |failing|
    {
      hide Answered, Retried;
      if Answered(n, chunk) {
        k := 0;
      } else {
        assert n in failing;
        var l := FirstAnswer(chunk, n + 1, failing - {n});
        k := l + 1;
        assert (set m | m in failing && m <= n + k) == {n} + set m | m in failing - {n} && m <= n + 1 + l;
      }
    }

    /** After k transient failures only a later call can be the answered one. */
    lemma {:induction false} NoEarlierAnswer(n: nat, chunk: seq<string>, k: nat)
      requires forall m: nat :: n <= m < n + k ==> Retried(m, chunk)
      ensures forall l: nat :: AnsweredAfter(n, chunk, l) ==> l >= k && (l > k ==> Retried(n + k, chunk))
    {
      forall l: nat | AnsweredAfter(n, chunk, l)
        ensures l >= k && (l > k ==> Retried(n + k, chunk))
      {
        assert !Retried(n + l, chunk);
      }
    }

    /** Retries one chunk while the shared budget lasts: it succeeds exactly if some call within the budget is answered,
        after transient failures only. Otherwise the caller stopped, or the last failure was no transient one, or the
        budget is spent. */
    method EmbedChunk(chunk: seq<string>) returns (ok: bool, vectors: seq<Vector>)
      requires Valid() && |chunk| <= maxBatchItems && retries <= maxRetries
      modifies this`calls, this`sent, this`retries
      ensures ok ==> InOrder(vector, chunk, vectors)
      ensures old(retries) <= retries <= maxRetries
      ensures calls - old(calls) <= 1 + retries - old(retries)
              && (ok ==> calls - old(calls) == 1 + retries - old(retries))
      ensures sent - old(sent) <= |chunk| + (retries - old(retries)) * maxBatchItems
      ensures ok <==> exists k: nat :: k <= maxRetries - old(retries) && AnsweredAfter(old(calls), chunk, k)
      ensures ok ==> AnsweredAfter(old(calls), chunk, retries - old(retries))
      ensures forall m: nat :: old(calls) <= m < old(calls) + retries - old(retries) ==> Retried(m, chunk)
      ensures !ok ==> var n := old(calls) + (retries - old(retries));
                stopped(n) || (!Answered(n, chunk) && (answers(n, chunk) != Failed(true) || retries == maxRetries))
    {
      hide GoodResponse, InOrder;
      while true
        invariant forall m: nat :: old(calls) <= m < old(calls) + retries - old(retries) ==> Retried(m, chunk)
        invariant old(retries) <= retries <= maxRetries
        invariant calls - old(calls) == retries - old(retries)
        invariant sent - old(sent) <= (retries - old(retries)) * maxBatchItems
        decreases maxRetries - retries
      {
        NoEarlierAnswer(old(calls), chunk, retries - old(retries));
        if stopped(calls) {
          return false, [];
        }
        var answer, placed := Call(chunk);
        match answer
        case Data(_) =>
          assert AnsweredAfter(old(calls), chunk, retries - old(retries));
          return true, placed;
        case Cancelled => return false, [];
        case Failed(transient) =>
          if !transient || retries >= maxRetries {
            return false, [];
          }
          OneMoreRetry(retries - old(retries), maxBatchItems);
          retries := retries + 1;
      }
    }

    /** EmbedBatch: the vectors in text order, within one call per chunk plus the shared retries. */
    method EmbedBatch(texts: seq<string>) returns (ok: bool, result: seq<Vector>)
      requires Valid()
      modifies this`calls, this`sent, this`retries
      ensures ok ==> InOrder(vector, texts, result)
      ensures calls - old(calls) <= Chunks(|texts|, maxBatchItems) + maxRetries
      ensures ok ==>
                calls - old(calls) ==
                    Chunks(|texts|, maxBatchItems) + retries <= Chunks(|texts|, maxBatchItems) + maxRetries
      ensures sent - old(sent) <= |texts| + maxRetries * maxBatchItems
      ensures ok <==> Served(texts, old(calls), maxRetries)
    {
      hide AnsweredAfter, Served;
      retries := 0;
      if |texts| <= maxBatchItems {
        ok, result := EmbedChunk(texts);
        OneChunk(texts, old(calls), maxRetries);
        MoreRetries(retries, maxRetries, maxBatchItems);
        return;
      }
      result := [];
      var start := 0;
      while start < |texts|
        invariant 0 <= start <= |texts| && |result| == start && retries <= maxRetries
        invariant forall i :: 0 <= i < start ==> result[i] == vector(texts[i])
        invariant start < |texts| ==>
                    calls - old(calls) + Chunks(|texts| - start, maxBatchItems) ==
                        Chunks(|texts|, maxBatchItems) + retries
        invariant start == |texts| ==> calls - old(calls) == Chunks(|texts|, maxBatchItems) + retries
        invariant sent - old(sent) <= start + retries * maxBatchItems
        invariant start < |texts| ==>
                    (Served(texts, old(calls), maxRetries) <==> Served(texts[start..], calls, maxRetries - retries))
        invariant start == |texts| ==> Served(texts, old(calls), maxRetries)
        decreases |texts| - start
      {
        var end := if start + maxBatchItems < |texts| then start + maxBatchItems else |texts|;
        ghost var before, n := retries, calls;
        var chunkOk, chunk := EmbedChunk(texts[start..end]);
        SplitRetries(before, retries, maxBatchItems);
        NextChunk(texts, start, end, n, maxRetries - before, retries - before, chunkOk);
        if !chunkOk {
          MoreRetries(retries, maxRetries, maxBatchItems);
          return false, [];
        }
        result := result + chunk;
        start := end;
      }
      MoreRetries(retries, maxRetries, maxBatchItems);
      ok := true;
    }
  }

  lemma {:induction false} OneMoreRetry(k: nat, b: nat)
    ensures (k + 1) * b == k * b + b
  {
  }

  lemma {:induction false} SplitRetries(before: nat, after: nat, b: nat)
    requires before <= after
    ensures before * b + (after - before) * b == after * b
  {
  }

  lemma {:induction false} MoreRetries(k: nat, m: nat, b: nat)
    requires k <= m
    ensures k * b <= m * b
  {
  }

  // ----- The backoff

  function Power2(n: nat): nat {
    if n == 0 then 1 else 2 * Power2(n - 1)
  }

  lemma {:induction false} Power2Grows(m: nat, n: nat)
    requires m <= n
    ensures 1 <= Power2(m) <= Power2(n)
    decreases n
  {
    if m < n {
      Power2Grows(m, n - 1);
    } else if n > 0 {
      Power2Grows(n - 1, n - 1);
    }
  }

  lemma {:induction false} BaseGrows(base: nat, m: nat, n: nat)
    requires m <= n
    ensures base * Power2(m) <= base * Power2(n)
  {
    Power2Grows(m, n);
    assert base * (Power2(n) - Power2(m)) >= 0;
  }

  /** calculateDelay: doubling with an early cap is the capped exponential plus jitter. */
  method CalculateDelay(baseDelay: nat, maxDelay: nat, attempt: nat, jitter: nat) returns (delay: nat)
    ensures delay == if baseDelay * Power2(attempt) + jitter < maxDelay then baseDelay * Power2(attempt) + jitter
            else maxDelay
  {
    delay := baseDelay;
    for i := 0 to attempt
      invariant delay == baseDelay * Power2(i)
    {
      delay := delay * 2;
      assert delay == baseDelay * Power2(i + 1);
      if delay > maxDelay {
        BaseGrows(baseDelay, i + 1, attempt);
        delay := maxDelay;
        break;
      }
    }
    delay := delay + jitter;
    if delay > maxDelay {
      delay := maxDelay;
    }
  }
}
