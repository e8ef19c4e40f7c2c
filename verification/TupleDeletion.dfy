/**
 Deleting many tuples in bounded writes. A write that times out may have removed
 any part of its batch; it is tried again in batches of half the size.
 */
module TupleDeletion {
  import opened Names
  import opened PolicyReconciler

  const MaxTuplesPerWrite := 100

  /** OpenFGA's answer to a write: done, timed out, or refused. The last two may have removed any part of the batch. */
  datatype Reply = Done | TimedOut(removed: set<Tuple>) | Refused(removed: set<Tuple>)

  function Removed(batch: seq<Tuple>, reply: Reply): set<Tuple> {
    if reply.Done? then AsSet(batch) else AsSet(batch) * reply.removed
  }

  function Pow2(n: nat): nat {
    if n == 0 then 1 else 2 * Pow2(n - 1)
  }

  /** The batch size after some timeouts. */
  predicate Bounded(size: nat, timeouts: nat) {
    1 <= size && size * Pow2(timeouts) <= MaxTuplesPerWrite
  }

  /** Seven halvings leave nothing of a full batch. */
  lemma BoundMeans(size: nat, timeouts: nat)
    requires Bounded(size, timeouts)
    ensures timeouts <= 6 && size <= MaxTuplesPerWrite
  {
    Pow2Grows(0, timeouts);
    Multiply(1, Pow2(timeouts), size);
    Multiply(1, size, Pow2(timeouts));
    assert Pow2(7) == 128;
    if timeouts > 6 {
      Pow2Grows(7, timeouts);
    }
  }

  lemma {:induction false} Pow2Grows(m: nat, n: nat)
    requires m <= n
    ensures Pow2(m) <= Pow2(n)
    decreases n
  {
    if m < n {
      Pow2Grows(m, n - 1);
    }
  }

  /** Halving a batch makes room for one more timeout. */
  lemma HalvingKeepsBound(size: nat, length: nat, timeouts: nat)
    requires Bounded(size, timeouts) && 2 <= length <= size
    ensures Bounded(length / 2, timeouts + 1)
  {
    var p := Pow2(timeouts);
    assert (length / 2) * (2 * p) == (2 * (length / 2)) * p;
    Multiply(2 * (length / 2), size, p);
  }

  lemma Multiply(a: nat, b: nat, p: nat)
    requires a <= b
    ensures a * p <= b * p
  {
  }

  // ---- One call, write by write

  /** Before a write: the requested tuples that are acknowledged, the batch size in force, and the writes that were not acknowledged. */
  datatype Progress = Progress(start: nat, size: nat, failed: nat)

  const Beginning := Progress(0, MaxTuplesPerWrite, 0)

  /** How many tuples the next write takes, of `n`. */
  function Length(at: Progress, n: nat): nat {
    if at.start + at.size <= n then at.size else if at.start <= n then n - at.start else 0
  }

  /** An acknowledged batch is passed over, one that timed out is halved. */
  function Next(at: Progress, n: nat, r: Reply): Progress {
    if r.Done? then at.(start := at.start + Length(at, n))
    else Progress(at.start, Length(at, n) / 2, at.failed + 1)
  }

  /** An answer that ends the call: refused, late, or timed out for a single tuple. */
  predicate Stops(length: nat, r: Reply, late: bool) {
    !r.Done? && (r.Refused? || late || length <= 1)
  }

  /** Among the answers to the writes there is one that ends the call, or the context ends with tuples left. */
  ghost predicate Fails(n: nat, log: seq<Progress>, sent: seq<seq<Tuple>>, reply: nat -> Reply, cancelled: nat -> bool,
                        late: nat -> bool)
    requires |log| == |sent| + 1
  {
    || (exists k :: 0 <= k < |sent| && Stops(|sent[k]|, reply(k), late(k)))
    || (cancelled(|sent|) && log[|sent|].start < n)
  }

  ghost predicate Moves(log: seq<Progress>, n: nat, reply: nat -> Reply, k: nat) {
    k + 1 < |log| ==> log[k + 1] == Next(log[k], n, reply(k))
  }

  /** `log` holds the progress before each write, and after the last. */
  ghost predicate Logged(log: seq<Progress>, n: nat, reply: nat -> Reply) {
    |log| > 0 && log[0] == Beginning && forall k: nat :: Moves(log, n, reply, k)
  }

  ghost predicate Sends(log: seq<Progress>, requested: seq<Tuple>, batches: seq<seq<Tuple>>, k: nat) {
    k < |batches| && k < |log| ==> 1 <= |batches[k]| <= MaxTuplesPerWrite && batches[k] == Due(requested, log[k])
  }

  /** The batches of the writes that `log` tells of. */
  ghost predicate Sent(log: seq<Progress>, requested: seq<Tuple>, batches: seq<seq<Tuple>>) {
    |batches| + 1 == |log| && forall k: nat :: Sends(log, requested, batches, k)
  }

  /** The batch that is due. */
  function Due(requested: seq<Tuple>, at: Progress): seq<Tuple> {
    if at.start <= |requested| then requested[at.start..at.start + Length(at, |requested|)] else []
  }

  lemma LoggedThen(log: seq<Progress>, n: nat, reply: nat -> Reply, next: Progress)
    requires Logged(log, n, reply) && next == Next(log[|log| - 1], n, reply(|log| - 1))
    ensures Logged(log + [next], n, reply)
  {
    var longer := log + [next];
    forall k: nat
      ensures Moves(longer, n, reply, k)
    {
      assert Moves(log, n, reply, k);
    }
  }

  lemma SentThen(log: seq<Progress>, requested: seq<Tuple>, batches: seq<seq<Tuple>>, next: Progress)
    requires Sent(log, requested, batches) && 1 <= |Due(requested, log[|log| - 1])| <= MaxTuplesPerWrite
    ensures Sent(log + [next], requested, batches + [Due(requested, log[|log| - 1])])
  {
    var longer, more := log + [next], batches + [Due(requested, log[|log| - 1])];
    forall k: nat
      ensures Sends(longer, requested, more, k)
    {
      assert Sends(log, requested, batches, k);
    }
  }

  /** Of the tuples there were `before`, only requested ones are gone, and the first `start` of these are. */
  ghost predicate Cleared(requested: seq<Tuple>, before: set<Tuple>, tuples: set<Tuple>, start: nat) {
    && before - AsSet(requested) <= tuples <= before
    && start <= |requested| && forall i :: 0 <= i < start ==> requested[i] !in tuples
  }

  /** Whatever a write removes is of its batch; once it is acknowledged, all of the batch is gone. */
  lemma WriteClears(requested: seq<Tuple>, before: set<Tuple>, tuples: set<Tuple>, at: Progress, r: Reply)
    requires Cleared(requested, before, tuples, at.start)
    ensures Cleared(requested, before, tuples - Removed(Due(requested, at), r), Next(at, |requested|, r).start)
  {
    var batch := Due(requested, at);
    forall i | at.start <= i < at.start + |batch|
      ensures requested[i] in AsSet(batch)
    {
      assert batch[i - at.start] == requested[i];
    }
  }

  function Min(a: nat, b: nat): nat {
    if a < b then a else b
  }

  class TupleStore {
    var tuples: set<Tuple>

    /** The batches written so far. */
    ghost var batches: seq<seq<Tuple>>

    method Write(batch: seq<Tuple>, reply: Reply)
      modifies this
      ensures tuples == old(tuples) - (if reply.Done? then AsSet(batch) else AsSet(batch) * reply.removed)
      ensures batches == old(batches) + [batch]
    {
      tuples := tuples - Removed(batch, reply);
      batches := batches + [batch];
    }

    /**
     Deletes `requested`. `reply` is OpenFGA's answer to each write in turn, and
     `cancelled` and `late` say whether the context has ended before and after it;
     `log` is the progress before each write and after the last. The call fails
     exactly if an answer ends it, or the context ends with tuples left.
     */
    method DeleteTuples(requested: seq<Tuple>, reply: nat -> Reply, cancelled: nat -> bool, late: nat -> bool)
      returns (ok: bool, ghost log: seq<Progress>, ghost sent: seq<seq<Tuple>>)
      modifies this
      ensures Logged(log, |requested|, reply) && batches == old(batches) + sent && Sent(log, requested, sent)
      ensures forall k :: 0 <= k < |sent| ==> !cancelled(k)
      ensures !ok <==> Fails(|requested|, log, sent, reply, cancelled, late)
      ensures ok <==> log[|sent|].start == |requested|
      ensures ok ==> tuples == old(tuples) - AsSet(requested)
      ensures old(tuples) - AsSet(requested) <= tuples <= old(tuples)
      ensures log[|sent|].start <= |requested| && forall i :: 0 <= i < log[|sent|].start ==> requested[i] !in tuples
      ensures log[|sent|].failed <= (if ok then 6 else 7) && |sent| <= log[|sent|].start + log[|sent|].failed
    {
      var start: nat, batchSize: nat, writes: nat := 0, MaxTuplesPerWrite, 0;
      log, sent := [Beginning], [];
      while start < |requested|
        invariant start <= |requested| && writes == |sent| && |log| == writes + 1
        invariant log[writes].start == start && log[writes].size == batchSize && Bounded(batchSize, log[writes].failed)
        invariant Logged(log, |requested|, reply) && batches == old(batches) + sent && Sent(log, requested, sent)
        invariant Cleared(requested, old(tuples), tuples, start)
        invariant forall k :: 0 <= k < writes ==> !cancelled(k) && !Stops(|sent[k]|, reply(k), late(k))
        invariant writes <= start + log[writes].failed
        decreases |requested| - start, batchSize
      {
        ghost var at := log[writes];
        BoundMeans(batchSize, at.failed);
        if cancelled(writes) {
          return false, log, sent;
        }
        var batch := requested[start..Min(start + batchSize, |requested|)];
        WriteClears(requested, old(tuples), tuples, at, reply(writes));
        LoggedThen(log, |requested|, reply, Next(at, |requested|, reply(writes)));
        assert batch == Due(requested, at);
        SentThen(log, requested, sent, Next(at, |requested|, reply(writes)));
        Write(batch, reply(writes));
        log, sent := log + [Next(at, |requested|, reply(writes))], sent + [batch];
        writes := writes + 1;
        if !reply(writes - 1).Done? {
          if !late(writes - 1) && |batch| > 1 && reply(writes - 1).TimedOut? {
            HalvingKeepsBound(batchSize, |batch|, at.failed);
            batchSize := |batch| / 2;
            continue;
          }
          return false, log, sent;
        }
        start := start + |batch|;
      }
      BoundMeans(batchSize, log[writes].failed);
      return true, log, sent;
    }
  }
}
