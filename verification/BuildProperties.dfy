/** What holds of every build, against every broker. */
module BuildProperties {
  import opened BuildExecutor
  import opened OrderTable
  import opened Rounding
  import opened Wrappers

  predicate WasFilled(s: Submission)
  {
    Judge(s.reply) == Filled
  }

  /** The failure that goes with an answer which is neither a fill nor a rejection. */
  function Stopped(s: Submission): Option<Failure>
  {
    Some(PendingFill(s.intent.intentId, s.reply))
  }

  /** An order's submissions: all but the last were to be retried, and attempts count upwards. */
  ghost predicate RetriesOnly(log: seq<Submission>)
  {
    forall i, j :: 0 <= i < j < |log| && log[i].order.uid == log[j].order.uid ==>
      log[i].order == log[j].order && Judge(log[i].reply) == Retry && log[i].attempt < log[j].attempt
  }

  /** An open answer can only be the last of the log, and then it is the reason why the build stops. */
  ghost predicate OpenIsLast(log: seq<Submission>, failure: Option<Failure>)
  {
    && (forall i :: 0 <= i < |log| && Judge(log[i].reply) == Open ==> i == |log| - 1 && failure == Stopped(log[i]))
    && (failure.Some? && failure.value.PendingFill? ==> |log| > 0 && Judge(log[|log| - 1].reply) == Open)
  }

  ghost predicate FilledIn(log: seq<Submission>, o: ExecOrder)
  {
    exists i :: 0 <= i < |log| && log[i].order == o && WasFilled(log[i])
  }

  /** Every submission is the one the build makes for its order, chunk and attempt. */
  ghost predicate Genuine(t: Trade, s: Submission)
  {
    && s.intent == IntentFor(t, s.order, s.attempt)
    && s.order.quantity > 0 && s.attempt < MAX_CHUNK_RETRIES
  }

  // ---------------------------------------------------------------------------------------
  // One pass
  // ---------------------------------------------------------------------------------------

  /** The submission a pass makes for an order. */
  ghost predicate PassEntry(s: Submission, o: ExecOrder, t: Trade, chunk: nat, attempt: nat)
  {
    && s.order == o && s.chunk == chunk && s.attempt == attempt
    && s.intent == IntentFor(t, o, attempt) && o.quantity > 0
  }

  /** The submissions of a pass are its orders in turn, all of them unless it stopped. */
  ghost predicate PassShape(p: Pass, t: Trade, chunk: nat, attempt: nat, orders: seq<ExecOrder>)
  {
    && |p.log| <= |orders|
    && (forall i :: 0 <= i < |p.log| ==> PassEntry(p.log[i], orders[i], t, chunk, attempt))
    && OpenIsLast(p.log, p.failure)
    && (p.failure.None? ==> |p.log| == |orders|)
  }

  /** The orders to retry are those answered by an error or a rejection. */
  ghost predicate RetrySet(p: Pass, orders: seq<ExecOrder>)
  {
    && |p.log| <= |orders|
    && (forall o :: o in p.retry ==> exists i :: 0 <= i < |p.log| && orders[i] == o && Judge(p.log[i].reply) == Retry)
    && (forall i :: 0 <= i < |p.log| && Judge(p.log[i].reply) == Retry ==> orders[i] in p.retry)
  }

  ghost predicate PassOk(p: Pass, t: Trade, chunk: nat, attempt: nat, orders: seq<ExecOrder>)
  {
    && PassShape(p, t, chunk, attempt, orders) && RetrySet(p, orders)
    && (DistinctOrders(orders) ==> DistinctOrders(p.retry))
  }

  lemma {:induction false} PassFacts(b: Broker, t: Trade, n: nat, chunk: nat, attempt: nat, orders: seq<ExecOrder>)
    ensures PassOk(RunPass(b, t, n, chunk, attempt, orders), t, chunk, attempt, orders)
    decreases |orders|
  {
    if orders != [] && orders[0].quantity > 0 {
      var s := Submit(b, t, n, chunk, attempt, orders[0]);
      if Judge(s.reply) != Open {
        var rest := RunPass(b, t, n + 1, chunk, attempt, orders[1..]);
        PassFacts(b, t, n + 1, chunk, attempt, orders[1..]);
        PassConsShape(s, rest, t, chunk, attempt, orders);
        PassConsRetry(s, rest, orders);
        PassConsDistinct(s, rest, orders);
      }
    }
  }

  function PassCons(s: Submission, rest: Pass, o: ExecOrder): Pass
  {
    Pass([s] + rest.log, (if Judge(s.reply) == Retry then [o] else []) + rest.retry, rest.failure)
  }

  lemma PassConsShape(s: Submission, rest: Pass, t: Trade, chunk: nat, attempt: nat, orders: seq<ExecOrder>)
    requires orders != [] && orders[0].quantity > 0 && PassShape(rest, t, chunk, attempt, orders[1..])
    requires s == Submission(chunk, attempt, orders[0], IntentFor(t, orders[0], attempt), s.reply)
    requires Judge(s.reply) != Open
    ensures PassShape(PassCons(s, rest, orders[0]), t, chunk, attempt, orders)
  {
    hide IntentFor, Judge;
    var log := [s] + rest.log;
    assert forall i :: 0 < i < |log| ==> log[i] == rest.log[i - 1] && orders[i] == orders[1..][i - 1];
  }

  lemma PassConsRetry(s: Submission, rest: Pass, orders: seq<ExecOrder>)
    requires orders != [] && RetrySet(rest, orders[1..])
    ensures RetrySet(PassCons(s, rest, orders[0]), orders)
  {
    hide Judge;
    var p := PassCons(s, rest, orders[0]);
    assert forall i :: 0 < i < |p.log| ==> p.log[i] == rest.log[i - 1] && orders[i] == orders[1..][i - 1];
    forall o | o in p.retry ensures exists i :: 0 <= i < |p.log| && orders[i] == o && Judge(p.log[i].reply) == Retry {
      if o in rest.retry {
        var i :| 0 <= i < |rest.log| && orders[1..][i] == o && Judge(rest.log[i].reply) == Retry;
        assert orders[i + 1] == o && p.log[i + 1] == rest.log[i];
      } else {
        assert orders[0] == o && p.log[0] == s;
      }
    }
  }

  lemma PassConsDistinct(s: Submission, rest: Pass, orders: seq<ExecOrder>)
    requires orders != [] && RetrySet(rest, orders[1..]) && (DistinctOrders(orders[1..]) ==> DistinctOrders(rest.retry))
    ensures DistinctOrders(orders) ==> DistinctOrders(PassCons(s, rest, orders[0]).retry)
  {
    hide Judge;
    if DistinctOrders(orders) {
      assert forall i :: 0 < i < |orders| ==> orders[i] == orders[1..][i - 1];
      forall o | o in rest.retry ensures o.uid != orders[0].uid {
        var k :| 0 <= k < |rest.log| && orders[1..][k] == o && Judge(rest.log[k].reply) == Retry;
        assert orders[k + 1] == o;
      }
    }
  }

  // ---------------------------------------------------------------------------------------
  // One chunk
  // ---------------------------------------------------------------------------------------

  ghost predicate ChunkEntries(log: seq<Submission>, t: Trade, chunk: nat, attempt: nat, orders: seq<ExecOrder>)
  {
    forall i :: 0 <= i < |log| ==>
      log[i].chunk == chunk && attempt <= log[i].attempt && log[i].order in orders && Genuine(t, log[i])
  }

  ghost predicate ChunkOk(r: Result, t: Trade, chunk: nat, attempt: nat, orders: seq<ExecOrder>)
  {
    && ChunkEntries(r.log, t, chunk, attempt, orders)
    && RetriesOnly(r.log)
    && OpenIsLast(r.log, r.failure)
    && (r.failure.None? ==> forall o :: o in orders ==> FilledIn(r.log, o))
  }

  lemma {:induction false} ChunkFacts(b: Broker, t: Trade, n: nat, chunk: nat, attempt: nat, orders: seq<ExecOrder>)
    requires attempt <= MAX_CHUNK_RETRIES && DistinctOrders(orders)
    ensures ChunkOk(RunChunk(b, t, n, chunk, attempt, orders), t, chunk, attempt, orders)
    decreases MAX_CHUNK_RETRIES - attempt
  {
    hide RunPass, DistinctOrders, PassOk, ChunkOk;
    if orders == [] || attempt == MAX_CHUNK_RETRIES {
      NothingSubmitted(t, chunk, attempt, orders);
    } else {
      var p := RunPass(b, t, n, chunk, attempt, orders);
      PassFacts(b, t, n, chunk, attempt, orders);
      if p.failure.None? {
        RetryDistinct(p, t, chunk, attempt, orders);
        ChunkFacts(b, t, n + |p.log|, chunk, attempt + 1, p.retry);
        ChunkCompose(p, RunChunk(b, t, n + |p.log|, chunk, attempt + 1, p.retry), t, chunk, attempt, orders);
      } else {
        StoppedPass(p, t, chunk, attempt, orders);
      }
    }
  }

  lemma NothingSubmitted(t: Trade, chunk: nat, attempt: nat, orders: seq<ExecOrder>)
    ensures orders == [] ==> ChunkOk(Result([], None), t, chunk, attempt, orders)
    ensures ChunkOk(Result([], Some(RetriesExhausted(chunk))), t, chunk, attempt, orders)
  {
  }

  lemma RetryDistinct(p: Pass, t: Trade, chunk: nat, attempt: nat, orders: seq<ExecOrder>)
    requires PassOk(p, t, chunk, attempt, orders) && DistinctOrders(orders)
    ensures DistinctOrders(p.retry)
  {
  }

  lemma StoppedPass(p: Pass, t: Trade, chunk: nat, attempt: nat, orders: seq<ExecOrder>)
    requires PassOk(p, t, chunk, attempt, orders) && DistinctOrders(orders) && attempt < MAX_CHUNK_RETRIES
    requires p.failure.Some?
    ensures ChunkOk(Result(p.log, p.failure), t, chunk, attempt, orders)
  {
    hide IntentFor, Judge, OpenIsLast, RetrySet, RetriesOnly;
    PassIsChunkLog(p, t, chunk, attempt, orders);
  }

  lemma PassIsChunkLog(p: Pass, t: Trade, chunk: nat, attempt: nat, orders: seq<ExecOrder>)
    requires PassOk(p, t, chunk, attempt, orders) && DistinctOrders(orders) && attempt < MAX_CHUNK_RETRIES
    ensures ChunkEntries(p.log, t, chunk, attempt, orders) && RetriesOnly(p.log) && OpenIsLast(p.log, p.failure)
  {
  }

  lemma ChunkCompose(p: Pass, rest: Result, t: Trade, chunk: nat, attempt: nat, orders: seq<ExecOrder>)
    requires PassOk(p, t, chunk, attempt, orders) && p.failure.None? && DistinctOrders(orders)
    requires attempt < MAX_CHUNK_RETRIES && ChunkOk(rest, t, chunk, attempt + 1, p.retry)
    ensures ChunkOk(Result(p.log + rest.log, rest.failure), t, chunk, attempt, orders)
  {
    hide PassOk, DistinctOrders, FilledIn;
    PassBound(p, t, chunk, attempt, orders);
    hide ChunkEntries, RetriesOnly, OpenIsLast;
    ComposeEntries(p, rest, t, chunk, attempt, orders);
    ComposeRetries(p, rest, t, chunk, attempt, orders);
    OpenIsLastConcat(p.log, rest.log, rest.failure);
    if rest.failure.None? {
      ComposeFilled(p, rest, t, chunk, attempt, orders);
    }
  }

  lemma RetryIsOrder(p: Pass, t: Trade, chunk: nat, attempt: nat, orders: seq<ExecOrder>, o: ExecOrder) returns (k: nat)
    requires PassOk(p, t, chunk, attempt, orders) && o in p.retry
    ensures k < |p.log| && orders[k] == o && Judge(p.log[k].reply) == Retry
  {
    k :| 0 <= k < |p.log| && orders[k] == o && Judge(p.log[k].reply) == Retry;
  }

  lemma ComposeEntries(p: Pass, rest: Result, t: Trade, chunk: nat, attempt: nat, orders: seq<ExecOrder>)
    requires PassOk(p, t, chunk, attempt, orders) && DistinctOrders(orders)
    requires attempt < MAX_CHUNK_RETRIES && ChunkEntries(rest.log, t, chunk, attempt + 1, p.retry)
    ensures ChunkEntries(p.log + rest.log, t, chunk, attempt, orders)
  {
    PassIsChunkLog(p, t, chunk, attempt, orders);
    hide IntentFor, Judge, Genuine, PassOk, OpenIsLast, RetriesOnly;
    var log := p.log + rest.log;
    forall i | |p.log| <= i < |log| ensures log[i].order in orders && log[i] == rest.log[i - |p.log|] {
      var k := RetryIsOrder(p, t, chunk, attempt, orders, rest.log[i - |p.log|].order);
      assert |p.log| <= |orders| by { PassBound(p, t, chunk, attempt, orders); }
    }
  }

  lemma PassBound(p: Pass, t: Trade, chunk: nat, attempt: nat, orders: seq<ExecOrder>)
    requires PassOk(p, t, chunk, attempt, orders)
    ensures |p.log| <= |orders| && (p.failure.None? ==> |p.log| == |orders|)
    ensures forall i :: 0 <= i < |p.log| ==> p.log[i].order == orders[i] && p.log[i].attempt == attempt
    ensures OpenIsLast(p.log, p.failure)
  {
  }

  lemma ComposeRetries(p: Pass, rest: Result, t: Trade, chunk: nat, attempt: nat, orders: seq<ExecOrder>)
    requires PassOk(p, t, chunk, attempt, orders) && DistinctOrders(orders) && attempt < MAX_CHUNK_RETRIES
    requires ChunkEntries(rest.log, t, chunk, attempt + 1, p.retry) && RetriesOnly(rest.log)
    ensures RetriesOnly(p.log + rest.log)
  {
    PassBound(p, t, chunk, attempt, orders);
    hide IntentFor, Judge, Genuine, PassOk, OpenIsLast;
    var log := p.log + rest.log;
    assert forall i, j :: 0 <= i < j < |p.log| ==> p.log[i].order.uid != p.log[j].order.uid;
    forall i, j | 0 <= i < j < |log| && log[i].order.uid == log[j].order.uid
      ensures log[i].order == log[j].order && Judge(log[i].reply) == Retry && log[i].attempt < log[j].attempt
    {
      var s := rest.log[j - |p.log|];
      assert log[j] == s;
      if i < |p.log| {
        var k := RetryIsOrder(p, t, chunk, attempt, orders, s.order);
        assert k == i;
      } else {
        assert rest.log[i - |p.log|] == log[i];
      }
    }
  }

  lemma OpenIsLastConcat(xs: seq<Submission>, ys: seq<Submission>, failure: Option<Failure>)
    requires OpenIsLast(xs, None) && OpenIsLast(ys, failure)
    ensures OpenIsLast(xs + ys, failure)
  {
    hide Judge;
    var log := xs + ys;
    assert forall i :: 0 <= i < |log| ==> log[i] == if i < |xs| then xs[i] else ys[i - |xs|];
  }

  lemma ComposeFilled(p: Pass, rest: Result, t: Trade, chunk: nat, attempt: nat, orders: seq<ExecOrder>)
    requires PassOk(p, t, chunk, attempt, orders) && p.failure.None?
    requires forall o :: o in p.retry ==> FilledIn(rest.log, o)
    ensures forall o :: o in orders ==> FilledIn(p.log + rest.log, o)
  {
    hide IntentFor;
    forall o | o in orders ensures FilledIn(p.log + rest.log, o) {
      var i :| 0 <= i < |orders| && orders[i] == o;
      assert Judge(p.log[i].reply) != Open;
      if WasFilled(p.log[i]) {
        assert (p.log + rest.log)[i] == p.log[i];
      } else {
        assert o in p.retry;
        FilledInConcat(p.log, rest.log, o);
      }
    }
  }

  lemma FilledInConcat(xs: seq<Submission>, ys: seq<Submission>, o: ExecOrder)
    requires FilledIn(xs, o) || FilledIn(ys, o)
    ensures FilledIn(xs + ys, o)
  {
    if FilledIn(xs, o) {
      var i :| 0 <= i < |xs| && xs[i].order == o && WasFilled(xs[i]);
      assert (xs + ys)[i] == xs[i];
    } else {
      var i :| 0 <= i < |ys| && ys[i].order == o && WasFilled(ys[i]);
      assert (xs + ys)[|xs| + i] == ys[i];
    }
  }

  // ---------------------------------------------------------------------------------------
  // The whole build
  // ---------------------------------------------------------------------------------------

  ghost predicate BuildEntries(log: seq<Submission>, t: Trade, chunks: seq<seq<ExecOrder>>, from: nat)
  {
    forall i :: 0 <= i < |log| ==>
      from <= log[i].chunk < |chunks| && log[i].order in chunks[log[i].chunk] && Genuine(t, log[i])
  }

  /** No order of a later chunk is submitted before every order of the chunks `from`.. before it has filled. */
  ghost predicate Barrier(log: seq<Submission>, chunks: seq<seq<ExecOrder>>, from: nat)
  {
    forall j, c, o :: 0 <= j < |log| && from <= c < log[j].chunk && c < |chunks| && o in chunks[c] ==>
      FilledIn(log[..j], o)
  }

  ghost predicate AllFilled(log: seq<Submission>, chunks: seq<seq<ExecOrder>>, from: nat)
  {
    forall c, o :: from <= c < |chunks| && o in chunks[c] ==> FilledIn(log, o)
  }

  ghost predicate BuildOk(r: Result, t: Trade, chunks: seq<seq<ExecOrder>>, from: nat)
  {
    && BuildEntries(r.log, t, chunks, from)
    && RetriesOnly(r.log)
    && OpenIsLast(r.log, r.failure)
    && Barrier(r.log, chunks, from)
    && (r.failure.None? ==> AllFilled(r.log, chunks, from))
  }

  /** Identifiers are distinct across the whole plan. */
  predicate PlanDistinct(chunks: seq<seq<ExecOrder>>)
  {
    && (forall c :: 0 <= c < |chunks| ==> DistinctOrders(chunks[c]))
    && forall c, d, x, y :: 0 <= c < d < |chunks| && x in chunks[c] && y in chunks[d] ==> x.uid != y.uid
  }

  lemma {:induction false} BuildFacts(b: Broker, t: Trade, n: nat, chunks: seq<seq<ExecOrder>>, from: nat)
    requires from <= |chunks| && PlanDistinct(chunks)
    ensures BuildOk(RunBuild(b, t, n, chunks, from), t, chunks, from)
    decreases |chunks| - from
  {
    hide RunChunk, ChunkOk, BuildOk, PlanDistinct;
    if from == |chunks| {
      NothingBuilt(t, chunks);
    } else {
      var c := RunChunk(b, t, n, from, 0, chunks[from]);
      ChunkDistinct(chunks, from);
      ChunkFacts(b, t, n, from, 0, chunks[from]);
      if c.failure.None? {
        BuildFacts(b, t, n + |c.log|, chunks, from + 1);
        BuildCompose(c, RunBuild(b, t, n + |c.log|, chunks, from + 1), t, chunks, from);
      } else {
        StoppedChunk(c, t, chunks, from);
      }
    }
  }

  lemma NothingBuilt(t: Trade, chunks: seq<seq<ExecOrder>>)
    ensures BuildOk(Result([], None), t, chunks, |chunks|)
  {
  }

  lemma ChunkDistinct(chunks: seq<seq<ExecOrder>>, c: nat)
    requires PlanDistinct(chunks) && c < |chunks|
    ensures DistinctOrders(chunks[c])
  {
  }

  lemma StoppedChunk(c: Result, t: Trade, chunks: seq<seq<ExecOrder>>, from: nat)
    requires from < |chunks| && ChunkOk(c, t, from, 0, chunks[from]) && c.failure.Some?
    ensures BuildOk(c, t, chunks, from)
  {
    hide ChunkOk, BuildEntries, RetriesOnly, OpenIsLast, Barrier;
    ChunkIsBuildLog(c, t, chunks, from);
  }

  lemma ChunkIsBuildLog(c: Result, t: Trade, chunks: seq<seq<ExecOrder>>, from: nat)
    requires from < |chunks| && ChunkOk(c, t, from, 0, chunks[from])
    ensures BuildEntries(c.log, t, chunks, from) && RetriesOnly(c.log) && OpenIsLast(c.log, c.failure)
    ensures Barrier(c.log, chunks, from)
    ensures c.failure.None? ==> forall o :: o in chunks[from] ==> FilledIn(c.log, o)
  {
    hide Genuine, RetriesOnly, OpenIsLast, FilledIn;
  }

  lemma BuildCompose(c: Result, rest: Result, t: Trade, chunks: seq<seq<ExecOrder>>, from: nat)
    requires from < |chunks| && PlanDistinct(chunks)
    requires ChunkOk(c, t, from, 0, chunks[from]) && c.failure.None? && BuildOk(rest, t, chunks, from + 1)
    ensures BuildOk(Result(c.log + rest.log, rest.failure), t, chunks, from)
  {
    hide Genuine, FilledIn, Judge;
    ChunkIsBuildLog(c, t, chunks, from);
    hide ChunkOk;
    var log := c.log + rest.log;
    assert forall i :: 0 <= i < |log| ==> log[i] == if i < |c.log| then c.log[i] else rest.log[i - |c.log|];
    assert BuildEntries(log, t, chunks, from);
    ComposeBuildRetries(c, rest, t, chunks, from);
    OpenIsLastConcat(c.log, rest.log, rest.failure);
    ComposeBarrier(c, rest, t, chunks, from);
    if rest.failure.None? {
      forall d, o | from <= d < |chunks| && o in chunks[d] ensures FilledIn(log, o) {
        FilledInConcat(c.log, rest.log, o);
      }
    }
  }

  lemma ComposeBuildRetries(c: Result, rest: Result, t: Trade, chunks: seq<seq<ExecOrder>>, from: nat)
    requires from < |chunks| && PlanDistinct(chunks)
    requires ChunkOk(c, t, from, 0, chunks[from]) && BuildEntries(rest.log, t, chunks, from + 1)
    requires RetriesOnly(rest.log)
    ensures RetriesOnly(c.log + rest.log)
  {
    hide Genuine, FilledIn, Judge, OpenIsLast;
    var log := c.log + rest.log;
    assert forall i, j :: 0 <= i < |c.log| && 0 <= j < |rest.log| ==> c.log[i].order.uid != rest.log[j].order.uid;
    forall i, j | 0 <= i < j < |log| && log[i].order.uid == log[j].order.uid
      ensures log[i].order == log[j].order && Judge(log[i].reply) == Retry && log[i].attempt < log[j].attempt
    {
      assert j < |c.log| || i >= |c.log|;
      if j < |c.log| {
        assert c.log[i] == log[i] && c.log[j] == log[j];
      } else {
        assert rest.log[i - |c.log|] == log[i] && rest.log[j - |c.log|] == log[j];
      }
    }
  }

  lemma ComposeBarrier(c: Result, rest: Result, t: Trade, chunks: seq<seq<ExecOrder>>, from: nat)
    requires from < |chunks| && c.failure.None? && ChunkEntries(c.log, t, from, 0, chunks[from])
    requires forall o :: o in chunks[from] ==> FilledIn(c.log, o)
    requires Barrier(rest.log, chunks, from + 1)
    ensures Barrier(c.log + rest.log, chunks, from)
  {
    hide FilledIn, Genuine;
    var log := c.log + rest.log;
    assert forall i :: 0 <= i < |c.log| ==> log[i] == c.log[i] && log[i].chunk == from;
    forall j, d, o | 0 <= j < |log| && from <= d < log[j].chunk && d < |chunks| && o in chunks[d]
      ensures FilledIn(log[..j], o)
    {
      var k := j - |c.log|;
      assert log[..j] == c.log + rest.log[..k] && log[j] == rest.log[k];
      assert d > from ==> FilledIn(rest.log[..k], o);
      FilledInConcat(c.log, rest.log[..k], o);
    }
  }

  // ---------------------------------------------------------------------------------------
  // Theorems
  // ---------------------------------------------------------------------------------------

  /** Submission `i` fills order `o`; every other submission of `o` comes before it and fills nothing. */
  ghost predicate SettledAt(log: seq<Submission>, o: ExecOrder, i: nat)
  {
    && i < |log| && log[i].order == o && WasFilled(log[i])
    && forall j :: 0 <= j < |log| && j != i && log[j].order.uid == o.uid ==> j < i && !WasFilled(log[j])
  }

  lemma BuildIsOk(b: Broker, t: Trade, chunks: seq<seq<ExecOrder>>)
    requires PlanDistinct(chunks)
    ensures BuildOk(Build(b, t, chunks), t, chunks, 0)
  {
    hide RunBuild, BuildOk, PlanDistinct;
    BuildFacts(b, t, 0, chunks, 0);
  }

  /** A build that succeeds has filled every order exactly once, by its last submission. */
  lemma BuiltMeansFilledExactlyOnce(b: Broker, t: Trade, chunks: seq<seq<ExecOrder>>, c: nat, o: ExecOrder)
    requires PlanDistinct(chunks) && Build(b, t, chunks).failure.None? && c < |chunks| && o in chunks[c]
    ensures exists i :: SettledAt(Build(b, t, chunks).log, o, i)
  {
    var r := Build(b, t, chunks);
    BuildIsOk(b, t, chunks);
    assert FilledIn(r.log, o);
    hide Build, PlanDistinct, Genuine, Barrier, OpenIsLast;
    var i :| 0 <= i < |r.log| && r.log[i].order == o && WasFilled(r.log[i]);
    FilledIsSettled(r.log, o, i);
  }

  lemma FilledIsSettled(log: seq<Submission>, o: ExecOrder, i: nat)
    requires RetriesOnly(log) && i < |log| && log[i].order == o && WasFilled(log[i])
    ensures SettledAt(log, o, i)
  {
    forall j | 0 <= j < |log| && j != i && log[j].order.uid == o.uid ensures j < i && !WasFilled(log[j]) {
      assert j < i ==> Judge(log[j].reply) == Retry;
    }
  }

  /** In every build, whatever its outcome, a chunk is complete before anything of a later chunk is submitted. */
  lemma ChunksInSequence(b: Broker, t: Trade, chunks: seq<seq<ExecOrder>>, j: nat, c: nat, o: ExecOrder)
    requires PlanDistinct(chunks) && j < |Build(b, t, chunks).log| && c < |chunks| && o in chunks[c]
    requires c < Build(b, t, chunks).log[j].chunk
    ensures FilledIn(Build(b, t, chunks).log[..j], o)
  {
    BuildIsOk(b, t, chunks);
    hide RunBuild, PlanDistinct, Genuine, OpenIsLast, FilledIn, RetriesOnly, BuildEntries;
  }

  /** In every build an open answer ends the run and is the reported failure, and only then is that failure reported. */
  lemma OpenAnswerStopsBuild(b: Broker, t: Trade, chunks: seq<seq<ExecOrder>>)
    requires PlanDistinct(chunks)
    ensures OpenIsLast(Build(b, t, chunks).log, Build(b, t, chunks).failure)
  {
    BuildIsOk(b, t, chunks);
    hide RunBuild, PlanDistinct, Genuine, OpenIsLast, FilledIn, RetriesOnly, BuildEntries;
  }

  function CountOf(log: seq<Submission>, uid: string): nat
  {
    if log == [] then 0 else (if log[0].order.uid == uid then 1 else 0) + CountOf(log[1..], uid)
  }

  lemma {:induction false} AttemptsBoundCount(log: seq<Submission>, uid: string, low: nat)
    requires RetriesOnly(log) && low <= MAX_CHUNK_RETRIES
    requires forall i :: 0 <= i < |log| && log[i].order.uid == uid ==> low <= log[i].attempt < MAX_CHUNK_RETRIES
    ensures CountOf(log, uid) <= MAX_CHUNK_RETRIES - low
  {
    if log != [] {
      hide Judge;
      assert forall i :: 0 < i < |log| ==> log[1..][i - 1] == log[i];
      var next := if log[0].order.uid == uid then log[0].attempt + 1 else low;
      assert RetriesOnly(log[1..]) by { RetriesOnlyTail(log); }
      AttemptsBoundCount(log[1..], uid, next);
    }
  }

  lemma RetriesOnlyTail(log: seq<Submission>)
    requires RetriesOnly(log) && log != []
    ensures RetriesOnly(log[1..])
  {
    hide Judge;
    var tail := log[1..];
    forall i, j | 0 <= i < j < |tail| && tail[i].order.uid == tail[j].order.uid
      ensures tail[i].order == tail[j].order && Judge(tail[i].reply) == Retry && tail[i].attempt < tail[j].attempt
    {
      assert tail[i] == log[i + 1] && tail[j] == log[j + 1];
    }
  }

  /** No order is submitted more than three times in any build. */
  lemma AtMostThreeSubmissions(b: Broker, t: Trade, chunks: seq<seq<ExecOrder>>, uid: string)
    requires PlanDistinct(chunks)
    ensures CountOf(Build(b, t, chunks).log, uid) <= 3
  {
    BuildIsOk(b, t, chunks);
    hide RunBuild, PlanDistinct, OpenIsLast, FilledIn, RetriesOnly, IntentFor;
    AttemptsBoundCount(Build(b, t, chunks).log, uid, 0);
  }

  lemma LimitNonIncreasing(t: Trade, o: ExecOrder, i: nat, j: nat)
    requires i <= j
    ensures 1 <= LimitTicks(t, o, j) <= LimitTicks(t, o, i)
  {
    var x, y := Times((i + 1) as real, SellBuffer(t)), Times((j + 1) as real, SellBuffer(t));
    TimesBound((i + 1) as real, 0.0, (j + 1) as real, SellBuffer(t));
    hide Times;
    var p, q := o.expectedPrice - x, o.expectedPrice - y;
    var u := (if p > 0.05 then p else 0.05) / 0.05;
    var v := (if q > 0.05 then q else 0.05) / 0.05;
    assert 1.0 <= v <= u;
    RoundMonotone(v, u);
    RoundMonotone(1.0, v);
    assert Round(1.0) == 1;
  }

  /** A positive multiple of the price step. */
  predicate OnGrid(price: real, ticks: int)
  {
    ticks >= 1 && price == ticks as real * 0.05
  }

  /** Limit prices are positive multiples of 0.05, and an order's successive prices never rise. */
  lemma PricesNeverRise(b: Broker, t: Trade, chunks: seq<seq<ExecOrder>>, i: nat, j: nat)
    requires PlanDistinct(chunks) && i <= j < |Build(b, t, chunks).log|
    requires Build(b, t, chunks).log[i].order.uid == Build(b, t, chunks).log[j].order.uid
    ensures
      var p, q := Build(b, t, chunks).log[i].intent.limitPrice, Build(b, t, chunks).log[j].intent.limitPrice;
      q <= p && (exists ticks :: OnGrid(p, ticks)) && exists ticks :: OnGrid(q, ticks)
  {
    BuildIsOk(b, t, chunks);
    hide RunBuild, PlanDistinct, OpenIsLast, FilledIn, Judge, LimitTicks;
    var log := Build(b, t, chunks).log;
    assert Genuine(t, log[i]) && Genuine(t, log[j]);
    assert log[i].order == log[j].order && log[i].attempt <= log[j].attempt;
    var o := log[i].order;
    LimitNonIncreasing(t, o, log[i].attempt, log[j].attempt);
    var p, q := LimitTicks(t, o, log[i].attempt), LimitTicks(t, o, log[j].attempt);
    assert OnGrid(log[i].intent.limitPrice, p) && OnGrid(log[j].intent.limitPrice, q);
  }

  // ---------------------------------------------------------------------------------------
  // The broker's answers
  // ---------------------------------------------------------------------------------------

  /** From answer `n` of the broker on, the log holds its answers one by one. */
  ghost predicate Answers(b: Broker, n: nat, log: seq<Submission>)
  {
    forall i :: 0 <= i < |log| ==> log[i].reply == b(n + i, log[i].intent)
  }

  lemma AnswersConcat(b: Broker, n: nat, xs: seq<Submission>, ys: seq<Submission>)
    requires Answers(b, n, xs) && Answers(b, n + |xs|, ys)
    ensures Answers(b, n, xs + ys)
  {
    forall i | 0 <= i < |xs + ys| ensures (xs + ys)[i].reply == b(n + i, (xs + ys)[i].intent) {
      if i >= |xs| {
        assert ys[i - |xs|].reply == b(n + |xs| + (i - |xs|), ys[i - |xs|].intent);
      }
    }
  }

  lemma {:induction false} PassReplies(b: Broker, t: Trade, n: nat, chunk: nat, attempt: nat, orders: seq<ExecOrder>)
    ensures Answers(b, n, RunPass(b, t, n, chunk, attempt, orders).log)
    decreases |orders|
  {
    if orders != [] && orders[0].quantity > 0 {
      hide Judge, IntentFor;
      var s := Submit(b, t, n, chunk, attempt, orders[0]);
      PassReplies(b, t, n + 1, chunk, attempt, orders[1..]);
      AnswersConcat(b, n, [s], RunPass(b, t, n + 1, chunk, attempt, orders[1..]).log);
    }
  }

  lemma {:induction false} ChunkReplies(b: Broker, t: Trade, n: nat, chunk: nat, attempt: nat, orders: seq<ExecOrder>)
    requires attempt <= MAX_CHUNK_RETRIES
    ensures Answers(b, n, RunChunk(b, t, n, chunk, attempt, orders).log)
    decreases MAX_CHUNK_RETRIES - attempt
  {
    hide RunPass, Answers;
    if orders == [] || attempt == MAX_CHUNK_RETRIES {
      NoAnswers(b, n);
    } else {
      PassReplies(b, t, n, chunk, attempt, orders);
      var p := RunPass(b, t, n, chunk, attempt, orders);
      if p.failure.None? {
        ChunkReplies(b, t, n + |p.log|, chunk, attempt + 1, p.retry);
        AnswersConcat(b, n, p.log, RunChunk(b, t, n + |p.log|, chunk, attempt + 1, p.retry).log);
      }
    }
  }

  lemma NoAnswers(b: Broker, n: nat)
    ensures Answers(b, n, [])
  {
  }

  lemma {:induction false} RunReplies(b: Broker, t: Trade, n: nat, chunks: seq<seq<ExecOrder>>, chunk: nat)
    requires chunk <= |chunks|
    ensures Answers(b, n, RunBuild(b, t, n, chunks, chunk).log)
    decreases |chunks| - chunk
  {
    hide RunChunk, Answers;
    if chunk == |chunks| {
      NoAnswers(b, n);
    } else {
      ChunkReplies(b, t, n, chunk, 0, chunks[chunk]);
      var c := RunChunk(b, t, n, chunk, 0, chunks[chunk]);
      if c.failure.None? {
        RunReplies(b, t, n + |c.log|, chunks, chunk + 1);
        AnswersConcat(b, n, c.log, RunBuild(b, t, n + |c.log|, chunks, chunk + 1).log);
      }
    }
  }

  /** The broker is asked once per submission, in order, and the log holds what it answered. */
  lemma BuildReplies(b: Broker, t: Trade, chunks: seq<seq<ExecOrder>>, k: nat)
    requires k < |Build(b, t, chunks).log|
    ensures Build(b, t, chunks).log[k].reply == b(k, Build(b, t, chunks).log[k].intent)
  {
    hide RunBuild;
    RunReplies(b, t, 0, chunks, 0);
  }
}
