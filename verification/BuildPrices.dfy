/** What each submission of a build says to the broker, and when a build gives up. */
module BuildPrices {
  import opened BuildExecutor
  import opened BuildProperties
  import opened OrderTable
  import opened Rounding

  // ---------------------------------------------------------------------------------------
  // Attempts count earlier submissions
  // ---------------------------------------------------------------------------------------

  /** Every submission is numbered by how often its order was submitted before, from `base` on. */
  ghost predicate Numbered(log: seq<Submission>, base: nat)
  {
    forall i :: 0 <= i < |log| ==> log[i].attempt == base + CountOf(log[..i], log[i].order.uid)
  }

  lemma {:induction false} CountConcat(xs: seq<Submission>, ys: seq<Submission>, uid: string)
    ensures CountOf(xs + ys, uid) == CountOf(xs, uid) + CountOf(ys, uid)
  {
    if xs == [] {
      assert xs + ys == ys;
    } else {
      assert (xs + ys)[1..] == xs[1..] + ys;
      CountConcat(xs[1..], ys, uid);
    }
  }

  lemma {:induction false} CountNone(log: seq<Submission>, uid: string)
    requires forall i :: 0 <= i < |log| ==> log[i].order.uid != uid
    ensures CountOf(log, uid) == 0
  {
    if log != [] {
      CountNone(log[1..], uid);
    }
  }

  lemma CountOnce(log: seq<Submission>, k: nat)
    requires k < |log| && forall i :: 0 <= i < |log| && i != k ==> log[i].order.uid != log[k].order.uid
    ensures CountOf(log, log[k].order.uid) == 1
  {
    hide CountOf;
    var uid := log[k].order.uid;
    assert log == log[..k] + ([log[k]] + log[k + 1..]);
    CountConcat(log[..k], [log[k]] + log[k + 1..], uid);
    CountConcat([log[k]], log[k + 1..], uid);
    CountNone(log[..k], uid);
    CountNone(log[k + 1..], uid);
    CountSingle(log[k]);
  }

  lemma CountSingle(s: Submission)
    ensures CountOf([s], s.order.uid) == 1
  {
    assert [s][1..] == [];
  }

  lemma PassNumbered(p: Pass, t: Trade, chunk: nat, attempt: nat, orders: seq<ExecOrder>)
    requires PassOk(p, t, chunk, attempt, orders) && DistinctOrders(orders)
    ensures Numbered(p.log, attempt)
    ensures forall o :: o in p.retry ==> CountOf(p.log, o.uid) == 1
  {
    PassBound(p, t, chunk, attempt, orders);
    hide PassOk, CountOf;
    forall i | 0 <= i < |p.log| ensures CountOf(p.log[..i], p.log[i].order.uid) == 0 {
      CountNone(p.log[..i], p.log[i].order.uid);
    }
    forall o | o in p.retry ensures CountOf(p.log, o.uid) == 1 {
      var k := RetryIsOrder(p, t, chunk, attempt, orders, o);
      CountOnce(p.log, k);
    }
  }

  lemma NumberedConcat(xs: seq<Submission>, ys: seq<Submission>, base: nat, more: nat)
    requires Numbered(xs, base) && Numbered(ys, base + more)
    requires forall i :: 0 <= i < |ys| ==> CountOf(xs, ys[i].order.uid) == more
    ensures Numbered(xs + ys, base)
  {
    hide CountOf;
    var log := xs + ys;
    forall i | 0 <= i < |log| ensures log[i].attempt == base + CountOf(log[..i], log[i].order.uid) {
      if i < |xs| {
        assert log[..i] == xs[..i];
      } else {
        assert log[..i] == xs + ys[..i - |xs|] && log[i] == ys[i - |xs|];
        CountConcat(xs, ys[..i - |xs|], log[i].order.uid);
      }
    }
  }

  lemma {:induction false} ChunkNumbered(b: Broker, t: Trade, n: nat, chunk: nat, attempt: nat, orders: seq<ExecOrder>)
    requires attempt <= MAX_CHUNK_RETRIES && DistinctOrders(orders)
    ensures Numbered(RunChunk(b, t, n, chunk, attempt, orders).log, attempt)
    decreases MAX_CHUNK_RETRIES - attempt
  {
    hide RunPass, DistinctOrders, PassOk, CountOf;
    if orders != [] && attempt < MAX_CHUNK_RETRIES {
      var p := RunPass(b, t, n, chunk, attempt, orders);
      PassFacts(b, t, n, chunk, attempt, orders);
      PassNumbered(p, t, chunk, attempt, orders);
      if p.failure.None? {
        var rest := RunChunk(b, t, n + |p.log|, chunk, attempt + 1, p.retry);
        RetryDistinct(p, t, chunk, attempt, orders);
        ChunkNumbered(b, t, n + |p.log|, chunk, attempt + 1, p.retry);
        ChunkFacts(b, t, n + |p.log|, chunk, attempt + 1, p.retry);
        assert forall i :: 0 <= i < |rest.log| ==> rest.log[i].order in p.retry;
        NumberedConcat(p.log, rest.log, attempt, 1);
      }
    }
  }

  /** Orders of one chunk are not mentioned by the log of the chunks after it. */
  lemma LaterChunks(c: seq<Submission>, rest: seq<Submission>, t: Trade, chunks: seq<seq<ExecOrder>>, from: nat,
                    uid: string)
    requires PlanDistinct(chunks) && from < |chunks| && ChunkEntries(c, t, from, 0, chunks[from])
    requires BuildEntries(rest, t, chunks, from + 1)
    ensures (exists j :: 0 <= j < |rest| && rest[j].order.uid == uid) ==> CountOf(c, uid) == 0
    ensures (exists o :: o in chunks[from] && o.uid == uid) ==> CountOf(rest, uid) == 0
  {
    hide CountOf, Genuine;
    if j :| 0 <= j < |rest| && rest[j].order.uid == uid {
      CountNone(c, uid);
    }
    if o :| o in chunks[from] && o.uid == uid {
      CountNone(rest, uid);
    }
  }

  lemma {:induction false} RunNumbered(b: Broker, t: Trade, n: nat, chunks: seq<seq<ExecOrder>>, from: nat)
    requires from <= |chunks| && PlanDistinct(chunks)
    ensures Numbered(RunBuild(b, t, n, chunks, from).log, 0)
    decreases |chunks| - from
  {
    hide RunChunk, PlanDistinct, CountOf;
    if from < |chunks| {
      var c := RunChunk(b, t, n, from, 0, chunks[from]);
      ChunkDistinct(chunks, from);
      ChunkNumbered(b, t, n, from, 0, chunks[from]);
      ChunkFacts(b, t, n, from, 0, chunks[from]);
      if c.failure.None? {
        var rest := RunBuild(b, t, n + |c.log|, chunks, from + 1);
        RunNumbered(b, t, n + |c.log|, chunks, from + 1);
        BuildFacts(b, t, n + |c.log|, chunks, from + 1);
        hide RunBuild, Numbered, RetriesOnly, OpenIsLast, Barrier;
        forall i | 0 <= i < |rest.log| ensures CountOf(c.log, rest.log[i].order.uid) == 0 {
          LaterChunks(c.log, rest.log, t, chunks, from, rest.log[i].order.uid);
        }
        NumberedConcat(c.log, rest.log, 0, 0);
      }
    }
  }

  /** In every build a submission's attempt is the number of earlier submissions of its order. */
  lemma AttemptsCountSubmissions(b: Broker, t: Trade, chunks: seq<seq<ExecOrder>>, i: nat)
    requires PlanDistinct(chunks) && i < |Build(b, t, chunks).log|
    ensures var log := Build(b, t, chunks).log; log[i].attempt == CountOf(log[..i], log[i].order.uid)
  {
    hide RunBuild, PlanDistinct, CountOf;
    RunNumbered(b, t, 0, chunks, 0);
  }

  // ---------------------------------------------------------------------------------------
  // Limit prices
  // ---------------------------------------------------------------------------------------

  /** The multiple of 0.05 nearest to a price, or one of the two nearest. */
  predicate NearestStep(limit: real, price: real, steps: int)
  {
    limit == steps as real * 0.05 && -0.025 <= limit - price <= 0.025
  }

  lemma RoundsToStep(price: real)
    ensures NearestStep(Round(price / 0.05) as real * 0.05, price, Round(price / 0.05))
  {
    var x := price / 0.05;
    assert x - 0.5 <= Round(x) as real <= x + 0.5;
  }

  /**
   A limit price for the `times`-th submission of an order: the expected price less that many sell
   buffers (of 2.0 if none is configured), not below 0.05, rounded to a multiple of 0.05.
   */
  ghost predicate Buffered(limit: real, expected: real, sellBuffer: real, times: nat)
  {
    exists steps :: NearestStep(limit, Reduced(expected, sellBuffer, times), steps)
  }

  function Reduced(expected: real, sellBuffer: real, times: nat): real
  {
    var buffer := if sellBuffer > 0.0 then sellBuffer else 2.0;
    var reduced := expected - times as real * buffer;
    if reduced >= 0.05 then reduced else 0.05
  }

  /** In every build, a limit price is reduced once for this and once for each earlier submission of the order. */
  lemma LimitIsBuffered(b: Broker, t: Trade, chunks: seq<seq<ExecOrder>>, i: nat)
    requires PlanDistinct(chunks) && i < |Build(b, t, chunks).log|
    ensures var log := Build(b, t, chunks).log;
      Buffered(log[i].intent.limitPrice, log[i].order.expectedPrice, t.sellBuffer, 1 +
        CountOf(log[..i], log[i].order.uid))
  {
    hide RunBuild, PlanDistinct, CountOf, Buffered, LimitTicks;
    AttemptsCountSubmissions(b, t, chunks, i);
    var s := Build(b, t, chunks).log[i];
    GenuineEntry(b, t, chunks, i);
    BufferedLimit(t, s.order, s.attempt);
  }

  lemma GenuineEntry(b: Broker, t: Trade, chunks: seq<seq<ExecOrder>>, i: nat)
    requires PlanDistinct(chunks) && i < |Build(b, t, chunks).log|
    ensures Genuine(t, Build(b, t, chunks).log[i])
    ensures var s := Build(b, t, chunks).log[i]; s.chunk < |chunks| && s.order in chunks[s.chunk]
  {
    hide RunBuild, PlanDistinct, OpenIsLast, RetriesOnly, Barrier, Genuine;
    BuildIsOk(b, t, chunks);
  }

  lemma BufferedLimit(t: Trade, o: ExecOrder, attempt: nat)
    ensures Buffered(IntentFor(t, o, attempt).limitPrice, o.expectedPrice, t.sellBuffer, 1 + attempt)
  {
    hide NearestStep, Round;
    var times := 1 + attempt;
    assert LimitTicks(t, o, attempt) == Round(Reduced(o.expectedPrice, t.sellBuffer, times) / 0.05);
    RoundsToStep(Reduced(o.expectedPrice, t.sellBuffer, times));
  }

  /** In every build, a submission says what its order is, for this trade and as part of the build. */
  lemma SubmissionSaysOrder(b: Broker, t: Trade, chunks: seq<seq<ExecOrder>>, i: nat)
    requires PlanDistinct(chunks) && i < |Build(b, t, chunks).log|
    ensures
      var s := Build(b, t, chunks).log[i];
      var o, x := s.order, s.intent;
      && x.intentId == x.orderUid == o.uid && x.tradeUid == t.tradeUid && x.phase == "BUILD"
      && x.token == o.token && x.symbol == o.symbol && x.side == o.action && x.legType == o.optionType
      && x.quantity == o.quantity > 0 && x.expectedPrice == o.expectedPrice
      && s.chunk < |chunks| && o in chunks[s.chunk]
  {
    hide RunBuild, PlanDistinct, LimitTicks;
    GenuineEntry(b, t, chunks, i);
  }

  // ---------------------------------------------------------------------------------------
  // Reasons to stop
  // ---------------------------------------------------------------------------------------

  /** How answers are read: these two statuses fill, these two and an error are retried, everything else stops. */
  lemma AnswersRead(r: Reply)
    ensures Judge(r) == Filled <==> r.Answer? && r.status in {"FILLED", "SUCCESS"}
    ensures Judge(r) == Retry <==> r.BrokerError? || r.status in {"REJECTED", "CANCELLED"}
  {
    assert "FILLED"[0] == 'F' && "SUCCESS"[0] == 'S' && "REJECTED"[0] == 'R' && "CANCELLED"[0] == 'C';
  }

  ghost predicate OnlyRetried(log: seq<Submission>, uid: string)
  {
    forall j :: 0 <= j < |log| && log[j].order.uid == uid ==> Judge(log[j].reply) == Retry
  }

  /** The order was submitted this often, and every time it was to be retried. */
  ghost predicate Exhausted(log: seq<Submission>, o: ExecOrder, times: nat)
  {
    CountOf(log, o.uid) == times && OnlyRetried(log, o.uid)
  }

  lemma PassExhausts(p: Pass, t: Trade, chunk: nat, attempt: nat, orders: seq<ExecOrder>, o: ExecOrder)
    requires PassOk(p, t, chunk, attempt, orders) && DistinctOrders(orders) && o in p.retry
    ensures Exhausted(p.log, o, 1) && o in orders
  {
    PassNumbered(p, t, chunk, attempt, orders);
    PassBound(p, t, chunk, attempt, orders);
    hide PassOk, CountOf, Judge;
    var k := RetryIsOrder(p, t, chunk, attempt, orders, o);
  }

  lemma ExhaustedConcat(xs: seq<Submission>, ys: seq<Submission>, o: ExecOrder, m: nat, n: nat)
    requires Exhausted(xs, o, m) && Exhausted(ys, o, n)
    ensures Exhausted(xs + ys, o, m + n)
  {
    hide CountOf, Judge;
    CountConcat(xs, ys, o.uid);
    assert forall j :: 0 <= j < |xs + ys| ==> (xs + ys)[j] == if j < |xs| then xs[j] else ys[j - |xs|];
  }

  lemma NeverExhausted(log: seq<Submission>, o: ExecOrder)
    requires CountOf(log, o.uid) == 0
    ensures Exhausted(log, o, 0)
  {
    if j :| 0 <= j < |log| && log[j].order.uid == o.uid {
      assert log == log[..j] + ([log[j]] + log[j + 1..]);
      CountConcat(log[..j], [log[j]] + log[j + 1..], o.uid);
    }
  }

  lemma {:induction false} ChunkExhausts(b: Broker, t: Trade, n: nat, chunk: nat, attempt: nat, orders: seq<ExecOrder>)
      returns (o: ExecOrder)
    requires attempt <= MAX_CHUNK_RETRIES && DistinctOrders(orders)
    requires var f := RunChunk(b, t, n, chunk, attempt, orders).failure; f.Some? && f.value.RetriesExhausted?
    ensures o in orders && Exhausted(RunChunk(b, t, n, chunk, attempt, orders).log, o, MAX_CHUNK_RETRIES - attempt)
    ensures RunChunk(b, t, n, chunk, attempt, orders).failure.value.chunk == chunk
    decreases MAX_CHUNK_RETRIES - attempt
  {
    hide RunPass, DistinctOrders, PassOk, Exhausted;
    if attempt == MAX_CHUNK_RETRIES {
      o := orders[0];
      NeverExhausted([], o);
    } else {
      var p := RunPass(b, t, n, chunk, attempt, orders);
      PassFacts(b, t, n, chunk, attempt, orders);
      RetryDistinct(p, t, chunk, attempt, orders);
      PassNeverExhausts(b, t, n, chunk, attempt, orders);
      o := ChunkExhausts(b, t, n + |p.log|, chunk, attempt + 1, p.retry);
      PassExhausts(p, t, chunk, attempt, orders, o);
      ExhaustedConcat(p.log, RunChunk(b, t, n + |p.log|, chunk, attempt + 1, p.retry).log, o, 1,
                      MAX_CHUNK_RETRIES - attempt - 1);
    }
  }

  /** A pass stops for a bad quantity of one of its orders or for an open answer. */
  lemma {:induction false} PassNeverExhausts(b: Broker, t: Trade, n: nat, chunk: nat, attempt: nat,
                                             orders: seq<ExecOrder>)
    ensures var f := RunPass(b, t, n, chunk, attempt, orders).failure;
      f.Some? ==> !f.value.RetriesExhausted? && (f.value.InvalidQuantity? ==>
        f.value.order in orders && f.value.order.quantity <= 0)
    decreases |orders|
  {
    hide Judge, IntentFor;
    if orders != [] && orders[0].quantity > 0 {
      PassNeverExhausts(b, t, n + 1, chunk, attempt, orders[1..]);
    }
  }

  lemma {:induction false} RunExhausts(b: Broker, t: Trade, n: nat, chunks: seq<seq<ExecOrder>>, from: nat)
      returns (o: ExecOrder)
    requires from <= |chunks| && PlanDistinct(chunks)
    requires var f := RunBuild(b, t, n, chunks, from).failure; f.Some? && f.value.RetriesExhausted?
    ensures var r := RunBuild(b, t, n, chunks, from);
      from <= r.failure.value.chunk < |chunks| && o in chunks[r.failure.value.chunk] &&
        Exhausted(r.log, o, MAX_CHUNK_RETRIES)
    decreases |chunks| - from
  {
    hide RunChunk, PlanDistinct, Exhausted, CountOf;
    var c := RunChunk(b, t, n, from, 0, chunks[from]);
    ChunkDistinct(chunks, from);
    if c.failure.Some? {
      o := ChunkExhausts(b, t, n, from, 0, chunks[from]);
    } else {
      o := RunExhausts(b, t, n + |c.log|, chunks, from + 1);
      var rest := RunBuild(b, t, n + |c.log|, chunks, from + 1);
      EarlierChunk(c, b, t, n, chunks, from, o, rest.failure.value.chunk);
      ExhaustedConcat(c.log, rest.log, o, 0, MAX_CHUNK_RETRIES);
    }
  }

  lemma EarlierChunk(c: Result, b: Broker, t: Trade, n: nat, chunks: seq<seq<ExecOrder>>, from: nat, o: ExecOrder,
                     d: nat)
    requires PlanDistinct(chunks) && from < d < |chunks| && o in chunks[d]
    requires c == RunChunk(b, t, n, from, 0, chunks[from])
    ensures Exhausted(c.log, o, 0)
  {
    ChunkDistinct(chunks, from);
    ChunkFacts(b, t, n, from, 0, chunks[from]);
    hide RunChunk, Exhausted, Judge, Genuine, RetriesOnly, OpenIsLast, FilledIn, CountOf;
    CountNone(c.log, o.uid);
    NeverExhausted(c.log, o);
  }

  /**
   A build gives up on a chunk only after one of its orders was submitted three times and rejected
   or failed each time.
   */
  lemma GivesUpAfterThree(b: Broker, t: Trade, chunks: seq<seq<ExecOrder>>) returns (o: ExecOrder)
    requires PlanDistinct(chunks)
    requires var f := Build(b, t, chunks).failure; f.Some? && f.value.RetriesExhausted?
    ensures var r := Build(b, t, chunks);
      && r.failure.value.chunk < |chunks| && o in chunks[r.failure.value.chunk]
      && CountOf(r.log, o.uid) == 3
      && forall j :: 0 <= j < |r.log| && r.log[j].order.uid == o.uid ==>
           r.log[j].reply.BrokerError? || r.log[j].reply.status in {"REJECTED", "CANCELLED"}
  {
    hide RunBuild, PlanDistinct, CountOf, Judge;
    o := RunExhausts(b, t, 0, chunks, 0);
    var log := Build(b, t, chunks).log;
    forall j | 0 <= j < |log| && log[j].order.uid == o.uid
      ensures log[j].reply.BrokerError? || log[j].reply.status in {"REJECTED", "CANCELLED"}
    {
      AnswersRead(log[j].reply);
    }
  }

  /** A build reports a bad quantity only for a planned order that has one. */
  lemma {:induction false} BadQuantityIsPlanned(b: Broker, t: Trade, n: nat, chunks: seq<seq<ExecOrder>>, from: nat)
    requires from <= |chunks| && PlanDistinct(chunks)
    requires var f := RunBuild(b, t, n, chunks, from).failure; f.Some? && f.value.InvalidQuantity?
    ensures var o := RunBuild(b, t, n, chunks, from).failure.value.order;
      o.quantity <= 0 && exists c :: 0 <= c < |chunks| && o in chunks[c]
    decreases |chunks| - from
  {
    hide RunChunk, PlanDistinct;
    var c := RunChunk(b, t, n, from, 0, chunks[from]);
    ChunkDistinct(chunks, from);
    if c.failure.Some? {
      ChunkBadQuantity(b, t, n, from, 0, chunks[from]);
    } else {
      BadQuantityIsPlanned(b, t, n + |c.log|, chunks, from + 1);
    }
  }

  lemma {:induction false} ChunkBadQuantity(b: Broker, t: Trade, n: nat, chunk: nat, attempt: nat,
                                            orders: seq<ExecOrder>)
    requires attempt <= MAX_CHUNK_RETRIES && DistinctOrders(orders)
    ensures var f := RunChunk(b, t, n, chunk, attempt, orders).failure;
      f.Some? && f.value.InvalidQuantity? ==> f.value.order in orders && f.value.order.quantity <= 0
    decreases MAX_CHUNK_RETRIES - attempt
  {
    hide RunPass, DistinctOrders, PassOk;
    if orders != [] && attempt < MAX_CHUNK_RETRIES {
      var p := RunPass(b, t, n, chunk, attempt, orders);
      PassNeverExhausts(b, t, n, chunk, attempt, orders);
      PassFacts(b, t, n, chunk, attempt, orders);
      RetryDistinct(p, t, chunk, attempt, orders);
      if p.failure.None? {
        ChunkBadQuantity(b, t, n + |p.log|, chunk, attempt + 1, p.retry);
        forall o | o in p.retry ensures o in orders {
          PassExhausts(p, t, chunk, attempt, orders, o);
        }
      }
    }
  }
}
