/**
 `executeBuild`: drives the chunks of a build through an untrusted broker, retrying errors and
 terminal rejections at most three times per order and stopping at any answer that is not a fill.
 */
module BuildExecutor {
  import opened OrderTable
  import opened Rounding
  import opened Sequences
  import opened Wrappers

  datatype Trade = Trade(tradeUid: string, sellBuffer: real)

  datatype Verdict = Filled | Retry | Open

  function Judge(r: Reply): Verdict
  {
    if r.BrokerError? then Retry
    else if IsFilledStatus(r.status) then Filled
    else if r.status == "REJECTED" || r.status == "CANCELLED" then Retry
    else Open
  }

  /** One call to the broker, with its place in the build. */
  datatype Submission = Submission(chunk: nat, attempt: nat, order: ExecOrder, intent: Intent, reply: Reply)

  datatype Failure =
    | InvalidQuantity(order: ExecOrder)
    | PendingFill(intentId: string, reply: Reply)
    | RetriesExhausted(chunk: nat)

  const MAX_CHUNK_RETRIES := 3

  function SellBuffer(t: Trade): (b: real)
    ensures b > 0.0
  {
    if t.sellBuffer <= 0.0 then 2.0 else t.sellBuffer
  }

  /** Limit price in units of 0.05: the expected price less a buffer that grows with each attempt. */
  function LimitTicks(t: Trade, o: ExecOrder, attempt: nat): int
  {
    var limit := o.expectedPrice - Times((attempt + 1) as real, SellBuffer(t));
    Round((if limit > 0.05 then limit else 0.05) / 0.05)
  }

  function IntentFor(t: Trade, o: ExecOrder, attempt: nat): Intent
  {
    Intent(o.uid, o.uid, t.tradeUid, o.token, o.symbol, o.action, o.quantity, o.optionType, "BUILD",
           LimitTicks(t, o, attempt) as real * 0.05, o.expectedPrice)
  }

  function Submit(b: Broker, t: Trade, n: nat, chunk: nat, attempt: nat, o: ExecOrder): Submission
  {
    var intent := IntentFor(t, o, attempt);
    Submission(chunk, attempt, o, intent, b(n, intent))
  }

  // ---------------------------------------------------------------------------------------
  // The build as a function of the broker
  // ---------------------------------------------------------------------------------------

  datatype Pass = Pass(log: seq<Submission>, retry: seq<ExecOrder>, failure: Option<Failure>)

  /** One attempt at each of `orders`, in turn, until one has to stop the build. */
  function RunPass(b: Broker, t: Trade, n: nat, chunk: nat, attempt: nat, orders: seq<ExecOrder>): Pass
    decreases |orders|
  {
    if orders == [] then Pass([], [], None) else
    var o := orders[0];
    if o.quantity <= 0 then Pass([], [], Some(InvalidQuantity(o))) else
    var s := Submit(b, t, n, chunk, attempt, o);
    if Judge(s.reply) == Open then Pass([s], [], Some(PendingFill(s.intent.intentId, s.reply))) else
    var rest := RunPass(b, t, n + 1, chunk, attempt, orders[1..]);
    Pass([s] + rest.log, (if Judge(s.reply) == Retry then [o] else []) + rest.retry, rest.failure)
  }

  datatype Result = Result(log: seq<Submission>, failure: Option<Failure>)

  /** Attempts `attempt` and later on what is left of a chunk. */
  function RunChunk(b: Broker, t: Trade, n: nat, chunk: nat, attempt: nat, orders: seq<ExecOrder>): Result
    requires attempt <= MAX_CHUNK_RETRIES
    decreases MAX_CHUNK_RETRIES - attempt
  {
    if orders == [] then Result([], None)
    else if attempt == MAX_CHUNK_RETRIES then Result([], Some(RetriesExhausted(chunk)))
    else
      var p := RunPass(b, t, n, chunk, attempt, orders);
      if p.failure.Some? then Result(p.log, p.failure) else
      var rest := RunChunk(b, t, n + |p.log|, chunk, attempt + 1, p.retry);
      Result(p.log + rest.log, rest.failure)
  }

  /** Chunks `chunk` and later. */
  function RunBuild(b: Broker, t: Trade, n: nat, chunks: seq<seq<ExecOrder>>, chunk: nat): Result
    requires chunk <= |chunks|
    decreases |chunks| - chunk
  {
    if chunk == |chunks| then Result([], None) else
    var c := RunChunk(b, t, n, chunk, 0, chunks[chunk]);
    if c.failure.Some? then c else
    var rest := RunBuild(b, t, n + |c.log|, chunks, chunk + 1);
    Result(c.log + rest.log, rest.failure)
  }

  function Build(b: Broker, t: Trade, chunks: seq<seq<ExecOrder>>): Result
  {
    RunBuild(b, t, 0, chunks, 0)
  }

  // ---------------------------------------------------------------------------------------
  // Effect on the store
  // ---------------------------------------------------------------------------------------

  /** The order table after the submissions of a log. */
  function Replay(rows: seq<Row>, log: seq<Submission>): seq<Row>
  {
    if log == [] then rows else
    var s := log[|log| - 1];
    Record(Replay(rows, log[..|log| - 1]), s.intent, s.reply)
  }

  lemma ReplaySnoc(rows: seq<Row>, log: seq<Submission>, s: Submission)
    ensures Replay(rows, log + [s]) == Record(Replay(rows, log), s.intent, s.reply)
  {
    assert (log + [s])[..|log|] == log;
  }

  lemma {:induction false} ReplayConcat(rows: seq<Row>, xs: seq<Submission>, ys: seq<Submission>)
    ensures Replay(rows, xs + ys) == Replay(Replay(rows, xs), ys)
  {
    if ys == [] {
      assert xs + ys == xs;
    } else {
      hide Record;
      var front, last := ys[..|ys| - 1], ys[|ys| - 1];
      ReplayConcat(rows, xs, front);
      AppendAssoc(xs, front, [last]);
      assert front + [last] == ys;
      ReplaySnoc(rows, xs + front, last);
      ReplaySnoc(Replay(rows, xs), front, last);
    }
  }

  function Intents(log: seq<Submission>): (ts: seq<Intent>)
    ensures |ts| == |log| && forall i :: 0 <= i < |log| ==> ts[i] == log[i].intent
  {
    seq(|log|, i requires 0 <= i < |log| => log[i].intent)
  }

  /** Submits one order: record the intent, call the broker, record its answer. */
  method SubmitOrder(store: OrderStore, b: Broker, t: Trade, n: nat, chunk: nat, attempt: nat, o: ExecOrder)
      returns (s: Submission)
    modifies store
    ensures s == Submit(b, t, n, chunk, attempt, o)
    ensures store.rows == Record(old(store.rows), s.intent, s.reply)
    ensures store.IntentsOf(t.tradeUid) == old(store.IntentsOf(t.tradeUid)) + [s.intent]
    ensures forall u :: u != t.tradeUid ==> store.IntentsOf(u) == old(store.IntentsOf(u))
  {
    var intent := IntentFor(t, o, attempt);
    store.AppendIntent(t.tradeUid, intent);
    var reply := b(n, intent);
    if reply.Answer? {
      store.MarkOrderExecution(intent.intentId, reply);
    }
    s := Submission(chunk, attempt, o, intent, reply);
  }

  /** How far a pass has come: what is done, followed by a pass over what is left, is the whole pass. */
  ghost predicate PassSoFar(whole: Pass, log: seq<Submission>, retry: seq<ExecOrder>, rest: Pass)
  {
    whole.log == log + rest.log && whole.retry == retry + rest.retry && whole.failure == rest.failure
  }

  lemma PassAdvance(whole: Pass, log: seq<Submission>, retry: seq<ExecOrder>, s: Submission, r: seq<ExecOrder>,
                    rest: Pass)
    requires PassSoFar(whole, log, retry, Pass([s] + rest.log, r + rest.retry, rest.failure))
    ensures PassSoFar(whole, log + [s], retry + r, rest)
  {
    AppendAssoc(log, [s], rest.log);
    AppendAssoc(retry, r, rest.retry);
  }

  lemma PassStart(whole: Pass)
    ensures PassSoFar(whole, [], [], whole)
  {
    assert [] + whole.log == whole.log && [] + whole.retry == whole.retry;
  }

  lemma PassEnds(whole: Pass, log: seq<Submission>, retry: seq<ExecOrder>, more: seq<Submission>,
                 failure: Option<Failure>)
    requires PassSoFar(whole, log, retry, Pass(more, [], failure))
    ensures whole == Pass(log + more, retry, failure)
  {
    assert retry + [] == retry;
  }

  ghost predicate StoreFollows(rows: seq<Row>, ts: seq<Intent>, rows0: seq<Row>, ts0: seq<Intent>, log: seq<Submission>)
  {
    rows == Replay(rows0, log) && ts == ts0 + Intents(log)
  }

  lemma FollowSnoc(rows: seq<Row>, ts: seq<Intent>, rows0: seq<Row>, ts0: seq<Intent>, log: seq<Submission>,
                   s: Submission)
    requires StoreFollows(rows, ts, rows0, ts0, log)
    ensures StoreFollows(Record(rows, s.intent, s.reply), ts + [s.intent], rows0, ts0, log + [s])
  {
    hide Record;
    ReplaySnoc(rows0, log, s);
    assert Intents(log + [s]) == Intents(log) + [s.intent];
    AppendAssoc(ts0, Intents(log), [s.intent]);
  }

  lemma FollowConcat(rows: seq<Row>, ts: seq<Intent>, rows1: seq<Row>, ts1: seq<Intent>, rows0: seq<Row>,
                     ts0: seq<Intent>, xs: seq<Submission>, ys: seq<Submission>)
    requires StoreFollows(rows1, ts1, rows0, ts0, xs) && StoreFollows(rows, ts, rows1, ts1, ys)
    ensures StoreFollows(rows, ts, rows0, ts0, xs + ys)
  {
    hide Replay;
    ReplayConcat(rows0, xs, ys);
    assert Intents(xs + ys) == Intents(xs) + Intents(ys);
    AppendAssoc(ts0, Intents(xs), Intents(ys));
  }

  lemma FollowNothing(rows: seq<Row>, ts: seq<Intent>)
    ensures StoreFollows(rows, ts, rows, ts, [])
  {
    assert ts + Intents([]) == ts;
  }

  /** The inner loop of the build: one attempt at each order. */
  method ExecutePass(store: OrderStore, b: Broker, t: Trade, n: nat, chunk: nat, attempt: nat, orders: seq<ExecOrder>)
      returns (p: Pass)
    modifies store
    ensures p == RunPass(b, t, n, chunk, attempt, orders)
    ensures StoreFollows(store.rows, store.IntentsOf(t.tradeUid), old(store.rows), old(store.IntentsOf(t.tradeUid)),
      p.log)
  {
    hide StoreFollows, Record, PassSoFar, IntentFor, Judge;
    var log: seq<Submission>, retry: seq<ExecOrder> := [], [];
    ghost var whole := RunPass(b, t, n, chunk, attempt, orders);
    PassStart(whole);
    FollowNothing(store.rows, store.IntentsOf(t.tradeUid));
    assert orders[0..] == orders;
    for i := 0 to |orders|
      invariant PassSoFar(whole, log, retry, RunPass(b, t, n + |log|, chunk, attempt, orders[i..]))
      invariant StoreFollows(store.rows, store.IntentsOf(t.tradeUid), old(store.rows),
        old(store.IntentsOf(t.tradeUid)), log)
    {
      var o := orders[i];
      assert orders[i..][0] == o && orders[i..][1..] == orders[i + 1..];
      if o.quantity <= 0 {
        PassEnds(whole, log, retry, [], Some(InvalidQuantity(o)));
        assert log + [] == log;
        return Pass(log, retry, Some(InvalidQuantity(o)));
      }
      ghost var rows1, ts1 := store.rows, store.IntentsOf(t.tradeUid);
      var s := SubmitOrder(store, b, t, n + |log|, chunk, attempt, o);
      FollowSnoc(rows1, ts1, old(store.rows), old(store.IntentsOf(t.tradeUid)), log, s);
      if Judge(s.reply) == Open {
        PassEnds(whole, log, retry, [s], Some(PendingFill(s.intent.intentId, s.reply)));
        return Pass(log + [s], retry, Some(PendingFill(s.intent.intentId, s.reply)));
      }
      ghost var rest := RunPass(b, t, n + |log| + 1, chunk, attempt, orders[i + 1..]);
      var again := if Judge(s.reply) == Retry then [o] else [];
      PassAdvance(whole, log, retry, s, again, rest);
      log, retry := log + [s], retry + again;
    }
    p := Pass(log, retry, None);
    PassEnds(whole, log, retry, [], None);
    assert log + [] == log;
  }

  /** How far a chunk or a build has come. */
  ghost predicate SoFar(whole: Result, log: seq<Submission>, rest: Result)
  {
    whole.log == log + rest.log && whole.failure == rest.failure
  }

  lemma Advance(whole: Result, log: seq<Submission>, more: seq<Submission>, rest: Result)
    requires SoFar(whole, log, Result(more + rest.log, rest.failure))
    ensures SoFar(whole, log + more, rest)
  {
    AppendAssoc(log, more, rest.log);
  }

  lemma NothingSoFar(whole: Result)
    ensures SoFar(whole, [], whole)
  {
    assert [] + whole.log == whole.log;
  }

  lemma SoFarEnds(whole: Result, log: seq<Submission>, failure: Option<Failure>)
    requires SoFar(whole, log, Result([], failure))
    ensures whole == Result(log, failure)
  {
    assert log + [] == log;
  }

  /** The retry loop of one chunk. */
  method ExecuteChunk(store: OrderStore, b: Broker, t: Trade, n: nat, chunk: nat, orders: seq<ExecOrder>)
      returns (r: Result)
    modifies store
    ensures r == RunChunk(b, t, n, chunk, 0, orders)
    ensures StoreFollows(store.rows, store.IntentsOf(t.tradeUid), old(store.rows), old(store.IntentsOf(t.tradeUid)),
      r.log)
  {
    hide StoreFollows, RunPass, SoFar;
    var log: seq<Submission> := [];
    var remaining, attempt := orders, 0;
    ghost var whole := RunChunk(b, t, n, chunk, 0, orders);
    NothingSoFar(whole);
    FollowNothing(store.rows, store.IntentsOf(t.tradeUid));
    while attempt < MAX_CHUNK_RETRIES && |remaining| > 0
      invariant attempt <= MAX_CHUNK_RETRIES
      invariant SoFar(whole, log, RunChunk(b, t, n + |log|, chunk, attempt, remaining))
      invariant StoreFollows(store.rows, store.IntentsOf(t.tradeUid), old(store.rows),
        old(store.IntentsOf(t.tradeUid)), log)
    {
      ghost var rows1, ts1 := store.rows, store.IntentsOf(t.tradeUid);
      var p := ExecutePass(store, b, t, n + |log|, chunk, attempt, remaining);
      FollowConcat(store.rows, store.IntentsOf(t.tradeUid), rows1, ts1, old(store.rows),
        old(store.IntentsOf(t.tradeUid)), log, p.log);
      if p.failure.Some? {
        assert p.log + [] == p.log;
        Advance(whole, log, p.log, Result([], p.failure));
        SoFarEnds(whole, log + p.log, p.failure);
        return Result(log + p.log, p.failure);
      }
      ghost var rest := RunChunk(b, t, n + |log| + |p.log|, chunk, attempt + 1, p.retry);
      Advance(whole, log, p.log, rest);
      log, remaining, attempt := log + p.log, p.retry, attempt + 1;
    }
    r := Result(log, if |remaining| > 0 then Some(RetriesExhausted(chunk)) else None);
    SoFarEnds(whole, log, r.failure);
  }

  /** `executeBuild`. */
  method ExecuteBuild(store: OrderStore, b: Broker, t: Trade, chunks: seq<seq<ExecOrder>>) returns (r: Result)
    modifies store
    ensures r == Build(b, t, chunks)
    ensures store.rows == Replay(old(store.rows), r.log)
    ensures store.IntentsOf(t.tradeUid) == old(store.IntentsOf(t.tradeUid)) + Intents(r.log)
  {
    r := ExecuteAllChunks(store, b, t, chunks);
  }

  /** The chunk loop. */
  method ExecuteAllChunks(store: OrderStore, b: Broker, t: Trade, chunks: seq<seq<ExecOrder>>) returns (r: Result)
    modifies store
    ensures r == Build(b, t, chunks)
    ensures StoreFollows(store.rows, store.IntentsOf(t.tradeUid), old(store.rows), old(store.IntentsOf(t.tradeUid)),
      r.log)
  {
    hide StoreFollows, RunChunk, SoFar;
    var log: seq<Submission> := [];
    ghost var whole := Build(b, t, chunks);
    NothingSoFar(whole);
    FollowNothing(store.rows, store.IntentsOf(t.tradeUid));
    for i := 0 to |chunks|
      invariant SoFar(whole, log, RunBuild(b, t, |log|, chunks, i))
      invariant StoreFollows(store.rows, store.IntentsOf(t.tradeUid), old(store.rows),
        old(store.IntentsOf(t.tradeUid)), log)
    {
      ghost var rows1, ts1 := store.rows, store.IntentsOf(t.tradeUid);
      var c := ExecuteChunk(store, b, t, |log|, i, chunks[i]);
      FollowConcat(store.rows, store.IntentsOf(t.tradeUid), rows1, ts1, old(store.rows),
        old(store.IntentsOf(t.tradeUid)), log, c.log);
      if c.failure.Some? {
        assert c.log + [] == c.log;
        Advance(whole, log, c.log, Result([], c.failure));
        SoFarEnds(whole, log + c.log, c.failure);
        return Result(log + c.log, c.failure);
      }
      Advance(whole, log, c.log, RunBuild(b, t, |log| + |c.log|, chunks, i + 1));
      log := log + c.log;
    }
    r := Result(log, None);
    SoFarEnds(whole, log, None);
  }
}
