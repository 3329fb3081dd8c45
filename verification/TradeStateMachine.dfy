/**
 The trade state machine as an object updated in place.  Each method performs, field by field, the
 step of the same name on `Machine`, so the theorems of `RunProperties` hold of it.
 */
module StateMachine {
  import opened IntentBuilder
  import opened Rounding
  import opened TradeWorker
  import opened Wrappers

  class TradeStateMachine {
    const worker: Worker
    var state: TradeState
    var chunks: seq<seq<OrderIntent>>
    var current: nat
    var pending: map<string, OrderIntent>
    var exchangeIds: map<string, string>
    var attempts: nat
    /** Messages sent to the gateway and updates taken from it. */
    ghost var trace: seq<Entry>

    ghost function View(): Machine
      reads this
    {
      Machine(state, chunks, current, pending, exchangeIds, attempts, trace)
    }

    constructor (w: Worker)
      ensures worker == w && View() == INITIAL
    {
      worker := w;
      state, chunks, current, pending := INIT, [], 0, map[];
      exchangeIds, attempts, trace := map[], 0, [];
    }

    /** `emit_intent_to_gateway`. */
    method Emit(intent: OrderIntent, isModify: bool, exchangeId: string)
      modifies this`trace
      ensures trace == old(trace) + [Emitted(intent, isModify, exchangeId, attempts)]
    {
      trace := trace + [Emitted(intent, isModify, exchangeId, attempts)];
    }

    method ExecuteCurrentChunk()
      modifies this`pending, this`trace
      ensures View() == ExecuteChunk(old(View()))
    {
      if current >= |chunks| {
        return;
      }
      var chunk := chunks[current];
      pending := map[];
      assert chunk[..0] == [];
      assert trace + NewOrders(chunk[..0], attempts) == trace;
      for i := 0 to |chunk|
        invariant pending == PendingOf(chunk[..i])
        invariant trace == old(trace) + NewOrders(chunk[..i], attempts)
      {
        PrefixStep(chunk, i, attempts, old(trace));
        pending := pending[chunk[i].uid := chunk[i]];
        Emit(chunk[i], false, "");
      }
      assert chunk[..|chunk|] == chunk;
    }

    method OnCommandDeploy(q: Quote, now: nat)
      requires worker.builder.lotSize != 0
      modifies this
      ensures View() == Deploy(worker, old(View()), q, now)
    {
      var alloc := DeltaNeutral(worker.builder, q.ceDelta, q.peDelta, worker.targetLots);
      chunks := GenerateChunkedOrders(worker.builder, Ticket(worker.tradeUid, now, "SELL"),
                                      Leg(q.ceToken, CE, alloc.ceLots, q.cePrice),
                                      Leg(q.peToken, PE, alloc.peLots, q.pePrice));
      hide ChunkedOrders, DeltaNeutral;
      trace := trace + [Deployed(alloc)];
      current, attempts := 0, 0;
      if |chunks| == 0 {
        state := CLOSED;
        return;
      }
      state := BUILDING;
      ExecuteCurrentChunk();
    }

    method HandleFatalRejection()
      modifies this`state, this`pending
      ensures View() == old(View()).(state := CLOSED, pending := map[])
    {
      state := CLOSED;
      pending := map[];
    }

    method OnOrderUpdate(uid: string, status: string, filledQty: int, exchangeId: string)
      modifies this
      ensures View() == OrderUpdate(old(View()), uid, status, exchangeId)
    {
      hide ExecuteChunk;
      if uid !in pending {
        return;
      }
      trace := trace + [Accepted(pending[uid], status, exchangeId)];
      if exchangeId != "" {
        exchangeIds := exchangeIds[uid := exchangeId];
      }
      if status == "FILLED" || status == "COMPLETE" {
        pending := pending - {uid};
        if |pending| == 0 {
          current := current + 1;
          if current >= |chunks| {
            state := ACTIVE;
          } else {
            state := BUILDING;
            ExecuteCurrentChunk();
          }
        }
      } else if status == "REJECTED" || status == "CANCELED" {
        HandleFatalRejection();
      }
    }

    /** Widens the buffer of one pending intent and sends it again. */
    method ChaseIntent(uid: string, junk: string -> Int32)
      requires uid in pending
      modifies this`pending, this`trace
      ensures View() == ChaseOne(old(View()), uid, junk)
    {
      var intent := pending[uid].(bufferTicks := Cast(Widen(pending[uid].bufferTicks, attempts), junk(uid)));
      var id := if intent.uid in exchangeIds then exchangeIds[intent.uid] else "";
      pending := pending[uid := intent];
      Emit(intent, id != "", id);
    }

    /** Chases every pending intent, in the order in which the hash table yields them. */
    method ChasePending(junk: string -> Int32) returns (ghost order: seq<string>)
      modifies this`pending, this`trace
      ensures Enumerates(order, old(pending.Keys)) && Chasable(old(View()), order)
      ensures View() == ChaseAll(old(View()), order, junk)
    {
      hide ChaseOne, ChaseAll, Enumerates;
      ghost var start := View();
      var todo := pending.Keys;
      ghost var done: set<string> := {};
      order := [];
      NothingChased(start, junk);
      while todo != {}
        invariant todo !! done && todo + done == start.pending.Keys
        invariant Enumerates(order, done) && Chasable(start, order)
        invariant View() == ChaseAll(start, order, junk)
        decreases |todo|
      {
        var uid :| uid in todo;
        ChaseIntent(uid, junk);
        EnumerateSnoc(order, done, uid);
        ChaseSnoc(start, order, uid, junk);
        order, done, todo := order + [uid], done + {uid}, todo - {uid};
      }
    }

    method EscalateAndChase(junk: string -> Int32) returns (ghost order: seq<string>)
      modifies this`state, this`attempts, this`pending, this`trace
      ensures Enumerates(order, old(pending.Keys))
      ensures View() == ChaseAll(old(View()).(state := CHASING, attempts := old(attempts) + 1), order, junk)
    {
      hide ChaseAll, Enumerates, Chasable;
      state := CHASING;
      attempts := attempts + 1;
      order := ChasePending(junk);
    }

    method OnTimerTick(elapsed: bool, junk: string -> Int32) returns (ghost order: seq<string>)
      modifies this
      ensures Enumerates(order, old(pending.Keys))
      ensures View() == Tick(old(View()), elapsed, order, junk)
    {
      if state != BUILDING && state != CHASING {
        order := SomeEnumeration(pending.Keys);
        return;
      }
      if elapsed && pending != map[] {
        order := EscalateAndChase(junk);
      } else {
        order := SomeEnumeration(pending.Keys);
      }
    }

    /** One iteration of the worker loop: tick once deployed, deploy from INIT when the market allows. */
    method PollOnce(elapsed: bool, junk: string -> Int32, atm: Option<Quote>, now: nat)
        returns (ghost order: seq<string>)
      requires worker.builder.lotSize != 0
      modifies this
      ensures InputOk(old(View()), Poll(elapsed, order, junk, atm, now))
      ensures View() == Step(worker, old(View()), Poll(elapsed, order, junk, atm, now))
    {
      if state != INIT {
        order := OnTimerTick(elapsed, junk);
      } else {
        order := SomeEnumeration(pending.Keys);
        if atm.Some? && Tradable(atm.value) {
          OnCommandDeploy(atm.value, now);
        }
      }
    }
  }

  lemma PrefixStep(chunk: seq<OrderIntent>, i: nat, attempts: nat, t: seq<Entry>)
    requires i < |chunk|
    ensures PendingOf(chunk[..i + 1]) == PendingOf(chunk[..i])[chunk[i].uid := chunk[i]]
    ensures t + NewOrders(chunk[..i + 1], attempts)
         == t + NewOrders(chunk[..i], attempts) + [Emitted(chunk[i], false, "", attempts)]
  {
    assert chunk[..i + 1][..i] == chunk[..i];
  }

  ghost predicate Chasable(m: Machine, order: seq<string>)
  {
    forall i :: 0 <= i < |order| ==> order[i] in m.pending
  }

  lemma NothingChased(m: Machine, junk: string -> Int32)
    ensures Chasable(m, []) && ChaseAll(m, [], junk) == m && Enumerates([], {})
  {
  }

  lemma ChaseSnoc(m: Machine, order: seq<string>, uid: string, junk: string -> Int32)
    requires uid in m.pending && Chasable(m, order)
    ensures Chasable(m, order + [uid])
    ensures ChaseAll(m, order + [uid], junk) == ChaseOne(ChaseAll(m, order, junk), uid, junk)
  {
    assert (order + [uid])[..|order|] == order;
  }
}
