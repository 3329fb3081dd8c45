/** What the orders of a deployed trade are, over every run: the two legs of the quote it was deployed on. */
module DeployedOrders {
  import opened IntentBuilder
  import opened Rounding
  import opened RunProperties
  import opened Sequences
  import opened TradeWorker

  // ---------------------------------------------------------------------------------------
  // The orders of a plan
  // ---------------------------------------------------------------------------------------

  /** An order of this leg. */
  predicate OfLeg(o: OrderIntent, action: string, leg: Leg)
  {
    o.token == leg.token && o.optionType == leg.optionType && o.action == action && o.limitPrice == leg.ltp
  }

  ghost predicate AllOf(orders: seq<OrderIntent>, action: string, ce: Leg, pe: Leg)
  {
    forall o :: o in orders ==> OfLeg(o, action, ce) || OfLeg(o, action, pe)
  }

  lemma {:induction false} SliceOfLeg(j: Job, leg: Leg, lots: int, counter: nat)
    requires j.Valid()
    ensures forall o :: o in Slice(j, leg, lots, counter) ==> OfLeg(o, j.ticket.action, leg)
    decreases lots
  {
    if lots > 0 {
      SliceOfLeg(j, leg, lots - Min(lots, j.perOrder), counter + 1);
    }
  }

  lemma {:induction false} ChunksOfLegs(j: Job, i: nat, counter: nat)
    requires j.Valid() && i <= |j.ceSplit|
    ensures AllOf(Flatten(ChunksFrom(j, i, counter)), j.ticket.action, j.ce, j.pe)
    decreases |j.ceSplit| - i
  {
    hide Slice, OfLeg;
    if i < |j.ceSplit| {
      var ces := Slice(j, j.ce, j.ceSplit[i], counter);
      var chunk := ChunkAt(j, i, counter);
      SliceOfLeg(j, j.ce, j.ceSplit[i], counter);
      SliceOfLeg(j, j.pe, j.peSplit[i], counter + |ces|);
      ChunksOfLegs(j, i + 1, counter + |chunk|);
      hide Flatten;
      FlattenCons(chunk, ChunksFrom(j, i + 1, counter + |chunk|));
    } else {
      assert Flatten(ChunksFrom(j, i, counter)) == [];
    }
  }

  lemma PlanOfLegs(b: Builder, t: Ticket, ce: Leg, pe: Leg)
    requires b.lotSize != 0
    ensures AllOf(Flatten(ChunkedOrders(b, t, ce, pe)), t.action, ce, pe)
  {
    var j := JobOf(b, t, ce, pe);
    ChunksOfLegs(j, 0, 0);
    DropEmptyFacts(ChunksFrom(j, 0, 0));
    hide ChunksFrom, AllOf, Flatten, DropEmpty;
  }

  /** A sale of the call or the put of a quote, at that option's price. */
  predicate SellsLeg(o: OrderIntent, q: Quote)
  {
    && o.action == "SELL"
    && (o.optionType == CE ==> o.token == q.ceToken && o.limitPrice == q.cePrice)
    && (o.optionType == PE ==> o.token == q.peToken && o.limitPrice == q.pePrice)
  }

  lemma PlanSellsLegs(w: Worker, q: Quote, now: nat)
    requires w.builder.lotSize != 0
    ensures forall o :: o in Flatten(PlanFor(w, q, now)) ==> SellsLeg(o, q)
  {
    hide ChunkedOrders, Flatten, DeltaNeutral;
    var a := DeltaNeutral(w.builder, q.ceDelta, q.peDelta, w.targetLots);
    PlanOfLegs(w.builder, Ticket(w.tradeUid, now, "SELL"),
               Leg(q.ceToken, CE, a.ceLots, q.cePrice), Leg(q.peToken, PE, a.peLots, q.pePrice));
  }

  // ---------------------------------------------------------------------------------------
  // Every step keeps to the quote
  // ---------------------------------------------------------------------------------------

  /** Everything planned, pending or sent is a leg of the quote. */
  ghost predicate KeepsTo(m: Machine, q: Quote)
  {
    && (forall o :: o in Flatten(m.chunks) ==> SellsLeg(o, q))
    && (forall u :: u in m.pending ==> SellsLeg(m.pending[u], q))
    && TraceKeepsTo(m.trace, q)
  }

  ghost predicate TraceKeepsTo(trace: seq<Entry>, q: Quote)
  {
    forall k :: 0 <= k < |trace| && trace[k].Emitted? ==> SellsLeg(trace[k].intent, q)
  }

  lemma ChunkInPlan(chunks: seq<seq<OrderIntent>>, c: nat, o: OrderIntent)
    requires c < |chunks| && o in chunks[c]
    ensures o in Flatten(chunks)
  {
    hide Flatten;
    FlattenSplit(chunks, c);
  }

  lemma {:induction false} PendingFromChunk(chunk: seq<OrderIntent>, u: string)
    requires u in PendingOf(chunk)
    ensures PendingOf(chunk)[u] in chunk
  {
    if chunk != [] && u != chunk[|chunk| - 1].uid {
      PendingFromChunk(chunk[..|chunk| - 1], u);
    }
  }

  lemma ExecuteKeepsTo(m: Machine, q: Quote)
    requires (forall o :: o in Flatten(m.chunks) ==> SellsLeg(o, q)) && TraceKeepsTo(m.trace, q) &&
      m.current < |m.chunks|
    ensures KeepsTo(ExecuteChunk(m), q)
  {
    hide Flatten, SellsLeg, PendingOf;
    var chunk := m.chunks[m.current];
    forall o | o in chunk ensures SellsLeg(o, q) {
      ChunkInPlan(m.chunks, m.current, o);
    }
    forall u | u in PendingOf(chunk) ensures SellsLeg(PendingOf(chunk)[u], q) {
      PendingFromChunk(chunk, u);
    }
    assert forall i :: 0 <= i < |chunk| ==> chunk[i] in chunk;
  }

  lemma UpdateKeepsTo(m: Machine, q: Quote, uid: string, status: string, exchangeId: string)
    requires KeepsTo(m, q)
    ensures KeepsTo(OrderUpdate(m, uid, status, exchangeId), q)
  {
    hide Flatten, SellsLeg, ExecuteChunk, IsFill, IsFatal, Learn;
    if uid in m.pending {
      var n := m.(exchangeIds := Learn(m.exchangeIds, uid, exchangeId),
                  trace := m.trace + [Accepted(m.pending[uid], status, exchangeId)]);
      var left := m.pending - {uid};
      if IsFill(status) && left == map[] && m.current + 1 < |m.chunks| {
        ExecuteKeepsTo(n.(pending := left, current := m.current + 1, state := BUILDING), q);
      }
    }
  }

  lemma {:induction false} ChaseKeepsTo(m: Machine, q: Quote, order: seq<string>, junk: string -> Int32)
    requires KeepsTo(m, q) && forall i :: 0 <= i < |order| ==> order[i] in m.pending
    ensures KeepsTo(ChaseAll(m, order, junk), q)
  {
    if order != [] {
      hide Flatten, Widen, Lookup;
      ChaseKeepsTo(m, q, order[..|order| - 1], junk);
    }
  }

  /** A poll on which a machine in INIT is deployed: both options have a token and a price. */
  predicate Deploys(i: Input)
  {
    && i.Poll? && i.atm.Some?
    && i.atm.value.ceToken > 0 && i.atm.value.peToken > 0 && i.atm.value.cePrice > 0.0 && i.atm.value.pePrice > 0.0
  }

  lemma DeployKeepsTo(w: Worker, m: Machine, q: Quote, now: nat)
    requires w.builder.lotSize != 0 && m == INITIAL
    ensures KeepsTo(Deploy(w, m, q, now), q) && Deploy(w, m, q, now).state != INIT
  {
    hide PlanFor, DeltaNeutral, Flatten, SellsLeg;
    var plan := PlanFor(w, q, now);
    PlanSellsLegs(w, q, now);
    var a := DeltaNeutral(w.builder, q.ceDelta, q.peDelta, w.targetLots);
    var d := m.(chunks := plan, current := 0, attempts := 0, trace := m.trace + [Deployed(a)]);
    if plan != [] {
      ExecuteKeepsTo(d.(state := BUILDING), q);
    }
  }

  lemma StepKeepsTo(w: Worker, m: Machine, i: Input, q: Quote)
    requires w.builder.lotSize != 0 && InputOk(m, i) && m.state != INIT && KeepsTo(m, q) && Shape(m)
    ensures KeepsTo(Step(w, m, i), q) && Step(w, m, i).state != INIT
  {
    hide KeepsTo, OrderUpdate, ChaseAll, PlanOk;
    match i {
      case Poll(elapsed, order, junk, atm, now) =>
        if Open(m) && elapsed && m.pending != map[] {
          var c := m.(state := CHASING, attempts := m.attempts + 1);
          AttemptsKeepTo(m, c, q);
          ChaseKeepsTo(c, q, order, junk);
          ChaseExtends(c, order, junk);
        }
      case Update(uid, status, _, exchangeId) =>
        UpdateKeepsTo(m, q, uid, status, exchangeId);
        UpdateStaysDeployed(m, uid, status, exchangeId);
    }
  }

  lemma AttemptsKeepTo(m: Machine, c: Machine, q: Quote)
    requires KeepsTo(m, q) && c == m.(state := c.state, attempts := c.attempts)
    ensures KeepsTo(c, q)
  {
    hide Flatten, SellsLeg;
  }

  lemma UpdateStaysDeployed(m: Machine, uid: string, status: string, exchangeId: string)
    requires m.state != INIT
    ensures OrderUpdate(m, uid, status, exchangeId).state != INIT
  {
    hide PendingOf;
  }

  lemma InitWaits(w: Worker, m: Machine, i: Input)
    requires w.builder.lotSize != 0 && InputOk(m, i) && m == INITIAL
    ensures !Deploys(i) ==> Step(w, m, i) == m
    ensures Deploys(i) ==> Step(w, m, i) == Deploy(w, m, i.atm.value, i.now)
  {
    hide Deploy;
  }

  ghost predicate FirstDeploy(inputs: seq<Input>, d: int)
  {
    0 <= d < |inputs| && Deploys(inputs[d]) && forall c :: 0 <= c < d ==> !Deploys(inputs[c])
  }

  /**
   In every run, the trade is deployed by the first poll that sees a token and a positive price for
   both options; from then on every order planned, pending or sent is a sale of that quote's call
   or put, under its own token and price.
   */
  lemma {:induction false} OrdersFollowQuote(w: Worker, ms: seq<Machine>, inputs: seq<Input>, i: nat)
    requires IsRun(w, ms, inputs) && i < |ms|
    ensures ms[i].state == INIT <==> forall d :: 0 <= d < i ==> !Deploys(inputs[d])
    ensures forall d :: FirstDeploy(inputs, d) && d < i ==> KeepsTo(ms[i], inputs[d].atm.value)
  {
    hide Step, KeepsTo, Deploys, Ledger, Discipline, Allocated, Enumerates;
    if i > 0 {
      OrdersFollowQuote(w, ms, inputs, i - 1);
      RunInvariant(w, ms, inputs, i - 1);
      RunStep(w, ms, inputs, i - 1);
      var m, input := ms[i - 1], inputs[i - 1];
      if m.state == INIT {
        assert m == INITIAL;
        InitWaits(w, m, input);
        if Deploys(input) {
          DeployFirst(w, m, input);
        }
        assert forall d :: FirstDeploy(inputs, d) && d < i ==> d == i - 1;
      } else {
        var d := EarlierDeploy(inputs, i - 1);
        StepKeepsTo(w, m, input, inputs[d].atm.value);
        assert forall e :: FirstDeploy(inputs, e) ==> e == d;
      }
    }
  }

  lemma DeployFirst(w: Worker, m: Machine, i: Input)
    requires w.builder.lotSize != 0 && m == INITIAL && Deploys(i)
    ensures i.Poll? && i.atm.Some? && KeepsTo(Deploy(w, m, i.atm.value, i.now), i.atm.value)
    ensures Deploy(w, m, i.atm.value, i.now).state != INIT
  {
    hide Deploy, KeepsTo;
    DeployKeepsTo(w, m, i.atm.value, i.now);
  }

  lemma {:induction false} EarlierDeploy(inputs: seq<Input>, n: nat) returns (d: nat)
    requires n <= |inputs| && exists c :: 0 <= c < n && Deploys(inputs[c])
    ensures FirstDeploy(inputs, d) && d < n && inputs[d].Poll? && inputs[d].atm.Some?
  {
    if exists c :: 0 <= c < n - 1 && Deploys(inputs[c]) {
      d := EarlierDeploy(inputs, n - 1);
    } else {
      d := n - 1;
    }
  }

  // ---------------------------------------------------------------------------------------
  // What statuses and timeouts do
  // ---------------------------------------------------------------------------------------

  /**
   An update for a pending order: REJECTED and CANCELED close the trade at once and drop everything
   pending, FILLED and COMPLETE remove the order or finish its chunk, anything else only records the id.
   */
  lemma UpdatesRead(m: Machine, uid: string, status: string, exchangeId: string)
    requires Open(m) && uid in m.pending
    ensures var n := OrderUpdate(m, uid, status, exchangeId);
      if status in {"REJECTED", "CANCELED"} then n.state == CLOSED && n.pending == map[] && n.current == m.current
      else if status in {"FILLED", "COMPLETE"} then
        n.state != CLOSED && (n.current == m.current + 1 || (n.current == m.current && n.pending == m.pending - {uid}))
      else n.state == m.state && n.pending == m.pending && n.current == m.current
  {
    hide PendingOf;
    assert "REJECTED"[0] == 'R' && "CANCELED"[0] == 'C' && "FILLED"[0] == 'F' && "COMPLETE"[1] == 'O';
  }

  /** Updates for orders that are not pending change nothing. */
  lemma UnknownUpdatesIgnored(m: Machine, uid: string, status: string, exchangeId: string)
    requires uid !in m.pending
    ensures OrderUpdate(m, uid, status, exchangeId) == m
  {
    hide PendingOf;
  }

  /**
   A poll of a deployed machine chases exactly when the chunk is open and timed out, and chases
   every pending order.
   */
  lemma {:induction false} TimeoutsChase(w: Worker, m: Machine, i: Input)
    requires w.builder.lotSize != 0 && InputOk(m, i) && Shape(m) && m.state != INIT && i.Poll?
    ensures var n := Step(w, m, i);
      if (m.state == BUILDING || m.state == CHASING) && i.elapsed
      then n.state == CHASING && n.attempts == m.attempts + 1 && n.pending.Keys == m.pending.Keys
        && |n.trace| == |m.trace| + |i.order|
      else n == m
  {
    hide ChaseAll, PlanOk;
    if Open(m) && i.elapsed {
      var c := m.(state := CHASING, attempts := m.attempts + 1);
      ChaseExtends(c, i.order, i.junk);
      ChaseSends(c, i.order, i.junk);
    }
  }

  lemma {:induction false} ChaseSends(m: Machine, order: seq<string>, junk: string -> Int32)
    requires forall i :: 0 <= i < |order| ==> order[i] in m.pending
    ensures |ChaseAll(m, order, junk).trace| == |m.trace| + |order|
  {
    if order != [] {
      ChaseSends(m, order[..|order| - 1], junk);
    }
  }
}
