/**
 The per-trade state machine of the trade worker: deploy, order update and timer tick, the chunk
 execution and chase they trigger, and the worker loop that deploys only from INIT.

 `Machine` is the state of one trade together with its history; the functions below it are the
 steps.  The class in TradeStateMachine.dfy performs the same steps in place.
 */
module TradeWorker {
  import opened IntentBuilder
  import opened Rounding
  import opened Sequences
  import opened Wrappers

  datatype TradeState = INIT | BUILDING | CHASING | ACTIVE | SQUARING_OFF | CLOSED

  /**
   What has happened so far: the allocation of the deploy, every message sent to the gateway (with
   the number of chases started by then), and every update that concerned a pending intent.
   */
  datatype Entry =
    | Deployed(allocation: Allocation)
    | Emitted(intent: OrderIntent, isModify: bool, exchangeId: string, attempt: nat)
    | Accepted(intent: OrderIntent, status: string, exchangeId: string)

  datatype Machine = Machine(
    state: TradeState,
    chunks: seq<seq<OrderIntent>>,
    current: nat,
    pending: map<string, OrderIntent>,
    exchangeIds: map<string, string>,
    attempts: nat,
    trace: seq<Entry>)

  const INITIAL := Machine(INIT, [], 0, map[], map[], 0, [])

  predicate IsFill(status: string)
  {
    status == "FILLED" || status == "COMPLETE"
  }

  predicate IsFatal(status: string)
  {
    status == "REJECTED" || status == "CANCELED"
  }

  predicate Open(m: Machine)
  {
    m.state == BUILDING || m.state == CHASING
  }

  // ---------------------------------------------------------------------------------------
  // Steps
  // ---------------------------------------------------------------------------------------

  /** The pending table after the intents of a chunk were entered one by one. */
  function PendingOf(chunk: seq<OrderIntent>): map<string, OrderIntent>
  {
    if chunk == [] then map[] else
    var last := chunk[|chunk| - 1];
    PendingOf(chunk[..|chunk| - 1])[last.uid := last]
  }

  function NewOrders(chunk: seq<OrderIntent>, attempts: nat): (es: seq<Entry>)
    ensures |es| == |chunk|
    ensures forall i :: 0 <= i < |chunk| ==> es[i] == Emitted(chunk[i], false, "", attempts)
  {
    seq(|chunk|, i requires 0 <= i < |chunk| => Emitted(chunk[i], false, "", attempts))
  }

  /** `execute_current_chunk`. */
  function ExecuteChunk(m: Machine): Machine
  {
    if m.current >= |m.chunks| then m else
    var chunk := m.chunks[m.current];
    m.(pending := PendingOf(chunk), trace := m.trace + NewOrders(chunk, m.attempts))
  }

  /** What the worker knows about the at-the-money strike when it decides to deploy. */
  datatype Quote = Quote(
    ceToken: int, peToken: int, cePrice: real, pePrice: real, ceDelta: real, peDelta: real)

  datatype Worker = Worker(tradeUid: string, builder: Builder, targetLots: int)

  function PlanFor(w: Worker, q: Quote, now: nat): seq<seq<OrderIntent>>
    requires w.builder.lotSize != 0
  {
    var a := DeltaNeutral(w.builder, q.ceDelta, q.peDelta, w.targetLots);
    ChunkedOrders(w.builder, Ticket(w.tradeUid, now, "SELL"),
                  Leg(q.ceToken, CE, a.ceLots, q.cePrice), Leg(q.peToken, PE, a.peLots, q.pePrice))
  }

  /** `on_command_deploy`. */
  function Deploy(w: Worker, m: Machine, q: Quote, now: nat): Machine
    requires w.builder.lotSize != 0
  {
    var a := DeltaNeutral(w.builder, q.ceDelta, q.peDelta, w.targetLots);
    Start(m, PlanFor(w, q, now), a)
  }

  /** The part of a deploy that follows the construction of the plan. */
  function Start(m: Machine, plan: seq<seq<OrderIntent>>, a: Allocation): Machine
  {
    var d := m.(chunks := plan, current := 0, attempts := 0, trace := m.trace + [Deployed(a)]);
    if plan == [] then d.(state := CLOSED) else ExecuteChunk(d.(state := BUILDING))
  }

  /** The table of exchange identifiers after an update: an empty identifier changes nothing. */
  function Learn(ids: map<string, string>, uid: string, exchangeId: string): map<string, string>
  {
    if exchangeId == "" then ids else ids[uid := exchangeId]
  }

  /** A fill removes the intent; the last fill of a chunk starts the next chunk or activates the trade. */
  function Fill(m: Machine, uid: string): Machine
  {
    var left := m.pending - {uid};
    if left != map[] then m.(pending := left) else
    var n := m.(pending := left, current := m.current + 1);
    if n.current >= |n.chunks| then n.(state := ACTIVE) else ExecuteChunk(n.(state := BUILDING))
  }

  /** `on_order_update`. */
  function OrderUpdate(m: Machine, uid: string, status: string, exchangeId: string): Machine
  {
    if uid !in m.pending then m else
    var n := m.(exchangeIds := Learn(m.exchangeIds, uid, exchangeId),
                trace := m.trace + [Accepted(m.pending[uid], status, exchangeId)]);
    if IsFill(status) then Fill(n, uid)
    else if IsFatal(status) then n.(state := CLOSED, pending := map[])
    else n
  }

  function Lookup(ids: map<string, string>, uid: string): string
  {
    if uid in ids then ids[uid] else ""
  }

  predicate Fits(v: int)
  {
    -0x8000_0000 <= v < 0x8000_0000
  }

  /** A cast to a 32-bit integer.  Out of range its result is undefined: `junk` is whatever comes out. */
  function Cast(v: int, junk: Int32): Int32
  {
    if Fits(v) then v else junk
  }

  /** What the price buffer of a chased order is multiplied out to: 1 + attempts / 5 times, truncated. */
  function Widen(ticks: int, attempts: nat): int
  {
    TruncDiv(ticks * (5 + attempts), 5)
  }

  function ChaseOne(m: Machine, uid: string, junk: string -> Int32): (n: Machine)
    requires uid in m.pending
    ensures n.pending.Keys == m.pending.Keys
  {
    var ticks := Cast(Widen(m.pending[uid].bufferTicks, m.attempts), junk(uid));
    var intent := m.pending[uid].(bufferTicks := ticks);
    var id := Lookup(m.exchangeIds, intent.uid);
    m.(pending := m.pending[uid := intent], trace := m.trace + [Emitted(intent, id != "", id, m.attempts)])
  }

  function ChaseAll(m: Machine, order: seq<string>, junk: string -> Int32): (n: Machine)
    requires forall i :: 0 <= i < |order| ==> order[i] in m.pending
    ensures n.pending.Keys == m.pending.Keys
  {
    if order == [] then m else ChaseOne(ChaseAll(m, order[..|order| - 1], junk), order[|order| - 1], junk)
  }

  /** `order` lists the keys of a hash table, each once, in whatever order it is iterated. */
  ghost predicate Enumerates(order: seq<string>, keys: set<string>)
  {
    NoDuplicates(order) && forall u :: u in order <==> u in keys
  }

  lemma EnumerateSnoc(order: seq<string>, keys: set<string>, uid: string)
    requires Enumerates(order, keys) && uid !in keys
    ensures Enumerates(order + [uid], keys + {uid})
  {
  }

  lemma SomeEnumeration(keys: set<string>) returns (order: seq<string>)
    ensures Enumerates(order, keys)
    decreases |keys|
  {
    if keys == {} {
      order := [];
    } else {
      var u :| u in keys;
      var rest := SomeEnumeration(keys - {u});
      EnumerateSnoc(rest, keys - {u}, u);
      order := rest + [u];
      assert keys - {u} + {u} == keys;
    }
  }

  /** `on_timer_tick`, with `escalate_and_chase` when the chunk has timed out. */
  function Tick(m: Machine, elapsed: bool, order: seq<string>, junk: string -> Int32): Machine
    requires forall i :: 0 <= i < |order| ==> order[i] in m.pending
  {
    if Open(m) && elapsed && m.pending != map[] then
      ChaseAll(m.(state := CHASING, attempts := m.attempts + 1), order, junk)
    else m
  }

  predicate Tradable(q: Quote)
  {
    q.ceToken > 0 && q.peToken > 0 && q.cePrice > 0.0 && q.pePrice > 0.0
  }

  /**
   One thing that happens to the worker: an iteration of its loop (with the clock, the market data, the
   hash-table iteration order and the results of undefined casts it meets), or an update from the gateway.
   */
  datatype Input =
    | Poll(elapsed: bool, order: seq<string>, junk: string -> Int32, atm: Option<Quote>, now: nat)
    | Update(uid: string, status: string, filledQty: int, exchangeId: string)

  ghost predicate InputOk(m: Machine, i: Input)
  {
    i.Poll? ==> Enumerates(i.order, m.pending.Keys)
  }

  /** The loop ticks a machine that has left INIT and deploys one that has not. */
  function Step(w: Worker, m: Machine, i: Input): Machine
    requires w.builder.lotSize != 0
    requires i.Poll? ==> forall k :: 0 <= k < |i.order| ==> i.order[k] in m.pending
  {
    match i
    case Poll(elapsed, order, junk, atm, now) =>
      if m.state != INIT then Tick(m, elapsed, order, junk)
      else if atm.Some? && Tradable(atm.value) then Deploy(w, m, atm.value, now)
      else m
    case Update(uid, status, _, exchangeId) => OrderUpdate(m, uid, status, exchangeId)
  }

  /** A run of the worker: any inputs, in any order, from the initial machine. */
  ghost predicate IsRun(w: Worker, ms: seq<Machine>, inputs: seq<Input>)
  {
    && w.builder.lotSize != 0
    && |ms| == |inputs| + 1 && ms[0] == INITIAL
    && forall i :: 0 <= i < |inputs| ==> InputOk(ms[i], inputs[i]) && ms[i + 1] == Step(w, ms[i], inputs[i])
  }

  // ---------------------------------------------------------------------------------------
  // What an order is, apart from its price buffer
  // ---------------------------------------------------------------------------------------

  datatype Core = Core(uid: string, optionType: OptionType, quantity: int)

  function CoreOf(o: OrderIntent): Core
  {
    Core(o.uid, o.optionType, o.quantity)
  }

  function Cores(orders: seq<OrderIntent>): (cs: seq<Core>)
    ensures |cs| == |orders| && forall i :: 0 <= i < |orders| ==> cs[i] == CoreOf(orders[i])
  {
    seq(|orders|, i requires 0 <= i < |orders| => CoreOf(orders[i]))
  }

  ghost function PendingCores(pending: map<string, OrderIntent>): set<Core>
  {
    set u | u in pending :: CoreOf(pending[u])
  }

  /** The orders filled so far, in the order of their fills. */
  function Fills(trace: seq<Entry>): seq<Core>
  {
    if trace == [] then [] else
    var e := trace[|trace| - 1];
    Fills(trace[..|trace| - 1]) + if e.Accepted? && IsFill(e.status) then [CoreOf(e.intent)] else []
  }

  function CoreQuantity(cs: seq<Core>, o: OptionType): int
  {
    if cs == [] then 0 else
    (if cs[0].optionType == o then cs[0].quantity else 0) + CoreQuantity(cs[1..], o)
  }

  lemma FillsSnoc(t: seq<Entry>, e: Entry)
    ensures Fills(t + [e]) == Fills(t) + if e.Accepted? && IsFill(e.status) then [CoreOf(e.intent)] else []
  {
    assert (t + [e])[..|t|] == t;
  }

  lemma {:induction false} FillsUnchanged(t: seq<Entry>, es: seq<Entry>)
    requires forall i :: 0 <= i < |es| ==> !es[i].Accepted?
    ensures Fills(t + es) == Fills(t)
  {
    if es == [] {
      assert t + es == t;
    } else {
      var front, last := es[..|es| - 1], es[|es| - 1];
      FillsUnchanged(t, front);
      AppendAssoc(t, front, [last]);
      assert front + [last] == es;
      FillsSnoc(t + front, last);
    }
  }

  lemma {:induction false} CoreQuantityRemove(cs: seq<Core>, k: nat, o: OptionType)
    requires k < |cs|
    ensures CoreQuantity(cs, o) == (if cs[k].optionType == o then cs[k].quantity else 0)
                                 + CoreQuantity(cs[..k] + cs[k + 1..], o)
  {
    if k == 0 {
      assert cs[..0] + cs[1..] == cs[1..];
    } else {
      CoreQuantityRemove(cs[1..], k - 1, o);
      var rest := cs[..k] + cs[k + 1..];
      assert rest[1..] == cs[1..][..k - 1] + cs[1..][k..];
    }
  }

  /** Quantities do not depend on the order of the fills. */
  lemma {:induction false} CoreQuantityPermutation(xs: seq<Core>, ys: seq<Core>, o: OptionType)
    requires multiset(xs) == multiset(ys)
    ensures CoreQuantity(xs, o) == CoreQuantity(ys, o)
  {
    if xs == [] {
      assert |multiset(ys)| == 0;
    } else {
      assert xs[0] in multiset(ys);
      var k :| 0 <= k < |ys| && ys[k] == xs[0];
      PermutationTail(xs, ys, k);
      CoreQuantityPermutation(xs[1..], ys[..k] + ys[k + 1..], o);
      CoreQuantityRemove(ys, k, o);
    }
  }

  lemma {:induction false} QuantityOfCores(orders: seq<OrderIntent>, o: OptionType)
    ensures CoreQuantity(Cores(orders), o) == QuantityOf(orders, o)
  {
    if orders != [] {
      QuantityOfCores(orders[1..], o);
      assert Cores(orders)[1..] == Cores(orders[1..]);
    }
  }

  lemma CoresConcat(xs: seq<OrderIntent>, ys: seq<OrderIntent>)
    ensures Cores(xs + ys) == Cores(xs) + Cores(ys)
  {
  }

  // ---------------------------------------------------------------------------------------
  // The pending table and the multiset of cores
  // ---------------------------------------------------------------------------------------

  /** Entries of the pending table are filed under their own identifier. */
  ghost predicate SelfKeyed(pending: map<string, OrderIntent>)
  {
    forall u :: u in pending ==> pending[u].uid == u
  }

  function UidSet(orders: seq<OrderIntent>): (s: set<string>)
    ensures forall u :: u in s <==> exists i :: 0 <= i < |orders| && orders[i].uid == u
  {
    set i | 0 <= i < |orders| :: orders[i].uid
  }

  /** Entering a chunk with distinct identifiers files each of its orders exactly once. */
  lemma {:induction false} PendingOfChunk(chunk: seq<OrderIntent>)
    requires DistinctUids(chunk)
    ensures SelfKeyed(PendingOf(chunk)) && PendingOf(chunk).Keys == UidSet(chunk)
    ensures multiset(PendingCores(PendingOf(chunk))) == multiset(Cores(chunk))
  {
    if chunk == [] {
      assert PendingCores(map[]) == {};
    } else {
      var front, last := chunk[..|chunk| - 1], chunk[|chunk| - 1];
      PendingOfChunk(front);
      var p := PendingOf(front);
      assert last.uid !in p;
      hide PendingCores, UidSet, PendingOf;
      AddPending(p, last);
      assert chunk == front + [last];
      CoresConcat(front, [last]);
      assert Cores([last]) == [CoreOf(last)];
      UidSetSnoc(front, last);
    }
  }

  lemma UidSetSnoc(front: seq<OrderIntent>, last: OrderIntent)
    ensures UidSet(front + [last]) == UidSet(front) + {last.uid}
  {
    var s := front + [last];
    forall u | u in UidSet(front) + {last.uid} ensures u in UidSet(s) {
      if u == last.uid {
        assert s[|front|].uid == u;
      } else {
        var i :| 0 <= i < |front| && front[i].uid == u;
        assert s[i].uid == u;
      }
    }
    forall u | u in UidSet(s) ensures u in UidSet(front) + {last.uid} {
      var i :| 0 <= i < |s| && s[i].uid == u;
      if i < |front| {
        assert front[i].uid == u;
      }
    }
  }

  lemma AddPending(p: map<string, OrderIntent>, o: OrderIntent)
    requires SelfKeyed(p) && o.uid !in p
    ensures SelfKeyed(p[o.uid := o]) && p[o.uid := o].Keys == p.Keys + {o.uid}
    ensures multiset(PendingCores(p[o.uid := o])) == multiset(PendingCores(p)) + multiset{CoreOf(o)}
  {
    var q := p[o.uid := o];
    assert PendingCores(q) == PendingCores(p) + {CoreOf(o)} by {
      assert forall u :: u in p ==> q[u] == p[u];
      assert q[o.uid] == o;
      forall c | c in PendingCores(p) + {CoreOf(o)} ensures c in PendingCores(q) {
        if c != CoreOf(o) {
          var u :| u in p && CoreOf(p[u]) == c;
          assert u in q && q[u] == p[u];
        }
      }
    }
    assert CoreOf(o) !in PendingCores(p);
  }

  lemma RemovePending(p: map<string, OrderIntent>, uid: string)
    requires SelfKeyed(p) && uid in p
    ensures SelfKeyed(p - {uid})
    ensures multiset(PendingCores(p)) == multiset(PendingCores(p - {uid})) + multiset{CoreOf(p[uid])}
  {
    var q := p - {uid};
    assert q[uid := p[uid]] == p;
    AddPending(q, p[uid]);
  }

  lemma ReplacePending(p: map<string, OrderIntent>, uid: string, o: OrderIntent)
    requires SelfKeyed(p) && uid in p && CoreOf(o) == CoreOf(p[uid])
    ensures SelfKeyed(p[uid := o]) && PendingCores(p[uid := o]) == PendingCores(p)
  {
    var q := p[uid := o];
    forall c | c in PendingCores(p) ensures c in PendingCores(q) {
      var u :| u in p && CoreOf(p[u]) == c;
      assert u in q && CoreOf(q[u]) == c;
    }
    forall c | c in PendingCores(q) ensures c in PendingCores(p) {
      var u :| u in q && CoreOf(q[u]) == c;
      assert u in p && CoreOf(p[u]) == c;
    }
  }

  // ---------------------------------------------------------------------------------------
  // The invariant of every reachable machine
  // ---------------------------------------------------------------------------------------

  ghost predicate PlanOk(chunks: seq<seq<OrderIntent>>)
  {
    && (forall k :: 0 <= k < |chunks| ==> chunks[k] != [])
    && DistinctUids(Flatten(chunks))
    && forall k :: 0 <= k < |Flatten(chunks)| ==>
         Flatten(chunks)[k].bufferTicks == INITIAL_BUFFER_TICKS && Flatten(chunks)[k].quantity > 0
  }

  /** How state, position and pending table hang together. */
  ghost predicate Shape(m: Machine)
  {
    && PlanOk(m.chunks)
    && SelfKeyed(m.pending)
    && m.state != SQUARING_OFF
    && (m.state == INIT ==> m == INITIAL)
    && (Open(m) <==> m.pending != map[])
    && (Open(m) ==> m.current < |m.chunks| && m.pending.Keys <= UidSet(m.chunks[m.current]))
    && (m.state == ACTIVE ==> m.current == |m.chunks| && m.chunks != [])
  }

  /** Every order of the chunks started so far is either filled, once, or still pending. */
  ghost predicate Ledger(m: Machine)
  {
    && (m.state == INIT ==> Fills(m.trace) == [])
    && (Open(m) ==> m.current < |m.chunks|)
    && (Open(m) ==> multiset(Fills(m.trace)) + multiset(PendingCores(m.pending))
                    == multiset(Cores(Flatten(m.chunks[..m.current + 1]))))
    && (m.state == ACTIVE ==> multiset(Fills(m.trace)) == multiset(Cores(Flatten(m.chunks))))
    && multiset(Fills(m.trace)) <= multiset(Cores(Flatten(m.chunks)))
  }

  lemma LedgerWithinPlan(chunks: seq<seq<OrderIntent>>, k: nat)
    requires k < |chunks|
    ensures multiset(Cores(Flatten(chunks[..k + 1]))) <= multiset(Cores(Flatten(chunks)))
  {
    hide Flatten, Cores;
    assert chunks == chunks[..k + 1] + chunks[k + 1..];
    FlattenConcat(chunks[..k + 1], chunks[k + 1..]);
    CoresConcat(Flatten(chunks[..k + 1]), Flatten(chunks[k + 1..]));
  }

  lemma ChunkIsDistinct(chunks: seq<seq<OrderIntent>>, k: nat)
    requires PlanOk(chunks) && k < |chunks|
    ensures DistinctUids(chunks[k])
    ensures UidSet(chunks[k]) !! UidSet(Flatten(chunks[..k]))
    ensures forall i :: 0 <= i < |chunks[k]| ==> chunks[k][i].bufferTicks == INITIAL_BUFFER_TICKS
  {
    hide Flatten;
    FlattenSplit(chunks, k);
    var a, c, z := Flatten(chunks[..k]), chunks[k], Flatten(chunks[k + 1..]);
    var flat := Flatten(chunks);
    assert forall i :: 0 <= i < |a| ==> flat[i] == a[i];
    assert forall i :: 0 <= i < |c| ==> flat[|a| + i] == c[i];
    assert DistinctUids(c) by {
      forall i, j | 0 <= i < j < |c| ensures c[i].uid != c[j].uid {
        assert flat[|a| + i] == c[i] && flat[|a| + j] == c[j];
      }
    }
    forall u | u in UidSet(c) ensures u !in UidSet(a) {
      var j :| 0 <= j < |c| && c[j].uid == u;
      assert flat[|a| + j] == c[j];
      forall i | 0 <= i < |a| ensures a[i].uid != u {
        assert flat[i] == a[i];
      }
    }
  }

  /** Executing chunk `current` when everything before it has been filled. */
  lemma ExecuteKeepsLedger(m: Machine)
    requires PlanOk(m.chunks) && m.state == BUILDING && m.current < |m.chunks|
    requires multiset(Fills(m.trace)) == multiset(Cores(Flatten(m.chunks[..m.current])))
    ensures Shape(ExecuteChunk(m)) && Ledger(ExecuteChunk(m))
  {
    hide Flatten, Fills, PendingOf, PendingCores, PlanOk, Cores, UidSet;
    var chunk := m.chunks[m.current];
    var n := ExecuteChunk(m);
    ChunkIsDistinct(m.chunks, m.current);
    PendingOfChunk(chunk);
    FillsUnchanged(m.trace, NewOrders(chunk, m.attempts));
    FlattenSnoc(m.chunks, m.current);
    CoresConcat(Flatten(m.chunks[..m.current]), chunk);
    LedgerWithinPlan(m.chunks, m.current);
    assert n.pending != map[] by {
      PlanChunkNonEmpty(m.chunks, m.current);
      assert chunk[0].uid in n.pending;
    }
  }

  lemma PlanChunkNonEmpty(chunks: seq<seq<OrderIntent>>, k: nat)
    requires PlanOk(chunks) && k < |chunks|
    ensures |chunks[k]| > 0
  {
  }

  lemma NothingFlat<T>(xss: seq<seq<T>>)
    ensures Flatten(xss[..0]) == []
    ensures Flatten(xss[..|xss|]) == Flatten(xss)
  {
    assert xss[..|xss|] == xss;
  }

  lemma StartKeepsLedger(m: Machine, plan: seq<seq<OrderIntent>>, a: Allocation)
    requires m == INITIAL && PlanOk(plan)
    ensures Shape(Start(m, plan, a)) && Ledger(Start(m, plan, a))
  {
    hide Flatten, PlanOk;
    var d := m.(chunks := plan, current := 0, attempts := 0, trace := m.trace + [Deployed(a)]);
    FillsSnoc([], Deployed(a));
    assert m.trace + [Deployed(a)] == [] + [Deployed(a)];
    NothingFlat(plan);
    assert Cores([]) == [];
    if plan != [] {
      ExecuteKeepsLedger(d.(state := BUILDING));
    } else {
      assert multiset(Fills(d.trace)) == multiset{};
    }
  }

  lemma PartialFillKeepsLedger(m: Machine, n: Machine, uid: string)
    requires Shape(m) && Ledger(m) && uid in m.pending && n.pending == m.pending - {uid} && n.pending != map[]
    requires n == m.(exchangeIds := n.exchangeIds, trace := n.trace, pending := n.pending)
    requires Fills(n.trace) == Fills(m.trace) + [CoreOf(m.pending[uid])]
    ensures Shape(n) && Ledger(n)
  {
    hide Flatten, Fills, PendingCores, PlanOk, Cores, UidSet;
    RemovePending(m.pending, uid);
    LedgerWithinPlan(m.chunks, m.current);
  }

  lemma LastFillCompletesChunk(m: Machine, n: Machine, uid: string)
    requires Shape(m) && Ledger(m) && uid in m.pending && m.pending - {uid} == map[]
    requires Fills(n.trace) == Fills(m.trace) + [CoreOf(m.pending[uid])]
    ensures multiset(Fills(n.trace)) == multiset(Cores(Flatten(m.chunks[..m.current + 1])))
  {
    hide Flatten, Fills, PendingCores, PlanOk, Cores, UidSet;
    RemovePending(m.pending, uid);
    NoPendingCores(m.pending - {uid});
  }

  lemma FillKeepsLedger(m: Machine, n: Machine, uid: string)
    requires Shape(m) && Ledger(m) && uid in m.pending
    requires n == m.(exchangeIds := n.exchangeIds, trace := n.trace)
    requires Fills(n.trace) == Fills(m.trace) + [CoreOf(m.pending[uid])]
    ensures Shape(Fill(n, uid)) && Ledger(Fill(n, uid))
  {
    hide Flatten, Fills, PendingCores, PlanOk, Cores, UidSet, ExecuteChunk;
    var left := m.pending - {uid};
    if left != map[] {
      PartialFillKeepsLedger(m, n.(pending := left), uid);
    } else {
      LastFillCompletesChunk(m, n, uid);
      NothingFlat(m.chunks);
      if m.current + 1 < |m.chunks| {
        ExecuteKeepsLedger(n.(pending := left, current := m.current + 1, state := BUILDING));
      }
    }
  }

  lemma NoPendingCores(p: map<string, OrderIntent>)
    requires p == map[]
    ensures multiset(PendingCores(p)) == multiset{}
  {
    assert PendingCores(p) == {};
  }

  lemma UpdateKeepsLedger(m: Machine, uid: string, status: string, exchangeId: string)
    requires Shape(m) && Ledger(m)
    ensures var n := OrderUpdate(m, uid, status, exchangeId); Shape(n) && Ledger(n)
  {
    hide Flatten, Fills, PendingCores, PlanOk, Cores, UidSet, Fill, IsFill, IsFatal;
    if uid in m.pending {
      var n := m.(exchangeIds := Learn(m.exchangeIds, uid, exchangeId),
                  trace := m.trace + [Accepted(m.pending[uid], status, exchangeId)]);
      FillsSnoc(m.trace, Accepted(m.pending[uid], status, exchangeId));
      if IsFill(status) {
        FillKeepsLedger(m, n, uid);
      }
    }
  }

  lemma ChaseOneKeepsLedger(m: Machine, uid: string, junk: string -> Int32)
    requires Shape(m) && Ledger(m) && Open(m) && uid in m.pending
    ensures var n := ChaseOne(m, uid, junk); Shape(n) && Ledger(n) && Open(n)
  {
    hide Flatten, Fills, PendingCores, PlanOk, Cores, UidSet, Widen, Lookup;
    var n := ChaseOne(m, uid, junk);
    FillsSnoc(m.trace, n.trace[|m.trace|]);
    ReplacePending(m.pending, uid, n.pending[uid]);
    assert uid in n.pending;
  }

  lemma {:induction false} ChaseAllKeepsLedger(m: Machine, order: seq<string>, junk: string -> Int32)
    requires Shape(m) && Ledger(m) && Open(m) && forall i :: 0 <= i < |order| ==> order[i] in m.pending
    ensures var n := ChaseAll(m, order, junk); Shape(n) && Ledger(n) && Open(n)
  {
    hide Shape, Ledger, Open, ChaseOne;
    if order != [] {
      var front := order[..|order| - 1];
      ChaseAllKeepsLedger(m, front, junk);
      ChaseOneKeepsLedger(ChaseAll(m, front, junk), order[|order| - 1], junk);
    }
  }

  lemma DeployedPlanOk(w: Worker, q: Quote, now: nat)
    requires w.builder.lotSize != 0
    ensures PlanOk(PlanFor(w, q, now))
  {
    hide ChunkedOrders, DistinctUids;
    var a := DeltaNeutral(w.builder, q.ceDelta, q.peDelta, w.targetLots);
    var t := Ticket(w.tradeUid, now, "SELL");
    var ce, pe := Leg(q.ceToken, CE, a.ceLots, q.cePrice), Leg(q.peToken, PE, a.peLots, q.pePrice);
    PlanIsWellFormed(w.builder, t, ce, pe);
    if w.builder.lotSize < 0 {
      NoLotsNoPlan(w.builder, t, ce, pe);
    }
  }

  lemma StepKeepsLedger(w: Worker, m: Machine, i: Input)
    requires w.builder.lotSize != 0 && InputOk(m, i) && Shape(m) && Ledger(m)
    ensures Shape(Step(w, m, i)) && Ledger(Step(w, m, i))
  {
    hide Flatten, Fills, PendingCores, PlanOk, Cores, UidSet, Tradable, DeltaNeutral, PlanFor, OrderUpdate;
    hide Start, ChaseAll;
    match i {
      case Poll(elapsed, order, junk, atm, now) =>
        if m.state == INIT {
          if atm.Some? && Tradable(atm.value) {
            DeployedPlanOk(w, atm.value, now);
            StartKeepsLedger(m, PlanFor(w, atm.value, now),
                             DeltaNeutral(w.builder, atm.value.ceDelta, atm.value.peDelta, w.targetLots));
          }
        } else if Open(m) && elapsed {
          ChaseAllKeepsLedger(m.(state := CHASING, attempts := m.attempts + 1), order, junk);
        }
      case Update(uid, status, _, exchangeId) =>
        UpdateKeepsLedger(m, uid, status, exchangeId);
    }
  }

  // ---------------------------------------------------------------------------------------
  // Emission discipline
  // ---------------------------------------------------------------------------------------

  predicate Mentions(e: Entry, uid: string)
  {
    !e.Deployed? && e.intent.uid == uid
  }

  /** The latest non-empty exchange identifier reported for an order. */
  function LatestId(trace: seq<Entry>, uid: string): string
  {
    if trace == [] then "" else
    var e := trace[|trace| - 1];
    if e.Accepted? && e.intent.uid == uid && e.exchangeId != "" then e.exchangeId
    else LatestId(trace[..|trace| - 1], uid)
  }

  /** The messages sent for an order, in turn. */
  function Emissions(trace: seq<Entry>, uid: string): (es: seq<Entry>)
    ensures forall k :: 0 <= k < |es| ==> es[k].Emitted? && es[k].intent.uid == uid
  {
    if trace == [] then [] else
    var e := trace[|trace| - 1];
    Emissions(trace[..|trace| - 1], uid) + if e.Emitted? && e.intent.uid == uid then [e] else []
  }

  lemma EmissionsSnoc(t: seq<Entry>, e: Entry, uid: string)
    ensures Emissions(t + [e], uid) == Emissions(t, uid) + if e.Emitted? && e.intent.uid == uid then [e] else []
  {
    assert (t + [e])[..|t|] == t;
  }

  /**
   A message carries the latest exchange identifier known for its order and is a modify exactly when
   there is one; the first message of an order is a new order.  Updates are accepted only for orders
   that have been sent.
   */
  ghost predicate EntryOk(before: seq<Entry>, e: Entry)
  {
    match e
    case Deployed(_) => true
    case Emitted(o, isModify, id, _) =>
      id == LatestId(before, o.uid) && (isModify <==> id != "") && (Emissions(before, o.uid) == [] ==> !isModify)
    case Accepted(o, _, _) => Emissions(before, o.uid) != []
  }

  ghost predicate Disciplined(trace: seq<Entry>)
  {
    forall j :: 0 <= j < |trace| ==> EntryOk(trace[..j], trace[j])
  }

  lemma DisciplinedSnoc(t: seq<Entry>, e: Entry)
    requires Disciplined(t) && EntryOk(t, e)
    ensures Disciplined(t + [e])
  {
    var s := t + [e];
    forall j | 0 <= j < |s| ensures EntryOk(s[..j], s[j]) {
      if j < |t| {
        assert s[..j] == t[..j];
      } else {
        assert s[..j] == t;
      }
    }
  }

  lemma LatestIdSnoc(t: seq<Entry>, e: Entry, uid: string)
    ensures LatestId(t + [e], uid) ==
      if e.Accepted? && e.intent.uid == uid && e.exchangeId != "" then e.exchangeId else LatestId(t, uid)
  {
    assert (t + [e])[..|t|] == t;
  }

  /** The trace agrees with the table of exchange identifiers. */
  ghost predicate IdsAgree(trace: seq<Entry>, ids: map<string, string>)
  {
    forall u :: LatestId(trace, u) == Lookup(ids, u)
  }

  lemma IdsAgreeSnoc(t: seq<Entry>, e: Entry, ids: map<string, string>)
    requires IdsAgree(t, ids)
    ensures !e.Accepted? ==> IdsAgree(t + [e], ids)
    ensures e.Accepted? ==> IdsAgree(t + [e], Learn(ids, e.intent.uid, e.exchangeId))
  {
    forall u ensures !e.Accepted? ==> LatestId(t + [e], u) == Lookup(ids, u)
             ensures e.Accepted? ==> LatestId(t + [e], u) == Lookup(Learn(ids, e.intent.uid, e.exchangeId), u) {
      LatestIdSnoc(t, e, u);
      assert LatestId(t, u) == Lookup(ids, u);
    }
  }

  // ---------------------------------------------------------------------------------------
  // Price buffers
  // ---------------------------------------------------------------------------------------

  /** The buffer of an order first sent after `a` chases, once it has been widened for chases `a + 1` to `n`. */
  function Buffer(a: nat, n: nat): (ticks: int)
    ensures ticks >= INITIAL_BUFFER_TICKS
    decreases n
  {
    if n <= a then INITIAL_BUFFER_TICKS else
    WidenGrows(Buffer(a, n - 1), n);
    Widen(Buffer(a, n - 1), n)
  }

  lemma WidenGrows(ticks: int, attempts: nat)
    requires ticks >= INITIAL_BUFFER_TICKS
    ensures Widen(ticks, attempts) >= ticks && (attempts >= 3 ==> Widen(ticks, attempts) > ticks)
  {
    assert ticks * (5 + attempts) == 5 * ticks + ticks * attempts;
    if attempts >= 3 {
      assert ticks * attempts >= 2 * 3;
    }
  }

  lemma {:induction false} BufferGrows(a: nat, m: nat, n: nat)
    requires a <= m <= n
    ensures Buffer(a, m) <= Buffer(a, n) && (m < n && n >= 3 ==> Buffer(a, m) < Buffer(a, n))
    decreases n
  {
    if m < n {
      hide Widen;
      BufferGrows(a, m, n - 1);
      WidenGrows(Buffer(a, n - 1), n);
    }
  }

  /**
   An order is sent once per chase from its first message on, each time with the buffer widened once
   more, as long as that buffer is a 32-bit integer.
   */
  ghost predicate WellChased(es: seq<Entry>)
    requires forall k :: 0 <= k < |es| ==> es[k].Emitted?
  {
    forall k :: 0 <= k < |es| ==> Chased(es[0].attempt, es[k], k)
  }

  predicate Chased(a: nat, e: Entry, k: nat)
    requires e.Emitted?
  {
    e.attempt == a + k && (Fits(Buffer(a, a + k)) ==> e.intent.bufferTicks == Buffer(a, a + k))
  }

  ghost predicate AllWellChased(trace: seq<Entry>)
  {
    forall u :: WellChased(Emissions(trace, u))
  }

  lemma WellChasedSnoc(t: seq<Entry>, e: Entry)
    requires AllWellChased(t) && (e.Emitted? ==> WellChased(Emissions(t, e.intent.uid) + [e]))
    ensures AllWellChased(t + [e])
  {
    hide WellChased, Emissions;
    forall u ensures WellChased(Emissions(t + [e], u)) {
      EmissionsSnoc(t, e, u);
      assert Emissions(t, u) + [] == Emissions(t, u);
    }
  }

  /** The last message sent for an order, which was this one at this chase. */
  ghost predicate LastSent(trace: seq<Entry>, uid: string, o: OrderIntent, attempt: int)
  {
    var es := Emissions(trace, uid);
    es != [] && es[|es| - 1].intent == o && es[|es| - 1].attempt == attempt
  }

  lemma LastSentSnoc(t: seq<Entry>, e: Entry, uid: string, o: OrderIntent, attempt: int)
    requires if e.Emitted? && e.intent.uid == uid then e.intent == o && e.attempt == attempt
             else LastSent(t, uid, o, attempt)
    ensures LastSent(t + [e], uid, o, attempt)
  {
    hide Emissions;
    EmissionsSnoc(t, e, uid);
    assert Emissions(t, uid) + [] == Emissions(t, uid);
  }

  /** One more chase of an order whose last message was sent at the chase before. */
  lemma ChaseIsWell(es: seq<Entry>, e: Entry, junk: Int32)
    requires es != [] && (forall k :: 0 <= k < |es| ==> es[k].Emitted?) && WellChased(es) && e.Emitted?
    requires e.attempt == es[|es| - 1].attempt + 1
    requires e.intent.bufferTicks == Cast(Widen(es[|es| - 1].intent.bufferTicks, e.attempt), junk)
    ensures WellChased(es + [e])
  {
    hide Widen, Buffer;
    var a, last := es[0].attempt, es[|es| - 1];
    assert Chased(a, last, |es| - 1);
    assert a + |es| == e.attempt;
    BufferStep(a, a + |es|);
    assert Chased(a, e, |es|);
    assert forall k :: 0 <= k < |es| ==> (es + [e])[k] == es[k];
  }

  lemma BufferStep(a: nat, n: nat)
    requires a < n
    ensures Buffer(a, n) == Widen(Buffer(a, n - 1), n) && 2 <= Buffer(a, n - 1) <= Buffer(a, n)
  {
    hide Widen;
    BufferGrows(a, n - 1, n);
  }

  lemma FirstIsWell(e: Entry)
    requires e.Emitted? && e.intent.bufferTicks == INITIAL_BUFFER_TICKS
    ensures WellChased([e])
  {
  }

  // ---------------------------------------------------------------------------------------
  // Every step keeps the discipline
  // ---------------------------------------------------------------------------------------

  /** What is pending is what was last sent, at the current chase. */
  ghost predicate PendingSent(trace: seq<Entry>, pending: map<string, OrderIntent>, attempts: nat)
  {
    forall u :: u in pending ==> LastSent(trace, u, pending[u], attempts)
  }

  /** The same in the middle of a chase that has come to the orders in `done`. */
  ghost predicate PartlySent(trace: seq<Entry>, pending: map<string, OrderIntent>, attempts: nat, done: seq<string>)
  {
    forall u :: u in pending ==> LastSent(trace, u, pending[u], if u in done then attempts else attempts - 1)
  }

  /** The trace speaks only of these orders. */
  ghost predicate TraceWithin(trace: seq<Entry>, uids: set<string>)
  {
    forall i :: 0 <= i < |trace| && !trace[i].Deployed? ==> trace[i].intent.uid in uids
  }

  ghost predicate Discipline(m: Machine)
  {
    && Disciplined(m.trace) && IdsAgree(m.trace, m.exchangeIds) && AllWellChased(m.trace)
    && PendingSent(m.trace, m.pending, m.attempts)
    && (Open(m) ==> m.current < |m.chunks| && TraceWithin(m.trace, UidSet(Flatten(m.chunks[..m.current + 1]))))
  }

  ghost predicate MidChase(m: Machine, done: seq<string>)
  {
    && Disciplined(m.trace) && IdsAgree(m.trace, m.exchangeIds) && AllWellChased(m.trace)
    && PartlySent(m.trace, m.pending, m.attempts, done)
    && Open(m) && m.current < |m.chunks| && TraceWithin(m.trace, UidSet(Flatten(m.chunks[..m.current + 1])))
  }

  lemma WithinSnoc(t: seq<Entry>, e: Entry, uids: set<string>)
    requires TraceWithin(t, uids) && (e.Deployed? || e.intent.uid in uids)
    ensures TraceWithin(t + [e], uids)
  {
  }

  /** Orders the trace never mentions have no identifier and no message. */
  lemma {:induction false} UnmentionedIsNew(t: seq<Entry>, uid: string)
    requires forall i :: 0 <= i < |t| ==> !Mentions(t[i], uid)
    ensures LatestId(t, uid) == "" && Emissions(t, uid) == []
  {
    if t != [] {
      var front, last := t[..|t| - 1], t[|t| - 1];
      assert forall i :: 0 <= i < |front| ==> front[i] == t[i];
      UnmentionedIsNew(front, uid);
      assert !Mentions(t[|t| - 1], uid);
    }
  }

  /** Sending one new order of a chunk whose identifiers the trace does not know yet. */
  lemma EmitNew(t: seq<Entry>, o: OrderIntent, attempts: nat, ids: map<string, string>,
                pending: map<string, OrderIntent>)
    requires Disciplined(t) && IdsAgree(t, ids) && AllWellChased(t) && PendingSent(t, pending, attempts)
    requires o.bufferTicks == INITIAL_BUFFER_TICKS && SelfKeyed(pending) && o.uid !in pending
    requires forall i :: 0 <= i < |t| ==> !Mentions(t[i], o.uid)
    ensures var s := t + [Emitted(o, false, "", attempts)];
      Disciplined(s) && IdsAgree(s, ids) && AllWellChased(s) && PendingSent(s, pending[o.uid := o], attempts)
  {
    hide Disciplined, IdsAgree, AllWellChased, WellChased, LatestId, Emissions, LastSent, Mentions;
    var e := Emitted(o, false, "", attempts);
    UnmentionedIsNew(t, o.uid);
    DisciplinedSnoc(t, e);
    IdsAgreeSnoc(t, e, ids);
    assert Emissions(t, o.uid) + [e] == [e];
    FirstIsWell(e);
    WellChasedSnoc(t, e);
    var q := pending[o.uid := o];
    forall u | u in q ensures LastSent(t + [e], u, q[u], attempts) {
      LastSentSnoc(t, e, u, q[u], attempts);
    }
  }

  /** Sending the first `k` orders of a chunk. */
  lemma {:induction false} EmitChunk(m: Machine, chunk: seq<OrderIntent>, k: nat, uids: set<string>)
    requires Disciplined(m.trace) && IdsAgree(m.trace, m.exchangeIds) && AllWellChased(m.trace)
    requires TraceWithin(m.trace, uids) && DistinctUids(chunk) && UidSet(chunk) !! uids && k <= |chunk|
    requires forall i :: 0 <= i < |chunk| ==> chunk[i].bufferTicks == INITIAL_BUFFER_TICKS
    ensures
      var s := m.trace + NewOrders(chunk[..k], m.attempts);
      && Disciplined(s) && IdsAgree(s, m.exchangeIds) && AllWellChased(s)
      && PendingSent(s, PendingOf(chunk[..k]), m.attempts) && TraceWithin(s, uids + UidSet(chunk[..k]))
  {
    hide AllWellChased;
    if k == 0 {
      assert m.trace + NewOrders(chunk[..0], m.attempts) == m.trace;
      assert PendingOf(chunk[..0]) == map[];
    } else {
      EmitChunk(m, chunk, k - 1, uids);
      hide Disciplined, IdsAgree, PendingSent, TraceWithin, PendingOf;
      var front, last := chunk[..k - 1], chunk[k - 1];
      var t := m.trace + NewOrders(front, m.attempts);
      ChunkSnoc(chunk, k);
      assert NewOrders(chunk[..k], m.attempts) == NewOrders(front, m.attempts) + [Emitted(last, false, "", m.attempts)];
      AppendAssoc(m.trace, NewOrders(front, m.attempts), [Emitted(last, false, "", m.attempts)]);
      assert last.uid !in uids + UidSet(front);
      WithinExcludes(t, uids + UidSet(front), last.uid);
      EmitNew(t, last, m.attempts, m.exchangeIds, PendingOf(front));
      WithinGrows(t, Emitted(last, false, "", m.attempts), uids + UidSet(front));
      assert uids + UidSet(front) + {last.uid} == uids + UidSet(chunk[..k]);
    }
  }

  lemma WithinExcludes(t: seq<Entry>, uids: set<string>, uid: string)
    requires TraceWithin(t, uids) && uid !in uids
    ensures forall i :: 0 <= i < |t| ==> !Mentions(t[i], uid)
  {
  }

  lemma WithinGrows(t: seq<Entry>, e: Entry, uids: set<string>)
    requires TraceWithin(t, uids) && !e.Deployed?
    ensures TraceWithin(t + [e], uids + {e.intent.uid})
  {
  }

  /** A chunk prefix extended by one order. */
  lemma ChunkSnoc(chunk: seq<OrderIntent>, k: nat)
    requires 0 < k <= |chunk| && DistinctUids(chunk)
    ensures var front, last := chunk[..k - 1], chunk[k - 1];
      && chunk[..k] == front + [last] && last.uid !in UidSet(front) && last.uid in UidSet(chunk)
      && UidSet(chunk[..k]) == UidSet(front) + {last.uid}
      && SelfKeyed(PendingOf(front)) && last.uid !in PendingOf(front)
      && PendingOf(chunk[..k]) == PendingOf(front)[last.uid := last]
  {
    var front, last := chunk[..k - 1], chunk[k - 1];
    assert chunk[..k] == front + [last];
    assert chunk[..k][..k - 1] == front;
    UidSetSnoc(front, last);
    PendingOfChunk(front);
  }

  lemma ExecuteKeepsDiscipline(m: Machine)
    requires PlanOk(m.chunks) && m.state == BUILDING && m.current < |m.chunks|
    requires Disciplined(m.trace) && IdsAgree(m.trace, m.exchangeIds) && AllWellChased(m.trace)
    requires TraceWithin(m.trace, UidSet(Flatten(m.chunks[..m.current])))
    ensures Discipline(ExecuteChunk(m))
  {
    hide Flatten, PendingOf, PlanOk, UidSet, Disciplined, IdsAgree, AllWellChased, PendingSent, TraceWithin;
    var chunk := m.chunks[m.current];
    var before := Flatten(m.chunks[..m.current]);
    ChunkIsDistinct(m.chunks, m.current);
    EmitChunk(m, chunk, |chunk|, UidSet(before));
    assert chunk[..|chunk|] == chunk;
    FlattenSnoc(m.chunks, m.current);
    UidSetConcat(before, chunk);
  }

  lemma UidSetConcat(xs: seq<OrderIntent>, ys: seq<OrderIntent>)
    ensures UidSet(xs + ys) == UidSet(xs) + UidSet(ys)
  {
    var s := xs + ys;
    forall u | u in UidSet(xs) + UidSet(ys) ensures u in UidSet(s) {
      if u in UidSet(xs) {
        var i :| 0 <= i < |xs| && xs[i].uid == u;
        assert s[i].uid == u;
      } else {
        var i :| 0 <= i < |ys| && ys[i].uid == u;
        assert s[|xs| + i].uid == u;
      }
    }
    forall u | u in UidSet(s) ensures u in UidSet(xs) + UidSet(ys) {
      var i :| 0 <= i < |s| && s[i].uid == u;
      assert i < |xs| ==> xs[i].uid == u;
      assert i >= |xs| ==> ys[i - |xs|].uid == u;
    }
  }

  lemma NothingSent()
    ensures Disciplined([]) && IdsAgree([], map[]) && AllWellChased([])
  {
  }

  lemma StartKeepsDiscipline(m: Machine, plan: seq<seq<OrderIntent>>, a: Allocation)
    requires m == INITIAL && PlanOk(plan)
    ensures Discipline(Start(m, plan, a))
  {
    hide Flatten, PlanOk, UidSet, AllWellChased, Disciplined, IdsAgree;
    var d := m.(chunks := plan, current := 0, attempts := 0, trace := m.trace + [Deployed(a)]);
    NothingSent();
    DisciplinedSnoc([], Deployed(a));
    IdsAgreeSnoc([], Deployed(a), map[]);
    WellChasedSnoc([], Deployed(a));
    assert [] + [Deployed(a)] == d.trace;
    if plan != [] {
      ExecuteKeepsDiscipline(d.(state := BUILDING));
    }
  }

  lemma PendingSentSnoc(t: seq<Entry>, e: Entry, pending: map<string, OrderIntent>, attempts: nat)
    requires PendingSent(t, pending, attempts) && !e.Emitted?
    ensures PendingSent(t + [e], pending, attempts)
  {
    hide LastSent;
    forall u | u in pending ensures LastSent(t + [e], u, pending[u], attempts) {
      LastSentSnoc(t, e, u, pending[u], attempts);
    }
  }

  lemma SentIsEmitted(t: seq<Entry>, pending: map<string, OrderIntent>, attempts: nat, uid: string)
    requires PendingSent(t, pending, attempts) && uid in pending
    ensures Emissions(t, uid) != []
  {
    hide Emissions;
    assert LastSent(t, uid, pending[uid], attempts);
  }

  lemma AcceptKeepsDiscipline(m: Machine, uid: string, status: string, exchangeId: string)
    requires Shape(m) && Discipline(m) && uid in m.pending
    ensures
      var t := m.trace + [Accepted(m.pending[uid], status, exchangeId)];
      && Disciplined(t) && IdsAgree(t, Learn(m.exchangeIds, uid, exchangeId)) && AllWellChased(t)
      && PendingSent(t, m.pending, m.attempts) && TraceWithin(t, UidSet(Flatten(m.chunks[..m.current + 1])))
  {
    hide Flatten, PlanOk, UidSet, Disciplined, IdsAgree, TraceWithin, Learn, PendingSent, AllWellChased, Emissions;
    var e := Accepted(m.pending[uid], status, exchangeId);
    SentIsEmitted(m.trace, m.pending, m.attempts, uid);
    DisciplinedSnoc(m.trace, e);
    IdsAgreeSnoc(m.trace, e, m.exchangeIds);
    WellChasedSnoc(m.trace, e);
    PendingSentSnoc(m.trace, e, m.pending, m.attempts);
    FlattenSnoc(m.chunks, m.current);
    UidSetConcat(Flatten(m.chunks[..m.current]), m.chunks[m.current]);
    WithinSnoc(m.trace, e, UidSet(Flatten(m.chunks[..m.current + 1])));
  }

  lemma PendingSentShrinks(t: seq<Entry>, p: map<string, OrderIntent>, attempts: nat, uid: string)
    requires PendingSent(t, p, attempts)
    ensures PendingSent(t, p - {uid}, attempts) && PendingSent(t, map[], attempts)
  {
    hide LastSent;
  }

  lemma UpdateKeepsDiscipline(m: Machine, uid: string, status: string, exchangeId: string)
    requires Shape(m) && Discipline(m)
    ensures Discipline(OrderUpdate(m, uid, status, exchangeId))
  {
    hide Flatten, PlanOk, UidSet, Disciplined, IdsAgree, TraceWithin, PendingSent, AllWellChased, Learn, IsFill;
    hide ExecuteChunk, IsFatal;
    if uid in m.pending {
      AcceptKeepsDiscipline(m, uid, status, exchangeId);
      var n := m.(exchangeIds := Learn(m.exchangeIds, uid, exchangeId),
                  trace := m.trace + [Accepted(m.pending[uid], status, exchangeId)]);
      PendingSentShrinks(n.trace, m.pending, m.attempts, uid);
      var left := m.pending - {uid};
      if IsFill(status) && left == map[] && m.current + 1 < |m.chunks| {
        ExecuteKeepsDiscipline(n.(pending := left, current := m.current + 1, state := BUILDING));
      }
    }
  }

  lemma PartlySentSnoc(t: seq<Entry>, e: Entry, pending: map<string, OrderIntent>, attempts: nat, done: seq<string>,
                       uid: string)
    requires PartlySent(t, pending, attempts, done) && uid in pending && e.Emitted? && e.intent.uid == uid
    requires e.attempt == attempts
    ensures PartlySent(t + [e], pending[uid := e.intent], attempts, done + [uid])
  {
    hide LastSent;
    var q := pending[uid := e.intent];
    forall u | u in q ensures LastSent(t + [e], u, q[u], if u in done + [uid] then attempts else attempts - 1) {
      LastSentSnoc(t, e, u, q[u], if u in done + [uid] then attempts else attempts - 1);
    }
  }

  /** The message of a chase of one order not yet chased. */
  lemma ChaseEntry(m: Machine, uid: string, done: seq<string>, junk: string -> Int32, e: Entry)
    requires SelfKeyed(m.pending) && MidChase(m, done) && uid in m.pending && uid !in done && m.attempts > 0
    requires ChaseOne(m, uid, junk).trace == m.trace + [e]
    ensures EntryOk(m.trace, e) && e.Emitted? && WellChased(Emissions(m.trace, uid) + [e])
  {
    hide Flatten, UidSet, Disciplined, IdsAgree, TraceWithin, Widen, LatestId, Emissions, WellChased;
    var n := ChaseOne(m, uid, junk);
    assert e == n.trace[|m.trace|];
    IdsLookup(m.trace, m.exchangeIds, uid);
    assert LastSent(m.trace, uid, m.pending[uid], m.attempts - 1);
    ChaseIsWell(Emissions(m.trace, uid), e, junk(uid));
  }

  lemma ChaseAppends(m: Machine, uid: string, junk: string -> Int32) returns (e: Entry)
    requires SelfKeyed(m.pending) && uid in m.pending
    ensures e.Emitted? && e.intent.uid == uid && e.attempt == m.attempts
    ensures ChaseOne(m, uid, junk) == m.(pending := m.pending[uid := e.intent], trace := m.trace + [e])
  {
    hide Widen, Lookup;
    e := ChaseOne(m, uid, junk).trace[|m.trace|];
  }

  lemma ChaseOneKeepsDiscipline(m: Machine, uid: string, done: seq<string>, junk: string -> Int32)
    requires Shape(m) && MidChase(m, done) && uid in m.pending && uid !in done && m.attempts > 0
    ensures MidChase(ChaseOne(m, uid, junk), done + [uid])
  {
    hide Flatten, PlanOk, UidSet, Disciplined, IdsAgree, TraceWithin, AllWellChased, WellChased, PartlySent, EntryOk;
    hide ChaseOne, Emissions;
    var e := ChaseAppends(m, uid, junk);
    ChaseEntry(m, uid, done, junk, e);
    DisciplinedSnoc(m.trace, e);
    IdsAgreeSnoc(m.trace, e, m.exchangeIds);
    WellChasedSnoc(m.trace, e);
    PartlySentSnoc(m.trace, e, m.pending, m.attempts, done, uid);
    FlattenSnoc(m.chunks, m.current);
    UidSetConcat(Flatten(m.chunks[..m.current]), m.chunks[m.current]);
    WithinSnoc(m.trace, e, UidSet(Flatten(m.chunks[..m.current + 1])));
  }

  lemma IdsLookup(t: seq<Entry>, ids: map<string, string>, uid: string)
    requires IdsAgree(t, ids)
    ensures LatestId(t, uid) == Lookup(ids, uid)
  {
  }

  lemma {:induction false} ChaseAllKeepsDiscipline(m: Machine, order: seq<string>, junk: string -> Int32)
    requires Shape(m) && Ledger(m) && MidChase(m, []) && Open(m) && m.attempts > 0 && NoDuplicates(order)
    requires forall i :: 0 <= i < |order| ==> order[i] in m.pending
    ensures MidChase(ChaseAll(m, order, junk), order)
  {
    hide Shape, Ledger, MidChase, Open, ChaseOne;
    if order != [] {
      var front, last := order[..|order| - 1], order[|order| - 1];
      assert order == front + [last];
      ChaseAllKeepsDiscipline(m, front, junk);
      ChaseAllKeepsLedger(m, front, junk);
      ChaseExtends(m, front, junk);
      ChaseOneKeepsDiscipline(ChaseAll(m, front, junk), last, front, junk);
    }
  }

  lemma ChaseKeepsDiscipline(m: Machine, order: seq<string>, junk: string -> Int32)
    requires Shape(m) && Ledger(m) && Discipline(m) && Open(m) && Enumerates(order, m.pending.Keys)
    ensures Discipline(ChaseAll(m.(state := CHASING, attempts := m.attempts + 1), order, junk))
  {
    hide Shape, Ledger, Disciplined, IdsAgree, TraceWithin, AllWellChased, LastSent, ChaseAll, Flatten, UidSet;
    var c := m.(state := CHASING, attempts := m.attempts + 1);
    ShapeIgnoresAttempts(m, c);
    LedgerIgnoresAttempts(m, c);
    assert MidChase(c, []);
    ChaseAllKeepsDiscipline(c, order, junk);
    ChaseExtends(c, order, junk);
    var n := ChaseAll(c, order, junk);
    assert forall u :: u in n.pending ==> u in order;
  }

  lemma ShapeIgnoresAttempts(m: Machine, c: Machine)
    requires Shape(m) && Open(m) && Open(c) && c == m.(state := c.state, attempts := c.attempts)
    ensures Shape(c)
  {
    hide PlanOk, UidSet;
  }

  // ---------------------------------------------------------------------------------------
  // The plan a machine works off is the one its allocation asked for
  // ---------------------------------------------------------------------------------------

  ghost predicate Allocated(m: Machine)
  {
    m.state != INIT ==>
      && m.trace != [] && m.trace[0].Deployed?
      && (m.chunks != [] ==>
            && QuantityOf(Flatten(m.chunks), CE) == m.trace[0].allocation.ceQuantity
            && QuantityOf(Flatten(m.chunks), PE) == m.trace[0].allocation.peQuantity)
  }

  lemma ShareNonNegative(target: int, other: real, own: real)
    requires target > 0 && (other != 0.0 || own != 0.0)
    ensures LegLots(Share(target, other, own)) >= 1
  {
    SharesBalance(own, other, target);
    hide Times, Share;
    assert Share(target, other, own) >= 0.0;
  }

  lemma AllocationLots(b: Builder, ceDelta: real, peDelta: real, target: int)
    ensures var a := DeltaNeutral(b, ceDelta, peDelta, target);
      a.ceLots >= 0 && a.peLots >= 0 && a.ceQuantity == a.ceLots * b.lotSize && a.peQuantity == a.peLots * b.lotSize
  {
    if target > 0 && b.lotSize > 0 && Abs(ceDelta) + Abs(peDelta) != 0.0 {
      ShareNonNegative(target, peDelta, ceDelta);
      ShareNonNegative(target, ceDelta, peDelta);
    }
    hide Share, LegLots, NetDelta, Round;
  }

  lemma DeployAllocates(w: Worker, q: Quote, now: nat)
    requires w.builder.lotSize != 0 && PlanFor(w, q, now) != []
    ensures var a := DeltaNeutral(w.builder, q.ceDelta, q.peDelta, w.targetLots);
      && QuantityOf(Flatten(PlanFor(w, q, now)), CE) == a.ceQuantity
      && QuantityOf(Flatten(PlanFor(w, q, now)), PE) == a.peQuantity
  {
    var a := DeltaNeutral(w.builder, q.ceDelta, q.peDelta, w.targetLots);
    var t, ce, pe := Ticket(w.tradeUid, now, "SELL"), Leg(q.ceToken, CE, a.ceLots, q.cePrice),
      Leg(q.peToken, PE, a.peLots, q.pePrice);
    NoDivisorNoPlan(w.builder, t, ce, pe);
    hide DeltaNeutral, ChunkedOrders, QuantityOf, Flatten;
    AllocationLots(w.builder, q.ceDelta, q.peDelta, w.targetLots);
    PlanIsExact(w.builder, t, ce, pe);
  }

  lemma NoDivisorNoPlan(b: Builder, t: Ticket, ce: Leg, pe: Leg)
    requires b.lotSize != 0 && ChunkedOrders(b, t, ce, pe) != []
    ensures b.chunkDivisor > 0
  {
  }

  /** Steps other than a deploy leave the plan and the first history entry alone. */
  lemma StepKeepsAllocated(w: Worker, m: Machine, i: Input)
    requires w.builder.lotSize != 0 && InputOk(m, i) && Shape(m) && Allocated(m)
    ensures Allocated(Step(w, m, i))
  {
    hide Flatten, QuantityOf, PlanOk, UidSet, Tradable, DeltaNeutral, PlanFor, ChaseAll, Widen, IsFill, IsFatal;
    match i {
      case Poll(elapsed, order, junk, atm, now) =>
        if m.state == INIT {
          if atm.Some? && Tradable(atm.value) {
            var plan := PlanFor(w, atm.value, now);
            if plan != [] {
              DeployAllocates(w, atm.value, now);
            }
          }
        } else if Open(m) && elapsed && m.pending != map[] {
          ChaseExtends(m.(state := CHASING, attempts := m.attempts + 1), order, junk);
        }
      case Update(uid, status, _, exchangeId) =>
    }
  }

  lemma {:induction false} ChaseExtends(m: Machine, order: seq<string>, junk: string -> Int32)
    requires forall i :: 0 <= i < |order| ==> order[i] in m.pending
    ensures var n := ChaseAll(m, order, junk);
      n == m.(pending := n.pending, trace := n.trace) && m.trace <= n.trace
  {
    if order != [] {
      ChaseExtends(m, order[..|order| - 1], junk);
    }
  }

  // ---------------------------------------------------------------------------------------
  // Theorems over whole runs
  // ---------------------------------------------------------------------------------------

  ghost predicate Invariant(m: Machine)
  {
    Shape(m) && Ledger(m) && Discipline(m) && Allocated(m)
  }

  lemma InitialInvariant()
    ensures Invariant(INITIAL)
  {
    assert Flatten<OrderIntent>([]) == [];
    assert PendingCores(map[]) == {};
    assert Cores([]) == [];
  }

  lemma StepKeepsDiscipline(w: Worker, m: Machine, i: Input)
    requires w.builder.lotSize != 0 && InputOk(m, i) && Shape(m) && Ledger(m) && Discipline(m)
    ensures Discipline(Step(w, m, i))
  {
    hide Flatten, PendingCores, PlanOk, Cores, UidSet, Tradable, DeltaNeutral, PlanFor, OrderUpdate, Start, ChaseAll;
    hide Discipline, Ledger, Enumerates;
    match i {
      case Poll(elapsed, order, junk, atm, now) =>
        if m.state == INIT {
          if atm.Some? && Tradable(atm.value) {
            DeployedPlanOk(w, atm.value, now);
            StartKeepsDiscipline(m, PlanFor(w, atm.value, now),
                                 DeltaNeutral(w.builder, atm.value.ceDelta, atm.value.peDelta, w.targetLots));
          }
        } else if Open(m) && elapsed {
          ChaseKeepsDiscipline(m, order, junk);
        }
      case Update(uid, status, _, exchangeId) =>
        UpdateKeepsDiscipline(m, uid, status, exchangeId);
    }
  }

  lemma LedgerIgnoresAttempts(m: Machine, c: Machine)
    requires Ledger(m) && Open(m) && Open(c) && c == m.(state := c.state, attempts := c.attempts)
    ensures Ledger(c)
  {
  }
}
