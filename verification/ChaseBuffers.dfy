/** The price buffers of chased orders: what they are in every run, how long they grow, and where the cast breaks. */
module ChaseBuffers {
  import opened IntentBuilder
  import opened Rounding
  import opened RunProperties
  import opened Sequences
  import opened TradeWorker
  import opened Wrappers

  // ---------------------------------------------------------------------------------------
  // Buffers that fit
  // ---------------------------------------------------------------------------------------

  lemma WidenMonotone(s: int, t: int, attempts: nat)
    requires 0 <= s <= t
    ensures Widen(s, attempts) <= Widen(t, attempts)
  {
    assert s * (5 + attempts) <= t * (5 + attempts);
  }

  /** An order sent later has the smaller buffer. */
  lemma {:induction false} BufferLater(a: nat, b: nat, n: nat)
    requires a <= b <= n
    ensures Buffer(b, n) <= Buffer(a, n)
    decreases n
  {
    hide Widen;
    if b < n {
      BufferLater(a, b, n - 1);
      WidenMonotone(Buffer(b, n - 1), Buffer(a, n - 1), n);
    }
  }

  lemma NextBuffer(n: nat, ticks: int)
    requires Buffer(0, n) == ticks
    ensures Buffer(0, n + 1) == ticks * (6 + n) / 5
  {
  }

  /** The last buffer that is a 32-bit integer, and the first that is not. */
  lemma LastBuffers()
    ensures Buffer(0, 20) == 1377064005 && Buffer(0, 21) == 7160732826
  {
    hide Buffer;
    assert Buffer(0, 0) == 2 by { FirstBuffer(); }
    NextBuffer(0, 2);
    NextBuffer(1, 2);
    NextBuffer(2, 2);
    NextBuffer(3, 3);
    NextBuffer(4, 5);
    NextBuffer(5, 10);
    NextBuffer(6, 22);
    NextBuffer(7, 52);
    NextBuffer(8, 135);
    NextBuffer(9, 378);
    NextBuffer(10, 1134);
    NextBuffer(11, 3628);
    NextBuffer(12, 12335);
    NextBuffer(13, 44406);
    NextBuffer(14, 168742);
    NextBuffer(15, 674968);
    NextBuffer(16, 2834865);
    NextBuffer(17, 12473406);
    NextBuffer(18, 57377667);
    NextBuffer(19, 275412801);
    NextBuffer(20, 1377064005);
  }

  lemma FirstBuffer()
    ensures Buffer(0, 0) == INITIAL_BUFFER_TICKS
  {
  }

  /** The buffer of an order sent before the first chase fits up to the twentieth chase and never again. */
  lemma FitsExactly(n: nat)
    ensures Fits(Buffer(0, n)) <==> n <= 20
  {
    hide Buffer;
    LastBuffers();
    if n <= 20 {
      BufferGrows(0, n, 20);
    } else {
      BufferGrows(0, 21, n);
    }
  }

  /** Up to the twentieth chase every buffer fits, whenever its order was sent. */
  lemma TwentyChasesFit(a: nat, n: nat)
    requires a <= n <= 20
    ensures Fits(Buffer(a, n))
  {
    hide Buffer;
    BufferLater(0, a, n);
    FitsExactly(n);
  }

  // ---------------------------------------------------------------------------------------
  // Buffers over whole runs
  // ---------------------------------------------------------------------------------------

  /**
   In every run an order is sent at every chase from its first message on, and message `k` carries
   the initial buffer widened once for each of those chases, exactly as long as that fits 32 bits.
   */
  lemma BuffersAreExact(w: Worker, ms: seq<Machine>, inputs: seq<Input>, i: nat, uid: string, k: nat)
    requires IsRun(w, ms, inputs) && i < |ms| && k < |Emissions(ms[i].trace, uid)|
    ensures
      var es := Emissions(ms[i].trace, uid);
      var exact := Buffer(es[0].attempt, es[k].attempt);
      es[k].attempt == es[0].attempt + k && (es[k].intent.bufferTicks == exact <==> Fits(exact))
  {
    RunInvariant(w, ms, inputs, i);
    hide IsRun, Emissions, Shape, Ledger, Allocated, Disciplined, IdsAgree, PendingSent, TraceWithin, Buffer;
    var es := Emissions(ms[i].trace, uid);
    assert WellChased(es);
    assert Chased(es[0].attempt, es[k], k);
  }

  /** While the buffer fits, messages never lower it, and from the third chase on they raise it. */
  lemma BuffersGrow(w: Worker, ms: seq<Machine>, inputs: seq<Input>, i: nat, uid: string, j: nat, k: nat)
    requires IsRun(w, ms, inputs) && i < |ms| && j < k < |Emissions(ms[i].trace, uid)|
    requires var es := Emissions(ms[i].trace, uid); Fits(Buffer(es[0].attempt, es[k].attempt))
    ensures var es := Emissions(ms[i].trace, uid);
      && es[j].intent.bufferTicks <= es[k].intent.bufferTicks
      && (es[k].attempt >= 3 ==> es[j].intent.bufferTicks < es[k].intent.bufferTicks)
  {
    hide IsRun, Emissions, Buffer;
    var es := Emissions(ms[i].trace, uid);
    BuffersAreExact(w, ms, inputs, i, uid, j);
    BuffersAreExact(w, ms, inputs, i, uid, k);
    BufferGrows(es[0].attempt, es[j].attempt, es[k].attempt);
  }

  /** So all messages of the first twenty chases obey it, in every run. */
  lemma TwentyChasesGrow(w: Worker, ms: seq<Machine>, inputs: seq<Input>, i: nat, uid: string, j: nat, k: nat)
    requires IsRun(w, ms, inputs) && i < |ms| && j < k < |Emissions(ms[i].trace, uid)|
    requires Emissions(ms[i].trace, uid)[k].attempt <= 20
    ensures var es := Emissions(ms[i].trace, uid);
      && es[j].intent.bufferTicks <= es[k].intent.bufferTicks
      && (es[k].attempt >= 3 ==> es[j].intent.bufferTicks < es[k].intent.bufferTicks)
  {
    hide IsRun, Emissions, Buffer;
    var es := Emissions(ms[i].trace, uid);
    BuffersAreExact(w, ms, inputs, i, uid, k);
    TwentyChasesFit(es[0].attempt, es[k].attempt);
    BuffersGrow(w, ms, inputs, i, uid, j, k);
  }

  /** The next chase does not lower this buffer, whatever an undefined cast yields. */
  ghost predicate CannotFall(m: Machine, uid: string)
    requires uid in m.pending
  {
    var c := m.(attempts := m.attempts + 1);
    forall junk :: ChaseOne(c, uid, junk).pending[uid].bufferTicks >= m.pending[uid].bufferTicks
  }

  lemma SafeStep(m: Machine, uid: string)
    requires uid in m.pending && Widen(m.pending[uid].bufferTicks, m.attempts + 1) >= m.pending[uid].bufferTicks > 0
    ensures CannotFall(m, uid) <==> Fits(Widen(m.pending[uid].bufferTicks, m.attempts + 1))
  {
    hide Widen, Lookup;
    var c := m.(attempts := m.attempts + 1);
    var v := Widen(m.pending[uid].bufferTicks, m.attempts + 1);
    var lowest: string -> Int32 := u => -0x8000_0000;
    assert ChaseOne(c, uid, lowest).pending[uid].bufferTicks == Cast(v, lowest(uid));
    assert forall junk :: ChaseOne(c, uid, junk).pending[uid].bufferTicks == Cast(v, junk(uid));
  }

  /** The number of chases before the first message of an order. */
  function FirstChase(trace: seq<Entry>, uid: string): nat
  {
    var es := Emissions(trace, uid);
    if es == [] then 0 else es[0].attempt
  }

  lemma PendingBuffer(w: Worker, ms: seq<Machine>, inputs: seq<Input>, i: nat, uid: string)
    requires IsRun(w, ms, inputs) && i < |ms| && uid in ms[i].pending
    ensures var a, n := FirstChase(ms[i].trace, uid), ms[i].attempts;
      a <= n && (Fits(Buffer(a, n)) ==> ms[i].pending[uid].bufferTicks == Buffer(a, n))
  {
    RunInvariant(w, ms, inputs, i);
    hide IsRun, Emissions, Shape, Ledger, Allocated, Disciplined, IdsAgree, AllWellChased, TraceWithin, Buffer;
    var m, es := ms[i], Emissions(ms[i].trace, uid);
    assert LastSent(m.trace, uid, m.pending[uid], m.attempts);
    BuffersAreExact(w, ms, inputs, i, uid, |es| - 1);
  }

  /**
   For a pending order of any run whose buffer fits: the next chase is sure not to lower it, whatever
   an undefined cast yields, if and only if the next buffer fits too.
   */
  lemma NextChaseSafeExactly(w: Worker, ms: seq<Machine>, inputs: seq<Input>, i: nat, uid: string)
    requires IsRun(w, ms, inputs) && i < |ms| && uid in ms[i].pending
    requires Fits(Buffer(FirstChase(ms[i].trace, uid), ms[i].attempts))
    ensures CannotFall(ms[i], uid) <==> Fits(Buffer(FirstChase(ms[i].trace, uid), ms[i].attempts + 1))
  {
    hide IsRun, FirstChase, Buffer, Widen, CannotFall;
    PendingBuffer(w, ms, inputs, i, uid);
    BufferStep(FirstChase(ms[i].trace, uid), ms[i].attempts + 1);
    SafeStep(ms[i], uid);
  }

  // ---------------------------------------------------------------------------------------
  // A run in which the cast breaks
  // ---------------------------------------------------------------------------------------

  lemma {:induction false} ChaseAllTicks(m: Machine, order: seq<string>, junk: string -> Int32, u: string)
    requires NoDuplicates(order) && u in m.pending && forall i :: 0 <= i < |order| ==> order[i] in m.pending
    ensures ChaseAll(m, order, junk).pending[u].bufferTicks
      == if u in order then Cast(Widen(m.pending[u].bufferTicks, m.attempts), junk(u)) else m.pending[u].bufferTicks
  {
    hide Widen, Cast, Lookup;
    if order != [] {
      var front, last := order[..|order| - 1], order[|order| - 1];
      assert order == front + [last];
      ChaseAllTicks(m, front, junk, u);
      ChaseExtends(m, front, junk);
    }
  }

  const WORKER := Worker("T", Builder(65, 500, 7), 1)
  const QUOTE := Quote(1, 2, 100.0, 100.0, 0.5, -0.5)
  const LOWEST: string -> Int32 := u => -0x8000_0000

  lemma PlanIsThere()
    ensures PlanFor(WORKER, QUOTE, 0) != []
  {
    hide DeltaNeutral, ChunkedOrders;
    var a := DeltaNeutral(WORKER.builder, 0.5, -0.5, 1);
    DeltaNeutralBounds(WORKER.builder, 0.5, -0.5, 1);
    PlanIsExact(WORKER.builder, Ticket("T", 0, "SELL"), Leg(1, CE, a.ceLots, 100.0), Leg(2, PE, a.peLots, 100.0));
  }

  /** A run in which one deploy is followed by `k` chases and nothing else. */
  ghost predicate OnlyChases(ms: seq<Machine>, inputs: seq<Input>, k: nat)
  {
    && IsRun(WORKER, ms, inputs) && |inputs| == k + 1 && |ms| == k + 2
    && (forall i :: 0 <= i <= k ==> inputs[i].Poll? && inputs[i].elapsed && inputs[i].junk == LOWEST)
    && Open(ms[k + 1]) && ms[k + 1].attempts == k
  }

  lemma DeployStep(m: Machine)
    requires m == Deploy(WORKER, INITIAL, QUOTE, 0)
    ensures Open(m) && m.attempts == 0
  {
    hide DeltaNeutral, PlanFor, PendingOf;
    PlanIsThere();
  }

  lemma DeployRun() returns (ms: seq<Machine>, inputs: seq<Input>)
    ensures OnlyChases(ms, inputs, 0) && Ticking(ms[1], INITIAL_BUFFER_TICKS)
  {
    hide Deploy, FirstChase, Buffer, Tick, OrderUpdate, Flatten;
    var input := Poll(true, [], LOWEST, Some(QUOTE), 0);
    var m := Deploy(WORKER, INITIAL, QUOTE, 0);
    DeployStep(m);
    ms, inputs := [INITIAL, m], [input];
    assert Step(WORKER, INITIAL, input) == m;
    hide Step;
    assert IsRun(WORKER, ms, inputs);
    FirstBuffer();
    hide IsRun;
    forall u | u in m.pending ensures m.pending[u].bufferTicks == INITIAL_BUFFER_TICKS {
      PendingBuffer(WORKER, ms, inputs, 1, u);
    }
  }

  /** Every pending order has this buffer. */
  predicate Ticking(m: Machine, ticks: int)
  {
    forall u :: u in m.pending ==> m.pending[u].bufferTicks == ticks
  }

  /** One more chase of such a run. */
  lemma ChaseOnce(ms: seq<Machine>, inputs: seq<Input>, k: nat, ticks: int)
      returns (more: seq<Machine>, moreInputs: seq<Input>)
    requires OnlyChases(ms, inputs, k) && Ticking(ms[k + 1], ticks)
    ensures OnlyChases(more, moreInputs, k + 1) && more[..k + 2] == ms
    ensures Ticking(more[k + 2], Cast(Widen(ticks, k + 1), -0x8000_0000))
    ensures more[k + 2].pending.Keys == ms[k + 1].pending.Keys
  {
    hide Widen, ChaseAll, Deploy, OrderUpdate;
    var m := ms[k + 1];
    OpenIsPending(ms, inputs, k);
    var order := SomeEnumeration(m.pending.Keys);
    var input := Poll(true, order, LOWEST, None, 0);
    var c := m.(state := CHASING, attempts := k + 1);
    var n := ChaseAll(c, order, LOWEST);
    assert Step(WORKER, m, input) == n;
    ChaseExtends(c, order, LOWEST);
    forall u | u in n.pending ensures n.pending[u].bufferTicks == Cast(Widen(ticks, k + 1), -0x8000_0000) {
      ChaseAllTicks(c, order, LOWEST, u);
    }
    hide Step;
    more, moreInputs := ms + [n], inputs + [input];
    RunGrows(ms, inputs, n, input);
  }

  lemma OpenIsPending(ms: seq<Machine>, inputs: seq<Input>, k: nat)
    requires OnlyChases(ms, inputs, k)
    ensures ms[k + 1].pending != map[] && ms[k + 1].state != INIT
  {
    hide Ledger, Discipline, Allocated, PlanOk;
    RunInvariant(WORKER, ms, inputs, k + 1);
  }

  lemma RunGrows(ms: seq<Machine>, inputs: seq<Input>, n: Machine, input: Input)
    requires IsRun(WORKER, ms, inputs) && InputOk(ms[|inputs|], input) && n == Step(WORKER, ms[|inputs|], input)
    ensures IsRun(WORKER, ms + [n], inputs + [input])
  {
    hide Step;
    var more, moreInputs := ms + [n], inputs + [input];
    forall i | 0 <= i < |moreInputs|
      ensures InputOk(more[i], moreInputs[i]) && more[i + 1] == Step(WORKER, more[i], moreInputs[i])
    {
      if i < |inputs| {
        RunStep(WORKER, ms, inputs, i);
      }
    }
  }

  lemma {:induction false} ChaseRun(k: nat) returns (ms: seq<Machine>, inputs: seq<Input>)
    requires k <= 20
    ensures OnlyChases(ms, inputs, k) && Ticking(ms[k + 1], Buffer(0, k))
  {
    hide OnlyChases, Buffer, Widen;
    if k == 0 {
      FirstBuffer();
      ms, inputs := DeployRun();
    } else {
      ms, inputs := ChaseRun(k - 1);
      BufferStep(0, k);
      FitsExactly(k);
      ms, inputs := ChaseOnce(ms, inputs, k - 1, Buffer(0, k - 1));
    }
  }

  /**
   There is a run of a deploy and twenty-one chases, with no update in between, in which the last
   messages of every pending order carry 1377064005 ticks and then the lowest 32-bit integer.
   */
  lemma TwentyFirstChaseFalls() returns (ms: seq<Machine>, inputs: seq<Input>)
    ensures OnlyChases(ms, inputs, 21) && ms[22].pending != map[]
    ensures forall u :: u in ms[22].pending ==>
      && u in ms[21].pending
      && LastSent(ms[21].trace, u, ms[21].pending[u], 20) && ms[21].pending[u].bufferTicks == 1377064005
      && LastSent(ms[22].trace, u, ms[22].pending[u], 21) && ms[22].pending[u].bufferTicks == -0x8000_0000
  {
    hide Buffer, Widen, LastSent, IsRun;
    var before, beforeInputs := ChaseRun(20);
    LastBuffers();
    BufferStep(0, 21);
    ms, inputs := ChaseOnce(before, beforeInputs, 20, Buffer(0, 20));
    assert ms[21] == ms[..22][21];
    OpenIsPending(ms, inputs, 21);
    LastPending(before, beforeInputs, 20);
    LastPending(ms, inputs, 21);
  }

  lemma LastPending(ms: seq<Machine>, inputs: seq<Input>, k: nat)
    requires OnlyChases(ms, inputs, k)
    ensures var m := ms[k + 1]; forall u :: u in m.pending ==> LastSent(m.trace, u, m.pending[u], k)
  {
    hide Shape, Ledger, Allocated, LastSent, Disciplined, IdsAgree, AllWellChased, TraceWithin;
    RunInvariant(WORKER, ms, inputs, k + 1);
  }
}
