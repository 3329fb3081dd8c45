/** What holds of every run of the trade worker. */
module RunProperties {
  import opened IntentBuilder
  import opened Sequences
  import opened TradeWorker

  /** Every step keeps the invariant. */
  lemma StepKeepsInvariant(w: Worker, m: Machine, i: Input)
    requires w.builder.lotSize != 0 && InputOk(m, i) && Invariant(m)
    ensures Invariant(Step(w, m, i))
  {
    hide Shape, Ledger, Discipline, Allocated, Step;
    StepKeepsLedger(w, m, i);
    StepKeepsDiscipline(w, m, i);
    StepKeepsAllocated(w, m, i);
  }

  lemma RunStep(w: Worker, ms: seq<Machine>, inputs: seq<Input>, k: nat)
    requires IsRun(w, ms, inputs) && k < |inputs|
    ensures InputOk(ms[k], inputs[k]) && ms[k + 1] == Step(w, ms[k], inputs[k])
  {
    hide Step;
  }

  /** Every machine of every run satisfies the invariant. */
  lemma {:induction false} RunInvariant(w: Worker, ms: seq<Machine>, inputs: seq<Input>, i: nat)
    requires IsRun(w, ms, inputs) && i < |ms|
    ensures Invariant(ms[i])
  {
    hide Invariant, Step, Enumerates;
    if i == 0 {
      InitialInvariant();
    } else {
      RunInvariant(w, ms, inputs, i - 1);
      RunStep(w, ms, inputs, i - 1);
      StepKeepsInvariant(w, ms[i - 1], inputs[i - 1]);
    }
  }

  /**
   Whenever a run reaches ACTIVE, the accepted fills are exactly the planned orders, each once, and
   the filled quantities of both legs are exactly those of the allocation.
   */
  lemma ActiveMeansExactlyFilled(w: Worker, ms: seq<Machine>, inputs: seq<Input>, i: nat)
    requires IsRun(w, ms, inputs) && i < |ms| && ms[i].state == ACTIVE
    ensures
      var m := ms[i];
      && multiset(Fills(m.trace)) == multiset(Cores(Flatten(m.chunks)))
      && (forall j, k :: 0 <= j < k < |Fills(m.trace)| ==> Fills(m.trace)[j].uid != Fills(m.trace)[k].uid)
      && m.trace != [] && m.trace[0].Deployed?
      && CoreQuantity(Fills(m.trace), CE) == m.trace[0].allocation.ceQuantity
      && CoreQuantity(Fills(m.trace), PE) == m.trace[0].allocation.peQuantity
  {
    RunInvariant(w, ms, inputs, i);
    hide Flatten, Fills, Cores, CoreQuantity, QuantityOf, IsRun, Discipline;
    var m := ms[i];
    var plan := Flatten(m.chunks);
    CoreQuantityPermutation(Fills(m.trace), Cores(plan), CE);
    CoreQuantityPermutation(Fills(m.trace), Cores(plan), PE);
    QuantityOfCores(plan, CE);
    QuantityOfCores(plan, PE);
    DistinctThroughPermutation(Fills(m.trace), plan);
  }

  lemma DistinctThroughPermutation(cs: seq<Core>, plan: seq<OrderIntent>)
    requires multiset(cs) == multiset(Cores(plan)) && DistinctUids(plan)
    ensures forall j, k :: 0 <= j < k < |cs| ==> cs[j].uid != cs[k].uid
  {
    forall j, k | 0 <= j < k < |cs| ensures cs[j].uid != cs[k].uid {
      if cs[j].uid == cs[k].uid {
        var d := Cores(plan);
        assert cs[j] in multiset(cs) && cs[k] in multiset(cs);
        assert cs[j] in d && cs[k] in d;
        var a :| 0 <= a < |d| && d[a] == cs[j];
        var b :| 0 <= b < |d| && d[b] == cs[k];
        assert a == b;
        TwiceInMultiset(cs, j, k);
        OnceInMultiset(d, a);
        assert false;
      }
    }
  }

  /** In every run every emission obeys the emission discipline. */
  lemma ChaseDiscipline(w: Worker, ms: seq<Machine>, inputs: seq<Input>, i: nat, j: nat)
    requires IsRun(w, ms, inputs) && i < |ms| && j < |ms[i].trace|
    ensures EntryOk(ms[i].trace[..j], ms[i].trace[j])
  {
    RunInvariant(w, ms, inputs, i);
    hide EntryOk, IsRun, Shape, Ledger;
  }

  /** No run fills anything outside its plan or anything twice, however it ends. */
  lemma FillsStayWithinPlan(w: Worker, ms: seq<Machine>, inputs: seq<Input>, i: nat)
    requires IsRun(w, ms, inputs) && i < |ms|
    ensures multiset(Fills(ms[i].trace)) <= multiset(Cores(Flatten(ms[i].chunks)))
  {
    RunInvariant(w, ms, inputs, i);
  }

  /** A finished machine never changes again. */
  lemma FinishedIsAbsorbing(w: Worker, m: Machine, i: Input)
    requires w.builder.lotSize != 0 && InputOk(m, i) && Shape(m)
    requires m.state == ACTIVE || m.state == CLOSED
    ensures Step(w, m, i) == m
  {
  }

  lemma {:induction false} FinishedForever(w: Worker, ms: seq<Machine>, inputs: seq<Input>, i: nat, j: nat)
    requires IsRun(w, ms, inputs) && i <= j < |ms| && (ms[i].state == ACTIVE || ms[i].state == CLOSED)
    ensures ms[j] == ms[i]
    decreases j
  {
    hide Step, Shape, Ledger, Discipline, Allocated, Enumerates;
    if i < j {
      FinishedForever(w, ms, inputs, i, j - 1);
      RunInvariant(w, ms, inputs, j - 1);
      RunStep(w, ms, inputs, j - 1);
      FinishedIsAbsorbing(w, ms[j - 1], inputs[j - 1]);
    }
  }

  /**
   An accepted fill makes progress: the number of chunks left drops, or it stays and the number of
   pending intents drops.  No step moves the chunk index back.
   */
  lemma FillMakesProgress(m: Machine, uid: string, status: string, exchangeId: string)
    requires Shape(m) && uid in m.pending && IsFill(status)
    ensures var n := OrderUpdate(m, uid, status, exchangeId);
      n.chunks == m.chunks && (n.current > m.current || (n.current == m.current && |n.pending| < |m.pending|))
  {
    hide PlanOk, Flatten, PendingOf, UidSet;
    var left := m.pending - {uid};
    assert left.Keys == m.pending.Keys - {uid};
    assert |left| == |left.Keys| && |m.pending| == |m.pending.Keys|;
  }

  lemma StepMovesForward(w: Worker, m: Machine, i: Input)
    requires w.builder.lotSize != 0 && InputOk(m, i) && Shape(m)
    ensures m.current <= Step(w, m, i).current
  {
    hide PlanOk, Flatten, PendingOf, UidSet, ChaseAll, PlanFor, DeltaNeutral, Tradable, IsFill, IsFatal;
    if i.Poll? && m.state != INIT && Open(m) && i.elapsed && m.pending != map[] {
      ChaseExtends(m.(state := CHASING, attempts := m.attempts + 1), i.order, i.junk);
    }
  }

  lemma {:induction false} IndexNeverDecreases(w: Worker, ms: seq<Machine>, inputs: seq<Input>, i: nat, j: nat)
    requires IsRun(w, ms, inputs) && i <= j < |ms|
    ensures ms[i].current <= ms[j].current
    decreases j
  {
    hide Step, Shape, Ledger, Discipline, Allocated, Enumerates;
    if i < j {
      IndexNeverDecreases(w, ms, inputs, i, j - 1);
      RunInvariant(w, ms, inputs, j - 1);
      RunStep(w, ms, inputs, j - 1);
      StepMovesForward(w, ms[j - 1], inputs[j - 1]);
    }
  }

  // ---------------------------------------------------------------------------------------
  // What a trade holds, also when it was closed half way
  // ---------------------------------------------------------------------------------------

  /** The chunks that have been begun. */
  function Begun(m: Machine): nat
  {
    if m.current < |m.chunks| then m.current + 1 else |m.chunks|
  }

  /** All orders of the finished chunks are filled, and none beyond the chunk that was begun last. */
  ghost predicate WithinOneChunk(m: Machine)
  {
    && m.current <= |m.chunks|
    && multiset(Cores(Flatten(m.chunks[..m.current]))) <= multiset(Fills(m.trace))
    && multiset(Fills(m.trace)) <= multiset(Cores(Flatten(m.chunks[..Begun(m)])))
  }

  lemma CoreMember(orders: seq<OrderIntent>, c: Core)
    requires c in Cores(orders)
    ensures c.uid in UidSet(orders)
  {
    var i :| 0 <= i < |orders| && Cores(orders)[i] == c;
    assert orders[i].uid == c.uid;
  }

  /** What is pending belongs to the current chunk. */
  lemma PendingInChunk(m: Machine)
    requires Shape(m) && Ledger(m) && Open(m)
    ensures multiset(PendingCores(m.pending)) <= multiset(Cores(m.chunks[m.current]))
  {
    hide Flatten, Fills, PlanOk, UidSet, Cores;
    var before, chunk := Flatten(m.chunks[..m.current]), m.chunks[m.current];
    ChunkIsDistinct(m.chunks, m.current);
    FlattenSnoc(m.chunks, m.current);
    CoresConcat(before, chunk);
    forall c | c in PendingCores(m.pending) ensures c in Cores(chunk) {
      var u :| u in m.pending && CoreOf(m.pending[u]) == c;
      assert c in multiset(PendingCores(m.pending));
      assert c in multiset(Cores(before)) + multiset(Cores(chunk));
      if c in Cores(before) {
        CoreMember(before, c);
      }
    }
  }

  lemma SplitBounds<T>(f: multiset<T>, p: multiset<T>, a: multiset<T>, c: multiset<T>)
    requires f + p == a + c && p <= c
    ensures a <= f && f <= a + c
  {
    forall x ensures a[x] <= f[x] {
      assert (f + p)[x] == (a + c)[x];
    }
  }

  lemma OpenWithinOneChunk(m: Machine)
    requires Shape(m) && Ledger(m) && Open(m)
    ensures WithinOneChunk(m)
  {
    hide Flatten, Fills, PlanOk, UidSet, Cores, PendingCores;
    PendingInChunk(m);
    FlattenSnoc(m.chunks, m.current);
    CoresConcat(Flatten(m.chunks[..m.current]), m.chunks[m.current]);
    SplitBounds(multiset(Fills(m.trace)), multiset(PendingCores(m.pending)),
                multiset(Cores(Flatten(m.chunks[..m.current]))), multiset(Cores(m.chunks[m.current])));
  }

  lemma DoneWithinOneChunk(m: Machine)
    requires Shape(m) && Ledger(m) && (m.state == ACTIVE || m.state == INIT)
    ensures WithinOneChunk(m)
  {
    hide PlanOk, UidSet;
    NothingFlat(m.chunks);
    assert Cores([]) == [];
  }

  /** A step that closes a trade leaves it within one chunk. */
  lemma ClosingStep(w: Worker, m: Machine, i: Input)
    requires w.builder.lotSize != 0 && InputOk(m, i) && Invariant(m) && Step(w, m, i).state == CLOSED
    requires m.state == CLOSED ==> WithinOneChunk(m)
    ensures WithinOneChunk(Step(w, m, i))
  {
    hide Flatten, PlanOk, UidSet, Cores, ChaseAll, PlanFor, DeltaNeutral, Tradable, WithinOneChunk, Discipline;
    hide Ledger, ExecuteChunk, Enumerates;
    if m.state == CLOSED {
      FinishedIsAbsorbing(w, m, i);
    } else if i.Update? {
      RejectionCloses(m, i.uid, i.status, i.exchangeId);
    } else {
      EmptyPlanCloses(w, m, i);
    }
  }

  lemma RejectionCloses(m: Machine, uid: string, status: string, exchangeId: string)
    requires Shape(m) && Ledger(m) && m.state != CLOSED && OrderUpdate(m, uid, status, exchangeId).state == CLOSED
    ensures WithinOneChunk(OrderUpdate(m, uid, status, exchangeId))
  {
    hide Flatten, PlanOk, UidSet, Cores, Fills, Ledger, ExecuteChunk;
    assert uid in m.pending && !IsFill(status) by { FillNeverCloses(m, uid, status, exchangeId); }
    OpenWithinOneChunk(m);
    FillsSnoc(m.trace, Accepted(m.pending[uid], status, exchangeId));
    assert Fills(m.trace) + [] == Fills(m.trace);
  }

  lemma FillNeverCloses(m: Machine, uid: string, status: string, exchangeId: string)
    requires m.state != CLOSED
    ensures uid !in m.pending || IsFill(status) ==> OrderUpdate(m, uid, status, exchangeId).state != CLOSED
  {
    hide PendingOf, NewOrders;
  }

  lemma EmptyPlanCloses(w: Worker, m: Machine, i: Input)
    requires w.builder.lotSize != 0 && InputOk(m, i) && Shape(m) && i.Poll? && m.state != CLOSED
    requires Step(w, m, i).state == CLOSED
    ensures WithinOneChunk(Step(w, m, i))
  {
    hide PlanOk, UidSet, ChaseAll, PlanFor, DeltaNeutral, Tradable, PendingOf;
    if m.state != INIT && Open(m) && i.elapsed && m.pending != map[] {
      ChaseExtends(m.(state := CHASING, attempts := m.attempts + 1), i.order, i.junk);
    }
    var n := Step(w, m, i);
    assert m.state == INIT && n.chunks == [] && n.current == 0;
    FillsSnoc([], n.trace[0]);
    assert n.trace == [] + [n.trace[0]];
    assert Cores([]) == [];
  }

  /**
   At every moment of every run, also after a rejection closed the trade, every order of the finished
   chunks is filled, once, and nothing beyond the chunk that was begun last.
   */
  lemma {:induction false} FillsWithinOneChunk(w: Worker, ms: seq<Machine>, inputs: seq<Input>, i: nat)
    requires IsRun(w, ms, inputs) && i < |ms|
    ensures WithinOneChunk(ms[i])
  {
    hide Step, Shape, Ledger, Discipline, Allocated, WithinOneChunk, Enumerates;
    RunInvariant(w, ms, inputs, i);
    if ms[i].state == CLOSED && i > 0 {
      FillsWithinOneChunk(w, ms, inputs, i - 1);
      RunInvariant(w, ms, inputs, i - 1);
      RunStep(w, ms, inputs, i - 1);
      ClosingStep(w, ms[i - 1], inputs[i - 1]);
    } else if Open(ms[i]) {
      OpenWithinOneChunk(ms[i]);
    } else {
      NeverSquaring(ms[i]);
      DoneWithinOneChunk(ms[i]);
    }
  }

  lemma NeverSquaring(m: Machine)
    requires Shape(m)
    ensures m.state != SQUARING_OFF
  {
  }

  lemma {:induction false} SmallerQuantity(xs: seq<Core>, ys: seq<Core>, o: OptionType)
    requires multiset(xs) <= multiset(ys) && forall c :: c in ys ==> c.quantity > 0
    ensures CoreQuantity(xs, o) <= CoreQuantity(ys, o)
  {
    if xs == [] {
      NonNegativeQuantity(ys, o);
    } else {
      assert xs[0] in multiset(xs);
      var k :| 0 <= k < |ys| && ys[k] == xs[0];
      RemoveFromMultiset(ys, k);
      RemoveFromMultiset(xs, 0);
      assert xs[..0] + xs[1..] == xs[1..];
      SmallerRest(multiset(xs[1..]), multiset(ys[..k] + ys[k + 1..]), xs[0]);
      SmallerQuantity(xs[1..], ys[..k] + ys[k + 1..], o);
      CoreQuantityRemove(ys, k, o);
    }
  }

  lemma SmallerRest<T>(a: multiset<T>, b: multiset<T>, x: T)
    requires a + multiset{x} <= b + multiset{x}
    ensures a <= b
  {
    forall y ensures a[y] <= b[y] {
      assert (a + multiset{x})[y] <= (b + multiset{x})[y];
    }
  }

  lemma {:induction false} NonNegativeQuantity(ys: seq<Core>, o: OptionType)
    requires forall c :: c in ys ==> c.quantity > 0
    ensures CoreQuantity(ys, o) >= 0
  {
    if ys != [] {
      NonNegativeQuantity(ys[1..], o);
    }
  }

  lemma PositiveCores(chunks: seq<seq<OrderIntent>>, n: nat)
    requires PlanOk(chunks) && n <= |chunks|
    ensures forall c :: c in Cores(Flatten(chunks[..n])) ==> c.quantity > 0
  {
    hide Flatten;
    assert chunks == chunks[..n] + chunks[n..];
    FlattenConcat(chunks[..n], chunks[n..]);
    var flat, front := Flatten(chunks), Flatten(chunks[..n]);
    assert forall i :: 0 <= i < |front| ==> front[i] == flat[i];
  }

  lemma PositiveBelow(xs: seq<Core>, ys: seq<Core>)
    requires multiset(xs) <= multiset(ys) && forall c :: c in ys ==> c.quantity > 0
    ensures forall c :: c in xs ==> c.quantity > 0
  {
    forall c | c in xs ensures c.quantity > 0 {
      assert c in multiset(xs);
    }
  }

  /** The quantity of a leg in the first `n` chunks. */
  function ChunksHold(m: Machine, n: nat, o: OptionType): int
    requires n <= |m.chunks|
  {
    QuantityOf(Flatten(m.chunks[..n]), o)
  }

  /**
   At every moment of every run, each leg has filled at least its quantity in the finished chunks and
   at most that of the chunks begun, so the legs are apart by no more than one chunk.
   */
  lemma LegsWithinOneChunk(w: Worker, ms: seq<Machine>, inputs: seq<Input>, i: nat, o: OptionType)
    requires IsRun(w, ms, inputs) && i < |ms|
    ensures var m := ms[i];
      && m.current <= |m.chunks|
      && ChunksHold(m, m.current, o) <= CoreQuantity(Fills(m.trace), o) <= ChunksHold(m, Begun(m), o)
  {
    FillsWithinOneChunk(w, ms, inputs, i);
    RunInvariant(w, ms, inputs, i);
    hide IsRun, Ledger, Discipline, Allocated, Flatten, Fills, CoreQuantity, QuantityOf, Cores;
    var m := ms[i];
    PositiveCores(m.chunks, Begun(m));
    PositiveBelow(Fills(m.trace), Cores(Flatten(m.chunks[..Begun(m)])));
    SmallerQuantity(Cores(Flatten(m.chunks[..m.current])), Fills(m.trace), o);
    SmallerQuantity(Fills(m.trace), Cores(Flatten(m.chunks[..Begun(m)])), o);
    QuantityOfCores(Flatten(m.chunks[..m.current]), o);
    QuantityOfCores(Flatten(m.chunks[..Begun(m)]), o);
  }
}
