/**
 Deployment of a straddle, end to end: the chunker's plan, driven through the broker by the build,
 fills exactly the lots that were asked for.
 */
module Deployment {
  import opened BuildExecutor
  import opened BuildProperties
  import opened ChunkerProperties
  import opened OrderChunker
  import opened OrderTable
  import opened Sequences

  lemma FlattenMember<T>(xss: seq<seq<T>>, c: nat, x: T)
    requires c < |xss| && x in xss[c]
    ensures x in Flatten(xss)
  {
    hide Flatten;
    FlattenSplit(xss, c);
  }

  lemma {:induction false} FlattenOrigin<T>(xss: seq<seq<T>>, x: T) returns (c: nat)
    requires x in Flatten(xss)
    ensures c < |xss| && x in xss[c]
  {
    if x in xss[0] {
      c := 0;
    } else {
      c := FlattenOrigin(xss[1..], x);
      c := c + 1;
    }
  }

  /** A flattened plan with distinct identifiers has distinct identifiers within and across its chunks. */
  lemma DistinctAcrossChunks(chunks: seq<seq<ExecOrder>>)
    requires DistinctOrders(Flatten(chunks))
    ensures PlanDistinct(chunks)
  {
    hide Flatten;
    var flat := Flatten(chunks);
    forall c | 0 <= c < |chunks| ensures DistinctOrders(chunks[c]) {
      FlattenSplit(chunks, c);
      var n := |Flatten(chunks[..c])|;
      assert forall i :: 0 <= i < |chunks[c]| ==> flat[n + i] == chunks[c][i];
    }
    forall c, d, x, y | 0 <= c < d < |chunks| && x in chunks[c] && y in chunks[d] ensures x.uid != y.uid {
      FlattenSplit(chunks, d);
      FlattenMember(chunks[..d], c, x);
      assert chunks[..d][c] == chunks[c];
      var a := Flatten(chunks[..d]);
      var i :| 0 <= i < |a| && a[i] == x;
      var k :| 0 <= k < |chunks[d]| && chunks[d][k] == y;
      assert flat[i] == x && flat[|a| + k] == y;
    }
  }

  /** The theorems about builds apply to every plan of the chunker. */
  lemma ChunkerPlansAreDistinct(j: Job, legs: seq<LegData>)
    requires j.per >= 1 && LegsOk(legs)
    ensures PlanDistinct(Plan(j, legs))
  {
    hide Plan, Flatten, DistinctOrders, PlanDistinct;
    PlanUidsDistinct(j, legs);
    DistinctAcrossChunks(Plan(j, legs));
  }

  /** The orders whose submission was answered by a fill, in the order of the fills. */
  function FilledOrders(log: seq<Submission>): seq<ExecOrder>
  {
    if log == [] then [] else
    (if WasFilled(log[0]) then [log[0].order] else []) + FilledOrders(log[1..])
  }

  lemma {:induction false} FilledOrdersMembers(log: seq<Submission>, o: ExecOrder)
    ensures o in FilledOrders(log) <==> FilledIn(log, o)
  {
    if log != [] {
      var rest := log[1..];
      FilledOrdersMembers(rest, o);
      hide WasFilled;
      assert forall i :: 0 < i < |log| ==> log[i] == rest[i - 1];
      if FilledIn(rest, o) {
        var i :| 0 <= i < |rest| && rest[i].order == o && WasFilled(rest[i]);
        assert log[i + 1] == rest[i];
      }
    }
  }

  lemma {:induction false} FilledOrdersDistinct(log: seq<Submission>)
    requires RetriesOnly(log)
    ensures NoDuplicates(FilledOrders(log))
  {
    if log != [] {
      var rest := log[1..];
      RetriesOnlyTail(log);
      FilledOrdersDistinct(rest);
      if WasFilled(log[0]) {
        FilledOrdersMembers(rest, log[0].order);
        assert !FilledIn(rest, log[0].order) by {
          forall i | 0 <= i < |rest| ensures !(rest[i].order == log[0].order && WasFilled(rest[i])) {
            assert rest[i] == log[i + 1];
          }
        }
        NoDuplicatesCons(log[0].order, FilledOrders(rest));
      }
    }
  }

  lemma NoDuplicatesCons<T>(x: T, xs: seq<T>)
    requires NoDuplicates(xs) && x !in xs
    ensures NoDuplicates([x] + xs)
  {
  }

  lemma SameElements<T>(xs: seq<T>, ys: seq<T>)
    requires NoDuplicates(xs) && NoDuplicates(ys) && forall x :: x in xs <==> x in ys
    ensures multiset(xs) == multiset(ys)
  {
    forall x ensures multiset(xs)[x] == multiset(ys)[x] {
      if x in xs {
        var i :| 0 <= i < |xs| && xs[i] == x;
        var k :| 0 <= k < |ys| && ys[k] == x;
        OnceInMultiset(xs, i);
        OnceInMultiset(ys, k);
      }
    }
  }

  lemma DistinctUidsNoDuplicates(orders: seq<ExecOrder>)
    requires DistinctOrders(orders)
    ensures NoDuplicates(orders)
  {
  }

  /** A successful build fills the planned orders and nothing else, each once. */
  lemma BuildFillsThePlan(b: Broker, t: Trade, chunks: seq<seq<ExecOrder>>)
    requires DistinctOrders(Flatten(chunks)) && Build(b, t, chunks).failure.None?
    ensures multiset(FilledOrders(Build(b, t, chunks).log)) == multiset(Flatten(chunks))
  {
    DistinctAcrossChunks(chunks);
    BuildIsOk(b, t, chunks);
    var r := Build(b, t, chunks);
    hide Build, PlanDistinct, Genuine, OpenIsLast, Barrier, Flatten, FilledIn, FilledOrders;
    forall o ensures o in FilledOrders(r.log) <==> o in Flatten(chunks) {
      FilledOrdersMembers(r.log, o);
      if o in Flatten(chunks) {
        var c := FlattenOrigin(chunks, o);
      }
      if FilledIn(r.log, o) {
        var c := FilledOrigin(r.log, t, chunks, o);
        FlattenMember(chunks, c, o);
      }
    }
    FilledOrdersDistinct(r.log);
    DistinctUidsNoDuplicates(Flatten(chunks));
    SameElements(FilledOrders(r.log), Flatten(chunks));
  }

  lemma FilledOrigin(log: seq<Submission>, t: Trade, chunks: seq<seq<ExecOrder>>, o: ExecOrder) returns (c: nat)
    requires BuildEntries(log, t, chunks, 0) && FilledIn(log, o)
    ensures c < |chunks| && o in chunks[c]
  {
    hide Genuine;
    var i :| 0 <= i < |log| && log[i].order == o && WasFilled(log[i]);
    c := log[i].chunk;
  }

  /**
   For any broker: if the build of a chunked plan succeeds, the quantity filled in any selection of
   lines (of one token, say) is exactly the lots times the lot size of the selected legs.
   */
  lemma DeploymentFillsDemand(b: Broker, t: Trade, j: Job, legs: seq<LegData>, sel: Line -> bool)
    requires j.per >= 1 && LegsOk(legs) && Build(b, t, Plan(j, legs)).failure.None?
    ensures Quantity(FilledOrders(Build(b, t, Plan(j, legs)).log), sel) == Demand(legs, sel)
  {
    hide Plan, Build, Flatten, Quantity, Demand, FilledOrders, DistinctOrders;
    var plan := Plan(j, legs);
    PlanUidsDistinct(j, legs);
    BuildFillsThePlan(b, t, plan);
    QuantityPermutation(FilledOrders(Build(b, t, plan).log), Flatten(plan), sel);
    PlanConserves(j, legs, sel);
  }
}
