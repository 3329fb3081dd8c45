/**
 Trade status: what the deployment writes at the end of a build, and what the lifecycle refresh
 recomputes from the order rows of the trade.
 */
module Lifecycle {
  import opened BuildExecutor
  import opened BuildProperties
  import opened OrderTable
  import opened Text
  import opened Wrappers

  datatype TradeStatus = FAILED | ACTIVE | PENDING_FILL

  /** The status written when the build returns. */
  function StatusAfterBuild(r: Result): TradeStatus
  {
    if r.failure.None? then ACTIVE
    else if r.failure.value.PendingFill? then PENDING_FILL
    else FAILED
  }

  predicate IsOpenStatus(s: string)
  {
    s == "OPEN" || s == "SUBMITTED" || s == "PARTIALLY_FILLED"
  }

  predicate IsTerminalStatus(s: string)
  {
    s == "REJECTED" || s == "CANCELLED" || s == "CANCELED"
  }

  // ---------------------------------------------------------------------------------------
  // The counting query
  // ---------------------------------------------------------------------------------------

  datatype Bucket = Total | FilledRows | PendingRows | TerminalRows | UnknownRows

  predicate InBucket(status: string, filled: int, quantity: int, k: Bucket)
  {
    match k
    case Total => true
    case FilledRows => IsFilledStatus(status) && filled >= quantity && quantity > 0
    case PendingRows => IsOpenStatus(status) && filled < quantity
    case TerminalRows => IsTerminalStatus(status)
    case UnknownRows => !IsFilledStatus(status) && !IsOpenStatus(status) && !IsTerminalStatus(status)
  }

  /** SQL `LIKE 'BUI_%'`: the underscore stands for any one character. */
  predicate LikeBui(s: string)
  {
    |s| >= 4 && s[..3] == "BUI"
  }

  predicate IsBuildRow(r: Row, tradeUid: string)
  {
    r.tradeUid == tradeUid && (LikeBui(r.intentId) || LikeBui(r.orderUid) || ToUpper(r.phase) == "BUILD")
  }

  predicate Counts(r: Row, tradeUid: string, k: Bucket)
  {
    IsBuildRow(r, tradeUid) && InBucket(r.status, r.filledQty, r.quantity, k)
  }

  function Count(rows: seq<Row>, tradeUid: string, k: Bucket): nat
  {
    if rows == [] then 0 else (if Counts(rows[0], tradeUid, k) then 1 else 0) + Count(rows[1..], tradeUid, k)
  }

  /** `deriveTradeStatusFromBuildCounts`. */
  function Derive(total: int, filled: int, pending: int, terminalFail: int, unknown: int): TradeStatus
  {
    if total <= 0 then FAILED
    else if filled == total then ACTIVE
    else if pending > 0 then PENDING_FILL
    else if filled > 0 && filled < total then PENDING_FILL
    else if terminalFail == total then FAILED
    else if unknown > 0 then PENDING_FILL
    else FAILED
  }

  function Refresh(rows: seq<Row>, tradeUid: string): TradeStatus
  {
    Derive(Count(rows, tradeUid, Total), Count(rows, tradeUid, FilledRows), Count(rows, tradeUid, PendingRows),
           Count(rows, tradeUid, TerminalRows), Count(rows, tradeUid, UnknownRows))
  }

  ghost predicate AnyRow(rows: seq<Row>, tradeUid: string, k: Bucket)
  {
    exists i :: 0 <= i < |rows| && Counts(rows[i], tradeUid, k)
  }

  ghost predicate EveryRow(rows: seq<Row>, tradeUid: string, k: Bucket)
  {
    forall i :: 0 <= i < |rows| && IsBuildRow(rows[i], tradeUid) ==> Counts(rows[i], tradeUid, k)
  }

  lemma {:induction false} CountMeaning(rows: seq<Row>, tradeUid: string, k: Bucket)
    ensures Count(rows, tradeUid, k) > 0 <==> AnyRow(rows, tradeUid, k)
    ensures Count(rows, tradeUid, k) <= Count(rows, tradeUid, Total)
    ensures Count(rows, tradeUid, k) == Count(rows, tradeUid, Total) <==> EveryRow(rows, tradeUid, k)
  {
    if rows != [] {
      var rest := rows[1..];
      CountMeaning(rest, tradeUid, k);
      AnyRowCons(rows, tradeUid, k);
      EveryRowCons(rows, tradeUid, k);
      hide Counts, IsBuildRow, AnyRow, EveryRow;
      BucketInTotal(rows[0], tradeUid, k);
    }
  }

  lemma AnyRowCons(rows: seq<Row>, tradeUid: string, k: Bucket)
    requires rows != []
    ensures AnyRow(rows, tradeUid, k) <==> Counts(rows[0], tradeUid, k) || AnyRow(rows[1..], tradeUid, k)
  {
    hide Counts;
    var rest := rows[1..];
    assert forall i :: 0 < i < |rows| ==> rows[i] == rest[i - 1];
    if AnyRow(rest, tradeUid, k) {
      var i :| 0 <= i < |rest| && Counts(rest[i], tradeUid, k);
      assert rows[i + 1] == rest[i];
    }
  }

  lemma EveryRowCons(rows: seq<Row>, tradeUid: string, k: Bucket)
    requires rows != []
    ensures EveryRow(rows, tradeUid, k) <==>
      (IsBuildRow(rows[0], tradeUid) ==> Counts(rows[0], tradeUid, k)) && EveryRow(rows[1..], tradeUid, k)
  {
    hide Counts, IsBuildRow;
    var rest := rows[1..];
    assert forall i :: 0 < i < |rows| ==> rows[i] == rest[i - 1];
    forall i | 0 <= i < |rest| && IsBuildRow(rest[i], tradeUid)
      ensures EveryRow(rows, tradeUid, k) ==> Counts(rest[i], tradeUid, k)
    {
      assert rows[i + 1] == rest[i];
    }
  }

  lemma BucketInTotal(r: Row, tradeUid: string, k: Bucket)
    ensures Counts(r, tradeUid, k) ==> Counts(r, tradeUid, Total)
    ensures Counts(r, tradeUid, Total) <==> IsBuildRow(r, tradeUid)
  {
  }

  /**
   The recomputed status, for any table: active exactly when there are build rows and all of them
   count as filled; pending exactly when not all do but some row is filled, pending or unknown.
   */
  lemma RefreshMeaning(rows: seq<Row>, tradeUid: string)
    ensures Refresh(rows, tradeUid) == ACTIVE <==> AnyRow(rows, tradeUid, Total) && EveryRow(rows, tradeUid, FilledRows)
    ensures Refresh(rows, tradeUid) == PENDING_FILL <==>
      && !EveryRow(rows, tradeUid, FilledRows)
      && (AnyRow(rows, tradeUid, FilledRows) || AnyRow(rows, tradeUid, PendingRows) ||
        AnyRow(rows, tradeUid, UnknownRows))
  {
    hide Count, IsBuildRow;
    CountMeaning(rows, tradeUid, Total);
    CountMeaning(rows, tradeUid, FilledRows);
    CountMeaning(rows, tradeUid, PendingRows);
    CountMeaning(rows, tradeUid, TerminalRows);
    CountMeaning(rows, tradeUid, UnknownRows);
    if AnyRow(rows, tradeUid, UnknownRows) {
      var i :| 0 <= i < |rows| && Counts(rows[i], tradeUid, UnknownRows);
      assert !Counts(rows[i], tradeUid, TerminalRows);
      assert !EveryRow(rows, tradeUid, TerminalRows);
    }
  }

  /** A row of the build of a trade, by either identifier or by the phase of its request. */
  predicate PartOfBuild(r: Row, tradeUid: string)
  {
    r.tradeUid == tradeUid && ("BUI" < r.intentId || "BUI" < r.orderUid || ToUpper(r.phase) == "BUILD")
  }

  predicate ShowsFull(r: Row)
  {
    r.status in {"FILLED", "SUCCESS"} && r.filledQty >= r.quantity > 0
  }

  predicate ShowsOpen(r: Row)
  {
    r.status in {"OPEN", "SUBMITTED", "PARTIALLY_FILLED"} && r.filledQty < r.quantity
  }

  predicate ShowsUnknown(r: Row)
  {
    r.status !in {"FILLED", "SUCCESS", "OPEN", "SUBMITTED", "PARTIALLY_FILLED", "REJECTED", "CANCELLED", "CANCELED"}
  }

  lemma RowReads(r: Row, tradeUid: string)
    ensures IsBuildRow(r, tradeUid) <==> PartOfBuild(r, tradeUid)
    ensures Counts(r, tradeUid, FilledRows) <==> PartOfBuild(r, tradeUid) && ShowsFull(r)
    ensures Counts(r, tradeUid, PendingRows) <==> PartOfBuild(r, tradeUid) && ShowsOpen(r)
    ensures Counts(r, tradeUid, UnknownRows) <==> PartOfBuild(r, tradeUid) && ShowsUnknown(r)
  {
    hide ToUpper;
    BuiPrefix(r.intentId);
    BuiPrefix(r.orderUid);
  }

  lemma BuiPrefix(s: string)
    ensures LikeBui(s) <==> "BUI" < s
  {
  }

  /**
   The recomputed status in terms of the rows: ACTIVE exactly when the trade has build rows and each of
   them shows a full fill; PENDING_FILL exactly when not each does, but one shows a full fill, an open
   order or a status of its own.
   */
  lemma RefreshReads(rows: seq<Row>, tradeUid: string)
    ensures Refresh(rows, tradeUid) == ACTIVE <==>
      && (exists r :: r in rows && PartOfBuild(r, tradeUid))
      && (forall r :: r in rows && PartOfBuild(r, tradeUid) ==> ShowsFull(r))
    ensures Refresh(rows, tradeUid) == PENDING_FILL <==>
      && (exists r :: r in rows && PartOfBuild(r, tradeUid) && !ShowsFull(r))
      && (exists r :: r in rows && PartOfBuild(r, tradeUid) && (ShowsFull(r) || ShowsOpen(r) || ShowsUnknown(r)))
  {
    hide Refresh, PartOfBuild, ShowsFull, ShowsOpen, ShowsUnknown, Counts, IsBuildRow;
    RefreshMeaning(rows, tradeUid);
    forall r
      ensures IsBuildRow(r, tradeUid) <==> PartOfBuild(r, tradeUid)
      ensures Counts(r, tradeUid, FilledRows) <==> PartOfBuild(r, tradeUid) && ShowsFull(r)
      ensures Counts(r, tradeUid, PendingRows) <==> PartOfBuild(r, tradeUid) && ShowsOpen(r)
      ensures Counts(r, tradeUid, UnknownRows) <==> PartOfBuild(r, tradeUid) && ShowsUnknown(r)
      ensures Counts(r, tradeUid, Total) <==> IsBuildRow(r, tradeUid)
    {
      RowReads(r, tradeUid);
      BucketInTotal(r, tradeUid, Total);
    }
    assert forall i :: 0 <= i < |rows| ==> rows[i] in rows;
  }

  // ---------------------------------------------------------------------------------------
  // The rows a build leaves behind
  // ---------------------------------------------------------------------------------------

  datatype Standing = Standing(status: string, filled: int, pending: int, price: real)

  const CREATED := Standing("CREATED", 0, 0, 0.0)

  /** What an answer leaves in a row; an empty status is stored as SUBMITTED. */
  function Reported(r: Reply): Standing
    requires r.Answer?
  {
    Standing(if r.status == "" then "SUBMITTED" else r.status, r.filledQty, r.pendingQty, r.fillPrice)
  }

  /** What the table shows for an order after a log: its last answer, or that it was created. */
  function StandingOf(log: seq<Submission>, uid: string): Standing
  {
    if log == [] then CREATED else
    var s := log[|log| - 1];
    if s.order.uid == uid && s.reply.Answer? then Reported(s.reply)
    else StandingOf(log[..|log| - 1], uid)
  }

  lemma StandingSnoc(log: seq<Submission>, s: Submission, uid: string)
    ensures StandingOf(log + [s], uid) ==
      if s.order.uid == uid && s.reply.Answer? then Reported(s.reply)
      else StandingOf(log, uid)
  {
    assert (log + [s])[..|log|] == log;
  }

  ghost predicate Mentioned(log: seq<Submission>, uid: string)
  {
    exists k :: 0 <= k < |log| && log[k].order.uid == uid
  }

  lemma {:induction false} UnmentionedStanding(log: seq<Submission>, uid: string)
    requires !Mentioned(log, uid)
    ensures StandingOf(log, uid) == CREATED
  {
    if log != [] {
      var front := log[..|log| - 1];
      assert forall k :: 0 <= k < |front| ==> front[k] == log[k];
      UnmentionedStanding(front, uid);
      assert log[|log| - 1].order.uid != uid;
    }
  }

  /** The standing after the last submission of an order, if that was answered. */
  lemma {:induction false} StandingAt(log: seq<Submission>, m: nat)
    requires m < |log| && log[m].reply.Answer?
    requires forall j :: m < j < |log| ==> log[j].order.uid != log[m].order.uid
    ensures StandingOf(log, log[m].order.uid) == Reported(log[m].reply)
  {
    if m < |log| - 1 {
      var front := log[..|log| - 1];
      assert forall k :: 0 <= k < |front| ==> front[k] == log[k];
      assert log[|log| - 1].order.uid != log[m].order.uid;
      StandingAt(front, m);
    }
  }

  /** The limit price of the first submission of an order. */
  function FirstLimit(log: seq<Submission>, uid: string): real
  {
    if log == [] then 0.0
    else if log[0].order.uid == uid then log[0].intent.limitPrice
    else FirstLimit(log[1..], uid)
  }

  lemma {:induction false} FirstLimitSnoc(log: seq<Submission>, s: Submission, uid: string)
    ensures Mentioned(log, uid) ==> FirstLimit(log + [s], uid) == FirstLimit(log, uid)
    ensures !Mentioned(log, uid) && s.order.uid == uid ==> FirstLimit(log + [s], uid) == s.intent.limitPrice
  {
    if log == [] {
      assert [] + [s] == [s];
    } else {
      var rest := log[1..];
      assert (log + [s])[1..] == rest + [s];
      FirstLimitSnoc(rest, s, uid);
      assert forall k :: 0 < k < |log| ==> log[k] == rest[k - 1];
      if Mentioned(rest, uid) {
        var k :| 0 <= k < |rest| && rest[k].order.uid == uid;
        assert log[k + 1].order.uid == uid;
      }
    }
  }

  /**
   A row written by the build for the order of submission `k`: it shows the order, the limit price of
   its first submission and its last answer.
   */
  ghost predicate RowFor(row: Row, log: seq<Submission>, k: nat, t: Trade)
    requires k < |log|
  {
    && row.intentId == log[k].order.uid && row.tradeUid == t.tradeUid && row.phase == "BUILD"
    && row.quantity == log[k].order.quantity && row.side == log[k].order.action && row.token == log[k].order.token
    && row.symbol == log[k].order.symbol && row.legType == log[k].order.optionType
    && row.orderUid == log[k].order.uid && row.limitPrice == FirstLimit(log, log[k].order.uid)
    && Standing(row.status, row.filledQty, row.pendingQty, row.avgFillPrice) == StandingOf(log, row.intentId)
  }

  ghost predicate FromLog(row: Row, log: seq<Submission>, t: Trade)
  {
    exists k :: 0 <= k < |log| && RowFor(row, log, k, t)
  }

  ghost predicate HasNewRow(rows0: seq<Row>, rows: seq<Row>, uid: string)
  {
    exists i :: |rows0| <= i < |rows| && rows[i].intentId == uid
  }

  /** The table is the old one followed by one row per submitted order, showing the order's standing. */
  ghost predicate RowsMatch(rows0: seq<Row>, rows: seq<Row>, log: seq<Submission>, t: Trade)
  {
    && rows0 <= rows && DistinctIds(rows)
    && (forall i :: |rows0| <= i < |rows| ==> FromLog(rows[i], log, t))
    && (forall k :: 0 <= k < |log| ==> HasNewRow(rows0, rows, log[k].order.uid))
  }

  /** Nothing in the table belongs to this trade or carries the identifier of a submission. */
  ghost predicate FreshFor(rows0: seq<Row>, log: seq<Submission>, t: Trade)
  {
    && DistinctIds(rows0)
    && (forall i :: 0 <= i < |rows0| ==> rows0[i].tradeUid != t.tradeUid)
    && forall i, k :: 0 <= i < |rows0| && 0 <= k < |log| ==> rows0[i].intentId != log[k].order.uid
  }

  /** How one row changes when a further submission is recorded. */
  lemma OldRowFollows(row: Row, row': Row, log: seq<Submission>, s: Submission, k: nat, t: Trade)
    requires k < |log| && RowFor(row, log, k, t)
    requires row' == if s.reply.Answer? && row.intentId == s.order.uid then Executed(row, s.reply) else row
    ensures RowFor(row', log + [s], k, t)
  {
    hide StandingOf, FirstLimit;
    StandingSnoc(log, s, row.intentId);
    assert Mentioned(log, row.intentId);
    FirstLimitSnoc(log, s, row.intentId);
    assert (log + [s])[k] == log[k];
  }

  lemma NewRowFollows(log: seq<Submission>, s: Submission, row: Row, t: Trade)
    requires !Mentioned(log, s.order.uid) && s.intent == IntentFor(t, s.order, s.attempt)
    requires row == if s.reply.Answer? then Executed(NewRow(s.intent), s.reply) else NewRow(s.intent)
    ensures RowFor(row, log + [s], |log|, t)
  {
    hide StandingOf, LimitTicks, FirstLimit;
    StandingSnoc(log, s, row.intentId);
    UnmentionedStanding(log, s.order.uid);
    FirstLimitSnoc(log, s, s.order.uid);
  }

  lemma MatchSnoc(rows0: seq<Row>, rows: seq<Row>, log: seq<Submission>, s: Submission, t: Trade)
    requires RowsMatch(rows0, rows, log, t) && s.intent == IntentFor(t, s.order, s.attempt)
    requires forall i :: 0 <= i < |rows0| ==> rows0[i].intentId != s.order.uid
    ensures RowsMatch(rows0, Record(rows, s.intent, s.reply), log + [s], t)
  {
    hide RowFor, IntentFor;
    assert s.intent.intentId == s.order.uid by { IntentIdOf(t, s.order, s.attempt); }
    var after, log' := Record(rows, s.intent, s.reply), log + [s];
    RecordKeepsIds(rows, s.intent, s.reply);
    assert rows0 <= after by {
      forall i | 0 <= i < |rows0| ensures after[i] == rows0[i] {
        assert rows[i] == rows0[i];
      }
    }
    forall i | |rows0| <= i < |after| ensures FromLog(after[i], log', t) {
      if i < |rows| {
        assert FromLog(rows[i], log, t);
        var k :| 0 <= k < |log| && RowFor(rows[i], log, k, t);
        OldRowFollows(rows[i], after[i], log, s, k, t);
      } else {
        NewIdUnmentioned(rows0, rows, log, s.order.uid, t);
        NewRowFollows(log, s, after[i], t);
      }
    }
    hide Record;
    forall k | 0 <= k < |log'| ensures HasNewRow(rows0, after, log'[k].order.uid) {
      if k < |log| {
        assert HasNewRow(rows0, rows, log[k].order.uid);
        var i :| |rows0| <= i < |rows| && rows[i].intentId == log[k].order.uid;
        assert after[i].intentId == log'[k].order.uid;
      } else {
        var i :| 0 <= i < |after| && after[i].intentId == s.order.uid;
        assert i >= |rows0| && log'[k] == s;
      }
    }
  }

  lemma NewIdUnmentioned(rows0: seq<Row>, rows: seq<Row>, log: seq<Submission>, uid: string, t: Trade)
    requires RowsMatch(rows0, rows, log, t) && !HasId(rows, uid)
    ensures !Mentioned(log, uid)
  {
    forall k | 0 <= k < |log| ensures log[k].order.uid != uid {
      assert HasNewRow(rows0, rows, log[k].order.uid);
      var i :| |rows0| <= i < |rows| && rows[i].intentId == log[k].order.uid;
    }
  }

  lemma IntentIdOf(t: Trade, o: ExecOrder, attempt: nat)
    ensures IntentFor(t, o, attempt).intentId == o.uid
  {
  }

  lemma {:induction false} ReplayMatches(rows0: seq<Row>, log: seq<Submission>, t: Trade)
    requires FreshFor(rows0, log, t) && forall k :: 0 <= k < |log| ==> Genuine(t, log[k])
    ensures RowsMatch(rows0, Replay(rows0, log), log, t)
  {
    if log != [] {
      var front, last := log[..|log| - 1], log[|log| - 1];
      assert front + [last] == log;
      assert forall k :: 0 <= k < |front| ==> front[k] == log[k];
      ReplayMatches(rows0, front, t);
      hide RowsMatch, IntentFor, Record;
      MatchSnoc(rows0, Replay(rows0, front), front, last, t);
    }
  }

  // ---------------------------------------------------------------------------------------
  // Refresh after a build
  // ---------------------------------------------------------------------------------------

  /** The order of submission `k` falls into this bucket of the counting query. */
  ghost predicate OrderIn(log: seq<Submission>, k: nat, b: Bucket)
  {
    && k < |log|
    && var s := StandingOf(log, log[k].order.uid);
       InBucket(s.status, s.filled, log[k].order.quantity, b)
  }

  /** Submissions with one identifier are all of the same order. */
  ghost predicate SameOrders(log: seq<Submission>)
  {
    forall i, j :: 0 <= i < |log| && 0 <= j < |log| && log[i].order.uid == log[j].order.uid ==>
      log[i].order == log[j].order
  }

  lemma BuildRowPhase(row: Row, t: Trade)
    requires row.tradeUid == t.tradeUid && row.phase == "BUILD"
    ensures IsBuildRow(row, t.tradeUid)
  {
    assert ToUpper("BUILD") == "BUILD";
  }

  lemma RowIsOrder(row: Row, log: seq<Submission>, k: nat, t: Trade, b: Bucket)
    requires k < |log| && RowFor(row, log, k, t)
    ensures Counts(row, t.tradeUid, b) <==> OrderIn(log, k, b)
  {
    hide StandingOf, InBucket;
    BuildRowPhase(row, t);
  }

  ghost predicate AnyOrder(log: seq<Submission>, b: Bucket)
  {
    exists k :: 0 <= k < |log| && OrderIn(log, k, b)
  }

  ghost predicate EveryOrder(log: seq<Submission>, b: Bucket)
  {
    forall k :: 0 <= k < |log| ==> OrderIn(log, k, b)
  }

  /** Buckets of rows and buckets of submitted orders correspond. */
  lemma BucketsAgree(rows0: seq<Row>, rows: seq<Row>, log: seq<Submission>, t: Trade, b: Bucket)
    requires RowsMatch(rows0, rows, log, t) && FreshFor(rows0, log, t) && SameOrders(log)
    ensures AnyRow(rows, t.tradeUid, b) <==> AnyOrder(log, b)
    ensures EveryRow(rows, t.tradeUid, b) <==> EveryOrder(log, b)
  {
    hide OrderIn, Counts, IsBuildRow, FreshFor, RowsMatch, SameOrders, RowFor;
    forall k | 0 <= k < |log|
      ensures OrderIn(log, k, b) ==> AnyRow(rows, t.tradeUid, b)
      ensures EveryRow(rows, t.tradeUid, b) ==> OrderIn(log, k, b)
    {
      var i := OrderHasRow(rows0, rows, log, t, k);
      RowIsOrder(rows[i], log, k, t, b);
    }
    forall i | 0 <= i < |rows| && IsBuildRow(rows[i], t.tradeUid)
      ensures Counts(rows[i], t.tradeUid, b) ==> AnyOrder(log, b)
      ensures EveryOrder(log, b) ==> Counts(rows[i], t.tradeUid, b)
    {
      var k := BuildRowHasOrder(rows0, rows, log, t, i);
      RowIsOrder(rows[i], log, k, t, b);
    }
    forall i | 0 <= i < |rows| && Counts(rows[i], t.tradeUid, b) ensures IsBuildRow(rows[i], t.tradeUid) {
      BucketInTotal(rows[i], t.tradeUid, b);
    }
  }

  lemma OrderHasRow(rows0: seq<Row>, rows: seq<Row>, log: seq<Submission>, t: Trade, k: nat) returns (i: nat)
    requires RowsMatch(rows0, rows, log, t) && SameOrders(log) && k < |log|
    ensures i < |rows| && RowFor(rows[i], log, k, t) && IsBuildRow(rows[i], t.tradeUid)
  {
    hide StandingOf, IsBuildRow;
    assert HasNewRow(rows0, rows, log[k].order.uid);
    i :| |rows0| <= i < |rows| && rows[i].intentId == log[k].order.uid;
    assert FromLog(rows[i], log, t);
    var j :| 0 <= j < |log| && RowFor(rows[i], log, j, t);
    assert log[j].order.uid == log[k].order.uid;
    BuildRowPhase(rows[i], t);
  }

  lemma BuildRowHasOrder(rows0: seq<Row>, rows: seq<Row>, log: seq<Submission>, t: Trade, i: nat) returns (k: nat)
    requires RowsMatch(rows0, rows, log, t) && FreshFor(rows0, log, t) && i < |rows| && IsBuildRow(rows[i], t.tradeUid)
    ensures k < |log| && RowFor(rows[i], log, k, t)
  {
    hide RowFor;
    assert forall j :: 0 <= j < |rows0| ==> rows[j] == rows0[j] && rows[j].tradeUid != t.tradeUid;
    assert |rows0| <= i;
    assert FromLog(rows[i], log, t);
    k :| 0 <= k < |log| && RowFor(rows[i], log, k, t);
  }

  /**
   After any log of genuine submissions for a fresh trade, the refreshed status is decided by where
   the submitted orders stand.
   */
  lemma RefreshAfter(rows0: seq<Row>, log: seq<Submission>, t: Trade)
    requires FreshFor(rows0, log, t) && SameOrders(log) && forall k :: 0 <= k < |log| ==> Genuine(t, log[k])
    ensures Refresh(Replay(rows0, log), t.tradeUid) == ACTIVE <==> log != [] && EveryOrder(log, FilledRows)
    ensures Refresh(Replay(rows0, log), t.tradeUid) == PENDING_FILL <==>
      && !EveryOrder(log, FilledRows)
      && (AnyOrder(log, FilledRows) || AnyOrder(log, PendingRows) || AnyOrder(log, UnknownRows))
  {
    var rows := Replay(rows0, log);
    ReplayMatches(rows0, log, t);
    hide RowsMatch, Refresh, FreshFor, SameOrders, Genuine, AnyRow, EveryRow, EveryOrder, StandingOf, Replay;
    RefreshMeaning(rows, t.tradeUid);
    BucketsAgree(rows0, rows, log, t, Total);
    BucketsAgree(rows0, rows, log, t, FilledRows);
    BucketsAgree(rows0, rows, log, t, PendingRows);
    BucketsAgree(rows0, rows, log, t, UnknownRows);
    assert log != [] ==> OrderIn(log, 0, Total);
  }

  // ---------------------------------------------------------------------------------------
  // Agreement of the two statuses
  // ---------------------------------------------------------------------------------------

  /** The table holds nothing of this trade and none of the plan's identifiers. */
  ghost predicate FreshPlan(rows0: seq<Row>, chunks: seq<seq<ExecOrder>>, t: Trade)
  {
    && DistinctIds(rows0)
    && (forall i :: 0 <= i < |rows0| ==> rows0[i].tradeUid != t.tradeUid)
    && forall i, c, o :: 0 <= i < |rows0| && 0 <= c < |chunks| && o in chunks[c] ==> rows0[i].intentId != o.uid
  }

  lemma BuildLogIsFresh(rows0: seq<Row>, b: Broker, t: Trade, chunks: seq<seq<ExecOrder>>)
    requires PlanDistinct(chunks) && FreshPlan(rows0, chunks, t)
    ensures var log := Build(b, t, chunks).log;
      FreshFor(rows0, log, t) && SameOrders(log) && forall k :: 0 <= k < |log| ==> Genuine(t, log[k])
  {
    BuildIsOk(b, t, chunks);
    var r := Build(b, t, chunks);
    hide Build, PlanDistinct, Judge, OpenIsLast, Barrier, IntentFor;
    assert forall k :: 0 <= k < |r.log| ==> r.log[k].order in chunks[r.log[k].chunk];
    forall i, j | 0 <= i < |r.log| && 0 <= j < |r.log| && r.log[i].order.uid == r.log[j].order.uid
      ensures r.log[i].order == r.log[j].order
    {
      if i < j {
        assert r.log[i].order == r.log[j].order;
      } else if j < i {
        assert r.log[j].order == r.log[i].order;
      }
    }
  }

  /** Every fill the broker reported covers the whole order. */
  ghost predicate FillsAreFull(log: seq<Submission>)
  {
    forall i :: 0 <= i < |log| && WasFilled(log[i]) ==> log[i].reply.filledQty >= log[i].order.quantity
  }

  /** A settled order counts as filled exactly when its fill report covers the order. */
  lemma SettledStanding(log: seq<Submission>, o: ExecOrder, m: nat, k: nat)
    requires SettledAt(log, o, m) && k < |log| && log[k].order == o && o.quantity > 0
    ensures OrderIn(log, k, FilledRows) <==> log[m].reply.filledQty >= o.quantity
  {
    hide StandingOf;
    StandingAt(log, m);
  }

  /** After a successful build the refreshed status is ACTIVE exactly when there was an order and all fills are full. */
  lemma BuiltRefreshesActive(rows0: seq<Row>, b: Broker, t: Trade, chunks: seq<seq<ExecOrder>>)
    requires PlanDistinct(chunks) && FreshPlan(rows0, chunks, t) && Build(b, t, chunks).failure.None?
    ensures var r := Build(b, t, chunks);
      Refresh(Replay(rows0, r.log), t.tradeUid) == StatusAfterBuild(r) <==> r.log != [] && FillsAreFull(r.log)
  {
    var r := Build(b, t, chunks);
    BuildLogIsFresh(rows0, b, t, chunks);
    RefreshAfter(rows0, r.log, t);
    assert EveryOrder(r.log, FilledRows) <==> FillsAreFull(r.log) by {
      hide OrderIn, Refresh, Replay;
      forall k | 0 <= k < |r.log|
        ensures FillsAreFull(r.log) ==> OrderIn(r.log, k, FilledRows)
        ensures WasFilled(r.log[k]) && OrderIn(r.log, k, FilledRows) ==>
          r.log[k].reply.filledQty >= r.log[k].order.quantity
      {
        var m := SettledOrder(b, t, chunks, k);
        SettledStanding(r.log, r.log[k].order, m, k);
      }
    }
  }

  lemma SettledOrder(b: Broker, t: Trade, chunks: seq<seq<ExecOrder>>, k: nat) returns (m: nat)
    requires PlanDistinct(chunks) && Build(b, t, chunks).failure.None? && k < |Build(b, t, chunks).log|
    ensures var log := Build(b, t, chunks).log;
      SettledAt(log, log[k].order, m) && log[k].order.quantity > 0 && (WasFilled(log[k]) ==> m == k)
  {
    var log := Build(b, t, chunks).log;
    BuildIsOk(b, t, chunks);
    assert Genuine(t, log[k]) && log[k].order in chunks[log[k].chunk];
    BuiltMeansFilledExactlyOnce(b, t, chunks, log[k].chunk, log[k].order);
    hide Build, BuildOk, PlanDistinct;
    m :| SettledAt(log, log[k].order, m);
  }

  /** The answer that stopped the build is one the counting query recognises as not final. */
  predicate LooksPending(s: Submission)
  {
    s.reply.Answer? &&
    (InBucket(StoredStatus(s.reply.status), s.reply.filledQty, s.order.quantity, PendingRows)
     || InBucket(StoredStatus(s.reply.status), s.reply.filledQty, s.order.quantity, UnknownRows))
  }

  /** Another order than the last one was filled in full, or has never been answered. */
  ghost predicate OtherAlive(log: seq<Submission>)
  {
    exists k :: 0 <= k < |log| && log[k].order.uid != log[|log| - 1].order.uid && Alive(log, k)
  }

  ghost predicate Alive(log: seq<Submission>, k: nat)
    requires k < |log|
  {
    || (exists j :: 0 <= j < |log| && log[j].order.uid == log[k].order.uid && FilledInFull(log[j]))
    || (forall j :: 0 <= j < |log| && log[j].order.uid == log[k].order.uid ==> log[j].reply.BrokerError?)
  }

  predicate FilledInFull(s: Submission)
  {
    WasFilled(s) && s.reply.filledQty >= s.order.quantity
  }

  /** An order that was only ever to be retried stands as created, or as rejected or cancelled. */
  lemma {:induction false} RetriedStanding(log: seq<Submission>, uid: string)
    requires forall j :: 0 <= j < |log| && log[j].order.uid == uid ==> Judge(log[j].reply) == Retry
    ensures var s := StandingOf(log, uid);
      if forall j :: 0 <= j < |log| && log[j].order.uid == uid ==> log[j].reply.BrokerError?
      then s == CREATED else s.status == "REJECTED" || s.status == "CANCELLED"
  {
    if log != [] {
      var front := log[..|log| - 1];
      assert forall j :: 0 <= j < |front| ==> front[j] == log[j];
      RetriedStanding(front, uid);
    }
  }

  ghost predicate Live(log: seq<Submission>, k: nat)
  {
    OrderIn(log, k, FilledRows) || OrderIn(log, k, PendingRows) || OrderIn(log, k, UnknownRows)
  }

  lemma RetriedLive(log: seq<Submission>, k: nat)
    requires k < |log| && forall j :: 0 <= j < |log| && log[j].order.uid == log[k].order.uid ==>
      Judge(log[j].reply) == Retry
    ensures Live(log, k) <==> forall j :: 0 <= j < |log| && log[j].order.uid == log[k].order.uid ==>
      log[j].reply.BrokerError?
  {
    RetriedStanding(log, log[k].order.uid);
    hide StandingOf, Judge;
    CreatedIsUnknown(log[k].order.quantity);
  }

  lemma CreatedIsUnknown(quantity: int)
    ensures InBucket("CREATED", 0, quantity, UnknownRows)
  {
    assert |"CREATED"| == 7 && "CREATED"[1] == 'R';
  }

  lemma FilledLive(log: seq<Submission>, k: nat, m: nat)
    requires RetriesOnly(log) && k < |log| && m < |log| && log[m].order.uid == log[k].order.uid && WasFilled(log[m])
    requires log[m].order.quantity == log[k].order.quantity > 0
    ensures Live(log, k) <==> FilledInFull(log[m])
    ensures forall j :: 0 <= j < |log| && log[j].order.uid == log[k].order.uid && WasFilled(log[j]) ==> j == m
  {
    StandingAt(log, m);
    hide StandingOf;
    assert IsFilledStatus(StandingOf(log, log[k].order.uid).status);
  }

  /** In a log without open answers to it, an order counts for the query exactly when it is alive. */
  lemma LiveMeaning(log: seq<Submission>, k: nat)
    requires RetriesOnly(log) && SameOrders(log) && k < |log| && log[k].order.quantity > 0
    requires forall j :: 0 <= j < |log| && log[j].order.uid == log[k].order.uid ==> Judge(log[j].reply) != Open
    ensures Live(log, k) <==> Alive(log, k)
  {
    hide Live, RetriesOnly;
    if m :| 0 <= m < |log| && log[m].order.uid == log[k].order.uid && WasFilled(log[m]) {
      FilledLive(log, k, m);
    } else {
      RetriedLive(log, k);
    }
  }

  /**
   A build stopped by an open answer writes PENDING_FILL.  It is read back as PENDING_FILL if and only
   if that answer looks pending to the query, or another order was filled in full or never answered.
   */
  lemma PendingRefreshesPending(rows0: seq<Row>, b: Broker, t: Trade, chunks: seq<seq<ExecOrder>>)
    requires PlanDistinct(chunks) && FreshPlan(rows0, chunks, t)
    requires var f := Build(b, t, chunks).failure; f.Some? && f.value.PendingFill?
    ensures var r := Build(b, t, chunks);
      && r.log != [] && StatusAfterBuild(r) == PENDING_FILL
      && Refresh(Replay(rows0, r.log), t.tradeUid) != ACTIVE
      && (Refresh(Replay(rows0, r.log), t.tradeUid) == PENDING_FILL <==>
        LooksPending(r.log[|r.log| - 1]) || OtherAlive(r.log))
  {
    hide Build, Refresh, Replay, PlanDistinct, FreshPlan, FreshFor, SameOrders, Genuine, RetriesOnly, Judge, OrderIn;
    hide LooksPending, OtherAlive;
    var log := Build(b, t, chunks).log;
    StoppedLog(b, t, chunks);
    BuildLogIsFresh(rows0, b, t, chunks);
    RefreshAfter(rows0, log, t);
    OpenStanding(log);
    StoppedAlive(log, t);
    LiveBuckets(log);
  }

  lemma StoppedLog(b: Broker, t: Trade, chunks: seq<seq<ExecOrder>>)
    requires PlanDistinct(chunks)
    requires var f := Build(b, t, chunks).failure; f.Some? && f.value.PendingFill?
    ensures var log := Build(b, t, chunks).log;
      && log != [] && Judge(log[|log| - 1].reply) == Open && RetriesOnly(log)
      && forall i :: 0 <= i < |log| - 1 ==> Judge(log[i].reply) != Open
  {
    hide Build, PlanDistinct, Judge, RetriesOnly, BuildEntries, Barrier;
    BuildIsOk(b, t, chunks);
  }

  lemma LiveBuckets(log: seq<Submission>)
    ensures (exists k :: 0 <= k < |log| && Live(log, k))
      <==> AnyOrder(log, FilledRows) || AnyOrder(log, PendingRows) || AnyOrder(log, UnknownRows)
  {
    hide OrderIn;
    assert forall k :: OrderIn(log, k, FilledRows) ==> Live(log, k);
    assert forall k :: OrderIn(log, k, PendingRows) ==> Live(log, k);
    assert forall k :: OrderIn(log, k, UnknownRows) ==> Live(log, k);
  }

  /**
   After an open answer, the orders that count are the last one, if it looks pending, and the others
   that are alive.
   */
  lemma StoppedAlive(log: seq<Submission>, t: Trade)
    requires log != [] && Judge(log[|log| - 1].reply) == Open && RetriesOnly(log) && SameOrders(log)
    requires forall i :: 0 <= i < |log| - 1 ==> Judge(log[i].reply) != Open
    requires forall k :: 0 <= k < |log| ==> Genuine(t, log[k])
    ensures (exists k :: 0 <= k < |log| && Live(log, k)) <==> LooksPending(log[|log| - 1]) || OtherAlive(log)
  {
    hide Live, Alive, LooksPending, IntentFor;
    var n := |log| - 1;
    LastLive(log);
    forall k | 0 <= k < |log| ensures Live(log, k) <==>
      if log[k].order.uid == log[n].order.uid then LooksPending(log[n]) else Alive(log, k)
    {
      if log[k].order.uid == log[n].order.uid {
        SameLive(log, k, n);
      } else {
        assert Genuine(t, log[k]);
        LiveMeaning(log, k);
      }
    }
  }

  lemma SameLive(log: seq<Submission>, k: nat, n: nat)
    requires SameOrders(log) && k < |log| && n < |log| && log[k].order.uid == log[n].order.uid
    ensures Live(log, k) == Live(log, n)
  {
    hide StandingOf;
  }

  lemma LastLive(log: seq<Submission>)
    requires log != [] && Judge(log[|log| - 1].reply) == Open
    ensures Live(log, |log| - 1) <==> LooksPending(log[|log| - 1])
  {
    StandingAt(log, |log| - 1);
    hide StandingOf;
  }

  lemma OpenStanding(log: seq<Submission>)
    requires log != [] && Judge(log[|log| - 1].reply) == Open
    ensures !OrderIn(log, |log| - 1, FilledRows)
  {
    StandingAt(log, |log| - 1);
    hide StandingOf;
  }

  /** In a log without open answers, the orders that count are those that are alive. */
  lemma UnstoppedAlive(log: seq<Submission>, t: Trade)
    requires RetriesOnly(log) && SameOrders(log) && forall i :: 0 <= i < |log| ==> Judge(log[i].reply) != Open
    requires forall k :: 0 <= k < |log| ==> Genuine(t, log[k])
    ensures forall k :: 0 <= k < |log| ==> (Live(log, k) <==> Alive(log, k))
  {
    hide Live, Alive, IntentFor;
    forall k | 0 <= k < |log| ensures Live(log, k) <==> Alive(log, k) {
      assert Genuine(t, log[k]);
      LiveMeaning(log, k);
    }
  }

  lemma FailedLog(b: Broker, t: Trade, chunks: seq<seq<ExecOrder>>)
    requires PlanDistinct(chunks)
    requires var f := Build(b, t, chunks).failure; f.Some? && !f.value.PendingFill?
    ensures var log := Build(b, t, chunks).log;
      RetriesOnly(log) && forall i :: 0 <= i < |log| ==> Judge(log[i].reply) != Open
  {
    hide Build, PlanDistinct, Judge, RetriesOnly, BuildEntries, Barrier;
    BuildIsOk(b, t, chunks);
  }

  /** A build that failed is read back as FAILED if and only if no order was filled in full or never answered. */
  lemma FailedRefreshesFailed(rows0: seq<Row>, b: Broker, t: Trade, chunks: seq<seq<ExecOrder>>)
    requires PlanDistinct(chunks) && FreshPlan(rows0, chunks, t)
    requires var f := Build(b, t, chunks).failure; f.Some? && !f.value.PendingFill?
    ensures var r := Build(b, t, chunks);
      Refresh(Replay(rows0, r.log), t.tradeUid) == StatusAfterBuild(r) <==>
        forall k :: 0 <= k < |r.log| ==> !Alive(r.log, k)
  {
    hide Build, Refresh, Replay, PlanDistinct, FreshPlan, FreshFor, SameOrders, Genuine, RetriesOnly, Judge;
    hide OrderIn, Alive;
    var log := Build(b, t, chunks).log;
    FailedLog(b, t, chunks);
    BuildLogIsFresh(rows0, b, t, chunks);
    RefreshAfter(rows0, log, t);
    UnstoppedAlive(log, t);
    LiveBuckets(log);
    assert log != [] && EveryOrder(log, FilledRows) ==> OrderIn(log, 0, FilledRows);
    assert OrderIn(log, 0, FilledRows) ==> AnyOrder(log, FilledRows) by { FirstCounts(log); }
  }

  lemma FirstCounts(log: seq<Submission>)
    ensures OrderIn(log, 0, FilledRows) ==> AnyOrder(log, FilledRows)
  {
    hide StandingOf;
  }

  /**
   When the refreshed status is the one the build wrote, for every outcome: a success needs something
   submitted and full fill reports; a stop needs a last answer that looks pending or another order
   filled in full or never answered; a failure needs that there is no such order.
   */
  lemma StatusesAgreeExactly(rows0: seq<Row>, b: Broker, t: Trade, chunks: seq<seq<ExecOrder>>)
    requires PlanDistinct(chunks) && FreshPlan(rows0, chunks, t)
    ensures
      var r := Build(b, t, chunks);
      Refresh(Replay(rows0, r.log), t.tradeUid) == StatusAfterBuild(r) <==>
        if r.failure.None? then r.log != [] && FillsAreFull(r.log)
        else if r.failure.value.PendingFill? then r.log != [] && (LooksPending(r.log[|r.log| - 1]) || OtherAlive(r.log))
        else forall k :: 0 <= k < |r.log| ==> !Alive(r.log, k)
  {
    hide Build, Refresh, Replay, PlanDistinct, FreshPlan, Alive, OtherAlive, LooksPending, FillsAreFull;
    var r := Build(b, t, chunks);
    if r.failure.None? {
      BuiltRefreshesActive(rows0, b, t, chunks);
    } else if r.failure.value.PendingFill? {
      PendingRefreshesPending(rows0, b, t, chunks);
    } else {
      FailedRefreshesFailed(rows0, b, t, chunks);
    }
  }

  // Two concrete builds on which the statuses differ.

  const SAMPLE_TRADE := Trade("T", 2.0)

  function SampleOrder(uid: string): ExecOrder
  {
    ExecOrder(uid, 1, "NIFTY", "CE", "SELL", 65, 100.0, "NSEFO")
  }

  /** The refreshed status of a trade with a single answered submission. */
  lemma OneRowRefresh(t: Trade, s: Submission)
    requires Genuine(t, s) && s.reply.Answer?
    ensures
      var status, filled, quantity := StoredStatus(s.reply.status), s.reply.filledQty, s.order.quantity;
      Refresh(Replay([], [s]), t.tradeUid) ==
        if InBucket(status, filled, quantity, FilledRows) then ACTIVE
        else if InBucket(status, filled, quantity, PendingRows) then PENDING_FILL
        else if InBucket(status, filled, quantity, UnknownRows) then PENDING_FILL
        else FAILED
  {
    hide Genuine, Refresh, Replay, StandingOf, InBucket;
    RefreshAfter([], [s], t);
    StandingAt([s], 0);
    assert forall b :: OrderIn([s], 0, b) <==>
      InBucket(StoredStatus(s.reply.status), s.reply.filledQty, s.order.quantity, b);
    assert forall b :: AnyOrder([s], b) <==> OrderIn([s], 0, b);
    assert EveryOrder([s], FilledRows) <==> OrderIn([s], 0, FilledRows);
  }

  lemma OneOrderBuild(b: Broker, s: Submission)
    requires s == Submit(b, SAMPLE_TRADE, 0, 0, 0, SampleOrder("a")) && Judge(s.reply) != Retry
    ensures Build(b, SAMPLE_TRADE, [[SampleOrder("a")]])
         == Result([s], if Judge(s.reply) == Open then Some(PendingFill("a", s.reply)) else None)
  {
    hide LimitTicks, Judge;
    var orders := [SampleOrder("a")];
    assert orders[1..] == [];
    var failure := if Judge(s.reply) == Open then Some(PendingFill("a", s.reply)) else None;
    assert RunPass(b, SAMPLE_TRADE, 0, 0, 0, orders) == Pass([s], [], failure);
    assert RunChunk(b, SAMPLE_TRADE, 0, 0, 0, orders) == Result([s], failure);
  }

  /** A broker that spells the cancellation with one L: the build stops as pending, the refresh says FAILED. */
  lemma OneLCancellationDisagrees()
    ensures
      var b: Broker := (n, i) => Answer("CANCELED", 0, 65, 0.0);
      var r := Build(b, SAMPLE_TRADE, [[SampleOrder("a")]]);
      StatusAfterBuild(r) == PENDING_FILL && Refresh(Replay([], r.log), "T") == FAILED
  {
    hide LimitTicks, Refresh, Replay, Build;
    var b: Broker := (n, i) => Answer("CANCELED", 0, 65, 0.0);
    var s := Submit(b, SAMPLE_TRADE, 0, 0, 0, SampleOrder("a"));
    assert Judge(s.reply) == Open by { assert "CANCELED"[0] == 'C' && |"CANCELED"| == 8; }
    OneOrderBuild(b, s);
    OneRowRefresh(SAMPLE_TRADE, s);
    assert !IsFilledStatus("CANCELED") && !IsOpenStatus("CANCELED") by { assert "CANCELED"[0] == 'C'; }
  }

  function OneLegBroker(n: nat, i: Intent): Reply
  {
    if i.intentId == "a" then Answer("FILLED", 65, 0, 100.0) else Answer("REJECTED", 0, 65, 0.0)
  }

  /** One leg fills, the other is rejected three times: written FAILED, although a position is open. */
  lemma FailedBuildCanHoldPosition()
    ensures
      var r := Build(OneLegBroker, SAMPLE_TRADE, [[SampleOrder("a"), SampleOrder("b")]]);
      StatusAfterBuild(r) == FAILED && Refresh(Replay([], r.log), "T") == PENDING_FILL
  {
    var r := Build(OneLegBroker, SAMPLE_TRADE, [[SampleOrder("a"), SampleOrder("b")]]);
    OneLegLog();
    var log := r.log;
    hide Build, LimitTicks, Refresh, Replay, StandingOf;
    RefreshAfter([], log, SAMPLE_TRADE);
    StandingAt(log, 0);
    StandingAt(log, 3);
    assert OrderIn(log, 0, FilledRows) && !OrderIn(log, 3, FilledRows);
  }

  function LegSubmission(uid: string, attempt: nat): Submission
  {
    var i := IntentFor(SAMPLE_TRADE, SampleOrder(uid), attempt);
    Submission(0, attempt, SampleOrder(uid), i, OneLegBroker(0, i))
  }

  lemma RejectedPass(n: nat, attempt: nat)
    ensures RunPass(OneLegBroker, SAMPLE_TRADE, n, 0, attempt, [SampleOrder("b")])
         == Pass([LegSubmission("b", attempt)], [SampleOrder("b")], None)
  {
    hide LimitTicks;
    assert [SampleOrder("b")][1..] == [];
    assert "a" != "b" by { assert "a"[0] != "b"[0]; }
  }

  lemma OneLegLog()
    ensures Build(OneLegBroker, SAMPLE_TRADE, [[SampleOrder("a"), SampleOrder("b")]])
         == Result([LegSubmission("a", 0), LegSubmission("b", 0), LegSubmission("b", 1), LegSubmission("b", 2)],
                   Some(RetriesExhausted(0)))
  {
    hide LimitTicks;
    var b: Broker := OneLegBroker;
    var x, y := SampleOrder("a"), SampleOrder("b");
    assert [x, y][1..] == [y];
    RejectedPass(1, 0);
    RejectedPass(2, 1);
    RejectedPass(3, 2);
    var first := RunPass(b, SAMPLE_TRADE, 0, 0, 0, [x, y]);
    assert first == Pass([LegSubmission("a", 0), LegSubmission("b", 0)], [y], None);
    hide RunPass, LegSubmission;
    assert RunChunk(b, SAMPLE_TRADE, 4, 0, 3, [y]) == Result([], Some(RetriesExhausted(0)));
    assert RunChunk(b, SAMPLE_TRADE, 3, 0, 2, [y]) == Result([LegSubmission("b", 2)], Some(RetriesExhausted(0)));
    assert RunChunk(b, SAMPLE_TRADE, 2, 0, 1, [y]).log == [LegSubmission("b", 1), LegSubmission("b", 2)];
  }
}
