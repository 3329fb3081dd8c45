/**
 The Greeksoft executor: it places an order, polls the order book for it and turns what the book
 shows into an answer.  What the broker says to the placement and to each poll is arbitrary.
 */
module GreeksoftExecutor {
  import opened BuildExecutor
  import opened BuildProperties
  import opened Lifecycle
  import opened OrderTable
  import opened Text
  import opened Wrappers

  /** What the order book shows for an order. */
  datatype Entry = Entry(status: string, filled: int, pending: int, price: real)

  /** One poll of the order book. */
  datatype Poll = Cancelled | Unreachable | Missing | Listed(entry: Entry)

  datatype Placement = PlaceFailed | Placed(orderId: string, status: string)

  /** Everything the broker says during one call. */
  datatype Venue = Venue(place: Placement, polls: nat -> Poll)

  const MAX_POLLS := 8

  /** `normalizeGreeksoftOrderStatus`. */
  function Normalize(status: string): string
  {
    Canonical(ToUpper(TrimSpace(status)))
  }

  function Canonical(s: string): string
  {
    if s == "" then "SUBMITTED"
    else if Contains(s, "RMS") && Contains(s, "REJECT") then "REJECTED"
    else if Contains(s, "REJECT") then "REJECTED"
    else if s == "FILLED" || s == "COMPLETE" || s == "COMPLETED" || s == "TRADED" || s == "EXECUTED" then "FILLED"
    else if s == "CANCELLED" || s == "CANCELED" then "CANCELLED"
    else if s in ["PARTIALLYFILLED", "PARTIAL", "PARTIALLY_FILLED", "PARTIALLY FILLED"] then "PARTIALLY_FILLED"
    else if s in ["OPEN", "NEW", "PENDING", "PENDINGNEW", "PENDING_NEW", "PENDING NEW"] then "OPEN"
    else if s == "SUBMITTED" || s == "ACKED" || s == "ACKNOWLEDGED" then "SUBMITTED"
    else s
  }

  /** The first entry that poll `i` or a later one finds. */
  function FirstListed(polls: nat -> Poll, i: nat): Option<Entry>
    decreases MAX_POLLS - i
  {
    if i >= MAX_POLLS || polls(i).Cancelled? then None
    else if polls(i).Listed? then Some(polls(i).entry)
    else FirstListed(polls, i + 1)
  }

  /** The entry that confirms an order: one with a status. */
  function Confirmation(v: Venue): Option<Entry>
  {
    var e := FirstListed(v.polls, 0);
    if e.Some? && TrimSpace(e.value.status) != "" then e else None
  }

  function ConfirmedStatus(quantity: int, e: Entry): string
  {
    var status := Normalize(e.status);
    if e.filled > 0 && status != "REJECTED" && status != "CANCELLED" then
      if e.pending == 0 && quantity > 0 && e.filled >= quantity then "FILLED" else "PARTIALLY_FILLED"
    else status
  }

  function PlacedStatus(status: string): string
  {
    if TrimSpace(status) == "" then "SUBMITTED" else TrimSpace(status)
  }

  function ExecuteIntent(quantity: int, v: Venue): Reply
  {
    if v.place.PlaceFailed? then BrokerError
    else if TrimSpace(v.place.orderId) == "" then Answer("REJECTED", 0, 0, 0.0)
    else
      match Confirmation(v)
      case Some(e) => Answer(ConfirmedStatus(quantity, e), e.filled, e.pending, e.price)
      case None => Answer(PlacedStatus(v.place.status), 0, 0, 0.0)
  }

  /** `waitOrderStatusFromOrderBook`. */
  method WaitOrderStatus(polls: nat -> Poll) returns (e: Option<Entry>)
    ensures e == FirstListed(polls, 0)
  {
    for i := 0 to MAX_POLLS
      invariant FirstListed(polls, i) == FirstListed(polls, 0)
    {
      match polls(i) {
        case Cancelled => return None;
        case Listed(entry) => return Some(entry);
        case _ =>
      }
    }
    e := None;
  }

  /** `ExecuteOrderIntent`. */
  method ExecuteOrderIntent(quantity: int, v: Venue) returns (r: Reply)
    ensures r == ExecuteIntent(quantity, v)
  {
    hide Normalize, TrimSpace, FirstListed;
    if v.place.PlaceFailed? {
      return BrokerError;
    }
    var status, filled, pending, price := TrimSpace(v.place.status), 0, 0, 0.0;
    if status == "" {
      status := "SUBMITTED";
    }
    if TrimSpace(v.place.orderId) == "" {
      return Answer("REJECTED", 0, 0, 0.0);
    }
    var found := WaitOrderStatus(v.polls);
    if found.Some? && TrimSpace(found.value.status) != "" {
      status := Normalize(found.value.status);
      filled, pending, price := found.value.filled, found.value.pending, found.value.price;
      if filled > 0 && status != "REJECTED" && status != "CANCELLED" {
        if pending == 0 && quantity > 0 && filled >= quantity {
          status := "FILLED";
        } else {
          status := "PARTIALLY_FILLED";
        }
      }
    }
    r := Answer(status, filled, pending, price);
  }

  // ---------------------------------------------------------------------------------------
  // Normalised statuses
  // ---------------------------------------------------------------------------------------

  /** A normalised status is never empty and never the one-L spelling; a rejection in any words is recognised. */
  lemma NormalizedStatus(s: string)
    ensures Normalize(s) != "" && Normalize(s) != "CANCELED"
    ensures Contains(ToUpper(TrimSpace(s)), "REJECT") ==> Normalize(s) == "REJECTED"
  {
    assert !Contains("", "REJECT");
    hide Contains, ToUpper, TrimSpace;
  }

  lemma {:induction false} ContainsItsChars(s: string, x: string, c: char)
    requires Contains(s, x) && c in x
    ensures c in s
  {
    if !(x <= s) {
      ContainsItsChars(s[1..], x, c);
    }
  }

  lemma PlainIsStable(s: string)
    requires forall c :: c in s ==> 'A' <= c <= 'Z' || c == '_'
    ensures ToUpper(TrimSpace(s)) == s
  {
    assert s != "" ==> s[0] in s && s[|s| - 1] in s;
    assert TrimSpace(s) == s;
    forall i | 0 <= i < |s| ensures UpperChar(s[i]) == s[i] {
      assert s[i] in s;
    }
  }

  const CANONICAL := ["REJECTED", "FILLED", "CANCELLED", "PARTIALLY_FILLED", "OPEN", "SUBMITTED"]

  lemma CanonicalIsPlain(s: string, c: char)
    requires s in CANONICAL && c in s
    ensures 'A' <= c <= 'Z' || c == '_'
    ensures c == 'J' ==> s == CANONICAL[0]
  {
  }

  lemma RejectionIn(s: string)
    requires s in CANONICAL
    ensures Contains(s, "REJECT") <==> s == CANONICAL[0]
  {
    if Contains(s, "REJECT") {
      ContainsItsChars(s, "REJECT", 'J');
      CanonicalIsPlain(s, 'J');
    }
    assert "REJECT" <= CANONICAL[0];
  }

  lemma CanonicalFixed(s: string)
    requires s in CANONICAL
    ensures ToUpper(TrimSpace(s)) == s && Canonical(s) == s
  {
    hide ToUpper, TrimSpace, Contains;
    forall c | c in s ensures 'A' <= c <= 'Z' || c == '_' {
      CanonicalIsPlain(s, c);
    }
    PlainIsStable(s);
    RejectionIn(s);
  }

  lemma NormalizeIdempotent(s: string)
    ensures Normalize(Normalize(s)) == Normalize(s)
  {
    var u := ToUpper(TrimSpace(s));
    UpperTrimStable(s);
    hide Contains, ToUpper, TrimSpace;
    if Canonical(u) != u {
      CanonicalFixed(Canonical(u));
    }
  }

  // ---------------------------------------------------------------------------------------
  // What the answers are worth
  // ---------------------------------------------------------------------------------------

  /** A filled answer reports the whole quantity exactly when the order book confirmed a positive fill. */
  ghost predicate ReportsFill(v: Venue)
  {
    Confirmation(v).Some? && Confirmation(v).value.filled > 0
  }

  lemma FilledIsFull(quantity: int, v: Venue)
    requires quantity > 0 && Judge(ExecuteIntent(quantity, v)) == Filled
    ensures ExecuteIntent(quantity, v).filledQty >= quantity <==> ReportsFill(v)
  {
    hide Normalize, TrimSpace, FirstListed;
  }

  /** The counting query takes an answer that stopped a build for pending. */
  ghost predicate ReadsPending(quantity: int, v: Venue)
  {
    match Confirmation(v)
    case Some(e) => e.filled < quantity || e.pending == 0
    case None => v.place.Placed? ==> TrimSpace(v.place.status) != "CANCELED"
  }

  lemma OpenReadsPending(quantity: int, v: Venue)
    requires quantity > 0 && Judge(ExecuteIntent(quantity, v)) == Open
    ensures var r := ExecuteIntent(quantity, v);
      var status := StoredStatus(r.status);
      InBucket(status, r.filledQty, quantity, PendingRows) || InBucket(status, r.filledQty, quantity, UnknownRows)
      <==> ReadsPending(quantity, v)
  {
    if Confirmation(v).Some? {
      NormalizedStatus(Confirmation(v).value.status);
    }
    hide Normalize, TrimSpace, FirstListed;
  }

  // ---------------------------------------------------------------------------------------
  // Whole builds
  // ---------------------------------------------------------------------------------------

  function GreeksoftBroker(venue: nat -> Venue): Broker
  {
    (n: nat, i: Intent) => ExecuteIntent(i.quantity, venue(n))
  }

  lemma GreeksoftReply(venue: nat -> Venue, t: Trade, chunks: seq<seq<ExecOrder>>, k: nat)
    requires PlanDistinct(chunks) && k < |Build(GreeksoftBroker(venue), t, chunks).log|
    ensures var s := Build(GreeksoftBroker(venue), t, chunks).log[k];
      s.order.quantity > 0 && s.reply == ExecuteIntent(s.order.quantity, venue(k))
  {
    var b := GreeksoftBroker(venue);
    BuildIsOk(b, t, chunks);
    BuildReplies(b, t, chunks, k);
    hide ExecuteIntent;
    assert Genuine(t, Build(b, t, chunks).log[k]);
  }

  ghost predicate FillsConfirmed(log: seq<Submission>, venue: nat -> Venue)
  {
    forall k :: 0 <= k < |log| && WasFilled(log[k]) ==> ReportsFill(venue(k))
  }

  /**
   A successful build through Greeksoft is read back as ACTIVE exactly when it submitted something
   and every fill it relied on was confirmed by the order book with a positive quantity.
   */
  lemma GreeksoftBuiltReadsActive(rows0: seq<Row>, venue: nat -> Venue, t: Trade, chunks: seq<seq<ExecOrder>>)
    requires PlanDistinct(chunks) && FreshPlan(rows0, chunks, t)
    requires Build(GreeksoftBroker(venue), t, chunks).failure.None?
    ensures var r := Build(GreeksoftBroker(venue), t, chunks);
      Refresh(Replay(rows0, r.log), t.tradeUid) == ACTIVE <==> r.log != [] && FillsConfirmed(r.log, venue)
  {
    var b := GreeksoftBroker(venue);
    var r := Build(b, t, chunks);
    BuiltRefreshesActive(rows0, b, t, chunks);
    hide Refresh, Replay, ReportsFill, ExecuteIntent, Judge;
    forall k | 0 <= k < |r.log| && WasFilled(r.log[k])
      ensures r.log[k].reply.filledQty >= r.log[k].order.quantity <==> ReportsFill(venue(k))
    {
      GreeksoftReply(venue, t, chunks, k);
      FilledIsFull(r.log[k].order.quantity, venue(k));
    }
  }

  /**
   A build through Greeksoft that stopped on an open answer is read back as PENDING_FILL if and only if
   that answer is neither the unconfirmed one-L spelling nor an entry both complete and with a
   remainder, or another order was filled in full or never answered.
   */
  lemma GreeksoftStoppedReadsPending(rows0: seq<Row>, venue: nat -> Venue, t: Trade, chunks: seq<seq<ExecOrder>>)
    requires PlanDistinct(chunks) && FreshPlan(rows0, chunks, t)
    requires var f := Build(GreeksoftBroker(venue), t, chunks).failure; f.Some? && f.value.PendingFill?
    ensures var log := Build(GreeksoftBroker(venue), t, chunks).log;
      && log != []
      && (Refresh(Replay(rows0, log), t.tradeUid) == PENDING_FILL <==>
            ReadsPending(log[|log| - 1].order.quantity, venue(|log| - 1)) || OtherAlive(log))
  {
    hide Build, Refresh, Replay, ReadsPending, ExecuteIntent, OtherAlive, PlanDistinct, FreshPlan, GreeksoftBroker;
    var b := GreeksoftBroker(venue);
    var log := Build(b, t, chunks).log;
    PendingRefreshesPending(rows0, b, t, chunks);
    StoppedLog(b, t, chunks);
    GreeksoftReply(venue, t, chunks, |log| - 1);
    OpenReadsPending(log[|log| - 1].order.quantity, venue(|log| - 1));
  }

  // ---------------------------------------------------------------------------------------
  // A fill without a quantity
  // ---------------------------------------------------------------------------------------

  /** An order book that shows a final status and no traded quantity. */
  const EMPTY_FILL := Venue(Placed("1", "OPEN"), n => Listed(Entry("COMPLETE", 0, 0, 0.0)))

  /** A placement reported as filled that the order book never lists. */
  const UNLISTED_FILL := Venue(Placed("1", "FILLED"), n => Missing)

  lemma NeverListed(polls: nat -> Poll, i: nat)
    requires i <= MAX_POLLS && forall n :: polls(n) == Missing
    ensures FirstListed(polls, i) == None
    decreases MAX_POLLS - i
  {
    if i < MAX_POLLS {
      NeverListed(polls, i + 1);
    }
  }

  lemma EmptyFills(quantity: int)
    ensures ExecuteIntent(quantity, EMPTY_FILL) == Answer("FILLED", 0, 0, 0.0)
    ensures ExecuteIntent(quantity, UNLISTED_FILL) == Answer("FILLED", 0, 0, 0.0)
  {
    PlainIsStable("COMPLETE");
    assert TrimSpace("1") == "1" && TrimSpace("FILLED") == "FILLED" && TrimSpace("COMPLETE") == "COMPLETE";
    assert FirstListed(EMPTY_FILL.polls, 0) == Some(Entry("COMPLETE", 0, 0, 0.0));
    NeverListed(UNLISTED_FILL.polls, 0);
    hide TrimSpace, ToUpper, FirstListed, Contains;
    CompleteIsFilled();
  }

  lemma CompleteIsFilled()
    ensures Canonical("COMPLETE") == "FILLED"
  {
    if Contains("COMPLETE", "REJECT") {
      ContainsItsChars("COMPLETE", "REJECT", 'R');
    }
    assert 'R' !in "COMPLETE";
  }

  /** A build of one order on either: it succeeds and writes ACTIVE, the refresh says FAILED. */
  lemma EmptyFillDisagrees(v: Venue)
    requires v == EMPTY_FILL || v == UNLISTED_FILL
    ensures
      var r := Build(GreeksoftBroker(n => v), SAMPLE_TRADE, [[SampleOrder("a")]]);
      StatusAfterBuild(r) == ACTIVE && Refresh(Replay([], r.log), "T") == FAILED
  {
    hide ExecuteIntent, LimitTicks, Refresh, Replay, Build;
    var b := GreeksoftBroker(n => v);
    var s := Submit(b, SAMPLE_TRADE, 0, 0, 0, SampleOrder("a"));
    EmptyFills(65);
    assert s.reply == Answer("FILLED", 0, 0, 0.0);
    OneOrderBuild(b, s);
    OneRowRefresh(SAMPLE_TRADE, s);
    assert !IsOpenStatus("FILLED") by { assert "FILLED"[0] == 'F'; }
  }

  // ---------------------------------------------------------------------------------------
  // What the broker's words become
  // ---------------------------------------------------------------------------------------

  /** Which words, trimmed and in upper case, are read as which status; any other word is kept. */
  lemma NormalizeReads(s: string)
    ensures var u, n := ToUpper(TrimSpace(s)), Normalize(s);
      if u == "" then n == "SUBMITTED"
      else if Contains(u, "REJECT") then n == "REJECTED"
      else if u in ["FILLED", "COMPLETE", "COMPLETED", "TRADED", "EXECUTED"] then n == "FILLED"
      else if u in ["CANCELLED", "CANCELED"] then n == "CANCELLED"
      else if u in ["PARTIALLYFILLED", "PARTIAL", "PARTIALLY_FILLED", "PARTIALLY FILLED"] then n == "PARTIALLY_FILLED"
      else if u in ["OPEN", "NEW", "PENDING", "PENDINGNEW", "PENDING_NEW", "PENDING NEW"] then n == "OPEN"
      else if u in ["SUBMITTED", "ACKED", "ACKNOWLEDGED"] then n == "SUBMITTED"
      else n == u
  {
    hide Contains, ToUpper, TrimSpace;
  }

  /** Poll `i` is the first to list the order, after polls that could not be made or did not list it. */
  predicate ListedFirst(polls: nat -> Poll, from: nat, i: int, e: Entry)
  {
    from <= i < 8 && polls(i) == Listed(e) && forall j :: from <= j < i ==> polls(j).Unreachable? || polls(j).Missing?
  }

  lemma {:induction false} FoundFrom(polls: nat -> Poll, from: nat, e: Entry)
    ensures FirstListed(polls, from) == Some(e) <==> exists i :: ListedFirst(polls, from, i, e)
    decreases 8 - from
  {
    if from < 8 {
      var next := from + 1;
      FoundFrom(polls, next, e);
      if polls(from) == Listed(e) {
        assert ListedFirst(polls, from, from, e);
      }
      if polls(from).Unreachable? || polls(from).Missing? {
        assert forall i :: ListedFirst(polls, next, i, e) ==> ListedFirst(polls, from, i, e);
        assert forall i :: ListedFirst(polls, from, i, e) ==> ListedFirst(polls, next, i, e);
      }
    }
  }

  /** The order book confirms an order exactly when one of the first eight polls lists it, none before it cancelled. */
  lemma FoundWithinEight(polls: nat -> Poll, e: Entry)
    ensures FirstListed(polls, 0) == Some(e) <==> exists i :: ListedFirst(polls, 0, i, e)
  {
    FoundFrom(polls, 0, e);
  }

  /**
   The answer in each case: an error if the placement failed, a rejection without an order id, the
   placement's own status (or SUBMITTED) without quantities if the book does not confirm it, and
   otherwise the book's quantities.
   */
  lemma AnswersReflectVenue(quantity: int, v: Venue)
    ensures var r := ExecuteIntent(quantity, v);
      && (v.place.PlaceFailed? <==> r.BrokerError?)
      && (v.place.Placed? && TrimSpace(v.place.orderId) == "" ==> r == Answer("REJECTED", 0, 0, 0.0))
      && (v.place.Placed? && TrimSpace(v.place.orderId) != "" ==>
            match Confirmation(v)
            case Some(e) => r.filledQty == e.filled && r.pendingQty == e.pending && r.fillPrice == e.price
            case None =>
              && r.filledQty == 0 && r.pendingQty == 0 && r.fillPrice == 0.0
              && r.status == if TrimSpace(v.place.status) == "" then "SUBMITTED" else TrimSpace(v.place.status))
  {
    hide TrimSpace, FirstListed, Normalize;
  }

  /**
   A confirmed status: rejections and cancellations stand, any fill is full or partial, the rest is
   the book's word.
   */
  lemma ConfirmedReads(quantity: int, e: Entry)
    ensures var n, c := Normalize(e.status), ConfirmedStatus(quantity, e);
      if e.filled <= 0 || n in {"REJECTED", "CANCELLED"} then c == n
      else c == if e.pending == 0 && 0 < quantity <= e.filled then "FILLED" else "PARTIALLY_FILLED"
  {
    hide Normalize;
  }
}
