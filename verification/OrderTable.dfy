/**
 Orders of the execution gateway, what a broker may answer, and the order table: a row per intent,
 inserted once and overwritten by later executions.
 */
module OrderTable {

  /** An order as produced by the chunker. */
  datatype ExecOrder = ExecOrder(
    uid: string, token: int, symbol: string, optionType: string, action: string,
    quantity: int, expectedPrice: real, exchangeSegment: string)

  function UidsOf(orders: seq<ExecOrder>): (uids: seq<string>)
    ensures |uids| == |orders| && forall i :: 0 <= i < |orders| ==> uids[i] == orders[i].uid
  {
    seq(|orders|, i requires 0 <= i < |orders| => orders[i].uid)
  }

  predicate DistinctOrders(orders: seq<ExecOrder>)
  {
    forall i, j :: 0 <= i < j < |orders| ==> orders[i].uid != orders[j].uid
  }

  /** What is handed to the broker and recorded in the table. */
  datatype Intent = Intent(
    intentId: string, orderUid: string, tradeUid: string, token: int, symbol: string, side: string,
    quantity: int, legType: string, phase: string, limitPrice: real, expectedPrice: real)

  /** A broker call either fails or reports a status, of any text, with quantities of any value. */
  datatype Reply =
    | BrokerError
    | Answer(status: string, filledQty: int, pendingQty: int, fillPrice: real)

  /** The broker may answer anything; its answers are indexed by how many submissions went before. */
  type Broker = (nat, Intent) -> Reply

  predicate IsFilledStatus(status: string)
  {
    status == "FILLED" || status == "SUCCESS"
  }

  datatype Row = Row(
    intentId: string, orderUid: string, tradeUid: string, side: string, quantity: int, limitPrice: real,
    status: string, filledQty: int, pendingQty: int, avgFillPrice: real,
    // taken from the stored request
    phase: string, symbol: string, legType: string, token: int)

  predicate DistinctIds(rows: seq<Row>)
  {
    forall i, j :: 0 <= i < j < |rows| ==> rows[i].intentId != rows[j].intentId
  }

  predicate HasId(rows: seq<Row>, id: string)
  {
    exists i :: 0 <= i < |rows| && rows[i].intentId == id
  }

  function NewRow(t: Intent): Row
  {
    Row(t.intentId, if t.orderUid == "" then t.intentId else t.orderUid, t.tradeUid, t.side, t.quantity,
        t.limitPrice, "CREATED", 0, 0, 0.0, t.phase, t.symbol, t.legType, t.token)
  }

  /** Insert with "on conflict do nothing". */
  function Insert(rows: seq<Row>, t: Intent): seq<Row>
  {
    if HasId(rows, t.intentId) then rows else rows + [NewRow(t)]
  }

  function StoredStatus(status: string): string
  {
    if status == "" then "SUBMITTED" else status
  }

  function Executed(row: Row, r: Reply): Row
    requires r.Answer?
  {
    row.(status := StoredStatus(r.status), filledQty := r.filledQty, pendingQty := r.pendingQty,
         avgFillPrice := r.fillPrice)
  }

  /** Update by intent id. */
  function Mark(rows: seq<Row>, id: string, r: Reply): (marked: seq<Row>)
    requires r.Answer?
    ensures |marked| == |rows|
    ensures forall i :: 0 <= i < |rows| ==>
      marked[i] == if rows[i].intentId == id then Executed(rows[i], r) else rows[i]
  {
    seq(|rows|, i requires 0 <= i < |rows| => if rows[i].intentId == id then Executed(rows[i], r) else rows[i])
  }

  /** A submission's effect on the table: record the intent, then its execution if the broker answered. */
  function Record(rows: seq<Row>, t: Intent, r: Reply): seq<Row>
  {
    if r.Answer? then Mark(Insert(rows, t), t.intentId, r) else Insert(rows, t)
  }

  lemma RecordKeepsIds(rows: seq<Row>, t: Intent, r: Reply)
    requires DistinctIds(rows)
    ensures DistinctIds(Record(rows, t, r)) && HasId(Record(rows, t, r), t.intentId)
    ensures |rows| <= |Record(rows, t, r)|
    ensures forall i :: 0 <= i < |rows| ==> Record(rows, t, r)[i].intentId == rows[i].intentId
    ensures forall i :: 0 <= i < |rows| && rows[i].intentId != t.intentId ==> Record(rows, t, r)[i] == rows[i]
  {
    var ins := Insert(rows, t);
    assert HasId(ins, t.intentId) by {
      if !HasId(rows, t.intentId) {
        assert ins[|rows|].intentId == t.intentId;
      }
    }
    var i :| 0 <= i < |ins| && ins[i].intentId == t.intentId;
    assert Record(rows, t, r)[i].intentId == t.intentId;
  }

  /** The gateway's store: the order table and the in-memory list of intents per trade. */
  class OrderStore {
    var rows: seq<Row>
    var intents: map<string, seq<Intent>>

    constructor ()
      ensures rows == [] && intents == map[]
    {
      rows, intents := [], map[];
    }

    function IntentsOf(tradeUid: string): seq<Intent>
      reads this
    {
      if tradeUid in intents then intents[tradeUid] else []
    }

    /** Appends to the in-memory list and inserts the row if its id is new. */
    method AppendIntent(tradeUid: string, t: Intent)
      modifies this
      ensures rows == Insert(old(rows), t)
      ensures intents == old(intents)[tradeUid := old(IntentsOf(tradeUid)) + [t]]
    {
      intents := intents[tradeUid := IntentsOf(tradeUid) + [t]];
      rows := Insert(rows, t);
    }

    method MarkOrderExecution(id: string, r: Reply)
      requires r.Answer?
      modifies this`rows
      ensures rows == Mark(old(rows), id, r)
    {
      rows := Mark(rows, id, r);
    }
  }
}
