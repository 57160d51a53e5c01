/** The pure row-to-DTO mappings of the service layer: splitting a balance history into
    received and sent transfers (`getBalanceHistory`), turning inventory rows into items
    (`getInventory`) and items into response entries (`ToModelMerchDTO`). */
module Views {
  import opened Models

  /** Reference definition of the received list: the rows addressed to `username`, in
      order, each reduced to its sender and amount. */
  function ReceivedOf(rows: seq<HistoryRow>, username: string): seq<ReceivedDTO>
  {
    if rows == [] then []
    else
      (if rows[0].recipient == username then [ReceivedDTO(rows[0].sender, rows[0].amount)] else [])
      + ReceivedOf(rows[1..], username)
  }

  /** Reference definition of the sent list: every other row, in order, each reduced to
      its recipient and amount. */
  function SentOf(rows: seq<HistoryRow>, username: string): seq<SentDTO>
  {
    if rows == [] then []
    else
      (if rows[0].recipient != username then [SentDTO(rows[0].recipient, rows[0].amount)] else [])
      + SentOf(rows[1..], username)
  }

  /** The loop of getBalanceHistory: rows are visited front to back and each one is
      appended to exactly one of the two lists. */
  function Partition(rows: seq<HistoryRow>, username: string): (h: CoinsHistory)
    ensures |h.received| + |h.sent| == |rows|
    decreases |rows|
  {
    if rows == [] then CoinsHistory([], [])
    else
      var h := Partition(rows[..|rows| - 1], username);
      var row := rows[|rows| - 1];
      if row.recipient == username then
        CoinsHistory(h.received + [ReceivedDTO(row.sender, row.amount)], h.sent)
      else
        CoinsHistory(h.received, h.sent + [SentDTO(row.recipient, row.amount)])
  }

  /** The received view of a concatenation is the concatenation of the views: the
      partition keeps the input order. */
  lemma {:induction false} ReceivedOfAppend(a: seq<HistoryRow>, b: seq<HistoryRow>, username: string)
    ensures ReceivedOf(a + b, username) == ReceivedOf(a, username) + ReceivedOf(b, username)
    decreases |a|
  {
    if a == [] {
      assert a + b == b;
    } else {
      assert (a + b)[1..] == a[1..] + b;
      ReceivedOfAppend(a[1..], b, username);
    }
  }

  /** The same order-keeping law for the sent view. */
  lemma {:induction false} SentOfAppend(a: seq<HistoryRow>, b: seq<HistoryRow>, username: string)
    ensures SentOf(a + b, username) == SentOf(a, username) + SentOf(b, username)
    decreases |a|
  {
    if a == [] {
      assert a + b == b;
    } else {
      assert (a + b)[1..] == a[1..] + b;
      SentOfAppend(a[1..], b, username);
    }
  }

  /** The loop computes exactly the two filtered views. */
  lemma {:induction false} PartitionIsFilter(rows: seq<HistoryRow>, username: string)
    ensures Partition(rows, username) == CoinsHistory(ReceivedOf(rows, username), SentOf(rows, username))
    decreases |rows|
  {
    if rows != [] {
      var init, last := rows[..|rows| - 1], rows[|rows| - 1];
      assert rows == init + [last];
      PartitionIsFilter(init, username);
      ReceivedOfAppend(init, [last], username);
      SentOfAppend(init, [last], username);
    }
  }

  /** Every row lands in the list its recipient selects. */
  lemma {:induction false} EveryRowIsPlaced(rows: seq<HistoryRow>, username: string, i: int)
    requires 0 <= i < |rows|
    ensures rows[i].recipient == username ==> ReceivedDTO(rows[i].sender, rows[i].amount) in ReceivedOf(rows, username)
    ensures rows[i].recipient != username ==> SentDTO(rows[i].recipient, rows[i].amount) in SentOf(rows, username)
    decreases |rows|
  {
    if i > 0 {
      EveryRowIsPlaced(rows[1..], username, i - 1);
    }
  }

  /** Every received entry comes from a row addressed to `username`. */
  lemma {:induction false} ReceivedComesFromRows(rows: seq<HistoryRow>, username: string, k: int)
    requires 0 <= k < |ReceivedOf(rows, username)|
    ensures exists i :: 0 <= i < |rows| && rows[i].recipient == username
                        && ReceivedOf(rows, username)[k] == ReceivedDTO(rows[i].sender, rows[i].amount)
    decreases |rows|
  {
    var head := if rows[0].recipient == username then 1 else 0;
    if k < head {
      assert ReceivedOf(rows, username)[k] == ReceivedDTO(rows[0].sender, rows[0].amount);
    } else {
      ReceivedComesFromRows(rows[1..], username, k - head);
      var i :| 0 <= i < |rows[1..]| && rows[1..][i].recipient == username
               && ReceivedOf(rows[1..], username)[k - head] == ReceivedDTO(rows[1..][i].sender, rows[1..][i].amount);
      assert rows[i + 1] == rows[1..][i];
    }
  }

  /** Every sent entry comes from a row not addressed to `username`. */
  lemma {:induction false} SentComesFromRows(rows: seq<HistoryRow>, username: string, k: int)
    requires 0 <= k < |SentOf(rows, username)|
    ensures exists i :: 0 <= i < |rows| && rows[i].recipient != username
                        && SentOf(rows, username)[k] == SentDTO(rows[i].recipient, rows[i].amount)
    decreases |rows|
  {
    var head := if rows[0].recipient != username then 1 else 0;
    if k < head {
      assert SentOf(rows, username)[k] == SentDTO(rows[0].recipient, rows[0].amount);
    } else {
      SentComesFromRows(rows[1..], username, k - head);
      var i :| 0 <= i < |rows[1..]| && rows[1..][i].recipient != username
               && SentOf(rows[1..], username)[k - head] == SentDTO(rows[1..][i].recipient, rows[1..][i].amount);
      assert rows[i + 1] == rows[1..][i];
    }
  }

  /** The loop of getInventory: one item per inventory row, in order, carrying the row's
      merch id, name and count. */
  function InventoryItems(rows: seq<InventoryMerch>): (items: seq<Merch>)
    ensures |items| == |rows|
    ensures forall i :: 0 <= i < |rows| ==>
              items[i].id == rows[i].merchId && items[i].name == rows[i].name && items[i].count == rows[i].count
    decreases |rows|
  {
    if rows == [] then []
    else
      var row := rows[|rows| - 1];
      InventoryItems(rows[..|rows| - 1]) + [Merch(row.merchId, row.name, 0, row.count)]
  }

  /** The loop of GetUserInfo over the items: each becomes a response entry whose type is
      the item's name and whose quantity is its count. */
  function MerchDTOs(items: seq<Merch>): (dtos: seq<MerchDTO>)
    ensures |dtos| == |items|
    ensures forall i :: 0 <= i < |items| ==> dtos[i].itemType == items[i].name && dtos[i].quantity == items[i].count
    decreases |items|
  {
    if items == [] then []
    else
      var item := items[|items| - 1];
      MerchDTOs(items[..|items| - 1]) + [MerchDTO(item.name, item.count)]
  }
}
