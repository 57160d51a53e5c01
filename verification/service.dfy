/** The service layer (internal/service/service.go): the user info snapshot, the purchase
    guard sequence and the coin transfer guard sequence.

    The service repository implementation is not part of this model, so the repository is
    a record of total functions: for every query it yields the reply the database gives,
    a value or an error. Each operation returns, besides its Go results, the sequence of
    repository calls it made; "no later read" and "the transaction is not started" are
    statements about that sequence. The two transactions (`BuyItemTX`, `SendCoinsTX`) are
    opaque: the model records that they were called, with which arguments, and returns
    their error, and says nothing about what they write. */
module Service {
  import opened Errors
  import opened Models
  import Views

  datatype BuyTxArgs = BuyTxArgs(
    userId: int, balanceId: int, inventoryId: int, merchId: int, price: int, username: string, item: string)

  datatype SendTxArgs = SendTxArgs(
    userId: int, senderBalanceId: int, recipientBalanceId: int, amount: int, sender: string, recipient: string)

  /** One call the service makes on its repository. */
  datatype Call =
    | GetBalanceAmountByUserID(userId: int)
    | GetBalanceHistoryByUserID(userId: int)
    | GetInventoryMerchItems(userId: int)
    | GetMerchByName(name: string)
    | GetBalanceByUserID(userId: int)
    | GetInventoryIDByUserID(userId: int)
    | BuyItemTX(buy: BuyTxArgs)
    | IsUserExist(username: string)
    | GetBalanceIDByUsername(username: string)
    | SendCoinsTX(send: SendTxArgs)

  /** What the database answers to each repository query. */
  datatype Repository = Repository(
    balanceAmount: int -> Result<int>,
    balanceHistory: int -> Result<seq<HistoryRow>>,
    inventoryMerch: int -> Result<seq<InventoryMerch>>,
    merchByName: string -> Result<Merch>,
    balance: int -> Result<Balance>,
    inventoryId: int -> Result<int>,
    buyItemTx: BuyTxArgs -> Option<Error>,
    userExists: string -> Result<bool>,
    balanceIdByUsername: string -> Result<int>,
    sendCoinsTx: SendTxArgs -> Option<Error>)

  /** The Go `(InfoDTO, error)` pair plus the repository calls made. */
  datatype InfoRun = InfoRun(info: InfoDTO, err: Option<Error>, calls: seq<Call>)

  /** A Go `error` result plus the repository calls made. */
  datatype Outcome = Outcome(err: Option<Error>, calls: seq<Call>)

  /** The three reads of GetUserInfo, in the order it makes them. */
  function InfoReads(userId: int): seq<Call>
  {
    [GetBalanceAmountByUserID(userId), GetBalanceHistoryByUserID(userId), GetInventoryMerchItems(userId)]
  }

  /** GetUserInfo: balance, then history, then inventory; the first failing read ends the
      call with that read's error and the zero InfoDTO. */
  function GetUserInfo(repo: Repository, q: InfoQuery): (r: InfoRun)
    ensures r.err.Some? ==> r.info == EmptyInfo
    ensures r.calls <= InfoReads(q.userId) && |r.calls| >= 1
    ensures repo.balanceAmount(q.userId).Err? ==>
              r.err == Some(repo.balanceAmount(q.userId).error) && r.calls == InfoReads(q.userId)[..1]
    ensures repo.balanceAmount(q.userId).Ok? && repo.balanceHistory(q.userId).Err? ==>
              r.err == Some(repo.balanceHistory(q.userId).error) && r.calls == InfoReads(q.userId)[..2]
    ensures repo.balanceAmount(q.userId).Ok? && repo.balanceHistory(q.userId).Ok?
            && repo.inventoryMerch(q.userId).Err? ==>
              r.err == Some(repo.inventoryMerch(q.userId).error) && r.calls == InfoReads(q.userId)
    ensures r.err.None? <==>
              repo.balanceAmount(q.userId).Ok? && repo.balanceHistory(q.userId).Ok? && repo.inventoryMerch(q.userId).Ok?
    ensures r.err.None? ==>
              && r.calls == InfoReads(q.userId)
              && r.info.coins == repo.balanceAmount(q.userId).value
              && r.info.coinsHistory.received == Views.ReceivedOf(repo.balanceHistory(q.userId).value, q.username)
              && r.info.coinsHistory.sent == Views.SentOf(repo.balanceHistory(q.userId).value, q.username)
              && |r.info.inventory| == |repo.inventoryMerch(q.userId).value|
              && forall i :: 0 <= i < |r.info.inventory| ==>
                   r.info.inventory[i] == MerchDTO(repo.inventoryMerch(q.userId).value[i].name,
                                                   repo.inventoryMerch(q.userId).value[i].count)
  {
    var order := InfoReads(q.userId);
    var amount := repo.balanceAmount(q.userId);
    if amount.Err? then InfoRun(EmptyInfo, Some(amount.error), order[..1])
    else
      var history := repo.balanceHistory(q.userId);
      if history.Err? then InfoRun(EmptyInfo, Some(history.error), order[..2])
      else
        var rows := repo.inventoryMerch(q.userId);
        if rows.Err? then InfoRun(EmptyInfo, Some(rows.error), order)
        else
          Views.PartitionIsFilter(history.value, q.username);
          var items := Views.InventoryItems(rows.value);
          InfoRun(InfoDTO(amount.value, Views.MerchDTOs(items), Views.Partition(history.value, q.username)),
                  None, order)
  }

  /** The arguments BuyItem hands to the purchase transaction. The item name is the
      catalog's, not the request's. */
  function BuyArgs(q: ItemQuery, balance: Balance, inventoryId: int, merch: Merch): BuyTxArgs
  {
    BuyTxArgs(q.userId, balance.id, inventoryId, merch.id, merch.price, q.username, merch.name)
  }

  /** BuyItem: catalog lookup, unknown-item check, balance read, funds check, inventory id
      read, and only then the purchase transaction. */
  function BuyItem(repo: Repository, q: ItemQuery): (r: Outcome)
    ensures repo.merchByName(q.item).Err? ==>
              r == Outcome(Some(repo.merchByName(q.item).error), [GetMerchByName(q.item)])
    ensures repo.merchByName(q.item).Ok? && repo.merchByName(q.item).value.id == 0 ==>
              r == Outcome(Some(Coded(ItemDoesntExist)), [GetMerchByName(q.item)])
    ensures repo.merchByName(q.item).Ok? && repo.merchByName(q.item).value.id != 0
            && repo.balance(q.userId).Ok?
            && repo.balance(q.userId).value.amount < repo.merchByName(q.item).value.price ==>
              r == Outcome(Some(Coded(NotEnoughCoins)), [GetMerchByName(q.item), GetBalanceByUserID(q.userId)])
    ensures repo.merchByName(q.item).Ok? && repo.merchByName(q.item).value.id != 0
            && repo.balance(q.userId).Err? ==>
              r == Outcome(Some(repo.balance(q.userId).error), [GetMerchByName(q.item), GetBalanceByUserID(q.userId)])
    ensures repo.merchByName(q.item).Ok? && repo.merchByName(q.item).value.id != 0
            && repo.balance(q.userId).Ok?
            && repo.merchByName(q.item).value.price <= repo.balance(q.userId).value.amount
            && repo.inventoryId(q.userId).Err? ==>
              r == Outcome(Some(repo.inventoryId(q.userId).error),
                           [GetMerchByName(q.item), GetBalanceByUserID(q.userId), GetInventoryIDByUserID(q.userId)])
    // every guard held: the transaction is called once, last, and its error is the result
    ensures repo.merchByName(q.item).Ok? && repo.merchByName(q.item).value.id != 0
            && repo.balance(q.userId).Ok?
            && repo.merchByName(q.item).value.price <= repo.balance(q.userId).value.amount
            && repo.inventoryId(q.userId).Ok? ==>
              var args := BuyArgs(q, repo.balance(q.userId).value, repo.inventoryId(q.userId).value,
                                  repo.merchByName(q.item).value);
              r == Outcome(repo.buyItemTx(args),
                           [GetMerchByName(q.item), GetBalanceByUserID(q.userId), GetInventoryIDByUserID(q.userId),
                            BuyItemTX(args)])
    ensures forall i :: 0 <= i < |r.calls| && r.calls[i].BuyItemTX? ==>
              && i == |r.calls| - 1
              && repo.merchByName(q.item).Ok? && repo.merchByName(q.item).value.id != 0
              && repo.balance(q.userId).Ok?
              && repo.merchByName(q.item).value.price <= repo.balance(q.userId).value.amount
              && repo.inventoryId(q.userId).Ok?
              && r.calls[i].buy == BuyArgs(q, repo.balance(q.userId).value, repo.inventoryId(q.userId).value,
                                           repo.merchByName(q.item).value)
              && r.err == repo.buyItemTx(r.calls[i].buy)
    ensures r.err.None? ==> |r.calls| == 4 && r.calls[3].BuyItemTX?
    ensures r.err.None? <==>
              && repo.merchByName(q.item).Ok? && repo.merchByName(q.item).value.id != 0
              && repo.balance(q.userId).Ok?
              && repo.merchByName(q.item).value.price <= repo.balance(q.userId).value.amount
              && repo.inventoryId(q.userId).Ok?
              && repo.buyItemTx(BuyArgs(q, repo.balance(q.userId).value, repo.inventoryId(q.userId).value,
                                        repo.merchByName(q.item).value)).None?
  {
    var merch := repo.merchByName(q.item);
    var c1 := [GetMerchByName(q.item)];
    if merch.Err? then Outcome(Some(merch.error), c1)
    else if merch.value.id == 0 then Outcome(Some(Coded(ItemDoesntExist)), c1)
    else
      var balance := repo.balance(q.userId);
      var c2 := c1 + [GetBalanceByUserID(q.userId)];
      if balance.Err? then Outcome(Some(balance.error), c2)
      else if balance.value.amount - merch.value.price < 0 then Outcome(Some(Coded(NotEnoughCoins)), c2)
      else
        var inventoryId := repo.inventoryId(q.userId);
        var c3 := c2 + [GetInventoryIDByUserID(q.userId)];
        if inventoryId.Err? then Outcome(Some(inventoryId.error), c3)
        else
          var args := BuyArgs(q, balance.value, inventoryId.value, merch.value);
          Outcome(repo.buyItemTx(args), c3 + [BuyItemTX(args)])
  }

  /** The arguments SendCoins hands to the transfer transaction. */
  function SendArgs(q: CoinsQuery, senderBalance: Balance, recipientBalanceId: int): SendTxArgs
  {
    SendTxArgs(q.userId, senderBalance.id, recipientBalanceId, q.amount, q.sender, q.recipient)
  }

  /** SendCoins as its tests pin it down: recipient existence, the sender's balance and
      funds check, the recipient's balance id, and only then the transfer transaction. */
  function SendCoins(repo: Repository, q: CoinsQuery): (r: Outcome)
    ensures repo.userExists(q.recipient).Err? ==>
              r == Outcome(Some(repo.userExists(q.recipient).error), [IsUserExist(q.recipient)])
    ensures repo.userExists(q.recipient) == Ok(false) ==>
              r == Outcome(Some(Coded(InvalidRecipient)), [IsUserExist(q.recipient)])
    ensures repo.userExists(q.recipient) == Ok(true) && repo.balance(q.userId).Err? ==>
              r == Outcome(Some(repo.balance(q.userId).error), [IsUserExist(q.recipient), GetBalanceByUserID(q.userId)])
    ensures repo.userExists(q.recipient) == Ok(true) && repo.balance(q.userId).Ok?
            && q.amount <= repo.balance(q.userId).value.amount
            && repo.balanceIdByUsername(q.recipient).Err? ==>
              r == Outcome(Some(repo.balanceIdByUsername(q.recipient).error),
                           [IsUserExist(q.recipient), GetBalanceByUserID(q.userId), GetBalanceIDByUsername(q.recipient)])
    // every guard held: the transfer is called once, last, and its error is the result
    ensures repo.userExists(q.recipient) == Ok(true) && repo.balance(q.userId).Ok?
            && q.amount <= repo.balance(q.userId).value.amount
            && repo.balanceIdByUsername(q.recipient).Ok? ==>
              var args := SendArgs(q, repo.balance(q.userId).value, repo.balanceIdByUsername(q.recipient).value);
              r == Outcome(repo.sendCoinsTx(args),
                           [IsUserExist(q.recipient), GetBalanceByUserID(q.userId), GetBalanceIDByUsername(q.recipient),
                            SendCoinsTX(args)])
    ensures repo.userExists(q.recipient) == Ok(true) && repo.balance(q.userId).Ok?
            && q.amount > repo.balance(q.userId).value.amount ==>
              r == Outcome(Some(Coded(NotEnoughCoins)), [IsUserExist(q.recipient), GetBalanceByUserID(q.userId)])
    ensures forall i :: 0 <= i < |r.calls| && r.calls[i].SendCoinsTX? ==>
              && i == |r.calls| - 1
              && repo.userExists(q.recipient) == Ok(true)
              && repo.balance(q.userId).Ok?
              && q.amount <= repo.balance(q.userId).value.amount
              && repo.balanceIdByUsername(q.recipient).Ok?
              && r.calls[i].send == SendArgs(q, repo.balance(q.userId).value, repo.balanceIdByUsername(q.recipient).value)
              && r.err == repo.sendCoinsTx(r.calls[i].send)
    ensures r.err.None? <==>
              && repo.userExists(q.recipient) == Ok(true)
              && repo.balance(q.userId).Ok?
              && q.amount <= repo.balance(q.userId).value.amount
              && repo.balanceIdByUsername(q.recipient).Ok?
              && repo.sendCoinsTx(SendArgs(q, repo.balance(q.userId).value,
                                           repo.balanceIdByUsername(q.recipient).value)).None?
  {
    var recipientExists := repo.userExists(q.recipient);
    var c1 := [IsUserExist(q.recipient)];
    if recipientExists.Err? then Outcome(Some(recipientExists.error), c1)
    else if !recipientExists.value then Outcome(Some(Coded(InvalidRecipient)), c1)
    else
      var balance := repo.balance(q.userId);
      var c2 := c1 + [GetBalanceByUserID(q.userId)];
      if balance.Err? then Outcome(Some(balance.error), c2)
      else if balance.value.amount - q.amount < 0 then Outcome(Some(Coded(NotEnoughCoins)), c2)
      else
        var recipientBalanceId := repo.balanceIdByUsername(q.recipient);
        var c3 := c2 + [GetBalanceIDByUsername(q.recipient)];
        if recipientBalanceId.Err? then Outcome(Some(recipientBalanceId.error), c3)
        else
          var args := SendArgs(q, balance.value, recipientBalanceId.value);
          Outcome(repo.sendCoinsTx(args), c3 + [SendCoinsTX(args)])
  }
}
