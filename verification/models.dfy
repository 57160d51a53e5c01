/** The data shapes the core passes between repository, service and handler.

    Shapes follow how service.go, handler.go and their tests use them; where a declaration
    under pkg/models disagrees with that use (a `Merch` without `Count`, an integer merch
    name, a flat history slice), the use wins. Go's `int64` amounts are modelled as `int`. */
module Models {

  newtype byte = b: int | 0 <= b < 256

  /** A Go string seen byte by byte, as `len` and the regexp package see it. */
  type Bytes = seq<byte>

  /** One balance_history row as the repository returns it. */
  datatype HistoryRow = HistoryRow(id: int, balanceId: int, amount: int, sender: string, recipient: string)

  /** A transfer the caller received: who sent it and how much. */
  datatype ReceivedDTO = ReceivedDTO(fromUser: string, amount: int)

  /** A transfer (or purchase) the caller made: to whom and how much. */
  datatype SentDTO = SentDTO(toUser: string, amount: int)

  datatype CoinsHistory = CoinsHistory(received: seq<ReceivedDTO>, sent: seq<SentDTO>)

  /** One inventory row joined with its merch name. */
  datatype InventoryMerch = InventoryMerch(inventoryId: int, merchId: int, name: string, count: int)

  /** A merch item; catalog lookups fill `price`, inventory reads fill `count`, and the
      field a query does not fill keeps Go's zero value. An `id` of 0 means "no such item". */
  datatype Merch = Merch(id: int, name: string, price: int, count: int)

  /** An inventory entry of the /api/info response (`type`, `quantity`). */
  datatype MerchDTO = MerchDTO(itemType: string, quantity: int)

  datatype Balance = Balance(id: int, amount: int)

  datatype InfoDTO = InfoDTO(coins: int, inventory: seq<MerchDTO>, coinsHistory: CoinsHistory)

  /** The zero `InfoDTO` returned alongside every error. */
  const EmptyInfo: InfoDTO := InfoDTO(0, [], CoinsHistory([], []))

  datatype AuthDTO = AuthDTO(token: string)

  /** The zero `AuthDTO` returned alongside every error. */
  const NoToken: AuthDTO := AuthDTO("")

  datatype AuthQuery = AuthQuery(username: string, password: Bytes)
  datatype InfoQuery = InfoQuery(userId: int, username: string)
  datatype ItemQuery = ItemQuery(userId: int, username: string, item: string)
  datatype CoinsQuery = CoinsQuery(userId: int, amount: int, sender: string, recipient: string)
}
