/** The HTTP boundary (internal/handler/handler.go): what each route checks before it
    calls the layer below, and how that layer's error becomes a status and an error code.

    A route is a function of the decoded request, the caller's principal and the
    downstream operation (a function argument). It returns the response and the list of
    downstream calls it made, which is empty whenever a guard rejects the request. JSON
    decoding is reduced to "decoded" (`Some`) or "malformed" (`None`); the principal is
    taken as already decoded from the request context. */
module Handler {
  import opened Errors
  import opened Models

  const StatusOK: int := 200
  const StatusBadRequest: int := 400
  const StatusUnauthorized: int := 401
  const StatusInternalServerError: int := 500

  /** What a route writes: an error code (`http.Error`), the literal "Bad Request", a JSON
      payload, or nothing beyond the status. */
  datatype Body =
    | ErrorText(code: ErrorCode)
    | BadRequestText
    | TokenJson(auth: AuthDTO)
    | InfoJson(info: InfoDTO)
    | NoBody

  datatype Response = Response(status: int, body: Body)

  /** A route's response and the downstream calls it made. */
  datatype Handled<Q> = Handled(response: Response, calls: seq<Q>)

  datatype AuthReqBody = AuthReqBody(username: string, password: Bytes)

  datatype SendCoinsReqBody = SendCoinsReqBody(recipient: string, amount: int)

  /** The principal the authentication layer attached to the request. */
  datatype Claims = Claims(userId: int, username: string)

  /** The route prefix of the purchase endpoint; the item name is what follows it. */
  const BuyPrefix: string := "/api/buy/"

  predicate IsClientError(status: int)
  {
    400 <= status < 500
  }

  /** The error-to-status mapping of POST /api/auth. */
  function AuthFailure(err: Error): (r: Response)
    ensures IsClientError(r.status) <==> err in {Coded(WrongPassword), Coded(WrongPasswordFormat)}
    ensures IsClientError(r.status) ==> r == Response(StatusUnauthorized, ErrorText(err.code))
    ensures !IsClientError(r.status) ==> r == Response(StatusInternalServerError, ErrorText(Login))
  {
    match err
    case Coded(WrongPassword) => Response(StatusUnauthorized, ErrorText(WrongPassword))
    case Coded(WrongPasswordFormat) => Response(StatusUnauthorized, ErrorText(WrongPasswordFormat))
    case _ => Response(StatusInternalServerError, ErrorText(Login))
  }

  /** The error-to-status mapping of GET /api/buy/{item}. */
  function BuyFailure(err: Error): (r: Response)
    ensures IsClientError(r.status) <==> err in {Coded(ItemDoesntExist), Coded(NotEnoughCoins)}
    ensures IsClientError(r.status) ==> r == Response(StatusBadRequest, ErrorText(err.code))
    ensures !IsClientError(r.status) ==> r == Response(StatusInternalServerError, ErrorText(GetBuyItem))
  {
    match err
    case Coded(ItemDoesntExist) => Response(StatusBadRequest, ErrorText(ItemDoesntExist))
    case Coded(NotEnoughCoins) => Response(StatusBadRequest, ErrorText(NotEnoughCoins))
    case _ => Response(StatusInternalServerError, ErrorText(GetBuyItem))
  }

  /** The error-to-status mapping of POST /api/sendCoin. Its server-error code is the
      purchase endpoint's, as written. */
  function SendFailure(err: Error): (r: Response)
    ensures IsClientError(r.status) <==> err in {Coded(InvalidRecipient), Coded(NotEnoughCoins)}
    ensures IsClientError(r.status) ==> r == Response(StatusBadRequest, ErrorText(err.code))
    ensures !IsClientError(r.status) ==> r == Response(StatusInternalServerError, ErrorText(GetBuyItem))
  {
    match err
    case Coded(InvalidRecipient) => Response(StatusBadRequest, ErrorText(InvalidRecipient))
    case Coded(NotEnoughCoins) => Response(StatusBadRequest, ErrorText(NotEnoughCoins))
    case _ => Response(StatusInternalServerError, ErrorText(GetBuyItem))
  }

  /** POST /api/auth: both credentials must be non-empty before LoginWithPass is called. */
  function HandleAuth(body: Option<AuthReqBody>, login: AuthQuery -> (AuthDTO, Option<Error>)): (h: Handled<AuthQuery>)
    ensures body.None? ==> h == Handled(Response(StatusInternalServerError, ErrorText(UnmarshalResponse)), [])
    ensures body.Some? && (body.value.username == "" || body.value.password == []) ==>
              h == Handled(Response(StatusBadRequest, ErrorText(InvalidAuthReqParams)), [])
    ensures h.calls != [] <==> body.Some? && body.value.username != "" && body.value.password != []
    ensures h.calls != [] ==>
              && h.calls == [AuthQuery(body.value.username, body.value.password)]
              && (login(h.calls[0]).1.None? ==> h.response == Response(StatusOK, TokenJson(login(h.calls[0]).0)))
              && (login(h.calls[0]).1.Some? ==> h.response == AuthFailure(login(h.calls[0]).1.value))
  {
    if body.None? then Handled(Response(StatusInternalServerError, ErrorText(UnmarshalResponse)), [])
    else if body.value.password == [] || body.value.username == "" then
      Handled(Response(StatusBadRequest, ErrorText(InvalidAuthReqParams)), [])
    else
      var q := AuthQuery(body.value.username, body.value.password);
      var (dto, err) := login(q);
      if err.Some? then Handled(AuthFailure(err.value), [q])
      else Handled(Response(StatusOK, TokenJson(dto)), [q])
  }

  /** GET /api/info: the service is always called with the caller's id and name; any
      error is a server error. */
  function HandleInfo(claims: Claims, info: InfoQuery -> (InfoDTO, Option<Error>)): (h: Handled<InfoQuery>)
    ensures h.calls == [InfoQuery(claims.userId, claims.username)]
    ensures h.response.status == StatusOK <==> info(h.calls[0]).1.None?
    ensures h.response.status == StatusOK ==> h.response.body == InfoJson(info(h.calls[0]).0)
    ensures h.response.status != StatusOK ==> h.response == Response(StatusInternalServerError, ErrorText(GetInfo))
  {
    var q := InfoQuery(claims.userId, claims.username);
    var (dto, err) := info(q);
    if err.Some? then Handled(Response(StatusInternalServerError, ErrorText(GetInfo)), [q])
    else Handled(Response(StatusOK, InfoJson(dto)), [q])
  }

  /** GET /api/buy/{item}: an empty item name is rejected before BuyItem is called. */
  function HandleBuy(path: string, claims: Claims, buy: ItemQuery -> Option<Error>): (h: Handled<ItemQuery>)
    requires BuyPrefix <= path
    ensures h.calls == [] <==> path == BuyPrefix
    ensures path == BuyPrefix ==> h.response == Response(StatusBadRequest, BadRequestText)
    ensures h.calls != [] ==>
              && h.calls == [ItemQuery(claims.userId, claims.username, path[|BuyPrefix|..])]
              && (buy(h.calls[0]).None? ==> h.response == Response(StatusOK, NoBody))
              && (buy(h.calls[0]).Some? ==> h.response == BuyFailure(buy(h.calls[0]).value))
  {
    var item := path[|BuyPrefix|..];
    if item == "" then Handled(Response(StatusBadRequest, BadRequestText), [])
    else
      var q := ItemQuery(claims.userId, claims.username, item);
      var err := buy(q);
      if err.Some? then Handled(BuyFailure(err.value), [q])
      else Handled(Response(StatusOK, NoBody), [q])
  }

  /** POST /api/sendCoin: a non-positive amount, then a transfer to oneself, are rejected
      before SendCoins is called. */
  function HandleSendCoin(body: Option<SendCoinsReqBody>, claims: Claims, send: CoinsQuery -> Option<Error>): (h: Handled<CoinsQuery>)
    ensures body.None? ==> h == Handled(Response(StatusInternalServerError, ErrorText(UnmarshalResponse)), [])
    ensures body.Some? && body.value.amount < 1 ==>
              h == Handled(Response(StatusBadRequest, ErrorText(InvalidSendCoinsReqParams)), [])
    ensures body.Some? && body.value.amount >= 1 && body.value.recipient == claims.username ==>
              h == Handled(Response(StatusBadRequest, ErrorText(InvalidRecipientYourself)), [])
    ensures h.calls != [] <==>
              body.Some? && body.value.amount >= 1 && body.value.recipient != claims.username
    ensures h.calls != [] ==>
              && h.calls == [CoinsQuery(claims.userId, body.value.amount, claims.username, body.value.recipient)]
              && (send(h.calls[0]).None? ==> h.response == Response(StatusOK, NoBody))
              && (send(h.calls[0]).Some? ==> h.response == SendFailure(send(h.calls[0]).value))
  {
    if body.None? then Handled(Response(StatusInternalServerError, ErrorText(UnmarshalResponse)), [])
    else if body.value.amount < 1 then Handled(Response(StatusBadRequest, ErrorText(InvalidSendCoinsReqParams)), [])
    else if body.value.recipient == claims.username then
      Handled(Response(StatusBadRequest, ErrorText(InvalidRecipientYourself)), [])
    else
      var q := CoinsQuery(claims.userId, body.value.amount, claims.username, body.value.recipient);
      var err := send(q);
      if err.Some? then Handled(SendFailure(err.value), [q])
      else Handled(Response(StatusOK, NoBody), [q])
  }

  // Claims decoding. Each secured route reads the principal from the request context
  // first; when that fails it writes a server error but does not return, so the route
  // goes on with the zero principal. The status a client sees is the first one written;
  // what later writes append to the body is not modelled.

  /** The principal a route goes on with: the decoded one, or Go's zero `Claims`. */
  function ClaimsOrZero(decoded: Option<Claims>): (c: Claims)
    ensures decoded.Some? ==> c == decoded.value
    ensures decoded.None? ==> c.userId == 0 && c.username == ""
  {
    if decoded.Some? then decoded.value else Claims(0, "")
  }

  /** GET /api/info as written: a failed decode answers 500 and still calls the service. */
  function HandleInfoAsWritten(decoded: Option<Claims>, info: InfoQuery -> (InfoDTO, Option<Error>)): (h: Handled<InfoQuery>)
    ensures decoded.Some? ==> h == HandleInfo(decoded.value, info)
    ensures decoded.None? ==> h.response == Response(StatusInternalServerError, ErrorText(GetInfo))
    ensures h.calls == [InfoQuery(ClaimsOrZero(decoded).userId, ClaimsOrZero(decoded).username)]
  {
    var h := HandleInfo(ClaimsOrZero(decoded), info);
    if decoded.None? then Handled(Response(StatusInternalServerError, ErrorText(GetInfo)), h.calls) else h
  }

  /** GET /api/info with the missing return restored: a failed decode calls nothing. */
  function HandleInfoChecked(decoded: Option<Claims>, info: InfoQuery -> (InfoDTO, Option<Error>)): (h: Handled<InfoQuery>)
    ensures h.calls != [] <==> decoded.Some?
    ensures decoded.None? ==> h.response == Response(StatusInternalServerError, ErrorText(GetInfo))
    ensures decoded.Some? ==> h == HandleInfo(decoded.value, info)
  {
    if decoded.None? then Handled(Response(StatusInternalServerError, ErrorText(GetInfo)), [])
    else HandleInfo(decoded.value, info)
  }

  /** GET /api/buy/{item} as written: the item guard comes first; past it, a failed decode
      answers 500 and still calls the service. */
  function HandleBuyAsWritten(path: string, decoded: Option<Claims>, buy: ItemQuery -> Option<Error>): (h: Handled<ItemQuery>)
    requires BuyPrefix <= path
    ensures decoded.Some? ==> h == HandleBuy(path, decoded.value, buy)
    ensures path == BuyPrefix ==> h == Handled(Response(StatusBadRequest, BadRequestText), [])
    ensures path != BuyPrefix && decoded.None? ==>
              h.response == Response(StatusInternalServerError, ErrorText(GetInfo))
              && h.calls == [ItemQuery(0, "", path[|BuyPrefix|..])]
  {
    var h := HandleBuy(path, ClaimsOrZero(decoded), buy);
    if decoded.None? && path != BuyPrefix then
      Handled(Response(StatusInternalServerError, ErrorText(GetInfo)), h.calls)
    else h
  }

  /** GET /api/buy/{item} with the missing return restored. */
  function HandleBuyChecked(path: string, decoded: Option<Claims>, buy: ItemQuery -> Option<Error>): (h: Handled<ItemQuery>)
    requires BuyPrefix <= path
    ensures h.calls != [] <==> path != BuyPrefix && decoded.Some?
    ensures path == BuyPrefix ==> h.response == Response(StatusBadRequest, BadRequestText)
    ensures path != BuyPrefix && decoded.None? ==>
              h.response == Response(StatusInternalServerError, ErrorText(GetInfo))
    ensures decoded.Some? ==> h == HandleBuy(path, decoded.value, buy)
  {
    if path == BuyPrefix then Handled(Response(StatusBadRequest, BadRequestText), [])
    else if decoded.None? then Handled(Response(StatusInternalServerError, ErrorText(GetInfo)), [])
    else HandleBuy(path, decoded.value, buy)
  }

  /** POST /api/sendCoin as written: the body and amount guards come first and do not
      depend on the principal; past them, a failed decode answers 500 and the route goes on
      with an empty sender name, so an empty recipient is stopped as a self-transfer and a
      non-empty one reaches the service from user id 0. */
  function HandleSendCoinAsWritten(body: Option<SendCoinsReqBody>, decoded: Option<Claims>, send: CoinsQuery -> Option<Error>): (h: Handled<CoinsQuery>)
    ensures decoded.Some? ==> h == HandleSendCoin(body, decoded.value, send)
    ensures body.None? || body.value.amount < 1 ==> h == HandleSendCoin(body, Claims(0, ""), send)
    ensures decoded.None? ==> h.calls == HandleSendCoin(body, Claims(0, ""), send).calls
    ensures decoded.None? && body.Some? && body.value.recipient == "" ==> h.calls == []
    ensures body.Some? && body.value.amount >= 1 && decoded.None? ==>
              && h.response == Response(StatusInternalServerError, ErrorText(GetInfo))
              && (body.value.recipient != "" ==>
                    h.calls == [CoinsQuery(0, body.value.amount, "", body.value.recipient)])
  {
    var h := HandleSendCoin(body, ClaimsOrZero(decoded), send);
    if decoded.None? && body.Some? && body.value.amount >= 1 then
      Handled(Response(StatusInternalServerError, ErrorText(GetInfo)), h.calls)
    else h
  }

  /** POST /api/sendCoin with the missing return restored: the body and amount guards
      still come first. */
  function HandleSendCoinChecked(body: Option<SendCoinsReqBody>, decoded: Option<Claims>, send: CoinsQuery -> Option<Error>): (h: Handled<CoinsQuery>)
    ensures decoded.None? ==> h.calls == []
    ensures body.None? || body.value.amount < 1 ==> h == HandleSendCoin(body, Claims(0, ""), send)
    ensures decoded.None? && body.Some? && body.value.amount >= 1 ==>
              h.response == Response(StatusInternalServerError, ErrorText(GetInfo))
    ensures decoded.Some? ==> h == HandleSendCoin(body, decoded.value, send)
  {
    if decoded.Some? then HandleSendCoin(body, decoded.value, send)
    else if body.None? || body.value.amount < 1 then HandleSendCoin(body, Claims(0, ""), send)
    else Handled(Response(StatusInternalServerError, ErrorText(GetInfo)), [])
  }

  /** The discrepancy: on every secured route a request whose principal cannot be decoded
      is answered 500, yet the service is called on behalf of user 0 with an empty name;
      with the return restored, it is not called. */
  lemma DecodeFailureReachesService(path: string, item: string, amount: int, recipient: string,
                                    info: InfoQuery -> (InfoDTO, Option<Error>),
                                    buy: ItemQuery -> Option<Error>, send: CoinsQuery -> Option<Error>)
    requires path == BuyPrefix + item && item != ""
    requires amount >= 1 && recipient != ""
    ensures HandleInfoAsWritten(None, info).calls == [InfoQuery(0, "")]
    ensures HandleBuyAsWritten(path, None, buy).calls == [ItemQuery(0, "", item)]
    ensures HandleSendCoinAsWritten(Some(SendCoinsReqBody(recipient, amount)), None, send).calls
            == [CoinsQuery(0, amount, "", recipient)]
    ensures HandleInfoChecked(None, info).calls == []
    ensures HandleBuyChecked(path, None, buy).calls == []
    ensures HandleSendCoinChecked(Some(SendCoinsReqBody(recipient, amount)), None, send).calls == []
  {
    assert path[|BuyPrefix|..] == item;
  }
}
