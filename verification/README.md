# coins_store core in Dafny

A model of the core of coins_store, an internal merch shop. Employees authenticate with a
username and password. A first authentication registers the user with a balance of 1000
coins and an empty inventory. Users then read their balance, transfer history and
inventory, buy merch for coins, and send coins to one another.

The model covers four layers, one module each, plus shared types and end-to-end lemmas.

- `Service` (service.dfy) holds the service layer. `GetUserInfo` reads balance, history
  and inventory. `BuyItem` and `SendCoins` run their guard sequences before calling their
  transaction. The service repository is a record of total functions from query to reply,
  a value or an error. Every operation also returns the list of repository calls it made,
  so "nothing further is read" and "the transaction is not called" are provable
  statements. The two transactions are opaque. The model records their arguments and
  returns their error, but says nothing about what they write.
- `Views` (views.dfy) holds the pure row-to-DTO mappings. They split a history into
  received and sent transfers, and turn inventory rows into response items.
- `Password` (password.dfy) holds the password rule applied before registration.
- `AuthStore` (auth_store.dfy) holds the authentication repository as transitions of an
  in-memory store of balance, user and inventory rows. Faults are explicit parameters.
  A rolled-back registration leaves the store unchanged.
- `Auth` (auth.dfy) holds the login-or-register decision. Hashing, hash comparison and
  token signing are caller-supplied functions, with no property assumed of them.
- `Handler` (handler.dfy) holds the HTTP routes: their request guards, the call they make
  downstream, and the mapping from error to status and code.
- `Scenarios` (scenarios.dfy) wires routes to the operations below them. It also holds the
  concrete situations of the repository's tests and an example first login.
- `Errors` (errors.dfy) and `Models` (models.dfy) hold the shared types. Errors are
  symbolic: a named code, a driver message, or a message wrapped with context.

A few facts about the code shape the model:

- Tokens are signed for the user id alone (`generateJWT`); the username is not part of them.
- A transfer to oneself is rejected by the route as `InvalidRecipientYourself`.
- The transfer route's server-error code is `GetBuyItem`, the same code the purchase route uses.
- Service operations take the query records that the handler and the tests pass, not the
  separate arguments in the service's own signatures.

## Model

| member | source | states |
|---|---|---|
| Views.Partition | internal/service/service.go:82-99 | every history row lands in exactly one of the two lists: their lengths add up to the number of rows |
| Views.PartitionIsFilter | internal/service/service.go:84-97 | the appending loop yields exactly the rows addressed to the user (as sender and amount) and exactly the other rows (as recipient and amount), each in history order |
| Views.EveryRowIsPlaced | internal/service/service.go:84-97 | a row addressed to the user appears among the received transfers, and any other row appears among the sent ones |
| Views.ReceivedComesFromRows | internal/service/service.go:85-90 | each received entry comes from a history row addressed to the user, with that row's sender and amount |
| Views.SentComesFromRows | internal/service/service.go:93-96 | each sent entry comes from a history row not addressed to the user, with that row's recipient and amount |
| Views.InventoryItems | internal/service/service.go:108-115 | one item per inventory row, in order, carrying the row's merch id, name and count |
| Views.MerchDTOs | internal/service/service_test.go:42-55 | one response entry per item, in order, with type = item name and quantity = item count |
| Service.GetUserInfo | internal/service/service.go:36-65 | reads balance, history, then inventory; the first failing read ends the call with its error, the zero info and no later read; it succeeds iff all three reads succeed, and the result then carries the balance, the received and sent transfers, and one entry per inventory row |
| Service.BuyItem | internal/service/service.go:120-148 | a catalog error, or an unknown item (id 0), ends after one call with that outcome; a failed balance read returns its error after two calls; a price above the balance is NotEnoughCoins after two calls; a failed inventory-id read returns its error after three calls; when every guard holds, the purchase transaction is called once, last, with the user, balance id, inventory id and catalog item, and its error is the result; the transaction is never called otherwise |
| Service.SendCoins | internal/service/service_test.go:263-369 | a failed existence check returns its error, and an unknown recipient is InvalidRecipient, after one call; a failed balance read returns its error, and an amount above the sender's balance is NotEnoughCoins, after two calls; a failed recipient balance-id read returns its error after three calls; when every guard holds, the transfer transaction is called once, last, with both balance ids, and its error is the result; the transaction is never called otherwise |
| Password.Matches | internal/middleware/auth/auth.go:143-146 | a one-class regular-expression match holds exactly when some byte of the password belongs to the class |
| Password.Valid | internal/middleware/auth/auth.go:138-149 | a password passes exactly when it has at least 8 bytes and at least one upper-case letter, lower-case letter, digit and non-alphanumeric byte |
| Password.ValidByWitnesses | internal/middleware/auth/auth.go:138-149 | a password of 8 or more bytes with one byte of each class at given positions passes |
| Password.TestPasswordIsValid | internal/middleware/auth/auth_test.go:42 | "Test123@", the password the registration test uses, passes |
| Password.ShortPasswordIsInvalid | internal/middleware/auth/auth_test.go:79 | "short", the password the format test uses, fails |
| Password.ExamplePasswordIsValid | internal/middleware/auth/auth.go:138-149 | "11111!Aa", the password of an example first login, passes |
| AuthStore.Inserted | internal/middleware/auth/repo.go:35-67 | the three inserts append a balance of 1000 with a fresh positive id, a live user row holding that balance id, the name and the hash, with a fresh positive id, and an inventory row for that user with a fresh positive id, leaving every earlier row in place |
| AuthStore.CreateUserTX | internal/middleware/auth/repo.go:29-76 | it succeeds iff no step fails; a failure at any step returns id 0 and the store unchanged, with the begin error as it is or the insert and commit errors each wrapped with their own message; success appends a balance of 1000, a live user row holding that balance id, the name and the hash, and an inventory row for that user, all with fresh positive ids, and returns the user id |
| AuthStore.GetUserByUsername | internal/middleware/auth/repo.go:78-112 | a driver failure gives the zero user and a wrapped error; no live row of that name gives the zero user and no error; otherwise the user is built from a live row of that name |
| AuthStore.GetUserPassHashByUsername | internal/middleware/auth/repo.go:114-133 | it succeeds iff there is no fault and a live row has the name, and then returns that row's hash; a driver failure is the driver error wrapped with "GetUserPassHashByUsername failed", and a missing row the same wrapping of the no-rows error, each with an empty hash |
| AuthStore.NotFoundIsZeroId | internal/middleware/auth/repo.go:104-107 | in a well-formed store, the lookup's user id is 0 exactly when no live user has the name |
| AuthStore.LookupsIgnoreDeleted | internal/middleware/auth/repo.go:92 | both lookups answer the same when every soft-deleted row is removed from the table |
| AuthStore.LookupsAgree | internal/middleware/auth/repo.go:81-133 | for a name one live user holds, the lookup returns that user's id and the fetch returns that user's hash, so the two agree |
| AuthStore.CreateUserKeepsWellFormed | internal/middleware/auth/repo.go:29-76 | registration keeps ids positive and unique per table, every user's balance present and every inventory's user present |
| AuthStore.CreateUserKeepsNamesUnique | internal/middleware/auth/repo.go:44-58 | registering a name no live user holds keeps live usernames unique |
| AuthStore.CreatedUserIsFound | internal/middleware/auth/repo.go:29-112 | after a committed registration, a lookup of the name returns the new id, which is non-zero, and the hash fetch returns the hash given |
| Auth.Register | internal/middleware/auth/auth.go:86-100 | the password is hashed and a hash error returned as it is; otherwise the user is created with that hash, and a creation error is returned with the store unchanged; otherwise a token is signed for the new id, a signing error is returned, and a success carries the signed token; a user is created only here, only at the third step |
| Auth.LogIn | internal/middleware/auth/auth.go:103-116 | the store is unchanged and nothing is hashed or created; a failed hash fetch is returned as it is, with no token issued; a password not matching the stored hash is WrongPassword with no token; a matching one gets a token signed for the found id, or the signing error |
| Auth.LoginWithPass | internal/middleware/auth/auth.go:73-117 | a lookup error is returned at once; an unknown name (id 0) with a weak password is WrongPasswordFormat, with nothing hashed or created; an unknown name with a valid password takes the registration branch (Auth.Register), and a known name takes the login branch (Auth.LogIn) for the found id; registration happens only for an unknown name with a valid password, with its hash, and is the only way the store changes; a success carries the token signed for the created or the found id, and any error carries no token |
| Auth.LoginKeepsWellFormed | internal/middleware/auth/auth.go:79-93 | a login keeps the store well formed |
| Auth.LoginKeepsNamesUnique | internal/middleware/auth/auth.go:79-93 | a login never gives two live users the same name, because registration follows only a lookup that found nobody |
| Auth.SecondLoginDoesNotRegister | internal/middleware/auth/auth.go:73-117 | after a first login registered a name, including one that committed the user and then failed to sign its token, a second login with it changes nothing in the store, registers nothing, fetches the stored hash, and on a matching password gets a token for the same id |
| Auth.TokenNonEmpty | internal/middleware/auth/auth_test.go:137-139 | when signed tokens are non-empty, every successful login yields a non-empty token |
| Handler.AuthFailure | internal/handler/handler.go:47-57 | WrongPassword and WrongPasswordFormat, and only these, become 401 with their own code; anything else is 500 Login |
| Handler.BuyFailure | internal/handler/handler.go:105-116 | ItemDoesntExist and NotEnoughCoins, and only these, become 400 with their own code; anything else is 500 GetBuyItem |
| Handler.SendFailure | internal/handler/handler.go:151-162 | InvalidRecipient and NotEnoughCoins, and only these, become 400 with their own code; anything else is 500 GetBuyItem |
| Handler.HandleAuth | internal/handler/handler.go:31-61 | a malformed body is 500 UnmarshalResponse and an empty username or password is 400 InvalidAuthReqParams, both without a login; the login is called iff both credentials are non-empty, with those credentials; its token is a 200, and its error is mapped |
| Handler.HandleInfo | internal/handler/handler.go:65-84 | the service is called once with the caller's id and name; 200 with its info iff it succeeds, 500 GetInfo otherwise |
| Handler.HandleBuy | internal/handler/handler.go:86-119 | an empty item name is 400 with no call; otherwise the service is called once with the caller and the path's item name, and its error is mapped |
| Handler.HandleSendCoin | internal/handler/handler.go:121-165 | a malformed body is 500, an amount below 1 is 400 InvalidSendCoinsReqParams, and a transfer to oneself is 400 InvalidRecipientYourself, in that order and each with no call; otherwise the service gets the caller as sender and the body's recipient and amount, and its error is mapped |
| Handler.ClaimsOrZero | internal/handler/handler.go:185-200 | the principal a route continues with is the decoded one, or id 0 with an empty name |
| Handler.HandleInfoAsWritten | internal/handler/handler.go:68-76 | with a failed decode, the info route answers 500 and still calls the service |
| Handler.HandleInfoChecked | internal/handler/handler.go:68-76 | with the return restored, the service is called iff the principal decodes |
| Handler.HandleBuyAsWritten | internal/handler/handler.go:95-104 | past the item guard, a failed decode answers 500 and still calls the service for user 0 |
| Handler.HandleBuyChecked | internal/handler/handler.go:95-104 | with the return restored, the service is called iff the item name is non-empty and the principal decodes |
| Handler.HandleSendCoinAsWritten | internal/handler/handler.go:121-150 | a malformed body and an amount below 1 are answered before the principal is read, as on the plain route, with no call; past them, a failed decode answers 500 and goes on as user 0 with an empty name, so an empty recipient is stopped with no call and any other recipient reaches the service from user 0 |
| Handler.HandleSendCoinChecked | internal/handler/handler.go:121-150 | with the return restored, a malformed body and an amount below 1 are still answered first, as on the plain route; past them, a failed decode answers 500; a failed decode never calls the service |
| Handler.DecodeFailureReachesService | internal/handler/handler.go:68-71 | on each secured route, an undecodable principal reaches the service as user 0 in the code as written, and does not reach it once the return is restored |
| Scenarios.BuyOkMeansTransactionRan | internal/handler/handler.go:100-118 | a 200 from the purchase route means BuyItem was called once, made all four calls, the transaction succeeded, and the price did not exceed the balance |
| Scenarios.UnknownItemIsBadRequest | internal/service/service.go:125-127 | an item the catalog answers with id 0 is 400 ItemDoesntExist, after the catalog read alone |
| Scenarios.SelfTransferNeverReachesService | internal/handler/handler.go:140-143 | a transfer to oneself is 400 InvalidRecipientYourself and never calls the service |
| Scenarios.UnknownRecipientIsBadRequest | internal/service/service_test.go:301-315 | a transfer to a name that does not exist is 400 InvalidRecipient, after the existence check alone, so no transfer transaction |
| Scenarios.WeakFirstPasswordIsUnauthorized | internal/middleware/auth/auth.go:80-84 | a first login with a weak password is 401 WrongPasswordFormat and leaves the store unchanged |
| Scenarios.FirstLoginRegisters | internal/middleware/auth/auth.go:79-100 | a first login with a valid password, when hashing and signing succeed, adds one user with that name and one balance of 1000 that the user references |
| Scenarios.FirstLoginExample | internal/middleware/auth/repo.go:37 | "user1" with "11111!Aa" is registered with a balance of 1000 |
| Scenarios.InfoTestExample | internal/service/service_test.go:27-66 | with balance 200, one t-shirt row of count 15, and the two history rows of the test, the info is 200 coins, one t-shirt of quantity 15, one received transfer of 100 from user2 and one sent transfer of 50 to user2 |
| Scenarios.HistoryTestExample | internal/service/service_test.go:34-38 | the test's history, seen from user1, is one transfer received from user2 and one sent to user2 |
| Scenarios.BuyNotEnoughCoinsExample | internal/service/service_test.go:214-231 | a price of 1000 against a balance of 200 is NotEnoughCoins after the catalog and balance reads, before the inventory read or the transaction |

## Findings

| source | as written | input that shows it | evidently intended | confidence | as-written member | corrected member |
|---|---|---|---|---|---|---|
| internal/handler/handler.go:68-71, 95-98, 136-139 | when the principal cannot be decoded, the route writes 500 and carries on with the zero principal | a request to /api/info, to /api/buy/t-shirt, or to /api/sendCoin with recipient "user2" and amount 10, with no principal in the context: the service is called for user id 0 with an empty name | the route returns after writing the 500, and the service is not called | high; not executed | Handler.HandleInfoAsWritten, Handler.HandleBuyAsWritten, Handler.HandleSendCoinAsWritten, Handler.DecodeFailureReachesService | Handler.HandleInfoChecked, Handler.HandleBuyChecked, Handler.HandleSendCoinChecked, Handler.DecodeFailureReachesService |

## Left out

- The JWT verification middleware and `decodeCtxClaims` are left out. They rest on token parsing and request-context plumbing. The routes take the principal as already decoded, or as `Option<Claims>` in the claims-decoding variants.
- `generateJWT` is the `sign` field of `Auth.Crypto`. Wall-clock expiry and HMAC signing are foreign calls.
- `utils.PasswordHash` and `utils.PasswordCompare` are the `hash` and `matches` fields of `Auth.Crypto`. No property of them is assumed.
- The effects of `BuyItemTX` and `SendCoinsTX` (debits, credits, history rows, inventory upsert) are left out. Their code is not part of this model, so only the fact and arguments of each call are stated.
- The service repository's SQL is left out. That repository is not part of this model, so each query is an arbitrary reply.
- Concurrency, row locking, and the duplicate-registration race are left out. The model is sequential.
- Service.SendCoins: service.go holds no `SendCoins`. Its order of calls and its checks are taken from its tests: existence check, sender balance, funds check, recipient balance id, then the transaction. The tests only require that an error is returned. The two codes are inferred from the codes the transfer route maps to 400 (internal/handler/handler.go:152-156): `InvalidRecipient` for an unknown recipient and `NotEnoughCoins` for an amount above the balance. That a failed existence check, balance read or balance-id read returns its own error unchanged is assumed, following `BuyItem`.
- AuthStore.GetUserByUsername: when several live rows share a name, the model answers with the first in table order. SQL leaves the choice unspecified.
- AuthStore.CreateUserTX: a failed transaction does not consume ids in the model, although a Postgres sequence does. A failed rollback is only logged, so it has no effect here.
- `Auth.LoginWithPass` calls the repository's `CreateUser`; it is modelled as `AuthStore.CreateUserTX`, the only registration operation the repository has.
- The model does not distinguish Go's nil slice from an empty slice, and leaves out JSON encoding, `sendResponse` and HTTP I/O. A route's response is its first status and error code; later writes to the body are not modelled.
- Go `int64` values are modelled as unbounded integers. The only arithmetic in the core is the subtraction of a price or an amount from a balance. For the non-negative values a database holds, it cannot overflow.
- The error-code strings are left symbolic. Most of them are missing from pkg/errors/errors.go, so the routes' comparisons are modelled as comparisons of codes. The model assumes no driver message spells a code.
- Startup, configuration, migrations, the mocks and the commented-out API tests are left out. They hold no logic of the core.
