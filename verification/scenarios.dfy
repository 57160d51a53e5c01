/** End-to-end properties: a route wired to the operation below it, the concrete
    situations the repository's tests describe, and an example first login. */
module Scenarios {
  import opened Errors
  import opened Models
  import Service
  import Views
  import Handler
  import Auth
  import AuthStore
  import Password

  /** The purchase route wired to BuyItem over a repository. */
  function BuyEndpoint(repo: Service.Repository): ItemQuery -> Option<Error>
  {
    q => Service.BuyItem(repo, q).err
  }

  /** The transfer route wired to SendCoins over a repository. */
  function SendEndpoint(repo: Service.Repository): CoinsQuery -> Option<Error>
  {
    q => Service.SendCoins(repo, q).err
  }

  /** The login route wired to LoginWithPass over a store. */
  function LoginEndpoint(db: AuthStore.Db, crypto: Auth.Crypto, faults: Auth.Faults): AuthQuery -> (AuthDTO, Option<Error>)
  {
    (q: AuthQuery) =>
      var r := Auth.LoginWithPass(db, crypto, faults, q.username, q.password); (r.dto, r.err)
  }

  /** A purchase answered 200 is one whose guards all passed and whose transaction was
      called exactly once, last, and reported no error. */
  lemma BuyOkMeansTransactionRan(repo: Service.Repository, path: string, claims: Handler.Claims)
    requires Handler.BuyPrefix <= path
    ensures var h := Handler.HandleBuy(path, claims, BuyEndpoint(repo));
            h.response.status == Handler.StatusOK ==>
              && |h.calls| == 1
              && var run := Service.BuyItem(repo, h.calls[0]);
                 && |run.calls| == 4 && run.calls[3].BuyItemTX?
                 && repo.buyItemTx(run.calls[3].buy).None?
                 && run.calls[3].buy.price <= repo.balance(claims.userId).value.amount
  {
    var h := Handler.HandleBuy(path, claims, BuyEndpoint(repo));
    if h.response.status == Handler.StatusOK {
      var run := Service.BuyItem(repo, h.calls[0]);
      assert run.err.None?;
    }
  }

  /** An item the catalog does not know (id 0) is answered 400 with its code, and no
      balance is read. */
  lemma UnknownItemIsBadRequest(repo: Service.Repository, path: string, claims: Handler.Claims)
    requires Handler.BuyPrefix <= path && path != Handler.BuyPrefix
    requires repo.merchByName(path[|Handler.BuyPrefix|..]).Ok?
    requires repo.merchByName(path[|Handler.BuyPrefix|..]).value.id == 0
    ensures Handler.HandleBuy(path, claims, BuyEndpoint(repo)).response
            == Handler.Response(Handler.StatusBadRequest, Handler.ErrorText(ItemDoesntExist))
    ensures Service.BuyItem(repo, ItemQuery(claims.userId, claims.username, path[|Handler.BuyPrefix|..])).calls
            == [Service.GetMerchByName(path[|Handler.BuyPrefix|..])]
  {
  }

  /** A transfer to oneself is answered 400 and never reaches the service, whatever the
      service would do. */
  lemma SelfTransferNeverReachesService(send: CoinsQuery -> Option<Error>, claims: Handler.Claims, amount: int)
    requires amount >= 1
    ensures Handler.HandleSendCoin(Some(Handler.SendCoinsReqBody(claims.username, amount)), claims, send)
            == Handler.Handled(Handler.Response(Handler.StatusBadRequest, Handler.ErrorText(InvalidRecipientYourself)), [])
  {
  }

  /** A transfer to a name that does not exist is answered 400 with its code, and the
      transfer transaction is never called. */
  lemma UnknownRecipientIsBadRequest(repo: Service.Repository, claims: Handler.Claims, body: Handler.SendCoinsReqBody)
    requires body.amount >= 1 && body.recipient != claims.username
    requires repo.userExists(body.recipient) == Ok(false)
    ensures Handler.HandleSendCoin(Some(body), claims, SendEndpoint(repo)).response
            == Handler.Response(Handler.StatusBadRequest, Handler.ErrorText(InvalidRecipient))
    ensures Service.SendCoins(repo, CoinsQuery(claims.userId, body.amount, claims.username, body.recipient)).calls
            == [Service.IsUserExist(body.recipient)]
  {
  }

  /** A first login with a password that fails the rule is answered 401 with its code, and
      the store is left as it was. */
  lemma WeakFirstPasswordIsUnauthorized(db: AuthStore.Db, crypto: Auth.Crypto, body: Handler.AuthReqBody)
    requires !AuthStore.HasLiveNamed(db.users, body.username)
    requires body.username != "" && body.password != [] && !Password.Valid(body.password)
    ensures Handler.HandleAuth(Some(body), LoginEndpoint(db, crypto, Auth.NoFaults)).response
            == Handler.Response(Handler.StatusUnauthorized, Handler.ErrorText(WrongPasswordFormat))
    ensures Auth.LoginWithPass(db, crypto, Auth.NoFaults, body.username, body.password).db == db
  {
  }

  /** A first login of an unknown name with a valid password, on a healthy store with
      hashing and signing succeeding, registers the user with the starting balance. */
  lemma FirstLoginRegisters(db: AuthStore.Db, crypto: Auth.Crypto, username: string, password: Bytes)
    requires !AuthStore.HasLiveNamed(db.users, username) && Password.Valid(password)
    requires crypto.hash(password).Ok?
    requires forall id :: crypto.sign(id).Ok?
    ensures var r := Auth.LoginWithPass(db, crypto, Auth.NoFaults, username, password);
            && r.err.None?
            && |r.db.users| == |db.users| + 1
            && r.db.users[|db.users|].username == username
            && |r.db.balances| == |db.balances| + 1
            && r.db.balances[|db.balances|].amount == AuthStore.StartingBalance
            && r.db.users[|db.users|].balanceId == r.db.balances[|db.balances|].id
  {
    var hash := crypto.hash(password).value;
    assert AuthStore.GetUserByUsername(db, None, username).user.id == 0;
    var created := AuthStore.CreateUserTX(db, AuthStore.NoFault, username, hash);
    assert created.err.None?;
    var r := Auth.LoginWithPass(db, crypto, Auth.NoFaults, username, password);
    assert r.db == created.db;
  }

  /** An example first login: "user1" with password "11111!Aa" is registered with a
      balance of 1000. */
  lemma FirstLoginExample(db: AuthStore.Db, crypto: Auth.Crypto)
    requires !AuthStore.HasLiveNamed(db.users, "user1")
    requires crypto.hash(Password.ExamplePassword).Ok?
    requires forall id :: crypto.sign(id).Ok?
    ensures var r := Auth.LoginWithPass(db, crypto, Auth.NoFaults, "user1", Password.ExamplePassword);
            && r.err.None?
            && |r.db.users| == |db.users| + 1 && r.db.users[|db.users|].username == "user1"
            && |r.db.balances| == |db.balances| + 1 && r.db.balances[|db.balances|].amount == 1000
  {
    Password.ExamplePasswordIsValid();
    FirstLoginRegisters(db, crypto, "user1", Password.ExamplePassword);
  }

  /** The repository replies of the successful GetUserInfo test. */
  function InfoTestRepo(): Service.Repository
  {
    Service.Repository(
      _ => Ok(200),
      _ => Ok([HistoryRow(0, 0, 100, "user2", "user1"), HistoryRow(0, 0, 50, "user1", "user2")]),
      _ => Ok([InventoryMerch(1, 201, "t-shirt", 15)]),
      _ => Err(Driver("not called")),
      _ => Err(Driver("not called")),
      _ => Err(Driver("not called")),
      _ => Some(Driver("not called")),
      _ => Err(Driver("not called")),
      _ => Err(Driver("not called")),
      _ => Some(Driver("not called")))
  }

  /** The successful GetUserInfo test: coins 200, one t-shirt, one received and one sent
      transfer. */
  lemma InfoTestExample()
    ensures Service.GetUserInfo(InfoTestRepo(), InfoQuery(0, "user1"))
            == Service.InfoRun(
                 InfoDTO(200, [MerchDTO("t-shirt", 15)],
                         CoinsHistory([ReceivedDTO("user2", 100)], [SentDTO("user2", 50)])),
                 None, Service.InfoReads(0))
  {
    var repo := InfoTestRepo();
    var rows := repo.balanceHistory(0).value;
    assert repo.balanceAmount(0) == Ok(200);
    assert repo.inventoryMerch(0).value == [InventoryMerch(1, 201, "t-shirt", 15)];
    HistoryTestExample(rows);
    var r := Service.GetUserInfo(repo, InfoQuery(0, "user1"));
    assert r.info.inventory == [MerchDTO("t-shirt", 15)];
  }

  /** The history of the GetUserInfo test, seen from "user1": one transfer received from
      "user2", one sent to "user2". */
  lemma HistoryTestExample(rows: seq<HistoryRow>)
    requires rows == [HistoryRow(0, 0, 100, "user2", "user1"), HistoryRow(0, 0, 50, "user1", "user2")]
    ensures Views.ReceivedOf(rows, "user1") == [ReceivedDTO("user2", 100)]
    ensures Views.SentOf(rows, "user1") == [SentDTO("user2", 50)]
  {
    var tail := rows[1..];
    assert tail[1..] == [];
    assert tail[0].recipient != "user1" by { assert tail[0].recipient[4] != "user1"[4]; }
    assert Views.ReceivedOf(tail, "user1") == [];
    assert Views.SentOf(tail, "user1") == [SentDTO("user2", 50)];
  }

  /** The not-enough-coins BuyItem test: a price of 1000 against a balance of 200 fails
      before the inventory is read or the transaction called. */
  lemma BuyNotEnoughCoinsExample(repo: Service.Repository)
    requires repo.merchByName("t-shirt") == Ok(Merch(1, "t-shirt", 1000, 0))
    requires repo.balance(1) == Ok(Balance(1, 200))
    ensures Service.BuyItem(repo, ItemQuery(1, "user1", "t-shirt"))
            == Service.Outcome(Some(Coded(NotEnoughCoins)), [Service.GetMerchByName("t-shirt"), Service.GetBalanceByUserID(1)])
  {
  }
}
