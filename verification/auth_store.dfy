/** The authentication repository (internal/middleware/auth/repo.go) as transitions of an
    in-memory store.

    Tables are sequences of rows in insertion order. A new row's id is one more than the
    largest id in its table, so ids are positive and fresh, as a serial column's are. A
    failure of the database at a given step is an explicit parameter: `Option<string>` for
    a read (the driver's message), `TxFault` for the registration transaction. A rolled
    back transaction leaves the store exactly as it was. */
module AuthStore {
  import opened Errors

  /** The amount every new balance row is created with. */
  const StartingBalance: int := 1000

  datatype BalanceRow = BalanceRow(id: int, amount: int)

  /** A user row; `deletedAt` is the soft-delete timestamp, `None` while the user is live. */
  datatype UserRow = UserRow(id: int, balanceId: int, username: string, passwordHash: string, deletedAt: Option<int>)

  datatype InventoryRow = InventoryRow(id: int, userId: int)

  datatype Db = Db(balances: seq<BalanceRow>, users: seq<UserRow>, inventories: seq<InventoryRow>)

  /** The user value GetUserByUsername hands back. `inventoryId` is never selected. */
  datatype User = User(id: int, balanceId: int, inventoryId: Option<int>, username: string, passwordHash: string)

  /** The zero user, GetUserByUsername's answer for "no such user". */
  const NoUser: User := User(0, 0, None, "", "")

  /** Where the registration transaction fails, if it does, with the driver's message. */
  datatype TxFault =
    | NoFault
    | BeginFails(message: string)
    | BalanceInsertFails(message: string)
    | UserInsertFails(message: string)
    | InventoryInsertFails(message: string)
    | CommitFails(message: string)

  /** CreateUserTX's `(int64, error)` result and the store after it. */
  datatype Created = Created(id: int, err: Option<Error>, db: Db)

  /** GetUserByUsername's `(*User, error)` result. */
  datatype Lookup = Lookup(user: User, err: Option<Error>)

  /** GetUserPassHashByUsername's `(string, error)` result. */
  datatype PassHash = PassHash(hash: string, err: Option<Error>)

  predicate Live(u: UserRow)
  {
    u.deletedAt.None?
  }

  /** Some live user row carries `username`. */
  ghost predicate HasLiveNamed(users: seq<UserRow>, username: string)
  {
    exists i :: 0 <= i < |users| && Live(users[i]) && users[i].username == username
  }

  /** No two live user rows share a username. */
  ghost predicate UniqueLiveNames(db: Db)
  {
    forall i, j :: 0 <= i < j < |db.users| && Live(db.users[i]) && Live(db.users[j]) ==>
      db.users[i].username != db.users[j].username
  }

  ghost predicate BalanceExists(db: Db, id: int)
  {
    exists k :: 0 <= k < |db.balances| && db.balances[k].id == id
  }

  ghost predicate UserExists(db: Db, id: int)
  {
    exists k :: 0 <= k < |db.users| && db.users[k].id == id
  }

  ghost predicate BalancesWellFormed(balances: seq<BalanceRow>)
  {
    && (forall i :: 0 <= i < |balances| ==> balances[i].id > 0 && balances[i].amount >= 0)
    && (forall i, j :: 0 <= i < j < |balances| ==> balances[i].id != balances[j].id)
  }

  ghost predicate UsersWellFormed(db: Db)
  {
    && (forall i :: 0 <= i < |db.users| ==> db.users[i].id > 0 && BalanceExists(db, db.users[i].balanceId))
    && (forall i, j :: 0 <= i < j < |db.users| ==> db.users[i].id != db.users[j].id)
  }

  ghost predicate InventoriesWellFormed(db: Db)
  {
    && (forall i :: 0 <= i < |db.inventories| ==> db.inventories[i].id > 0 && UserExists(db, db.inventories[i].userId))
    && (forall i, j :: 0 <= i < j < |db.inventories| ==> db.inventories[i].id != db.inventories[j].id)
  }

  /** Positive, distinct ids in every table; amounts not negative; every user row names an
      existing balance and every inventory row an existing user. */
  ghost predicate WellFormed(db: Db)
  {
    BalancesWellFormed(db.balances) && UsersWellFormed(db) && InventoriesWellFormed(db)
  }

  /** An upper bound of a list of ids, at least 0. */
  function MaxId(ids: seq<int>): (m: nat)
    ensures forall i :: 0 <= i < |ids| ==> ids[i] <= m
  {
    if ids == [] then 0
    else
      var rest := MaxId(ids[1..]);
      if ids[0] > rest then ids[0] else rest
  }

  function NextBalanceId(db: Db): (id: int)
    ensures id > 0 && forall i :: 0 <= i < |db.balances| ==> db.balances[i].id < id
  {
    var ids := seq(|db.balances|, i requires 0 <= i < |db.balances| => db.balances[i].id);
    assert forall i :: 0 <= i < |db.balances| ==> db.balances[i].id == ids[i];
    MaxId(ids) + 1
  }

  function NextUserId(db: Db): (id: int)
    ensures id > 0 && forall i :: 0 <= i < |db.users| ==> db.users[i].id < id
  {
    var ids := seq(|db.users|, i requires 0 <= i < |db.users| => db.users[i].id);
    assert forall i :: 0 <= i < |db.users| ==> db.users[i].id == ids[i];
    MaxId(ids) + 1
  }

  function NextInventoryId(db: Db): (id: int)
    ensures id > 0 && forall i :: 0 <= i < |db.inventories| ==> db.inventories[i].id < id
  {
    var ids := seq(|db.inventories|, i requires 0 <= i < |db.inventories| => db.inventories[i].id);
    assert forall i :: 0 <= i < |db.inventories| ==> db.inventories[i].id == ids[i];
    MaxId(ids) + 1
  }

  /** The three inserts of a committed registration: the balance row (seeded with the
      starting amount), the user row that references it, and the inventory row that
      references the user. */
  function Inserted(db: Db, username: string, passwordHash: string): (r: Created)
    ensures r.err.None? && r.id > 0
    ensures forall i :: 0 <= i < |db.users| ==> db.users[i].id != r.id
    ensures |r.db.balances| == |db.balances| + 1
    ensures r.db.balances[..|db.balances|] == db.balances
    ensures r.db.balances[|db.balances|].amount == StartingBalance
    ensures r.db.balances[|db.balances|].id > 0
    ensures forall i :: 0 <= i < |db.balances| ==> db.balances[i].id != r.db.balances[|db.balances|].id
    ensures r.db.users == db.users + [UserRow(r.id, r.db.balances[|db.balances|].id, username, passwordHash, None)]
    ensures |r.db.inventories| == |db.inventories| + 1
    ensures r.db.inventories[..|db.inventories|] == db.inventories
    ensures r.db.inventories[|db.inventories|].userId == r.id
    ensures r.db.inventories[|db.inventories|].id > 0
    ensures forall i :: 0 <= i < |db.inventories| ==> db.inventories[i].id != r.db.inventories[|db.inventories|].id
  {
    var balanceId := NextBalanceId(db);
    var tx := db.(balances := db.balances + [BalanceRow(balanceId, StartingBalance)]);
    var userId := NextUserId(tx);
    var tx := tx.(users := tx.users + [UserRow(userId, balanceId, username, passwordHash, None)]);
    var inventoryId := NextInventoryId(tx);
    var tx := tx.(inventories := tx.inventories + [InventoryRow(inventoryId, userId)]);
    assert tx.balances[..|db.balances|] == db.balances;
    assert tx.inventories[..|db.inventories|] == db.inventories;
    Created(userId, None, tx)
  }

  /** CreateUserTX: begin, the three inserts, commit. A failure at any step rolls the
      whole transaction back, so the store is as it was and the result is `(0, error)`,
      the error naming the step that failed. */
  function CreateUserTX(db: Db, fault: TxFault, username: string, passwordHash: string): (r: Created)
    ensures r.err.None? <==> fault.NoFault?
    ensures r.err.Some? ==> r.id == 0 && r.db == db
    ensures fault.BeginFails? ==> r.err == Some(Driver(fault.message))
    ensures fault.BalanceInsertFails? ==>
              r.err == Some(Wrapped("failed to create balance CreateUserTX", Driver(fault.message)))
    ensures fault.UserInsertFails? ==>
              r.err == Some(Wrapped("failed to create user CreateUserTX", Driver(fault.message)))
    ensures fault.InventoryInsertFails? ==>
              r.err == Some(Wrapped("failed to create inventory CreateUserTX", Driver(fault.message)))
    ensures fault.CommitFails? ==>
              r.err == Some(Wrapped("failed to commit transaction CreateUserTX", Driver(fault.message)))
    ensures r.err.None? ==>
              && r.id > 0
              && (forall i :: 0 <= i < |db.users| ==> db.users[i].id != r.id)
              && |r.db.balances| == |db.balances| + 1
              && r.db.balances[..|db.balances|] == db.balances
              && r.db.balances[|db.balances|].amount == StartingBalance
              && r.db.balances[|db.balances|].id > 0
              && (forall i :: 0 <= i < |db.balances| ==> db.balances[i].id != r.db.balances[|db.balances|].id)
              && r.db.users == db.users + [UserRow(r.id, r.db.balances[|db.balances|].id, username, passwordHash, None)]
              && |r.db.inventories| == |db.inventories| + 1
              && r.db.inventories[..|db.inventories|] == db.inventories
              && r.db.inventories[|db.inventories|].userId == r.id
              && r.db.inventories[|db.inventories|].id > 0
              && (forall i :: 0 <= i < |db.inventories| ==> db.inventories[i].id != r.db.inventories[|db.inventories|].id)
  {
    match fault
    case NoFault => Inserted(db, username, passwordHash)
    case BeginFails(message) => Created(0, Some(Driver(message)), db)
    case BalanceInsertFails(message) =>
      Created(0, Some(Wrapped("failed to create balance CreateUserTX", Driver(message))), db)
    case UserInsertFails(message) =>
      Created(0, Some(Wrapped("failed to create user CreateUserTX", Driver(message))), db)
    case InventoryInsertFails(message) =>
      Created(0, Some(Wrapped("failed to create inventory CreateUserTX", Driver(message))), db)
    case CommitFails(message) =>
      Created(0, Some(Wrapped("failed to commit transaction CreateUserTX", Driver(message))), db)
  }

  /** The first live row named `username`, as the lookup query's single result row. */
  function FirstLiveNamed(users: seq<UserRow>, username: string): (r: Option<UserRow>)
    ensures r.None? <==> !HasLiveNamed(users, username)
    ensures r.Some? ==> r.value in users && Live(r.value) && r.value.username == username
    decreases |users|
  {
    if users == [] then None
    else if Live(users[0]) && users[0].username == username then Some(users[0])
    else
      var r := FirstLiveNamed(users[1..], username);
      assert HasLiveNamed(users, username) ==> HasLiveNamed(users[1..], username) by {
        if HasLiveNamed(users, username) {
          var i :| 0 <= i < |users| && Live(users[i]) && users[i].username == username;
          assert users[1..][i - 1] == users[i];
        }
      }
      assert HasLiveNamed(users[1..], username) ==> HasLiveNamed(users, username) by {
        if HasLiveNamed(users[1..], username) {
          var i :| 0 <= i < |users[1..]| && Live(users[1..][i]) && users[1..][i].username == username;
          assert users[i + 1] == users[1..][i];
        }
      }
      r
  }

  function ToUser(row: UserRow): User
  {
    User(row.id, row.balanceId, None, row.username, row.passwordHash)
  }

  /** GetUserByUsername: a missing live row is not an error but the zero user; any other
      failure is wrapped and returned with the zero user. */
  function GetUserByUsername(db: Db, fault: Option<string>, username: string): (r: Lookup)
    ensures fault.Some? ==> r == Lookup(NoUser, Some(Wrapped("GetUserByUsername failed", Driver(fault.value))))
    ensures fault.None? ==> r.err.None?
    ensures fault.None? && !HasLiveNamed(db.users, username) ==> r.user == NoUser
    ensures fault.None? && HasLiveNamed(db.users, username) ==>
              exists i :: 0 <= i < |db.users| && Live(db.users[i]) && db.users[i].username == username
                          && r.user == ToUser(db.users[i])
  {
    if fault.Some? then Lookup(NoUser, Some(Wrapped("GetUserByUsername failed", Driver(fault.value))))
    else
      var row := FirstLiveNamed(db.users, username);
      if row.None? then Lookup(NoUser, None) else Lookup(ToUser(row.value), None)
  }

  /** GetUserPassHashByUsername: a missing live row is an error, never an empty hash. */
  function GetUserPassHashByUsername(db: Db, fault: Option<string>, username: string): (r: PassHash)
    ensures r.err.None? <==> fault.None? && HasLiveNamed(db.users, username)
    ensures r.err.Some? ==> r.hash == ""
    ensures fault.Some? ==> r == PassHash("", Some(Wrapped("GetUserPassHashByUsername failed", Driver(fault.value))))
    ensures fault.None? && !HasLiveNamed(db.users, username) ==>
              r.err == Some(Wrapped("GetUserPassHashByUsername failed", ErrNoRows))
    ensures r.err.None? ==>
              exists i :: 0 <= i < |db.users| && Live(db.users[i]) && db.users[i].username == username
                          && r.hash == db.users[i].passwordHash
  {
    if fault.Some? then PassHash("", Some(Wrapped("GetUserPassHashByUsername failed", Driver(fault.value))))
    else
      var row := FirstLiveNamed(db.users, username);
      if row.None? then PassHash("", Some(Wrapped("GetUserPassHashByUsername failed", ErrNoRows)))
      else PassHash(row.value.passwordHash, None)
  }

  /** In a well-formed store "not found" and "id 0" coincide. */
  lemma NotFoundIsZeroId(db: Db, username: string)
    requires WellFormed(db)
    ensures GetUserByUsername(db, None, username).user.id == 0 <==> !HasLiveNamed(db.users, username)
  {
  }

  /** The live rows of a table, in order. */
  function LiveRows(users: seq<UserRow>): (live: seq<UserRow>)
    ensures forall i :: 0 <= i < |live| ==> Live(live[i])
    ensures |live| <= |users|
  {
    if users == [] then []
    else (if Live(users[0]) then [users[0]] else []) + LiveRows(users[1..])
  }

  /** Both lookups answer as if soft-deleted rows were not in the table. */
  lemma {:induction false} LookupsIgnoreDeleted(db: Db, fault: Option<string>, hashFault: Option<string>, username: string)
    ensures GetUserByUsername(db, fault, username) == GetUserByUsername(db.(users := LiveRows(db.users)), fault, username)
    ensures GetUserPassHashByUsername(db, hashFault, username)
            == GetUserPassHashByUsername(db.(users := LiveRows(db.users)), hashFault, username)
  {
    FirstLiveNamedOfLiveRows(db.users, username);
  }

  lemma {:induction false} FirstLiveNamedOfLiveRows(users: seq<UserRow>, username: string)
    ensures FirstLiveNamed(users, username) == FirstLiveNamed(LiveRows(users), username)
    decreases |users|
  {
    if users != [] {
      FirstLiveNamedOfLiveRows(users[1..], username);
      if Live(users[0]) {
        assert LiveRows(users) == [users[0]] + LiveRows(users[1..]);
        assert LiveRows(users)[1..] == LiveRows(users[1..]);
      } else {
        assert LiveRows(users) == LiveRows(users[1..]);
      }
    }
  }

  /** Without faults, and with a name that one live user holds, both lookups read that
      user's row: the hash fetched for a found user is that user's hash. Neither query
      orders its rows, so for a name two live rows share the two could disagree. */
  lemma LookupsAgree(db: Db, username: string)
    requires UniqueLiveNames(db) && HasLiveNamed(db.users, username)
    ensures GetUserPassHashByUsername(db, None, username).hash == GetUserByUsername(db, None, username).user.passwordHash
    ensures GetUserByUsername(db, None, username).user.username == username
    ensures forall i :: 0 <= i < |db.users| && Live(db.users[i]) && db.users[i].username == username ==>
              && GetUserByUsername(db, None, username).user.id == db.users[i].id
              && GetUserPassHashByUsername(db, None, username).hash == db.users[i].passwordHash
  {
  }

  lemma AppendBalanceKeepsWellFormed(balances: seq<BalanceRow>, b: BalanceRow)
    requires BalancesWellFormed(balances)
    requires b.id > 0 && b.amount >= 0 && forall i :: 0 <= i < |balances| ==> balances[i].id != b.id
    ensures BalancesWellFormed(balances + [b])
  {
  }

  lemma AppendUserKeepsWellFormed(db: Db, b: BalanceRow, u: UserRow)
    requires UsersWellFormed(db)
    requires u.id > 0 && u.balanceId == b.id && forall i :: 0 <= i < |db.users| ==> db.users[i].id != u.id
    ensures UsersWellFormed(Db(db.balances + [b], db.users + [u], db.inventories))
  {
    var db' := Db(db.balances + [b], db.users + [u], db.inventories);
    assert db'.balances[|db.balances|] == b;
    forall i | 0 <= i < |db'.users|
      ensures BalanceExists(db', db'.users[i].balanceId)
    {
      if i < |db.users| {
        assert BalanceExists(db, db.users[i].balanceId);
        var k :| 0 <= k < |db.balances| && db.balances[k].id == db.users[i].balanceId;
        assert db'.balances[k] == db.balances[k];
      }
    }
  }

  lemma AppendInventoryKeepsWellFormed(db: Db, b: BalanceRow, u: UserRow, inv: InventoryRow)
    requires InventoriesWellFormed(db)
    requires inv.id > 0 && inv.userId == u.id
    requires forall i :: 0 <= i < |db.inventories| ==> db.inventories[i].id != inv.id
    ensures InventoriesWellFormed(Db(db.balances + [b], db.users + [u], db.inventories + [inv]))
  {
    var db' := Db(db.balances + [b], db.users + [u], db.inventories + [inv]);
    assert db'.users[|db.users|] == u;
    forall i | 0 <= i < |db'.inventories|
      ensures UserExists(db', db'.inventories[i].userId)
    {
      if i < |db.inventories| {
        assert UserExists(db, db.inventories[i].userId);
        var k :| 0 <= k < |db.users| && db.users[k].id == db.inventories[i].userId;
        assert db'.users[k] == db.users[k];
      }
    }
  }

  /** Registration keeps the store well formed. */
  lemma CreateUserKeepsWellFormed(db: Db, fault: TxFault, username: string, passwordHash: string)
    requires WellFormed(db)
    ensures WellFormed(CreateUserTX(db, fault, username, passwordHash).db)
  {
    var r := CreateUserTX(db, fault, username, passwordHash);
    if r.err.None? {
      var b, u, inv := r.db.balances[|db.balances|], r.db.users[|db.users|], r.db.inventories[|db.inventories|];
      assert r.db.balances == db.balances + [b];
      assert r.db.users == db.users + [u];
      assert r.db.inventories == db.inventories + [inv];
      AppendBalanceKeepsWellFormed(db.balances, b);
      AppendUserKeepsWellFormed(db, b, u);
      AppendInventoryKeepsWellFormed(db, b, u, inv);
      assert r.db == Db(db.balances + [b], db.users + [u], db.inventories + [inv]);
    }
  }

  /** Registering a name that has no live user keeps live usernames unique. */
  lemma CreateUserKeepsNamesUnique(db: Db, fault: TxFault, username: string, passwordHash: string)
    requires UniqueLiveNames(db) && !HasLiveNamed(db.users, username)
    ensures UniqueLiveNames(CreateUserTX(db, fault, username, passwordHash).db)
  {
  }

  /** A committed registration is what the next lookup of that name finds: its id, and the
      hash it was given. */
  lemma CreatedUserIsFound(db: Db, fault: TxFault, username: string, passwordHash: string)
    requires !HasLiveNamed(db.users, username)
    requires CreateUserTX(db, fault, username, passwordHash).err.None?
    ensures var r := CreateUserTX(db, fault, username, passwordHash);
            && GetUserByUsername(r.db, None, username).user.id == r.id
            && GetUserByUsername(r.db, None, username).user.id != 0
            && GetUserPassHashByUsername(r.db, None, username) == PassHash(passwordHash, None)
  {
    var r := CreateUserTX(db, fault, username, passwordHash);
    FirstLiveNamedAfterAppend(db.users, r.db.users[|db.users|], username);
  }

  /** Looking a name up after appending a live row of that name, when no earlier live row
      has it, finds the appended row. */
  lemma {:induction false} FirstLiveNamedAfterAppend(users: seq<UserRow>, row: UserRow, username: string)
    requires !HasLiveNamed(users, username) && Live(row) && row.username == username
    ensures FirstLiveNamed(users + [row], username) == Some(row)
    decreases |users|
  {
    if users == [] {
      assert users + [row] == [row];
    } else {
      assert (users + [row])[1..] == users[1..] + [row];
      assert !(Live(users[0]) && users[0].username == username);
      FirstLiveNamedAfterAppend(users[1..], row, username);
    }
  }
}
