/** The login-or-register decision (`LoginWithPass` in internal/middleware/auth/auth.go)
    run against the authentication store.

    Password hashing, hash comparison and token signing are foreign calls; they are the
    fields of a `Crypto` record the caller supplies, with no property assumed of them.
    Every run records the steps it took, so that "nothing is hashed", "no user is
    created" and "no token is issued" are statements about that record. */
module Auth {
  import opened Errors
  import opened Models
  import opened AuthStore
  import Password

  /** utils.PasswordHash, utils.PasswordCompare (true when it returns nil) and generateJWT. */
  datatype Crypto = Crypto(
    hash: Bytes -> Result<string>,
    matches: (Bytes, string) -> bool,
    sign: int -> Result<string>)

  /** Which repository calls fail, and how. */
  datatype Faults = Faults(lookup: Option<string>, passHash: Option<string>, create: TxFault)

  const NoFaults: Faults := Faults(None, None, NoFault)

  /** One step of a login: a repository call or a foreign call. */
  datatype Step =
    | LookupUser(username: string)
    | HashPassword(password: Bytes)
    | CreateUser(username: string, passwordHash: string)
    | FetchPassHash(username: string)
    | ComparePassword(password: Bytes, passwordHash: string)
    | IssueToken(userId: int)

  /** The Go `(AuthDTO, error)` pair, the store afterwards and the steps taken. */
  datatype LoginRun = LoginRun(dto: AuthDTO, err: Option<Error>, db: Db, steps: seq<Step>)

  predicate Creates(steps: seq<Step>)
  {
    exists i :: 0 <= i < |steps| && steps[i].CreateUser?
  }

  predicate Hashes(steps: seq<Step>)
  {
    exists i :: 0 <= i < |steps| && steps[i].HashPassword?
  }

  predicate Issues(steps: seq<Step>)
  {
    exists i :: 0 <= i < |steps| && steps[i].IssueToken?
  }

  /** The registration branch of LoginWithPass, taken for an unknown name whose password
      passed the rule: hash the password, create the user with that hash, sign a token
      for the new id. Each failure is returned as it is. */
  function Register(db: Db, crypto: Crypto, create: TxFault, username: string, password: Bytes): (r: LoginRun)
    ensures r.err.Some? ==> r.dto == NoToken
    ensures |r.steps| >= 2 && r.steps[..2] == [LookupUser(username), HashPassword(password)]
    ensures crypto.hash(password).Err? ==>
              r == LoginRun(NoToken, Some(crypto.hash(password).error), db, [LookupUser(username), HashPassword(password)])
    ensures crypto.hash(password).Ok? ==>
              var created := CreateUserTX(db, create, username, crypto.hash(password).value);
              && |r.steps| >= 3
              && r.steps[..3] == [LookupUser(username), HashPassword(password), CreateUser(username, crypto.hash(password).value)]
              && r.db == created.db
              && (created.err.Some? ==> r.err == created.err && |r.steps| == 3)
              && (created.err.None? ==>
                    && r.steps == r.steps[..3] + [IssueToken(created.id)]
                    && (crypto.sign(created.id).Err? ==> r.err == Some(crypto.sign(created.id).error))
                    && (crypto.sign(created.id).Ok? ==> r.err.None? && r.dto == AuthDTO(crypto.sign(created.id).value)))
    ensures forall i :: 0 <= i < |r.steps| && r.steps[i].CreateUser? ==>
              && i == 2
              && crypto.hash(password).Ok?
              && r.steps[i] == CreateUser(username, crypto.hash(password).value)
              && (r.err.None? ==> CreateUserTX(db, create, username, crypto.hash(password).value).err.None?)
    ensures r.db == db || (Creates(r.steps) && r.db == CreateUserTX(db, create, username, crypto.hash(password).value).db)
    ensures r.err.None? ==>
              && Creates(r.steps)
              && r.steps[|r.steps| - 1] == IssueToken(CreateUserTX(db, create, username, crypto.hash(password).value).id)
              && crypto.sign(r.steps[|r.steps| - 1].userId) == Ok(r.dto.token)
  {
    var hash := crypto.hash(password);
    var s2 := [LookupUser(username), HashPassword(password)];
    if hash.Err? then LoginRun(NoToken, Some(hash.error), db, s2)
    else
      var created := CreateUserTX(db, create, username, hash.value);
      var s3 := s2 + [CreateUser(username, hash.value)];
      assert s3[2].CreateUser?;
      if created.err.Some? then LoginRun(NoToken, created.err, created.db, s3)
      else
        var token := crypto.sign(created.id);
        var s4 := s3 + [IssueToken(created.id)];
        assert s4[2].CreateUser?;
        if token.Err? then LoginRun(NoToken, Some(token.error), created.db, s4)
        else LoginRun(AuthDTO(token.value), None, created.db, s4)
  }

  /** The login branch of LoginWithPass, taken for a known name: fetch the stored hash,
      compare the password with it, sign a token for the user's id. */
  function LogIn(db: Db, crypto: Crypto, passHash: Option<string>, username: string, password: Bytes, userId: int): (r: LoginRun)
    ensures r.err.Some? ==> r.dto == NoToken
    ensures r.db == db && !Creates(r.steps) && !Hashes(r.steps)
    ensures |r.steps| >= 2 && r.steps[..2] == [LookupUser(username), FetchPassHash(username)]
    ensures GetUserPassHashByUsername(db, passHash, username).err.Some? ==>
              r.err == GetUserPassHashByUsername(db, passHash, username).err && |r.steps| == 2 && !Issues(r.steps)
    ensures GetUserPassHashByUsername(db, passHash, username).err.None?
            && !crypto.matches(password, GetUserPassHashByUsername(db, passHash, username).hash) ==>
              r.err == Some(Coded(WrongPassword)) && !Issues(r.steps)
    ensures GetUserPassHashByUsername(db, passHash, username).err.None?
            && crypto.matches(password, GetUserPassHashByUsername(db, passHash, username).hash) ==>
              && r.steps[|r.steps| - 1] == IssueToken(userId)
              && (crypto.sign(userId).Err? ==> r.err == Some(crypto.sign(userId).error))
              && (crypto.sign(userId).Ok? ==> r.err.None? && r.dto == AuthDTO(crypto.sign(userId).value))
    ensures r.err.None? ==>
              && r.steps[|r.steps| - 1] == IssueToken(userId)
              && crypto.sign(userId) == Ok(r.dto.token)
              && crypto.matches(password, GetUserPassHashByUsername(db, passHash, username).hash)
  {
    var stored := GetUserPassHashByUsername(db, passHash, username);
    var s2 := [LookupUser(username), FetchPassHash(username)];
    if stored.err.Some? then LoginRun(NoToken, stored.err, db, s2)
    else
      var s3 := s2 + [ComparePassword(password, stored.hash)];
      if !crypto.matches(password, stored.hash) then LoginRun(NoToken, Some(Coded(WrongPassword)), db, s3)
      else
        var token := crypto.sign(userId);
        var s4 := s3 + [IssueToken(userId)];
        if token.Err? then LoginRun(NoToken, Some(token.error), db, s4)
        else LoginRun(AuthDTO(token.value), None, db, s4)
  }

  /** LoginWithPass: look the name up; an unknown name (id 0) registers after the password
      rule passes, a known name logs in against its stored hash. */
  function LoginWithPass(db: Db, crypto: Crypto, faults: Faults, username: string, password: Bytes): (r: LoginRun)
    ensures r.err.Some? ==> r.dto == NoToken
    ensures |r.steps| >= 1 && r.steps[0] == LookupUser(username)
    // a failed lookup is returned at once
    ensures GetUserByUsername(db, faults.lookup, username).err.Some? ==>
              r == LoginRun(NoToken, GetUserByUsername(db, faults.lookup, username).err, db, [LookupUser(username)])
    // an unregistered user with a weak password: nothing hashed, nothing created
    ensures GetUserByUsername(db, faults.lookup, username).err.None?
            && GetUserByUsername(db, faults.lookup, username).user.id == 0 && !Password.Valid(password) ==>
              r == LoginRun(NoToken, Some(Coded(WrongPasswordFormat)), db, [LookupUser(username)])
    // an unregistered user with a valid password: the registration branch, with its faults
    ensures GetUserByUsername(db, faults.lookup, username).err.None?
            && GetUserByUsername(db, faults.lookup, username).user.id == 0 && Password.Valid(password) ==>
              r == Register(db, crypto, faults.create, username, password)
    // a known user: the rule is not applied, the login branch runs for the found id
    ensures GetUserByUsername(db, faults.lookup, username).err.None?
            && GetUserByUsername(db, faults.lookup, username).user.id != 0 ==>
              r == LogIn(db, crypto, faults.passHash, username, password, GetUserByUsername(db, faults.lookup, username).user.id)
    // registration happens once, only for an unknown name with a valid password, with its hash
    ensures forall i :: 0 <= i < |r.steps| && r.steps[i].CreateUser? ==>
              && i == 2
              && GetUserByUsername(db, faults.lookup, username).err.None?
              && GetUserByUsername(db, faults.lookup, username).user.id == 0
              && Password.Valid(password)
              && crypto.hash(password).Ok?
              && r.steps[i] == CreateUser(username, crypto.hash(password).value)
              && (r.err.None? ==> CreateUserTX(db, faults.create, username, crypto.hash(password).value).err.None?)
    // the store changes only through a committed registration
    ensures r.db == db || (Creates(r.steps)
                           && r.db == CreateUserTX(db, faults.create, username, crypto.hash(password).value).db)
    // success: a token signed for the created or the found user id, issued last
    ensures r.err.None? ==>
              && r.steps[|r.steps| - 1].IssueToken?
              && crypto.sign(r.steps[|r.steps| - 1].userId) == Ok(r.dto.token)
              && (Creates(r.steps) ==>
                    r.steps[|r.steps| - 1].userId
                    == CreateUserTX(db, faults.create, username, crypto.hash(password).value).id)
              && (!Creates(r.steps) ==>
                    r.steps[|r.steps| - 1].userId == GetUserByUsername(db, faults.lookup, username).user.id
                    && crypto.matches(password, GetUserPassHashByUsername(db, faults.passHash, username).hash))
  {
    var found := GetUserByUsername(db, faults.lookup, username);
    if found.err.Some? then LoginRun(NoToken, found.err, db, [LookupUser(username)])
    else if found.user.id == 0 then
      if !Password.Valid(password) then LoginRun(NoToken, Some(Coded(WrongPasswordFormat)), db, [LookupUser(username)])
      else Register(db, crypto, faults.create, username, password)
    else LogIn(db, crypto, faults.passHash, username, password, found.user.id)
  }

  /** A login keeps the store well formed. */
  lemma LoginKeepsWellFormed(db: Db, crypto: Crypto, faults: Faults, username: string, password: Bytes)
    requires WellFormed(db)
    ensures WellFormed(LoginWithPass(db, crypto, faults, username, password).db)
  {
    var r := LoginWithPass(db, crypto, faults, username, password);
    if r.db != db {
      CreateUserKeepsWellFormed(db, faults.create, username, crypto.hash(password).value);
    }
  }

  /** Sequential logins never give two live users the same name: registration only follows
      a lookup that found nobody. */
  lemma LoginKeepsNamesUnique(db: Db, crypto: Crypto, faults: Faults, username: string, password: Bytes)
    requires WellFormed(db) && UniqueLiveNames(db)
    ensures UniqueLiveNames(LoginWithPass(db, crypto, faults, username, password).db)
  {
    var r := LoginWithPass(db, crypto, faults, username, password);
    if r.db != db {
      var i :| 0 <= i < |r.steps| && r.steps[i].CreateUser?;
      NotFoundIsZeroId(db, username);
      CreateUserKeepsNamesUnique(db, faults.create, username, crypto.hash(password).value);
    }
  }

  /** Registration is not repeated: once a first login has created the user, even one that
      then failed to sign its token, a second login with that name takes the login branch,
      leaves the store alone, and, if the password verifies against the stored hash, is
      issued a token for the same user id. */
  lemma SecondLoginDoesNotRegister(db: Db, crypto: Crypto, faults: Faults, username: string,
                                   password: Bytes, again: Bytes)
    requires !HasLiveNamed(db.users, username)
    requires LoginWithPass(db, crypto, faults, username, password).db != db
    ensures var first := LoginWithPass(db, crypto, faults, username, password);
            var second := LoginWithPass(first.db, crypto, NoFaults, username, again);
            && |first.steps| >= 4
            && second.db == first.db
            && !Creates(second.steps)
            && |second.steps| >= 2 && second.steps[1] == FetchPassHash(username)
            && (crypto.matches(again, crypto.hash(password).value) && crypto.sign(first.steps[3].userId).Ok? ==>
                  second.err.None? && second.steps[|second.steps| - 1] == first.steps[3])
  {
    var first := LoginWithPass(db, crypto, faults, username, password);
    var hash := crypto.hash(password).value;
    CreatedUserIsFound(db, faults.create, username, hash);
    assert first.db == CreateUserTX(db, faults.create, username, hash).db;
  }

  /** When every signed token is non-empty, as a compact signed token always is, every
      successful login yields a non-empty token. */
  lemma TokenNonEmpty(db: Db, crypto: Crypto, faults: Faults, username: string, password: Bytes)
    requires forall id :: crypto.sign(id).Ok? ==> crypto.sign(id).value != ""
    ensures LoginWithPass(db, crypto, faults, username, password).err.None? ==>
              LoginWithPass(db, crypto, faults, username, password).dto.token != ""
  {
  }
}
