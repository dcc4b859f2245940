/** The authentication endpoints of the FastAPI backend
    (backend/app/api/v1/endpoints/auth.py): login by e-mail and password,
    which stamps the last-login time and hands out a bearer token, and
    registration of a new advocate. Password hashing and checking and token
    signing are the security module's; they are parameters here. */
module AuthEndpoints {
  import opened Common
  import opened Models
  import Schemas
  import CaseEndpoints

  const BadCredentials: Failure := Failure(401, "Incorrect email or password")
  const AccountInactive: Failure := Failure(403, "Account is inactive")
  const EmailTaken: Failure := Failure(400, "Email already registered")
  const KhcIdTaken: Failure := Failure(400, "KHC Advocate ID already registered")

  // ---------------------------------------------------------------------
  // Login
  // ---------------------------------------------------------------------

  /** The user summary in the login answer. */
  datatype LoginUser = LoginUser(id: Id, email: string, khcAdvocateId: string, khcAdvocateName: string)

  datatype LoginResponse = LoginResponse(
    accessToken: string, refreshToken: string, tokenType: string, user: LoginUser)

  /** The row `POST /auth/login` accepts: the first user with that e-mail,
      401 when there is none or the password does not check against its
      hash, 403 when the account is inactive. */
  function LoginUserIndex(users: seq<UserRecord>, email: string, password: string,
                          verify: (string, string) -> bool): (r: Result<nat, Failure>)
    ensures r == Err(BadCredentials) <==>
      FindUserByEmail(users, email).None? || !verify(password, FindUserByEmail(users, email).value.passwordHash)
    ensures r == Err(AccountInactive) <==>
      FindUserByEmail(users, email).Some? && verify(password, FindUserByEmail(users, email).value.passwordHash)
      && !FindUserByEmail(users, email).value.isActive
    ensures r.Ok? ==>
      r.value < |users| && users[r.value] == FindUserByEmail(users, email).value
      && users[r.value].email == email && users[r.value].isActive && verify(password, users[r.value].passwordHash)
  {
    var i := FirstIndex(users, (u: UserRecord) => u.email == email);
    FirstIsFirstIndex(users, email);
    if i < 0 || !verify(password, users[i].passwordHash) then Err(BadCredentials)
    else if !users[i].isActive then Err(AccountInactive)
    else Ok(i)
  }

  lemma {:induction false} FirstIsFirstIndex(users: seq<UserRecord>, email: string)
    ensures var i := FirstIndex(users, (u: UserRecord) => u.email == email);
      (i < 0 <==> FindUserByEmail(users, email).None?)
      && (i >= 0 ==> FindUserByEmail(users, email) == Some(users[i]))
  {
    var p := (u: UserRecord) => u.email == email;
    var i := FirstIndex(users, p);
    if users != [] && !p(users[0]) {
      FirstIsFirstIndex(users[1..], email);
    }
  }

  /** The row after a successful login (the ORM refreshes `updated_at` too). */
  function LoggedIn(u: UserRecord, now: int): (r: UserRecord)
    ensures r.lastLoginAt == Some(now)
    ensures r.(lastLoginAt := u.lastLoginAt, updatedAt := u.updatedAt) == u
  {
    u.(lastLoginAt := Some(now), updatedAt := now)
  }

  /** Rewriting a user row without touching its id or unique columns keeps
      every constraint. */
  lemma ReplaceUserKeepsConsistent(d: Db, i: int, u: UserRecord)
    requires Consistent(d) && 0 <= i < |d.users|
    requires u.id == d.users[i].id && u.email == d.users[i].email
    requires u.khcAdvocateId == d.users[i].khcAdvocateId && u.mobile == d.users[i].mobile
    ensures Consistent(d.(users := d.users[i := u]))
  {
    var us := d.users[i := u];
    assert UserIds(us) == UserIds(d.users) by {
      forall x | x in UserIds(d.users) ensures x in UserIds(us) {
        var e :| e in d.users && e.id == x;
        var k :| 0 <= k < |d.users| && d.users[k] == e;
        assert us[k].id == x;
      }
      forall x | x in UserIds(us) ensures x in UserIds(d.users) {
        var e :| e in us && e.id == x;
        var k :| 0 <= k < |us| && us[k] == e;
        assert d.users[k].id == x;
      }
    }
    var idKey := (x: UserRecord) => x.id;
    var emailKey := (x: UserRecord) => x.email;
    var khcKey := (x: UserRecord) => x.khcAdvocateId;
    forall j, k | 0 <= j < k < |us|
      ensures idKey(us[j]) != idKey(us[k]) && emailKey(us[j]) != emailKey(us[k]) && khcKey(us[j]) != khcKey(us[k])
    {
      assert idKey(d.users[j]) != idKey(d.users[k]);
      assert emailKey(d.users[j]) != emailKey(d.users[k]);
      assert khcKey(d.users[j]) != khcKey(d.users[k]);
    }
    forall j, k | 0 <= j < k < |us| && us[j].mobile.Some? ensures us[j].mobile != us[k].mobile {
      assert d.users[j].mobile == us[j].mobile && d.users[k].mobile == us[k].mobile;
    }
  }

  /** `POST /auth/login`. The `UserLogin` schema refuses an address
      `EmailStr` rejects (422) and hands on the normalised address, which
      the lookup uses. `verify` checks a password against a stored hash
      and `issue` signs a token whose subject is the user id; the same token
      is sent as access and refresh token. */
  method Login(db: Database, email: string, password: string,
               verify: (string, string) -> bool, issue: Id -> string, now: int, checkEmail: Schemas.EmailCheck)
    returns (r: Result<LoginResponse, Failure>)
    modifies db
    ensures checkEmail(email).None? ==> r == Err(CaseEndpoints.InvalidQuery) && db.Snapshot() == old(db.Snapshot())
    ensures checkEmail(email).Some? ==>
      var i := LoginUserIndex(old(db.users), checkEmail(email).value, password, verify);
      && (i.Err? ==> r == Err(i.error) && db.Snapshot() == old(db.Snapshot()))
      && (i.Ok? ==>
            var u := old(db.users)[i.value];
            && r == Ok(LoginResponse(issue(u.id), issue(u.id), "bearer",
                                     LoginUser(u.id, u.email, u.khcAdvocateId, u.khcAdvocateName)))
            && db.Snapshot() == old(db.Snapshot()).(users := old(db.users)[i.value := LoggedIn(u, now)]))
    ensures Consistent(old(db.Snapshot())) ==> Consistent(db.Snapshot())
  {
    var normalised := checkEmail(email);
    if normalised.None? {
      return Err(CaseEndpoints.InvalidQuery);
    }
    var i := LoginUserIndex(db.users, normalised.value, password, verify);
    if i.Err? {
      return Err(i.error);
    }
    var u := db.users[i.value];
    var token := issue(u.id);
    if Consistent(db.Snapshot()) {
      ReplaceUserKeepsConsistent(db.Snapshot(), i.value, LoggedIn(u, now));
    }
    db.users := db.users[i.value := LoggedIn(u, now)];
    r := Ok(LoginResponse(token, token, "bearer", LoginUser(u.id, u.email, u.khcAdvocateId, u.khcAdvocateName)));
  }

  // ---------------------------------------------------------------------
  // Registration
  // ---------------------------------------------------------------------

  /** The fields of a registration request. */
  datatype Registration = Registration(
    email: string, password: string, khcAdvocateId: string, khcAdvocateName: string,
    mobile: Option<string>, khcEnrollmentNumber: Option<string>)

  /** The row a registration inserts, with the address as `EmailStr`
      normalised it. */
  function RegisteredRow(req: Registration, email: string, hash: string -> string, newId: Id, now: int): UserRecord {
    NewUser(newId, email, hash(req.password), req.khcAdvocateId, req.khcAdvocateName, now)
      .(mobile := req.mobile, khcEnrollmentNumber := req.khcEnrollmentNumber)
  }

  /** The row `POST /auth/register` inserts, or why it does not: 422 from
      the request schema (including an address `EmailStr` rejects), then 400
      for a taken e-mail, then 400 for a taken KHC advocate id, and a
      database error (500) for a taken mobile number or id or a value longer
      than its column. The stored and compared address is the normalised
      one. The new advocate is active and not yet verified. */
  function NewRegistration(users: seq<UserRecord>, req: Registration, hash: string -> string,
                           newId: Id, now: int, checkEmail: Schemas.EmailCheck): (r: Result<UserRecord, Failure>)
    ensures Schemas.ValidateUserCreate(req.email, req.khcAdvocateId, req.khcAdvocateName, req.password, checkEmail) != map[] ==>
      r == Err(CaseEndpoints.InvalidQuery)
    ensures r.Ok? <==>
      && Schemas.ValidateUserCreate(req.email, req.khcAdvocateId, req.khcAdvocateName, req.password, checkEmail) == map[]
      && (forall u :: u in users ==> u.email != checkEmail(req.email).value && u.khcAdvocateId != req.khcAdvocateId
                                     && u.id != newId && (req.mobile.Some? ==> u.mobile != req.mobile))
      && FitsUserColumns(RegisteredRow(req, checkEmail(req.email).value, hash, newId, now))
    ensures r == Err(EmailTaken) <==>
      Schemas.ValidateUserCreate(req.email, req.khcAdvocateId, req.khcAdvocateName, req.password, checkEmail) == map[]
      && exists u :: u in users && u.email == checkEmail(req.email).value
    ensures r.Ok? ==>
      && r.value.id == newId && Some(r.value.email) == checkEmail(req.email)
      && r.value.passwordHash == hash(req.password)
      && r.value.khcAdvocateId == req.khcAdvocateId && r.value.khcAdvocateName == req.khcAdvocateName
      && r.value.mobile == req.mobile && r.value.khcEnrollmentNumber == req.khcEnrollmentNumber
      && r.value.role == Advocate && r.value.isActive && !r.value.isVerified && r.value.lastLoginAt.None?
  {
    if Schemas.ValidateUserCreate(req.email, req.khcAdvocateId, req.khcAdvocateName, req.password, checkEmail) != map[] then
      Err(CaseEndpoints.InvalidQuery)
    else
      var email := checkEmail(req.email).value;
      var row := RegisteredRow(req, email, hash, newId, now);
      if FindUserByEmail(users, email).Some? then Err(EmailTaken)
      else if exists u :: u in users && u.khcAdvocateId == req.khcAdvocateId then Err(KhcIdTaken)
      else if (exists u :: u in users && (u.id == newId || (req.mobile.Some? && u.mobile == req.mobile)))
              || !FitsUserColumns(row) then
        Err(CaseEndpoints.ServerError)
      else
        Ok(row)
  }

  /** Appending a row whose id, e-mail, KHC id and mobile are all new keeps
      every constraint. */
  lemma AppendUserKeepsConsistent(d: Db, u: UserRecord)
    requires Consistent(d)
    requires forall v :: v in d.users ==> v.email != u.email && v.khcAdvocateId != u.khcAdvocateId
                                          && v.id != u.id && (u.mobile.Some? ==> v.mobile != u.mobile)
    ensures Consistent(d.(users := d.users + [u]))
  {
    var us := d.users + [u];
    assert UserIds(d.users) <= UserIds(us) by {
      forall x | x in UserIds(d.users) ensures x in UserIds(us) {
        var e :| e in d.users && e.id == x;
        assert e in us;
      }
    }
    var idKey := (x: UserRecord) => x.id;
    var emailKey := (x: UserRecord) => x.email;
    var khcKey := (x: UserRecord) => x.khcAdvocateId;
    forall j, k | 0 <= j < k < |us|
      ensures idKey(us[j]) != idKey(us[k]) && emailKey(us[j]) != emailKey(us[k]) && khcKey(us[j]) != khcKey(us[k])
    {
      if k < |d.users| {
        assert idKey(d.users[j]) != idKey(d.users[k]);
        assert emailKey(d.users[j]) != emailKey(d.users[k]);
        assert khcKey(d.users[j]) != khcKey(d.users[k]);
      } else {
        assert us[j] in d.users;
      }
    }
    forall j, k | 0 <= j < k < |us| && us[j].mobile.Some? ensures us[j].mobile != us[k].mobile {
      if k == |d.users| {
        assert us[j] in d.users;
      }
    }
  }

  /** `POST /auth/register`: inserts the row `NewRegistration` gives. */
  method Register(db: Database, req: Registration, hash: string -> string, newId: Id, now: int,
                  checkEmail: Schemas.EmailCheck)
    returns (r: Result<UserRecord, Failure>)
    modifies db
    ensures r == NewRegistration(old(db.users), req, hash, newId, now, checkEmail)
    ensures r.Err? ==> db.Snapshot() == old(db.Snapshot())
    ensures r.Ok? ==> db.Snapshot() == old(db.Snapshot()).(users := old(db.users) + [r.value])
    ensures Consistent(old(db.Snapshot())) ==> Consistent(db.Snapshot())
  {
    r := NewRegistration(db.users, req, hash, newId, now, checkEmail);
    if r.Ok? {
      if Consistent(db.Snapshot()) {
        AppendUserKeepsConsistent(db.Snapshot(), r.value);
      }
      db.users := db.users + [r.value];
    }
  }

  /** An advocate who has just registered can log in with the same address
      and password, provided the password check accepts what the hash
      produced: login normalises the address as registration did. */
  lemma RegisteredCanLogIn(users: seq<UserRecord>, req: Registration, hash: string -> string,
                           verify: (string, string) -> bool, newId: Id, now: int, checkEmail: Schemas.EmailCheck)
    requires forall p :: verify(p, hash(p))
    requires NewRegistration(users, req, hash, newId, now, checkEmail).Ok?
    ensures checkEmail(req.email).Some?
    ensures var u := NewRegistration(users, req, hash, newId, now, checkEmail).value;
      LoginUserIndex(users + [u], checkEmail(req.email).value, req.password, verify) == Ok(|users|)
  {
    var u := NewRegistration(users, req, hash, newId, now, checkEmail).value;
    NoEarlierEmail(users, u, checkEmail(req.email).value);
    assert verify(req.password, hash(req.password));
  }

  lemma {:induction false} NoEarlierEmail(users: seq<UserRecord>, u: UserRecord, email: string)
    requires u.email == email
    requires forall v :: v in users ==> v.email != email
    ensures FindUserByEmail(users + [u], email) == Some(u)
  {
    var us := users + [u];
    assert us[|users|] == u;
    forall j | 0 <= j < |users| ensures us[j].email != email {
      assert us[j] == users[j] && users[j] in users;
    }
    FirstIsFirstIndex(us, email);
  }
}
