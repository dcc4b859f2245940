/** The Flask monolith (backend/app.py): upload filename check, the
    register/login input checks, the JSON-file user and case stores (kept
    here in memory), the bearer-token guard, the OCR tool choice and
    dispatch, and the keyword part of case-information extraction. */
module FlaskApp {
  import opened Common
  import Order

  // ---------------------------------------------------------------------
  // Upload filenames
  // ---------------------------------------------------------------------

  const AllowedExtensions: set<string> := {"pdf", "png", "jpg", "jpeg"}

  /** `allowed_file`: the name has a '.', and the lower-cased text after the
      last '.' is one of the allowed extensions. */
  function AllowedFile(filename: string): (r: bool)
    ensures r <==> exists i :: ExtensionAt(filename, i)
  {
    var d := LastIndexOf(filename, '.');
    var r := d != -1 && Lower(filename[d + 1..]) in AllowedExtensions;
    AllowedAfterLastDot(filename, r);
    r
  }

  /** The text after some '.' with no later '.' is the text after the last '.'. */
  predicate ExtensionAt(s: string, i: int) {
    0 <= i < |s| && s[i] == '.' && (forall j :: i < j < |s| ==> s[j] != '.')
    && Lower(s[i + 1..]) in AllowedExtensions
  }

  lemma AllowedAfterLastDot(s: string, r: bool)
    requires r == (LastIndexOf(s, '.') != -1 && Lower(s[LastIndexOf(s, '.') + 1..]) in AllowedExtensions)
    ensures r <==> exists i :: ExtensionAt(s, i)
  {
    var d := LastIndexOf(s, '.');
    if r {
      assert ExtensionAt(s, d);
    }
    forall i | ExtensionAt(s, i) ensures r {
      ExtensionAtLastDot(s, i);
    }
  }

  /** Only the last '.' can start an extension. */
  lemma ExtensionAtLastDot(s: string, i: int)
    requires ExtensionAt(s, i)
    ensures LastIndexOf(s, '.') == i && Lower(s[LastIndexOf(s, '.') + 1..]) in AllowedExtensions
  {
    LastIndexOfUnique(s, '.', i);
  }

  // ---------------------------------------------------------------------
  // Register and login input checks
  // ---------------------------------------------------------------------

  datatype RegisterFields = RegisterFields(email: string, password: string, fullName: string, firm: string)

  const MissingRegisterFields: string := "Email, password, and full name are required"
  const ShortPassword: string := "Password must be at least 6 characters"

  /** The checks `register` makes before touching the store: email is
      stripped and lower-cased, full name and firm are stripped, the password
      is taken as given. Absent JSON keys arrive as "". */
  function RegisterCheck(email: string, password: string, fullName: string, firm: string)
    : (r: Result<RegisterFields, Failure>)
    ensures r.Ok? <==> !AllSpace(email) && !AllSpace(fullName) && |password| >= 6
    ensures r.Ok? ==> r.value == RegisterFields(Lower(Strip(email)), password, Strip(fullName), Strip(firm))
    ensures r.Ok? ==> r.value.email != [] && r.value.fullName != []
    ensures (AllSpace(email) || password == [] || AllSpace(fullName)) ==> r == Err(Failure(400, MissingRegisterFields))
    ensures !AllSpace(email) && password != [] && !AllSpace(fullName) && |password| < 6 ==>
      r == Err(Failure(400, ShortPassword))
  {
    StripEmptyIffAllSpace(email);
    StripEmptyIffAllSpace(fullName);
    var e := Lower(Strip(email));
    var n := Strip(fullName);
    if e == [] || password == [] || n == [] then Err(Failure(400, MissingRegisterFields))
    else if |password| < 6 then Err(Failure(400, ShortPassword))
    else Ok(RegisterFields(e, password, n, Strip(firm)))
  }

  /** A field of the request's JSON body as `data.get(name, '')` sees it:
      absent, JSON null, or a string. */
  datatype BodyField = Absent | Null | Text(s: string)

  /** The field read as a string: an absent key gives the default "", and a
      null is falsy like "" where it is only checked for truth, not stripped. */
  function FieldText(f: BodyField): string {
    if f.Text? then f.s else ""
  }

  /** Flask's answer to an exception the view does not catch. */
  const InternalError: Failure := Failure(500, "Internal Server Error")

  /** `register` on the JSON body: `.strip()` on a null email, full name or
      firm raises before any check, a 500; a null password is falsy and
      fails the "required" check. */
  function RegisterBody(email: BodyField, password: BodyField, fullName: BodyField, firm: BodyField)
    : (r: Result<RegisterFields, Failure>)
    ensures r == Err(InternalError) <==> email.Null? || fullName.Null? || firm.Null?
    ensures !(email.Null? || fullName.Null? || firm.Null?) ==>
      r == RegisterCheck(FieldText(email), FieldText(password), FieldText(fullName), FieldText(firm))
    ensures !(email.Null? || fullName.Null? || firm.Null?) && !password.Text? ==>
      r == Err(Failure(400, MissingRegisterFields))
  {
    if email.Null? || fullName.Null? || firm.Null? then Err(InternalError)
    else RegisterCheck(FieldText(email), FieldText(password), FieldText(fullName), FieldText(firm))
  }

  const MissingLoginFields: string := "Email and password are required"

  /** The check `login` makes before looking the user up. */
  function LoginCheck(email: string, password: string): (r: Result<string, Failure>)
    ensures r.Ok? <==> !AllSpace(email) && password != []
    ensures r.Ok? ==> r.value == Lower(Strip(email)) && r.value != []
    ensures r.Err? ==> r.error == Failure(400, MissingLoginFields)
  {
    StripEmptyIffAllSpace(email);
    var e := Lower(Strip(email));
    if e == [] || password == [] then Err(Failure(400, MissingLoginFields)) else Ok(e)
  }

  /** `login` on the JSON body: a null email makes `.strip()` raise, a 500;
      a null password fails the "required" check. */
  function LoginBody(email: BodyField, password: BodyField): (r: Result<string, Failure>)
    ensures r == Err(InternalError) <==> email.Null?
    ensures !email.Null? ==> r == LoginCheck(FieldText(email), FieldText(password))
    ensures !email.Null? && !password.Text? ==> r == Err(Failure(400, MissingLoginFields))
  {
    if email.Null? then Err(InternalError) else LoginCheck(FieldText(email), FieldText(password))
  }

  // ---------------------------------------------------------------------
  // The user store
  // ---------------------------------------------------------------------

  datatype UserRecord = UserRecord(
    email: string, passwordHash: string, fullName: string, firm: string,
    createdAt: string, lastLogin: Option<string>)

  /** What the API returns about a user: never the password hash. */
  datatype PublicUser = PublicUser(email: string, fullName: string, firm: string)

  /** What `get_user` returns: the record without `password_hash`. */
  datatype UserView = UserView(email: string, fullName: string, firm: string,
                               createdAt: string, lastLogin: Option<string>)

  const UserExists: string := "User already exists"
  const InvalidCredentials: string := "Invalid credentials"

  /** `users.json`, keyed by email. */
  class UserDB {
    var users: map<string, UserRecord>

    constructor()
      ensures users == map[]
    {
      users := map[];
    }

    /** `create_user`. `hash` is bcrypt's hash of the password and `now` the
        creation time. */
    method CreateUser(email: string, password: string, fullName: string, firm: string, hash: string, now: string)
      returns (r: Result<PublicUser, string>)
      modifies this
      ensures email in old(users) ==> r == Err(UserExists) && users == old(users)
      ensures email !in old(users) ==>
        && r == Ok(PublicUser(email, fullName, firm))
        && users == old(users)[email := UserRecord(email, hash, fullName, firm, now, None)]
      ensures |users| == if email in old(users) then |old(users)| else |old(users)| + 1
    {
      if email in users {
        return Err(UserExists);
      }
      users := users[email := UserRecord(email, hash, fullName, firm, now, None)];
      r := Ok(PublicUser(email, fullName, firm));
    }

    /** `verify_user`. `checkpw(password, hash)` is bcrypt's verdict. The
        same error answers an unknown email and a wrong password. */
    method VerifyUser(email: string, password: string, checkpw: (string, string) -> bool, now: string)
      returns (r: Result<PublicUser, string>)
      modifies this
      ensures r.Ok? <==> email in old(users) && checkpw(password, old(users)[email].passwordHash)
      ensures r.Err? ==> r.error == InvalidCredentials && users == old(users)
      ensures r.Ok? ==>
        var u := old(users)[email];
        && r.value == PublicUser(u.email, u.fullName, u.firm)
        && users == old(users)[email := u.(lastLogin := Some(now))]
    {
      if email !in users {
        return Err(InvalidCredentials);
      }
      var u := users[email];
      if checkpw(password, u.passwordHash) {
        users := users[email := u.(lastLogin := Some(now))];
        return Ok(PublicUser(u.email, u.fullName, u.firm));
      }
      return Err(InvalidCredentials);
    }

    /** `get_user`: a copy of the record without the password hash. */
    function GetUser(email: string): (r: Option<UserView>)
      reads this
      ensures r.Some? <==> email in users
      ensures r.Some? ==>
        var u := users[email];
        r.value == UserView(u.email, u.fullName, u.firm, u.createdAt, u.lastLogin)
    {
      if email in users then
        var u := users[email];
        Some(UserView(u.email, u.fullName, u.firm, u.createdAt, u.lastLogin))
      else None
    }
  }

  /** A signed-in session: the JWT and the public user. */
  datatype Session = Session(token: string, user: PublicUser)

  /** POST /api/auth/register. `token` is the JWT `generate_token` would
      issue for the normalised email. */
  method Register(db: UserDB, email: BodyField, password: BodyField, fullName: BodyField, firm: BodyField,
                  hash: string, now: string, token: string)
    returns (r: Result<Session, Failure>)
    modifies db
    ensures RegisterBody(email, password, fullName, firm).Err? ==>
      r == Err(RegisterBody(email, password, fullName, firm).error) && db.users == old(db.users)
    ensures RegisterBody(email, password, fullName, firm).Ok? ==>
      var f := RegisterBody(email, password, fullName, firm).value;
      if f.email in old(db.users) then
        r == Err(Failure(400, UserExists)) && db.users == old(db.users)
      else
        && r == Ok(Session(token, PublicUser(f.email, f.fullName, f.firm)))
        && db.users == old(db.users)[f.email := UserRecord(f.email, hash, f.fullName, f.firm, now, None)]
  {
    var check := RegisterBody(email, password, fullName, firm);
    if check.Err? {
      return Err(check.error);
    }
    var f := check.value;
    var created := db.CreateUser(f.email, f.password, f.fullName, f.firm, hash, now);
    if created.Err? {
      return Err(Failure(400, created.error));
    }
    r := Ok(Session(token, created.value));
  }

  /** POST /api/auth/login. */
  method Login(db: UserDB, email: BodyField, password: BodyField, checkpw: (string, string) -> bool,
               now: string, token: string)
    returns (r: Result<Session, Failure>)
    modifies db
    ensures LoginBody(email, password).Err? ==>
      r == Err(LoginBody(email, password).error) && db.users == old(db.users)
    ensures LoginBody(email, password).Ok? ==>
      var e := LoginBody(email, password).value;
      if e in old(db.users) && checkpw(FieldText(password), old(db.users)[e].passwordHash) then
        var u := old(db.users)[e];
        && r == Ok(Session(token, PublicUser(u.email, u.fullName, u.firm)))
        && db.users == old(db.users)[e := u.(lastLogin := Some(now))]
      else
        r == Err(Failure(401, InvalidCredentials)) && db.users == old(db.users)
  {
    var check := LoginBody(email, password);
    if check.Err? {
      return Err(check.error);
    }
    var verified := db.VerifyUser(check.value, FieldText(password), checkpw, now);
    if verified.Err? {
      return Err(Failure(401, verified.error));
    }
    r := Ok(Session(token, verified.value));
  }

  // ---------------------------------------------------------------------
  // The case store
  // ---------------------------------------------------------------------

  /** A case is a free-form JSON object. */
  type CaseData = map<string, Json>

  /** One entry of a user's bucket: the dictionary key and the stored case.
      A bucket is kept in insertion order, as a Python dict is. */
  datatype Entry = Entry(id: string, data: CaseData)

  predicate DistinctIds(bucket: seq<Entry>) {
    forall i, j :: 0 <= i < j < |bucket| ==> bucket[i].id != bucket[j].id
  }

  /** Position of the entry with key `id`, or -1. */
  function IndexOf(bucket: seq<Entry>, id: string): (r: int)
    ensures -1 <= r < |bucket|
    ensures r >= 0 ==> bucket[r].id == id && forall j :: 0 <= j < r ==> bucket[j].id != id
    ensures r == -1 ==> forall j :: 0 <= j < |bucket| ==> bucket[j].id != id
  {
    if bucket == [] then -1
    else if bucket[0].id == id then 0
    else
      var r := IndexOf(bucket[1..], id);
      if r == -1 then -1 else r + 1
  }

  /** The stored case with key `id`, if any. */
  function Find(bucket: seq<Entry>, id: string): (r: Option<CaseData>)
    ensures r.None? <==> forall i :: 0 <= i < |bucket| ==> bucket[i].id != id
    ensures r.Some? ==> Entry(id, r.value) in bucket
  {
    var i := IndexOf(bucket, id);
    if i < 0 then None else Some(bucket[i].data)
  }

  lemma PutOthers(bucket: seq<Entry>, id: string, data: CaseData, r: seq<Entry>, k: string)
    requires k != id
    requires r == if IndexOf(bucket, id) >= 0 then bucket[IndexOf(bucket, id) := Entry(id, data)]
                  else bucket + [Entry(id, data)]
    ensures Find(r, k) == Find(bucket, k)
  {
    assert forall j :: 0 <= j < |bucket| && bucket[j].id == k ==> r[j] == bucket[j];
    assert forall j :: 0 <= j < |r| && r[j].id == k ==> j < |bucket| && r[j] == bucket[j];
    var i := IndexOf(bucket, k);
    if i >= 0 {
      IndexOfAt(r, k, i);
    } else {
      IndexOfNone(r, k);
    }
  }

  /** The first entry with key `k` is where `IndexOf` finds it. */
  lemma IndexOfAt(bucket: seq<Entry>, k: string, i: int)
    requires 0 <= i < |bucket| && bucket[i].id == k
    requires forall j :: 0 <= j < i ==> bucket[j].id != k
    ensures IndexOf(bucket, k) == i
  {
  }

  lemma IndexOfNone(bucket: seq<Entry>, k: string)
    requires forall j :: 0 <= j < |bucket| ==> bucket[j].id != k
    ensures IndexOf(bucket, k) == -1
  {
  }

  /** Python's `d[id] = data`: replaces in place when the key exists,
      appends otherwise. */
  function Put(bucket: seq<Entry>, id: string, data: CaseData): (r: seq<Entry>)
    requires DistinctIds(bucket)
    ensures DistinctIds(r)
    ensures Find(r, id) == Some(data)
    ensures forall k :: k != id ==> Find(r, k) == Find(bucket, k)
    ensures |r| == if Find(bucket, id).Some? then |bucket| else |bucket| + 1
  {
    var i := IndexOf(bucket, id);
    var r := if i >= 0 then bucket[i := Entry(id, data)] else bucket + [Entry(id, data)];
    PutAll(bucket, id, data, r);
    r
  }

  lemma PutAll(bucket: seq<Entry>, id: string, data: CaseData, r: seq<Entry>)
    requires DistinctIds(bucket)
    requires r == if IndexOf(bucket, id) >= 0 then bucket[IndexOf(bucket, id) := Entry(id, data)]
                  else bucket + [Entry(id, data)]
    ensures DistinctIds(r)
    ensures Find(r, id) == Some(data)
    ensures forall k :: k != id ==> Find(r, k) == Find(bucket, k)
  {
    var i := IndexOf(bucket, id);
    PutKeepsDistinct(bucket, id, data, r);
    if i >= 0 {
      IndexOfAt(r, id, i);
    } else {
      assert forall j :: 0 <= j < |bucket| ==> r[j] == bucket[j];
      IndexOfAt(r, id, |bucket|);
    }
    forall k | k != id ensures Find(r, k) == Find(bucket, k) {
      PutOthers(bucket, id, data, r, k);
    }
  }

  /** Replacing the entry with key `id`, or appending one when there is
      none, keeps the keys distinct. */
  lemma PutKeepsDistinct(bucket: seq<Entry>, id: string, data: CaseData, r: seq<Entry>)
    requires DistinctIds(bucket)
    requires r == if IndexOf(bucket, id) >= 0 then bucket[IndexOf(bucket, id) := Entry(id, data)]
                  else bucket + [Entry(id, data)]
    ensures DistinctIds(r)
  {
    var i := IndexOf(bucket, id);
    forall a, b | 0 <= a < b < |r| ensures r[a].id != r[b].id {
      if i < 0 && b == |bucket| {
        assert r[a] == bucket[a];
      } else {
        assert r[a].id == bucket[a].id && r[b].id == bucket[b].id;
      }
    }
  }

  /** The cases of a bucket, in bucket order. */
  function Values(bucket: seq<Entry>): (r: seq<CaseData>)
    ensures |r| == |bucket|
    ensures forall i :: 0 <= i < |bucket| ==> r[i] == bucket[i].data
  {
    seq(|bucket|, i requires 0 <= i < |bucket| => bucket[i].data)
  }

  /** The `created_at` field as `list.sort` compares it: text with text,
      numbers with numbers (a boolean is the integer 0 or 1); `KNull` for a
      value `<` cannot compare with anything (null, an object, an array). */
  function CreatedAt(d: CaseData): Order.Key {
    if "created_at" !in d then Order.KNull
    else match d["created_at"]
      case JStr(s) => Order.KStr(s)
      case JNum(n) => Order.KInt(n)
      case JBool(b) => Order.KInt(if b then 1 else 0)
      case _ => Order.KNull
  }

  /** `sort(key=lambda x: x['created_at'])` completes: every case has the
      field (the key is computed for each of them), and when two or more
      cases are compared their values are all text or all numbers. Otherwise
      the sort raises KeyError or TypeError. */
  predicate Sortable(vs: seq<CaseData>) {
    && (forall i :: 0 <= i < |vs| ==> "created_at" in vs[i])
    && (|vs| < 2
        || (forall i :: 0 <= i < |vs| ==> CreatedAt(vs[i]).KStr?)
        || (forall i :: 0 <= i < |vs| ==> CreatedAt(vs[i]).KInt?))
  }

  /** `update_case`'s merge: the caller's fields override the stored ones,
      then `updated_at` is overwritten with the current time. */
  function ApplyCaseUpdate(data: CaseData, updates: CaseData, now: string): (r: CaseData)
    ensures r.Keys == data.Keys + updates.Keys + {"updated_at"}
    ensures r["updated_at"] == JStr(now)
    ensures forall k :: k in updates && k != "updated_at" ==> r[k] == updates[k]
    ensures forall k :: k in data && k !in updates && k != "updated_at" ==> r[k] == data[k]
  {
    (data + updates)["updated_at" := JStr(now)]
  }

  /** Whatever the stored case and the update hold, a supplied `id` or
      `user_email` replaces the stored one, while `updated_at` is the current
      time even when the caller supplied it. */
  lemma UpdateCanRewriteOwnerField(data: CaseData, updates: CaseData, now: string)
    ensures "id" in updates ==> ApplyCaseUpdate(data, updates, now)["id"] == updates["id"]
    ensures "user_email" in updates ==> ApplyCaseUpdate(data, updates, now)["user_email"] == updates["user_email"]
    ensures ApplyCaseUpdate(data, updates, now)["updated_at"] == JStr(now)
  {
  }

  /** `cases.json`: email -> (case id -> case). */
  class CasesDB {
    var cases: map<string, seq<Entry>>

    ghost predicate Valid()
      reads this
    {
      forall e :: e in cases ==> DistinctIds(cases[e])
    }

    constructor()
      ensures Valid() && cases == map[]
    {
      cases := map[];
    }

    /** `create_case`. `caseId` is the fresh uuid and `now` the time. */
    method CreateCase(userEmail: string, caseData: CaseData, caseId: string, now: string)
      returns (stored: CaseData)
      requires Valid()
      modifies this
      ensures Valid()
      ensures stored == caseData["id" := JStr(caseId)]["user_email" := JStr(userEmail)]
                                ["created_at" := JStr(now)]["updated_at" := JStr(now)]
      ensures userEmail in cases && Find(cases[userEmail], caseId) == Some(stored)
      ensures forall e :: e != userEmail ==> (e in cases <==> e in old(cases)) && (e in cases ==> cases[e] == old(cases)[e])
      ensures userEmail in old(cases) ==> forall k :: k != caseId ==> Find(cases[userEmail], k) == Find(old(cases)[userEmail], k)
      ensures userEmail !in old(cases) ==> cases[userEmail] == [Entry(caseId, stored)]
    {
      stored := caseData["id" := JStr(caseId)]["user_email" := JStr(userEmail)]
                        ["created_at" := JStr(now)]["updated_at" := JStr(now)];
      var bucket := if userEmail in cases then cases[userEmail] else [];
      cases := cases[userEmail := Put(bucket, caseId, stored)];
    }

    /** `get_user_cases`: all of the user's cases, newest `created_at`
        first (a stable sort, so equal timestamps keep insertion order);
        `None` when the sort raises, because `update_case` stored a
        `created_at` the others cannot be compared with. */
    function GetUserCases(userEmail: string): (r: Option<seq<CaseData>>)
      reads this
      ensures userEmail !in cases ==> r == Some([])
      ensures userEmail in cases ==> (r.Some? <==> Sortable(Values(cases[userEmail])))
      ensures r.Some? && userEmail in cases ==> multiset(r.value) == multiset(Values(cases[userEmail]))
      ensures r.Some? ==> Order.SortedBy(r.value, CreatedAt, true)
    {
      if userEmail !in cases then Some([])
      else
        var vs := Values(cases[userEmail]);
        if !Sortable(vs) then None
        else
          Order.SortByCorrect(vs, CreatedAt, true);
          Some(Order.SortBy(vs, CreatedAt, true))
    }

    /** `GET /api/cases` behind `@token_required`: the guard's 401s, then
        the caller's sorted cases. The handler runs inside the decorator's
        `try`, so an exception from the sort becomes its 401 "Token
        validation failed". */
    function ListCases(header: Option<string>, verify: string -> TokenCheck): (r: Result<seq<CaseData>, Failure>)
      reads this
      ensures TokenRequired(header, verify).Err? ==> r == Err(TokenRequired(header, verify).error)
      ensures TokenRequired(header, verify).Ok? ==>
        var listed := GetUserCases(TokenRequired(header, verify).value);
        && (listed.Some? ==> r == Ok(listed.value))
        && (listed.None? ==> r == Err(TokenValidationFailed))
      ensures r.Err? ==> r.error.status == 401
    {
      var auth := TokenRequired(header, verify);
      if auth.Err? then Err(auth.error)
      else
        var listed := GetUserCases(auth.value);
        if listed.None? then Err(TokenValidationFailed) else Ok(listed.value)
    }

    /** `get_case`: only a case stored in the caller's own bucket. */
    function GetCase(userEmail: string, caseId: string): (r: Option<CaseData>)
      reads this
      ensures r.Some? <==> userEmail in cases && exists i :: 0 <= i < |cases[userEmail]| && cases[userEmail][i].id == caseId
      ensures r.Some? ==> Entry(caseId, r.value) in cases[userEmail]
    {
      if userEmail in cases then Find(cases[userEmail], caseId) else None
    }

    /** `update_case`. */
    method UpdateCase(userEmail: string, caseId: string, updates: CaseData, now: string)
      returns (r: Result<CaseData, string>)
      requires Valid()
      modifies this
      ensures Valid()
      ensures GetCase(userEmail, caseId).None? <==> old(GetCase(userEmail, caseId)).None?
      ensures old(GetCase(userEmail, caseId)).None? ==> r == Err("Case not found") && cases == old(cases)
      ensures old(GetCase(userEmail, caseId)).Some? ==>
        && r == Ok(ApplyCaseUpdate(old(GetCase(userEmail, caseId)).value, updates, now))
        && cases == old(cases)[userEmail := Put(old(cases)[userEmail], caseId, r.value)]
    {
      var found := GetCase(userEmail, caseId);
      if found.None? {
        return Err("Case not found");
      }
      var updated := ApplyCaseUpdate(found.value, updates, now);
      cases := cases[userEmail := Put(cases[userEmail], caseId, updated)];
      r := Ok(updated);
    }
  }

  // ---------------------------------------------------------------------
  // The token guard
  // ---------------------------------------------------------------------

  /** What `verify_token` makes of a token: the email claim, a rejection
      (bad signature, expired, malformed), or an exception escaping it. */
  datatype TokenCheck = Decoded(email: string) | Rejected | Crashed

  /** The token after a leading `Bearer ` (case-sensitive) is removed. */
  function BearerToken(header: string): (r: string)
    ensures StartsWith(header, "Bearer ") ==> header == "Bearer " + r
    ensures !StartsWith(header, "Bearer ") ==> r == header
  {
    if StartsWith(header, "Bearer ") then header[7..] else header
  }

  /** The answer of `token_required`'s `except` clause, which catches any
      exception raised by the token check or by the wrapped handler. */
  const TokenValidationFailed: Failure := Failure(401, "Token validation failed")

  /** `token_required`: the caller's email, or the 401 it answers with. */
  function TokenRequired(header: Option<string>, verify: string -> TokenCheck): (r: Result<string, Failure>)
    ensures header.None? || header == Some("") ==> r == Err(Failure(401, "Token required"))
    ensures r.Ok? <==> header.Some? && header.value != [] && verify(BearerToken(header.value)).Decoded?
                       && verify(BearerToken(header.value)).email != []
    ensures r.Ok? ==> r.value == verify(BearerToken(header.value)).email
    ensures r.Err? ==> r.error.status == 401
  {
    if header.None? || header.value == [] then Err(Failure(401, "Token required"))
    else
      match verify(BearerToken(header.value))
      case Crashed => Err(TokenValidationFailed)
      case Rejected => Err(Failure(401, "Invalid or expired token"))
      case Decoded(email) =>
        if email == [] then Err(Failure(401, "Invalid or expired token")) else Ok(email)
  }

  /** The scheme is matched case-sensitively: a token sent under any
      other spelling of the scheme ("bearer ", "BEARER ") reaches the
      verifier with the scheme still attached. */
  lemma {:induction false} OtherSchemeNotStripped(scheme: string, token: string)
    requires |scheme| == 7 && scheme != "Bearer "
    ensures BearerToken(scheme + token) == scheme + token
  {
    assert (scheme + token)[..7] == scheme;
  }

  // ---------------------------------------------------------------------
  // OCR tool choice and dispatch
  // ---------------------------------------------------------------------

  const PypdfText: string := "pypdf_text_extract"
  const PdfTesseract: string := "pdf2image_tesseract"
  const ImageTesseract: string := "tesseract_image"

  /** The PDF as PyPDF2 sees it: each page's extracted text, or None where
      extraction raises; Err when the file cannot be opened or parsed. */
  type PdfPages = Result<seq<Option<string>>, string>

  /** The pages `select_tool` samples. */
  function SampleCount(pages: seq<Option<string>>): nat {
    Min(3, |pages|)
  }

  /** Concatenated text of `pages`, or None if any of them raises. */
  function JoinPages(pages: seq<Option<string>>): (r: Option<string>)
    ensures r.Some? <==> forall i :: 0 <= i < |pages| ==> pages[i].Some?
  {
    if pages == [] then Some("")
    else
      var init := JoinPages(pages[..|pages| - 1]);
      var last := pages[|pages| - 1];
      if init.Some? && last.Some? then Some(init.value + last.value) else None
  }

  /** The tool `select_tool` picks: image OCR for non-PDF types; for a PDF,
      text extraction when the first min(3, pages) pages hold more than 100
      characters once stripped, page-image OCR otherwise or on any read error. */
  function ToolFor(fileType: string, pdf: PdfPages): string {
    if fileType != "application/pdf" then ImageTesseract
    else if pdf.Err? then PdfTesseract
    else
      var sample := JoinPages(pdf.value[..SampleCount(pdf.value)]);
      if sample.Some? && |Strip(sample.value)| > 100 then PypdfText else PdfTesseract
  }

  /** One more page extends the joined text, or makes it None. */
  lemma JoinPagesSnoc(pages: seq<Option<string>>, i: nat)
    requires i < |pages|
    ensures JoinPages(pages[..i + 1]) ==
      if JoinPages(pages[..i]).Some? && pages[i].Some?
      then Some(JoinPages(pages[..i]).value + pages[i].value) else None
  {
    assert pages[..i + 1][..i] == pages[..i];
  }

  /** `OCRToolSelector.select_tool`. */
  method SelectTool(fileType: string, pdf: PdfPages) returns (tool: string)
    ensures tool == ToolFor(fileType, pdf)
  {
    if fileType != "application/pdf" {
      return ImageTesseract;
    }
    if pdf.Err? {
      return PdfTesseract;
    }
    var pages := pdf.value;
    var n := Min(3, |pages|);
    var totalText := "";
    var i := 0;
    while i < n
      invariant 0 <= i <= n
      invariant JoinPages(pages[..i]) == Some(totalText)
    {
      JoinPagesSnoc(pages, i);
      if pages[i].None? {
        return PdfTesseract;
      }
      totalText := totalText + pages[i].value;
      i := i + 1;
    }
    assert pages[..n] == pages[..SampleCount(pages)];
    if |Strip(totalText)| > 100 {
      return PypdfText;
    }
    return PdfTesseract;
  }

  /** What each extractor would return for the file. */
  datatype Extractions = Extractions(pypdf: string, imageOcr: string, pdfOcr: string)

  /** `OCRProcessor.process`: dispatch on the tool name; an unknown name
      raises. */
  function Process(tool: string, ex: Extractions): (r: Result<string, string>)
    ensures r.Ok? <==> tool in {PypdfText, ImageTesseract, PdfTesseract}
    ensures tool == PypdfText ==> r == Ok(ex.pypdf)
    ensures tool == ImageTesseract ==> r == Ok(ex.imageOcr)
    ensures tool == PdfTesseract ==> r == Ok(ex.pdfOcr)
    ensures r.Err? ==> r.error == "Unknown OCR tool: " + tool
  {
    if tool == PypdfText then Ok(ex.pypdf)
    else if tool == ImageTesseract then Ok(ex.imageOcr)
    else if tool == PdfTesseract then Ok(ex.pdfOcr)
    else Err("Unknown OCR tool: " + tool)
  }

  /** The dispatcher never raises on a tool the selector chose. */
  lemma SelectedToolIsDispatched(fileType: string, pdf: PdfPages, ex: Extractions)
    ensures Process(ToolFor(fileType, pdf), ex).Ok?
  {
  }

  /** A PDF with no readable text, or with no pages, goes to page-image OCR. */
  lemma EmptyPdfUsesImageOcr(pdf: PdfPages)
    requires pdf.Ok? && pdf.value == []
    ensures ToolFor("application/pdf", pdf) == PdfTesseract
  {
    assert pdf.value[..0] == [];
  }

  // ---------------------------------------------------------------------
  // Case-information extraction (keyword part)
  // ---------------------------------------------------------------------

  /** The case-type keywords in priority order, with their capitalised labels. */
  const CaseTypes: seq<(string, string)> := [
    ("criminal", "Criminal"), ("civil", "Civil"), ("writ", "Writ"), ("appeal", "Appeal"),
    ("petition", "Petition"), ("suit", "Suit"), ("application", "Application")]

  function FirstCaseTypeFrom(lowerText: string, k: nat): (r: Option<nat>)
    requires k <= |CaseTypes|
    ensures r.Some? ==> k <= r.value < |CaseTypes| && Contains(lowerText, CaseTypes[r.value].0)
                        && forall j :: k <= j < r.value ==> !Contains(lowerText, CaseTypes[j].0)
    ensures r.None? ==> forall j :: k <= j < |CaseTypes| ==> !Contains(lowerText, CaseTypes[j].0)
    decreases |CaseTypes| - k
  {
    if k == |CaseTypes| then None
    else if Contains(lowerText, CaseTypes[k].0) then Some(k)
    else FirstCaseTypeFrom(lowerText, k + 1)
  }

  /** The label of the first keyword, in list order, found anywhere in the
      lower-cased text. */
  function CaseType(text: string): (r: Option<string>)
    ensures r.None? <==> forall j :: 0 <= j < |CaseTypes| ==> !Contains(Lower(text), CaseTypes[j].0)
    ensures r.Some? ==> exists i :: (0 <= i < |CaseTypes| && r.value == CaseTypes[i].1
                        && Contains(Lower(text), CaseTypes[i].0)
                        && forall j :: 0 <= j < i ==> !Contains(Lower(text), CaseTypes[j].0))
  {
    var k := FirstCaseTypeFrom(Lower(text), 0);
    if k.Some? then Some(CaseTypes[k.value].1) else None
  }

  predicate NoDuplicates(s: seq<string>) {
    forall i, j :: 0 <= i < j < |s| ==> s[i] != s[j]
  }

  function Elements(s: seq<string>): set<string> {
    set x | x in s
  }

  lemma {:induction false} DistinctCount(s: seq<string>)
    requires NoDuplicates(s)
    ensures |Elements(s)| == |s|
  {
    if s != [] {
      var init := s[..|s| - 1];
      DistinctCount(init);
      assert Elements(s) == Elements(init) + {s[|s| - 1]};
      assert s[|s| - 1] !in Elements(init);
    }
  }

  /** The distinct values of `s` (Python `list(set(s))`, here in order of
      first occurrence). */
  function Distinct(s: seq<string>): (r: seq<string>)
    ensures NoDuplicates(r)
    ensures Elements(r) == Elements(s)
    ensures |r| == |Elements(s)|
  {
    if s == [] then []
    else
      var d := Distinct(s[..|s| - 1]);
      var x := s[|s| - 1];
      assert Elements(s) == Elements(s[..|s| - 1]) + {x};
      var r := if x in d then d else d + [x];
      assert Elements(r) == Elements(d) + {x};
      DistinctCount(r);
      r
  }

  /** At most `limit` distinct matches: `list(set(matches))[:limit]`. */
  function DistinctUpTo(matches: seq<string>, limit: nat): (r: seq<string>)
    ensures NoDuplicates(r)
    ensures forall x :: x in r ==> x in matches
    ensures |r| == Min(limit, |Elements(matches)|)
  {
    var d := Distinct(matches);
    assert forall x :: x in d ==> x in Elements(matches);
    Take(d, limit)
  }

  datatype CaseInfo = CaseInfo(
    petitioner: Option<string>, respondent: Option<string>, caseType: Option<string>,
    acts: seq<string>, sections: seq<string>, court: Option<string>)

  /** `extract_basic_info`. The party, court, act and section patterns are
      regular expressions; their (already stripped) matches are inputs. */
  function ExtractBasicInfo(text: string, petitioner: Option<string>, respondent: Option<string>,
                            court: Option<string>, actMatches: seq<string>, sectionMatches: seq<string>)
    : (r: CaseInfo)
    ensures r.caseType == CaseType(text)
    ensures NoDuplicates(r.acts) && |r.acts| == Min(5, |Elements(actMatches)|)
    ensures forall a :: a in r.acts ==> a in actMatches
    ensures NoDuplicates(r.sections) && |r.sections| == Min(10, |Elements(sectionMatches)|)
    ensures forall s :: s in r.sections ==> s in sectionMatches
    ensures r.petitioner == petitioner && r.respondent == respondent && r.court == court
  {
    CaseInfo(petitioner, respondent, CaseType(text),
             DistinctUpTo(actMatches, 5), DistinctUpTo(sectionMatches, 10), court)
  }
}
