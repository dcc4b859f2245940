/** Request validation of the FastAPI backend (backend/app/db/schemas.py):
    the field bounds declared on the Pydantic schemas and the password
    validator. Pydantic validates every field independently and reports one
    error per failing field, so a validation result maps each failing field
    to its violation; the empty map means the request is accepted. A field
    whose declared bounds fail never reaches its custom validator. */
module Schemas {
  import opened Common
  import Models

  /** The validated request fields, with the names Pydantic reports. */
  datatype Field =
    | Email | KhcAdvocateId | KhcAdvocateName | Password
    | EfilingNumber | CaseType | CaseYear | PartyRole | PetitionerName | RespondentName
    | Title | FileSize
  {
    function Name(): string {
      match this
      case Email => "email"
      case KhcAdvocateId => "khc_advocate_id"
      case KhcAdvocateName => "khc_advocate_name"
      case Password => "password"
      case EfilingNumber => "efiling_number"
      case CaseType => "case_type"
      case CaseYear => "case_year"
      case PartyRole => "party_role"
      case PetitionerName => "petitioner_name"
      case RespondentName => "respondent_name"
      case Title => "title"
      case FileSize => "file_size"
    }
  }

  /** Why a field was rejected: a declared bound or a custom validator's
      `ValueError`. */
  datatype Violation =
    | MinLength(min: nat)
    | MaxLength(max: nat)
    | GreaterEqual(lo: int)
    | LessEqual(hi: int)
    | GreaterThan(bound: int)
    | Pattern(regex: string)
    | NotAnEmail
    | ValueError(reason: PasswordReason)

  datatype PasswordReason = TooShort | NoDigit | NoUppercase {
    function Text(): string {
      match this
      case TooShort => "Password must be at least 8 characters"
      case NoDigit => "Password must contain at least one digit"
      case NoUppercase => "Password must contain at least one uppercase letter"
    }
  }

  type Errors = map<Field, Violation>

  /** What the `EmailStr` type makes of an address: the normalised address
      it passes on, or None for an address it rejects. The e-mail validator
      behind it is not part of this model. */
  type EmailCheck = string -> Option<string>

  function EmailError(email: string, checkEmail: EmailCheck): (r: Option<Violation>)
    ensures r.None? <==> checkEmail(email).Some?
    ensures r.Some? ==> r.value == NotAnEmail
  {
    if checkEmail(email).Some? then None else Some(NotAnEmail)
  }

  /** The error entry for one field, if it failed. */
  function Check(field: Field, v: Option<Violation>): (r: Errors)
    ensures field in r <==> v.Some?
    ensures v.Some? ==> r[field] == v.value
    ensures forall k :: k in r ==> k == field
  {
    if v.Some? then map[field := v.value] else map[]
  }

  /** `Field(min_length=lo, max_length=hi)` on a string; `hi` absent means
      no maximum. The minimum is checked first. */
  function LengthError(s: string, lo: nat, hi: Option<nat>): (r: Option<Violation>)
    ensures r.None? <==> lo <= |s| && (hi.Some? ==> |s| <= hi.value)
    ensures |s| < lo ==> r == Some(MinLength(lo))
    ensures lo <= |s| && r.Some? ==> hi.Some? && r == Some(MaxLength(hi.value))
  {
    if |s| < lo then Some(MinLength(lo))
    else if hi.Some? && |s| > hi.value then Some(MaxLength(hi.value))
    else None
  }

  // ---------------------------------------------------------------------
  // Passwords
  // ---------------------------------------------------------------------

  predicate HasDigit(s: string) { exists i :: 0 <= i < |s| && IsDigit(s[i]) }
  predicate HasUpper(s: string) { exists i :: 0 <= i < |s| && IsUpper(s[i]) }

  /** `UserCreate.validate_password`: length, then a digit, then an
      uppercase letter; the first rule that fails is reported. */
  function PasswordRule(v: string): (r: Option<PasswordReason>)
    ensures r.None? <==> |v| >= 8 && HasDigit(v) && HasUpper(v)
    ensures |v| < 8 ==> r == Some(TooShort)
    ensures |v| >= 8 && !HasDigit(v) ==> r == Some(NoDigit)
    ensures |v| >= 8 && HasDigit(v) && !HasUpper(v) ==> r == Some(NoUppercase)
  {
    if |v| < 8 then Some(TooShort)
    else if !HasDigit(v) then Some(NoDigit)
    else if !HasUpper(v) then Some(NoUppercase)
    else None
  }

  /** The `password` field of `UserCreate`: the declared bounds 8..100 run
      first, and the validator only sees a password that met them, so the
      validator's own length rule never fires. */
  function UserCreatePasswordError(v: string): (r: Option<Violation>)
    ensures r.None? <==> 8 <= |v| <= 100 && HasDigit(v) && HasUpper(v)
    ensures r != Some(ValueError(TooShort))
    ensures |v| < 8 ==> r == Some(MinLength(8))
    ensures |v| > 100 ==> r == Some(MaxLength(100))
    ensures 8 <= |v| <= 100 && !HasDigit(v) ==> r == Some(ValueError(NoDigit))
    ensures 8 <= |v| <= 100 && HasDigit(v) && !HasUpper(v) ==> r == Some(ValueError(NoUppercase))
  {
    var bounds := LengthError(v, 8, Some(100));
    if bounds.Some? then bounds
    else
      var rule := PasswordRule(v);
      if rule.Some? then Some(ValueError(rule.value)) else None
  }

  // ---------------------------------------------------------------------
  // User schemas
  // ---------------------------------------------------------------------

  /** The fields `UserCreate` inherits from `UserBase`: an address
      `EmailStr` accepts, the KHC advocate id (5..50 characters) and name
      (2..255). */
  function ValidateUserBase(email: string, khcAdvocateId: string, khcAdvocateName: string,
                            checkEmail: EmailCheck): (errs: Errors)
    ensures errs == map[] <==>
      checkEmail(email).Some? && 5 <= |khcAdvocateId| <= 50 && 2 <= |khcAdvocateName| <= 255
    ensures Email in errs <==> checkEmail(email).None?
    ensures KhcAdvocateId in errs <==> !(5 <= |khcAdvocateId| <= 50)
    ensures KhcAdvocateName in errs <==> !(2 <= |khcAdvocateName| <= 255)
    ensures errs.Keys <= {Email, KhcAdvocateId, KhcAdvocateName}
  {
    var r := Check(Email, EmailError(email, checkEmail))
      + Check(KhcAdvocateId, LengthError(khcAdvocateId, 5, Some(50)))
      + Check(KhcAdvocateName, LengthError(khcAdvocateName, 2, Some(255)));
    assert r == map[] <== Email !in r && KhcAdvocateId !in r && KhcAdvocateName !in r;
    r
  }

  /** `UserCreate`: the `UserBase` fields and the password. */
  function ValidateUserCreate(email: string, khcAdvocateId: string, khcAdvocateName: string, password: string,
                              checkEmail: EmailCheck): (errs: Errors)
    ensures errs == map[] <==>
      checkEmail(email).Some? && 5 <= |khcAdvocateId| <= 50 && 2 <= |khcAdvocateName| <= 255
      && 8 <= |password| <= 100 && HasDigit(password) && HasUpper(password)
    ensures Email in errs <==> checkEmail(email).None?
    ensures Email in errs ==> errs[Email] == NotAnEmail
    ensures KhcAdvocateId in errs <==> !(5 <= |khcAdvocateId| <= 50)
    ensures KhcAdvocateName in errs <==> !(2 <= |khcAdvocateName| <= 255)
    ensures Password in errs <==> !(8 <= |password| <= 100 && HasDigit(password) && HasUpper(password))
    ensures Password in errs ==> errs[Password] == UserCreatePasswordError(password).value
    ensures errs.Keys <= {Email, KhcAdvocateId, KhcAdvocateName, Password}
  {
    var base := ValidateUserBase(email, khcAdvocateId, khcAdvocateName, checkEmail);
    var r := base + Check(Password, UserCreatePasswordError(password));
    assert base.Keys <= r.Keys;
    assert r == map[] <== base == map[] && Password !in r;
    r
  }

  /** `UserRegister`: an address `EmailStr` accepts and a password of at
      least 8 characters; the other fields are unconstrained strings. */
  function ValidateUserRegister(email: string, password: string, checkEmail: EmailCheck): (errs: Errors)
    ensures errs == map[] <==> checkEmail(email).Some? && |password| >= 8
    ensures Email in errs <==> checkEmail(email).None?
    ensures Password in errs <==> |password| < 8
    ensures Password in errs ==> errs[Password] == MinLength(8)
    ensures errs.Keys <= {Email, Password}
  {
    var r := Check(Email, EmailError(email, checkEmail)) + Check(Password, LengthError(password, 8, None));
    assert r == map[] <== Email !in r && Password !in r;
    r
  }

  /** For any address `EmailStr` accepts and any advocate id and name the
      creation schema accepts, every password of 8 to 100 characters without
      a digit passes the registration schema and is refused by the creation
      schema for that reason alone: registration has no digit or uppercase
      rule and no maximum. */
  lemma RegisterWeakerThanCreate(email: string, khcAdvocateId: string, khcAdvocateName: string,
                                 password: string, checkEmail: EmailCheck)
    requires checkEmail(email).Some?
    requires 5 <= |khcAdvocateId| <= 50 && 2 <= |khcAdvocateName| <= 255
    requires 8 <= |password| <= 100 && !HasDigit(password)
    ensures ValidateUserRegister(email, password, checkEmail) == map[]
    ensures ValidateUserCreate(email, khcAdvocateId, khcAdvocateName, password, checkEmail)
         == map[Password := ValueError(NoDigit)]
  {
    var errs := ValidateUserCreate(email, khcAdvocateId, khcAdvocateName, password, checkEmail);
    assert errs.Keys == {Password};
  }

  /** Such passwords exist: `abcdefgh` is one. */
  lemma LetterPasswordHasNoDigit()
    ensures 8 <= |"abcdefgh"| <= 100 && !HasDigit("abcdefgh")
  {
    var p := "abcdefgh";
    forall i | 0 <= i < |p| ensures !IsDigit(p[i]) { }
  }

  // ---------------------------------------------------------------------
  // Case schemas
  // ---------------------------------------------------------------------

  const PartyRolePattern: string := "^(petitioner|respondent)$"

  function CaseYearError(y: int): (r: Option<Violation>)
    ensures r.None? <==> 2000 <= y <= 2100
    ensures y < 2000 ==> r == Some(GreaterEqual(2000))
    ensures y > 2100 ==> r == Some(LessEqual(2100))
  {
    if y < 2000 then Some(GreaterEqual(2000))
    else if y > 2100 then Some(LessEqual(2100))
    else None
  }

  function PartyRoleError(role: string): (r: Option<Violation>)
    ensures r.None? <==> role == "petitioner" || role == "respondent"
  {
    if role == "petitioner" || role == "respondent" then None
    else Some(Pattern(PartyRolePattern))
  }

  /** `CaseBase`: efiling number at least 5 characters, case type and both
      party names at least 2, year in 2000..2100, party role one of two. */
  function ValidateCaseBase(efilingNumber: string, caseType: string, caseYear: int,
                            partyRole: string, petitionerName: string, respondentName: string): (errs: Errors)
    ensures errs == map[] <==>
      |efilingNumber| >= 5 && |caseType| >= 2 && 2000 <= caseYear <= 2100
      && (partyRole == "petitioner" || partyRole == "respondent")
      && |petitionerName| >= 2 && |respondentName| >= 2
    ensures EfilingNumber in errs <==> |efilingNumber| < 5
    ensures CaseType in errs <==> |caseType| < 2
    ensures CaseYear in errs <==> !(2000 <= caseYear <= 2100)
    ensures PartyRole in errs <==> !(partyRole == "petitioner" || partyRole == "respondent")
    ensures PetitionerName in errs <==> |petitionerName| < 2
    ensures RespondentName in errs <==> |respondentName| < 2
    ensures errs.Keys <= {EfilingNumber, CaseType, CaseYear, PartyRole, PetitionerName, RespondentName}
  {
    var a := CaseIdentityErrors(efilingNumber, caseType, caseYear);
    var b := CasePartyErrors(partyRole, petitionerName, respondentName);
    var r := a + b;
    assert r == map[] <== a == map[] && b == map[];
    assert a == map[] && b == map[] <== r == map[] by {
      assert a.Keys <= r.Keys;
    }
    r
  }

  /** The fields of `CaseBase` that identify the case. */
  function CaseIdentityErrors(efilingNumber: string, caseType: string, caseYear: int): (errs: Errors)
    ensures errs == map[] <==> |efilingNumber| >= 5 && |caseType| >= 2 && 2000 <= caseYear <= 2100
    ensures EfilingNumber in errs <==> |efilingNumber| < 5
    ensures CaseType in errs <==> |caseType| < 2
    ensures CaseYear in errs <==> !(2000 <= caseYear <= 2100)
    ensures errs.Keys <= {EfilingNumber, CaseType, CaseYear}
  {
    var r := Check(EfilingNumber, LengthError(efilingNumber, 5, None))
      + Check(CaseType, LengthError(caseType, 2, None))
      + Check(CaseYear, CaseYearError(caseYear));
    assert r == map[] <== EfilingNumber !in r && CaseType !in r && CaseYear !in r;
    r
  }

  /** The fields of `CaseBase` that describe the parties. */
  function CasePartyErrors(partyRole: string, petitionerName: string, respondentName: string): (errs: Errors)
    ensures errs == map[] <==>
      (partyRole == "petitioner" || partyRole == "respondent") && |petitionerName| >= 2 && |respondentName| >= 2
    ensures PartyRole in errs <==> !(partyRole == "petitioner" || partyRole == "respondent")
    ensures PetitionerName in errs <==> |petitionerName| < 2
    ensures RespondentName in errs <==> |respondentName| < 2
    ensures errs.Keys <= {PartyRole, PetitionerName, RespondentName}
  {
    var r := Check(PartyRole, PartyRoleError(partyRole))
      + Check(PetitionerName, LengthError(petitionerName, 2, None))
      + Check(RespondentName, LengthError(respondentName, 2, None));
    assert r == map[] <== PartyRole !in r && PetitionerName !in r && RespondentName !in r;
    r
  }

  /** Every party role the schema accepts is a stored enum value, but two
      enum values (appellant, defendant) can never come through the schema. */
  lemma PartyRoleNarrowerThanEnum(role: string)
    ensures PartyRoleError(role).None? ==> Models.PartyRoleFromName(role).Some?
    ensures PartyRoleError(Models.CasePartyRole.Appellant.Name()).Some?
    ensures PartyRoleError(Models.CasePartyRole.Defendant.Name()).Some?
  {
  }

  // ---------------------------------------------------------------------
  // Document schemas
  // ---------------------------------------------------------------------

  function FileSizeError(n: int): (r: Option<Violation>)
    ensures r.None? <==> n > 0
    ensures r.Some? ==> r.value == GreaterThan(0)
  {
    if n > 0 then None else Some(GreaterThan(0))
  }

  /** `DocumentCreate`: title 1..255 characters and a positive size. */
  function ValidateDocumentCreate(title: string, fileSize: int): (errs: Errors)
    ensures errs == map[] <==> 1 <= |title| <= 255 && fileSize > 0
    ensures Title in errs <==> !(1 <= |title| <= 255)
    ensures FileSize in errs <==> fileSize <= 0
    ensures errs.Keys <= {Title, FileSize}
  {
    var r := Check(Title, LengthError(title, 1, Some(255))) + Check(FileSize, FileSizeError(fileSize));
    assert r == map[] <== Title !in r && FileSize !in r;
    r
  }

  /** `DocumentUpdate`: the same title bounds, only when a title is supplied
      (an explicit null is accepted too). */
  function ValidateDocumentUpdate(title: Option<string>): (errs: Errors)
    ensures errs == map[] <==> title.None? || 1 <= |title.value| <= 255
    ensures errs.Keys <= {Title}
  {
    if title.Some? then Check(Title, LengthError(title.value, 1, Some(255))) else map[]
  }
}
