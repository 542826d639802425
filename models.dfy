/** The records of Models/: User with its UserRole, the sign-up input, the
    customer and admin profile rows and the login input, with the
    validation rules their data-annotation attributes declare. Lengths are
    `string.Length`, in UTF-16 code units. */
module Models {
  import opened Common
  import Text

  datatype UserRole = Customer | Admin

  /** `UserRole.ToString()`: the text of the role claim and of responses. */
  function RoleName(r: UserRole): (s: string)
    ensures s == "Customer" || s == "Admin"
  {
    match r
    case Customer => "Customer"
    case Admin => "Admin"
  }

  lemma RoleNameInjective(a: UserRole, b: UserRole)
    requires RoleName(a) == RoleName(b)
    ensures a == b
  {
  }

  /** A stored user. `salt` may be null; `dateCreated` is in seconds. */
  datatype User = User(
    id: int,
    name: string,
    email: string,
    passwordHash: string,
    salt: Option<string>,
    role: UserRole,
    dateCreated: int)

  /** The `[EmailAddress]` check, left abstract. */
  type EmailCheck = string -> bool

  /** `[Required]` on a string: not null, not empty, not only white space. */
  predicate Required(s: string) {
    !Text.IsBlank(s)
  }

  /** What validating one attribute, or a whole object, gives. */
  datatype Validation = Passed | Failed | Threw

  /** A property value as a validation attribute receives it. */
  datatype PropertyValue = StringValue(s: string) | EnumValue(ordinal: int) | DateValue(t: int)

  /** `[Required]`: a string must not be blank; a value of another type is
      always present. */
  function RequiredAttr(v: PropertyValue): (r: Validation)
    ensures r != Threw
    ensures r == Failed <==> v.StringValue? && !Required(v.s)
  {
    match v
    case StringValue(s) => if Required(s) then Passed else Failed
    case _ => Passed
  }

  /** `[StringLength(max)]` casts the value to string, so a value of
      another type makes it throw. */
  function StringLengthAttr(v: PropertyValue, max: nat): (r: Validation)
    ensures r == Threw <==> !v.StringValue?
    ensures r == Passed <==> v.StringValue? && Text.Utf16Length(v.s) <= max
  {
    match v
    case StringValue(s) => if Text.Utf16Length(s) <= max then Passed else Failed
    case _ => Threw
  }

  /** `[MinLength(min)]` on a string. */
  function MinLengthAttr(s: string, min: nat): Validation {
    if Text.Utf16Length(s) >= min then Passed else Failed
  }

  /** `[EmailAddress]` on a string. */
  function EmailAttr(s: string, isEmail: EmailCheck): Validation {
    if isEmail(s) then Passed else Failed
  }

  /** The results of a sequence of attributes: the first exception ends
      validation; otherwise it fails when any attribute fails. */
  function Combine(results: seq<Validation>): (r: Validation)
    ensures r == Threw <==> Threw in results
    ensures r == Passed <==> forall i :: 0 <= i < |results| ==> results[i] == Passed
  {
    if results == [] then Passed
    else
      var rest := Combine(results[1..]);
      assert forall x :: x in results <==> x == results[0] || x in results[1..];
      if results[0] == Threw || rest == Threw then Threw
      else if results[0] == Failed || rest == Failed then Failed
      else Passed
  }

  /** The attributes of User other than the one on Role: Name required and
      at most 100 long; Email required and an e-mail address; PasswordHash
      required and at least 8 long (CreateUser checks this on the
      plain-text password); Role and DateCreated required. */
  function UserAttributes(u: User, isEmail: EmailCheck): seq<Validation> {
    [ RequiredAttr(StringValue(u.name)), StringLengthAttr(StringValue(u.name), 100),
      RequiredAttr(StringValue(u.email)), EmailAttr(u.email, isEmail),
      RequiredAttr(StringValue(u.passwordHash)), MinLengthAttr(u.passwordHash, 8),
      RequiredAttr(EnumValue(RoleOrdinal(u.role))), RequiredAttr(DateValue(u.dateCreated)) ]
  }

  /** The numeric value of a role. */
  function RoleOrdinal(r: UserRole): int {
    if r == Customer then 0 else 1
  }

  /** Validation of a User as written: the attributes above and
      `[StringLength(50)]` on the Role enum. */
  function ValidateUserAsWritten(u: User, isEmail: EmailCheck): Validation {
    Combine(UserAttributes(u, isEmail) + [StringLengthAttr(EnumValue(RoleOrdinal(u.role)), 50)])
  }

  /** As written, validating any User throws: the length attribute cannot
      cast the role to a string. */
  lemma RoleLengthAlwaysThrows(u: User, isEmail: EmailCheck)
    ensures ValidateUserAsWritten(u, isEmail) == Threw
  {
    var rs := UserAttributes(u, isEmail) + [StringLengthAttr(EnumValue(RoleOrdinal(u.role)), 50)];
    assert rs[|rs| - 1] == Threw;
  }

  /** A valid User, as the attributes evidently intend: every attribute
      but the role's length passes. */
  predicate ValidUser(u: User, isEmail: EmailCheck) {
    && Required(u.name) && Text.Utf16Length(u.name) <= 100
    && Required(u.email) && isEmail(u.email)
    && Required(u.passwordHash) && Text.Utf16Length(u.passwordHash) >= 8
  }

  /** ValidUser is exactly "every intended attribute passes". A valid name
      holds 1 to 100 characters, and a valid password at least 4 (8 UTF-16
      units). */
  lemma ValidUserAttributes(u: User, isEmail: EmailCheck)
    ensures ValidUser(u, isEmail) <==> Combine(UserAttributes(u, isEmail)) == Passed
    ensures ValidUser(u, isEmail) ==> 1 <= |u.name| <= 100 && |u.passwordHash| >= 4
  {
    var rs := UserAttributes(u, isEmail);
    if Combine(rs) == Passed {
      assert rs[0] == Passed && rs[1] == Passed && rs[2] == Passed && rs[3] == Passed;
      assert rs[4] == Passed && rs[5] == Passed;
    }
  }

  /** The body CreateUser binds: DateCreated, when the body leaves it out,
      is the time the object was constructed. */
  datatype UserInput = UserInput(
    name: string,
    email: string,
    passwordHash: string,
    salt: Option<string>,
    role: UserRole,
    dateCreated: Option<int>)

  function BindUser(input: UserInput, id: int, now: int): (u: User)
    ensures u.dateCreated == (if input.dateCreated.Some? then input.dateCreated.value else now)
    ensures u.name == input.name && u.email == input.email && u.role == input.role
  {
    User(id, input.name, input.email, input.passwordHash, input.salt, input.role,
         if input.dateCreated.Some? then input.dateCreated.value else now)
  }

  /** The sign-up body. A missing field binds like an empty one: both fail
      `[Required]`. */
  datatype UserSignUpDto = UserSignUpDto(name: string, email: string, password: string)

  predicate ValidSignUp(d: UserSignUpDto, isEmail: EmailCheck) {
    && Required(d.name) && Text.Utf16Length(d.name) <= 100
    && Required(d.email) && isEmail(d.email)
    && Required(d.password) && Text.Utf16Length(d.password) >= 8
  }

  /** The sign-up body carries User's rules, with Password in place of
      PasswordHash. */
  lemma SignUpRulesMatchUser(d: UserSignUpDto, isEmail: EmailCheck, id: int, now: int)
    ensures ValidSignUp(d, isEmail) <==> ValidUser(User(id, d.name, d.email, d.password, None, Customer, now), isEmail)
  {
  }

  datatype SubscriptionPlan = Free | Paid

  datatype CustomerDetails = CustomerDetails(
    id: int,
    userId: int,
    plan: SubscriptionPlan,
    preferences: Option<string>,
    address: string,
    country: string,
    phoneNumber: string)

  const DefaultAddress: string := "Default Address"
  const DefaultCountry: string := "Default Country"
  const DefaultPhoneNumber: string := "000-000-0000"

  /** `new CustomerDetails { Id, UserId, Preferences }`: every other field
      keeps its initialiser. */
  function NewCustomerDetails(id: int, userId: int, preferences: Option<string>): CustomerDetails {
    CustomerDetails(id, userId, Free, preferences, DefaultAddress, DefaultCountry, DefaultPhoneNumber)
  }

  /** Preferences optional and at most 500 long; Address (200), Country (100)
      and PhoneNumber (20) required and bounded. */
  predicate ValidCustomerDetails(d: CustomerDetails) {
    && (d.preferences.Some? ==> Text.Utf16Length(d.preferences.value) <= 500)
    && Required(d.address) && Text.Utf16Length(d.address) <= 200
    && Required(d.country) && Text.Utf16Length(d.country) <= 100
    && Required(d.phoneNumber) && Text.Utf16Length(d.phoneNumber) <= 20
  }

  lemma DefaultFieldsValid()
    ensures Required(DefaultAddress) && Text.Utf16Length(DefaultAddress) <= 200
    ensures Required(DefaultCountry) && Text.Utf16Length(DefaultCountry) <= 100
    ensures Required(DefaultPhoneNumber) && Text.Utf16Length(DefaultPhoneNumber) <= 20
  {
    // A literal is cheapest to index from its end.
    assert !Text.IsWhiteSpace(DefaultAddress[|DefaultAddress| - 1]);
    assert !Text.IsWhiteSpace(DefaultCountry[|DefaultCountry| - 1]);
    assert !Text.IsWhiteSpace(DefaultPhoneNumber[|DefaultPhoneNumber| - 1]);
  }

  /** A row built from the defaults is valid, on the Free plan, whatever
      preferences of at most 500 characters it is given. */
  lemma NewCustomerDetailsValid(id: int, userId: int, preferences: Option<string>)
    requires preferences.Some? ==> Text.Utf16Length(preferences.value) <= 500
    ensures ValidCustomerDetails(NewCustomerDetails(id, userId, preferences))
    ensures NewCustomerDetails(id, userId, preferences).plan == Free
    ensures NewCustomerDetails(id, userId, preferences).userId == userId
  {
    DefaultFieldsValid();
  }

  /** The admin profile row; Permissions defaults to the empty string. */
  datatype AdminDetails = AdminDetails(id: int, userId: int, permissions: string)

  /** The login body. */
  datatype LoginModel = LoginModel(email: string, password: string)
}
