/** The sign-up form of SignUp.tsx: the zod schema as a list of issues,
    the payload sent, and the `message` cell. Lengths are JavaScript string
    lengths, in UTF-16 code units. */
module SignUpForm {
  import opened Common
  import Text
  import Models

  datatype FormData = FormData(
    name: string,
    email: string,
    password: string,
    confirmPassword: string,
    phoneNumber: string,
    address: string,
    country: string)

  /** A validation issue: the field it is reported on and its message. */
  datatype Issue = Issue(path: string, message: string)

  /** One minimum-length rule. */
  function MinIssue(value: string, min: nat, path: string, message: string): (r: seq<Issue>)
    ensures r == [] <==> Text.Utf16Length(value) >= min
  {
    if Text.Utf16Length(value) >= min then [] else [Issue(path, message)]
  }

  /** The field rules in field order, then the password match, which zod
      checks whenever every field is a string. */
  function SchemaIssues(d: FormData, isEmail: Models.EmailCheck): (r: seq<Issue>)
  {
    MinIssue(d.name, 2, "name", "Name must be at least 2 characters")
    + (if isEmail(d.email) then [] else [Issue("email", "Invalid email")])
    + MinIssue(d.password, 6, "password", "Password must be at least 6 characters")
    + MinIssue(d.phoneNumber, 10, "phoneNumber", "Invalid phone number")
    + MinIssue(d.address, 5, "address", "Address is required")
    + MinIssue(d.country, 2, "country", "Country is required")
    + (if d.password == d.confirmPassword then [] else [Issue("confirmPassword", "Passwords must match")])
  }

  /** The form is accepted exactly when every rule holds. */
  lemma SchemaAccepts(d: FormData, isEmail: Models.EmailCheck)
    ensures SchemaIssues(d, isEmail) == [] <==>
              && Text.Utf16Length(d.name) >= 2 && isEmail(d.email)
              && Text.Utf16Length(d.password) >= 6 && Text.Utf16Length(d.phoneNumber) >= 10
              && Text.Utf16Length(d.address) >= 5 && Text.Utf16Length(d.country) >= 2
              && d.password == d.confirmPassword
  {
    var a := MinIssue(d.name, 2, "name", "Name must be at least 2 characters");
    var b := if isEmail(d.email) then [] else [Issue("email", "Invalid email")];
    var c := MinIssue(d.password, 6, "password", "Password must be at least 6 characters");
    var e := MinIssue(d.phoneNumber, 10, "phoneNumber", "Invalid phone number");
    var f := MinIssue(d.address, 5, "address", "Address is required");
    var g := MinIssue(d.country, 2, "country", "Country is required");
    var h := if d.password == d.confirmPassword then [] else [Issue("confirmPassword", "Passwords must match")];
    assert SchemaIssues(d, isEmail) == a + b + c + e + f + g + h;
    assert |SchemaIssues(d, isEmail)| == |a| + |b| + |c| + |e| + |f| + |g| + |h|;
  }

  /** A mismatch is reported on confirmPassword, after every field issue. */
  lemma MismatchOnConfirm(d: FormData, isEmail: Models.EmailCheck)
    requires d.password != d.confirmPassword
    ensures |SchemaIssues(d, isEmail)| > 0
    ensures SchemaIssues(d, isEmail)[|SchemaIssues(d, isEmail)| - 1] == Issue("confirmPassword", "Passwords must match")
  {
  }

  /** The request body: the form data with plan "Free". */
  datatype Payload = Payload(data: FormData, plan: string)

  function PayloadOf(d: FormData): (p: Payload)
    ensures p.data == d && p.plan == "Free"
  {
    Payload(d, "Free")
  }

  /** What the server binds from the body; every other field is ignored. */
  function BoundDto(p: Payload): (dto: Models.UserSignUpDto)
    ensures dto.name == p.data.name && dto.email == p.data.email && dto.password == p.data.password
  {
    Models.UserSignUpDto(p.data.name, p.data.email, p.data.password)
  }

  /** The form accepts passwords of 6 and 7 characters, which the server
      refuses with 400. */
  lemma ShortPasswordPassesFormOnly(d: FormData, isEmail: Models.EmailCheck)
    requires SchemaIssues(d, isEmail) == []
    requires Text.Utf16Length(d.password) < 8
    ensures !Models.ValidSignUp(BoundDto(PayloadOf(d)), isEmail)
  {
  }

  /** How the request ended: success, or a thrown error with its message. */
  datatype SubmitOutcome = Succeeded | Failed(errorMessage: Option<string>)

  class Form {
    var message: Option<string>

    constructor ()
      ensures message == None
    {
      message := None;
    }

    /** Submitting: with issues nothing is sent and the message stays;
        otherwise the payload is sent and the message reports the outcome.
        `toLogin` is the redirect scheduled on success. */
    method Submit(d: FormData, isEmail: Models.EmailCheck, outcome: SubmitOutcome)
      returns (sent: Option<Payload>, toLogin: bool)
      modifies this
      ensures SchemaIssues(d, isEmail) != [] ==> sent.None? && !toLogin && message == old(message)
      ensures SchemaIssues(d, isEmail) == [] ==> sent == Some(PayloadOf(d))
      ensures toLogin <==> SchemaIssues(d, isEmail) == [] && outcome.Succeeded?
      ensures toLogin ==> message == Some("Sign-up successful!")
      ensures sent.Some? && outcome.Failed? ==>
                message == Some(if outcome.errorMessage.Some? && outcome.errorMessage.value != ""
                                then outcome.errorMessage.value else "An error occurred")
    {
      if SchemaIssues(d, isEmail) != [] {
        return None, false;
      }
      sent := Some(PayloadOf(d));
      match outcome
      case Succeeded =>
        message := Some("Sign-up successful!");
        toLogin := true;
      case Failed(m) =>
        message := Some(if m.Some? && m.value != "" then m.value else "An error occurred");
        toLogin := false;
    }
  }
}
