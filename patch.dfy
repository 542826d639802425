/** JSON Patch applied to a User, as PatchUser and UpdateCustomerProfile use
    it, and the filter that UpdateCustomerProfile runs over the operations
    first. The library splits a path into pieces and resolves them
    against the properties of User; values are converted to the property's
    type. A path that names no property, or a value that does not convert,
    is an error the library logs; a malformed escape makes it throw. */
module Patch {
  import opened Common
  import Text
  import opened Models

  /** A JSON value in an operation: a string, a number, an ISO-8601 date
      (seconds) or null. */
  datatype PatchValue = Str(s: string) | Num(n: int) | Date(t: int) | Null

  datatype OpKind = Add | Replace | Remove | Move | Copy

  /** One operation: `path` is its target, `from` its source (Move, Copy). */
  datatype Operation = Operation(op: OpKind, path: string, from: string, value: PatchValue)

  datatype Field = IdField | NameField | EmailField | PasswordHashField | SaltField | RoleField | DateCreatedField

  /** Where a path leads on a User: a property, nowhere (a logged error),
      or a malformed escape, on which the library throws. */
  datatype Location = Property(field: Field) | Unresolved | Malformed

  /** A user while a patch is applied to it: the non-nullable strings can be
      set to null here; the database refuses to store that. */
  datatype Draft = Draft(
    id: int,
    name: Option<string>,
    email: Option<string>,
    passwordHash: Option<string>,
    salt: Option<string>,
    role: UserRole,
    dateCreated: int)

  /** `DateTime.MinValue`, what removing DateCreated leaves. */
  const MinDate: int := 0

  /** What `patchDoc.ApplyTo(user, ModelState)` leaves: the patched user,
      errors in ModelState, or an exception. */
  datatype Outcome = Patched(draft: Draft) | Invalid | Thrown

  function ToDraft(u: User): Draft {
    Draft(u.id, Some(u.name), Some(u.email), Some(u.passwordHash), u.salt, u.role, u.dateCreated)
  }

  /** The name under which the contract resolver lists a field. */
  function FieldName(f: Field): string {
    match f
    case IdField => "id"
    case NameField => "name"
    case EmailField => "email"
    case PasswordHashField => "passwordHash"
    case SaltField => "salt"
    case RoleField => "role"
    case DateCreatedField => "dateCreated"
  }

  /** The property one path piece names, matched without regard to case. */
  function PropertyNamed(name: string): (r: Option<Field>)
    ensures r.Some? ==> Text.EqualsIgnoreCase(name, FieldName(r.value))
  {
    if Text.EqualsIgnoreCase(name, "id") then Some(IdField)
    else if Text.EqualsIgnoreCase(name, "name") then Some(NameField)
    else if Text.EqualsIgnoreCase(name, "email") then Some(EmailField)
    else if Text.EqualsIgnoreCase(name, "passwordHash") then Some(PasswordHashField)
    else if Text.EqualsIgnoreCase(name, "salt") then Some(SaltField)
    else if Text.EqualsIgnoreCase(name, "role") then Some(RoleField)
    else if Text.EqualsIgnoreCase(name, "dateCreated") then Some(DateCreatedField)
    else None
  }

  /** Every field is found under its own name. */
  lemma PropertyNamedFieldName(f: Field)
    ensures PropertyNamed(FieldName(f)) == Some(f)
  {
    match f
    case IdField =>
    case NameField =>
      assert !Text.EqualsIgnoreCase("name", "id");
    case EmailField =>
      assert !Text.EqualsIgnoreCase("email", "name");
    case PasswordHashField =>
      assert !Text.EqualsIgnoreCase("passwordHash", "email");
    case SaltField =>
      assert Text.AsciiUpper("salt"[0]) != Text.AsciiUpper("name"[0]);
    case RoleField =>
      assert Text.AsciiUpper("role"[0]) != Text.AsciiUpper("name"[0]);
      assert Text.AsciiUpper("role"[0]) != Text.AsciiUpper("salt"[0]);
    case DateCreatedField =>
      assert !Text.EqualsIgnoreCase("dateCreated", "passwordHash");
  }

  /** Names that differ only in case name the same property. */
  lemma PropertyNamedIgnoresCase(a: string, b: string)
    requires Text.EqualsIgnoreCase(a, b)
    ensures PropertyNamed(a) == PropertyNamed(b)
  {
    forall c: string
      ensures Text.EqualsIgnoreCase(a, c) <==> Text.EqualsIgnoreCase(b, c)
    {
      Text.EqualsIgnoreCaseSwap(a, b, c);
    }
  }

  /** No '/' and no '~': a piece the path reader copies unchanged. */
  predicate Plain(s: string) {
    forall i :: 0 <= i < |s| ==> s[i] != '/' && s[i] != '~'
  }

  /** The pieces of a path that follow `piece`, the piece read so far:
      '/' ends a piece, empty pieces are skipped, and "~0" and "~1" stand
      for '~' and '/'. None when anything else, or nothing, follows a '~'. */
  function Pieces(s: string, piece: string): (r: Option<seq<string>>)
    ensures r.Some? ==> forall i :: 0 <= i < |r.value| ==> r.value[i] != []
    decreases |s|
  {
    if s == [] then Some(if piece == [] then [] else [piece])
    else if s[0] == '/' then
      match Pieces(s[1..], [])
      case None => None
      case Some(rest) => Some(if piece == [] then rest else [piece] + rest)
    else if s[0] == '~' then
      if |s| >= 2 && s[1] == '0' then Pieces(s[2..], piece + ['~'])
      else if |s| >= 2 && s[1] == '1' then Pieces(s[2..], piece + ['/'])
      else None
    else Pieces(s[1..], piece + [s[0]])
  }

  /** A plain prefix is copied into the current piece. */
  lemma {:induction false} PiecesPlainPrefix(s: string, rest: string, piece: string)
    requires Plain(s)
    ensures Pieces(s + rest, piece) == Pieces(rest, piece + s)
    decreases |s|
  {
    if s == [] {
      assert s + rest == rest && piece + s == piece;
    } else {
      assert (s + rest)[0] == s[0] && (s + rest)[1..] == s[1..] + rest;
      PiecesPlainPrefix(s[1..], rest, piece + [s[0]]);
      assert piece + [s[0]] + s[1..] == piece + s;
    }
  }

  /** The location of a path on a User: one piece names a property; no
      piece, several pieces or an unknown name lead nowhere. */
  function Locate(path: string): Location
  {
    match Pieces(path, [])
    case None => Malformed
    case Some(ps) =>
      if |ps| == 1 && PropertyNamed(ps[0]).Some? then Property(PropertyNamed(ps[0]).value) else Unresolved
  }

  /** A plain name reaches the same location with or without a leading
      '/', with a trailing '/' and with a doubled '/'. */
  lemma LocateSpellings(name: string)
    requires name != [] && Plain(name)
    ensures Locate(name) == (if PropertyNamed(name).Some? then Property(PropertyNamed(name).value) else Unresolved)
    ensures Locate("/" + name) == Locate(name)
    ensures Locate("/" + name + "/") == Locate(name)
    ensures Locate("//" + name) == Locate(name)
  {
    assert Pieces(name, []) == Some([name]) by {
      PiecesPlainPrefix(name, [], []);
      assert name + [] == name && [] + name == name;
    }
    assert Pieces("/" + name, []) == Some([name]) by {
      assert ("/" + name)[0] == '/' && ("/" + name)[1..] == name;
    }
    assert Pieces("/" + name + "/", []) == Some([name]) by {
      assert ("/" + name + "/")[0] == '/' && ("/" + name + "/")[1..] == name + "/";
      PiecesPlainPrefix(name, "/", []);
      assert [] + name == name;
      assert "/"[1..] == [] && Pieces([], []) == Some([]);
      assert [name] + [] == [name];
    }
    assert Pieces("//" + name, []) == Some([name]) by {
      assert ("//" + name)[0] == '/' && ("//" + name)[1..] == "/" + name;
    }
  }

  /** The paths the example patches below use. */
  lemma LocatedEmail()
    ensures Locate("/email") == Property(EmailField)
  {
    PropertyNamedFieldName(EmailField);
    PiecesPlainPrefix("email", [], []);
    assert "email" + [] == "email" && [] + "email" == "email";
    assert "/email"[0] == '/' && "/email"[1..] == "email";
  }

  lemma LocatedName()
    ensures Locate("/name") == Property(NameField)
  {
    PropertyNamedFieldName(NameField);
    PiecesPlainPrefix("name", [], []);
    assert "name" + [] == "name" && [] + "name" == "name";
    assert "/name"[0] == '/' && "/name"[1..] == "name";
  }

  lemma LocatedSalt()
    ensures Locate("/salt") == Property(SaltField)
  {
    PropertyNamedFieldName(SaltField);
    PiecesPlainPrefix("salt", [], []);
    assert "salt" + [] == "salt" && [] + "salt" == "salt";
    assert "/salt"[0] == '/' && "/salt"[1..] == "salt";
  }

  lemma LocatedRole()
    ensures Locate("role") == Property(RoleField)
  {
    PropertyNamedFieldName(RoleField);
    PiecesPlainPrefix("role", [], []);
    assert "role" + [] == "role" && [] + "role" == "role";
  }

  lemma LocatedId()
    ensures Locate("/id") == Property(IdField)
  {
    PropertyNamedFieldName(IdField);
    PiecesPlainPrefix("id", [], []);
    assert "id" + [] == "id" && [] + "id" == "id";
    assert "/id"[0] == '/' && "/id"[1..] == "id";
  }

  /** The value a field holds, as read by Move and Copy. The role is read as
      its number (Customer 0, Admin 1). */
  function Get(d: Draft, f: Field): PatchValue {
    match f
    case IdField => Num(d.id)
    case NameField => if d.name.Some? then Str(d.name.value) else Null
    case EmailField => if d.email.Some? then Str(d.email.value) else Null
    case PasswordHashField => if d.passwordHash.Some? then Str(d.passwordHash.value) else Null
    case SaltField => if d.salt.Some? then Str(d.salt.value) else Null
    case RoleField => Num(if d.role == Customer then 0 else 1)
    case DateCreatedField => Date(d.dateCreated)
  }

  /** A value converted to a nullable string. */
  function AsText(v: PatchValue): Option<Option<string>> {
    match v
    case Str(s) => Some(Some(s))
    case Num(n) => Some(Some(Text.Int32ToString(n)))
    case Null => Some(None)
    case Date(_) => None
  }

  /** The role with a given number. */
  function RoleOfNumber(n: int): Option<UserRole> {
    if n == 0 then Some(Customer) else if n == 1 then Some(Admin) else None
  }

  /** A value converted to a UserRole, as the enum parser does: text is
      trimmed; text that starts with a digit or a sign is a number, other
      text a name in any case. A number is the role with that value. */
  function AsRole(v: PatchValue): Option<UserRole> {
    match v
    case Str(s) =>
      var t := Text.Trim(s);
      if t != [] && (Text.IsDigit(t[0]) || t[0] == '-' || t[0] == '+') then
        if Text.ParseInt32(t).Some? then RoleOfNumber(Text.ParseInt32(t).value) else None
      else if Text.EqualsIgnoreCase(t, "Customer") then Some(Customer)
      else if Text.EqualsIgnoreCase(t, "Admin") then Some(Admin)
      else None
    case Num(n) => RoleOfNumber(n)
    case _ => None
  }

  /** Numeric text names the role with that number: "0" is Customer and
      "1" is Admin. */
  lemma AsRoleNumberText(n: int)
    requires n == 0 || n == 1
    ensures AsRole(Str(Text.Int32ToString(n))) == RoleOfNumber(n)
  {
    var s := Text.Int32ToString(n);
    assert s == [Text.DigitChar(n)];
    assert Text.Trim(s) == s;
    Text.Int32RoundTrip(n);
  }

  /** A role's name in any case, with white space around it, names that
      role. */
  lemma AsRolePaddedName(pre: string, name: string, post: string, r: UserRole)
    requires forall i :: 0 <= i < |pre| ==> Text.IsWhiteSpace(pre[i])
    requires forall i :: 0 <= i < |post| ==> Text.IsWhiteSpace(post[i])
    requires Text.EqualsIgnoreCase(name, RoleName(r))
    ensures AsRole(Str(pre + name + post)) == Some(r)
  {
    Text.TrimPadded(pre, name, post);
    var n := RoleName(r);
    assert n[0] == 'C' || n[0] == 'A';
    assert n[|n| - 1] == 'r' || n[|n| - 1] == 'n';
    assert Text.AsciiUpper(name[0]) == Text.AsciiUpper(n[0]);
    assert Text.AsciiUpper(name[|name| - 1]) == Text.AsciiUpper(n[|n| - 1]);
    assert Text.Trim(name) == name;
    Text.EqualsIgnoreCaseSwap(name, n, "Customer");
    Text.EqualsIgnoreCaseSwap(name, n, "Admin");
  }

  /** Writing a value to a field; None when the value does not convert.
      No other field changes. */
  function Set(d: Draft, f: Field, v: PatchValue): (r: Option<Draft>)
    ensures r.Some? ==> forall g :: g != f ==> Get(r.value, g) == Get(d, g)
  {
    match f
    case IdField =>
      (match v
       case Num(n) => if Int32Min <= n <= Int32Max then Some(d.(id := n)) else None
       case Str(s) => if Text.ParseInt32(s).Some? then Some(d.(id := Text.ParseInt32(s).value)) else None
       case _ => None)
    case NameField => if AsText(v).Some? then Some(d.(name := AsText(v).value)) else None
    case EmailField => if AsText(v).Some? then Some(d.(email := AsText(v).value)) else None
    case PasswordHashField => if AsText(v).Some? then Some(d.(passwordHash := AsText(v).value)) else None
    case SaltField => if AsText(v).Some? then Some(d.(salt := AsText(v).value)) else None
    case RoleField => if AsRole(v).Some? then Some(d.(role := AsRole(v).value)) else None
    case DateCreatedField => if v.Date? then Some(d.(dateCreated := v.t)) else None
  }

  /** Writing back the value a field holds changes nothing: Get and Set
      agree on every field. The one exception is a key outside the int32
      range, which no User can hold: it does not convert back. */
  lemma SetGet(d: Draft, f: Field)
    ensures f != IdField || Int32Min <= d.id <= Int32Max ==> Set(d, f, Get(d, f)) == Some(d)
    ensures f == IdField && !(Int32Min <= d.id <= Int32Max) ==> Set(d, f, Get(d, f)) == None
  {
  }

  /** Removing a property of an object sets it to its default value. */
  function Clear(d: Draft, f: Field): (r: Draft)
    ensures forall g :: g != f ==> Get(r, g) == Get(d, g)
    ensures Get(r, f) in {Num(0), Null, Date(MinDate)}
  {
    match f
    case IdField => d.(id := 0)
    case NameField => d.(name := None)
    case EmailField => d.(email := None)
    case PasswordHashField => d.(passwordHash := None)
    case SaltField => d.(salt := None)
    case RoleField => d.(role := Customer)
    case DateCreatedField => d.(dateCreated := MinDate)
  }

  /** A key outside the int32 range does not convert: replacing "/id" with
      it is a logged error, so the document is invalid. */
  lemma ReplaceIdOutOfRangeInvalid(d: Draft, n: int)
    requires !(Int32Min <= n <= Int32Max)
    ensures ApplyTo(d, [Operation(Replace, "/id", "", Num(n))]) == Invalid
  {
    LocatedId();
    var o := Operation(Replace, "/id", "", Num(n));
    assert ApplyOp(d, o) == None;
    assert [o][1..] == [];
  }

  /** The fields an operation changes: its target, and for a move also its
      source. */
  predicate Writes(o: Operation, f: Field) {
    Locate(o.path) == Property(f) || (o.op == Move && Locate(o.from) == Property(f))
  }

  /** The operations that make the library throw. Add, Replace and Remove
      read `path`; Move and Copy read `from`, and `path` only when `from`
      names a property. */
  predicate OpThrows(o: Operation) {
    match o.op
    case Move => Locate(o.from).Malformed? || (Locate(o.from).Property? && Locate(o.path).Malformed?)
    case Copy => Locate(o.from).Malformed? || (Locate(o.from).Property? && Locate(o.path).Malformed?)
    case _ => Locate(o.path).Malformed?
  }

  /** One operation that does not throw; None is an error the library logs
      in ModelState (a path that leads nowhere, a value that does not
      convert). Only the fields the operation writes change. */
  function ApplyOp(d: Draft, o: Operation): (r: Option<Draft>)
    ensures r.Some? ==> forall f :: !Writes(o, f) ==> Get(r.value, f) == Get(d, f)
  {
    var to := Locate(o.path);
    var from := Locate(o.from);
    match o.op
    case Add => if to.Property? then Set(d, to.field, o.value) else None
    case Replace => if to.Property? then Set(d, to.field, o.value) else None
    case Remove => if to.Property? then Some(Clear(d, to.field)) else None
    case Copy => if from.Property? && to.Property? then Set(d, to.field, Get(d, from.field)) else None
    case Move =>
      if from.Property? && to.Property? then Set(Clear(d, from.field), to.field, Get(d, from.field)) else None
  }

  /** No operation of `ops` writes `f`. */
  predicate Untouched(ops: seq<Operation>, f: Field) {
    forall i :: 0 <= i < |ops| ==> !Writes(ops[i], f)
  }

  /** `patchDoc.ApplyTo(user, ModelState)`: the operations in order. After
      a logged error the next operations still run, and the result is
      invalid; an operation that throws ends the call. A patched user
      differs from the original only in fields some operation writes. */
  function ApplyTo(d: Draft, ops: seq<Operation>): (r: Outcome)
    ensures r.Thrown? <==> exists i :: 0 <= i < |ops| && OpThrows(ops[i])
    ensures r.Patched? ==> forall f :: Untouched(ops, f) ==> Get(r.draft, f) == Get(d, f)
    decreases |ops|
  {
    if ops == [] then Patched(d)
    else if OpThrows(ops[0]) then Thrown
    else
      assert forall i :: 1 <= i < |ops| ==> ops[i] == ops[1..][i - 1];
      match ApplyOp(d, ops[0])
      case None => if ApplyTo(d, ops[1..]).Thrown? then Thrown else Invalid
      case Some(d') => ApplyTo(d', ops[1..])
  }

  /** The patched user as the database would store it; None when a
      non-nullable column is null, the name is longer than its column, or
      the key was changed. A stored row is exactly the draft. */
  function Stored(original: User, d: Draft): (r: Option<User>)
    ensures r.Some? <==>
              && d.id == original.id && d.name.Some? && d.email.Some? && d.passwordHash.Some?
              && Text.Utf16Length(d.name.value) <= 100
    ensures r.Some? ==> ToDraft(r.value) == d
  {
    if d.id == original.id && d.name.Some? && d.email.Some? && d.passwordHash.Some?
       && Text.Utf16Length(d.name.value) <= 100
    then Some(User(d.id, d.name.value, d.email.value, d.passwordHash.value, d.salt, d.role, d.dateCreated))
    else None
  }

  /** `{"op":"replace","path":"/email","value":e}` sets the address. */
  lemma ReplaceEmailApplies(d: Draft, from: string, e: string)
    ensures ApplyTo(d, [Operation(Replace, "/email", from, Str(e))]) == Patched(d.(email := Some(e)))
  {
    LocatedEmail();
    var o := Operation(Replace, "/email", from, Str(e));
    assert ApplyOp(d, o) == Some(d.(email := Some(e)));
    assert ApplyTo(d, [o]) == ApplyTo(d.(email := Some(e)), []);
  }

  // ---------------------------------------------------------------------
  // The sensitive-path filter of UpdateCustomerProfile
  // ---------------------------------------------------------------------

  /** Paths the filter drops, compared as text without regard to case. */
  predicate IsSensitivePath(p: string) {
    Text.EqualsIgnoreCase(p, "/passwordHash") || Text.EqualsIgnoreCase(p, "/salt")
    || Text.EqualsIgnoreCase(p, "/role") || Text.EqualsIgnoreCase(p, "/dateCreated")
  }

  /** The fields behind those paths. */
  predicate IsSensitiveField(f: Field) {
    f == PasswordHashField || f == SaltField || f == RoleField || f == DateCreatedField
  }

  /** Field names are plain pieces. */
  lemma FieldNamePlain(f: Field)
    ensures FieldName(f) != [] && Plain(FieldName(f))
  {
  }

  /** A path equal, without regard to case, to '/' and a field's name
      leads to that field. */
  lemma SlashNameLocated(p: string, f: Field)
    requires Text.EqualsIgnoreCase(p, "/" + FieldName(f))
    ensures Locate(p) == Property(f)
  {
    var n := FieldName(f);
    var t := "/" + n;
    var name := p[1..];
    assert |t| == |n| + 1 && |name| == |n|;
    assert forall i :: 0 <= i < |n| ==> t[i + 1] == n[i];
    assert forall i :: 0 <= i < |name| ==> name[i] == p[i + 1];
    assert p[0] == '/' by {
      assert Text.AsciiUpper(p[0]) == Text.AsciiUpper(t[0]);
    }
    assert Text.EqualsIgnoreCase(name, n) by {
      forall i | 0 <= i < |name|
        ensures Text.AsciiUpper(name[i]) == Text.AsciiUpper(n[i])
      {
        assert Text.AsciiUpper(p[i + 1]) == Text.AsciiUpper(t[i + 1]);
      }
    }
    FieldNamePlain(f);
    assert Plain(name) by {
      forall i | 0 <= i < |name|
        ensures name[i] != '/' && name[i] != '~'
      {
        assert Text.AsciiUpper(name[i]) == Text.AsciiUpper(n[i]);
      }
    }
    assert p == "/" + name;
    PiecesPlainPrefix(name, [], []);
    assert name + [] == name && [] + name == name;
    PropertyNamedIgnoresCase(name, n);
    PropertyNamedFieldName(f);
  }

  /** A path the filter drops does lead to a sensitive field (the converse
      fails: see RolePathEscalates). */
  lemma SensitivePathLocated(p: string)
    requires IsSensitivePath(p)
    ensures Locate(p).Property? && IsSensitiveField(Locate(p).field)
  {
    if Text.EqualsIgnoreCase(p, "/passwordHash") {
      assert "/" + FieldName(PasswordHashField) == "/passwordHash";
      SlashNameLocated(p, PasswordHashField);
    } else if Text.EqualsIgnoreCase(p, "/salt") {
      assert "/" + FieldName(SaltField) == "/salt";
      SlashNameLocated(p, SaltField);
    } else if Text.EqualsIgnoreCase(p, "/role") {
      assert "/" + FieldName(RoleField) == "/role";
      SlashNameLocated(p, RoleField);
    } else {
      assert "/" + FieldName(DateCreatedField) == "/dateCreated";
      SlashNameLocated(p, DateCreatedField);
    }
  }

  /** `patchDoc.Operations.RemoveAll(...)`, as written: the target path is
      compared as text, and only the target path. */
  function RemoveSensitivePaths(ops: seq<Operation>): (r: seq<Operation>)
    ensures |r| <= |ops|
    ensures forall o :: o in r <==> o in ops && !IsSensitivePath(o.path)
  {
    if ops == [] then []
    else
      var rest := RemoveSensitivePaths(ops[1..]);
      assert forall o :: o in ops <==> o == ops[0] || o in ops[1..];
      if IsSensitivePath(ops[0].path) then rest else [ops[0]] + rest
  }

  /** The filter keeps the remaining operations in their order. */
  lemma {:induction false} RemoveSensitivePathsAppend(a: seq<Operation>, b: seq<Operation>)
    ensures RemoveSensitivePaths(a + b) == RemoveSensitivePaths(a) + RemoveSensitivePaths(b)
    decreases |a|
  {
    if a != [] {
      assert (a + b)[0] == a[0] && (a + b)[1..] == a[1..] + b;
      RemoveSensitivePathsAppend(a[1..], b);
    } else {
      assert a + b == b;
    }
  }

  /** An operation that writes PasswordHash, Salt, Role or DateCreated
      wherever its path leads: its resolved target, or the source of a move. */
  predicate WritesSensitive(o: Operation) {
    || (Locate(o.path).Property? && IsSensitiveField(Locate(o.path).field))
    || (o.op == Move && Locate(o.from).Property? && IsSensitiveField(Locate(o.from).field))
  }

  lemma WritesSensitiveFields(o: Operation)
    ensures WritesSensitive(o) <==> exists f :: IsSensitiveField(f) && Writes(o, f)
  {
    if WritesSensitive(o) {
      if Locate(o.path).Property? && IsSensitiveField(Locate(o.path).field) {
        assert Writes(o, Locate(o.path).field);
      } else {
        assert Writes(o, Locate(o.from).field);
      }
    }
  }

  /** The filter as evidently intended: drop every operation that writes a
      sensitive field, however its paths are spelled. */
  function RemoveSensitive(ops: seq<Operation>): (r: seq<Operation>)
    ensures |r| <= |ops|
    ensures forall o :: o in r <==> o in ops && !WritesSensitive(o)
  {
    if ops == [] then []
    else
      var rest := RemoveSensitive(ops[1..]);
      assert forall o :: o in ops <==> o == ops[0] || o in ops[1..];
      if WritesSensitive(ops[0]) then rest else [ops[0]] + rest
  }

  lemma {:induction false} RemoveSensitiveAppend(a: seq<Operation>, b: seq<Operation>)
    ensures RemoveSensitive(a + b) == RemoveSensitive(a) + RemoveSensitive(b)
    decreases |a|
  {
    if a != [] {
      assert (a + b)[0] == a[0] && (a + b)[1..] == a[1..] + b;
      RemoveSensitiveAppend(a[1..], b);
    } else {
      assert a + b == b;
    }
  }

  /** Every operation the filter as written drops, the corrected one drops too. */
  lemma RemoveSensitiveDropsMore(ops: seq<Operation>)
    ensures forall o :: o in RemoveSensitive(ops) ==> o in RemoveSensitivePaths(ops)
  {
    forall o | o in RemoveSensitive(ops)
      ensures !IsSensitivePath(o.path)
    {
      if IsSensitivePath(o.path) {
        SensitivePathLocated(o.path);
      }
    }
  }

  /** The four protected fields of a draft. */
  predicate SameProtected(d: Draft, e: Draft) {
    d.passwordHash == e.passwordHash && d.salt == e.salt && d.role == e.role && d.dateCreated == e.dateCreated
  }

  /** Equal values under Get on the four protected fields are equal
      fields. */
  lemma GetProtected(d: Draft, e: Draft)
    requires forall f :: IsSensitiveField(f) ==> Get(e, f) == Get(d, f)
    ensures SameProtected(d, e)
  {
    assert Get(e, PasswordHashField) == Get(d, PasswordHashField);
    assert Get(e, SaltField) == Get(d, SaltField);
    assert Get(e, RoleField) == Get(d, RoleField);
    assert Get(e, DateCreatedField) == Get(d, DateCreatedField);
  }

  /** An operation that writes no sensitive field leaves each of them alone. */
  lemma UntouchedSensitive(ops: seq<Operation>, f: Field)
    requires forall i :: 0 <= i < |ops| ==> !WritesSensitive(ops[i])
    requires IsSensitiveField(f)
    ensures Untouched(ops, f)
  {
  }

  /** With the corrected filter, a self-patch that applies leaves PasswordHash,
      Salt, Role and DateCreated as they were. */
  lemma SelfPatchKeepsProtected(u: User, ops: seq<Operation>)
    requires ApplyTo(ToDraft(u), RemoveSensitive(ops)).Patched?
    ensures SameProtected(ToDraft(u), ApplyTo(ToDraft(u), RemoveSensitive(ops)).draft)
  {
    var kept := RemoveSensitive(ops);
    assert forall i :: 0 <= i < |kept| ==> kept[i] in kept;
    forall f | IsSensitiveField(f)
      ensures Untouched(kept, f)
    {
      UntouchedSensitive(kept, f);
    }
    GetProtected(ToDraft(u), ApplyTo(ToDraft(u), kept).draft);
  }

  /** `{"op":"move","from":"/salt","path":"/name"}` puts the salt in the
      name and clears the salt. */
  lemma MoveSaltToName(d: Draft)
    ensures ApplyTo(d, [Operation(Move, "/name", "/salt", Null)]) == Patched(d.(name := d.salt, salt := None))
  {
    LocatedSalt();
    LocatedName();
    var o := Operation(Move, "/name", "/salt", Null);
    assert ApplyOp(d, o) == Some(d.(name := d.salt, salt := None));
    assert ApplyTo(d, [o]) == ApplyTo(d.(name := d.salt, salt := None), []);
  }

  lemma NamePathNotSensitive()
    ensures !IsSensitivePath("/name")
  {
    var p := "/name";
    assert Text.AsciiUpper(p[1]) != Text.AsciiUpper("/passwordHash"[1]);
    assert Text.AsciiUpper(p[1]) != Text.AsciiUpper("/salt"[1]);
    assert Text.AsciiUpper(p[1]) != Text.AsciiUpper("/role"[1]);
  }

  /** The filter as written lets `{"op":"move","from":"/salt","path":"/name"}`
      through, and the saved row has no salt. */
  lemma MoveFromSaltClearsSalt()
    ensures var u := User(2, "Customer User", "customer@example.com", "aGFzaA==", Some("c2FsdA=="), Customer, 1);
            var ops := [Operation(Move, "/name", "/salt", Null)];
            && RemoveSensitivePaths(ops) == ops
            && ApplyTo(ToDraft(u), ops).Patched?
            && Stored(u, ApplyTo(ToDraft(u), ops).draft) == Some(u.(name := "c2FsdA==", salt := None))
  {
    var u := User(2, "Customer User", "customer@example.com", "aGFzaA==", Some("c2FsdA=="), Customer, 1);
    NamePathNotSensitive();
    MoveSaltToName(ToDraft(u));
  }

  /** `{"op":"replace","path":"role","value":"Admin"}` makes the user an
      administrator. */
  lemma ReplaceRoleAdmin(d: Draft)
    ensures ApplyTo(d, [Operation(Replace, "role", "", Str("Admin"))]) == Patched(d.(role := Admin))
  {
    LocatedRole();
    assert AsRole(Str("Admin")) == Some(Admin) by {
      assert !Text.EqualsIgnoreCase("Admin", "Customer");
    }
    var o := Operation(Replace, "role", "", Str("Admin"));
    assert ApplyOp(d, o) == Some(d.(role := Admin));
    assert ApplyTo(d, [o]) == ApplyTo(d.(role := Admin), []);
  }

  /** The filter as written compares raw text, but the library reads "role",
      without the leading '/', as the Role property too: a customer's
      `{"op":"replace","path":"role","value":"Admin"}` passes the filter and
      the saved row is an administrator's. The corrected filter drops it. */
  lemma RolePathEscalates()
    ensures var u := User(2, "Customer User", "customer@example.com", "aGFzaA==", Some("c2FsdA=="), Customer, 1);
            var ops := [Operation(Replace, "role", "", Str("Admin"))];
            && RemoveSensitivePaths(ops) == ops
            && ApplyTo(ToDraft(u), ops).Patched?
            && Stored(u, ApplyTo(ToDraft(u), ops).draft) == Some(u.(role := Admin))
            && RemoveSensitive(ops) == []
  {
    var u := User(2, "Customer User", "customer@example.com", "aGFzaA==", Some("c2FsdA=="), Customer, 1);
    var o := Operation(Replace, "role", "", Str("Admin"));
    assert !IsSensitivePath(o.path);
    ReplaceRoleAdmin(ToDraft(u));
    assert WritesSensitive(o) by {
      LocatedRole();
    }
    assert RemoveSensitive([o]) == RemoveSensitive([]) by {
      assert [o][1..] == [];
    }
  }
}
