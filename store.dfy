/** The two tables the controller works on, Users and CustomerDetails, the
    rules every state of them keeps, and the rows AppDbContext seeds. Both
    tables are maps from primary key to row; the next identity values are
    kept beside them. */
module Store {
  import opened Common
  import Text
  import opened Models
  import PasswordHasher

  /** Equality of e-mail addresses as the database collation decides it. */
  type EmailEq = (string, string) -> bool

  /** A collation compares like an equivalence relation. */
  ghost predicate Equivalence(eq: EmailEq) {
    && (forall a {:trigger eq(a, a)} :: eq(a, a))
    && (forall a, b {:trigger eq(a, b)} :: eq(a, b) == eq(b, a))
    && (forall a, b, c {:trigger eq(a, b), eq(b, c)} :: eq(a, b) && eq(b, c) ==> eq(a, c))
  }

  /** Some stored user has an address equal to `email`: the `Any` test of
      SignUp and CreateUser. */
  predicate EmailTaken(users: map<int, User>, eq: EmailEq, email: string) {
    exists i :: i in users && eq(users[i].email, email)
  }

  /** No two users have equal addresses. */
  predicate EmailsUnique(users: map<int, User>, eq: EmailEq) {
    forall i, j :: i in users && j in users && i != j ==> !eq(users[i].email, users[j].email)
  }

  /** Users are stored under their own id, which is an int32 identity
      value below the next one to hand out. */
  predicate UserKeys(users: map<int, User>, nextUserId: int) {
    && 1 <= nextUserId
    && forall i :: i in users ==> users[i].id == i && 1 <= i < nextUserId && i <= Int32Max
  }

  /** Every CustomerDetails row is stored under its id, points at an
      existing user, and no user has two of them (the one-to-one link). */
  predicate DetailsLinked(users: map<int, User>, details: map<int, CustomerDetails>, nextDetailsId: int) {
    && 1 <= nextDetailsId
    && (forall k :: k in details ==> details[k].id == k && 1 <= k < nextDetailsId && details[k].userId in users)
    && (forall k, l :: k in details && l in details && details[k].userId == details[l].userId ==> k == l)
  }

  predicate StoreInvariant(users: map<int, User>, details: map<int, CustomerDetails>,
                           nextUserId: int, nextDetailsId: int, eq: EmailEq) {
    EmailsUnique(users, eq) && UserKeys(users, nextUserId) && DetailsLinked(users, details, nextDetailsId)
  }

  /** The CustomerDetails row of a user, if any. */
  predicate HasDetails(details: map<int, CustomerDetails>, userId: int) {
    exists k :: k in details && details[k].userId == userId
  }

  /** Under an equivalence, at most one user of a store with unique
      addresses has an address equal to a given one. */
  lemma AtMostOneMatch(users: map<int, User>, eq: EmailEq, email: string, i: int, j: int)
    requires Equivalence(eq) && EmailsUnique(users, eq)
    requires i in users && j in users
    requires eq(users[i].email, email) && eq(users[j].email, email)
    ensures i == j
  {
    assert eq(email, users[j].email);
    assert eq(users[i].email, users[j].email);
  }

  /** Adding a user whose address is not taken keeps the addresses unique. */
  lemma AddKeepsUnique(users: map<int, User>, eq: EmailEq, u: User)
    requires Equivalence(eq) && EmailsUnique(users, eq)
    requires u.id !in users && !EmailTaken(users, eq, u.email)
    ensures EmailsUnique(users[u.id := u], eq)
  {
    var users' := users[u.id := u];
    forall i, j | i in users' && j in users' && i != j
      ensures !eq(users'[i].email, users'[j].email)
    {
      if i == u.id {
        assert !eq(users[j].email, u.email);
      } else if j == u.id {
        assert !eq(users[i].email, u.email);
      }
    }
  }

  /** Replacing a user by one whose address no other user has keeps the
      addresses unique. */
  lemma ReplaceKeepsUnique(users: map<int, User>, eq: EmailEq, id: int, u: User)
    requires Equivalence(eq) && EmailsUnique(users, eq) && id in users
    requires forall j :: j in users && j != id ==> !eq(users[j].email, u.email)
    ensures EmailsUnique(users[id := u], eq)
  {
    var users' := users[id := u];
    forall i, j | i in users' && j in users' && i != j
      ensures !eq(users'[i].email, users'[j].email)
    {
      if i == id {
        assert !eq(users[j].email, u.email);
      } else if j == id {
        assert !eq(users[i].email, u.email);
      }
    }
  }

  /** A new user under the next identity value, with an address not yet
      taken, keeps every rule and moves the identity on. */
  lemma AddUserKeepsInvariant(users: map<int, User>, details: map<int, CustomerDetails>,
                              nextUserId: int, nextDetailsId: int, eq: EmailEq, u: User)
    requires Equivalence(eq) && StoreInvariant(users, details, nextUserId, nextDetailsId, eq)
    requires u.id == nextUserId <= Int32Max && !EmailTaken(users, eq, u.email)
    ensures StoreInvariant(users[u.id := u], details, nextUserId + 1, nextDetailsId, eq)
    ensures !HasDetails(details, u.id)
  {
    AddKeepsUnique(users, eq, u);
  }

  /** A details row under the next identity value, for a user without one,
      keeps every rule. */
  lemma AddDetailsKeepsInvariant(users: map<int, User>, details: map<int, CustomerDetails>,
                                 nextUserId: int, nextDetailsId: int, eq: EmailEq, row: CustomerDetails)
    requires StoreInvariant(users, details, nextUserId, nextDetailsId, eq)
    requires row.id == nextDetailsId && row.userId in users && !HasDetails(details, row.userId)
    ensures StoreInvariant(users, details[row.id := row], nextUserId, nextDetailsId + 1, eq)
  {
  }

  /** Replacing a user by a row with the same id and an address no other
      user has keeps every rule. */
  lemma ReplaceUserKeepsInvariant(users: map<int, User>, details: map<int, CustomerDetails>,
                                  nextUserId: int, nextDetailsId: int, eq: EmailEq, u: User)
    requires Equivalence(eq) && StoreInvariant(users, details, nextUserId, nextDetailsId, eq)
    requires u.id in users
    requires forall j :: j in users && j != u.id ==> !eq(users[j].email, u.email)
    ensures StoreInvariant(users[u.id := u], details, nextUserId, nextDetailsId, eq)
  {
    ReplaceKeepsUnique(users, eq, u.id, u);
  }

  /** Removing a user together with its details rows keeps every rule. */
  lemma RemoveUserKeepsInvariant(users: map<int, User>, details: map<int, CustomerDetails>,
                                 nextUserId: int, nextDetailsId: int, eq: EmailEq, id: int,
                                 details': map<int, CustomerDetails>)
    requires StoreInvariant(users, details, nextUserId, nextDetailsId, eq)
    requires forall k :: k in details' <==> k in details && details[k].userId != id
    requires forall k :: k in details' ==> details'[k] == details[k]
    ensures StoreInvariant(users - {id}, details', nextUserId, nextDetailsId, eq)
  {
  }

  // ---------------------------------------------------------------------
  // The seeded store
  // ---------------------------------------------------------------------

  const AdminEmail: string := "admin@example.com"
  const CustomerEmail: string := "customer@example.com"

  /** The two seeded users, given their credentials; both were created at
      `now`. */
  function SeedUsersWith(admin: PasswordHasher.Credential, customer: PasswordHasher.Credential, now: int): map<int, User> {
    map[1 := User(1, "Admin User", AdminEmail, admin.hash, Some(admin.salt), Admin, now),
        2 := User(2, "Customer User", CustomerEmail, customer.hash, Some(customer.salt), Customer, now)]
  }

  /** The seeded users, with credentials from HashPassword under the salts
      given. */
  function SeedUsers(kdf: PasswordHasher.Argon2id, adminSalt: seq<byte>, customerSalt: seq<byte>, now: int): map<int, User>
    requires PasswordHasher.ValidArgon2id(kdf)
    requires |adminSalt| == PasswordHasher.SaltSize && |customerSalt| == PasswordHasher.SaltSize
  {
    SeedUsersWith(PasswordHasher.HashPassword(kdf, "admin123", adminSalt),
                  PasswordHasher.HashPassword(kdf, "customer123", customerSalt), now)
  }

  /** The one seeded CustomerDetails row, for the customer. */
  function SeedDetails(): map<int, CustomerDetails> {
    map[1 := CustomerDetails(1, 2, Free, Some("Default Preferences"), "123 Main Street", "USA", "123-456-7890")]
  }

  /** Identity values continue after the seeded keys. */
  const SeedNextUserId: int := 3
  const SeedNextDetailsId: int := 2

  /** The seeded store keeps every rule, provided the collation tells the
      two seeded addresses apart. */
  lemma SeedInvariant(admin: PasswordHasher.Credential, customer: PasswordHasher.Credential, now: int, eq: EmailEq)
    requires !eq(AdminEmail, CustomerEmail) && !eq(CustomerEmail, AdminEmail)
    ensures StoreInvariant(SeedUsersWith(admin, customer, now), SeedDetails(),
                           SeedNextUserId, SeedNextDetailsId, eq)
  {
    var users := SeedUsersWith(admin, customer, now);
    assert users.Keys == {1, 2};
    assert SeedDetails().Keys == {1};
  }

  /** The same, for the users HashPassword seeds, under a collation that
      compares like an equivalence. */
  lemma SeedStoreInvariant(kdf: PasswordHasher.Argon2id, adminSalt: seq<byte>, customerSalt: seq<byte>,
                           now: int, eq: EmailEq)
    requires PasswordHasher.ValidArgon2id(kdf) && Equivalence(eq)
    requires |adminSalt| == PasswordHasher.SaltSize && |customerSalt| == PasswordHasher.SaltSize
    requires !eq(AdminEmail, CustomerEmail)
    ensures StoreInvariant(SeedUsers(kdf, adminSalt, customerSalt, now), SeedDetails(),
                           SeedNextUserId, SeedNextDetailsId, eq)
  {
    assert !eq(CustomerEmail, AdminEmail);
    SeedInvariant(PasswordHasher.HashPassword(kdf, "admin123", adminSalt),
                  PasswordHasher.HashPassword(kdf, "customer123", customerSalt), now, eq);
  }

  /** Exactly two users, 1 an admin and 2 a customer, with different
      addresses, and the one details row belongs to the customer, on the
      Free plan. */
  lemma SeedShape(admin: PasswordHasher.Credential, customer: PasswordHasher.Credential, now: int)
    ensures var users := SeedUsersWith(admin, customer, now);
            && users.Keys == {1, 2}
            && users[1].role == Admin && users[2].role == Customer
            && users[1].email != users[2].email
    ensures SeedDetails().Keys == {1}
    ensures SeedDetails()[1].userId == 2 && SeedDetails()[1].plan == Free
  {
    assert |AdminEmail| != |CustomerEmail|;
  }

  /** The seeded passwords verify against the seeded credentials. */
  lemma SeedCredentials(kdf: PasswordHasher.Argon2id, adminSalt: seq<byte>, customerSalt: seq<byte>, now: int)
    requires PasswordHasher.ValidArgon2id(kdf)
    requires |adminSalt| == PasswordHasher.SaltSize && |customerSalt| == PasswordHasher.SaltSize
    ensures var users := SeedUsers(kdf, adminSalt, customerSalt, now);
            && users[1].salt.Some? && users[2].salt.Some?
            && PasswordHasher.VerifyPassword(kdf, "admin123", users[1].passwordHash, users[1].salt.value)
            && PasswordHasher.VerifyPassword(kdf, "customer123", users[2].passwordHash, users[2].salt.value)
  {
    PasswordHasher.VerifyHashed(kdf, "admin123", adminSalt);
    PasswordHasher.VerifyHashed(kdf, "customer123", customerSalt);
  }
}
