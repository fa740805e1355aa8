/** user_service.py: registration, authentication, profile updates and
    deactivation over the user table, and the output and update filters.
    Generated ids, password hashes and tokens are parameters. */
module UserService {
  import opened Common
  import opened Json
  import opened Tables
  import opened Utils
  import opened Validators
  import opened Formatters
  import opened Models
  import opened ProductRepository
  import opened OrderRepository
  import opened UserRepository
  import opened OrderService

  // ---------------------------------------------------------------------
  // Output and update filters

  /** sanitize_user_output: every key except "password_hash", unchanged. */
  function SanitizeUserOutput(user: Record): (r: Record)
    ensures r.Keys == user.Keys - {"password_hash"}
    ensures forall k :: k in r ==> r[k] == user[k]
  {
    map k | k in user && k != "password_hash" :: user[k]
  }

  /** Sanitising twice is sanitising once. */
  lemma SanitizeOutputIdempotent(user: Record)
    ensures SanitizeUserOutput(SanitizeUserOutput(user)) == SanitizeUserOutput(user)
  {
    assert SanitizeUserOutput(SanitizeUserOutput(user)).Keys == SanitizeUserOutput(user).Keys;
  }

  const ProfileKeys: set<string> := {"name", "email", "phone", "address"}

  /** sanitize_updates: only the profile keys, each value rendered with
      str() and sanitised. */
  function SanitizeUpdates(updates: Record): (r: Record)
    ensures r.Keys == updates.Keys * ProfileKeys
    ensures forall k :: k in r ==> r[k] == JStr(Sanitized(PyStr(updates[k])))
  {
    map k | k in updates && k in ProfileKeys :: JStr(Sanitized(PyStr(updates[k])))
  }

  /** A profile update never touches the id, the role, the active flag, the
      password hash or any other key outside the four profile keys. */
  lemma ProfileUpdateKeepsProtected(record: Record, updates: Record, k: string)
    requires k in record && k !in ProfileKeys
    ensures var r := Overlay(record, SanitizeUpdates(updates));
            k in r && r[k] == record[k]
  {
    OverlayFacts(record, SanitizeUpdates(updates));
  }

  // ---------------------------------------------------------------------
  // Registration and authentication

  /** The record register_user stores: create_user_model with the default
      "user" role, plus the password hash. */
  function RegisteredUser(userId: string, name: string, email: string, passwordHash: string): (r: Record)
    ensures r.Keys == {"id", "name", "email", "role", "active", "password_hash"}
    ensures r["id"] == JStr(userId) && r["password_hash"] == JStr(passwordHash) && r["active"] == JBool(true)
  {
    CreateUserModel(userId, name, email, "user")["password_hash" := JStr(passwordHash)]
  }

  /** Some stored user's normalised email equals the normalised argument. */
  predicate EmailTaken(users: seq<Record>, email: string)
  {
    FirstByEmail(users, NormalizeEmail(email)).Some?
  }

  /** register_user: name, email, password strength, then a duplicate
      email; the first failure is returned and nothing is stored. On
      success the new user is stored (and audited) and returned without
      its password hash. */
  method RegisterUser(users: UserStore, name: string, email: string, password: string, userId: string, passwordHash: string)
    returns (r: Response<Record>)
    requires users.Valid()
    modifies users
    ensures users.Valid()
    ensures !ValidateName(name) ==> r == Fail("INVALID_NAME", "Name is invalid")
    ensures ValidateName(name) && !ValidateEmail(email) ==> r == Fail("INVALID_EMAIL", "Email is invalid")
    ensures ValidateName(name) && ValidateEmail(email) && !ValidatePassword(password) ==>
              r == Fail("WEAK_PASSWORD", "Password too weak")
    ensures ValidateName(name) && ValidateEmail(email) && ValidatePassword(password) && EmailTaken(old(users.users.Values()), email) ==>
              r == Fail("EMAIL_EXISTS", "Email already registered")
    ensures r.Ok? <==>
              ValidateName(name) && ValidateEmail(email) && ValidatePassword(password) && !EmailTaken(old(users.users.Values()), email)
    ensures r.Error? ==> users.users == old(users.users) && users.auditLog == old(users.auditLog)
    ensures r.Ok? ==>
              var user := RegisteredUser(userId, name, email, passwordHash);
              && users.users == old(users.users).Put(userId, user)
              && users.auditLog == old(users.auditLog) + [AuditEntry(userId, CreatedAction)]
              && r.data == SanitizeUserOutput(user) && "password_hash" !in r.data
  {
    if !ValidateName(name) {
      return Fail("INVALID_NAME", "Name is invalid");
    }
    if !ValidateEmail(email) {
      return Fail("INVALID_EMAIL", "Email is invalid");
    }
    if !ValidatePassword(password) {
      return Fail("WEAK_PASSWORD", "Password too weak");
    }
    var taken := users.UserExists(email);
    if taken {
      return Fail("EMAIL_EXISTS", "Email already registered");
    }
    var user := CreateUserModel(userId, name, email, "user");
    user := user["password_hash" := JStr(passwordHash)];
    users.Create(user);
    r := Ok(SanitizeUserOutput(user));
  }

  /** The body of a successful authenticate_user. */
  datatype Login = Login(token: string, user: Record)

  /** authenticate_user fails in this order: INVALID_EMAIL, NOT_FOUND (no
      user, or an empty one), INACTIVE, BAD_PASSWORD. It changes nothing;
      the token is the caller's (encode_token hashes the payload). */
  method AuthenticateUser(users: UserStore, email: string, password: string, token: string) returns (r: Response<Login>)
    requires users.Valid()
    ensures var found := FirstByEmail(users.users.Values(), NormalizeEmail(email));
            && (!ValidateEmail(email) ==> r == Fail("INVALID_EMAIL", "Invalid email"))
            && (ValidateEmail(email) && !UserFound(found) ==> r == Fail("NOT_FOUND", "User not found"))
            && (ValidateEmail(email) && UserFound(found) && !ActiveFlagSet(found.value) ==>
                  r == Fail("INACTIVE", "Account deactivated"))
            && (ValidateEmail(email) && UserFound(found) && ActiveFlagSet(found.value) &&
                !VerifyPassword(password, StrField(found.value, "password_hash", "")) ==>
                  r == Fail("BAD_PASSWORD", "Wrong password"))
            && (r.Ok? <==> ValidateEmail(email) && UserFound(found) && ActiveFlagSet(found.value) &&
                           VerifyPassword(password, StrField(found.value, "password_hash", "")))
            && (r.Ok? ==> r.data == Login(token, SanitizeUserOutput(found.value)))
  {
    if !ValidateEmail(email) {
      return Fail("INVALID_EMAIL", "Invalid email");
    }
    var user := users.FindByEmail(email);
    if user.None? || user.value == map[] {
      return Fail("NOT_FOUND", "User not found");
    }
    if !ActiveFlagSet(user.value) {
      return Fail("INACTIVE", "Account deactivated");
    }
    if !VerifyPassword(password, StrField(user.value, "password_hash", "")) {
      return Fail("BAD_PASSWORD", "Wrong password");
    }
    r := Ok(Login(token, SanitizeUserOutput(user.value)));
  }

  // ---------------------------------------------------------------------
  // Profile and deactivation

  /** update_profile: NOT_FOUND for a missing or empty user; otherwise only
      the sanitised profile keys are written and the result is returned
      without its password hash. */
  method UpdateProfile(users: UserStore, userId: string, updates: Record) returns (r: Response<Record>)
    requires users.Valid()
    modifies users
    ensures users.Valid()
    ensures !UserFound(old(users.FindById(userId))) ==>
              r == Fail("NOT_FOUND", "User not found") && users.users == old(users.users) && users.auditLog == old(users.auditLog)
    ensures UserFound(old(users.FindById(userId))) ==>
              var updated := Overlay(old(users.users.rows)[userId], SanitizeUpdates(updates));
              && users.users == old(users.users).Put(userId, updated)
              && users.auditLog == old(users.auditLog) + [AuditEntry(userId, UpdatedAction)]
              && r == Ok(SanitizeUserOutput(updated))
  {
    var user := users.FindById(userId);
    if user.None? || user.value == map[] {
      return Fail("NOT_FOUND", "User not found");
    }
    var clean := SanitizeUpdates(updates);
    var updated := users.Update(userId, clean);
    r := Ok(SanitizeUserOutput(updated.value));
  }

  /** The update deactivate_account writes. */
  const Deactivation: Record := map["active" := JBool(false)]

  /** deactivate_account: NOT_FOUND for a missing or empty user; otherwise
      sets "active" to False and keeps every other key. */
  method DeactivateAccount(users: UserStore, userId: string) returns (r: Response<bool>)
    requires users.Valid()
    modifies users
    ensures users.Valid()
    ensures !UserFound(old(users.FindById(userId))) ==>
              r == Fail("NOT_FOUND", "User not found") && users.users == old(users.users) && users.auditLog == old(users.auditLog)
    ensures UserFound(old(users.FindById(userId))) ==>
              && r == Ok(true)
              && users.users == old(users.users).Put(userId, Overlay(old(users.users.rows)[userId], Deactivation))
              && users.auditLog == old(users.auditLog) + [AuditEntry(userId, UpdatedAction)]
  {
    var user := users.FindById(userId);
    if user.None? || user.value == map[] {
      return Fail("NOT_FOUND", "User not found");
    }
    var updated := users.Update(userId, Deactivation);
    r := Ok(true);
  }

  /** A deactivated record is still found but no longer active. */
  lemma DeactivatedRecord(record: Record)
    requires record != map[]
    ensures var d := Overlay(record, Deactivation);
            && d != map[] && !ActiveFlagSet(d) && d["active"] == JBool(false)
            && d.Keys == record.Keys + {"active"}
            && forall k :: k in record && k != "active" ==> d[k] == record[k]
  {
    OverlayFacts(record, Deactivation);
  }

  /** The email that found a user before its deactivation finds the
      deactivated record after it. */
  lemma DeactivatedFirst(before: Table<Record>, userId: string, target: string)
    requires before.Valid() && userId in before.rows
    requires FirstIndex(before.Values(), MatchesEmail(target)) == IndexOf(before.keys, userId)
    ensures var d := Overlay(before.rows[userId], Deactivation);
            FirstByEmail(before.Put(userId, d).Values(), target) == Some(d)
  {
    var i := IndexOf(before.keys, userId);
    var record := before.rows[userId];
    var d := Overlay(record, Deactivation);
    var vs := before.Values();
    PutExistingValues(before, userId, d);
    assert before.Put(userId, d).Values() == vs[i := d];
    assert vs[i] == record;
    DeactivationKeepsEmail(record);
    assert MatchesEmail(target)(d);
    RefoundAfterUpdate(vs, i, d, MatchesEmail(target));
  }

  lemma DeactivationKeepsEmail(record: Record)
    ensures EmailOf(Overlay(record, Deactivation)) == EmailOf(record)
  {
    OverlayFacts(record, Deactivation);
  }

  /** After deactivate_account(u), logging in with the email that finds u
      answers INACTIVE and placing an order for u answers USER_INACTIVE. */
  method DeactivationBlocksAccess(users: UserStore, products: ProductStore, orders: OrderStore,
                                  userId: string, email: string, password: string, token: string,
                                  items: seq<ItemInput>, currency: string, orderId: string)
    returns (login: Response<Login>, placed: Response<Order>)
    requires users.Valid() && products.Valid() && orders.Valid()
    requires ValidateEmail(email)
    requires UserFound(users.FindById(userId))
    requires FirstIndex(users.users.Values(), MatchesEmail(NormalizeEmail(email))) == IndexOf(users.users.keys, userId)
    modifies users, products, orders
    ensures login == Fail("INACTIVE", "Account deactivated")
    ensures placed == Fail("USER_INACTIVE", "User account is inactive")
  {
    ghost var before := users.users;
    ghost var d := Overlay(before.rows[userId], Deactivation);
    DeactivatedRecord(before.rows[userId]);
    DeactivatedFirst(before, userId, NormalizeEmail(email));
    var done := DeactivateAccount(users, userId);
    assert users.users == before.Put(userId, d);
    assert FirstByEmail(users.users.Values(), NormalizeEmail(email)) == Some(d);
    assert users.FindById(userId) == Some(d);
    login := AuthenticateUser(users, email, password, token);
    placed := OrderService.CreateOrder(users, products, orders, userId, items, currency, orderId);
  }

  /** Replacing the first match by another match keeps it the first match. */
  lemma RefoundAfterUpdate<T>(s: seq<T>, i: nat, x: T, p: T -> bool)
    requires i < |s| && FirstIndex(s, p) == i && p(x)
    ensures FirstIndex(s[i := x], p) == i
  {
    FirstIndexFrom(s[i := x], p, i);
  }

  // ---------------------------------------------------------------------
  // Listing

  /** sanitize_user_output on each user, in order. */
  function SanitizeAll(us: seq<Record>): (r: seq<Record>)
    ensures |r| == |us|
    ensures forall i :: 0 <= i < |us| ==> r[i] == SanitizeUserOutput(us[i])
  {
    seq(|us|, i requires 0 <= i < |us| => SanitizeUserOutput(us[i]))
  }

  lemma MulNonNegative(a: int, b: int)
    ensures a >= 0 && b >= 1 ==> a * b >= 0
  {
  }

  /** What one page of list_active_users holds. */
  lemma PageFacts(all: seq<Record>, fetched: seq<Record>, page: int, size: int)
    requires forall u :: u in fetched ==> u in all && IsActiveUser(u)
    requires page >= 1 && size >= 0 ==> |fetched| <= size * page
    ensures var shown := Drop(SanitizeAll(fetched), (page - 1) * size);
            && (page >= 1 && size >= 0 ==> |shown| <= size)
            && (forall u :: u in shown ==> "password_hash" !in u)
            && (forall u :: u in shown ==> exists v :: v in all && IsActiveUser(v) && u == SanitizeUserOutput(v))
  {
    var clean := SanitizeAll(fetched);
    var shown := Drop(clean, (page - 1) * size);
    if page >= 1 && size >= 0 {
      assert (page - 1) * size == size * page - size;
    }
    forall u | u in shown ensures exists v :: v in all && IsActiveUser(v) && u == SanitizeUserOutput(v) {
      var j :| 0 <= j < |shown| && shown[j] == u;
      var k := SliceIndex((page - 1) * size, |clean|) + j;
      assert u == clean[k] == SanitizeUserOutput(fetched[k]);
      assert fetched[k] in fetched;
    }
  }

  datatype UserPage = UserPage(users: seq<Record>, total: nat)

  /** list_active_users: the active users of the first page*page_size,
      sanitised, from offset (page - 1) * page_size on, and how many were
      fetched. */
  function ListActiveUsers(users: UserStore, page: int, pageSize: int): (r: UserPage)
    reads users
    requires users.Valid()
    ensures page >= 1 && pageSize >= 0 ==> |r.users| <= pageSize && r.total <= pageSize * page
    ensures forall u :: u in r.users ==> "password_hash" !in u
    ensures forall u :: u in r.users ==>
              exists v :: v in users.users.Values() && IsActiveUser(v) && u == SanitizeUserOutput(v)
    ensures r.total == |users.ListUsers(true, pageSize * page)|
    ensures var off := SliceIndex((page - 1) * pageSize, r.total);
            |r.users| == r.total - off &&
            forall j :: 0 <= j < |r.users| ==> r.users[j] == SanitizeUserOutput(users.ListUsers(true, pageSize * page)[off + j])
  {
    var fetched := users.ListUsers(true, pageSize * page);
    MulNonNegative(pageSize, page);
    PageFacts(users.users.Values(), fetched, page, pageSize);
    UserPage(Drop(SanitizeAll(fetched), (page - 1) * pageSize), |fetched|)
  }
}
