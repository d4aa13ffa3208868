/**
 * `AuthService` (backend/src/auth/auth.service.ts) over a user table held
 * in the service. The table is a sequence in insertion order, which is
 * also `createdAt` order; ids are auto-incremented from 1.
 *
 * A database that fails is the parameter `db`: when it holds an error,
 * the first query of the operation throws it and the operation fails with
 * `MapPrismaError` of it, leaving the table unchanged. bcrypt's `hash` and
 * `compare`, the JWT `sign` and the clock (`now`) are parameters too.
 */
module Auth {
  import opened Wrappers
  import opened Http
  import opened PrismaExceptions

  /** A row of the user table. */
  datatype User = User(
    id: nat, email: string, name: Option<string>, password: Option<string>,
    createdAt: int, updatedAt: int, lastLoginAt: Option<int>)

  /** What `register` returns: the created row without its password. */
  datatype Registered = Registered(id: nat, email: string, name: Option<string>, createdAt: int)

  /** The `user` part of the login reply. */
  datatype Profile = Profile(id: nat, email: string, name: Option<string>)

  datatype LoginReply = LoginReply(token: string, user: Profile)

  /** What `updateUser` returns. */
  datatype Updated = Updated(id: nat, email: string, name: Option<string>, createdAt: int, updatedAt: int)

  datatype Order = Asc | Desc

  /** `GetUsersDto`: every field may be absent. */
  datatype Query = Query(limit: Option<int>, page: Option<int>, order: Option<Order>)

  /** A row of `getUsers`. */
  datatype Row = Row(id: nat, email: string, name: Option<string>, createdAt: int, lastLoginAt: Option<int>)

  datatype Pagination = Pagination(page: int, limit: int, total: nat, totalPages: int, hasNext: bool, hasPrev: bool)

  datatype Page = Page(users: seq<Row>, pagination: Pagination)

  const PasswordsDiffer := "Passwords do not match"
  const InvalidCredentials := "Invalid credentials"
  const UserNotFound := "User not found"
  const PasswordChanged := "Password changed successfully"
  const DefaultLimit := 10
  const DefaultPage := 1

  /** The unique-constraint violation the database raises on a duplicate email. */
  const UniqueViolation := Thrown(Some("P2002"), None, None)

  /** The unique column a `findUnique` looks a row up by. */
  datatype Key = ByEmail(email: string) | ById(id: int)

  predicate Identifies(key: Key, u: User) {
    match key
    case ByEmail(e) => u.email == e
    case ById(n) => u.id == n
  }

  /** `findUnique({ where: key })`: the index of the first row with that key, or -1. */
  function Find(users: seq<User>, key: Key): (r: int)
    ensures -1 <= r < |users|
    ensures r >= 0 ==> Identifies(key, users[r]) && forall k :: 0 <= k < r ==> !Identifies(key, users[k])
    ensures r == -1 <==> forall k :: 0 <= k < |users| ==> !Identifies(key, users[k])
  {
    if users == [] then -1
    else if Identifies(key, users[0]) then 0
    else
      var r := Find(users[1..], key);
      if r < 0 then -1 else r + 1
  }

  /** `email` belongs to a row other than row `i`. */
  predicate HeldByOther(users: seq<User>, i: int, email: string) {
    Find(users, ByEmail(email)) >= 0 && Find(users, ByEmail(email)) != i
  }

  /** Only row `i` may differ between the two tables. */
  predicate OnlyRowChanged(before: seq<User>, after: seq<User>, i: nat) {
    |after| == |before| && forall j :: 0 <= j < |before| && j != i ==> after[j] == before[j]
  }

  /** A stored password counts only if it is present and non-empty (`!user.password`). */
  predicate HasPassword(u: User) {
    u.password.Some? && u.password.value != ""
  }

  /**
   * Lines 54-63: the row that `login` accepts, or the one error it gives
   * for an unknown email, a missing password and a wrong password alike.
   */
  function Authenticate(users: seq<User>, email: string, password: string, compare: (string, string) -> bool)
    : (r: Result<nat, HttpException>)
    ensures r.Ok? <==>
      Find(users, ByEmail(email)) >= 0 && HasPassword(users[Find(users, ByEmail(email))])
      && compare(password, users[Find(users, ByEmail(email))].password.value)
    ensures r.Ok? ==> r.value == Find(users, ByEmail(email)) && users[r.value].email == email
    ensures r.Err? ==> r.error == HttpException(Unauthorized, InvalidCredentials)
  {
    var i := Find(users, ByEmail(email));
    if i < 0 || !HasPassword(users[i]) then Err(HttpException(Unauthorized, InvalidCredentials))
    else if !compare(password, users[i].password.value) then Err(HttpException(Unauthorized, InvalidCredentials))
    else Ok(i)
  }

  /** `Math.ceil(total / limit)` on integers. */
  function CeilDiv(total: nat, limit: int): (r: nat)
    requires limit >= 1
    ensures r * limit >= total
    ensures r == 0 || (r - 1) * limit < total
  {
    var q := (total + limit - 1) / limit;
    var m := (total + limit - 1) % limit;
    assert total + limit - 1 == q * limit + m && 0 <= m < limit;
    assert (q - 1) * limit == q * limit - limit;
    q
  }

  /** The table in `orderBy: { createdAt }` order. */
  function Ordered(users: seq<User>, order: Order): (r: seq<User>)
    ensures |r| == |users|
    ensures order == Asc ==> r == users
    ensures order == Desc ==> forall k :: 0 <= k < |users| ==> r[k] == users[|users| - 1 - k]
  {
    if order == Asc then users
    else seq(|users|, k requires 0 <= k < |users| => users[|users| - 1 - k])
  }

  function RowOf(u: User): Row {
    Row(u.id, u.email, u.name, u.createdAt, u.lastLoginAt)
  }

  /** The constraints of `GetUsersDto`. */
  predicate ValidQuery(q: Query) {
    (q.limit.Some? ==> q.limit.value >= 1) && (q.page.Some? ==> q.page.value >= 1)
  }

  function LimitOf(q: Query): int { if q.limit.Some? then q.limit.value else DefaultLimit }
  function PageOf(q: Query): int { if q.page.Some? then q.page.value else DefaultPage }
  function OrderOf(q: Query): Order { if q.order.Some? then q.order.value else Asc }

  /** `(page - 1) * limit` */
  function Skip(q: Query): (r: nat)
    requires ValidQuery(q)
  {
    var s := (PageOf(q) - 1) * LimitOf(q);
    NonNegativeProduct(PageOf(q) - 1, LimitOf(q));
    s
  }

  lemma NonNegativeProduct(a: int, b: int)
    requires a >= 0 && b >= 0
    ensures a * b >= 0
  {
  }

  /** Lines 148-179: one page of the table and its pagination block. */
  function Paginate(users: seq<User>, q: Query): (p: Page)
    requires ValidQuery(q)
    ensures p.pagination.page == PageOf(q) && p.pagination.limit == LimitOf(q) && p.pagination.total == |users|
    ensures |p.users| <= LimitOf(q)
    ensures |p.users| == if Skip(q) >= |users| then 0 else Min(LimitOf(q), |users| - Skip(q))
    ensures forall k :: 0 <= k < |p.users| ==> p.users[k] == RowOf(Ordered(users, OrderOf(q))[Skip(q) + k])
    ensures p.pagination.totalPages * LimitOf(q) >= |users|
    ensures p.pagination.totalPages == 0 || (p.pagination.totalPages - 1) * LimitOf(q) < |users|
    ensures p.pagination.hasPrev <==> PageOf(q) > 1
  {
    var limit := LimitOf(q);
    var page := PageOf(q);
    var ordered := Ordered(users, OrderOf(q));
    var skip := Skip(q);
    var lo := Min(skip, |ordered|);
    var hi := Min(skip + limit, |ordered|);
    var slice := ordered[lo..hi];
    var totalPages := CeilDiv(|users|, limit);
    Page(seq(|slice|, k requires 0 <= k < |slice| => RowOf(slice[k])),
         Pagination(page, limit, |users|, totalPages, page < totalPages, page > 1))
  }

  function Min(a: int, b: int): int { if a <= b then a else b }

  /** `hasNext` holds exactly when rows remain after this page. */
  lemma {:induction false} HasNextIff(users: seq<User>, q: Query)
    requires ValidQuery(q)
    ensures Paginate(users, q).pagination.hasNext <==> PageOf(q) * LimitOf(q) < |users|
  {
    var t := Paginate(users, q).pagination.totalPages;
    var page, limit := PageOf(q), LimitOf(q);
    if page < t {
      MultiplyMonotone(page, t - 1, limit);
      assert page * limit <= (t - 1) * limit;
    }
    if page * limit < |users| {
      if t <= page {
        MultiplyMonotone(t, page, limit);
      }
    }
  }

  lemma MultiplyMonotone(a: int, b: int, c: int)
    requires a <= b && c >= 0
    ensures a * c <= b * c
  {
    assert b * c - a * c == (b - a) * c;
    NonNegativeProduct(b - a, c);
  }

  /** Every row of the ordered table is on exactly one page: row j is entry `j % limit` of page `j / limit + 1`. */
  lemma {:induction false} RowOnItsPage(users: seq<User>, limit: int, order: Order, j: nat)
    requires limit >= 1 && j < |users|
    ensures var q := Query(Some(limit), Some(j / limit + 1), Some(order));
      j % limit < |Paginate(users, q).users|
      && Paginate(users, q).users[j % limit] == RowOf(Ordered(users, order)[j])
  {
    var q := Query(Some(limit), Some(j / limit + 1), Some(order));
    assert Skip(q) == (j / limit) * limit;
    assert Skip(q) + j % limit == j;
  }

  /** Descending order lists the newest row first. */
  lemma NewestFirst(users: seq<User>, limit: int)
    requires limit >= 1 && |users| > 0
    ensures Paginate(users, Query(Some(limit), None, Some(Desc))).users[0] == RowOf(users[|users| - 1])
  {
    var q := Query(Some(limit), None, Some(Desc));
    assert Skip(q) == 0;
    var p := Paginate(users, q);
    assert |p.users| == Min(limit, |users|) >= 1;
    assert Ordered(users, Desc)[0] == users[|users| - 1];
  }

  /** Ids increase along the table and stay below `next`; emails are unique. */
  predicate WellFormed(users: seq<User>, next: nat) {
    next >= 1
    && (forall k :: 0 <= k < |users| ==> 1 <= users[k].id < next)
    && (forall i, j :: 0 <= i < j < |users| ==> users[i].id < users[j].id)
    && (forall i, j :: 0 <= i < j < |users| ==> users[i].email != users[j].email)
  }

  /** Rewriting one row keeps the table well formed if its id stays and its email is held by no other row. */
  lemma ReplaceRow(users: seq<User>, next: nat, i: nat, u: User)
    requires WellFormed(users, next) && i < |users| && u.id == users[i].id
    requires forall j :: 0 <= j < |users| && j != i ==> users[j].email != u.email
    ensures WellFormed(users[i := u], next)
  {
  }

  /** In a well-formed table no other row holds row `i`'s email. */
  lemma OwnEmail(users: seq<User>, next: nat, i: nat)
    requires WellFormed(users, next) && i < |users|
    ensures forall j :: 0 <= j < |users| && j != i ==> users[j].email != users[i].email
  {
    forall j | 0 <= j < |users| && j != i
      ensures users[j].email != users[i].email
    {
      if j < i {
        assert users[j].email != users[i].email;
      } else {
        assert users[i].email != users[j].email;
      }
    }
  }

  /** The service with its user table. */
  class AuthService {
    var users: seq<User>
    var nextId: nat

    predicate Valid()
      reads this
    {
      WellFormed(users, nextId)
    }

    constructor()
      ensures Valid() && users == [] && nextId == 1
    {
      users := [];
      nextId := 1;
    }

    /** `register(data)`. */
    method Register(email: string, password: string, confirmPassword: string,
                    db: Option<PrismaError>, hash: string -> string, now: int)
      returns (r: Result<Registered, HttpException>)
      requires Valid()
      modifies this
      ensures Valid()
      ensures r.Err? ==> users == old(users) && nextId == old(nextId)
      ensures password != confirmPassword ==> r == Err(HttpException(BadRequest, PasswordsDiffer))
      ensures password == confirmPassword && db.Some? ==> r == Err(MapPrismaError(db.value))
      ensures password == confirmPassword && db.None? && Find(old(users), ByEmail(email)) >= 0 ==>
        r == Err(HttpException(Conflict, EmailInUse))
      ensures r.Ok? <==> password == confirmPassword && db.None? && Find(old(users), ByEmail(email)) < 0
      ensures r.Ok? ==>
        users == old(users) + [User(old(nextId), email, None, Some(hash(password)), now, now, None)]
        && nextId == old(nextId) + 1
        && r.value == Registered(old(nextId), email, None, now)
    {
      if password != confirmPassword {
        return Err(HttpException(BadRequest, PasswordsDiffer));
      }
      if db.Some? {
        return Err(MapPrismaError(db.value));
      }
      if Find(users, ByEmail(email)) >= 0 {
        return Err(HttpException(Conflict, EmailInUse));
      }
      var stored := hash(password);
      var user := User(nextId, email, None, Some(stored), now, now, None);
      users := users + [user];
      nextId := nextId + 1;
      r := Ok(Registered(user.id, user.email, user.name, user.createdAt));
    }

    /** `login(data)`: on success only the user's `lastLoginAt` (and `updatedAt`) change. */
    method Login(email: string, password: string, db: Option<PrismaError>,
                 compare: (string, string) -> bool, sign: (nat, string) -> string, now: int)
      returns (r: Result<LoginReply, HttpException>)
      requires Valid()
      modifies this
      ensures Valid() && nextId == old(nextId)
      ensures r.Err? ==> users == old(users)
      ensures db.Some? ==> r == Err(MapPrismaError(db.value))
      ensures db.None? && Authenticate(old(users), email, password, compare).Err? ==>
        r == Err(HttpException(Unauthorized, InvalidCredentials))
      ensures r.Ok? <==> db.None? && Authenticate(old(users), email, password, compare).Ok?
      ensures r.Ok? ==>
        var i := Authenticate(old(users), email, password, compare).value;
        var u := old(users)[i];
        OnlyRowChanged(old(users), users, i)
        && users[i] == u.(lastLoginAt := Some(now), updatedAt := now)
        && r.value == LoginReply(sign(u.id, u.email), Profile(u.id, u.email, u.name))
    {
      if db.Some? {
        return Err(MapPrismaError(db.value));
      }
      var found := Authenticate(users, email, password, compare);
      if found.Err? {
        return Err(found.error);
      }
      var i := found.value;
      var u := users[i];
      OwnEmail(users, nextId, i);
      ReplaceRow(users, nextId, i, u.(lastLoginAt := Some(now), updatedAt := now));
      users := users[i := u.(lastLoginAt := Some(now), updatedAt := now)];
      var token := sign(u.id, u.email);
      r := Ok(LoginReply(token, Profile(u.id, u.email, u.name)));
    }

    /** `changePassword(data)`: only that user's password (and `updatedAt`) change. */
    method ChangePassword(userId: int, newPassword: string, db: Option<PrismaError>,
                          hash: string -> string, now: int)
      returns (r: Result<string, HttpException>)
      requires Valid()
      modifies this
      ensures Valid() && nextId == old(nextId)
      ensures r.Err? ==> users == old(users)
      ensures db.Some? ==> r == Err(MapPrismaError(db.value))
      ensures db.None? && (Find(old(users), ById(userId)) < 0 || !HasPassword(old(users)[Find(old(users), ById(userId))])) ==>
        r == Err(HttpException(Unauthorized, UserNotFound))
      ensures r.Ok? <==> db.None? && Find(old(users), ById(userId)) >= 0 && HasPassword(old(users)[Find(old(users), ById(userId))])
      ensures r.Ok? ==>
        var i := Find(old(users), ById(userId));
        OnlyRowChanged(old(users), users, i)
        && users[i] == old(users)[i].(password := Some(hash(newPassword)), updatedAt := now)
        && r.value == PasswordChanged
    {
      if db.Some? {
        return Err(MapPrismaError(db.value));
      }
      var i := Find(users, ById(userId));
      if i < 0 || !HasPassword(users[i]) {
        return Err(HttpException(Unauthorized, UserNotFound));
      }
      var hashed := hash(newPassword);
      OwnEmail(users, nextId, i);
      ReplaceRow(users, nextId, i, users[i].(password := Some(hashed), updatedAt := now));
      users := users[i := users[i].(password := Some(hashed), updatedAt := now)];
      r := Ok(PasswordChanged);
    }

    /**
     * `updateUser(data)`: `email` and `name` are applied only when given.
     * An email held by another user is refused with a conflict: a truthy one
     * by the explicit check, an empty one by the table's unique constraint.
     */
    method UpdateUser(userId: int, email: Option<string>, name: Option<string>,
                      db: Option<PrismaError>, now: int)
      returns (r: Result<Updated, HttpException>)
      requires Valid()
      modifies this
      ensures Valid() && nextId == old(nextId)
      ensures r.Err? ==> users == old(users)
      ensures db.Some? ==> r == Err(MapPrismaError(db.value))
      ensures db.None? && Find(old(users), ById(userId)) < 0 ==> r == Err(HttpException(Unauthorized, UserNotFound))
      ensures db.None? && Find(old(users), ById(userId)) >= 0 && email.Some?
              && HeldByOther(old(users), Find(old(users), ById(userId)), email.value) ==>
        r == Err(HttpException(Conflict, EmailInUse))
      ensures r.Ok? <==>
        db.None? && Find(old(users), ById(userId)) >= 0
        && !(email.Some? && HeldByOther(old(users), Find(old(users), ById(userId)), email.value))
      ensures r.Ok? ==>
        var i := Find(old(users), ById(userId));
        var u := old(users)[i];
        OnlyRowChanged(old(users), users, i)
        && users[i].email == (if email.Some? then email.value else u.email)
        && users[i].name == (if name.Some? then name else u.name)
        && users[i].id == u.id && users[i].password == u.password
        && users[i].createdAt == u.createdAt && users[i].lastLoginAt == u.lastLoginAt
        && users[i].updatedAt == now
        && r.value == Updated(u.id, users[i].email, users[i].name, u.createdAt, now)
    {
      if db.Some? {
        return Err(MapPrismaError(db.value));
      }
      var i := Find(users, ById(userId));
      if i < 0 {
        return Err(HttpException(Unauthorized, UserNotFound));
      }
      var user := users[i];
      if email.Some? && email.value != "" && email.value != user.email {
        if Find(users, ByEmail(email.value)) >= 0 {
          return Err(HttpException(Conflict, EmailInUse));
        }
      }
      var patched := user;
      if email.Some? {
        patched := patched.(email := email.value);
      }
      if name.Some? {
        patched := patched.(name := name);
      }
      if email.Some? && HeldByOther(users, i, email.value) {
        return Err(MapPrismaError(UniqueViolation));
      }
      patched := patched.(updatedAt := now);
      Store(i, patched);
      r := Ok(Updated(patched.id, patched.email, patched.name, patched.createdAt, patched.updatedAt));
    }

    /** `prisma.user.update({ where: { id } })`: row `i` becomes `u`, unless the email is held by another row. */
    method Store(i: nat, u: User)
      requires Valid() && i < |users| && u.id == users[i].id && !HeldByOther(users, i, u.email)
      modifies this
      ensures Valid() && users == old(users)[i := u] && nextId == old(nextId)
    {
      EmailFreeForRow(i, u.email);
      ReplaceRow(users, nextId, i, u);
      users := users[i := u];
    }

    /** An email not held by another row is free for row `i`. */
    lemma EmailFreeForRow(i: nat, email: string)
      requires Valid() && i < |users| && !HeldByOther(users, i, email)
      ensures forall j :: 0 <= j < |users| && j != i ==> users[j].email != email
    {
      var f := Find(users, ByEmail(email));
      if f >= 0 {
        assert f == i;
        forall j | 0 <= j < |users| && j != f
          ensures users[j].email != users[f].email
        {
          if j < f {
            assert users[j].email != users[f].email;
          } else {
            assert users[f].email != users[j].email;
          }
        }
      }
    }

    /** `getUsers(params)`. */
    function GetUsers(q: Query, db: Option<PrismaError>): (r: Result<Page, HttpException>)
      requires ValidQuery(q)
      reads this
      ensures db.Some? ==> r == Err(MapPrismaError(db.value))
      ensures db.None? ==> r == Ok(Paginate(users, q)) && r.value.pagination.total == |users|
    {
      if db.Some? then Err(MapPrismaError(db.value)) else Ok(Paginate(users, q))
    }
  }
}
