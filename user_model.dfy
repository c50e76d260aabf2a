/**
 * The user collection: the records the controller reads and saves, the view of a record
 * sent back to clients, and the three queries the controller issues through `findOne`.
 */
module UserModel {
  import opened Wrappers
  import opened Bcrypt

  type UserId = nat

  /** A user record; absent (undefined) fields are None. Times are milliseconds. */
  datatype User = User(
    email: string,
    password: PasswordHash,
    name: string,
    isVerified: bool,
    verificationToken: Option<string>,
    verificationTokenExpiresAt: Option<int>,
    resetPasswordToken: Option<string>,
    resetPasswordExpiresAt: Option<int>,
    lastlogin: Option<int>)

  /** A record as it appears in a response: every field except the password hash, which this type cannot carry. */
  datatype PublicUser = PublicUser(
    id: UserId,
    email: string,
    name: string,
    isVerified: bool,
    verificationToken: Option<string>,
    verificationTokenExpiresAt: Option<int>,
    resetPasswordToken: Option<string>,
    resetPasswordExpiresAt: Option<int>,
    lastlogin: Option<int>)

  /**
   * `{...user._doc, password: undefined}` and `.select("-password")`: the view keeps every
   * field but the hash, so the hash it drops is all that is needed to rebuild the record.
   */
  function Sanitize(id: UserId, u: User): (p: PublicUser)
    ensures p.id == id
    ensures WithPassword(p, u.password) == u
  {
    PublicUser(id, u.email, u.name, u.isVerified, u.verificationToken, u.verificationTokenExpiresAt,
               u.resetPasswordToken, u.resetPasswordExpiresAt, u.lastlogin)
  }

  /** The record a response view describes, once its password hash is supplied. */
  function WithPassword(p: PublicUser, h: PasswordHash): User {
    User(p.email, h, p.name, p.isVerified, p.verificationToken, p.verificationTokenExpiresAt,
         p.resetPasswordToken, p.resetPasswordExpiresAt, p.lastlogin)
  }

  /** The collection; ids are handed out in insertion order. */
  datatype Store = Store(users: map<UserId, User>, nextId: UserId)

  /** A token and its expiry are set together and cleared together. */
  predicate TokensPaired(u: User) {
    (u.verificationToken.Some? <==> u.verificationTokenExpiresAt.Some?) &&
    (u.resetPasswordToken.Some? <==> u.resetPasswordExpiresAt.Some?)
  }

  ghost predicate UniqueEmails(users: map<UserId, User>) {
    forall i, j :: i in users && j in users && users[i].email == users[j].email ==> i == j
  }

  ghost predicate WellFormed(s: Store) {
    (forall id :: id in s.users ==> id < s.nextId) &&
    UniqueEmails(s.users) &&
    (forall id :: id in s.users ==> TokensPaired(s.users[id]))
  }

  /** The filters passed to `User.findOne`. */
  datatype Query =
    | ByEmail(email: string)
    | ByVerificationCode(code: string, now: int)
    | ByResetToken(token: string, now: int)

  /** `{$gt: now}` on a date field: strictly later than now; an absent field never matches. */
  function ExpiresAfter(expiry: Option<int>, now: int): (r: bool)
    ensures expiry.None? ==> !r
    ensures forall t :: expiry == Some(t) && t <= now ==> !r
    ensures forall t :: expiry == Some(t) && t > now ==> r
  {
    expiry.Some? && expiry.value > now
  }

  /** Whether a record passes a `findOne` filter. */
  predicate Satisfies(u: User, q: Query) {
    match q
    case ByEmail(e) => u.email == e
    case ByVerificationCode(c, now) => u.verificationToken == Some(c) && ExpiresAfter(u.verificationTokenExpiresAt, now)
    case ByResetToken(t, now) => u.resetPasswordToken == Some(t) && ExpiresAfter(u.resetPasswordExpiresAt, now)
  }

  /**
   * A verification code or reset token is accepted only inside its window: a match at `now`
   * means the expiry is set and strictly later than `now`, and once the token fails to match
   * it keeps failing at every later time.
   */
  lemma TokenWindow(u: User, c: string, now: int, later: int)
    requires now <= later
    ensures Satisfies(u, ByVerificationCode(c, now)) ==>
              exists e :: u.verificationTokenExpiresAt == Some(e) && now < e
    ensures !Satisfies(u, ByVerificationCode(c, now)) ==> !Satisfies(u, ByVerificationCode(c, later))
    ensures Satisfies(u, ByResetToken(c, now)) ==>
              exists e :: u.resetPasswordExpiresAt == Some(e) && now < e
    ensures !Satisfies(u, ByResetToken(c, now)) ==> !Satisfies(u, ByResetToken(c, later))
  {
  }

  /** The first record, in id order below `bound`, that satisfies the query. */
  function FindOne(users: map<UserId, User>, q: Query, bound: nat): (r: Option<UserId>)
    ensures r.Some? ==> r.value < bound && r.value in users && Satisfies(users[r.value], q)
    ensures r.Some? ==> forall j :: j < r.value && j in users ==> !Satisfies(users[j], q)
    ensures r.None? ==> forall j :: j < bound && j in users ==> !Satisfies(users[j], q)
    decreases bound
  {
    if bound == 0 then None
    else match FindOne(users, q, bound - 1)
      case Some(id) => Some(id)
      case None => if bound - 1 in users && Satisfies(users[bound - 1], q) then Some(bound - 1) else None
  }

  /** `User.findOne(q)` on the whole collection. */
  function Lookup(s: Store, q: Query): (r: Option<UserId>)
    ensures r.Some? ==> r.value in s.users && Satisfies(s.users[r.value], q)
  {
    FindOne(s.users, q, s.nextId)
  }

  ghost predicate AnySatisfies(s: Store, q: Query) {
    exists id :: id in s.users && Satisfies(s.users[id], q)
  }

  /** On a well-formed store the lookup finds a record exactly when some record satisfies the query. */
  lemma LookupFinds(s: Store, q: Query)
    requires WellFormed(s)
    ensures Lookup(s, q).Some? <==> AnySatisfies(s, q)
  {
  }

  /** Lookup by email finds the one record holding that email, whichever it is. */
  lemma LookupByEmailUnique(s: Store, e: string, id: UserId)
    requires WellFormed(s)
    requires id in s.users && s.users[id].email == e
    ensures Lookup(s, ByEmail(e)) == Some(id)
  {
  }
}
