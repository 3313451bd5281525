/** The user collection: its documents, the `findOne` queries the auth
    handlers issue against it, and the invariant every handler keeps. */
module Users {
  import opened Common
  import opened Hashing
  import opened Session

  /** A user document. `resetPasswordToken` and `resetPasswordExpires`
      (milliseconds since the epoch) are absent outside a reset window. */
  datatype User = User(
    id: UserId,
    name: string,
    email: string,
    password: Digest,
    role: Role,
    resetPasswordToken: Option<string>,
    resetPasswordExpires: Option<nat>)

  /** The filters passed to `User.findOne` / `User.findById`. */
  datatype Query =
    | ByEmail(email: string)
    | ById(id: UserId)
    | ByValidResetToken(token: string, now: nat)

  /** Whether a document satisfies a filter. The reset filter is
      `{ resetPasswordToken: token, resetPasswordExpires: { $gt: now } }`:
      a document without an expiry never matches, and the comparison is strict. */
  predicate Matches(u: User, q: Query) {
    match q
    case ByEmail(e) => u.email == e
    case ById(id) => u.id == id
    case ByValidResetToken(t, now) =>
      u.resetPasswordToken == Some(t) && u.resetPasswordExpires.Some? && u.resetPasswordExpires.value > now
  }

  /** `findOne`: the position of the first document, in collection order,
      that matches the filter, or None when no document does. */
  function Find(users: seq<User>, q: Query): (r: Option<nat>)
    ensures r.None? <==> forall j | 0 <= j < |users| :: !Matches(users[j], q)
    ensures r.Some? ==> r.value < |users| && Matches(users[r.value], q)
    ensures r.Some? ==> forall j | 0 <= j < r.value :: !Matches(users[j], q)
  {
    if |users| == 0 then None
    else if Matches(users[0], q) then Some(0)
    else match Find(users[1..], q)
      case None => None
      case Some(i) => Some(i + 1)
  }

  /** A lookup depends only on which documents match the filter: rewriting
      fields the filter does not look at never changes what it finds. */
  lemma FindSameMatches(users: seq<User>, users': seq<User>, q: Query)
    requires |users| == |users'|
    requires forall j | 0 <= j < |users| :: Matches(users[j], q) == Matches(users'[j], q)
    ensures Find(users, q) == Find(users', q)
  {

  }

  /** The reset token and its expiry are set and cleared together. */
  predicate ResetFieldsPaired(u: User) {
    u.resetPasswordToken.Some? <==> u.resetPasswordExpires.Some?
  }

  /** The collection invariant: every id is below the next id to hand out,
      ids and emails are unique, the reset fields are paired, and no two
      users hold the same reset token. */
  predicate StoreInvariant(users: seq<User>, nextId: UserId) {
    && (forall i | 0 <= i < |users| :: users[i].id < nextId && ResetFieldsPaired(users[i]))
    && (forall i, j | 0 <= i < j < |users| ::
          users[i].id != users[j].id && users[i].email != users[j].email)
    && (forall i, j | 0 <= i < j < |users| && users[i].resetPasswordToken.Some? ::
          users[i].resetPasswordToken != users[j].resetPasswordToken)
  }

  /** A filter that exactly one document matches finds that document. */
  lemma FindOnly(users: seq<User>, q: Query, i: nat)
    requires i < |users| && Matches(users[i], q)
    requires forall j | 0 <= j < |users| && j != i :: !Matches(users[j], q)
    ensures Find(users, q) == Some(i)
  {
  }

  /** Under the invariant, the email, id and live reset token of a user
      each find that user and no other. */
  lemma FindByKey(users: seq<User>, nextId: UserId, i: nat, now: nat)
    requires StoreInvariant(users, nextId) && i < |users|
    ensures Find(users, ByEmail(users[i].email)) == Some(i)
    ensures Find(users, ById(users[i].id)) == Some(i)
    ensures users[i].resetPasswordToken.Some? && users[i].resetPasswordExpires.value > now ==>
      Find(users, ByValidResetToken(users[i].resetPasswordToken.value, now)) == Some(i)
  {
    KeysUnique(users, nextId);
    FindOnly(users, ByEmail(users[i].email), i);
    FindOnly(users, ById(users[i].id), i);
    if users[i].resetPasswordToken.Some? && users[i].resetPasswordExpires.value > now {
      FindOnly(users, ByValidResetToken(users[i].resetPasswordToken.value, now), i);
    }
  }

  /** Under the invariant, two positions holding the same email, the same id
      or the same present reset token are the same position. */
  lemma KeysUnique(users: seq<User>, nextId: UserId)
    requires StoreInvariant(users, nextId)
    ensures forall i, j | 0 <= i < |users| && 0 <= j < |users| && users[i].email == users[j].email :: i == j
    ensures forall i, j | 0 <= i < |users| && 0 <= j < |users| && users[i].id == users[j].id :: i == j
    ensures forall i, j | 0 <= i < |users| && 0 <= j < |users| && users[i].resetPasswordToken.Some? &&
      users[i].resetPasswordToken == users[j].resetPasswordToken :: i == j
  {

  }

  /** Saving a document back in place keeps the invariant, provided its id
      and email are kept, its reset fields stay paired, and any reset token
      it now holds is its old one or one no user held. */
  lemma SavePreservesInvariant(users: seq<User>, nextId: UserId, i: nat, u: User)
    requires StoreInvariant(users, nextId) && i < |users|
    requires u.id == users[i].id && u.email == users[i].email && ResetFieldsPaired(u)
    requires || u.resetPasswordToken.None?
             || u.resetPasswordToken == users[i].resetPasswordToken
             || forall j | 0 <= j < |users| :: users[j].resetPasswordToken != u.resetPasswordToken
    ensures StoreInvariant(users[i := u], nextId)
  {

  }

  /** A reset token presented at exactly its expiry instant, or later, is
      not found. */
  lemma ExpiredTokenNotFound(users: seq<User>, token: string, now: nat)
    requires forall j | 0 <= j < |users| && users[j].resetPasswordToken == Some(token) ::
      users[j].resetPasswordExpires.Some? && users[j].resetPasswordExpires.value <= now
    ensures Find(users, ByValidResetToken(token, now)) == None
  {
  }
}
