/** The user records the credential handlers read and write
    (server/src/controllers/userController.ts). The store is the collection in
    its natural order; `findOne` returns the first record that matches. */
module UserStore {
  import opened Wrappers

  /** A bcrypt digest. It has its own type, so a stored password can never be
      a plaintext string. */
  datatype Digest = Digest(value: string)

  /** A user document. Fields the signup handler does not set are absent. */
  datatype User = User(
    id: string,
    fullname: string,
    email: string,
    password: Digest,
    contact: string,
    address: Option<string>,
    city: Option<string>,
    country: Option<string>,
    profilePicture: Option<string>,
    isVerified: bool,
    verificationToken: Option<string>,
    verificationTokenExpiresAt: Option<int>,
    resetPasswordToken: Option<string>,
    resetPasswordTokenExpiresAt: Option<int>,
    lastLogin: Option<int>)

  /** A user as sent back to clients: `.select("-password")`. */
  datatype PublicUser = PublicUser(
    id: string,
    fullname: string,
    email: string,
    contact: string,
    address: Option<string>,
    city: Option<string>,
    country: Option<string>,
    profilePicture: Option<string>,
    isVerified: bool,
    verificationToken: Option<string>,
    verificationTokenExpiresAt: Option<int>,
    resetPasswordToken: Option<string>,
    resetPasswordTokenExpiresAt: Option<int>,
    lastLogin: Option<int>)

  type Store = seq<User>

  function WithoutPassword(u: User): PublicUser
  {
    PublicUser(u.id, u.fullname, u.email, u.contact, u.address, u.city, u.country,
               u.profilePicture, u.isVerified, u.verificationToken, u.verificationTokenExpiresAt,
               u.resetPasswordToken, u.resetPasswordTokenExpiresAt, u.lastLogin)
  }

  /** Index of the first record satisfying `p` at or after `from`. */
  function FindFrom(store: Store, p: User -> bool, from: nat): (r: Option<nat>)
    requires from <= |store|
    ensures r.Some? ==>
      from <= r.value < |store| && p(store[r.value]) && forall j :: from <= j < r.value ==> !p(store[j])
    ensures r.None? ==> forall j :: from <= j < |store| ==> !p(store[j])
    decreases |store| - from
  {
    if from == |store| then None
    else if p(store[from]) then Some(from)
    else FindFrom(store, p, from + 1)
  }

  /** `findOne(filter)`: the first matching record. */
  function FindFirst(store: Store, p: User -> bool): (r: Option<nat>)
    ensures r.Some? ==>
      r.value < |store| && p(store[r.value]) && forall j :: 0 <= j < r.value ==> !p(store[j])
    ensures r.None? ==> forall j :: 0 <= j < |store| ==> !p(store[j])
  {
    FindFrom(store, p, 0)
  }

  /** `findOne({ email })`. */
  function FindByEmail(store: Store, email: string): Option<nat>
  {
    FindFirst(store, (u: User) => u.email == email)
  }

  /** `findById(id)`. */
  function FindById(store: Store, id: string): Option<nat>
  {
    FindFirst(store, (u: User) => u.id == id)
  }

  /** A verification code matches only while its expiry is strictly after now. */
  predicate VerificationMatches(u: User, code: string, now: int)
  {
    u.verificationToken == Some(code)
    && u.verificationTokenExpiresAt.Some? && u.verificationTokenExpiresAt.value > now
  }

  /** A reset token matches only while its expiry is strictly after now. */
  predicate ResetMatches(u: User, token: string, now: int)
  {
    u.resetPasswordToken == Some(token)
    && u.resetPasswordTokenExpiresAt.Some? && u.resetPasswordTokenExpiresAt.value > now
  }

  /** `findOne({ verificationToken: code, verificationTokenExpiresAt: { $gt: now } })`. */
  function FindByVerificationCode(store: Store, code: string, now: int): Option<nat>
  {
    FindFirst(store, (u: User) => VerificationMatches(u, code, now))
  }

  /** `findOne({ resetPasswordToken: token, resetPasswordTokenExpiresAt: { $gt: now } })`. */
  function FindByResetToken(store: Store, token: string, now: int): Option<nat>
  {
    FindFirst(store, (u: User) => ResetMatches(u, token, now))
  }

  /** The store invariant: ids and e-mail addresses identify one record each. */
  predicate Valid(store: Store)
  {
    forall i, j :: 0 <= i < j < |store| ==> store[i].id != store[j].id && store[i].email != store[j].email
  }

  /** The record with `id` updated, every other record unchanged. */
  function Put(store: Store, i: nat, u: User): (r: Store)
    requires i < |store|
    ensures |r| == |store| && r[i] == u
    ensures forall j :: 0 <= j < |store| && j != i ==> r[j] == store[j]
  {
    store[i := u]
  }

  /** Replacing a record by one with the same id and e-mail keeps the invariant. */
  lemma PutKeepsValid(store: Store, i: nat, u: User)
    requires Valid(store) && i < |store|
    requires u.id == store[i].id && u.email == store[i].email
    ensures Valid(Put(store, i, u))
  {
    var r := Put(store, i, u);
    forall a, b | 0 <= a < b < |r| ensures r[a].id != r[b].id && r[a].email != r[b].email {
      assert r[a].id == store[a].id && r[a].email == store[a].email;
      assert r[b].id == store[b].id && r[b].email == store[b].email;
    }
  }
}
