/** user.entity.ts, and the checks that the password use cases make before they change anything. */
module Users {
  import opened Prelude

  /** A bcrypt hash: comparing a password with it succeeds exactly for the password it was made of. */
  datatype PasswordHash = HashOf(password: string)

  datatype User = User(
    id: string,
    email: string,
    passwordHash: Option<PasswordHash>,
    googleSub: Option<string>,
    roles: seq<string>,
    authVersion: nat)

  function ChangePassword(u: User, hash: PasswordHash): (u': User)
    ensures u'.passwordHash == Some(hash) && u'.authVersion == u.authVersion + 1
    ensures u'.id == u.id && u'.email == u.email && u'.roles == u.roles && u'.googleSub == u.googleSub
  {
    u.(passwordHash := Some(hash), authVersion := u.authVersion + 1)
  }

  function IncrementAuthVersion(u: User): (u': User)
    ensures u'.authVersion == u.authVersion + 1 && u'.passwordHash == u.passwordHash
    ensures u'.id == u.id && u'.email == u.email && u'.roles == u.roles && u'.googleSub == u.googleSub
  {
    u.(authVersion := u.authVersion + 1)
  }

  function LinkGoogleSubject(u: User, googleSub: string): (u': User)
    ensures u'.googleSub == Some(googleSub) && u'.authVersion == u.authVersion && u'.passwordHash == u.passwordHash
    ensures u'.id == u.id && u'.email == u.email && u'.roles == u.roles
  {
    u.(googleSub := Some(googleSub))
  }

  /** The domain transitions that a user row can go through. */
  datatype Transition = Password(hash: PasswordHash) | Version | Google(googleSub: string)

  function Transit(u: User, t: Transition): User {
    match t
    case Password(hash) => ChangePassword(u, hash)
    case Version => IncrementAuthVersion(u)
    case Google(sub) => LinkGoogleSubject(u, sub)
  }

  function Evolve(u: User, ts: seq<Transition>): User {
    if ts == [] then u else Transit(Evolve(u, ts[..|ts| - 1]), ts[|ts| - 1])
  }

  /** Transitions that make outstanding credentials stale. */
  function Staling(ts: seq<Transition>): nat {
    if ts == [] then 0 else Staling(ts[..|ts| - 1]) + if ts[|ts| - 1].Google? then 0 else 1
  }

  /** Over any history the version counts the staling transitions and identity stays. */
  lemma {:induction false} VersionCountsStaling(u: User, ts: seq<Transition>)
    ensures Evolve(u, ts).authVersion == u.authVersion + Staling(ts)
    ensures Evolve(u, ts).id == u.id && Evolve(u, ts).email == u.email && Evolve(u, ts).roles == u.roles
    decreases |ts|
  {
    if ts == [] {
    } else {
      VersionCountsStaling(u, ts[..|ts| - 1]);
    }
  }

  /** Only Google links leave outstanding credentials alone. */
  predicate OnlyLinks(ts: seq<Transition>) {
    forall i | 0 <= i < |ts| :: ts[i].Google?
  }

  lemma {:induction false} OnlyLinksStaleNothing(ts: seq<Transition>)
    ensures Staling(ts) == 0 <==> OnlyLinks(ts)
    decreases |ts|
  {
    if ts == [] {
    } else {
      OnlyLinksStaleNothing(ts[..|ts| - 1]);
      assert forall i | 0 <= i < |ts| - 1 :: ts[i] == ts[..|ts| - 1][i];
    }
  }

  datatype Error =
    | UserNotFound
    | PasswordNotSet
    | InvalidCurrentPassword
    | SamePassword
    | InvalidResetToken
    | RefreshTokenRequired
    | InvalidRefreshToken
    | AuthVersionMismatch
    | RefreshTokenUsedOrRevoked
    | TokensOfDifferentUsers

  /** When a password change deserves a refusal: no such user; no local password; a wrong one; the same one again. */
  predicate Deserved(error: Error, user: Option<User>, currentPassword: string, newPassword: string) {
    match error
    case UserNotFound => user.None?
    case PasswordNotSet => user.Some? && user.value.passwordHash.None?
    case InvalidCurrentPassword =>
      user.Some? && user.value.passwordHash.Some? && user.value.passwordHash != Some(HashOf(currentPassword))
    case SamePassword =>
      user.Some? && user.value.passwordHash == Some(HashOf(currentPassword)) && newPassword == currentPassword
    case _ => false
  }

  /** Why change-password.usecase.ts refuses, if it does, in the order it looks. */
  function ChangeRefused(user: Option<User>, currentPassword: string, newPassword: string): (refused: Option<Error>)
    ensures refused.None? <==>
      user.Some? && user.value.passwordHash == Some(HashOf(currentPassword)) && newPassword != currentPassword
    ensures refused.Some? ==> Deserved(refused.value, user, currentPassword, newPassword)
  {
    if user.None? then Some(UserNotFound)
    else if user.value.passwordHash.None? then Some(PasswordNotSet)
    else if user.value.passwordHash.value != HashOf(currentPassword) then Some(InvalidCurrentPassword)
    else if newPassword == currentPassword then Some(SamePassword)
    else None
  }

  function FindById(users: map<string, User>, id: string): Option<User> {
    if id in users then Some(users[id]) else None
  }
}
