/** Identities, roles and the claims carried by a session token (a JWT in
    the source). Signing and signature checks are not modelled: a caller is
    the claim set the authentication middleware attached to the request. */
module Session {

  /** A document id (a MongoDB ObjectId in the source). */
  type UserId = nat

  /** Roles are plain strings in the source; these are the two it uses. */
  type Role = string

  const INSTRUCTOR: Role := "instructor"
  const STUDENT: Role := "student"

  /** `expiresIn: '1h'`, in milliseconds. */
  const SESSION_TTL_MS: nat := 3600000

  /** The payload `{ id, role }` plus its expiry instant. */
  datatype Claims = Claims(id: UserId, role: Role, exp: nat)
}
