/** The `requiredRole` middleware of `src/middlewares/role.js`: a single
    condition on the caller the authentication middleware attached. */
module RoleGate {
  import opened Common
  import opened Session

  /** Either the request continues (`next()` is called and nothing is
      written) or the gate answers with a status and message. */
  datatype Outcome = Next | Reject(status: nat, message: string)

  function Gate(requiredRole: Role, user: Option<Claims>): (r: Outcome)
    ensures r.Next? <==> user.Some? && user.value.role == requiredRole
    ensures r.Reject? ==> r == Reject(403, "Forbidden: Insufficient permissions")
  {
    if user.None? || user.value.role != requiredRole then
      Reject(403, "Forbidden: Insufficient permissions")
    else
      Next
  }

  /** No caller attached: rejected with 403 whatever role is required. */
  lemma NoCallerRejected(requiredRole: Role)
    ensures Gate(requiredRole, None) == Reject(403, "Forbidden: Insufficient permissions")
  {
  }

  /** A caller whose role differs from the required one is rejected with 403. */
  lemma WrongRoleRejected(requiredRole: Role, caller: Claims)
    requires caller.role != requiredRole
    ensures Gate(requiredRole, Some(caller)) == Reject(403, "Forbidden: Insufficient permissions")
  {
  }

  /** No caller passes the gates of two different roles. */
  lemma GatesExclusive(user: Option<Claims>, a: Role, b: Role)
    requires a != b
    ensures !(Gate(a, user).Next? && Gate(b, user).Next?)
  {
  }

  /** In particular, the instructor gate and the student gate never both pass. */
  lemma InstructorAndStudentExclusive(user: Option<Claims>)
    ensures Gate(INSTRUCTOR, user).Reject? || Gate(STUDENT, user).Reject?
  {
    GatesExclusive(user, INSTRUCTOR, STUDENT);
  }
}
