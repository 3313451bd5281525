/** The credential lifecycle of `src/routes/auth.js`: each handler is a
    method of the user store that looks a document up, assigns its fields
    and saves it back. Outgoing mail is recorded in an append-only outbox. */
module Auth {
  import opened Common
  import opened Hashing
  import opened Session
  import opened Users

  /** `Date.now() + 3600000`: a reset token lives for one hour. */
  const RESET_TTL_MS: nat := 3600000

  const PASSWORD_CHANGED_TEXT := "Your password has been successfully changed."

  /** A message handed to `sendEmail(to, subject, text)`. */
  datatype Mail = Mail(to: string, subject: string, text: string)

  /** The welcome message register sends for each known role. */
  function WelcomeMail(email: string, role: Role): (m: seq<Mail>)
    ensures |m| <= 1
    ensures m != [] <==> role == INSTRUCTOR || role == STUDENT
    ensures forall k | 0 <= k < |m| :: m[k].to == email
  {
    if role == INSTRUCTOR then
      [Mail(email, "Welcome Instructor", "Your instructor account has been created successfully.")]
    else if role == STUDENT then
      [Mail(email, "Welcome Student", "Your student account has been created successfully.")]
    else []
  }

  function ResetMail(email: string, token: string): Mail {
    Mail(email, "Password Reset Request", "Your reset token is " + token)
  }

  class UserStore {
    var users: seq<User>
    /** Stands for the fresh ObjectId the database assigns to a new document. */
    var nextId: UserId
    var outbox: seq<Mail>

    predicate Valid()
      reads this
    {
      StoreInvariant(users, nextId)
    }

    constructor ()
      ensures Valid() && users == [] && nextId == 0 && outbox == []
    {
      users, nextId, outbox := [], 0, [];
    }

    /** POST /register. `validationError` is the outcome of the request
        schema check, which is not part of this model. */
    method Register(validationError: Option<string>, name: string, email: string, password: string, role: Role)
      returns (r: Result<string>)
      requires Valid()
      modifies this
      ensures Valid()
      ensures validationError.Some? ==>
        r == Err(400, validationError.value) && users == old(users) && nextId == old(nextId) && outbox == old(outbox)
      ensures validationError.None? && (exists i | 0 <= i < |old(users)| :: old(users)[i].email == email) ==>
        r == Err(400, "User already exists") && users == old(users) && nextId == old(nextId) && outbox == old(outbox)
      ensures validationError.None? && (forall i | 0 <= i < |old(users)| :: old(users)[i].email != email) ==>
        && r == Ok("User registered successfully")
        && users == old(users) + [User(old(nextId), name, email, Hash(password), role, None, None)]
        && nextId == old(nextId) + 1
        && outbox == old(outbox) + WelcomeMail(email, role)
      // registering and then logging in with the same credentials succeeds
      ensures r.Ok? ==> forall now: nat :: Login(email, password, now) == Ok(Claims(old(nextId), role, now + SESSION_TTL_MS))
    {
      if validationError.Some? {
        return Err(400, validationError.value);
      }
      var found := Find(users, ByEmail(email));
      if found.Some? {
        return Err(400, "User already exists");
      }
      var user := User(nextId, name, email, Hash(password), role, None, None);
      users := users + [user];
      nextId := nextId + 1;
      r := Ok("User registered successfully");
      if role == INSTRUCTOR {
        outbox := outbox + [Mail(email, "Welcome Instructor", "Your instructor account has been created successfully.")];
      } else if role == STUDENT {
        outbox := outbox + [Mail(email, "Welcome Student", "Your student account has been created successfully.")];
      }
      forall now: nat ensures Login(email, password, now) == Ok(Claims(user.id, role, now + SESSION_TTL_MS)) {
        FindByKey(users, nextId, |users| - 1, now);
      }
    }

    /** POST /login. Reads the store and never changes it. */
    function Login(email: string, password: string, now: nat): (r: Result<Claims>)
      reads this
      ensures r == Err(400, "User not found") <==> forall i | 0 <= i < |users| :: users[i].email != email
      ensures r.Ok? ==> exists i | 0 <= i < |users| ::
        && users[i].email == email && Verify(password, users[i].password)
        && r.value == Claims(users[i].id, users[i].role, now + SESSION_TTL_MS)
      ensures Valid() ==> forall i | 0 <= i < |users| && users[i].email == email ::
        r == if Verify(password, users[i].password)
             then Ok(Claims(users[i].id, users[i].role, now + SESSION_TTL_MS))
             else Err(400, "Invalid credentials")
    {
      match Find(users, ByEmail(email))
      case None => Err(400, "User not found")
      case Some(i) =>
        if !Verify(password, users[i].password) then Err(400, "Invalid credentials")
        else Ok(Claims(users[i].id, users[i].role, now + SESSION_TTL_MS))
    }

    /** POST /forgot-password. `token` stands for the 20 random bytes the
        handler draws; being random, it is held by no user. */
    method ForgotPassword(email: string, token: string, now: nat) returns (r: Result<string>)
      requires Valid()
      requires forall i | 0 <= i < |users| :: users[i].resetPasswordToken != Some(token)
      modifies this
      ensures Valid() && nextId == old(nextId)
      ensures (forall i | 0 <= i < |old(users)| :: old(users)[i].email != email) ==>
        r == Err(404, "User not found") && users == old(users) && outbox == old(outbox)
      ensures forall i | 0 <= i < |old(users)| && old(users)[i].email == email ::
        && r == Ok("Password reset email sent")
        && users == old(users)[i := old(users)[i].(resetPasswordToken := Some(token),
                                                   resetPasswordExpires := Some(now + RESET_TTL_MS))]
        && outbox == old(outbox) + [ResetMail(email, token)]
      // passwords are untouched: every login answers as before
      ensures forall e, p, t: nat :: Login(e, p, t) == old(Login(e, p, t))
      // the new token opens a reset until, and not including, one hour from now
      ensures r.Ok? ==> forall t: nat :: Find(users, ByValidResetToken(token, t)).Some? <==> t < now + RESET_TTL_MS
    {
      var found := Find(users, ByEmail(email));
      if found.None? {
        return Err(404, "User not found");
      }
      var i := found.value;
      var user := users[i];
      user := user.(resetPasswordToken := Some(token));
      user := user.(resetPasswordExpires := Some(now + RESET_TTL_MS));
      SavePreservesInvariant(users, nextId, i, user);
      KeysUnique(users, nextId);
      users := users[i := user];
      outbox := outbox + [ResetMail(user.email, token)];
      r := Ok("Password reset email sent");
      forall t: nat ensures Find(users, ByValidResetToken(token, t)).Some? <==> t < now + RESET_TTL_MS {
        FindByKey(users, nextId, i, t);
      }
      forall e: string ensures Find(users, ByEmail(e)) == Find(old(users), ByEmail(e)) {
        FindSameMatches(users, old(users), ByEmail(e));
      }
    }

    /** POST /reset-password/:resetToken. */
    method ResetPassword(resetToken: string, newPassword: string, now: nat) returns (r: Result<string>)
      requires Valid()
      modifies this
      ensures Valid() && nextId == old(nextId)
      ensures (forall i | 0 <= i < |old(users)| :: !Matches(old(users)[i], ByValidResetToken(resetToken, now))) ==>
        r == Err(400, "Invalid or expired reset token") && users == old(users) && outbox == old(outbox)
      ensures forall i | 0 <= i < |old(users)| && Matches(old(users)[i], ByValidResetToken(resetToken, now)) ::
        && r == Ok("Password has been reset and confirmation email sent")
        && users == old(users)[i := old(users)[i].(password := Hash(newPassword),
                                                   resetPasswordToken := None,
                                                   resetPasswordExpires := None)]
        && outbox == old(outbox) + [Mail(old(users)[i].email, "Password Changed Successfully", PASSWORD_CHANGED_TEXT)]
        // the new password now logs in
        && (forall t: nat :: Login(old(users)[i].email, newPassword, t) == Ok(Claims(old(users)[i].id, old(users)[i].role, t + SESSION_TTL_MS)))
      // the token is single use: once it has served, no later reset finds it
      ensures r.Ok? ==> forall t: nat :: Find(users, ByValidResetToken(resetToken, t)) == None
    {
      var found := Find(users, ByValidResetToken(resetToken, now));
      if found.None? {
        return Err(400, "Invalid or expired reset token");
      }
      var i := found.value;
      var user := users[i];
      user := user.(password := Hash(newPassword));
      user := user.(resetPasswordToken := None);
      user := user.(resetPasswordExpires := None);
      SavePreservesInvariant(users, nextId, i, user);
      KeysUnique(users, nextId);
      users := users[i := user];
      outbox := outbox + [Mail(user.email, "Password Changed Successfully", PASSWORD_CHANGED_TEXT)];
      r := Ok("Password has been reset and confirmation email sent");
      forall t: nat ensures Login(user.email, newPassword, t) == Ok(Claims(user.id, user.role, t + SESSION_TTL_MS)) {
        FindByKey(users, nextId, i, t);
      }
      forall t: nat ensures Find(users, ByValidResetToken(resetToken, t)) == None {
        forall j | 0 <= j < |users| ensures !Matches(users[j], ByValidResetToken(resetToken, t)) {
          if j < i || i < j {
            assert old(users)[j].resetPasswordToken != Some(resetToken);
          }
        }
      }
    }

    /** POST /change-password, behind the authentication middleware:
        `callerId` is the id in the caller's verified session claims. */
    method ChangePassword(callerId: UserId, currentPassword: string, newPassword: string) returns (r: Result<string>)
      requires Valid()
      modifies this
      ensures Valid() && nextId == old(nextId)
      ensures (forall i | 0 <= i < |old(users)| :: old(users)[i].id != callerId) ==>
        r == Err(404, "User not found") && users == old(users) && outbox == old(outbox)
      ensures forall i | 0 <= i < |old(users)| && old(users)[i].id == callerId && !Verify(currentPassword, old(users)[i].password) ::
        r == Err(400, "Current password is incorrect") && users == old(users) && outbox == old(outbox)
      ensures forall i | 0 <= i < |old(users)| && old(users)[i].id == callerId && Verify(currentPassword, old(users)[i].password) ::
        && r == Ok("Password updated and confirmation email sent")
        && users == old(users)[i := old(users)[i].(password := Hash(newPassword))]
        && outbox == old(outbox) + [Mail(old(users)[i].email, "Password Changed", PASSWORD_CHANGED_TEXT)]
    {
      var found := Find(users, ById(callerId));
      if found.None? {
        return Err(404, "User not found");
      }
      var i := found.value;
      var user := users[i];
      KeysUnique(users, nextId);
      if !Verify(currentPassword, user.password) {
        return Err(400, "Current password is incorrect");
      }
      user := user.(password := Hash(newPassword));
      SavePreservesInvariant(users, nextId, i, user);
      users := users[i := user];
      outbox := outbox + [Mail(user.email, "Password Changed", PASSWORD_CHANGED_TEXT)];
      r := Ok("Password updated and confirmation email sent");
    }
  }
}
