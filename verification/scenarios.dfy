/** Request sequences from the repository's integration tests, replayed
    against the handlers' contracts alone. */
module Scenarios {
  import opened Common
  import opened Hashing
  import opened Session
  import opened Users
  import opened Auth
  import opened Courses

  /** Register, forgot, reset, log in with the new password, reuse the
      token, present an unknown token. */
  method PasswordReset(now: nat) {
    var store := new UserStore();
    var reg := store.Register(None, "Test User", "testuser@example.com", "initialPassword123", STUDENT);
    assert store.users == [User(0, "Test User", "testuser@example.com", Hash("initialPassword123"), STUDENT, None, None)];
    assert store.users[0].email == "testuser@example.com";

    var forgot := store.ForgotPassword("testuser@example.com", "a1b2c3", now);
    assert forgot == Ok("Password reset email sent");
    assert store.users[0].resetPasswordToken == Some("a1b2c3");

    var reset := store.ResetPassword("a1b2c3", "newPassword456", now + 1);
    assert reset.Ok?;
    assert store.Login("testuser@example.com", "newPassword456", now + 2).Ok?;
    assert store.Login("testuser@example.com", "initialPassword123", now + 2) == Err(400, "Invalid credentials");

    var replay := store.ResetPassword("a1b2c3", "anotherPassword789", now + 3);
    assert replay == Err(400, "Invalid or expired reset token");
    var unknown := store.ResetPassword("invalidToken123", "anotherPassword789", now + 3);
    assert unknown == Err(400, "Invalid or expired reset token");
  }

  /** Change the password with the right current password, then with a
      wrong one; only the first takes effect. */
  method PasswordChange(now: nat) {
    var store := new UserStore();
    var reg := store.Register(None, "Test User", "testuser@example.com", "newPassword456", STUDENT);
    assert store.users == [User(0, "Test User", "testuser@example.com", Hash("newPassword456"), STUDENT, None, None)];
    assert store.users[0].id == 0 && Verify("newPassword456", store.users[0].password);

    var change := store.ChangePassword(0, "newPassword456", "changedPassword789");
    assert change.Ok?;
    assert store.Login("testuser@example.com", "changedPassword789", now).Ok?;
    var wrong := store.ChangePassword(0, "wrongPassword", "shouldNotWork");
    assert wrong == Err(400, "Current password is incorrect");
    assert store.Login("testuser@example.com", "changedPassword789", now).Ok?;
  }

  /** A reset token presented exactly one hour after it was issued is refused
      and changes nothing. */
  method ResetTokenExpires(now: nat) {
    var store := new UserStore();
    var reg := store.Register(None, "Ann", "ann@x.com", "pw1", INSTRUCTOR);
    assert store.users == [User(0, "Ann", "ann@x.com", Hash("pw1"), INSTRUCTOR, None, None)];
    assert store.users[0].email == "ann@x.com";
    var forgot := store.ForgotPassword("ann@x.com", "f00d", now);
    assert forgot.Ok?;
    var late := store.ResetPassword("f00d", "pw2", now + RESET_TTL_MS);
    assert late == Err(400, "Invalid or expired reset token");
    assert store.Login("ann@x.com", "pw1", now) == Ok(Claims(0, INSTRUCTOR, now + SESSION_TTL_MS));
  }

  /** Registering the same email twice fails the second time and adds no user. */
  method DuplicateRegistration() {
    var store := new UserStore();
    var first := store.Register(None, "Ann", "ann@x.com", "pw1", INSTRUCTOR);
    assert store.users[0].email == "ann@x.com";
    var second := store.Register(None, "Other", "ann@x.com", "pw2", STUDENT);
    assert second == Err(400, "User already exists") && |store.users| == 1;
  }

  /** An instructor creates a course, a student cannot; a student enrolls
      once however often they ask. */
  method CreateAndEnroll(instructor: Claims, student: Claims) requires instructor.role == INSTRUCTOR && student.role == STUDENT {
    var catalog := new CourseStore();
    var created := catalog.Create(instructor, "Advanced Node.js", "In-depth Node.js course", "15 hours", 99.99);
    assert created.Ok? && created.value.instructor == instructor.id;
    var refused := catalog.Create(student, "Unauthorized Course", "This should fail", "10 hours", 49.99);
    assert refused == Err(403, "Forbidden");

    var id := created.value.id;
    var first := catalog.Enroll(student, id);
    assert first.Ok? && first.value.students == [student.id];
    var again := catalog.Enroll(student, id);
    assert again.Ok? && again.value.students == [student.id];
  }
}
