# Credential lifecycle and role checks of an e-learning API, in Dafny

This project models the core of an Express/MongoDB e-learning API:

- the user-account handlers of `src/routes/auth.js`:
  - register, login, forgot-password, reset-password and change-password;
- the two role-checked course handlers of `src/routes/courses.js`:
  - create a course (instructors only);
  - enroll in a course (a deduplicating append);
- the `requiredRole` middleware of `src/middlewares/role.js`.

Each handler looks a document up, assigns its fields and saves it back. So the two stores are classes whose methods change their fields:

- `Auth.UserStore` holds the user collection (`users: seq<User>`), the next fresh id, and an append-only outbox of the mails the handlers send.
- `Courses.CourseStore` holds the courses by id (`map<CourseId, Course>`) and the next fresh id.

The user collection is a sequence because the handlers query it with `findOne` on fields other than the id (email, reset token). `findOne` answers the first matching document in collection order; `Users.Find` models exactly that. The course handlers only look courses up by id, so a map fits them.

Things the source delegates are abstract:

- Time is an explicit `now` in milliseconds.
- bcrypt is `Hashing.Hash` / `Hashing.Verify`: a password verifies against a digest exactly when the digest was made from that password.
- The 20 random bytes of a reset token are an input. Being random, the token is assumed to be held by no user.
- A session token (JWT) is its claim set `Claims(id, role, exp)`, with `exp = now + 3600000`.
- The authentication middleware's output is a `Claims` value handed to the handlers that sit behind it.
- The request-schema check of register is an input: `validationError`, which is `None` when the body is valid and `Some(message)` otherwise.

The user store keeps an invariant, `Users.StoreInvariant`:

- ids and emails are unique;
- every id is below the next id to hand out;
- `resetPasswordToken` and `resetPasswordExpires` are both present or both absent;
- no two users hold the same reset token.

The course store keeps `Courses.CourseStore.Valid`:

- every course is stored under its own id;
- no student appears twice in a course.

`scenarios.dfy` replays the request sequences of `__tests__/app.test.js` against the handlers' contracts alone. It also covers the reset-token expiry and the duplicate registration.

## Model

| member | source | states |
|---|---|---|
| Users.Find | src/routes/auth.js:87-90 | `findOne`: None exactly when no document matches the filter; otherwise the position of a matching document with no match before it. The reset filter needs the token to be equal and the expiry to be strictly greater than `now`. |
| Users.FindSameMatches | src/routes/auth.js:61-64 | Two collections of equal length whose documents match a filter at the same positions give the same lookup answer. So a save that rewrites fields a filter does not look at never changes what that filter finds. |
| Users.FindByKey | src/routes/auth.js:54-57 | Under the store invariant, a user's email and id each find that user. So does a present reset token whose expiry is after `now`. |
| Users.KeysUnique | src/routes/auth.js:20-24 | Under the store invariant, two positions that share an email, an id or a present reset token are the same position. |
| Users.SavePreservesInvariant | src/routes/auth.js:61-64 | Saving a document in place keeps the store invariant when four things hold: its id is kept, its email is kept, its reset fields stay paired, and any token it holds is its old one or one no user held. |
| Users.ExpiredTokenNotFound | src/routes/auth.js:87-92 | A reset token whose holders' expiries are all at or before `now` is not found. This covers a token presented at exactly its expiry instant. |
| Hashing.VerifyHash | src/routes/auth.js:42-43 | `Verify(p, Hash(q))` holds exactly when `p == q`. |
| Auth.UserStore.Register | src/routes/auth.js:14-34 | A failed validation answers 400 with the validator's message and changes nothing. A taken email answers 400 "User already exists" and changes nothing. Otherwise exactly one user is appended, with a fresh id, the given name, email and role, `Hash(password)`, and no reset fields. The role-specific welcome mail is queued. The invariant (unique emails) is kept. A later login with the same credentials yields that user's id and role, expiring one hour later. |
| Auth.WelcomeMail | src/routes/auth.js:28-32 | Register queues at most one welcome mail, addressed to the new user. One is queued exactly when the role is "instructor" or "student". |
| Auth.UserStore.Login | src/routes/auth.js:37-47 | Reads only. An unknown email answers 400 "User not found", and this happens exactly when no user has that email. Under the invariant, the user with that email gets a token `{id, role, now + 3600000}` when the password verifies, and 400 "Invalid credentials" when it does not. A success always belongs to a user with that email and a verifying password. |
| Auth.UserStore.ForgotPassword | src/routes/auth.js:50-79 | An unknown email answers 404 and changes nothing. Otherwise only that user's two reset fields change: they become the fresh token and `now + 3600000`, overwriting any earlier token. The mail carrying the token is queued. Every login answers as before: the old password keeps working until a reset. Afterwards the token is found at instant `t` exactly when `t < now + 3600000`. |
| Auth.UserStore.ResetPassword | src/routes/auth.js:82-113 | When no user holds the token with an expiry after `now`, it answers 400 "Invalid or expired reset token" and changes nothing. Otherwise, for that user, the password becomes `Hash(newPassword)` and both reset fields are cleared, all in one save. The confirmation mail is queued. A login with `newPassword` then succeeds. No later reset finds the same token (single use). |
| Auth.UserStore.ChangePassword | src/routes/auth.js:116-143 | A caller id not in the store answers 404 and changes nothing. A wrong current password answers 400 "Current password is incorrect" and changes nothing. Otherwise only that user's password field becomes `Hash(newPassword)`; the reset fields and the other users are untouched. The confirmation mail is queued. |
| Courses.CourseStore.Create | src/routes/courses.js:8-16 | It fails exactly when the instructor role gate would reject the caller. A caller whose role is not "instructor" gets 403 "Forbidden" and the store is unchanged. Otherwise exactly one course is added, under a fresh id, with the given title, description, duration and price, instructor = caller id, and no students. Existing courses are unchanged. |
| Courses.CourseStore.Enroll | src/routes/courses.js:25-35 | An unknown course id answers 404 and changes nothing. Otherwise the caller's id is appended to that course's students only if it is not already there, so a repeat enroll changes nothing and no duplicate appears. Existing students keep their order. Other courses are unchanged. The caller is enrolled afterwards. |
| RoleGate.Gate | src/middlewares/role.js:2-10 | `next` is called, with no response written, exactly when a caller is attached and its role equals `requiredRole`. Every rejection is 403 "Forbidden: Insufficient permissions". |
| RoleGate.NoCallerRejected | src/middlewares/role.js:5-6 | With no caller attached, the gate rejects with 403 whatever role is required. |
| RoleGate.WrongRoleRejected | src/middlewares/role.js:5-7 | A caller whose role differs from the required role is rejected with 403. |
| RoleGate.GatesExclusive | src/middlewares/role.js:5 | For any one caller, the gates of two different required roles never both pass. |
| RoleGate.InstructorAndStudentExclusive | src/middlewares/role.js:5 | For any one caller, the instructor gate or the student gate rejects. |

## Left out

- Mail delivery (Mailgun, `src/utils/email.js`) is not modelled. A sent mail is an entry `(to, subject, text)` in the outbox. Delivery errors are swallowed by the mailer, so they never reach a handler.
- The reset URL and long message text built in forgot-password (`src/routes/auth.js:67-71`) are never sent. The mail carries only "Your reset token is …", and that is what the model queues.
- Hashing.Hash is a deterministic injective stand-in for bcrypt. Salting, the cost factor and the one-way property are not modelled.
- Register hands the plaintext password to the `User` model, which is not part of this model. The stored value is taken to be `Hash(password)`, the same as reset and change store explicitly.
- The register request schema (`src/validations/userValidation.js`) is not part of this model. Its verdict is the `validationError` input, and its rules are not modelled.
- JWT signing, signature checks and the authentication middleware (`src/middlewares/auth.js`) are not part of this model. Handlers behind it receive the caller's claims. The token's `exp` is written in milliseconds (`now + 3600000`); a real JWT stores it in whole seconds.
- Auth.UserStore.ForgotPassword: requires that no user already holds the fresh token. This stands for the uniqueness of 20 random bytes and is what makes reset tokens single use.
- Request bodies with missing fields (JavaScript `undefined`) are not modelled. Every input is a present string or number. Neither is the schema's `required: true` on a course title.
- Course prices are JavaScript numbers; the model copies them as `real` without floating-point rounding.
- Enroll answers `{ message: 'Enrolled successfully', course }`. The model returns only the course; the message is a constant.
- The 500 "Server error" paths of forgot, reset and change only handle database failures. They are not modelled.
- The order of async steps is not modelled. Register answers before it queues the welcome mail; the model performs both in one step.
- Concurrent requests on the same document are not modelled. Each handler is one atomic step.
- Not modelled: listing courses (`GET /courses`), analytics, Express wiring, and the update, delete and upload routes that the integration tests call but the route file lacks.
- The integration test expecting an instructor to be refused enrollment is not followed. The enroll handler has no role check, and the model follows the handler.
