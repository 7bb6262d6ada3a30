# Registration and credential sign-in of next-starter, in Dafny

This project models the decision logic of the account flow in next-starter, a
Next.js starter application. The flow has three parts:

- **Registration form handler.** `onSubmit` in `components/RegisterAuthForm.tsx`
  rejects a password/confirmation mismatch before any hashing or insert. It
  lower-cases the email and derives the username from the text before the first
  `@`. It then inserts the new user record and starts a `credentials` sign-in
  with the plaintext password.
- **Authentication configuration.** In `lib/auth.ts`:
  - the credentials provider's `authorize` looks the user up by exactly the
    posted email and compares the password with the stored hash;
  - the `jwt` callback either overwrites the token with the user's record or
    carries the signing-in user's id forward;
  - the `session` callback copies the token claims into `session.user`.
- **Input schema.** `userAuthSchema` in `lib/validations/auth.ts` requires a
  well-formed email and a password of at least 8 characters. It accepts any
  string as the confirmation.

The user table is a map from email address to user record (`Accounts.Store`).
Every member that reads or writes the table requires `Accounts.KeyedByEmail`:
each record sits under its own email, so a map lookup is the same as
Prisma's lookup on the unique email column. A submission re-establishes this
invariant for the table it returns.
The following enter as parameters: the password hash function, the hash
comparison, the email-format check, the clock, the id the database assigns, and
the `from` query parameter. Everything is pure functions over immutable
datatypes.

Modules: `Values` (Option, Result), `Text` (JavaScript `toLowerCase`, `indexOf`,
`substring`), `Validation` (the schema), `Accounts` (user record and table),
`Auth` (`authorize`, `jwt`, `session`), `Register` (the form's submit path).

In three places the code does not do what it evidently intends. The model
follows the code in the first and third, and excludes the second by a
precondition (see "## Left out"):
- `authorize` looks up the address exactly as posted, not in lower-cased form.
- A duplicate address at insert time has no error of its own; the database's
  exception simply escapes the handler.
- The sign-in after registration posts the address under `username`, which
  `authorize` never reads.

## Model

| member | source | states |
|---|---|---|
| Text.Lower | components/RegisterAuthForm.tsx:57 | lower-casing keeps the length and maps every character to its lower-case form |
| Text.LowerIsCanonical | components/RegisterAuthForm.tsx:57 | a lower-cased address has no upper-case letter; lower-casing is idempotent; its fixed points are exactly the lower-case strings |
| Text.IndexOf | components/RegisterAuthForm.tsx:58 | `indexOf` gives -1 exactly when the character is absent; otherwise the position of its first occurrence |
| Text.IndexOfAtUnderLower | components/RegisterAuthForm.tsx:57-58 | lower-casing the address leaves its first `@` at the same position |
| Text.Substring | components/RegisterAuthForm.tsx:58 | `substring` is the plain slice for in-range indices; two non-positive indices (as in `substring(0, -1)`) give the empty string; reversed in-range indices are swapped |
| Validation.Validate | lib/validations/auth.ts:3-7 | the schema accepts exactly when the email passes the format check and the password has at least 8 characters, and then returns the input unchanged; on rejection, the email field carries an issue iff its check fails, the password field iff it is shorter than 8, and the confirmation field never |
| Validation.ConfirmPasswordUnchecked | lib/validations/auth.ts:6 | changing the confirmation field changes neither the verdict nor the issues reported |
| Validation.AcceptedEmailHasAt | lib/validations/auth.ts:4 | an accepted email contains `@`, under the stated assumption about the format check |
| Auth.Authorize | lib/auth.ts:35-61 | absent credentials give null; a user is returned iff a record exists under exactly the posted `email` and the comparison accepts the posted password against its hash; the returned user carries the posted email and that record's id and hash, nothing else |
| Auth.UnknownEmailLikeWrongPassword | lib/auth.ts:51-60 | an unknown address and a wrong password for a known address produce the same result, null |
| Auth.MixedCaseEmailRejected | lib/auth.ts:40-49 | when every stored address is lower-case, a posted address with an upper-case letter is turned down whatever the password |
| Auth.AuthorizeCanonical | lib/auth.ts:40-43 | corrected lookup: a user is returned iff a record exists under the lower-cased posted address and the password matches its hash |
| Auth.CanonicalAuthorizeIgnoresCase | lib/auth.ts:40-43 | with the corrected lookup, two addresses that differ only in letter case give the same answer |
| Accounts.StoredEmailIsKey | lib/auth.ts:40-43 | in a table keyed by email, an address is a key exactly when some stored record carries it, so looking up the key is looking up the email column |
| Auth.FindByEmail | lib/auth.ts:76-80 | `findFirst` on the email column: it finds a record iff some stored record has the token's email, and the record it finds is a stored one with that email |
| Auth.Jwt | lib/auth.ts:75-95 | a record found under the token's email replaces the token by exactly its id, name, email (the token's own) and image, dropping every other claim; with no record, a signing-in user changes only `id`; with neither, the token is returned unchanged |
| Auth.JwtIdempotent | lib/auth.ts:76-94 | refreshing twice against the same table, when it is keyed by email, equals refreshing once |
| Auth.JwtFollowsRecordEdits | lib/auth.ts:89-94 | after the record behind a token changes its name or image, the next refresh carries the new values |
| Auth.SessionOf | lib/auth.ts:65-74 | with a token, `session.user` id, name, email and image are the token's id, name, email and picture and the expiry is kept; without one, the session is unchanged |
| Auth.SessionShowsStoredRecord | lib/auth.ts:65-94 | after a refresh that finds the record, the session user is exactly the record's id, name, email and image |
| Register.CallbackUrl | components/RegisterAuthForm.tsx:83 | the callback is the `from` parameter when it is present and non-empty, and `/dashboard` otherwise |
| Register.Username | components/RegisterAuthForm.tsx:58 | the username has no `@`; followed by the address from its first `@` on, it gives back the address; an address without `@` yields the empty username |
| Register.NewUser | components/RegisterAuthForm.tsx:54-70 | the inserted record holds the lower-cased address and the username derived from it; its password field is `hash` applied to the password (line 64 stores `hashedPassword`, not `data.password`); last login, name, email verification and image are null; sign-up time is now |
| Register.OnSubmit | components/RegisterAuthForm.tsx:40-88 | a mismatch leaves the table unchanged, hashes nothing and starts no sign-in; it sets the confirmation field's error to "Passwords do not match", clears `passwordsMatch` and ends loading. A match hashes the password once and adds exactly one record under the lower-cased address, leaving every other record unchanged. It then starts a `credentials` sign-in with that address, the plaintext password, no redirect and the callback URL. Both paths keep the table keyed by email |
| Register.OnSubmitKeepsStoreCanonical | components/RegisterAuthForm.tsx:57-71 | a submission keeps every record under its own email and every key lower-case |
| Register.UsernameIsLocalPart | components/RegisterAuthForm.tsx:57-65 | for a form the schema accepts, the stored username has no `@`, followed by the domain part it gives back the stored address, and lower-casing did not move the `@` |
| Register.IssueErrors | components/RegisterAuthForm.tsx:31-33 | the form shows an error on exactly the fields the schema reported |
| Register.HandleSubmit | components/RegisterAuthForm.tsx:31-33 | a form the schema rejects reaches neither the hash nor the table and starts no sign-in; it shows errors on exactly the failing fields and never on the confirmation. A form the schema accepts runs the handler with earlier errors cleared |
| Register.Posted | components/RegisterAuthForm.tsx:79-84 | the fields the sign-in posts carry the address under `username` and the plaintext password, and no `email` field |
| Register.SignInAfterRegisterRejected | components/RegisterAuthForm.tsx:77-84 | the sign-in started after a successful registration is turned down by `authorize`, whatever the table and the comparison |
| Register.PostedAsEmail | components/RegisterAuthForm.tsx:79-84 | corrected sign-in fields carry the address under `email` |
| Register.SignInAsEmailAfterRegisterAccepted | components/RegisterAuthForm.tsx:77-84 | with the address posted under `email`, and a comparison that accepts a password against its own hash, the sign-in returns the new account's id, address and hash |
| Register.TypedAddressLoginAfterRegister | lib/auth.ts:40-49 | after registering an address with an upper-case letter, signing in with it as typed is turned down, while the lower-casing lookup signs in |
| Register.RegisterExample | components/RegisterAuthForm.tsx:57-65 | registering `New@Test.com` stores `new@test.com` with username `new`; a sign-in typed `New@Test.com` fails, and the lower-casing lookup succeeds |

## Left out

- The JSX rendering, toasts, the Google button and the `isGoogleLoading` flag in `components/RegisterAuthForm.tsx` are UI.
- `hooks/use-lock-body.ts` and `hooks/use-mounted.ts` are DOM and React lifecycle effects. `config/site.ts` is static metadata.
- The Google, GitHub and email providers, the Prisma adapter, OAuth handshakes, token signing and cookie transport all belong to next-auth.
- Password hashing and comparison are the hashing library's. They enter as the parameters `hash` and `compare`, so salting, the cost factor and timing are not modelled. A salted hash returns a different value on each call; that randomness is folded into the `hash` value the caller supplies.
- No link between `hash` and `compare` is assumed anywhere. Only the lemmas that show a successful sign-in require `compare(p, hash(p))`, stated as an explicit precondition.
- The email-format check of the schema library enters as the predicate `isEmail`. The one assumption made of it, that it accepts only strings containing `@`, is stated as `Validation.EmailFormatHasAt` and required where used.
- Asynchrony, concurrent registrations and database outages: the code has no logic of its own for them.
- The clock (`new Date()`), the database-assigned id and the URL query parameters enter as parameters.
- `signIn` is modelled only as far as the fields it posts to the credentials provider. Its HTTP round trip, the CSRF token and the redirect handling are next-auth's.
- Text.Lower: lower-cases ASCII letters only. JavaScript's `toLowerCase` also maps non-ASCII letters, some of them to more than one character.
- Validation.Validate: counts the password length in characters. JavaScript counts UTF-16 code units, so a character outside the Basic Multilingual Plane counts twice there.
- Register.OnSubmit: a create for an address that is already in the table is excluded by a precondition. Prisma throws on the unique-constraint violation and nothing in the handler catches it (the source also leaves `isLoading` set on that path).
- Register.HandleSubmit: models react-hook-form's behaviour as this form relies on it. The resolver's errors replace the form's errors, and a valid submission clears them before the handler runs.
- Auth.Authorize: a record without a password hash (an OAuth-only account), and posted fields without a password, are excluded by a precondition. The source hands both to `bcrypt.compare` unguarded.
- Auth.Authorize: posted fields without an `email` key are treated as finding no record, so the result is null. Prisma would reject a unique lookup on an undefined field with an exception. Either way no user is signed in.
- Tables whose map keys differ from their records' emails are outside the model. Every member touching the table requires `Accounts.KeyedByEmail`, because only then is a map lookup the same as the database's email-column lookup.
- Auth.Jwt: a token without an email is treated as finding no record. Prisma drops an undefined filter, so `findFirst` would return an arbitrary first row.

## Findings

| source | as written | input that shows it | evidently intended | confidence | as-written member | corrected member |
|---|---|---|---|---|---|---|
| components/RegisterAuthForm.tsx:80 | the sign-in after registration posts the address under `username`, but `authorize` reads `credentials.email` (lib/auth.ts:42), so that sign-in always fails | any successful registration, e.g. `New@Test.com` / `longenough1` / `longenough1` | post the address under `email` | not executed; high | Register.SignInAfterRegisterRejected | Register.SignInAsEmailAfterRegisterAccepted |
| lib/auth.ts:42 | registration stores the lower-cased address, but `authorize` looks it up exactly as posted, so an address with capitals that was just registered cannot sign in as typed | register `New@Test.com`, then sign in with `New@Test.com` | look up the lower-cased posted address | not executed; medium | Register.RegisterExample | Auth.CanonicalAuthorizeIgnoresCase |
