/** The registration form's submit logic: the schema gate run before the
    handler, then the handler itself (password confirmation check, email
    canonicalisation, username derivation, insertion of the new user, and the
    follow-up credentials sign-in). The password hash, the clock, the id the
    database assigns and the `from` query parameter are parameters. */
module Register {
  import opened Values
  import opened Text
  import opened Accounts
  import opened Validation
  import Auth

  /** An error shown next to a form field: one set by the handler itself, or
      one reported by the schema. */
  datatype FieldError = Manual(message: string) | Invalid(issue: IssueKind)

  /** The form state the handler touches. */
  datatype FormState = FormState(isLoading: bool, passwordsMatch: bool, errors: map<Field, FieldError>)

  /** The arguments of the `signIn("credentials", ...)` call. */
  datatype SignInRequest = SignInRequest(
    provider: string,
    username: string,
    password: string,
    redirect: bool,
    callbackUrl: string)

  /** What one submission leaves behind: the form state, the user table, the
      plaintexts handed to the hash function, and the sign-in started. */
  datatype Submission = Submission(
    form: FormState,
    store: Store,
    hashed: seq<string>,
    signIn: Option<SignInRequest>)

  const MismatchMessage := "Passwords do not match"
  const DefaultCallbackUrl := "/dashboard"
  const CredentialsProvider := "credentials"

  /** `searchParams?.get("from") || "/dashboard"`: an absent or empty `from`
      falls back to the dashboard. */
  function CallbackUrl(from: Option<string>): (url: string)
    ensures url != ""
    ensures from.Some? && from.value != "" ==> url == from.value
    ensures from.None? || from.value == "" ==> url == DefaultCallbackUrl
  {
    match from
    case Some(v) => if v != "" then v else DefaultCallbackUrl
    case None => DefaultCallbackUrl
  }

  /** `email.substring(0, email.indexOf("@"))`: the text before the first
      `@`, or the empty string when there is no `@`. */
  function Username(email: string): (u: string)
    ensures '@' !in u
    ensures '@' in email ==> u + email[IndexOf(email, '@')..] == email
    ensures '@' !in email ==> u == ""
  {
    Substring(email, 0, IndexOf(email, '@'))
  }

  /** The record passed to the user table's `create`. */
  function NewUser(data: FormData, hash: string -> string, now: Date, freshId: string): (u: User)
    ensures u.email == Lower(data.email) && IsLowerCase(u.email)
    ensures u.username == Username(u.email)
    ensures u.password == Some(hash(data.password))
    ensures u.lastLogin.None? && u.name.None? && u.emailVerified.None? && u.image.None?
    ensures u.signupDate == now && u.id == freshId
  {
    var email := Lower(data.email);
    User(freshId, email, Username(email), Some(hash(data.password)), None, None, None, now, None)
  }

  /** The preconditions of `OnSubmit`: a create for an address already in the
      table throws, and nothing in the handler catches it. */
  predicate CreateSucceeds(data: FormData, store: Store) {
    data.password == data.confirmPassword ==> Lower(data.email) !in store
  }

  /** The submit handler `onSubmit`. */
  function OnSubmit(
    data: FormData, form: FormState, store: Store,
    hash: string -> string, now: Date, freshId: string, from: Option<string>)
    : (r: Submission)
    requires KeyedByEmail(store)
    requires CreateSucceeds(data, store)
    ensures KeyedByEmail(r.store)
    ensures !r.form.isLoading
    ensures r.signIn.Some? <==> data.password == data.confirmPassword
    ensures data.password != data.confirmPassword ==>
              && r.store == store && r.hashed == []
              && !r.form.passwordsMatch
              && r.form.errors == form.errors[ConfirmPassword := Manual(MismatchMessage)]
    ensures data.password == data.confirmPassword ==>
              var email := Lower(data.email);
              && r.form.passwordsMatch && r.form.errors == form.errors
              && r.hashed == [data.password]
              && r.store.Keys == store.Keys + {email}
              && (forall e :: e in store ==> r.store[e] == store[e])
              && r.store[email] == NewUser(data, hash, now, freshId)
              && r.signIn == Some(SignInRequest(CredentialsProvider, email, data.password, false, CallbackUrl(from)))
  {
    if data.password != data.confirmPassword then
      var errors := form.errors[ConfirmPassword := Manual(MismatchMessage)];
      Submission(FormState(false, false, errors), store, [], None)
    else
      var user := NewUser(data, hash, now, freshId);
      Submission(
        FormState(false, true, form.errors),
        store[user.email := user],
        [data.password],
        Some(SignInRequest(CredentialsProvider, user.email, data.password, false, CallbackUrl(from))))
  }

  /** A submission keeps the user table keyed by canonical email addresses. */
  lemma OnSubmitKeepsStoreCanonical(
    data: FormData, form: FormState, store: Store,
    hash: string -> string, now: Date, freshId: string, from: Option<string>)
    requires CreateSucceeds(data, store)
    requires KeyedByEmail(store) && CanonicalKeys(store)
    ensures KeyedByEmail(OnSubmit(data, form, store, hash, now, freshId, from).store)
    ensures CanonicalKeys(OnSubmit(data, form, store, hash, now, freshId, from).store)
  {
  }

  /** The stored username is the stored email up to its first `@`: the
      schema's email check guarantees an `@`, so the username plus the
      domain part gives back the address. */
  lemma UsernameIsLocalPart(
    input: FormData, isEmail: string -> bool, form: FormState, store: Store,
    hash: string -> string, now: Date, freshId: string, from: Option<string>)
    requires EmailFormatHasAt(isEmail) && KeyedByEmail(store)
    requires Validate(input, isEmail).Ok? && input.password == input.confirmPassword
    requires Lower(input.email) !in store
    ensures var email := Lower(input.email);
            var u := OnSubmit(input, form, store, hash, now, freshId, from).store[email];
            && '@' !in u.username
            && u.username + email[IndexOf(email, '@')..] == email
            && IndexOf(email, '@') == IndexOf(input.email, '@')
  {
  }

  /** The schema's issues as the form shows them: one error per field. */
  function IssueErrors(issues: seq<Issue>): (errors: map<Field, FieldError>)
    ensures errors.Keys == Paths(issues)
  {
    if issues == [] then map[]
    else
      PathsAppend([issues[0]], issues[1..]);
      assert [issues[0]] + issues[1..] == issues;
      IssueErrors(issues[1..])[issues[0].path := Invalid(issues[0].kind)]
  }

  /** What the form does when submitted: the schema runs first; a form it
      rejects shows its issues and reaches neither the hash nor the table; a
      form it accepts goes to `OnSubmit` with the earlier errors cleared. */
  function HandleSubmit(
    input: FormData, isEmail: string -> bool, form: FormState, store: Store,
    hash: string -> string, now: Date, freshId: string, from: Option<string>)
    : (r: Submission)
    requires KeyedByEmail(store)
    requires Validate(input, isEmail).Ok? ==> CreateSucceeds(input, store)
    ensures Validate(input, isEmail).Err? ==>
              && r.store == store && r.hashed == [] && r.signIn.None?
              && r.form.isLoading == form.isLoading
              && r.form.errors.Keys == Paths(Validate(input, isEmail).error)
              && ConfirmPassword !in r.form.errors
    ensures Validate(input, isEmail).Ok? ==>
              r == OnSubmit(input, form.(errors := map[]), store, hash, now, freshId, from)
  {
    match Validate(input, isEmail)
    case Err(issues) => Submission(form.(errors := IssueErrors(issues)), store, [], None)
    case Ok(data) => OnSubmit(data, form.(errors := map[]), store, hash, now, freshId, from)
  }

  // ------------------------------------------------- sign-in after create

  /** The form fields `signIn` posts to the credentials provider. */
  function Posted(request: SignInRequest): (c: Auth.Credentials)
    ensures "email" !in c
    ensures "username" in c && "password" in c
    ensures c["username"] == request.username && c["password"] == request.password
  {
    map["username" := request.username, "password" := request.password,
        "redirect" := if request.redirect then "true" else "false",
        "callbackUrl" := request.callbackUrl]
  }

  /** The sign-in started right after registration posts the address under
      `username`, while `authorize` reads `email`: it is turned down whatever
      the table holds and whatever the comparison answers. */
  lemma SignInAfterRegisterRejected(
    data: FormData, form: FormState, store: Store,
    hash: string -> string, now: Date, freshId: string, from: Option<string>,
    compare: (string, string) -> bool)
    requires KeyedByEmail(store)
    requires CreateSucceeds(data, store)
    requires data.password == data.confirmPassword
    ensures var r := OnSubmit(data, form, store, hash, now, freshId, from);
            && Auth.CompareDefined(r.store, Some(Posted(r.signIn.value)))
            && Auth.Authorize(r.store, Some(Posted(r.signIn.value)), compare).None?
  {
  }

  /** The posted fields with the address under the key `authorize` reads. */
  function PostedAsEmail(request: SignInRequest): (c: Auth.Credentials)
    ensures "email" in c && "password" in c
    ensures c["email"] == request.username && c["password"] == request.password
  {
    map["email" := request.username, "password" := request.password,
        "redirect" := if request.redirect then "true" else "false",
        "callbackUrl" := request.callbackUrl]
  }

  /** With the address posted under `email`, the sign-in that follows
      registration signs in the account just created, provided the
      comparison accepts a password against its own hash (an assumption
      about the hashing library, stated here explicitly). */
  lemma SignInAsEmailAfterRegisterAccepted(
    data: FormData, form: FormState, store: Store,
    hash: string -> string, now: Date, freshId: string, from: Option<string>,
    compare: (string, string) -> bool)
    requires KeyedByEmail(store)
    requires CreateSucceeds(data, store)
    requires data.password == data.confirmPassword
    requires compare(data.password, hash(data.password))
    ensures var r := OnSubmit(data, form, store, hash, now, freshId, from);
            && Auth.CompareDefined(r.store, Some(PostedAsEmail(r.signIn.value)))
            && Auth.Authorize(r.store, Some(PostedAsEmail(r.signIn.value)), compare)
               == Some(Auth.AuthorizedUser(freshId, Lower(data.email), hash(data.password)))
  {
  }

  // ------------------------------------------- letter case of the address

  /** After a registration whose address has an upper-case letter, signing
      in with the address as typed finds no account, whereas the canonical
      lookup signs in, given that the comparison accepts a password against
      its own hash. */
  lemma TypedAddressLoginAfterRegister(
    data: FormData, form: FormState, store: Store,
    hash: string -> string, now: Date, freshId: string, from: Option<string>,
    compare: (string, string) -> bool)
    requires CanonicalKeys(store) && KeyedByEmail(store)
    requires Lower(data.email) !in store
    requires data.password == data.confirmPassword && !IsLowerCase(data.email)
    requires compare(data.password, hash(data.password))
    ensures var r := OnSubmit(data, form, store, hash, now, freshId, from);
            var login := map["email" := data.email, "password" := data.password];
            && Auth.CompareDefined(r.store, Some(login))
            && Auth.Authorize(r.store, Some(login), compare).None?
            && Auth.CompareDefined(r.store, Auth.Canonicalize(Some(login)))
            && Auth.AuthorizeCanonical(r.store, Some(login), compare).Some?
  {
  }

  /** Registering `New@Test.com` stores the account under `new@test.com`
      with username `new`; a later sign-in typed as `New@Test.com` finds no
      account, while the canonical lookup signs in. */
  lemma RegisterExample(
    data: FormData, form: FormState, store: Store,
    hash: string -> string, now: Date, freshId: string, from: Option<string>,
    compare: (string, string) -> bool)
    requires data.email == "New@Test.com"
    requires data.password == data.confirmPassword == "longenough1"
    requires CanonicalKeys(store) && KeyedByEmail(store)
    requires "new@test.com" !in store
    requires compare(data.password, hash(data.password))
    ensures CreateSucceeds(data, store)
    ensures var r := OnSubmit(data, form, store, hash, now, freshId, from);
            var login := map["email" := data.email, "password" := data.password];
            && "new@test.com" in r.store
            && r.store["new@test.com"].username == "new"
            && Auth.CompareDefined(r.store, Some(login))
            && Auth.Authorize(r.store, Some(login), compare).None?
            && Auth.CompareDefined(r.store, Auth.Canonicalize(Some(login)))
            && Auth.AuthorizeCanonical(r.store, Some(login), compare).Some?
  {
    ExampleAddressCanonical();
    ExampleUsername();
    ExampleAddressNotCanonical();
    TypedAddressLoginAfterRegister(data, form, store, hash, now, freshId, from, compare);
  }

  lemma ExampleAddressCanonical()
    ensures Lower("New@Test.com") == "new@test.com"
  {
    LowerEq("New@Test.com", "new@test.com");
  }

  lemma ExampleUsername()
    ensures Username("new@test.com") == "new"
  {
    var email := "new@test.com";
    assert email[3] == '@' && '@' !in email[..3];
  }

  lemma ExampleAddressNotCanonical()
    ensures !IsLowerCase("New@Test.com")
  {
    assert IsUpper("New@Test.com"[0]);
  }
}
