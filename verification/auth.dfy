/** The authentication configuration's own decision logic: the credentials
    provider's `authorize`, and the `jwt` and `session` callbacks that build
    the session claims. Password comparison belongs to the hashing library
    and is passed in as `compare(plaintext, hash)`. */
module Auth {
  import opened Values
  import opened Accounts

  /** The form fields posted to the credentials provider, by name. */
  type Credentials = map<string, string>

  /** The three columns `authorize` selects from the user table. */
  datatype AuthorizedUser = AuthorizedUser(id: string, email: string, password: string)

  /** The lookup `authorize` performs finds a record with a hash, and the
      posted form carries a password: the comparison is only reached with
      both arguments present. */
  predicate CompareDefined(store: Store, credentials: Option<Credentials>) {
    credentials.Some? && "email" in credentials.value && credentials.value["email"] in store ==>
      store[credentials.value["email"]].password.Some? && "password" in credentials.value
  }

  /** The credentials provider's `authorize`: looks the user up by exactly
      the posted email and accepts only when the password matches the stored
      hash. */
  function Authorize(store: Store, credentials: Option<Credentials>, compare: (string, string) -> bool)
    : (r: Option<AuthorizedUser>)
    requires KeyedByEmail(store)
    requires CompareDefined(store, credentials)
    ensures credentials.None? ==> r.None?
    ensures r.Some? <==>
              && credentials.Some?
              && "email" in credentials.value
              && credentials.value["email"] in store
              && compare(credentials.value["password"], store[credentials.value["email"]].password.value)
    ensures r.Some? ==>
              var u := store[credentials.value["email"]];
              && r.value.email == credentials.value["email"]
              && r.value.id == u.id && Some(r.value.password) == u.password
  {
    if credentials.None? then None
    else if "email" !in credentials.value || credentials.value["email"] !in store then None
    else
      var u := store[credentials.value["email"]];
      if compare(credentials.value["password"], u.password.value)
      then Some(AuthorizedUser(u.id, u.email, u.password.value))
      else None
  }

  /** An unknown address and a wrong password for a known address give the
      caller one and the same answer. */
  lemma UnknownEmailLikeWrongPassword(
    store: Store, unknown: Credentials, known: Credentials, compare: (string, string) -> bool)
    requires KeyedByEmail(store)
    requires "email" in unknown && unknown["email"] !in store
    requires "email" in known && known["email"] in store && store[known["email"]].password.Some?
    requires "password" in known && !compare(known["password"], store[known["email"]].password.value)
    ensures Authorize(store, Some(unknown), compare) == Authorize(store, Some(known), compare) == None
  {
  }

  /** The lookup is exact: when every stored address is lower-case, an
      address with an upper-case letter never signs in, whatever the
      password. */
  lemma MixedCaseEmailRejected(store: Store, credentials: Credentials, compare: (string, string) -> bool)
    requires KeyedByEmail(store) && CanonicalKeys(store)
    requires "email" in credentials && !Text.IsLowerCase(credentials["email"])
    ensures CompareDefined(store, Some(credentials))
    ensures Authorize(store, Some(credentials), compare).None?
  {
  }

  /** `authorize` with the posted email put in canonical form before the
      lookup, as registration does before storing it. */
  function AuthorizeCanonical(store: Store, credentials: Option<Credentials>, compare: (string, string) -> bool)
    : (r: Option<AuthorizedUser>)
    requires KeyedByEmail(store)
    requires CompareDefined(store, Canonicalize(credentials))
    ensures r.Some? <==>
              && credentials.Some?
              && "email" in credentials.value
              && Text.Lower(credentials.value["email"]) in store
              && compare(credentials.value["password"],
                         store[Text.Lower(credentials.value["email"])].password.value)
  {
    Authorize(store, Canonicalize(credentials), compare)
  }

  function Canonicalize(credentials: Option<Credentials>): (c: Option<Credentials>)
    ensures c.Some? <==> credentials.Some?
    ensures c.Some? ==> c.value.Keys == credentials.value.Keys
  {
    if credentials.Some? && "email" in credentials.value
    then Some(credentials.value["email" := Text.Lower(credentials.value["email"])])
    else credentials
  }

  /** Two addresses that differ only in letter case reach the same account. */
  lemma CanonicalAuthorizeIgnoresCase(
    store: Store, credentials: Credentials, email: string, compare: (string, string) -> bool)
    requires KeyedByEmail(store)
    requires "email" in credentials && Text.Lower(email) == Text.Lower(credentials["email"])
    requires CompareDefined(store, Canonicalize(Some(credentials)))
    ensures CompareDefined(store, Canonicalize(Some(credentials["email" := email])))
    ensures AuthorizeCanonical(store, Some(credentials["email" := email]), compare)
            == AuthorizeCanonical(store, Some(credentials), compare)
  {
  }

  // ---------------------------------------------------------------- jwt

  /** The claims of a session token; `other` holds every further claim the
      token may carry (subject, issue and expiry times, ...). */
  datatype Token = Token(
    id: Option<string>,
    name: Option<string>,
    email: Option<string>,
    picture: Option<string>,
    other: map<string, string>)

  /** The `user` argument next-auth passes on the sign-in that creates the
      token. */
  datatype SignedInUser = SignedInUser(id: string)

  /** The outcome of the refresh lookup by the token's email. */
  datatype Refresh = Found(record: User) | Missing

  /** `findFirst` filtering on the email column: some stored record has the
      token's email exactly when the lookup finds one, and the record found
      is a stored record with that email. */
  function FindByEmail(store: Store, email: Option<string>): (r: Refresh)
    requires KeyedByEmail(store)
    ensures r.Found? <==> exists u :: u in store.Values && Some(u.email) == email
    ensures r.Found? ==> r.record in store.Values && Some(r.record.email) == email
  {
    match email
    case None => Missing
    case Some(e) =>
      StoredEmailIsKey(store, e);
      if e in store then Found(store[e]) else Missing
  }

  /** The `jwt` callback: a record found under the token's email replaces
      the token outright; otherwise the token is kept, with its `id` taken
      from the signing-in user when there is one. */
  function Jwt(store: Store, token: Token, user: Option<SignedInUser>): (r: Token)
    requires KeyedByEmail(store)
    ensures token.email.Some? && token.email.value in store ==>
              var u := store[token.email.value];
              && r.id == Some(u.id) && r.name == u.name && r.email == token.email
              && r.picture == u.image && r.other == map[]
    ensures (token.email.None? || token.email.value !in store) && user.Some? ==>
              r == token.(id := Some(user.value.id))
    ensures (token.email.None? || token.email.value !in store) && user.None? ==>
              r == token
  {
    match FindByEmail(store, token.email)
    case Missing =>
      if user.Some? then token.(id := Some(user.value.id)) else token
    case Found(u) =>
      Token(Some(u.id), u.name, Some(u.email), u.image, map[])
  }

  /** Refreshing twice against the same table gives what refreshing once
      gave. */
  lemma JwtIdempotent(store: Store, token: Token, user: Option<SignedInUser>)
    requires KeyedByEmail(store)
    ensures Jwt(store, Jwt(store, token, user), user) == Jwt(store, token, user)
  {
  }

  /** An edit to the record behind a token (a new display name or picture)
      reaches the token on the next refresh. */
  lemma JwtFollowsRecordEdits(store: Store, token: Token, user: Option<SignedInUser>, edited: User)
    requires KeyedByEmail(store)
    requires token.email.Some? && token.email.value in store
    requires edited.email == token.email.value
    ensures Jwt(store[edited.email := edited], token, user).name == edited.name
    ensures Jwt(store[edited.email := edited], token, user).picture == edited.image
  {
  }

  // ------------------------------------------------------------ session

  datatype SessionUser = SessionUser(
    id: Option<string>,
    name: Option<string>,
    email: Option<string>,
    image: Option<string>)

  datatype Session = Session(user: SessionUser, expires: string)

  /** The `session` callback: copies the token's claims into `session.user`. */
  function SessionOf(token: Option<Token>, session: Session): (r: Session)
    ensures token.Some? ==>
              && r.user.id == token.value.id && r.user.name == token.value.name
              && r.user.email == token.value.email && r.user.image == token.value.picture
              && r.expires == session.expires
    ensures token.None? ==> r == session
  {
    if token.Some? then
      var t := token.value;
      session.(user := session.user.(id := t.id, name := t.name, email := t.email, image := t.picture))
    else session
  }

  /** After a refresh that finds the token's record, the session shows that
      record's id, name, email and image. */
  lemma SessionShowsStoredRecord(store: Store, token: Token, user: Option<SignedInUser>, session: Session)
    requires KeyedByEmail(store)
    requires token.email.Some? && token.email.value in store
    ensures var u := store[token.email.value];
            SessionOf(Some(Jwt(store, token, user)), session).user
            == SessionUser(Some(u.id), u.name, Some(u.email), u.image)
  {
  }
}
