/** The user table as the authentication code sees it: a map from email
    address to user record. */
module Accounts {
  import opened Values
  import Text

  /** A point in time (milliseconds since the epoch). */
  type Date = int

  datatype User = User(
    id: string,
    email: string,
    username: string,
    password: Option<string>,   // the password hash; absent for accounts created through an OAuth provider
    name: Option<string>,
    image: Option<string>,
    emailVerified: Option<Date>,
    signupDate: Date,
    lastLogin: Option<Date>)

  type Store = map<string, User>

  /** Every record sits under its own email address, so the map's keys play
      the part of the table's unique email column. */
  ghost predicate KeyedByEmail(store: Store) {
    forall e :: e in store ==> store[e].email == e
  }

  /** In a table keyed by email, an address is a key exactly when some
      stored record carries it: the map lookup is the email-column lookup. */
  lemma StoredEmailIsKey(store: Store, email: string)
    requires KeyedByEmail(store)
    ensures email in store <==> exists u :: u in store.Values && u.email == email
  {
    if email !in store {
      forall u | u in store.Values ensures u.email != email {
        var k :| k in store && store[k] == u;
      }
    }
  }

  /** Every address in the store is in canonical (lower-cased) form. */
  ghost predicate CanonicalKeys(store: Store) {
    forall e :: e in store ==> Text.IsLowerCase(e)
  }
}
