/**
 * The session of src/contexts/AuthContext.tsx: the signed-in user, the
 * browser storage slot that remembers it, and the loading flag, with the
 * mock credential check of `login` and `logout`.
 *
 * The storage slot is an abstract optional user; how it is serialised is
 * not part of this model.
 */
module Auth {
  import opened Types

  /** The one password every account accepts. */
  const MockPassword: string := "123456"

  datatype Session = Session(user: Option<User>, stored: Option<User>, isLoading: bool)

  datatype LoginError = InvalidEmailOrPassword

  /** The session after `login`, and the error it throws when it fails. */
  datatype LoginResult = LoginResult(session: Session, error: Option<LoginError>)

  /** Index `i` holds the first user of `users` with the address `email`. */
  predicate IsFirstWithEmail(users: seq<User>, i: int, email: string)
  {
    && 0 <= i < |users|
    && users[i].email == email
    && forall j :: 0 <= j < i ==> users[j].email != email
  }

  /** The first user registered under the address, or none (src/contexts/AuthContext.tsx:45). */
  function FindByEmail(users: seq<User>, email: string): (r: Option<User>)
    ensures r.None? <==> forall u :: u in users ==> u.email != email
    ensures r.Some? ==> exists i :: IsFirstWithEmail(users, i, email) && users[i] == r.value
    decreases |users|
  {
    if |users| == 0 then None
    else if users[0].email == email then
      assert IsFirstWithEmail(users, 0, email);
      Some(users[0])
    else
      var r := FindByEmail(users[1..], email);
      assert r.Some? ==> exists i :: IsFirstWithEmail(users, i, email) && users[i] == r.value by {
        if r.Some? {
          var i :| IsFirstWithEmail(users[1..], i, email) && users[1..][i] == r.value;
          assert IsFirstWithEmail(users, i + 1, email);
        }
      }
      r
  }

  /**
   * `login`, taken as one step: it succeeds when some user has the address
   * and the password is the mock one, and then signs in and stores the first
   * such user; otherwise it throws and leaves user and storage as they were.
   * Either way the loading flag ends down.
   */
  function Login(users: seq<User>, st: Session, email: string, password: string): (r: LoginResult)
    ensures r.error.None? <==> (exists u :: u in users && u.email == email) && password == MockPassword
    ensures r.error.None? ==> r.session.user.Some? && r.session.stored == r.session.user
    ensures r.error.None? ==> exists i :: IsFirstWithEmail(users, i, email) && users[i] == r.session.user.value
    ensures r.error.Some? ==> r.session.user == st.user && r.session.stored == st.stored
    ensures !r.session.isLoading
  {
    var found := FindByEmail(users, email);
    if found.None? || password != MockPassword then
      LoginResult(st.(isLoading := false), Some(InvalidEmailOrPassword))
    else
      LoginResult(Session(found, found, false), None)
  }

  /** `logout`: forgets the stored session and the user. */
  function Logout(st: Session): (r: Session)
    ensures r.user.None? && r.stored.None?
    ensures r.isLoading == st.isLoading
  {
    st.(stored := None, user := None)
  }

  /** Someone is signed in exactly when the session holds a user (src/contexts/AuthContext.tsx:74). */
  function IsAuthenticated(st: Session): (b: bool)
    ensures b <==> CurrentId(st.user).Some?
    ensures b ==> CurrentId(st.user) == Some(st.user.value.id)
  {
    st.user.Some?
  }

  /**
   * After `login` the session is authenticated exactly when the attempt
   * succeeded or it already was; after `logout` it never is.
   */
  lemma AuthenticationFollowsSession(users: seq<User>, st: Session, email: string, password: string)
    ensures var r := Login(users, st, email, password);
      IsAuthenticated(r.session) <==> r.error.None? || IsAuthenticated(st)
    ensures var r := Login(users, st, email, password);
      r.error.None? ==> IsAuthenticated(r.session) && r.session.user.value.email == email
    ensures !IsAuthenticated(Logout(st))
  {
  }
}
