/**
 * The auth service: a persisted roster of users with passwords and a persisted session
 * holding the current user without the password. Passwords are compared verbatim.
 * Artificial delays are left out: each call is atomic.
 */
module AuthService {
  import opened Types
  import opened LocalStorage
  import opened Strings

  /** The two errors the service throws (their messages are user-facing text). */
  datatype AuthError = DuplicateEmail | InvalidCredentials

  /** What a call returns, with the storage it leaves behind. */
  datatype Reply = Reply(result: Result<User, AuthError>, storage: Storage)

  /** The roster as read: an absent key reads as empty. */
  function Roster(st: Storage): seq<StoredUser> {
    st.users.GetOr([])
  }

  /** `users.find(u => u.email === email)` is truthy. */
  predicate EmailTaken(users: seq<StoredUser>, email: string)
    decreases |users|
  {
    if |users| == 0 then false else users[0].email == email || EmailTaken(users[1..], email)
  }

  lemma {:induction false} EmailTakenIff(users: seq<StoredUser>, email: string)
    ensures EmailTaken(users, email) <==> exists i :: 0 <= i < |users| && users[i].email == email
    decreases |users|
  {
    if |users| > 0 {
      EmailTakenIff(users[1..], email);
      assert forall i :: 1 <= i < |users| ==> users[i] == users[1..][i - 1];
    }
  }

  /** `users.find(u => u.email === email && u.password === password)`. */
  function FindCredentials(users: seq<StoredUser>, email: string, password: string): (r: Option<StoredUser>)
    ensures r.None? <==> forall i :: 0 <= i < |users| ==> users[i].email != email || users[i].password != password
    ensures r.Some? ==>
              exists k :: 0 <= k < |users| && users[k] == r.value
                          && r.value.email == email && r.value.password == password
                          && forall j :: 0 <= j < k ==> users[j].email != email || users[j].password != password
    decreases |users|
  {
    if |users| == 0 then None
    else if users[0].email == email && users[0].password == password then Some(users[0])
    else
      var r := FindCredentials(users[1..], email, password);
      assert forall i :: 1 <= i < |users| ==> users[i] == users[1..][i - 1];
      r
  }

  /** The id `register` assigns: 'user_' followed by the clock reading in decimal. */
  function UserId(now: nat): string {
    "user_" + NatToString(now)
  }

  /**
   * Fails with `DuplicateEmail`, touching nothing, when the email is on the roster.
   * Otherwise appends exactly one entry with the given email, password and name, makes
   * it the session (without the password) and returns the session record.
   */
  function Register(st: Storage, email: string, password: string, name: string, now: nat): (r: Reply)
    ensures r.result.Err? <==> exists i :: 0 <= i < |Roster(st)| && Roster(st)[i].email == email
    ensures r.result.Err? ==> r.result.error == DuplicateEmail && r.storage == st
    ensures r.result.Ok? ==>
              var u := r.result.value;
              && |Roster(r.storage)| == |Roster(st)| + 1
              && r.storage.users.Some?
              && Roster(r.storage)[..|Roster(st)|] == Roster(st)
              && Roster(r.storage)[|Roster(st)|] == StoredUser(u.id, email, password, name, now)
              && u.id == UserId(now) && u.email == email && u.name == name && u.createdAt == now
              && r.storage.currentUser == Some(u)
              && r.storage.(users := st.users, currentUser := st.currentUser) == st
  {
    var users := Roster(st);
    EmailTakenIff(users, email);
    if EmailTaken(users, email) then Reply(Err(DuplicateEmail), st)
    else
      var added := StoredUser(UserId(now), email, password, name, now);
      var session := WithoutPassword(added);
      Reply(Ok(session), st.(users := Some(users + [added]), currentUser := Some(session)))
  }

  /**
   * Succeeds exactly when some roster entry matches both email and password; the session
   * becomes the first such entry without its password. A failure leaves the session as
   * it was, and the roster is never written.
   */
  function Login(st: Storage, email: string, password: string): (r: Reply)
    ensures r.result.Ok? <==>
              exists i :: 0 <= i < |Roster(st)| && Roster(st)[i].email == email && Roster(st)[i].password == password
    ensures r.result.Err? ==> r.result.error == InvalidCredentials && r.storage == st
    ensures r.result.Ok? ==>
              && r.storage == st.(currentUser := Some(r.result.value))
              && exists k :: 0 <= k < |Roster(st)|
                             && Roster(st)[k].email == email && Roster(st)[k].password == password
                             && r.result.value == WithoutPassword(Roster(st)[k])
                             && forall j :: 0 <= j < k ==> Roster(st)[j].email != email || Roster(st)[j].password != password
  {
    match FindCredentials(Roster(st), email, password)
    case None => Reply(Err(InvalidCredentials), st)
    case Some(u) =>
      var session := WithoutPassword(u);
      Reply(Ok(session), st.(currentUser := Some(session)))
  }

  /** Removes the session key; nothing else changes. */
  function Logout(st: Storage): (r: Storage)
    ensures r.currentUser.None? && r.(currentUser := st.currentUser) == st
  {
    st.(currentUser := None)
  }

  function GetCurrentUser(st: Storage): Option<User> {
    st.currentUser
  }

  function IsAuthenticated(st: Storage): bool {
    GetCurrentUser(st).Some?
  }

  /** The session queries agree: authenticated exactly when a current user is returned. */
  lemma SessionQueries(st: Storage, u: User)
    ensures IsAuthenticated(st) <==> GetCurrentUser(st).Some?
    ensures IsAuthenticated(Logout(st)) == false
    ensures IsAuthenticated(st.(currentUser := Some(u))) && GetCurrentUser(st.(currentUser := Some(u))) == Some(u)
  {
  }

  /** No two roster entries share an email. */
  ghost predicate DistinctEmails(users: seq<StoredUser>) {
    forall i, j :: 0 <= i < j < |users| ==> users[i].email != users[j].email
  }

  /** A call a client can make on the service. */
  datatype Call =
    | RegisterCall(email: string, password: string, name: string, now: nat)
    | LoginCall(email: string, password: string)
    | LogoutCall

  function Apply(st: Storage, c: Call): Storage {
    match c
    case RegisterCall(email, password, name, now) => Register(st, email, password, name, now).storage
    case LoginCall(email, password) => Login(st, email, password).storage
    case LogoutCall => Logout(st)
  }

  function Run(st: Storage, calls: seq<Call>): Storage
    decreases |calls|
  {
    if |calls| == 0 then st else Run(Apply(st, calls[0]), calls[1..])
  }

  lemma ApplyKeepsEmailsDistinct(st: Storage, c: Call)
    requires DistinctEmails(Roster(st))
    ensures DistinctEmails(Roster(Apply(st, c)))
  {
  }

  /**
   * Starting from a roster without duplicate emails (an empty one in particular), any
   * sequence of registrations, logins and logouts keeps the emails pairwise distinct.
   */
  lemma {:induction false} RunKeepsEmailsDistinct(st: Storage, calls: seq<Call>)
    requires DistinctEmails(Roster(st))
    ensures DistinctEmails(Roster(Run(st, calls)))
    decreases |calls|
  {
    if |calls| > 0 {
      ApplyKeepsEmailsDistinct(st, calls[0]);
      RunKeepsEmailsDistinct(Apply(st, calls[0]), calls[1..]);
    }
  }
}
