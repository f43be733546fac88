/** Registration and login over the user store.

    Registration refuses an e-mail already in the store, stores a hash of the
    password (never the password), defaults the role to customer, and answers
    with a token signed over the new user's id and role. Login answers the same
    failure for an unknown e-mail and for a wrong password. */
module Credentials {
  import opened Http
  import opened Models
  import opened Tokens
  import opened Schemas

  /** The user as returned to clients: no password hash. */
  datatype UserSummary = UserSummary(id: string, name: string, email: string, role: Role)

  datatype Session = Session(token: string, user: UserSummary)

  const InvalidCredentials: Failure := Unauthorized("Invalid credentials")

  /** E-mail is unique across users; so is the system id. */
  ghost predicate UsersValid(users: seq<User>) {
    && (forall i, j :: 0 <= i < j < |users| ==> users[i].email != users[j].email)
    && (forall i, j :: 0 <= i < j < |users| ==> users[i].id != users[j].id)
    && (forall i :: 0 <= i < |users| ==> UserAccepted(users[i]))
  }

  /** The store's lookup by e-mail: the first user with that e-mail. */
  function FindByEmail(users: seq<User>, email: string): (r: Option<User>)
    ensures r.Some? ==> r.value in users && r.value.email == email
    ensures r.None? <==> forall u :: u in users ==> u.email != email
  {
    if |users| == 0 then None
    else if users[0].email == email then Some(users[0])
    else FindByEmail(users[1..], email)
  }

  /** The role a registration asks for, defaulting to customer when absent or
      empty; `None` when the text is not a role (the user schema rejects it). */
  function RequestedRole(role: Option<string>): (r: Option<Role>)
    ensures role.None? || role.value == "" ==> r == Some(Customer)
    ensures role.Some? && role.value != "" ==> r == ParseRole(role.value)
  {
    if role.None? || role.value == "" then Some(Customer) else ParseRole(role.value)
  }

  function Summary(u: User): UserSummary {
    UserSummary(u.id, u.name, u.email, u.role)
  }

  /** The register handler. `freshId` is the id the store assigns. A record the
      user schema rejects makes the create throw, which this handler does not
      catch. */
  function Register(users: seq<User>, body: RegisterBody, c: Crypto, freshId: string): (st: Step<Session, seq<User>>)
    ensures FindByEmail(users, body.email).Some? ==>
              st.reply == Fail(Conflict("Email already in use")) && st.state == users
    ensures st.reply.Fail? ==> st.state == users
    ensures st.reply.Ok? ==>
              && RequestedRole(body.role).Some?
              && var role := RequestedRole(body.role).value;
              && var u := User(freshId, body.name, body.email, role, c.hash(body.password));
              && st.state == users + [u]
              && st.reply.value == Session(c.sign(Claims(freshId, role)), Summary(u))
    ensures st.reply.Ok? <==>
              FindByEmail(users, body.email).None? && RequestedRole(body.role).Some?
              && body.name != "" && body.email != "" && c.hash(body.password) != ""
  {
    if FindByEmail(users, body.email).Some? then
      Step(Fail(Conflict("Email already in use")), users)
    else
      match RequestedRole(body.role)
      case None => Step(Fail(Unhandled), users)
      case Some(role) =>
        var u := User(freshId, body.name, body.email, role, c.hash(body.password));
        if !UserAccepted(u) then Step(Fail(Unhandled), users)
        else Step(Ok(Session(c.sign(Claims(freshId, role)), Summary(u))), users + [u])
  }

  /** The login handler. */
  function Login(users: seq<User>, body: LoginBody, c: Crypto): (r: Reply<Session>)
    ensures r.Fail? ==> r == Fail(InvalidCredentials)
    ensures r.Ok? ==>
              exists u :: u in users && u.email == body.email && c.compare(body.password, u.passwordHash)
                          && r.value == Session(c.sign(Claims(u.id, u.role)), Summary(u))
  {
    match FindByEmail(users, body.email)
    case None => Fail(InvalidCredentials)
    case Some(u) =>
      if !c.compare(body.password, u.passwordHash) then Fail(InvalidCredentials)
      else Ok(Session(c.sign(Claims(u.id, u.role)), Summary(u)))
  }

  lemma {:induction false} FindByEmailUnique(users: seq<User>, u: User)
    requires UsersValid(users)
    requires u in users
    ensures FindByEmail(users, u.email) == Some(u)
  {
    if users[0] != u {
      assert UsersValid(users[1..]) by {
        forall i, j | 0 <= i < j < |users[1..]| ensures users[1..][i].email != users[1..][j].email {
          assert users[1..][i] == users[i + 1] && users[1..][j] == users[j + 1];
        }
        forall i, j | 0 <= i < j < |users[1..]| ensures users[1..][i].id != users[1..][j].id {
          assert users[1..][i] == users[i + 1] && users[1..][j] == users[j + 1];
        }
      }
      var k :| 0 <= k < |users| && users[k] == u;
      assert users[0].email != u.email;
      FindByEmailUnique(users[1..], u);
    }
  }

  /** With unique e-mails, login succeeds exactly for a stored user whose hash
      the password matches, and unknown e-mail and wrong password are answered
      identically. */
  lemma LoginExactly(users: seq<User>, body: LoginBody, c: Crypto)
    requires UsersValid(users)
    ensures Login(users, body, c).Ok? <==>
              exists u :: u in users && u.email == body.email && c.compare(body.password, u.passwordHash)
    ensures (forall u :: u in users ==> u.email != body.email) ==> Login(users, body, c) == Fail(InvalidCredentials)
  {
    if exists u :: u in users && u.email == body.email && c.compare(body.password, u.passwordHash) {
      var u :| u in users && u.email == body.email && c.compare(body.password, u.passwordHash);
      FindByEmailUnique(users, u);
    }
  }

  /** Registration keeps e-mails and ids unique and every user accepted. */
  lemma RegisterPreservesValid(users: seq<User>, body: RegisterBody, c: Crypto, freshId: string)
    requires UsersValid(users)
    requires forall u :: u in users ==> u.id != freshId
    ensures UsersValid(Register(users, body, c, freshId).state)
  {
    var st := Register(users, body, c, freshId);
    if st.reply.Ok? {
      var s' := st.state;
      assert s'[|users|].email == body.email;
      forall i | 0 <= i < |users| ensures users[i].email != body.email && users[i].id != freshId {
        assert users[i] in users;
      }
    }
  }

  /** A user who registered can log in with the same e-mail and password, and
      gets the same summary back. */
  lemma RegisterThenLogin(users: seq<User>, body: RegisterBody, c: Crypto, freshId: string)
    requires Coherent(c)
    requires UsersValid(users)
    requires forall u :: u in users ==> u.id != freshId
    requires Register(users, body, c, freshId).reply.Ok?
    ensures Login(Register(users, body, c, freshId).state, LoginBody(body.email, body.password), c)
            == Ok(Register(users, body, c, freshId).reply.value)
  {
    var st := Register(users, body, c, freshId);
    RegisterPreservesValid(users, body, c, freshId);
    var u := st.state[|users|];
    assert u in st.state;
    FindByEmailUnique(st.state, u);
    assert c.compare(body.password, c.hash(body.password));
  }
}
