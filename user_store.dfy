/**
 * The in-memory user store: users indexed twice (by login and by id), an id
 * counter, and a token -> session map of its own.
 */
module UserStore {
  import opened Results

  /** `ErrConflict`, `ErrUnauth` and this store's own `ErrInvalidToken`. */
  datatype UserError = Conflict | Unauth | InvalidToken

  datatype User = User(id: int, login: string, password: string)

  /** This store's session record: only the owner's id and the token. */
  datatype Session = Session(userID: int, sessionID: string)

  /** The store's four fields, as one value. */
  datatype UserState = UserState(
    nextID: int,
    byLogin: map<string, User>,
    byID: map<int, User>,
    sessions: map<string, Session>)

  /** The state `NewInMemoryUserStore` starts from. */
  function Empty(): UserState
  {
    UserState(0, map[], map[], map[])
  }

  /**
   * The two user maps hold the same users, each filed under its own login and
   * id; every id lies in 1..nextID; every session is filed under its own token
   * and names a known user.
   */
  ghost predicate Consistent(s: UserState)
  {
    && 0 <= s.nextID
    && (forall l :: l in s.byLogin ==>
          s.byLogin[l].login == l && s.byLogin[l].id in s.byID && s.byID[s.byLogin[l].id] == s.byLogin[l])
    && (forall i :: i in s.byID ==>
          s.byID[i].id == i && s.byID[i].login in s.byLogin && s.byLogin[s.byID[i].login] == s.byID[i]
          && 1 <= i <= s.nextID)
    && (forall t :: t in s.sessions ==>
          s.sessions[t].sessionID == t && s.sessions[t].userID in s.byID)
  }

  // ---------------------------------------------------------------------------
  // Specification.
  // ---------------------------------------------------------------------------

  /** The answer and the state after `Register(login, password)`. */
  function RegisterStep(s: UserState, login: string, password: string): (r: (Result<int, UserError>, UserState))
    ensures login in s.byLogin ==> r == (Err(Conflict), s)
    ensures login !in s.byLogin ==>
              var id := s.nextID + 1;
              && r.0 == Ok(id) && r.1.nextID == id
              && r.1.byLogin.Keys == s.byLogin.Keys + {login} && r.1.byID.Keys == s.byID.Keys + {id}
              && r.1.byLogin[login] == User(id, login, password) && r.1.byID[id] == User(id, login, password)
              && (forall l :: l in s.byLogin ==> r.1.byLogin[l] == s.byLogin[l])
              && (forall i :: i in s.byID && i != id ==> r.1.byID[i] == s.byID[i])
              && r.1.sessions == s.sessions
  {
    if login in s.byLogin then (Err(Conflict), s)
    else
      var id := s.nextID + 1;
      var user := User(id, login, password);
      (Ok(id), s.(nextID := id, byLogin := s.byLogin[login := user], byID := s.byID[id := user]))
  }

  /** The answer and the state after `Login(login, password)`, `token` being the generated one. */
  function LoginStep(s: UserState, login: string, password: string, token: string): (r: (Result<string, UserError>, UserState))
    ensures login !in s.byLogin || s.byLogin[login].password != password ==> r == (Err(Unauth), s)
    ensures login in s.byLogin && s.byLogin[login].password == password ==>
              && r.0 == Ok(token)
              && r.1 == s.(sessions := r.1.sessions)
              && r.1.sessions.Keys == s.sessions.Keys + {token}
              && r.1.sessions[token] == Session(s.byLogin[login].id, token)
              && (forall t :: t in s.sessions && t != token ==> r.1.sessions[t] == s.sessions[t])
  {
    if login !in s.byLogin || s.byLogin[login].password != password then (Err(Unauth), s)
    else (Ok(token), s.(sessions := s.sessions[token := Session(s.byLogin[login].id, token)]))
  }

  /** What `GetUserByToken(token)` answers. */
  function UserByToken(s: UserState, token: string): (r: Result<User, UserError>)
    ensures r.Ok? <==> token in s.sessions && s.sessions[token].userID in s.byID
    ensures r.Err? ==> r.error == InvalidToken
    ensures r.Ok? ==> r.value == s.byID[s.sessions[token].userID]
  {
    if token !in s.sessions then Err(InvalidToken)
    else if s.sessions[token].userID !in s.byID then Err(InvalidToken)
    else Ok(s.byID[s.sessions[token].userID])
  }

  // ---------------------------------------------------------------------------
  // Sequences of writes.
  // ---------------------------------------------------------------------------

  /** A write to the store; `token` is what the token generator returned. */
  datatype UserOp =
    | RegisterOp(login: string, password: string)
    | LoginOp(login: string, password: string, token: string)

  function Apply(s: UserState, op: UserOp): UserState
  {
    match op
    case RegisterOp(login, password) => RegisterStep(s, login, password).1
    case LoginOp(login, password, token) => LoginStep(s, login, password, token).1
  }

  /** The state after the writes `ops`, applied in order. */
  function Run(s: UserState, ops: seq<UserOp>): UserState
    decreases |ops|
  {
    if ops == [] then s else Run(Apply(s, ops[0]), ops[1..])
  }

  /** The ids handed out by the successful registrations among `ops`, in order. */
  function IssuedIds(s: UserState, ops: seq<UserOp>): seq<int>
    decreases |ops|
  {
    if ops == [] then []
    else
      var head := if ops[0].RegisterOp? && RegisterStep(s, ops[0].login, ops[0].password).0.Ok?
                  then [RegisterStep(s, ops[0].login, ops[0].password).0.value] else [];
      head + IssuedIds(Apply(s, ops[0]), ops[1..])
  }

  // ---------------------------------------------------------------------------
  // Properties.
  // ---------------------------------------------------------------------------

  /** The empty store is consistent, and its first registration gets id 1. */
  lemma EmptyStore(login: string, password: string)
    ensures Consistent(Empty())
    ensures RegisterStep(Empty(), login, password).0 == Ok(1)
  {
  }

  /** `Register` keeps the store consistent, and the id it hands out was unused. */
  lemma RegisterKeepsConsistent(s: UserState, login: string, password: string)
    requires Consistent(s)
    ensures Consistent(RegisterStep(s, login, password).1)
    ensures RegisterStep(s, login, password).0.Ok? ==> RegisterStep(s, login, password).0.value !in s.byID
  {
  }

  /** `Login` keeps the store consistent: the new session names a registered user. */
  lemma LoginKeepsConsistent(s: UserState, login: string, password: string, token: string)
    requires Consistent(s)
    ensures Consistent(LoginStep(s, login, password, token).1)
  {
  }

  /** Any sequence of writes keeps the store consistent. */
  lemma {:induction false} RunKeepsConsistent(s: UserState, ops: seq<UserOp>)
    requires Consistent(s)
    ensures Consistent(Run(s, ops))
    decreases |ops|
  {
    if ops != [] {
      match ops[0] {
        case RegisterOp(login, password) => RegisterKeepsConsistent(s, login, password);
        case LoginOp(login, password, token) => LoginKeepsConsistent(s, login, password, token);
      }
      RunKeepsConsistent(Apply(s, ops[0]), ops[1..]);
    }
  }

  /**
   * Ids are handed out in strictly increasing order, each above the counter
   * the sequence started from and at most the counter it ends with; so none
   * of them was in use before.
   */
  lemma {:induction false} IssuedIdsIncrease(s: UserState, ops: seq<UserOp>)
    ensures s.nextID <= Run(s, ops).nextID
    ensures forall i :: 0 <= i < |IssuedIds(s, ops)| ==> s.nextID < IssuedIds(s, ops)[i] <= Run(s, ops).nextID
    ensures forall i, j :: 0 <= i < j < |IssuedIds(s, ops)| ==> IssuedIds(s, ops)[i] < IssuedIds(s, ops)[j]
    decreases |ops|
  {
    if ops != [] {
      var s1 := Apply(s, ops[0]);
      IssuedIdsIncrease(s1, ops[1..]);
      assert s.nextID <= s1.nextID;
      var head := if ops[0].RegisterOp? && RegisterStep(s, ops[0].login, ops[0].password).0.Ok?
                  then [RegisterStep(s, ops[0].login, ops[0].password).0.value] else [];
      var tail := IssuedIds(s1, ops[1..]);
      assert IssuedIds(s, ops) == head + tail;
      assert head != [] ==> head == [s1.nextID] && s.nextID < s1.nextID;
    }
  }

  /** A registered user is never changed or removed, under either index. */
  lemma {:induction false} UsersNeverChange(s: UserState, ops: seq<UserOp>)
    requires Consistent(s)
    ensures forall i :: i in s.byID ==> i in Run(s, ops).byID && Run(s, ops).byID[i] == s.byID[i]
    ensures forall l :: l in s.byLogin ==> l in Run(s, ops).byLogin && Run(s, ops).byLogin[l] == s.byLogin[l]
    decreases |ops|
  {
    if ops != [] {
      var s1 := Apply(s, ops[0]);
      match ops[0] {
        case RegisterOp(login, password) => RegisterKeepsConsistent(s, login, password);
        case LoginOp(login, password, token) => LoginKeepsConsistent(s, login, password, token);
      }
      UsersNeverChange(s1, ops[1..]);
    }
  }

  /** True when some write among `ops` is a `Login` that handed out `token`. */
  predicate Issues(ops: seq<UserOp>, token: string)
  {
    exists i :: 0 <= i < |ops| && ops[i].LoginOp? && ops[i].token == token
  }

  /** A token no `Login` handed out is refused by `GetUserByToken`, whatever happened before. */
  lemma {:induction false} NeverIssuedIsRefused(s: UserState, ops: seq<UserOp>, token: string)
    requires token !in s.sessions && !Issues(ops, token)
    ensures UserByToken(Run(s, ops), token) == Err(InvalidToken)
    decreases |ops|
  {
    if ops != [] {
      assert !Issues(ops[1..], token) by {
        forall i | 0 <= i < |ops[1..]| ensures !(ops[1..][i].LoginOp? && ops[1..][i].token == token) {
          assert ops[1..][i] == ops[i + 1];
        }
      }
      NeverIssuedIsRefused(Apply(s, ops[0]), ops[1..], token);
    }
  }

  /** Registering a login a second time fails with `Conflict` and leaves the first registration as it was. */
  lemma DuplicateRegisterConflicts(s: UserState, login: string, p1: string, p2: string)
    requires RegisterStep(s, login, p1).0.Ok?
    ensures var s1 := RegisterStep(s, login, p1).1;
            RegisterStep(s1, login, p2) == (Err(Conflict), s1)
            && s1.byLogin[login] == User(RegisterStep(s, login, p1).0.value, login, p1)
  {
  }

  /** In a consistent store every issued token resolves, to the user its session names. */
  lemma SessionsResolve(s: UserState, token: string)
    requires Consistent(s)
    ensures UserByToken(s, token).Ok? <==> token in s.sessions
    ensures token in s.sessions ==> UserByToken(s, token).value.id == s.sessions[token].userID
  {
  }

  /** Register, then log in with the same credentials: the token resolves to the user `Register` created. */
  lemma RegisterLoginResolve(s: UserState, login: string, password: string, token: string)
    requires RegisterStep(s, login, password).0.Ok?
    ensures var (reg, s1) := RegisterStep(s, login, password);
            var (tok, s2) := LoginStep(s1, login, password, token);
            tok == Ok(token) && UserByToken(s2, token) == Ok(User(reg.value, login, password))
  {
  }

  // ---------------------------------------------------------------------------
  // The store itself.
  // ---------------------------------------------------------------------------

  class InMemoryUserStore {
    var nextID: int
    var usersByLogin: map<string, User>
    var usersByID: map<int, User>
    var sessions: map<string, Session>

    /** The four fields as one value. */
    function State(): UserState
      reads this
    {
      UserState(nextID, usersByLogin, usersByID, sessions)
    }

    ghost predicate Valid()
      reads this
    {
      Consistent(State())
    }

    /** `NewInMemoryUserStore`: counter 0 and three empty maps. */
    constructor ()
      ensures Valid() && State() == Empty()
    {
      nextID := 0;
      usersByLogin := map[];
      usersByID := map[];
      sessions := map[];
    }

    method Register(username: string, password: string) returns (r: Result<int, UserError>)
      requires Valid()
      modifies this
      ensures Valid()
      ensures (r, State()) == RegisterStep(old(State()), username, password)
    {
      RegisterKeepsConsistent(State(), username, password);
      if username in usersByLogin {
        return Err(Conflict);
      }
      nextID := nextID + 1;
      var user := User(nextID, username, password);
      usersByLogin := usersByLogin[username := user];
      usersByID := usersByID[user.id := user];
      r := Ok(user.id);
    }

    /** `Login`: `token` is what the token generator returned. */
    method Login(username: string, password: string, token: string) returns (r: Result<string, UserError>)
      requires Valid()
      modifies this
      ensures Valid()
      ensures (r, State()) == LoginStep(old(State()), username, password, token)
    {
      LoginKeepsConsistent(State(), username, password, token);
      if username !in usersByLogin || usersByLogin[username].password != password {
        return Err(Unauth);
      }
      var user := usersByLogin[username];
      sessions := sessions[token := Session(user.id, token)];
      r := Ok(token);
    }

    method GetUserByToken(token: string) returns (r: Result<User, UserError>)
      ensures r == UserByToken(State(), token)
    {
      if token !in sessions {
        return Err(InvalidToken);
      }
      var sess := sessions[token];
      if sess.userID !in usersByID {
        return Err(InvalidToken);
      }
      r := Ok(usersByID[sess.userID]);
    }
  }

  /**
   * Register "alice" with "pw1", register her again with "pw2", log in with
   * "pw1" and resolve the token: the second registration conflicts and the
   * token resolves to the first user, id 1.
   */
  method AliceScenario(token: string)
    returns (first: Result<int, UserError>, second: Result<int, UserError>,
             login: Result<string, UserError>, user: Result<User, UserError>)
    ensures first == Ok(1)
    ensures second == Err(Conflict)
    ensures login == Ok(token)
    ensures user == Ok(User(1, "alice", "pw1"))
  {
    var store := new InMemoryUserStore();
    first := store.Register("alice", "pw1");
    second := store.Register("alice", "pw2");
    login := store.Login("alice", "pw1", token);
    user := store.GetUserByToken(token);
  }
}
