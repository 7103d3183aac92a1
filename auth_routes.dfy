/** The handlers of the auth router: register a user, and log in, which merges
    the session's guest cart into the user's cart. */
module AuthRoutes {
  import opened Schema
  import opened Tables
  import opened Merge
  import opened Database

  /** What login reports: the user now bound to the session and what the merge did. */
  datatype LoginInfo = LoginInfo(userId: UserId, merge: MergeOutcome)

  /** Whether some user with this email exists. */
  predicate EmailTaken(users: map<UserId, User>, email: string)
  {
    exists u | u in users :: users[u].email == email
  }

  /** Login's success condition: some user has this email and a digest the
      password matches. */
  ghost predicate Authenticates(users: map<UserId, User>, matches: (string, string) -> bool, email: string, password: string)
  {
    exists u :: u in users && users[u].email == email && matches(password, users[u].passwordHash)
  }

  /** `POST /register`: a falsy email or password gives MissingFields; an email
      already registered gives DuplicateEmail; in both cases the users table is
      unchanged. Otherwise exactly one user with a fresh id is added, holding
      the email and `passwordHash`, the bcrypt digest of the password computed
      by the caller; bcrypt's compare accepts a password against its own digest,
      so after a successful registration the same credentials log in. */
  method Register(db: Database, email: string, password: string, passwordHash: string) returns (r: Result<UserId>)
    requires db.Valid()
    requires db.matches(password, passwordHash)
    modifies db`users, db`nextUserId
    ensures db.Valid()
    ensures r.Ok? ==> Authenticates(db.users, db.matches, email, password)
    ensures (email == "" || password == "") ==> r == Err(MissingFields) && db.users == old(db.users)
    ensures email != "" && password != "" && EmailTaken(old(db.users), email) ==>
      r == Err(DuplicateEmail) && db.users == old(db.users)
    ensures email != "" && password != "" && !EmailTaken(old(db.users), email) ==>
      && r.Ok? && r.value !in old(db.users)
      && db.users == old(db.users)[r.value := User(email, passwordHash)]
  {
    if email == "" || password == "" {
      return Err(MissingFields);
    }
    if EmailTaken(db.users, email) {
      return Err(DuplicateEmail);
    }
    var id := db.nextUserId;
    db.nextUserId := db.nextUserId + 1;
    db.users := db.users[id := User(email, passwordHash)];
    r := Ok(id);
    assert db.users[id].email == email;
  }

  /** The merge step of login, as one atomic step: with no guest cart of the
      session, nothing changes; if user uid owns no cart, the guest cart is
      handed to uid; otherwise the guest cart's items move into a cart uid owns
      and the guest cart is deleted. */
  method MergeGuestCart(db: Database, uid: UserId) returns (m: MergeOutcome)
    requires db.Valid()
    modifies db`carts, db`items
    ensures db.Valid()
    ensures ValidChoice(old(db.carts), db.session.sid, uid, m)
    ensures db.carts == MergedCarts(old(db.carts), uid, m)
    ensures db.items == MergedItems(old(db.items), m)
  {
    var sid := db.session.sid;
    if exists g | g in db.carts :: db.carts[g].sessionId == sid && db.carts[g].userId == None {
      var g :| g in db.carts && db.carts[g].sessionId == sid && db.carts[g].userId == None;
      if !exists u | u in db.carts :: db.carts[u].userId == Some(uid) {
        assert Owned(db.carts, uid) == {};
        db.carts := db.carts[g := db.carts[g].(userId := Some(uid))];
        m := Reassigned(g);
      } else {
        var u :| u in db.carts && db.carts[u].userId == Some(uid);
        db.items := ReassignRows(db.items, g, u);
        db.carts := db.carts - {g};
        m := MovedInto(g, u);
      }
    } else {
      assert GuestCarts(db.carts, sid) == {};
      m := NoGuestCart;
    }
  }

  /** `POST /login`: an unknown email and a wrong password both give
      InvalidCredentials and change nothing. Otherwise the guest cart is
      merged, the session holds the user, and its cart is the merge's result
      cart when a guest cart was found and stays as it was when none was. */
  method Login(db: Database, email: string, password: string) returns (r: Result<LoginInfo>)
    requires db.Valid()
    modifies db`carts, db`items, db`session
    ensures db.Valid()
    ensures r.Err? <==> !Authenticates(db.users, db.matches, email, password)
    ensures r.Err? ==>
      && r.error == InvalidCredentials
      && db.carts == old(db.carts) && db.items == old(db.items) && db.session == old(db.session)
    ensures r.Ok? ==>
      && r.value.userId in db.users && db.users[r.value.userId].email == email
      && db.matches(password, db.users[r.value.userId].passwordHash)
      && ValidChoice(old(db.carts), old(db.session.sid), r.value.userId, r.value.merge)
      && db.carts == MergedCarts(old(db.carts), r.value.userId, r.value.merge)
      && db.items == MergedItems(old(db.items), r.value.merge)
      && db.session == old(db.session).(
           userId := Some(r.value.userId),
           cartId := if ResultCart(r.value.merge).Some? then ResultCart(r.value.merge) else old(db.session.cartId))
  {
    if !EmailTaken(db.users, email) {
      return Err(InvalidCredentials);
    }
    var uid :| uid in db.users && db.users[uid].email == email;
    if !db.matches(password, db.users[uid].passwordHash) {
      return Err(InvalidCredentials);
    }
    var m := MergeGuestCart(db, uid);
    var cartId := ResultCart(m);
    db.session := db.session.(userId := Some(uid));
    if cartId.Some? {
      db.session := db.session.(cartId := cartId);
    }
    r := Ok(LoginInfo(uid, m));
  }
}
