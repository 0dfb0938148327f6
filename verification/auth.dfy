/** The credential gate and the session/token callbacks of auth.ts, including
    the hand-over of the anonymous session cart to the user who signs in. */
module Auth {
  import opened Common
  import opened Store

  /** What `authorize` hands to the auth library for a good login. */
  datatype Profile = Profile(id: Id, name: string, email: string, role: string, image: Option<string>)

  /** A JavaScript truthiness test on an optional string: present and non-empty. */
  predicate Truthy(s: Option<string>) {
    s.Some? && s.value != ""
  }

  /** `getUserByEmail`: the first user row with this email. */
  function UserByEmail(users: seq<User>, email: string): (r: Option<nat>)
    ensures r.Some? ==> r.value < |users| && users[r.value].email == email
    ensures r.Some? ==> forall k :: 0 <= k < r.value ==> users[k].email != email
    ensures r.None? ==> forall k :: 0 <= k < |users| ==> users[k].email != email
  {
    FirstIndex(users, (u: User) => u.email == email)
  }

  /** `authorize` of the credentials provider. `matches(plain, hash)` stands
      for bcrypt's `compareSync`. */
  function Authorize(users: seq<User>, email: string, password: string, matches: (string, string) -> bool): (r: Option<Profile>)
    ensures r.Some? <==>
              exists i :: 0 <= i < |users| && users[i].email == email
                && (forall k :: 0 <= k < i ==> users[k].email != email)
                && Truthy(users[i].password) && matches(password, users[i].password.value)
    ensures r.Some? ==>
              exists i :: 0 <= i < |users| && users[i].email == email
                && (forall k :: 0 <= k < i ==> users[k].email != email)
                && r.value == Profile(users[i].id, users[i].name, users[i].email, users[i].role, users[i].image)
  {
    match UserByEmail(users, email)
    case None => None
    case Some(i) =>
      var user := users[i];
      if Truthy(user.password) && matches(password, user.password.value) then
        Some(Profile(user.id, user.name, user.email, user.role, user.image))
      else None
  }

  /** With unique emails, a login succeeds exactly when the account with that
      email has a password and the password matches it. */
  lemma AuthorizeUniqueEmails(users: seq<User>, email: string, password: string, matches: (string, string) -> bool, i: nat)
    requires forall a, b :: 0 <= a < b < |users| ==> users[a].email != users[b].email
    requires i < |users| && users[i].email == email
    ensures Authorize(users, email, password, matches).Some? <==>
              Truthy(users[i].password) && matches(password, users[i].password.value)
  {
    assert forall k :: 0 <= k < i ==> users[k].email != email;
  }

  /** The user part of the session object the client sees. */
  datatype SessionUser = SessionUser(id: Option<string>, name: Option<string>, email: Option<string>, role: Option<string>)

  /** The JWT: `sub` is the subject the auth library sets; `id` and `role`
      are copied in by the jwt callback. */
  datatype Token = Token(sub: Option<string>, id: Option<string>, role: Option<string>)

  /** The `session` callback. `user` is the user record the library passes
      on an update; reading its name when it is absent is a TypeError. */
  function SessionCallback(session: SessionUser, token: Token, trigger: Option<string>, user: Option<Profile>): (r: Outcome<SessionUser>)
    ensures r.Fail? <==> trigger == Some("update") && user.None?
    ensures r.Done? ==> r.value.id == token.sub && r.value.email == session.email
    ensures r.Done? ==> r.value.role == (if Truthy(token.role) then token.role else session.role)
    ensures r.Done? ==> r.value.name == (if trigger == Some("update") then Some(user.value.name) else session.name)
  {
    var s1 := session.(id := token.sub);
    if trigger == Some("update") && user.None? then Fail(RuntimeFault)
    else
      var s2 := if trigger == Some("update") then s1.(name := Some(user.value.name)) else s1;
      var s3 := if Truthy(token.role) then s2.(role := token.role) else s2;
      Done(s3)
  }

  /** The carts table after the hand-over of the session cart `sessionCartId`
      to `userId`: when the session cart belongs to someone else (or to no
      one), every cart the user already owns is deleted; then the session
      cart is assigned to the user. Without a matching cart nothing changes. */
  function HandOver(carts: seq<Cart>, sessionCartId: string, userId: Id): (r: seq<Cart>)
    ensures FirstIndex(carts, (c: Cart) => c.sessionCartId == sessionCartId).None? ==> r == carts
  {
    match FirstIndex(carts, (c: Cart) => c.sessionCartId == sessionCartId)
    case None => carts
    case Some(i) => Assign(Kept(carts, carts[i], userId), carts[i].id, userId)
  }

  /** The carts left after the clean-up: all of them when the session cart
      is already the user's, otherwise all those the user does not own. */
  function Kept(carts: seq<Cart>, cart: Cart, userId: Id): (kept: seq<Cart>)
    ensures cart in carts ==> cart in kept
    ensures forall k :: 0 <= k < |carts| && carts[k].userId != Some(userId) ==> carts[k] in kept
    ensures cart.userId != Some(userId) ==> forall k :: 0 <= k < |kept| ==> kept[k].userId != Some(userId)
    ensures cart.userId == Some(userId) ==> kept == carts
    // the clean-up only deletes: every kept cart is a row of the table
    ensures |kept| <= |carts|
    ensures forall k :: 0 <= k < |kept| ==> kept[k] in carts
  {
    if cart.userId != Some(userId) then Filter(carts, (c: Cart) => c.userId != Some(userId)) else carts
  }

  /** `cart.update({where: {id}, data: {userId}})`. */
  function Assign(carts: seq<Cart>, cartId: Id, userId: Id): (r: seq<Cart>)
    ensures |r| == |carts|
    // only the owner column changes, and only on the rows with this id
    ensures forall k :: 0 <= k < |r| ==> r[k].(userId := carts[k].userId) == carts[k]
    ensures forall k :: 0 <= k < |r| && carts[k].id != cartId ==> r[k] == carts[k]
    // afterwards the user owns exactly the rows with this id and those they owned before
    ensures forall k :: 0 <= k < |r| ==>
              (r[k].userId == Some(userId) <==> carts[k].id == cartId || carts[k].userId == Some(userId))
  {
    seq(|carts|, k requires 0 <= k < |carts| => if carts[k].id == cartId then carts[k].(userId := Some(userId)) else carts[k])
  }

  /** Assigning a cart a second time changes nothing. */
  lemma AssignIdempotent(carts: seq<Cart>, cartId: Id, userId: Id)
    ensures Assign(Assign(carts, cartId, userId), cartId, userId) == Assign(carts, cartId, userId)
  {
    var once := Assign(carts, cartId, userId);
    var twice := Assign(once, cartId, userId);
    forall k | 0 <= k < |twice| ensures twice[k] == once[k] {
      assert twice[k].(userId := once[k].userId) == once[k];
    }
  }

  /** After the hand-over the session cart is the user's. When it was not
      already theirs, no other cart is owned by the user; carts of other
      owners are kept. When it already was theirs, nothing changes. */
  lemma HandOverOwnership(carts: seq<Cart>, sessionCartId: string, userId: Id, i: nat)
    requires FirstIndex(carts, (c: Cart) => c.sessionCartId == sessionCartId) == Some(i)
    ensures var r := HandOver(carts, sessionCartId, userId);
            && (exists k :: 0 <= k < |r| && r[k] == carts[i].(userId := Some(userId)))
            && (forall k :: 0 <= k < |r| && r[k].id == carts[i].id ==> r[k].userId == Some(userId))
            && (carts[i].userId != Some(userId) ==>
                  forall k :: 0 <= k < |r| && r[k].userId == Some(userId) ==> r[k].id == carts[i].id)
            && (forall k :: 0 <= k < |carts| && carts[k].userId != Some(userId) && carts[k].id != carts[i].id ==> carts[k] in r)
            && (carts[i].userId == Some(userId) && UniqueCartIds(carts) ==> r == carts)
            // nothing is added: each row is a row of the table, possibly with the user as owner
            && |r| <= |carts|
            && (forall k :: 0 <= k < |r| ==> r[k] in carts || exists j :: 0 <= j < |carts| && r[k] == carts[j].(userId := Some(userId)))
  {
    var cart := carts[i];
    var kept := Kept(carts, cart, userId);
    assert HandOver(carts, sessionCartId, userId) == Assign(kept, cart.id, userId);
    AssignFound(kept, cart, userId);
    AssignKeepsOthers(carts, kept, cart.id, userId);
    AssignAddsNothing(carts, kept, cart.id, userId);
    if cart.userId == Some(userId) && UniqueCartIds(carts) {
      AssignOwnedIsNoop(carts, i, userId);
    }
  }

  lemma AssignAddsNothing(carts: seq<Cart>, kept: seq<Cart>, cartId: Id, userId: Id)
    requires forall k :: 0 <= k < |kept| ==> kept[k] in carts
    ensures var r := Assign(kept, cartId, userId);
            forall k :: 0 <= k < |r| ==> r[k] in carts || exists j :: 0 <= j < |carts| && r[k] == carts[j].(userId := Some(userId))
  {
    var r := Assign(kept, cartId, userId);
    forall k | 0 <= k < |r| && r[k] !in carts
      ensures exists j :: 0 <= j < |carts| && r[k] == carts[j].(userId := Some(userId))
    {
      var j :| 0 <= j < |carts| && carts[j] == kept[k];
      assert r[k] == carts[j].(userId := Some(userId));
    }
  }

  lemma AssignFound(kept: seq<Cart>, cart: Cart, userId: Id)
    requires cart in kept
    ensures exists k :: 0 <= k < |Assign(kept, cart.id, userId)| && Assign(kept, cart.id, userId)[k] == cart.(userId := Some(userId))
  {
    var j :| 0 <= j < |kept| && kept[j] == cart;
    assert Assign(kept, cart.id, userId)[j] == cart.(userId := Some(userId));
  }

  lemma AssignKeepsOthers(carts: seq<Cart>, kept: seq<Cart>, cartId: Id, userId: Id)
    requires forall k :: 0 <= k < |carts| && carts[k].userId != Some(userId) ==> carts[k] in kept
    ensures forall k :: 0 <= k < |carts| && carts[k].userId != Some(userId) && carts[k].id != cartId ==>
              carts[k] in Assign(kept, cartId, userId)
  {
    var r := Assign(kept, cartId, userId);
    forall k | 0 <= k < |carts| && carts[k].userId != Some(userId) && carts[k].id != cartId
      ensures carts[k] in r
    {
      var m :| 0 <= m < |kept| && kept[m] == carts[k];
      assert r[m] == carts[k];
    }
  }

  lemma AssignOwnedIsNoop(carts: seq<Cart>, i: nat, userId: Id)
    requires i < |carts| && carts[i].userId == Some(userId) && UniqueCartIds(carts)
    ensures Assign(carts, carts[i].id, userId) == carts
  {
    var r := Assign(carts, carts[i].id, userId);
    forall k | 0 <= k < |carts| ensures r[k] == carts[k] {
      if carts[k].id == carts[i].id {
        assert k == i;
      }
    }
  }

  /** The `jwt` callback. `cookieCart` is the `sessionCartId` cookie; the
      carts table is passed in and returned. */
  function JwtCallback(token: Token, user: Option<Profile>, trigger: string, cookieCart: Option<string>, carts: seq<Cart>): (r: (Token, seq<Cart>))
    ensures user.None? ==> r == (token, carts)
    ensures user.Some? ==> r.0 == token.(id := Some(user.value.id), role := Some(user.value.role))
    ensures user.Some? && (trigger == "signIn" || trigger == "signUp") && Truthy(cookieCart) ==>
              r.1 == HandOver(carts, cookieCart.value, user.value.id)
    ensures !(user.Some? && (trigger == "signIn" || trigger == "signUp") && Truthy(cookieCart)) ==> r.1 == carts
  {
    if user.None? then (token, carts)
    else
      var token' := token.(id := Some(user.value.id), role := Some(user.value.role));
      if (trigger == "signIn" || trigger == "signUp") && Truthy(cookieCart) then
        (token', HandOver(carts, cookieCart.value, user.value.id))
      else (token', carts)
  }
}
