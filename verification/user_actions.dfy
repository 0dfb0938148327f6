/** The account actions of lib/actions/user.actions.ts: signing in and up,
    and the three single-field updates of the current user's record. */
module UserActions {
  import opened Common
  import opened Store
  import opened Validators

  /** How the auth library's `signIn` call ends: it returns, it throws the
      framework's redirect signal, or it throws an error (bad credentials). */
  datatype SignInOutcome = SignInReturned | SignInRedirect(url: string) | SignInError

  /** What an action hands back to its caller: a value, or the redirect
      signal it re-throws. */
  datatype Response<+T> = Returned(value: T) | Rethrown(url: string)

  const BadCredentials := Refused("invalid email or password")

  /** `SignInWithCredentials`. `isEmail` is the schema's email-format test,
      `signIn` how the library's sign-in call ends. Every failure other than
      the redirect signal becomes the same reply. */
  function SignInWithCredentials(email: string, password: string, isEmail: string -> bool, signIn: SignInOutcome): (r: Response<Reply>)
    ensures r.Rethrown? <==> isEmail(email) && |password| >= 1 && signIn.SignInRedirect?
    ensures r.Rethrown? ==> r.url == signIn.url
    ensures r == Returned(Said("Signed in successfully")) <==>
              isEmail(email) && |password| >= 1 && signIn == SignInReturned
    ensures r.Returned? ==> r.value == Said("Signed in successfully") || r.value == BadCredentials
  {
    if |SignInIssues(email, password, isEmail)| > 0 then Returned(BadCredentials)
    else match signIn
      case SignInReturned => Returned(Said("Signed in successfully"))
      case SignInRedirect(url) => Rethrown(url)
      case SignInError => Returned(BadCredentials)
  }

  /** The sign-up reply: `errors` is present only on a validation failure. */
  datatype SignUpReply = SignUpReply(reply: Reply, errors: Option<FieldErrors>)

  datatype SignUpStep = SignUpStep(response: Response<SignUpReply>, db: Db)

  /** The row `user.create` inserts: the hash of the password, never the
      password itself, and the schema's defaults for everything else. */
  function NewUser(id: Id, form: SignUpForm, hash: string -> string, defaultRole: string): User {
    User(id, form.name, form.email, Some(hash(form.password)), defaultRole, None, None, None)
  }

  /** `signUpUser`. `hash` stands for bcrypt's `hashSync`, `newUserId` for the
      id the database gives the row, `defaultRole` for the schema's default
      role; the email column is unique, so an insert with a taken email (or
      id) fails. A sign-in that fails after the insert keeps the new user. */
  function SignUpUser(db: Db, form: SignUpForm, isEmail: string -> bool, hash: string -> string,
                      newUserId: Id, defaultRole: string, signIn: SignInOutcome): (out: SignUpStep)
    // validation failure: the first message of each field, no write
    ensures |SignUpIssues(form, isEmail)| > 0 ==>
              out == SignUpStep(Returned(SignUpReply(Refused("Invalid fields"), Some(SignUpErrors(form, isEmail)))), db)
    // a valid form: at most one row is added, and only to the users table
    ensures out.db.carts == db.carts && out.db.orders == db.orders
    ensures out.db.products == db.products && out.db.reviews == db.reviews
    ensures out.db.users == db.users || out.db.users == db.users + [NewUser(newUserId, form, hash, defaultRole)]
    ensures out.db.users != db.users <==>
              && |SignUpIssues(form, isEmail)| == 0
              && (forall k :: 0 <= k < |db.users| ==> db.users[k].email != form.email && db.users[k].id != newUserId)
    ensures out.db.users == db.users ==> out.response.Returned? && !out.response.value.reply.success
    ensures out.response.Rethrown? <==> out.db.users != db.users && signIn.SignInRedirect?
    ensures out.response.Returned? && out.response.value.reply.success <==>
              out.db.users != db.users && signIn == SignInReturned
    ensures out.response.Returned? && out.response.value.reply.success ==>
              out.response.value == SignUpReply(Said("User registered successfully"), None)
  {
    if |SignUpIssues(form, isEmail)| > 0 then
      SignUpStep(Returned(SignUpReply(Refused("Invalid fields"), Some(SignUpErrors(form, isEmail)))), db)
    else if exists k :: 0 <= k < |db.users| && (db.users[k].email == form.email || db.users[k].id == newUserId) then
      SignUpStep(Returned(SignUpReply(Caught(RuntimeFault), None)), db)
    else
      var db' := db.(users := db.users + [NewUser(newUserId, form, hash, defaultRole)]);
      assert db'.users != db.users by { assert |db'.users| != |db.users|; }
      match signIn
      case SignInReturned => SignUpStep(Returned(SignUpReply(Said("User registered successfully"), None)), db')
      case SignInRedirect(url) => SignUpStep(Rethrown(url), db')
      case SignInError => SignUpStep(Returned(SignUpReply(Caught(RuntimeFault), None)), db')
  }

  /** Once sign-up has inserted the user, the credentials it stored are the
      ones a later sign-in checks: the user is found by the submitted email
      and holds the hash of the submitted password. */
  lemma SignUpStoresHash(db: Db, form: SignUpForm, isEmail: string -> bool, hash: string -> string,
                           newUserId: Id, defaultRole: string, signIn: SignInOutcome)
    requires SignUpUser(db, form, isEmail, hash, newUserId, defaultRole, signIn).db.users != db.users
    ensures var users := SignUpUser(db, form, isEmail, hash, newUserId, defaultRole, signIn).db.users;
            && |users| == |db.users| + 1
            && (forall k :: 0 <= k < |users| && users[k].email == form.email ==> k == |db.users|)
            && users[|db.users|].password == Some(hash(form.password))
            && users[|db.users|].name == form.name
            && users[|db.users|].id == newUserId
  {
    var users := SignUpUser(db, form, isEmail, hash, newUserId, defaultRole, signIn).db.users;
    assert users == db.users + [NewUser(newUserId, form, hash, defaultRole)];
  }

  /** The users table after row `i` is replaced by `row`: nothing else moves. */
  ghost predicate OnlyRowChanged(before: Db, after: Db, i: nat, row: User) {
    && i < |before.users|
    && after == before.(users := before.users[i := row])
  }

  /** `updateUserAddress`. A session without a user is told to log in;
      `parsed` is the result of `shippingAddressSchema.parse` (that schema is
      not part of this model), which runs after the user lookup. */
  function UpdateUserAddress(db: Db, session: Option<Session>, parsed: Option<Address>): (out: Step)
    ensures session.None? || session.value.userId.None? ==>
              out == Step(Refused("You need to be logged in, in order to save your shipping address!"), db)
    ensures session.Some? && session.value.userId.Some? && UserRow(db.users, session.value.userId).None? ==>
              out == Step(Refused("User not found!"), db)
    ensures session.Some? && UserRow(db.users, session.value.userId).Some? && parsed.None? ==>
              out == Step(Caught(Invalid), db)
    ensures !out.reply.success ==> out.db == db
    ensures out.reply.success <==>
              session.Some? && UserRow(db.users, session.value.userId).Some? && parsed.Some?
    ensures out.reply.success ==>
              && out.reply == Said("Address updated successfully")
              && var i := UserRow(db.users, session.value.userId).value;
                 OnlyRowChanged(db, out.db, i, db.users[i].(address := parsed))
  {
    if session.None? || session.value.userId.None? then
      Step(Refused("You need to be logged in, in order to save your shipping address!"), db)
    else match UserRow(db.users, session.value.userId)
      case None => Step(Refused("User not found!"), db)
      case Some(i) =>
        if parsed.None? then Step(Caught(Invalid), db)
        else Step(Said("Address updated successfully"), db.(users := db.users[i := db.users[i].(address := parsed)]))
  }

  /** `updateUserPaymentMethod`. A session without a user id makes the
      lookup itself fail; `parsed` is the `type` field of a successful
      `paymentMethodSchema.parse` (that schema is not part of this model). */
  function UpdateUserPaymentMethod(db: Db, session: Option<Session>, parsed: Option<PaymentMethod>): (out: Step)
    ensures session.None? || session.value.userId.None? ==> out == Step(Caught(RuntimeFault), db)
    ensures session.Some? && session.value.userId.Some? && UserRow(db.users, session.value.userId).None? ==>
              out == Step(Caught(Thrown("No user found")), db)
    ensures !out.reply.success ==> out.db == db
    ensures out.reply.success <==>
              session.Some? && UserRow(db.users, session.value.userId).Some? && parsed.Some?
    ensures out.reply.success ==>
              && out.reply == Said("Payment method updated")
              && var i := UserRow(db.users, session.value.userId).value;
                 OnlyRowChanged(db, out.db, i, db.users[i].(paymentMethod := parsed))
  {
    if session.None? || session.value.userId.None? then Step(Caught(RuntimeFault), db)
    else match UserRow(db.users, session.value.userId)
      case None => Step(Caught(Thrown("No user found")), db)
      case Some(i) =>
        if parsed.None? then Step(Caught(Invalid), db)
        else Step(Said("Payment method updated"), db.(users := db.users[i := db.users[i].(paymentMethod := parsed)]))
  }

  /** `updateProfile`: only the name is written; the submitted email is
      ignored. */
  function UpdateProfile(db: Db, session: Option<Session>, name: string, email: string): (out: Step)
    ensures session.None? ==> out == Step(Caught(Thrown("Invalid session!")), db)
    ensures session.Some? && session.value.userId.None? ==> out == Step(Caught(RuntimeFault), db)
    ensures session.Some? && session.value.userId.Some? && UserRow(db.users, session.value.userId).None? ==>
              out == Step(Caught(Thrown("User not found!")), db)
    ensures !out.reply.success ==> out.db == db
    ensures out.reply.success <==> session.Some? && UserRow(db.users, session.value.userId).Some?
    ensures out.reply.success ==>
              && out.reply == Said("User updated successfully.")
              && var i := UserRow(db.users, session.value.userId).value;
                 && OnlyRowChanged(db, out.db, i, db.users[i].(name := name))
                 && out.db.users[i].email == db.users[i].email
  {
    if session.None? then Step(Caught(Thrown("Invalid session!")), db)
    else if session.value.userId.None? then Step(Caught(RuntimeFault), db)
    else match UserRow(db.users, session.value.userId)
      case None => Step(Caught(Thrown("User not found!")), db)
      case Some(i) => Step(Said("User updated successfully."), db.(users := db.users[i := db.users[i].(name := name)]))
  }

  /** With unique user ids, each update touches exactly the session user's
      record: every other user's row is as before. */
  lemma UpdatesTouchOnlySessionUser(db: Db, session: Option<Session>, address: Option<Address>,
                                    payment: Option<PaymentMethod>, name: string, email: string, k: nat)
    requires UniqueUserIds(db.users)
    requires k < |db.users| && session.Some? && session.value.userId != Some(db.users[k].id)
    ensures k < |UpdateUserAddress(db, session, address).db.users| &&
            UpdateUserAddress(db, session, address).db.users[k] == db.users[k]
    ensures k < |UpdateUserPaymentMethod(db, session, payment).db.users| &&
            UpdateUserPaymentMethod(db, session, payment).db.users[k] == db.users[k]
    ensures k < |UpdateProfile(db, session, name, email).db.users| &&
            UpdateProfile(db, session, name, email).db.users[k] == db.users[k]
  {
  }
}
