/** `POST /api/auth/register`: sign a user up with the identity provider,
    then create their profile and an empty wallet. Failures of the two
    inserts are only logged: the registration is reported as successful. */
module RegisterRoute {
  import opened Base
  import opened Database

  datatype Request = Request(email: Option<string>, password: Option<string>,
                             fullName: Option<string>, phone: Option<string>)

  /** What the identity provider's sign-up returned: an error, no user, or the new user. */
  datatype SignUp = SignUpError(message: string) | NoUser | SignedUp(user: AuthUser)

  /** Whether the store accepts the profile insert and the wallet insert. */
  datatype Writes = Writes(profile: bool, wallet: bool)

  const MissingCredentials := Response(400, Error("Email and password are required"))
  const NoUserCreated := Response(500, Error("Failed to create user"))
  const Welcome := "Registration successful. Please check your email to verify your account."

  function NewProfile(req: Request): (p: Profile)
    requires Given(req.email)
    ensures p.email == req.email.value
    // a name or phone the form left empty is stored as null, any other as given
    ensures p.fullName.Some? <==> Given(req.fullName)
    ensures Given(req.fullName) ==> p.fullName == req.fullName
    ensures p.phone.Some? <==> Given(req.phone)
    ensures Given(req.phone) ==> p.phone == req.phone
  {
    Profile(req.email.value, OrNull(req.fullName), OrNull(req.phone))
  }

  /** `signUp` is consulted only once the e-mail and password are present. */
  function PostSpec(db: Db, req: Request, signUp: SignUp, writes: Writes): (r: (Db, Response))
    ensures r.0.txs == db.txs
    ensures forall u :: u in db.wallets ==> u in r.0.wallets && r.0.wallets[u] == db.wallets[u]
    ensures forall u :: u in db.profiles ==> u in r.0.profiles && r.0.profiles[u] == db.profiles[u]
    ensures !(Given(req.email) && Given(req.password)) ==> r == (db, MissingCredentials)
    ensures Given(req.email) && Given(req.password) && signUp.SignUpError? ==>
              r == (db, Response(400, Error(signUp.message)))
    ensures Given(req.email) && Given(req.password) && signUp.NoUser? ==> r == (db, NoUserCreated)
    // a signed-up user is reported whatever became of the two inserts
    ensures r.1.status == 200 <==> Given(req.email) && Given(req.password) && signUp.SignedUp?
    ensures r.1.status == 200 ==>
              var id := signUp.user.id;
              r.1.body == Json(map["message" := Text(Welcome),
                                   "user" := Object(map["id" := Text(id), "email" := Text(signUp.user.email)])]) &&
              (id in r.0.profiles <==> id in db.profiles || writes.profile) &&
              (id in r.0.wallets <==> id in db.wallets || writes.wallet) &&
              (id !in db.profiles && writes.profile ==> r.0.profiles[id] == NewProfile(req)) &&
              (id !in db.wallets && writes.wallet ==> r.0.wallets[id] == 0)
    ensures r.0.profiles.Keys <= db.profiles.Keys + (if signUp.SignedUp? then {signUp.user.id} else {})
    ensures r.0.wallets.Keys <= db.wallets.Keys + (if signUp.SignedUp? then {signUp.user.id} else {})
  {
    if !Given(req.email) || !Given(req.password) then (db, MissingCredentials)
    else
      match signUp
      case SignUpError(message) => (db, Response(400, Error(message)))
      case NoUser => (db, NoUserCreated)
      case SignedUp(user) =>
        var id := user.id;
        var profiles := if writes.profile && id !in db.profiles then db.profiles[id := NewProfile(req)] else db.profiles;
        var wallets := if writes.wallet && id !in db.wallets then db.wallets[id := 0] else db.wallets;
        (db.(profiles := profiles, wallets := wallets),
         Response(200, Json(map["message" := Text(Welcome),
                                "user" := Object(map["id" := Text(id), "email" := Text(user.email)])])))
  }

  /** Registering creates no money: a new wallet starts at zero. */
  lemma RegisterMoney(db: Db, req: Request, signUp: SignUp, writes: Writes)
    ensures Total(PostSpec(db, req, signUp, writes).0.wallets) == Total(db.wallets)
  {
    var r := PostSpec(db, req, signUp, writes);
    if r.0.wallets != db.wallets {
      TotalInsert(db.wallets, signUp.user.id, 0);
    }
  }

  /** Once registered, a user whose e-mail no other profile carries is the
      recipient a transfer to that e-mail finds. */
  lemma RegisteredUserIsFound(db: Db, req: Request, user: AuthUser)
    requires Given(req.email) && Given(req.password) && user.id !in db.profiles
    requires forall u :: u in db.profiles ==> db.profiles[u].email != req.email.value
    ensures ProfileByEmail(PostSpec(db, req, SignedUp(user), Writes(true, true)).0.profiles, req.email.value) == Some(user.id)
  {
    var profiles := PostSpec(db, req, SignedUp(user), Writes(true, true)).0.profiles;
    assert EmailOwners(profiles, req.email.value) == {user.id};
  }

  method Post(db: Store, req: Request, signUp: SignUp, writes: Writes) returns (resp: Response)
    requires db.Valid()
    modifies db
    ensures db.Valid()
    ensures (db.State(), resp) == PostSpec(old(db.State()), req, signUp, writes)
  {
    if !Given(req.email) || !Given(req.password) {
      return MissingCredentials;
    }
    match signUp
    case SignUpError(message) =>
      return Response(400, Error(message));
    case NoUser =>
      return NoUserCreated;
    case SignedUp(user) =>
      // the outcomes of both inserts are logged and otherwise ignored
      var _ := db.InsertProfile(user.id, NewProfile(req), writes.profile);
      var _ := db.InsertWallet(user.id, 0, writes.wallet);
      resp := Response(200, Json(map["message" := Text(Welcome),
                                     "user" := Object(map["id" := Text(user.id), "email" := Text(user.email)])]));
  }
}
