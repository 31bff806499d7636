/** User registration (controllers/UsersController.js): required fields checked
    in a fixed order, one account per email, and the password kept only as its
    digest. */
module Users {
  import opened Values
  import opened Db
  import opened Http

  /** Why a registration is refused, if it is: a falsy email first, then a falsy
      password, then an email some user already has. */
  function Rejection(email: Json, password: Json, users: seq<UserDoc>): (r: Option<Response>)
    ensures !Truthy(email) <==> r == Some(BadRequest("Missing email"))
    ensures Truthy(email) && !Truthy(password) <==> r == Some(BadRequest("Missing password"))
    ensures Truthy(email) && Truthy(password) && (exists i :: 0 <= i < |users| && users[i].email == email)
            <==> r == Some(BadRequest("Already exists"))
    ensures r.None? <==>
      Truthy(email) && Truthy(password) && forall i :: 0 <= i < |users| ==> users[i].email != email
  {
    if !Truthy(email) then Some(BadRequest("Missing email"))
    else if !Truthy(password) then Some(BadRequest("Missing password"))
    else
      var matches := WithEmail(email);
      match Find(users, matches)
      case Some(i) => assert matches(users[i]); Some(BadRequest("Already exists"))
      case None => None
  }

  /** The result of a registration: the response and the user collection after. */
  datatype Registration = Registration(response: Response, users: seq<UserDoc>)

  /** `postNew`: an accepted registration appends one user with the drawn id,
      the email as supplied and the digest of the password, and answers 201. */
  function Register(email: Json, password: Json, users: seq<UserDoc>,
                    hash: Json -> Digest, id: string): (r: Registration)
    ensures r.response.status == 201 || r.response.status == 400
    ensures r.response.status == 400 ==> r.users == users
    ensures r.response.status == 201 ==> r.users == users + [UserDoc(id, email, hash(password))]
  {
    match Rejection(email, password, users)
    case Some(response) => Registration(response, users)
    case None => Registration(Response(201, NewUser(email, id)), users + [UserDoc(id, email, hash(password))])
  }

  /** No two users share an email. */
  ghost predicate UniqueEmails(users: seq<UserDoc>)
  {
    forall i, j :: 0 <= i < |users| && 0 <= j < |users| && users[i].email == users[j].email ==> i == j
  }

  /** A refused registration changes nothing; an accepted one adds exactly one
      user, whose stored password is the digest and not what was supplied, and
      echoes its email and id. */
  lemma RegisterOutcomes(email: Json, password: Json, users: seq<UserDoc>,
                         hash: Json -> Digest, id: string)
    ensures var out := Register(email, password, users, hash, id);
      && (out.response.status == 201 <==>
            Truthy(email) && Truthy(password) && forall i :: 0 <= i < |users| ==> users[i].email != email)
      && (out.response.status != 201 ==> out.response.status == 400 && out.users == users)
      && (out.response.status == 201 ==>
            && |out.users| == |users| + 1
            && out.users[..|users|] == users
            && out.users[|users|] == UserDoc(id, email, hash(password))
            && out.response.body == NewUser(email, id))
  {
  }

  /** Registration keeps emails unique. */
  lemma RegisterKeepsEmailsUnique(email: Json, password: Json, users: seq<UserDoc>,
                                  hash: Json -> Digest, id: string)
    requires UniqueEmails(users)
    ensures UniqueEmails(Register(email, password, users, hash, id).users)
  {
  }

  /** No two users share an id. */
  ghost predicate UniqueUserIds(users: seq<UserDoc>)
  {
    forall i, j :: 0 <= i < |users| && 0 <= j < |users| && users[i].id == users[j].id ==> i == j
  }

  /** With a drawn id no user has yet, registration keeps ids unique. */
  lemma RegisterKeepsIdsUnique(email: Json, password: Json, users: seq<UserDoc>,
                               hash: Json -> Digest, id: string)
    requires UniqueUserIds(users)
    requires forall i :: 0 <= i < |users| ==> users[i].id != id
    ensures UniqueUserIds(Register(email, password, users, hash, id).users)
  {
  }

  /** Registering the same email twice succeeds once, then reports `Already exists`. */
  lemma RegisterTwice(email: Json, password: Json, password2: Json, users: seq<UserDoc>,
                      hash: Json -> Digest, id: string, id2: string)
    requires Truthy(email) && Truthy(password) && Truthy(password2)
    requires forall i :: 0 <= i < |users| ==> users[i].email != email
    ensures var first := Register(email, password, users, hash, id);
      && first.response == Response(201, NewUser(email, id))
      && Register(email, password2, first.users, hash, id2) == Registration(BadRequest("Already exists"), first.users)
  {
    var first := Register(email, password, users, hash, id);
    assert first.users[|users|].email == email;
  }

  /** The registration handler, step by step against the user collection. */
  method PostNew(email: Json, password: Json, users: Collection<UserDoc>,
                 hash: Json -> Digest, id: string) returns (res: Response)
    modifies users
    ensures var out := Register(email, password, old(users.docs), hash, id);
      res == out.response && users.docs == out.users
  {
    if !Truthy(email) {
      return BadRequest("Missing email");
    }
    if !Truthy(password) {
      return BadRequest("Missing password");
    }
    var existing := users.FindOne(WithEmail(email));
    if existing.Some? {
      return BadRequest("Already exists");
    }
    var newUser := UserDoc(id, email, hash(password));
    users.InsertOne(newUser);
    return Response(201, NewUser(newUser.email, newUser.id));
  }
}
