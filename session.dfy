/**
 * Properties that span several handlers or both components: a user who
 * registers can log in, the token they get passes the bearer gate, and a
 * workout created without an id cannot be found afterwards.
 */
module Session {
  import opened Models
  import opened VerifyToken
  import opened Handlers

  /**
   * A token the JWT check decodes to `id`, sent as `Bearer <token>`, lets
   * the request through with exactly that user id. JWTs are non-empty and
   * hold no spaces.
   */
  lemma DecodableTokenAccepted(token: string, id: Id, verify: string -> Option<Id>)
    requires token != "" && ' ' !in token
    requires verify(token) == Some(id)
    ensures Gate(Some("Bearer " + token), verify) == Proceed(id)
    ensures Middleware(Request(Some("Bearer " + token), None), verify) ==
      Outcome(Request(Some("Bearer " + token), Some(id)), None, 1)
  {
    assert "Bearer " + token + "" == "Bearer " + token;
    GateBearerToken("Bearer " + token, token, "", verify);
  }

  /**
   * Registering a new username and then logging in with the same password
   * gives 201 and then a token issued for the new user's id, provided bcrypt
   * accepts the password against its own hash.
   */
  method RegisterThenAuthenticate(store: Store, username: string, password: string, salt: string)
    returns (registered: Response, authenticated: Response)
    requires store.Valid()
    requires !HasUsername(store.users, username)
    requires store.compare(password, store.hash(password, salt))
    modifies store
    ensures store.Valid()
    ensures registered == Response(201, UserDoc(old(store.nextId), User(username, store.hash(password, salt), [])))
    ensures authenticated == Response(200, Token(store.issue(registered.body.id)))
  {
    registered := store.Register(username, password, salt);
    authenticated := store.Authenticate(username, password);
  }

  /**
   * A workout created by `POST /workouts` without an id is never saved: its
   * id lands in the owner's list, but adding an exercise to it gets 404.
   */
  method CreatedWorkoutIsNotStored(store: Store, userId: Id, date: string, exercises: seq<WorkoutExercise>,
                                   entry: WorkoutExercise)
    returns (created: Response, added: Response)
    requires store.Valid()
    modifies store
    ensures store.Valid()
    ensures created.status == 201 && created.body.WorkoutDoc?
    ensures userId in old(store.users) ==>
      userId in store.users && store.users[userId].workouts == old(store.users)[userId].workouts + [created.body.id]
    ensures added == Response(404, Message(WorkoutNotFound))
  {
    created := store.SaveWorkout(None, userId, date, exercises);
    added := store.AddExercise(created.body.id, entry.exerciseId, entry.sets, entry.initialResistance,
                               entry.note, Some(entry.restTimer));
  }

  /**
   * Register, log in, and present the token: when the JWT check decodes the
   * token issued for the new user back to that user's id, the bearer gate
   * lets the request through with exactly that id and calls `next` once.
   */
  method RegisterLoginThenAccess(store: Store, username: string, password: string, salt: string,
                                 verify: string -> Option<Id>)
    returns (registered: Response, authenticated: Response, access: Outcome)
    requires store.Valid()
    requires !HasUsername(store.users, username)
    requires store.compare(password, store.hash(password, salt))
    requires verify(store.issue(store.nextId)) == Some(store.nextId)
    requires store.issue(store.nextId) != "" && ' ' !in store.issue(store.nextId)
    modifies store
    ensures store.Valid()
    ensures registered.status == 201 && registered.body.UserDoc?
    ensures authenticated == Response(200, Token(store.issue(registered.body.id)))
    ensures access == Outcome(Request(Some("Bearer " + authenticated.body.token), Some(registered.body.id)), None, 1)
  {
    ghost var id := store.nextId;
    registered, authenticated := RegisterThenAuthenticate(store, username, password, salt);
    assert registered.body.id == id;
    DecodableTokenAccepted(authenticated.body.token, id, verify);
    access := Middleware(Request(Some("Bearer " + authenticated.body.token), None), verify);
  }
}
