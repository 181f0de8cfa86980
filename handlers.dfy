/**
 * The route handlers of app/index.ts over an in-memory document store.
 *
 * The two Mongo collections are the maps `users` and `workouts`; each
 * handler runs as one atomic step, updates the maps and returns the
 * response it sends. bcrypt and JWT signing are foreign code and are given
 * to the store when it is built: `hash(plain, salt)`, `compare(plain,
 * hashed)` and `issue(userId)`. The salt bcrypt would draw at random is a
 * parameter of the handlers that hash. ObjectId generation is modelled by
 * the counter `nextId`: every id the store hands out is above all ids in use.
 */
module Handlers {
  import opened Models

  const AuthFailed := "Authentication failed"
  const UsernameTaken := "Username already exists"
  const UserNotFound := "User not found"
  const PasswordUpdated := "Password updated"
  const WorkoutNotFound := "Workout not found"

  /** The JSON body of a response. */
  datatype Body =
    | Message(text: string)
    | Token(token: string)
    | UserDoc(id: Id, user: User)
    | WorkoutDoc(id: Id, workout: Workout)
    | NoContent

  datatype Response = Response(status: int, body: Body)

  /** Whether some stored user has this username (what `findOne({ username })` looks for). */
  predicate HasUsername(users: map<Id, User>, username: string) {
    exists id :: id in users && users[id].username == username
  }

  /** No two stored users share a username. */
  ghost predicate UniqueUsernames(users: map<Id, User>) {
    forall a, b :: a in users && b in users && users[a].username == users[b].username ==> a == b
  }

  class Store {
    var users: map<Id, User>
    var workouts: map<Id, Workout>
    var nextId: Id
    const hash: (string, string) -> string
    const compare: (string, string) -> bool
    const issue: Id -> string

    /**
     * The store invariant: every stored id and every workout reference is
     * below `nextId`, and usernames are unique.
     */
    ghost predicate Valid()
      reads this
    {
      && (forall id :: id in users ==> id < nextId)
      && (forall id :: id in workouts ==> id < nextId)
      && (forall id, i :: id in users && 0 <= i < |users[id].workouts| ==> users[id].workouts[i] < nextId)
      && UniqueUsernames(users)
    }

    constructor (hash: (string, string) -> string, compare: (string, string) -> bool, issue: Id -> string)
      ensures Valid()
      ensures users == map[] && workouts == map[]
      ensures this.hash == hash && this.compare == compare && this.issue == issue
    {
      users := map[];
      workouts := map[];
      nextId := 0;
      this.hash := hash;
      this.compare := compare;
      this.issue := issue;
    }

    /**
     * `POST /auth`: an unknown username and a wrong password get the same
     * 401 "Authentication failed"; a matching password gets a token issued
     * for that user's id. Nothing in the store changes.
     */
    method Authenticate(username: string, password: string) returns (resp: Response)
      requires Valid()
      ensures !HasUsername(users, username) ==> resp == Response(401, Message(AuthFailed))
      ensures forall id :: id in users && users[id].username == username ==>
        resp == if compare(password, users[id].password) then Response(200, Token(issue(id)))
                else Response(401, Message(AuthFailed))
      ensures resp.status != 200 ==> resp == Response(401, Message(AuthFailed))
    {
      if id :| id in users && users[id].username == username {
        if compare(password, users[id].password) {
          resp := Response(200, Token(issue(id)));
        } else {
          resp := Response(401, Message(AuthFailed));
        }
      } else {
        resp := Response(401, Message(AuthFailed));
      }
    }

    /**
     * `POST /users`: a taken username gets 400 "Username already exists"
     * and no change; otherwise one user is added under a fresh id, holding
     * the hash of the password (never the password itself) and no workouts.
     */
    method Register(username: string, password: string, salt: string) returns (resp: Response)
      requires Valid()
      modifies this
      ensures Valid()
      ensures old(HasUsername(users, username)) ==>
        resp == Response(400, Message(UsernameTaken)) &&
        users == old(users) && workouts == old(workouts) && nextId == old(nextId)
      ensures !old(HasUsername(users, username)) ==>
        var id := old(nextId);
        && id !in old(users) && id !in old(workouts)
        && nextId == id + 1
        && users == old(users)[id := User(username, hash(password, salt), [])]
        && workouts == old(workouts)
        && resp == Response(201, UserDoc(id, users[id]))
    {
      if HasUsername(users, username) {
        resp := Response(400, Message(UsernameTaken));
      } else {
        var id := nextId;
        var user := User(username, hash(password, salt), []);
        users := users[id := user];
        nextId := nextId + 1;
        resp := Response(201, UserDoc(id, user));
      }
    }

    /**
     * `PUT /users/:id`: a missing id gets 404 and no change; otherwise only
     * that user's password is replaced by the hash of the new one.
     */
    method UpdatePassword(id: Id, password: string, salt: string) returns (resp: Response)
      requires Valid()
      modifies this
      ensures Valid() && nextId == old(nextId) && workouts == old(workouts)
      ensures id !in old(users) ==> resp == Response(404, Message(UserNotFound)) && users == old(users)
      ensures id in old(users) ==>
        && users == old(users)[id := old(users)[id].(password := hash(password, salt))]
        && resp == Response(200, Message(PasswordUpdated))
    {
      var hashed := hash(password, salt);
      if id !in users {
        resp := Response(404, Message(UserNotFound));
      } else {
        users := users[id := users[id].(password := hashed)];
        resp := Response(200, Message(PasswordUpdated));
      }
    }

    /**
     * `DELETE /users/:id`: a missing id gets 404; otherwise only that key is
     * removed. The user's workouts stay (no cascade).
     */
    method DeleteUser(id: Id) returns (resp: Response)
      requires Valid()
      modifies this
      ensures Valid() && nextId == old(nextId) && workouts == old(workouts)
      ensures id !in old(users) ==> resp == Response(404, Message(UserNotFound)) && users == old(users)
      ensures id in old(users) ==> resp == Response(204, NoContent) && users == old(users) - {id}
    {
      if id !in users {
        resp := Response(404, Message(UserNotFound));
      } else {
        users := users - {id};
        resp := Response(204, NoContent);
      }
    }

    /**
     * `POST /workouts`. With an id: a missing workout gets 404 and no
     * change; otherwise `userId` and the whole `exercises` list are
     * overwritten and the rest of the document kept. Without an id: a new
     * workout document is built under a fresh id but never saved, its id is
     * appended to the owner's `workouts` list when the owner exists, and the
     * answer is 201 either way. `date` is not a schema field and is dropped.
     */
    method SaveWorkout(id: Option<Id>, userId: Id, date: string, exercises: seq<WorkoutExercise>)
      returns (resp: Response)
      requires Valid()
      modifies this
      ensures Valid()
      ensures id.Some? && id.value !in old(workouts) ==>
        resp == Response(404, Message(WorkoutNotFound)) &&
        users == old(users) && workouts == old(workouts) && nextId == old(nextId)
      ensures id.Some? && id.value in old(workouts) ==>
        && workouts == old(workouts)[id.value := old(workouts)[id.value].(userId := userId, exercises := exercises)]
        && users == old(users) && nextId == old(nextId)
        && resp == Response(201, WorkoutDoc(id.value, workouts[id.value]))
      ensures id.None? ==>
        var newId := old(nextId);
        && newId !in old(workouts) && nextId == newId + 1
        && (forall u :: u in old(users) ==> newId !in old(users)[u].workouts)
        && workouts == old(workouts)
        && users == (if userId in old(users)
                     then old(users)[userId := old(users)[userId].(workouts := old(users)[userId].workouts + [newId])]
                     else old(users))
        && resp == Response(201, WorkoutDoc(newId, Workout(userId, None, None, [], exercises)))
    {
      if id.Some? {
        if id.value !in workouts {
          resp := Response(404, Message(WorkoutNotFound));
        } else {
          var updated := workouts[id.value].(userId := userId, exercises := exercises);
          workouts := workouts[id.value := updated];
          resp := Response(201, WorkoutDoc(id.value, updated));
        }
      } else {
        var newId := nextId;
        nextId := nextId + 1;
        var workout := Workout(userId, None, None, [], exercises);
        if userId in users {
          var owner := users[userId];
          users := users[userId := owner.(workouts := owner.workouts + [newId])];
        }
        resp := Response(201, WorkoutDoc(newId, workout));
      }
    }

    /**
     * `POST /workouts/:id/exercises`: a missing workout gets 404 and no
     * change; otherwise exactly one entry is appended to its `exercises`,
     * with the rest timer defaulting to enabled, 60 seconds.
     */
    method AddExercise(id: Id, exerciseId: Id, sets: seq<WorkoutSet>, initialResistance: Resistance,
                       note: string, restTimer: Option<RestTimer>) returns (resp: Response)
      requires Valid()
      modifies this
      ensures Valid() && nextId == old(nextId) && users == old(users)
      ensures id !in old(workouts) ==> resp == Response(404, Message(WorkoutNotFound)) && workouts == old(workouts)
      ensures id in old(workouts) ==>
        && workouts.Keys == old(workouts).Keys
        && (forall w :: w in workouts && w != id ==> workouts[w] == old(workouts)[w])
      ensures id in old(workouts) ==>
        var before, after := old(workouts)[id].exercises, workouts[id].exercises;
        && workouts[id] == old(workouts)[id].(exercises := after)
        && |after| == |before| + 1 && after[..|before|] == before
        && after[|before|] == WorkoutExercise(exerciseId, sets,
                                              if restTimer.Some? then restTimer.value else DefaultRestTimer,
                                              initialResistance, note)
        && resp == Response(200, WorkoutDoc(id, workouts[id]))
    {
      if id !in workouts {
        resp := Response(404, Message(WorkoutNotFound));
      } else {
        var workout := workouts[id];
        var entry := WorkoutExercise(exerciseId, sets, restTimer.GetOr(DefaultRestTimer), initialResistance, note);
        workout := workout.(exercises := workout.exercises + [entry]);
        workouts := workouts[id := workout];
        resp := Response(200, WorkoutDoc(id, workout));
      }
    }

    /**
     * `DELETE /workouts/:id`: a missing id gets 404; otherwise only that key
     * is removed. No user's `workouts` list changes (no cascade).
     */
    method DeleteWorkout(id: Id) returns (resp: Response)
      requires Valid()
      modifies this
      ensures Valid() && nextId == old(nextId) && users == old(users)
      ensures id !in old(workouts) ==> resp == Response(404, Message(WorkoutNotFound)) && workouts == old(workouts)
      ensures id in old(workouts) ==> resp == Response(204, NoContent) && workouts == old(workouts) - {id}
    {
      if id !in workouts {
        resp := Response(404, Message(WorkoutNotFound));
      } else {
        workouts := workouts - {id};
        resp := Response(204, NoContent);
      }
    }
  }
}
