/**
 * The document shapes of the two collections the handlers touch
 * (app/models/Workout.ts and app/models/User.ts), as plain values.
 *
 * Mongo ObjectIds are modelled as naturals; JavaScript numbers and dates
 * are modelled as integers (milliseconds for dates).
 */
module Models {

  datatype Option<+T> = None | Some(value: T) {
    function GetOr(default: T): T {
      match this
      case Some(v) => v
      case None => default
    }
  }

  /** A document identifier (a Mongo ObjectId). */
  type Id = nat

  /** A point in time, in milliseconds since the epoch. */
  type Time = int

  /** One warm-up stretch of a workout. */
  datatype DynamicStretch = DynamicStretch(order: int, name: string, completed: bool)

  /** One completed set of an exercise. */
  datatype WorkoutSet = WorkoutSet(reps: int, weight: int, completedAt: Time)

  /** Rest-timer configuration of an exercise entry. */
  datatype RestTimer = RestTimer(enabled: bool, duration: int)

  /** The rest timer an added exercise gets when the request carries none. */
  const DefaultRestTimer := RestTimer(true, 60)

  /** The resistance an exercise entry was started with. */
  datatype Resistance = Resistance(name: string, weight: int)

  /** One exercise entry nested in a workout. */
  datatype WorkoutExercise = WorkoutExercise(
    exerciseId: Id,
    sets: seq<WorkoutSet>,
    restTimer: RestTimer,
    initialResistance: Resistance,
    note: string)

  /**
   * A workout document. The schema has no `date` field, so a `date` sent
   * by a client is never stored.
   */
  datatype Workout = Workout(
    userId: Id,
    startTime: Option<Time>,
    endTime: Option<Time>,
    dynamicStretches: seq<DynamicStretch>,
    exercises: seq<WorkoutExercise>)

  /** A user document; `password` holds a bcrypt hash, `workouts` the owned workout ids in order. */
  datatype User = User(username: string, password: string, workouts: seq<Id>)
}
