/** The entities of the gym booking bot's persistent state: users, trainers and
    the booking ledger, as the bot keeps them in memory and in its state file. */
module Domain {

  datatype Option<+T> = None | Some(value: T)

  /** A bot user: the Telegram user id, a display name, and whether a
      subscription has been paid (only paid users may book). */
  datatype User = User(id: int, name: string, hasPaid: bool)

  /** A trainer of the catalogue. `slots` are the labels of the time slots
      still free; booking a slot takes it out of this list. */
  datatype Trainer = Trainer(id: int, name: string, bio: string, achievements: seq<string>, slots: seq<string>)

  /** One entry of the append-only booking ledger; `bookedAt` is a Unix time. */
  datatype Booking = Booking(userID: int, trainer: int, timeSlot: string, bookedAt: int)

  /** The whole state: users by id, the ordered trainer catalogue, the ledger. */
  datatype AppState = AppState(users: map<int, User>, trainers: seq<Trainer>, bookings: seq<Booking>)

  /** The four ways a booking request is refused, in the order they are checked. */
  datatype BookError = DifferentTrainer | LimitReached | TrainerNotFound | SlotUnavailable

  /** The result of a booking request: accepted, or refused for a reason. */
  datatype Outcome = Pass | Fail(error: BookError)

  /** A state together with the result of the operation that produced it. */
  datatype Step<+R> = Step(state: AppState, result: R)

  /** No element occurs twice. */
  predicate Distinct<T(==)>(s: seq<T>)
  {
    forall i, j :: 0 <= i < j < |s| ==> s[i] != s[j]
  }

  /** No two trainers share an id. */
  predicate UniqueIds(ts: seq<Trainer>)
  {
    forall i, j :: 0 <= i < j < |ts| ==> ts[i].id != ts[j].id
  }
}
