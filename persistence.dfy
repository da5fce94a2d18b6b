/** What the bot does with its state file at start-up: a missing file gives a
    fresh state, an unreadable or malformed one is an error, and a decoded
    one is normalised (an empty catalogue is reseeded, a missing user map
    becomes empty). The JSON text itself is not modelled: a stored record is
    the logical value it decodes to. */
module Persistence {
  import opened Domain
  import opened Catalogue
  import opened Ledger

  /** The result of opening and decoding the state file. A decoded record's
      user map is `None` when the file holds no user map (a nil map in Go). */
  datatype StoredRecord =
    | Missing
    | Unreadable
    | Malformed
    | Decoded(users: Option<map<int, User>>, trainers: seq<Trainer>, bookings: seq<Booking>)

  /** The state of a first run: no users, no bookings, the seed catalogue. */
  function FreshState(): AppState
  {
    AppState(map[], DefaultTrainers(), [])
  }

  /** The state loaded from a record, or `None` when loading fails. */
  function Loaded(rec: StoredRecord): (r: Option<AppState>)
    ensures r.None? <==> rec.Unreadable? || rec.Malformed?
    ensures rec.Missing? ==> r == Some(AppState(map[], DefaultTrainers(), []))
    ensures rec.Decoded? ==>
              r.Some? &&
              r.value.bookings == rec.bookings &&
              r.value.users == (if rec.users.Some? then rec.users.value else map[]) &&
              r.value.trainers == (if |rec.trainers| == 0 then DefaultTrainers() else rec.trainers)
    ensures r.Some? ==> |r.value.trainers| > 0
  {
    match rec
    case Missing => Some(FreshState())
    case Unreadable => None
    case Malformed => None
    case Decoded(users, trainers, bookings) =>
      Some(AppState(if users.Some? then users.value else map[],
                    if |trainers| == 0 then DefaultTrainers() else trainers,
                    bookings))
  }

  /** The record a state is written as. */
  function Saved(s: AppState): StoredRecord
  {
    Decoded(Some(s.users), s.trainers, s.bookings)
  }

  /** Saving and loading gives back any state with a non-empty catalogue, and
      a state with an empty catalogue comes back reseeded. */
  lemma SaveLoadRoundTrip(s: AppState)
    ensures |s.trainers| > 0 ==> Loaded(Saved(s)) == Some(s)
    ensures |s.trainers| == 0 ==> Loaded(Saved(s)) == Some(s.(trainers := DefaultTrainers()))
  {
  }

  /** Loading is stable: saving a loaded state and loading it again gives the
      same state, so reseeding happens at most once. */
  lemma ReloadIsStable(rec: StoredRecord)
    requires Loaded(rec).Some?
    ensures Loaded(Saved(Loaded(rec).value)) == Loaded(rec)
  {
  }

  /** A first run starts from a consistent state with the five seed trainers. */
  lemma FreshStateConsistent()
    ensures Consistent(FreshState())
    ensures |FreshState().trainers| == 5
  {
    DefaultTrainersShape();
  }

  /** Reseeding keeps the invariant when the stored ledger books nothing with
      the seed catalogue's trainers and keeps the per-user rules. */
  lemma ReseedConsistent(users: Option<map<int, User>>, bookings: seq<Booking>)
    requires SingleTrainer(bookings) && WithinCap(bookings)
    requires forall k :: 0 <= k < |bookings| ==> !(1 <= bookings[k].trainer <= 5)
    ensures Consistent(Loaded(Decoded(users, [], bookings)).value)
  {
    DefaultTrainersShape();
  }

  /** Reseeding does not look at the ledger: when a decoded record has an
      empty catalogue but keeps user `u`'s booking of trainer 1 at 08:00, that
      slot is free again after loading, and another user's request for it is
      accepted, so the slot ends up booked twice. */
  lemma ReseedFreesBookedSlots(u: int, u2: int, now: int, now2: int)
    requires u2 != u
    ensures var s := Loaded(Decoded(None, [], [Booking(u, 1, "08:00", now)])).value;
            !BookedSlotsTaken(s) && Book(s, u2, 1, "08:00", now2).result == Pass
  {
    var s := Loaded(Decoded(None, [], [Booking(u, 1, "08:00", now)])).value;
    DefaultTrainersShape();
    assert s.trainers[0].slots[0] == "08:00";
    assert s.bookings[0].trainer == s.trainers[0].id;
    assert s.bookings[0].timeSlot in s.trainers[0].slots;
    assert s.bookings[..0] == [];
    assert CountWith(s.bookings, u2, 1) == 0;
  }
}
