/** The bot's one shared state object and the operations that read and update
    it in place. Every method is one atomic step: the lookups, the user
    creation, the booking transaction and the flag write each run under one
    lock, and the two callbacks, which take the lock twice, are atomic because
    updates are handled one at a time. Each method is proved against the pure
    definition of what it does in Directory, Ledger, Persistence and Handlers. */
module Store {
  import opened Domain
  import opened Catalogue
  import opened Directory
  import opened Ledger
  import opened Persistence
  import opened Handlers

  class AppStore {
    var users: map<int, User>
    var trainers: seq<Trainer>
    var bookings: seq<Booking>

    /** The state as a value. */
    function Snapshot(): AppState
      reads this
    {
      AppState(users, trainers, bookings)
    }

    /** The zero state before anything is loaded. */
    constructor ()
      ensures Snapshot() == AppState(map[], [], [])
    {
      users, trainers, bookings := map[], [], [];
    }

    /** Replaces the state by the one loaded from `rec`; on a failure the
        state is left as it was and `ok` is false. */
    method Load(rec: StoredRecord) returns (ok: bool)
      modifies this
      ensures ok <==> Loaded(rec).Some?
      ensures Snapshot() == if ok then Loaded(rec).value else old(Snapshot())
    {
      match rec {
        case Missing =>
          var tmp := AppState(map[], DefaultTrainers(), []);
          users, trainers, bookings := tmp.users, tmp.trainers, tmp.bookings;
          ok := true;
        case Unreadable =>
          ok := false;
        case Malformed =>
          ok := false;
        case Decoded(decodedUsers, decodedTrainers, decodedBookings) =>
          var tmpUsers, tmpTrainers := decodedUsers, decodedTrainers;
          if |tmpTrainers| == 0 {
            tmpTrainers := DefaultTrainers();
          }
          if tmpUsers.None? {
            tmpUsers := Some(map[]);
          }
          users, trainers, bookings := tmpUsers.value, tmpTrainers, decodedBookings;
          ok := true;
      }
    }

    /** The user with id `id`, created unpaid with name `name` on first contact. */
    method GetOrCreateUser(id: int, name: string) returns (u: User)
      modifies this
      ensures users == WithUser(old(users), id, name)
      ensures trainers == old(trainers) && bookings == old(bookings)
      ensures id in old(users) ==> u == old(users)[id]
      ensures id !in old(users) ==> u == User(id, name, false)
    {
      if id in users {
        u := users[id];
      } else {
        u := User(id, name, false);
        users := users[id := u];
      }
    }

    /** The first trainer with id `id` and its position, or `None` and -1. */
    method TrainerByID(id: int) returns (t: Option<Trainer>, i: int)
      ensures -1 <= i < |trainers|
      ensures i == -1 <==> forall j :: 0 <= j < |trainers| ==> trainers[j].id != id
      ensures i == -1 ==> t == None
      ensures 0 <= i ==> t == Some(trainers[i]) && trainers[i].id == id &&
                         forall j :: 0 <= j < i ==> trainers[j].id != id
    {
      var k := 0;
      while k < |trainers|
        invariant 0 <= k <= |trainers|
        invariant forall j :: 0 <= j < k ==> trainers[j].id != id
      {
        if trainers[k].id == id {
          return Some(trainers[k]), k;
        }
        k := k + 1;
      }
      return None, -1;
    }

    /** The booking transaction: scans the ledger for the user's committed
        trainer and their count with the requested one, looks the trainer and
        the slot up, then takes the slot and appends the booking. */
    method Book(userID: int, trainerID: int, slot: string, now: int) returns (r: Outcome)
      modifies this
      ensures Step(Snapshot(), r) == Ledger.Book(old(Snapshot()), userID, trainerID, slot, now)
    {
      var bs := bookings;
      var existingTrainer := 0;
      var userCount := 0;
      var k := 0;
      while k < |bs|
        invariant 0 <= k <= |bs|
        invariant Snapshot() == old(Snapshot())
        invariant existingTrainer == Committed(bs[..k], userID)
        invariant userCount == CountWith(bs[..k], userID, trainerID)
        invariant forall j :: 0 <= j < k ==> !ConflictAt(bs, userID, trainerID, j)
      {
        var b := bs[k];
        assert bs[..k + 1] == bs[..k] + [b];
        CommittedAppend(bs[..k], b, userID);
        CountWithAppend(bs[..k], b, userID, trainerID);
        if b.userID == userID {
          if existingTrainer == 0 {
            existingTrainer := b.trainer;
          }
          if b.trainer == trainerID {
            userCount := userCount + 1;
          } else if trainerID != existingTrainer {
            assert ConflictAt(bs, userID, trainerID, k);
            assert Conflict(old(bookings), userID, trainerID);
            return Fail(DifferentTrainer);
          }
        }
        k := k + 1;
      }
      assert bs[..k] == bs;
      assert !Conflict(old(bookings), userID, trainerID);
      if userCount >= 3 {
        return Fail(LimitReached);
      }

      var ts := trainers;
      var idx := -1;
      var i := 0;
      while i < |ts|
        invariant 0 <= i <= |ts|
        invariant idx == -1
        invariant forall j :: 0 <= j < i ==> ts[j].id != trainerID
      {
        if ts[i].id == trainerID {
          idx := i;
          break;
        }
        i := i + 1;
      }
      if idx == -1 {
        assert TrainerIndex(ts, trainerID) == -1;
        return Fail(TrainerNotFound);
      }
      assert TrainerIndex(ts, trainerID) == idx;

      var slots := ts[idx].slots;
      var pos := -1;
      var p := 0;
      while p < |slots|
        invariant 0 <= p <= |slots|
        invariant pos == -1
        invariant slot !in slots[..p]
      {
        if slots[p] == slot {
          pos := p;
          break;
        }
        assert slots[..p + 1] == slots[..p] + [slots[p]];
        p := p + 1;
      }
      if pos == -1 {
        assert slots[..p] == slots;
        return Fail(SlotUnavailable);
      }
      assert SlotIndex(slots, slot) == pos;

      trainers := ts[idx := ts[idx].(slots := slots[..pos] + slots[pos + 1..])];
      bookings := bs + [Booking(userID, trainerID, slot, now)];
      r := Pass;
    }

    /** Records that user `id` has paid. The user must exist: the caller has
        always just created or found them. */
    method GrantPaid(id: int)
      requires id in users
      modifies this
      ensures users == WithPaid(old(users), id)
      ensures trainers == old(trainers) && bookings == old(bookings)
    {
      var u := users[id];
      users := users[id := u.(hasPaid := true)];
    }

    /** Handles a slot choice: finds or creates the user, turns away an
        unpaid user, otherwise runs the booking transaction. */
    method SlotCallback(userID: int, name: string, trainerID: int, slot: string, now: int) returns (reply: SlotReply)
      modifies this
      ensures Step(Snapshot(), reply) == SlotRequest(old(Snapshot()), userID, name, trainerID, slot, now)
    {
      var user := GetOrCreateUser(userID, name);
      if !user.hasPaid {
        return PaymentRequired;
      }
      var outcome := Book(userID, trainerID, slot, now);
      reply := if outcome.Pass? then Confirmed else Refused(outcome.error);
    }

    /** Handles a payment: finds or creates the user and sets their flag. */
    method PayCallback(userID: int, name: string)
      modifies this
      ensures Snapshot() == PayRequest(old(Snapshot()), userID, name)
    {
      var _ := GetOrCreateUser(userID, name);
      GrantPaid(userID);
    }
  }
}
