/** A session from a first run, following the booking rules step by step. */
module Scenarios {
  import opened Domain
  import opened Catalogue
  import opened Directory
  import opened Ledger
  import opened Persistence

  /** On a ledger that keeps the single-trainer rule, a request is accepted
      exactly when every booking the user holds is with the requested
      trainer, they hold fewer than three, the trainer exists and the slot is
      free with it. */
  lemma AcceptedIff(s: AppState, userID: int, trainerID: int, slot: string, now: int)
    requires SingleTrainer(s.bookings)
    ensures Book(s, userID, trainerID, slot, now).result == Pass <==>
            (forall k :: 0 <= k < |s.bookings| && s.bookings[k].userID == userID ==> s.bookings[k].trainer == trainerID) &&
            CountWith(s.bookings, userID, trainerID) < 3 &&
            0 <= TrainerIndex(s.trainers, trainerID) &&
            slot in s.trainers[TrainerIndex(s.trainers, trainerID)].slots
  {
    ConflictUnderSingleTrainer(s.bookings, userID, trainerID);
  }

  /** The first hours of the default slot list. */
  lemma DefaultSlotsHead()
    ensures |DefaultSlots()| == 13
    ensures DefaultSlots()[0] == "08:00" && DefaultSlots()[1] == "09:00" && DefaultSlots()[2] == "10:00" && DefaultSlots()[3] == "11:00"
    ensures "08:00" !in DefaultSlots()[1..]
  {
    DefaultSlotsDistinct();
    var d := DefaultSlots();
    assert forall j :: 1 <= j < |d| ==> d[j] != d[0];
  }

  /** The first booking of user `u`: trainer 1 at the first free slot, on a
      state with an empty ledger. */
  lemma FirstBooking(s: AppState, u: int, now: int)
    requires s.bookings == []
    requires TrainerIndex(s.trainers, 1) == 0 && TrainerIndex(s.trainers, 2) == 1
    requires |s.trainers[0].slots| > 0 && s.trainers[0].slots[0] == "08:00"
    ensures var r := Book(s, u, 1, "08:00", now);
            r.result == Pass && r.state.bookings == [Booking(u, 1, "08:00", now)] &&
            TrainerIndex(r.state.trainers, 1) == 0 && TrainerIndex(r.state.trainers, 2) == 1 &&
            r.state.trainers[0].slots == s.trainers[0].slots[1..]
  {
    assert !Conflict(s.bookings, u, 1);
    assert CountWith(s.bookings, u, 1) == 0;
    var r := Book(s, u, 1, "08:00", now);
    TrainerIndexSameIds(s.trainers, r.state.trainers, 1);
    TrainerIndexSameIds(s.trainers, r.state.trainers, 2);
  }

  /** After that booking, trainer 2 is refused as a different trainer and
      08:00 with trainer 1 as unavailable. */
  lemma AfterFirstBooking(s: AppState, u: int, t1: int, t2: int, t3: int)
    requires s.bookings == [Booking(u, 1, "08:00", t1)]
    requires TrainerIndex(s.trainers, 1) == 0 && TrainerIndex(s.trainers, 2) == 1
    requires "08:00" !in s.trainers[0].slots
    ensures Book(s, u, 2, "08:00", t2).result == Fail(DifferentTrainer)
    ensures Book(s, u, 1, "08:00", t3).result == Fail(SlotUnavailable)
  {
    assert s.bookings[..1] == s.bookings;
    assert ConflictAt(s.bookings, u, 2, 0);
    ConflictUnderSingleTrainer(s.bookings, u, 1);
    assert s.bookings[..0] == [];
    assert CountWith(s.bookings, u, 1) == 1;
  }

  /** A user who books only with trainer `t`, holding fewer than three
      bookings with it, gets a free slot `a` of it; the user still books only
      with `t`, holds one more booking, and every other free slot of `t` is
      still free. */
  lemma NextBooking(s: AppState, u: int, t: int, a: string, b: string, now: int)
    requires SingleTrainer(s.bookings)
    requires forall k :: 0 <= k < |s.bookings| && s.bookings[k].userID == u ==> s.bookings[k].trainer == t
    requires CountWith(s.bookings, u, t) < 3
    requires var i := TrainerIndex(s.trainers, t); 0 <= i && a in s.trainers[i].slots && b in s.trainers[i].slots
    requires a != b
    ensures var r := Book(s, u, t, a, now);
            r.result == Pass &&
            SingleTrainer(r.state.bookings) &&
            (forall k :: 0 <= k < |r.state.bookings| && r.state.bookings[k].userID == u ==> r.state.bookings[k].trainer == t) &&
            CountWith(r.state.bookings, u, t) == CountWith(s.bookings, u, t) + 1 &&
            0 <= TrainerIndex(r.state.trainers, t) && b in r.state.trainers[TrainerIndex(r.state.trainers, t)].slots
  {
    AcceptedIff(s, u, t, a, now);
    var r := Book(s, u, t, a, now);
    BookTakesSlot(s, u, t, a, now);
    BookKeepsSingleTrainer(s, u, t, a, now);
    BookCounts(s, u, t, a, now);
    var i := TrainerIndex(s.trainers, t);
    var old_ := s.trainers[i].slots;
    TrainerIndexSameIds(s.trainers, r.state.trainers, t);
    RemoveAtKeepsOthers(old_, SlotIndex(old_, a), b);
  }

  /** A user who books only with trainer `t` and holds three bookings with it
      is refused by the limit. */
  lemma AtTheLimit(s: AppState, u: int, t: int, c: string, now: int)
    requires SingleTrainer(s.bookings)
    requires forall k :: 0 <= k < |s.bookings| && s.bookings[k].userID == u ==> s.bookings[k].trainer == t
    requires CountWith(s.bookings, u, t) == 3
    ensures Book(s, u, t, c, now).result == Fail(LimitReached)
  {
    ConflictUnderSingleTrainer(s.bookings, u, t);
  }

  /** After a first booking with trainer 1, whose free slots now start with
      09:00, 10:00 and 11:00, two more bookings are accepted and the next one
      is refused by the limit. */
  lemma SecondAndThirdBooking(s1: AppState, u: int, t1: int, t4: int, t5: int, t6: int)
    requires s1.bookings == [Booking(u, 1, "08:00", t1)]
    requires TrainerIndex(s1.trainers, 1) == 0
    requires var d := s1.trainers[0].slots;
             |d| >= 3 && d[0] == "09:00" && d[1] == "10:00" && d[2] == "11:00"
    ensures var r4 := Book(s1, u, 1, "09:00", t4);
            var r5 := Book(r4.state, u, 1, "10:00", t5);
            r4.result == Pass && r5.result == Pass &&
            Book(r5.state, u, 1, "11:00", t6).result == Fail(LimitReached)
  {
    var d1 := s1.trainers[0].slots;
    assert s1.bookings[..0] == [];
    assert CountWith(s1.bookings, u, 1) == 1;
    assert "10:00" in d1 && "09:00" in d1;
    NextBooking(s1, u, 1, "09:00", "10:00", t4);
    var s4 := Book(s1, u, 1, "09:00", t4).state;
    assert "11:00" in s4.trainers[TrainerIndex(s4.trainers, 1)].slots by {
      TrainerIndexSameIds(s1.trainers, s4.trainers, 1);
      assert SlotIndex(d1, "09:00") == 0;
      assert RemoveAt(d1, 0)[1] == "11:00";
    }
    NextBooking(s4, u, 1, "10:00", "11:00", t5);
    var s5 := Book(s4, u, 1, "10:00", t5).state;
    AtTheLimit(s5, u, 1, "11:00", t6);
  }

  /** The session on any state with an empty ledger whose trainer 1 comes
      first, trainer 2 second, and whose trainer 1 starts with the free slots
      08:00, 09:00, 10:00, 11:00 and has 08:00 only once. */
  lemma Session(s0: AppState, u: int, t1: int, t2: int, t3: int, t4: int, t5: int, t6: int)
    requires s0.bookings == []
    requires TrainerIndex(s0.trainers, 1) == 0 && TrainerIndex(s0.trainers, 2) == 1
    requires var d := s0.trainers[0].slots;
             |d| >= 4 && d[0] == "08:00" && d[1] == "09:00" && d[2] == "10:00" && d[3] == "11:00" &&
             "08:00" !in d[1..]
    ensures var r1 := Book(s0, u, 1, "08:00", t1);
            r1.result == Pass && r1.state.bookings == [Booking(u, 1, "08:00", t1)] &&
            "08:00" !in r1.state.trainers[0].slots &&
            Book(r1.state, u, 2, "08:00", t2).result == Fail(DifferentTrainer) &&
            Book(r1.state, u, 1, "08:00", t3).result == Fail(SlotUnavailable) &&
            var r4 := Book(r1.state, u, 1, "09:00", t4);
            var r5 := Book(r4.state, u, 1, "10:00", t5);
            r4.result == Pass && r5.result == Pass &&
            Book(r5.state, u, 1, "11:00", t6).result == Fail(LimitReached)
  {
    FirstBooking(s0, u, t1);
    var s1 := Book(s0, u, 1, "08:00", t1).state;
    AfterFirstBooking(s1, u, t1, t2, t3);
    SecondAndThirdBooking(s1, u, t1, t4, t5, t6);
  }

  /** The session from a first run: user `u` books trainer 1 at 08:00 and is
      accepted; trainer 2 is then refused as a different trainer, 08:00 with
      trainer 1 as unavailable; 09:00 and 10:00 are accepted; a fourth
      booking with trainer 1, at 11:00, is refused by the limit. */
  lemma FirstRunSession(u: int, t1: int, t2: int, t3: int, t4: int, t5: int, t6: int)
    ensures var r1 := Book(FreshState(), u, 1, "08:00", t1);
            r1.result == Pass && r1.state.bookings == [Booking(u, 1, "08:00", t1)] &&
            "08:00" !in r1.state.trainers[0].slots &&
            Book(r1.state, u, 2, "08:00", t2).result == Fail(DifferentTrainer) &&
            Book(r1.state, u, 1, "08:00", t3).result == Fail(SlotUnavailable) &&
            var r4 := Book(r1.state, u, 1, "09:00", t4);
            var r5 := Book(r4.state, u, 1, "10:00", t5);
            r4.result == Pass && r5.result == Pass &&
            Book(r5.state, u, 1, "11:00", t6).result == Fail(LimitReached)
  {
    DefaultTrainersShape();
    DefaultSlotsHead();
    TrainerIndexUnique(FreshState().trainers, 0);
    TrainerIndexUnique(FreshState().trainers, 1);
    Session(FreshState(), u, t1, t2, t3, t4, t5, t6);
  }
}
