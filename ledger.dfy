/** The booking transaction: the rules a booking request is checked against,
    the state change an accepted request makes, and the invariants of the
    ledger that the transaction keeps. */
module Ledger {
  import opened Domain
  import opened Directory

  /** The number of bookings in `bs` that user `userID` holds with trainer `trainerID`. */
  function CountWith(bs: seq<Booking>, userID: int, trainerID: int): (n: nat)
    ensures n <= |bs|
    decreases |bs|
  {
    if |bs| == 0 then 0
    else
      var last := bs[|bs| - 1];
      CountWith(bs[..|bs| - 1], userID, trainerID) + (if last.userID == userID && last.trainer == trainerID then 1 else 0)
  }

  /** The trainer user `userID` is committed to after the bookings `bs`, with 0
      standing for "none yet": the trainer of the user's first booking whose
      trainer id is not 0. A booking with trainer id 0 does not commit. */
  function Committed(bs: seq<Booking>, userID: int): int
    decreases |bs|
  {
    if |bs| == 0 then 0
    else
      var c := Committed(bs[..|bs| - 1], userID);
      var last := bs[|bs| - 1];
      if c == 0 && last.userID == userID then last.trainer else c
  }

  /** The committed trainer is 0 exactly when every booking of the user is
      with trainer 0; otherwise it is the trainer of the user's first booking
      with a non-zero trainer. */
  lemma {:induction false} CommittedIsFirstNonZero(bs: seq<Booking>, userID: int)
    ensures Committed(bs, userID) == 0 <==> forall k :: 0 <= k < |bs| && bs[k].userID == userID ==> bs[k].trainer == 0
    ensures Committed(bs, userID) != 0 ==>
              exists k :: 0 <= k < |bs| && bs[k].userID == userID && bs[k].trainer == Committed(bs, userID) &&
                          forall j :: 0 <= j < k && bs[j].userID == userID ==> bs[j].trainer == 0
    decreases |bs|
  {
    if |bs| > 0 {
      var pre := bs[..|bs| - 1];
      CommittedIsFirstNonZero(pre, userID);
      assert forall k :: 0 <= k < |pre| ==> pre[k] == bs[k];
      if Committed(pre, userID) != 0 {
        var k :| 0 <= k < |pre| && pre[k].userID == userID && pre[k].trainer == Committed(pre, userID) &&
                 forall j :: 0 <= j < k && pre[j].userID == userID ==> pre[j].trainer == 0;
        assert bs[k].trainer == Committed(bs, userID);
      }
    }
  }

  /** The refusal test made at booking `k` of the ledger scan: the booking is
      the user's, it is with another trainer than the one requested, and the
      requested trainer is not the one the user is committed to once booking
      `k` has been seen. */
  predicate ConflictAt(bs: seq<Booking>, userID: int, trainerID: int, k: int)
    requires 0 <= k < |bs|
  {
    bs[k].userID == userID && bs[k].trainer != trainerID && Committed(bs[..k + 1], userID) != trainerID
  }

  /** The scan of the ledger refuses the request at some booking. */
  predicate Conflict(bs: seq<Booking>, userID: int, trainerID: int)
  {
    exists k :: 0 <= k < |bs| && ConflictAt(bs, userID, trainerID, k)
  }

  /** The list without its element at position `p`, the others kept in order. */
  function RemoveAt(s: seq<string>, p: int): (r: seq<string>)
    requires 0 <= p < |s|
    ensures |r| == |s| - 1
    ensures forall j :: 0 <= j < p ==> r[j] == s[j]
    ensures forall j :: p <= j < |r| ==> r[j] == s[j + 1]
    ensures multiset(r) + multiset{s[p]} == multiset(s)
  {
    assert s == s[..p] + [s[p]] + s[p + 1..];
    s[..p] + s[p + 1..]
  }

  /** User `userID` asks for slot `slot` of trainer `trainerID` at time `now`.
      The request is refused, in this order, when the ledger scan finds a
      conflict with another trainer, when the user already holds three
      bookings with this trainer, when no trainer has this id, and when the
      slot is not free with that trainer. An accepted request takes the first
      occurrence of the slot out of the trainer's list and appends a booking. */
  function Book(s: AppState, userID: int, trainerID: int, slot: string, now: int): (r: Step<Outcome>)
    ensures r.result.Fail? ==> r.state == s
    ensures r.result.Pass? ==>
              r.state.users == s.users &&
              r.state.bookings == s.bookings + [Booking(userID, trainerID, slot, now)]
  {
    if Conflict(s.bookings, userID, trainerID) then Step(s, Fail(DifferentTrainer))
    else if CountWith(s.bookings, userID, trainerID) >= 3 then Step(s, Fail(LimitReached))
    else
      var i := TrainerIndex(s.trainers, trainerID);
      if i < 0 then Step(s, Fail(TrainerNotFound))
      else
        var t := s.trainers[i];
        var p := SlotIndex(t.slots, slot);
        if p < 0 then Step(s, Fail(SlotUnavailable))
        else
          Step(s.(trainers := s.trainers[i := t.(slots := RemoveAt(t.slots, p))],
                  bookings := s.bookings + [Booking(userID, trainerID, slot, now)]),
               Pass)
  }

  // ---------------------------------------------------------------------------
  // Facts about the ledger functions

  /** The refusals come in a fixed order: a conflict with another trainer
      first, then the limit of three bookings, then an unknown trainer id,
      then a slot that is not free with that trainer. Each is returned
      exactly when its own test fails and the earlier ones pass. */
  lemma BookRefusals(s: AppState, userID: int, trainerID: int, slot: string, now: int)
    ensures var r := Book(s, userID, trainerID, slot, now).result;
            && (r == Fail(DifferentTrainer) <==> Conflict(s.bookings, userID, trainerID))
            && (r == Fail(LimitReached) <==>
                  !Conflict(s.bookings, userID, trainerID) && CountWith(s.bookings, userID, trainerID) >= 3)
            && (r == Fail(TrainerNotFound) <==>
                  !Conflict(s.bookings, userID, trainerID) && CountWith(s.bookings, userID, trainerID) < 3 &&
                  forall j :: 0 <= j < |s.trainers| ==> s.trainers[j].id != trainerID)
            && (r == Fail(SlotUnavailable) <==>
                  !Conflict(s.bookings, userID, trainerID) && CountWith(s.bookings, userID, trainerID) < 3 &&
                  exists j :: 0 <= j < |s.trainers| && s.trainers[j].id == trainerID &&
                              slot !in s.trainers[TrainerIndex(s.trainers, trainerID)].slots)
  {
  }

  /** An accepted request was for an existing trainer and a free slot of it;
      it changes that trainer's free slots only, by taking out the first
      occurrence of the slot, and leaves every other trainer as it was. */
  lemma BookTakesSlot(s: AppState, userID: int, trainerID: int, slot: string, now: int)
    requires Book(s, userID, trainerID, slot, now).result.Pass?
    ensures var s' := Book(s, userID, trainerID, slot, now).state;
            var i := TrainerIndex(s.trainers, trainerID);
            0 <= i && slot in s.trainers[i].slots &&
            |s'.trainers| == |s.trainers| &&
            (forall j :: 0 <= j < |s.trainers| && j != i ==> s'.trainers[j] == s.trainers[j]) &&
            s'.trainers[i] == s.trainers[i].(slots := RemoveAt(s.trainers[i].slots, SlotIndex(s.trainers[i].slots, slot)))
  {
  }

  /** Appending a booking adds one to exactly the matching count. */
  lemma {:induction false} CountWithAppend(bs: seq<Booking>, b: Booking, userID: int, trainerID: int)
    ensures CountWith(bs + [b], userID, trainerID) ==
            CountWith(bs, userID, trainerID) + (if b.userID == userID && b.trainer == trainerID then 1 else 0)
  {
    assert (bs + [b])[..|bs|] == bs;
  }

  /** Appending a booking commits its user to its trainer if they were not yet committed. */
  lemma {:induction false} CommittedAppend(bs: seq<Booking>, b: Booking, userID: int)
    ensures Committed(bs + [b], userID) ==
            if Committed(bs, userID) == 0 && b.userID == userID then b.trainer else Committed(bs, userID)
  {
    assert (bs + [b])[..|bs|] == bs;
  }

  /** Taking a slot out keeps every other slot. */
  lemma RemoveAtKeepsOthers(s: seq<string>, p: int, x: string)
    requires 0 <= p < |s| && x in s && x != s[p]
    ensures x in RemoveAt(s, p)
  {
    var q :| 0 <= q < |s| && s[q] == x;
    if q < p { assert RemoveAt(s, p)[q] == x; } else { assert RemoveAt(s, p)[q - 1] == x; }
  }

  /** Removing one element keeps a duplicate-free list duplicate-free, and the
      removed element is no longer there. */
  lemma RemoveAtDistinct(s: seq<string>, p: int)
    requires 0 <= p < |s| && Distinct(s)
    ensures Distinct(RemoveAt(s, p))
    ensures s[p] !in RemoveAt(s, p)
  {
    var r := RemoveAt(s, p);
    forall i, j | 0 <= i < j < |r| ensures r[i] != r[j] {
      var i', j' := if i < p then i else i + 1, if j < p then j else j + 1;
      assert r[i] == s[i'] && r[j] == s[j'];
    }
    forall j | 0 <= j < |r| ensures r[j] != s[p] {
      if j < p { assert r[j] == s[j]; } else { assert r[j] == s[j + 1]; }
    }
  }

  /** A request never adds, removes, reorders or renames trainers. */
  lemma BookKeepsCatalogueIds(s: AppState, userID: int, trainerID: int, slot: string, now: int)
    ensures var s' := Book(s, userID, trainerID, slot, now).state;
            |s'.trainers| == |s.trainers| &&
            forall j :: 0 <= j < |s.trainers| ==> s'.trainers[j].id == s.trainers[j].id && s'.trainers[j].name == s.trainers[j].name
  {
  }

  // ---------------------------------------------------------------------------
  // The single-trainer rule

  /** All bookings of one user are with one trainer. */
  predicate SingleTrainer(bs: seq<Booking>)
  {
    forall i, j :: 0 <= i < |bs| && 0 <= j < |bs| && bs[i].userID == bs[j].userID ==> bs[i].trainer == bs[j].trainer
  }

  /** On a ledger that keeps the single-trainer rule, the scan refuses a
      request exactly when the user already holds a booking with another
      trainer; this holds for trainer id 0 as well. */
  lemma ConflictUnderSingleTrainer(bs: seq<Booking>, userID: int, trainerID: int)
    requires SingleTrainer(bs)
    ensures Conflict(bs, userID, trainerID) <==>
            exists k :: 0 <= k < |bs| && bs[k].userID == userID && bs[k].trainer != trainerID
  {
    if k :| 0 <= k < |bs| && bs[k].userID == userID && bs[k].trainer != trainerID {
      var pre := bs[..k + 1];
      var c := Committed(pre, userID);
      CommittedIsFirstNonZero(pre, userID);
      assert pre[k] == bs[k];
      if c != 0 {
        var k' :| 0 <= k' < |pre| && pre[k'].userID == userID && pre[k'].trainer == c;
        assert bs[k'].trainer == bs[k].trainer;
      }
      assert ConflictAt(bs, userID, trainerID, k);
    }
  }

  /** An accepted request is for the trainer the user already books with, if
      any, so the ledger still keeps the single-trainer rule. */
  lemma BookKeepsSingleTrainer(s: AppState, userID: int, trainerID: int, slot: string, now: int)
    requires SingleTrainer(s.bookings)
    ensures SingleTrainer(Book(s, userID, trainerID, slot, now).state.bookings)
  {
    var r := Book(s, userID, trainerID, slot, now);
    if r.result.Pass? {
      ConflictUnderSingleTrainer(s.bookings, userID, trainerID);
      var bs := r.state.bookings;
      assert forall k :: 0 <= k < |s.bookings| && s.bookings[k].userID == userID ==> s.bookings[k].trainer == trainerID;
      forall i, j | 0 <= i < |bs| && 0 <= j < |bs| && bs[i].userID == bs[j].userID
        ensures bs[i].trainer == bs[j].trainer
      {
        if i < |s.bookings| && j < |s.bookings| {
          assert bs[i] == s.bookings[i] && bs[j] == s.bookings[j];
        }
      }
    }
  }

  // ---------------------------------------------------------------------------
  // The per-trainer cap

  /** No user holds more than three bookings with one trainer. */
  ghost predicate WithinCap(bs: seq<Booking>)
  {
    forall userID, trainerID :: CountWith(bs, userID, trainerID) <= 3
  }

  /** A request changes the booking counts only by one more booking of the
      requesting user with the requested trainer, and only when accepted;
      it is accepted only while that count is below three. */
  lemma BookCounts(s: AppState, userID: int, trainerID: int, slot: string, now: int)
    ensures var r := Book(s, userID, trainerID, slot, now);
            forall u, t :: CountWith(r.state.bookings, u, t) ==
                           CountWith(s.bookings, u, t) + (if r.result.Pass? && u == userID && t == trainerID then 1 else 0)
    ensures Book(s, userID, trainerID, slot, now).result.Pass? ==> CountWith(s.bookings, userID, trainerID) < 3
  {
    var r := Book(s, userID, trainerID, slot, now);
    if r.result.Pass? {
      forall u, t ensures CountWith(r.state.bookings, u, t) ==
                          CountWith(s.bookings, u, t) + (if u == userID && t == trainerID then 1 else 0)
      {
        CountWithAppend(s.bookings, Booking(userID, trainerID, slot, now), u, t);
      }
    }
  }

  /** The cap of three bookings per user and trainer is kept. */
  lemma BookKeepsCap(s: AppState, userID: int, trainerID: int, slot: string, now: int)
    requires WithinCap(s.bookings)
    ensures WithinCap(Book(s, userID, trainerID, slot, now).state.bookings)
  {
    BookCounts(s, userID, trainerID, slot, now);
  }

  // ---------------------------------------------------------------------------
  // Slots

  /** A booked slot is no longer free with its trainer: after an accepted
      request on duplicate-free slot lists, the slot is gone from the
      trainer's list, the lists stay duplicate-free, and no later request for
      the same trainer and slot, by any user, is accepted. */
  lemma BookConsumesSlot(s: AppState, userID: int, trainerID: int, slot: string, now: int, userID2: int, now2: int)
    requires forall i :: 0 <= i < |s.trainers| ==> Distinct(s.trainers[i].slots)
    requires Book(s, userID, trainerID, slot, now).result.Pass?
    ensures var s' := Book(s, userID, trainerID, slot, now).state;
            slot !in s'.trainers[TrainerIndex(s.trainers, trainerID)].slots &&
            (forall i :: 0 <= i < |s'.trainers| ==> Distinct(s'.trainers[i].slots)) &&
            !Book(s', userID2, trainerID, slot, now2).result.Pass?
  {
    var s' := Book(s, userID, trainerID, slot, now).state;
    var i := TrainerIndex(s.trainers, trainerID);
    var p := SlotIndex(s.trainers[i].slots, slot);
    RemoveAtDistinct(s.trainers[i].slots, p);
    TrainerIndexSameIds(s.trainers, s'.trainers, trainerID);
  }

  // ---------------------------------------------------------------------------
  // The whole-state invariant

  /** Every booked slot is absent from the free list of each trainer with the
      booking's trainer id. */
  predicate BookedSlotsTaken(s: AppState)
  {
    forall k, i :: 0 <= k < |s.bookings| && 0 <= i < |s.trainers| && s.bookings[k].trainer == s.trainers[i].id ==>
      s.bookings[k].timeSlot !in s.trainers[i].slots
  }

  /** The invariant the bot's state keeps: unique trainer ids, duplicate-free
      slot lists, booked slots taken, one trainer per user, at most three
      bookings per user and trainer. */
  ghost predicate Consistent(s: AppState)
  {
    && UniqueIds(s.trainers)
    && (forall i :: 0 <= i < |s.trainers| ==> Distinct(s.trainers[i].slots))
    && BookedSlotsTaken(s)
    && SingleTrainer(s.bookings)
    && WithinCap(s.bookings)
  }

  /** Every request, accepted or refused, keeps the invariant. */
  lemma BookKeepsConsistent(s: AppState, userID: int, trainerID: int, slot: string, now: int)
    requires Consistent(s)
    ensures Consistent(Book(s, userID, trainerID, slot, now).state)
  {
    var r := Book(s, userID, trainerID, slot, now);
    BookKeepsSingleTrainer(s, userID, trainerID, slot, now);
    BookKeepsCap(s, userID, trainerID, slot, now);
    if r.result.Pass? {
      var s' := r.state;
      var i := TrainerIndex(s.trainers, trainerID);
      var old_ := s.trainers[i].slots;
      var p := SlotIndex(old_, slot);
      RemoveAtDistinct(old_, p);
      assert UniqueIds(s'.trainers) by {
        forall a, b | 0 <= a < b < |s'.trainers| ensures s'.trainers[a].id != s'.trainers[b].id {
          assert s'.trainers[a].id == s.trainers[a].id && s'.trainers[b].id == s.trainers[b].id;
        }
      }
      forall k, j | 0 <= k < |s'.bookings| && 0 <= j < |s'.trainers| && s'.bookings[k].trainer == s'.trainers[j].id
        ensures s'.bookings[k].timeSlot !in s'.trainers[j].slots
      {
        if j != i {
          assert s'.trainers[j] == s.trainers[j];
          if k < |s.bookings| {
            assert s'.bookings[k] == s.bookings[k];
          }
        } else if k < |s.bookings| {
          var x := s.bookings[k].timeSlot;
          assert s'.bookings[k] == s.bookings[k];
          assert x !in old_;
          assert multiset(RemoveAt(old_, p)) <= multiset(old_);
          assert multiset(old_)[x] == 0;
        }
      }
    }
  }

  /** On a state that keeps the invariant, a booked slot cannot be booked
      again: a request by any user for the trainer and slot of any booking
      in the ledger is refused. */
  lemma BookedSlotNotRebookable(s: AppState, k: int, userID: int, now: int)
    requires Consistent(s) && 0 <= k < |s.bookings|
    ensures Book(s, userID, s.bookings[k].trainer, s.bookings[k].timeSlot, now).result != Pass
  {
    if Book(s, userID, s.bookings[k].trainer, s.bookings[k].timeSlot, now).result == Pass {
      BookTakesSlot(s, userID, s.bookings[k].trainer, s.bookings[k].timeSlot, now);
    }
  }

  // ---------------------------------------------------------------------------
  // Where the zero sentinel for "not committed" shows

  /** When none of the user's bookings is with trainer id 0, the scan follows
      the user's first booking, on any ledger: it refuses exactly when the
      user holds a booking and the first of them is with another trainer. */
  lemma ConflictIsFirstBookingRule(bs: seq<Booking>, userID: int, trainerID: int)
    requires forall k :: 0 <= k < |bs| && bs[k].userID == userID ==> bs[k].trainer != 0
    ensures Conflict(bs, userID, trainerID) <==>
            exists k :: 0 <= k < |bs| && bs[k].userID == userID && bs[k].trainer != trainerID &&
                        forall j :: 0 <= j < k ==> bs[j].userID != userID
  {
    if Conflict(bs, userID, trainerID) {
      var k :| 0 <= k < |bs| && ConflictAt(bs, userID, trainerID, k);
      var pre := bs[..k + 1];
      CommittedIsFirstNonZero(pre, userID);
      assert pre[k] == bs[k];
      var f :| 0 <= f < |pre| && pre[f].userID == userID && pre[f].trainer == Committed(pre, userID) &&
               forall j :: 0 <= j < f && pre[j].userID == userID ==> pre[j].trainer == 0;
      assert forall j :: 0 <= j < f ==> pre[j] == bs[j];
      assert bs[f] == pre[f];
    }
    if f :| 0 <= f < |bs| && bs[f].userID == userID && bs[f].trainer != trainerID &&
            forall j :: 0 <= j < f ==> bs[j].userID != userID {
      var pre := bs[..f + 1];
      CommittedIsFirstNonZero(pre, userID);
      assert pre[f] == bs[f];
      assert forall j :: 0 <= j < f ==> pre[j] == bs[j];
      assert Committed(pre, userID) == bs[f].trainer;
      assert ConflictAt(bs, userID, trainerID, f);
    }
  }

  /** A booking with trainer id 0 does not commit its user. After bookings
      with trainers 0 and then 5 the user counts as committed to 5, yet a
      request for trainer 5 is refused, because the scan refuses at the
      trainer-0 booking. A request for trainer 0, the trainer of the user's
      first booking, is refused too, at the trainer-5 booking. */
  lemma ZeroTrainerDoesNotCommit(u: int)
    ensures var bs := [Booking(u, 0, "08:00", 0), Booking(u, 5, "09:00", 0)];
            Committed(bs, u) == 5 && Conflict(bs, u, 5) && Conflict(bs, u, 0)
  {
    var bs := [Booking(u, 0, "08:00", 0), Booking(u, 5, "09:00", 0)];
    assert bs[..1] == [bs[0]];
    assert bs[..2] == bs;
    assert Committed(bs[..1], u) == 0;
    assert ConflictAt(bs, u, 5, 0);
    assert ConflictAt(bs, u, 0, 1);
  }

  /** On a ledger that already mixes trainers, only the committed trainer is
      still accepted: after bookings with trainers 3 and then 5, a request for
      trainer 3 passes the scan and one for trainer 5 does not. */
  lemma MixedHistoryFavoursFirstTrainer(u: int)
    ensures var bs := [Booking(u, 3, "08:00", 0), Booking(u, 5, "09:00", 0)];
            !Conflict(bs, u, 3) && Conflict(bs, u, 5)
  {
    var bs := [Booking(u, 3, "08:00", 0), Booking(u, 5, "09:00", 0)];
    assert bs[..1] == [bs[0]];
    assert bs[..2] == bs;
    assert Committed(bs[..1], u) == 3;
    assert Committed(bs[..2], u) == 3;
    assert ConflictAt(bs, u, 5, 0);
  }
}
