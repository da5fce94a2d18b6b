/** The two callback handlers that reach the booking core: choosing a slot
    ("slot_" callbacks) and paying ("pay_" callbacks). Both first make sure
    the caller is a known user; a slot choice by an unpaid user is turned
    away before the booking transaction runs. */
module Handlers {
  import opened Domain
  import opened Directory
  import opened Ledger

  /** What the bot answers to a slot choice. */
  datatype SlotReply = PaymentRequired | Refused(error: BookError) | Confirmed

  /** A slot choice by user `userID` (display name `name`). */
  function SlotRequest(s: AppState, userID: int, name: string, trainerID: int, slot: string, now: int): (r: Step<SlotReply>)
    ensures r.state.users == WithUser(s.users, userID, name)
    ensures r.result == PaymentRequired <==> !WithUser(s.users, userID, name)[userID].hasPaid
    ensures r.result == PaymentRequired ==> r.state.trainers == s.trainers && r.state.bookings == s.bookings
    ensures r.result != PaymentRequired ==>
              var b := Book(s.(users := WithUser(s.users, userID, name)), userID, trainerID, slot, now);
              r.state == b.state && r.result == (if b.result.Pass? then Confirmed else Refused(b.result.error))
  {
    var s1 := s.(users := WithUser(s.users, userID, name));
    if !s1.users[userID].hasPaid then Step(s1, PaymentRequired)
    else
      var b := Book(s1, userID, trainerID, slot, now);
      Step(b.state, if b.result.Pass? then Confirmed else Refused(b.result.error))
  }

  /** A payment by user `userID` (display name `name`). */
  function PayRequest(s: AppState, userID: int, name: string): (r: AppState)
    ensures r.trainers == s.trainers && r.bookings == s.bookings
    ensures r.users.Keys == s.users.Keys + {userID}
    ensures r.users[userID] == WithUser(s.users, userID, name)[userID].(hasPaid := true)
    ensures forall k :: k in s.users && k != userID ==> r.users[k] == s.users[k]
  {
    s.(users := WithPaid(WithUser(s.users, userID, name), userID))
  }

  /** A user who has not paid cannot book: their slot choice leaves the
      catalogue and the ledger as they were, whatever they ask for. */
  lemma UnpaidCannotBook(s: AppState, userID: int, name: string, trainerID: int, slot: string, now: int)
    requires userID in s.users ==> !s.users[userID].hasPaid
    ensures var r := SlotRequest(s, userID, name, trainerID, slot, now);
            r.result == PaymentRequired && r.state.trainers == s.trainers && r.state.bookings == s.bookings
  {
  }

  /** After paying, a user's slot choices reach the booking transaction: the
      reply is the transaction's own verdict. */
  lemma PaidUserReachesBooking(s: AppState, userID: int, name: string, name2: string, trainerID: int, slot: string, now: int)
    ensures var p := PayRequest(s, userID, name);
            var r := SlotRequest(p, userID, name2, trainerID, slot, now);
            var b := Book(p, userID, trainerID, slot, now);
            r.state == b.state && r.result == (if b.result.Pass? then Confirmed else Refused(b.result.error))
  {
    var p := PayRequest(s, userID, name);
    assert WithUser(p.users, userID, name2) == p.users;
    assert p.(users := p.users) == p;
  }

  /** Slot choices keep the state invariant. */
  lemma SlotRequestKeepsConsistent(s: AppState, userID: int, name: string, trainerID: int, slot: string, now: int)
    requires Consistent(s)
    ensures Consistent(SlotRequest(s, userID, name, trainerID, slot, now).state)
  {
    var s1 := s.(users := WithUser(s.users, userID, name));
    assert Consistent(s1);
    BookKeepsConsistent(s1, userID, trainerID, slot, now);
  }
}
