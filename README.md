# Gym booking bot: the booking core in Dafny

The bot holds one shared state. It has three parts:
- a map of users, each with a paid flag;
- an ordered catalogue of trainers, each with an ordered list of free hourly slots;
- an append-only ledger of bookings.

A paid user picks a trainer and a slot. The booking transaction either refuses the request with one of four reasons or accepts it. An accepted request takes the slot out of the trainer's free list and appends a booking. Rules:
- a user books with one trainer only;
- a user holds at most three bookings with that trainer;
- the trainer must exist;
- the slot must still be free.

When the bot starts it loads the state from a file. A missing file gives a fresh state with the seed catalogue. A decoded state has an empty catalogue replaced by the seed and a missing user map replaced by an empty one.

Modules:
- `Domain`: the entities as datatypes.
- `Catalogue`: the seed trainers and slots.
- `Directory`: trainer and slot lookups, and the two changes to the user map.
- `Ledger`: the booking transaction as a function, with its rules and the invariants it keeps.
- `Persistence`: load normalisation and the save/load round trip.
- `Handlers`: the slot-choice and payment callbacks.
- `Store`: the class `AppStore`. Its fields are updated in place by methods that mirror the Go loops. Each method is proved equal to the pure definition in the modules above.
- `Scenarios`: a first-run session, step by step.

The booking timestamp (`time.Now().Unix()` in the source) is the parameter `now`.

The user's "committed trainer" is tracked as in the source, with 0 meaning "none yet". `Ledger.Committed` is the trainer of the user's first booking whose trainer id is not 0. The scan refuses a request at the first booking of the user that is with another trainer, provided the requested trainer is not the committed one at that point (`Ledger.ConflictAt`).

Three lemmas relate the scan to simpler rules:
- `Ledger.ConflictUnderSingleTrainer`: on a ledger that keeps one trainer per user, the scan refuses exactly when the user holds a booking with another trainer.
- `Ledger.ConflictIsFirstBookingRule`: on any ledger where none of the user's bookings is with trainer 0, the scan refuses exactly when the user's first booking is with another trainer.
- `Ledger.BookKeepsSingleTrainer`: the transaction itself never mixes trainers for a user.

Two lemmas show where the scan departs from those rules:
- `Ledger.MixedHistoryFavoursFirstTrainer`: the user's bookings are with trainers 3 and then 5. A request for trainer 3 passes the scan, although the user holds a booking with another trainer. Such a ledger can only come from an edited state file.
- `Ledger.ZeroTrainerDoesNotCommit`: the user's bookings are with trainers 0 and then 5. Two requests are refused:
  - a request for trainer 5, although 5 is the committed trainer;
  - a request for trainer 0, although 0 is the trainer of the user's first booking.

The model follows the code in both places.

## Model

| member | source | states |
|---|---|---|
| Catalogue.DefaultSlotsAreHours | Main.go:57-59 | The default slot list has 13 entries, and entry k is the label of hour 8+k ("08:00" through "20:00", in order). |
| Catalogue.DefaultSlotsDistinct | Main.go:57-59 | No default slot label occurs twice. |
| Catalogue.HourLabelInjective | Main.go:57-59 | Different hours of the day get different "HH:00" labels. |
| Catalogue.DefaultTrainersShape | Main.go:61-69 | The seed catalogue has 5 trainers with ids 1..5 in order. Each has all default slots, ids are unique, and each slot list is duplicate-free. |
| Catalogue.DefaultSlots | Main.go:57-59 | The thirteen default slot labels. Their content is stated by `Catalogue.DefaultSlotsAreHours` and `Catalogue.DefaultSlotsDistinct`. |
| Catalogue.DefaultTrainers | Main.go:61-69 | The five seed trainers, with names, bios and achievements as in the source. Their shape is stated by `Catalogue.DefaultTrainersShape`. |
| Directory.TrainerIndex | Main.go:130-139 | Returns -1 exactly when no trainer has the id. Otherwise it returns the first position whose trainer has the id. |
| Directory.TrainerIndexSameIds | Main.go:130-139 | Two catalogues with the same ids at every position resolve every id to the same position. |
| Directory.TrainerIndexUnique | Main.go:130-139 | With unique ids, each trainer is found at its own position. |
| Store.AppStore.TrainerByID | Main.go:130-139 | Returns the first trainer with the id and its index, or None and -1 exactly when there is none. The state is not changed. |
| Directory.SlotIndex | Main.go:175-181 | Returns -1 exactly when the slot is not in the list. Otherwise it returns the position of its first occurrence. |
| Directory.WithUser | Main.go:119-128 | The keys become the old keys plus the caller's id. Existing users are kept as they are. A new id gets an unpaid user with the given name. |
| Directory.WithUserGrowsByAtMostOne | Main.go:119-128 | The user map grows by at most one entry. A known id leaves it unchanged, and a repeated contact is idempotent whatever name it carries. |
| Store.AppStore.GetOrCreateUser | Main.go:119-128 | The returned user is the existing one or a new unpaid one. The user map becomes `WithUser` of the old map, and trainers and bookings are unchanged. |
| Directory.WithPaid | Main.go:423-426 | The paying user's flag is set and their id and name are kept. No key is added or removed, and every other user is unchanged. |
| Directory.WithPaidIdempotent | Main.go:423-426 | Paying twice is the same as paying once. A user who has already paid is left unchanged. |
| Store.AppStore.GrantPaid | Main.go:423-426 | The user map becomes `WithPaid` of the old map, and trainers and bookings are unchanged. |
| Ledger.CountWith | Main.go:146-155 | The number of the user's bookings with the trainer never exceeds the ledger length. |
| Ledger.CountWithAppend | Main.go:154-155 | Appending a booking raises exactly the matching user-and-trainer count, by one. |
| Ledger.Committed | Main.go:145-153 | The scan's `existingTrainer` after a prefix of the ledger: it is set from the first booking of the user while it is still 0. Its meaning is stated by `Ledger.CommittedIsFirstNonZero` and its step by `Ledger.CommittedAppend`. |
| Ledger.ConflictAt | Main.go:154-158 | The refusal test at one booking of the scan: the booking is the user's, it is with another trainer, and the requested trainer is not the committed one once that booking is seen. |
| Ledger.Conflict | Main.go:147-159 | The scan refuses at some booking. Its relation to simpler rules is stated by `Ledger.ConflictUnderSingleTrainer` and `Ledger.ConflictIsFirstBookingRule`. |
| Ledger.CommittedIsFirstNonZero | Main.go:145-153 | The committed trainer is 0 exactly when all of the user's bookings are with trainer 0. Otherwise it is the trainer of the user's first booking with a non-zero trainer. |
| Ledger.CommittedAppend | Main.go:151-153 | Appending a booking commits its user to its trainer only if the user was not yet committed. |
| Ledger.RemoveAt | Main.go:186-187 | Splicing out position p keeps the elements before p and shifts the ones after p down by one. The length drops by one, and the multiset loses exactly the removed slot. |
| Ledger.RemoveAtKeepsOthers | Main.go:186-187 | Splicing out one slot keeps every other slot. |
| Ledger.RemoveAtDistinct | Main.go:186-187 | Splicing a slot out of a duplicate-free list gives a duplicate-free list without that slot. |
| Ledger.Book | Main.go:141-197 | A refused request leaves the whole state unchanged. An accepted one keeps the users and appends exactly one booking with the given user, trainer, slot and time after the unchanged earlier bookings. |
| Ledger.BookRefusals | Main.go:147-184 | Refusals have a fixed precedence: different trainer, then the limit, then an unknown trainer, then an unavailable slot. Each one is returned exactly when its test fails and the earlier tests pass. Unknown trainer means no trainer has the id. Unavailable slot means the slot is not in the found trainer's list. |
| Ledger.BookTakesSlot | Main.go:164-187 | An accepted request was for an existing trainer and a slot in its list. Only that trainer changes, and only its slots: they become the old list with the first occurrence of the slot spliced out. The catalogue length is kept. |
| Ledger.BookKeepsCatalogueIds | Main.go:141-197 | No request adds, removes, reorders or renames trainers. |
| Ledger.ConflictUnderSingleTrainer | Main.go:145-159 | On a ledger with one trainer per user, the scan refuses exactly when the user holds a booking with another trainer. |
| Ledger.BookKeepsSingleTrainer | Main.go:145-159 | If every user's bookings share one trainer before a request, they still do afterwards. |
| Ledger.BookCounts | Main.go:146-161 | A request changes booking counts only by +1 for the requesting user and the requested trainer, and only when accepted. Acceptance requires that count to be below 3. |
| Ledger.BookKeepsCap | Main.go:160-161 | If no user holds more than 3 bookings with any trainer before a request, none does afterwards. |
| Ledger.BookConsumesSlot | Main.go:175-187 | On duplicate-free slot lists, a booked slot is gone from its trainer's list and the lists stay duplicate-free. The next request by any user for the same trainer and slot is not accepted. |
| Ledger.BookedSlotNotRebookable | Main.go:175-184 | On a state that keeps the invariant, a request by any user for the trainer and slot of any booking in the ledger is refused. This holds at every later state the transactions reach. |
| Ledger.ConflictIsFirstBookingRule | Main.go:145-158 | If none of the user's bookings is with trainer 0, the scan refuses exactly when the user holds a booking and the first of them is with another trainer. This holds on any ledger, including ones that mix trainers. |
| Ledger.BookKeepsConsistent | Main.go:141-197 | Every request, accepted or refused, keeps the state invariant. The invariant has five parts: unique trainer ids, duplicate-free slot lists, booked slots absent from their trainer's list, one trainer per user, and at most 3 bookings per user and trainer. |
| Ledger.ZeroTrainerDoesNotCommit | Main.go:145-156 | Take bookings with trainers 0 and then 5. The user counts as committed to 5, yet a request for trainer 5 is refused. |
| Ledger.MixedHistoryFavoursFirstTrainer | Main.go:145-159 | Take bookings with trainers 3 and then 5. A request for trainer 3 passes the scan, although the user holds a booking with another trainer. A request for trainer 5 does not pass. |
| Store.AppStore.Book | Main.go:141-197 | The in-place transaction loops over the ledger, the catalogue and the slot list. Its outcome and new state equal `Ledger.Book` of the old state. |
| Persistence.Loaded | Main.go:71-105 | Loading fails exactly for an unreadable or malformed file (the failure of the first-run save is left out). A missing file gives empty users, empty bookings and the seed catalogue. A decoded record keeps its bookings, replaces a missing user map by an empty one and an empty catalogue by the seed. A loaded catalogue is never empty. |
| Store.AppStore.Load | Main.go:71-105 | Succeeds exactly when `Persistence.Loaded` does. The state becomes that loaded state on success and is unchanged on failure. |
| Persistence.FreshState | Main.go:75-79 | The first-run state: no users, no bookings, the seed catalogue. `Persistence.FreshStateConsistent` states that it meets the invariant. |
| Persistence.Saved | Main.go:107-117 | The record the whole state is written as, users, trainers and bookings, without change. `Persistence.SaveLoadRoundTrip` states that loading it gives the state back. |
| Persistence.SaveLoadRoundTrip | Main.go:94-117 | Saving then loading returns any state with a non-empty catalogue unchanged. A state with an empty catalogue comes back reseeded. |
| Persistence.ReloadIsStable | Main.go:94-99 | Saving a loaded state and loading it again gives the same state, so reseeding happens at most once. |
| Persistence.FreshStateConsistent | Main.go:74-79 | A first run starts from a state that meets the invariant, with five trainers. |
| Persistence.ReseedConsistent | Main.go:94-99 | Reseeding an empty catalogue keeps the invariant when the stored ledger books none of the seed trainers' ids. |
| Persistence.ReseedFreesBookedSlots | Main.go:94-99 | Reseeding does not look at the ledger: a stored booking of trainer 1 at 08:00 no longer holds its slot. Another user's request for it is then accepted. |
| Handlers.SlotRequest | Main.go:393-410 | A slot choice first makes the caller a known user, as the handler does at Main.go:340 for every callback. It refuses with "payment required" exactly when that user has not paid, changing nothing else. Otherwise the state and the reply are the booking transaction's. |
| Handlers.UnpaidCannotBook | Main.go:402-405 | A user who has not paid gets "payment required", and the catalogue and the ledger stay as they were. |
| Handlers.PaidUserReachesBooking | Main.go:402-426 | After a payment, the user's slot choice gets exactly the booking transaction's verdict and new state. |
| Handlers.SlotRequestKeepsConsistent | Main.go:402-410 | Slot choices keep the state invariant. |
| Handlers.PayRequest | Main.go:423-426 | A payment keeps the catalogue and the ledger. The payer's record is the one found or created at Main.go:340, with only the paid flag set. No key other than the payer's is added, and every other user is unchanged. |
| Store.AppStore.SlotCallback | Main.go:393-410 | Its reply and new state equal `Handlers.SlotRequest` of the old state. |
| Store.AppStore.PayCallback | Main.go:423-426 | Its new state equals `Handlers.PayRequest` of the old state. |
| Scenarios.AcceptedIff | Main.go:141-197 | On a ledger with one trainer per user, a request is accepted exactly when four conditions hold: all the user's bookings are with the requested trainer, the user holds fewer than 3 of them, the trainer exists, and the slot is in its list. |
| Scenarios.FirstBooking | Main.go:141-197 | On an empty ledger, booking trainer 1 at its first free slot "08:00" is accepted and the ledger holds exactly that booking. |
| Scenarios.AfterFirstBooking | Main.go:156-183 | After that booking, trainer 2 is refused as a different trainer and 08:00 with trainer 1 as unavailable. |
| Scenarios.NextBooking | Main.go:141-197 | A user who books only with one trainer and holds fewer than 3 bookings with it gets any free slot of it. The user's bookings are still all with that trainer, the count goes up by one, and every other free slot stays free. |
| Scenarios.AtTheLimit | Main.go:160-161 | A user who books only with one trainer and holds 3 bookings with it is refused by the limit. |
| Scenarios.SecondAndThirdBooking | Main.go:141-197 | After the first booking, 09:00 and 10:00 with trainer 1 are accepted and 11:00 is refused by the limit. |
| Scenarios.Session | Main.go:141-197 | The whole session on any state with an empty ledger whose trainer 1 comes first with free slots starting 08:00, 09:00, 10:00, 11:00. |
| Scenarios.FirstRunSession | Main.go:141-197 | The same session from a first run's fresh state. |

## Left out

- Telegram transport is not modelled: the update loop, message sending, callback answers and all keyboard builders. These are user interface on a foreign library.
- Callback-data parsing with `fmt.Sscanf` and `strings.SplitN` (Main.go:358-400) is not modelled. The handlers take the parsed trainer id and slot label as parameters.
- JSON encoding and file I/O in `loadState` and `saveState` are not modelled. A stored record is the logical value it decodes to: missing, unreadable, malformed, or decoded, with a missing user map as `None`.
- The save after a missing file (Main.go:83), and saves after a booking or payment, are not modelled. Their write errors are ignored or end the process, so they do not affect the state.
- The mutex is not modelled. Every operation is one atomic step. The lookups, user creation, the booking transaction and the flag write each run under one lock. The two callbacks take the lock twice: Main.go:340 then 407, and 340 then 424. They are still atomic because the update loop at Main.go:299 handles one update at a time.
- `time.Now()` is the parameter `now`.
- Go slice aliasing is not modelled. The in-place `append` at Main.go:187 can share a backing array with copies of the slot list. The model treats slot lists as values.
- The `*User` pointers in the user map are users as values. This makes the model's user map a map of values.
- Store.AppStore.GrantPaid: requires the user to exist; the source would dereference a nil pointer otherwise. Its only caller has just created or found the user at Main.go:340.
- Error message texts, the gym name and the price text are replaced by the enumeration `BookError` and the reply datatype `SlotReply`.
- The trainer-detail and booking-menu callbacks (Main.go:358-391) only render text and keyboards from state. They change nothing and are not modelled.
- Integer widths are not modelled. User ids and timestamps are `int64` and trainer ids `int` in the source. The model uses unbounded integers because the code does no arithmetic on them. The only arithmetic is a booking count bounded by the ledger length.
