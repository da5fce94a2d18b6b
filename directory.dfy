/** Directory lookups: finding a trainer by id or a slot by label, and the
    two changes the bot makes to its user map (lazy creation on first
    contact, and the payment flag). */
module Directory {
  import opened Domain

  /** Position of the first trainer with id `id`, or -1 when there is none. */
  function TrainerIndex(ts: seq<Trainer>, id: int): (r: int)
    ensures -1 <= r < |ts|
    ensures r == -1 <==> forall j :: 0 <= j < |ts| ==> ts[j].id != id
    ensures 0 <= r ==> ts[r].id == id && forall j :: 0 <= j < r ==> ts[j].id != id
  {
    if |ts| == 0 then -1
    else if ts[0].id == id then 0
    else
      var k := TrainerIndex(ts[1..], id);
      if k == -1 then -1 else k + 1
  }

  /** Position of the first occurrence of `slot` in `slots`, or -1. */
  function SlotIndex(slots: seq<string>, slot: string): (r: int)
    ensures -1 <= r < |slots|
    ensures r == -1 <==> slot !in slots
    ensures 0 <= r ==> slots[r] == slot && slot !in slots[..r]
  {
    if |slots| == 0 then -1
    else if slots[0] == slot then 0
    else
      var k := SlotIndex(slots[1..], slot);
      assert k >= 0 ==> slots[..k + 1] == [slots[0]] + slots[1..][..k];
      if k == -1 then -1 else k + 1
  }

  /** Two catalogues with the same ids position by position resolve every id
      to the same position. */
  lemma TrainerIndexSameIds(ts: seq<Trainer>, us: seq<Trainer>, id: int)
    requires |ts| == |us|
    requires forall j :: 0 <= j < |ts| ==> ts[j].id == us[j].id
    ensures TrainerIndex(ts, id) == TrainerIndex(us, id)
  {
  }

  /** With unique ids, every trainer is found at its own position. */
  lemma TrainerIndexUnique(ts: seq<Trainer>, i: int)
    requires UniqueIds(ts) && 0 <= i < |ts|
    ensures TrainerIndex(ts, ts[i].id) == i
  {
  }

  /** The user map after a contact from `id`: an existing user is kept as it
      is; an unknown id gets a new unpaid user with the given name. */
  function WithUser(users: map<int, User>, id: int, name: string): (r: map<int, User>)
    ensures r.Keys == users.Keys + {id}
    ensures forall k :: k in users ==> r[k] == users[k]
    ensures id !in users ==> r[id] == User(id, name, false)
  {
    if id in users then users else users[id := User(id, name, false)]
  }

  /** A contact adds at most one user, and a repeated contact changes nothing,
      whatever name it carries. */
  lemma WithUserGrowsByAtMostOne(users: map<int, User>, id: int, name: string, name2: string)
    ensures |WithUser(users, id, name)| <= |users| + 1
    ensures id in users ==> WithUser(users, id, name) == users
    ensures WithUser(WithUser(users, id, name), id, name2) == WithUser(users, id, name)
  {
    var r := WithUser(users, id, name);
    if id !in users {
      assert r.Keys == users.Keys + {id};
      assert |r.Keys| == |users.Keys| + 1;
    } else {
      assert r.Keys == users.Keys;
    }
  }

  /** The user map after user `id` pays: that user's flag is set, nothing else
      changes. */
  function WithPaid(users: map<int, User>, id: int): (r: map<int, User>)
    requires id in users
    ensures r.Keys == users.Keys
    ensures r[id].hasPaid && r[id].id == users[id].id && r[id].name == users[id].name
    ensures forall k :: k in users && k != id ==> r[k] == users[k]
  {
    users[id := users[id].(hasPaid := true)]
  }

  /** Paying twice is the same as paying once, and a user who already paid is
      left as they were. */
  lemma WithPaidIdempotent(users: map<int, User>, id: int)
    requires id in users
    ensures WithPaid(WithPaid(users, id), id) == WithPaid(users, id)
    ensures users[id].hasPaid ==> WithPaid(users, id) == users
  {
  }
}
