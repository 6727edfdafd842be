/** The `/api/contacts` handlers: POST adds a contact unless the wallet already
    has one for that address, GET lists a wallet's contacts most recently used
    first, PUT applies a `$set` to one contact, DELETE removes one. */
module ContactsRoute {
  import opened Wrappers
  import opened Records
  import opened Text
  import opened Seqs
  import opened Sorting
  import opened Store

  // ---------------------------------------------------------------- POST

  function AddressIs(address: string): Contact -> bool {
    (c: Contact) => c.address == address
  }

  /** `findOne({ walletAddress, address })`: exact, case-sensitive. */
  function Existing(m: map<string, seq<Contact>>, w: string, address: string): Option<nat> {
    FirstMatch(Rows(m, w), AddressIs(address))
  }

  /** No wallet holds two contacts with the same address. */
  predicate UniqueAddresses(m: map<string, seq<Contact>>) {
    forall w :: w in m ==> DistinctBy(m[w], ContactAddress)
  }

  /** POST: refused with 400 "Contact already exists", leaving the store as it
      was, when the body's wallet already has a contact with exactly that
      address; otherwise stored last in the wallet's partition under a fresh key. */
  method Post(db: Db, body: Contact) returns (r: Reply<Contact>)
    requires db.Valid()
    modifies db
    ensures db.Valid()
    ensures Existing(old(db.contacts), body.walletAddress, body.address).Some? ==>
              r == Refused(400, "Contact already exists") && db.contacts == old(db.contacts) && db.nextId == old(db.nextId)
    ensures Existing(old(db.contacts), body.walletAddress, body.address).None? ==>
              && r == Ok(body.(id := Some(old(db.nextId))))
              && db.contacts == Append(old(db.contacts), body.walletAddress, r.body)
              && db.nextId == old(db.nextId) + 1
    ensures UniqueAddresses(old(db.contacts)) ==> UniqueAddresses(db.contacts)
    ensures db.transactions == old(db.transactions) && db.purchases == old(db.purchases)
  {
    var w := body.walletAddress;
    if Existing(db.contacts, w, body.address).Some? {
      return Refused(400, "Contact already exists");
    }
    var stored := body.(id := Some(db.nextId));
    var rows := Rows(db.contacts, w);
    AppendKeeps(rows, stored, ContactOwner, w, ContactId, db.nextId);
    IdsIssuedMonotone(db.contacts, ContactId, db.nextId);
    IdsIssuedMonotone(db.purchases, PurchaseId, db.nextId);
    if DistinctBy(rows, ContactAddress) {
      forall i | 0 <= i < |rows|
        ensures ContactAddress(rows[i]) != ContactAddress(stored)
      {
        assert !AddressIs(body.address)(rows[i]);
      }
      AppendKeepsDistinct(rows, stored, ContactAddress);
    }
    db.contacts := db.contacts[w := rows + [stored]];
    db.nextId := db.nextId + 1;
    r := Ok(stored);
  }

  // ---------------------------------------------------------------- GET

  /** A date that is later, with a missing date lower than any date. */
  predicate LaterDate(x: Option<int>, y: Option<int>) {
    x.Some? && (y.None? || x.value > y.value)
  }

  /** `.sort({ lastTransactionDate: -1, name: 1 })`. */
  function RecentThenName(a: Contact, b: Contact): bool {
    || LaterDate(a.lastTransactionDate, b.lastTransactionDate)
    || (a.lastTransactionDate == b.lastTransactionDate && LexLe(a.name, b.name))
  }

  lemma RecentThenNameIsTotalPreorder()
    ensures IsTotalPreorder(RecentThenName)
  {
    forall a: Contact, b: Contact
      ensures RecentThenName(a, b) || RecentThenName(b, a)
    {
      LexLeTotal(a.name, b.name);
    }
    forall a: Contact, b: Contact, c: Contact | RecentThenName(a, b) && RecentThenName(b, c)
      ensures RecentThenName(a, c)
    {
      if a.lastTransactionDate == b.lastTransactionDate == c.lastTransactionDate {
        LexLeTransitive(a.name, b.name, c.name);
      }
    }
  }

  /** GET `?walletAddress`: 400 when it is missing or empty; otherwise all of
      the wallet's contacts, latest transaction date first (contacts without
      one last), ties by name in code-point order. */
  function Get(m: map<string, seq<Contact>>, walletAddress: Option<string>): (r: Reply<seq<Contact>>)
    ensures (walletAddress.None? || walletAddress == Some("")) <==> r == Refused(400, "Wallet address required")
    ensures r.Refused? || r.Ok?
    ensures r.Ok? ==> walletAddress.Some? && ArrangedBy(r.body, Rows(m, walletAddress.value), RecentThenName)
  {
    if walletAddress.None? || walletAddress.value == "" then Refused(400, "Wallet address required")
    else
      RecentThenNameIsTotalPreorder();
      SortByCorrect(Rows(m, walletAddress.value), RecentThenName);
      Ok(SortBy(Rows(m, walletAddress.value), RecentThenName))
  }

  // ---------------------------------------------------------------- PUT / DELETE

  function Patcher(p: ContactPatch): Contact -> Contact {
    (c: Contact) => ApplyPatch(c, p)
  }

  /** The store after `updateOne({ _id: id, walletAddress: w }, { $set: patch })`. */
  function Patched(m: map<string, seq<Contact>>, id: nat, p: ContactPatch, w: string): map<string, seq<Contact>> {
    if w in m then m[w := UpdateFirst(m[w], KeyIs(ContactId, id), Patcher(p))] else m
  }

  /** The store after `deleteOne({ _id: id, walletAddress: w })`. */
  function Removed(m: map<string, seq<Contact>>, id: nat, w: string): map<string, seq<Contact>> {
    if w in m then m[w := DeleteFirst(m[w], KeyIs(ContactId, id))] else m
  }

  /** A patch keeps each contact's owner, key and address, so the store stays
      partitioned, its keys stay issued and distinct, and no wallet gains a
      repeated address. */
  lemma PatchKeepsInvariants(m: map<string, seq<Contact>>, id: nat, p: ContactPatch, w: string, next: nat)
    requires Partitioned(m, ContactOwner) && IdsIssued(m, ContactId, next)
    ensures Partitioned(Patched(m, id, p, w), ContactOwner)
    ensures IdsIssued(Patched(m, id, p, w), ContactId, next)
    ensures UniqueAddresses(m) ==> UniqueAddresses(Patched(m, id, p, w))
  {
    if w in m {
      var rows := UpdateFirst(m[w], KeyIs(ContactId, id), Patcher(p));
      UpdateKeeps(m[w], KeyIs(ContactId, id), Patcher(p), ContactOwner, w, ContactId, next, ContactAddress);
      UpdateKeepsPartition(m, KeyIs(ContactId, id), Patcher(p), ContactOwner, w);
      ReplaceKeepsIds(m, w, rows, ContactId, next);
    }
  }

  /** PUT: applies the patch to the contact with that key in partition
      `walletAddress`, if there is one, and answers success either way. */
  method Put(db: Db, id: nat, patch: ContactPatch, walletAddress: string) returns (r: Reply<bool>)
    requires db.Valid()
    modifies db
    ensures db.Valid()
    ensures r == Ok(true)
    ensures db.contacts == Patched(old(db.contacts), id, patch, walletAddress)
    ensures UniqueAddresses(old(db.contacts)) ==> UniqueAddresses(db.contacts)
    ensures db.transactions == old(db.transactions) && db.purchases == old(db.purchases) && db.nextId == old(db.nextId)
  {
    var w := walletAddress;
    if w in db.contacts {
      PatchKeepsInvariants(db.contacts, id, patch, w, db.nextId);
      db.contacts := db.contacts[w := UpdateFirst(db.contacts[w], KeyIs(ContactId, id), Patcher(patch))];
    }
    r := Ok(true);
  }

  /** DELETE: removes the contact with that key from partition `walletAddress`,
      if there is one, and answers success either way. */
  method Delete(db: Db, id: nat, walletAddress: string) returns (r: Reply<bool>)
    requires db.Valid()
    modifies db
    ensures db.Valid()
    ensures r == Ok(true)
    ensures db.contacts == Removed(old(db.contacts), id, walletAddress)
    ensures db.transactions == old(db.transactions) && db.purchases == old(db.purchases) && db.nextId == old(db.nextId)
  {
    var w := walletAddress;
    if w in db.contacts {
      var rows := DeleteFirst(db.contacts[w], KeyIs(ContactId, id));
      DeleteKeeps(db.contacts[w], KeyIs(ContactId, id), ContactOwner, w, ContactId, db.nextId, ContactAddress);
      db.contacts := db.contacts[w := rows];
    }
    r := Ok(true);
  }

  /** Keys are unique within a wallet, so PUT rewrites exactly the contact
      with that key, if the wallet has one, and no other contact of any wallet. */
  lemma PatchedTouchesOnlyThatContact(m: map<string, seq<Contact>>, next: nat, id: nat, p: ContactPatch, w: string)
    requires IdsIssued(m, ContactId, next)
    ensures var m' := Patched(m, id, p, w);
      && (forall v :: v != w ==> Rows(m', v) == Rows(m, v))
      && |Rows(m', w)| == |Rows(m, w)|
      && forall i :: 0 <= i < |Rows(m, w)| ==>
           Rows(m', w)[i] == if Rows(m, w)[i].id == Some(id) then ApplyPatch(Rows(m, w)[i], p) else Rows(m, w)[i]
  {
    if w in m {
      UpdateByKey(m[w], ContactId, id, Patcher(p));
    }
  }

  /** Keys are unique within a wallet, so DELETE drops exactly the contact with
      that key, keeps the wallet's other contacts in order, and leaves every
      other wallet alone. */
  lemma RemovedDropsOnlyThatContact(m: map<string, seq<Contact>>, next: nat, id: nat, w: string)
    requires IdsIssued(m, ContactId, next)
    ensures var m' := Removed(m, id, w);
      && (forall v :: v != w ==> Rows(m', v) == Rows(m, v))
      && Rows(m', w) == Filter(Rows(m, w), KeyIsNot(ContactId, id))
  {
    if w in m {
      DeleteByKey(m[w], ContactId, id);
    }
  }
}
