/** The address book screen: adding a contact through a validated form,
    editing the fields a user owns, marking favourites, searching, and the
    abbreviations it shows. Writes go through the wallet session. */
module ContactsManager {
  import opened Wrappers
  import opened Records
  import opened Seqs
  import opened Text
  import opened Store
  import opened WalletContext

  /** The add-contact form. */
  datatype ContactForm = ContactForm(name: string, address: string, notes: string, tags: seq<string>, isFavorite: bool)

  const EmptyForm := ContactForm("", "", "", [], false)

  /** The checks `handleAddContact` makes, in order: a name and an address are
      entered, and the address is "0x" and forty hex digits. */
  function CheckNewContact(f: ContactForm): (r: Outcome<string>)
    ensures (f.name == "" || f.address == "") <==> r == Fail("Name and address are required")
    ensures r == Fail("Invalid Ethereum address format") <==> f.name != "" && f.address != "" && !IsAccountAddress(f.address)
    ensures r == Pass <==> f.name != "" && IsAccountAddress(f.address)
  {
    if f.name == "" || f.address == "" then Fail("Name and address are required")
    else if !IsAccountAddress(f.address) then Fail("Invalid Ethereum address format")
    else Pass
  }

  /** The contact the form submits: its own fields, no transactions yet, and
      zero totals. The store assigns the key, owner and times. */
  function Draft(f: ContactForm): (r: Contact)
    ensures r.name == f.name && r.address == f.address && r.notes == Some(f.notes)
    ensures r.tags == f.tags && r.isFavorite == f.isFavorite
    ensures r.totalTransactions == 0 && r.totalSent == 0.0 && r.totalReceived == 0.0
    ensures r.lastTransactionDate.None? && r.avatar.None?
  {
    Contact(None, f.name, f.address, None, f.tags, Some(f.notes), None, 0, 0.0, 0.0, f.isFavorite, "", 0, 0)
  }

  /** What saving an edit sends: name, notes, tags and the favourite flag, nothing else. */
  function EditPatch(edited: Contact): (r: ContactPatch)
    ensures r.name == Some(edited.name) && r.notes == edited.notes
    ensures r.tags == Some(edited.tags) && r.isFavorite == Some(edited.isFavorite)
    ensures r.lastTransactionDate.None? && r.totalTransactions.None? && r.totalSent.None? && r.totalReceived.None?
  {
    ContactPatch(Some(edited.name), edited.notes, Some(edited.tags), Some(edited.isFavorite), None, None, None, None, None)
  }

  /** An edit takes the user's fields from the edited copy and never changes
      the stored address, owner, transaction date or running totals. */
  lemma EditKeepsTotals(stored: Contact, edited: Contact, now: int)
    ensures var u := ApplyPatch(stored, EditPatch(edited).(updatedAt := Some(now)));
      && u.name == edited.name && u.tags == edited.tags && u.isFavorite == edited.isFavorite
      && (edited.notes.Some? ==> u.notes == edited.notes)
      && (edited.notes.None? ==> u.notes == stored.notes)
      && u.address == stored.address && u.walletAddress == stored.walletAddress && u.id == stored.id
      && u.lastTransactionDate == stored.lastTransactionDate
      && u.totalTransactions == stored.totalTransactions
      && u.totalSent == stored.totalSent && u.totalReceived == stored.totalReceived
      && u.updatedAt == now
  {
  }

  /** What the star button sends: the negation of the flag as shown. */
  function FavoritePatch(c: Contact): (r: ContactPatch)
    ensures r.isFavorite == Some(!c.isFavorite)
    ensures r.(isFavorite := None) == NoChange
  {
    NoChange.(isFavorite := Some(!c.isFavorite))
  }

  /** Pressing the star twice, each time on the contact as it then is, restores
      the flag and leaves every other field but the update time as it was. */
  lemma FavoriteTwiceRestores(c: Contact, t1: int, t2: int)
    ensures var once := ApplyPatch(c, FavoritePatch(c).(updatedAt := Some(t1)));
      var twice := ApplyPatch(once, FavoritePatch(once).(updatedAt := Some(t2)));
      && once.isFavorite == !c.isFavorite
      && twice == c.(updatedAt := t2)
  {
  }

  /** The search: the term occurs, ignoring case, in the name, the address or a tag. */
  predicate Found(c: Contact, term: string) {
    || Includes(Lower(c.name), Lower(term))
    || Includes(Lower(c.address), Lower(term))
    || exists i :: 0 <= i < |c.tags| && Includes(Lower(c.tags[i]), Lower(term))
  }

  function FoundBy(term: string): Contact -> bool {
    (c: Contact) => Found(c, term)
  }

  /** `filteredContacts`: the contacts the search finds, in their listed order;
      an empty term finds them all. */
  function FilteredContacts(contacts: seq<Contact>, term: string): (r: seq<Contact>)
    ensures IsSubsequence(r, contacts)
    ensures forall c :: c in r <==> c in contacts && Found(c, term)
    ensures term == "" ==> r == contacts
  {
    FilterIsSubsequence(contacts, FoundBy(term));
    FilterMembers(contacts, FoundBy(term));
    if term == "" then
      EmptyTermFindsAll(contacts);
      Filter(contacts, FoundBy(term))
    else Filter(contacts, FoundBy(term))
  }

  lemma EmptyTermFindsAll(contacts: seq<Contact>)
    ensures Filter(contacts, FoundBy("")) == contacts
  {
    forall i | 0 <= i < |contacts|
      ensures Found(contacts[i], "")
    {
      IncludesEmpty(Lower(contacts[i].name));
      assert Lower("") == "";
    }
    FilterAll(contacts, FoundBy(""));
  }

  /** `formatAddress`: the first six characters, "...", the last four; a
      shorter address keeps what it has of each. */
  function FormatAddress(address: string): (r: string)
    ensures |address| >= 6 ==> |r| == 13 && r[..6] == address[..6] && r[6..9] == "..." && r[9..] == address[|address| - 4..]
    ensures 4 <= |address| < 6 ==> r == address + "..." + address[|address| - 4..]
    ensures |address| < 4 ==> r == address + "..." + address
  {
    AbbreviateShape(address, 6, 4);
    Abbreviate(address, 6, 4)
  }

  /** `getInitials`: the first character of each space-separated word,
      upper-cased, at most two of them. */
  function Initials(name: string): (r: string)
    ensures |r| <= 2
    ensures r == Head(Upper(WordStarts(name, true)), 2)
  {
    FirstCharactersAreWordStarts(name);
    Head(Upper(FirstCharacters(Split(name, ' '))), 2)
  }

  /** The initials are the upper-cased starts of the first words, in order. */
  lemma InitialsAreWordStarts(name: string)
    ensures forall i :: 0 <= i < |Initials(name)| ==> Initials(name)[i] == UpperChar(WordStarts(name, true)[i])
  {
  }

  /** The screen's own state; the contacts themselves live in the wallet session. */
  class ContactsManagerView {
    var newContact: ContactForm
    var showAddDialog: bool
    var editingContact: Option<Contact>
    const session: WalletSession

    constructor(session: WalletSession)
      ensures this.session == session
      ensures newContact == EmptyForm && !showAddDialog && editingContact.None?
    {
      this.session := session;
      newContact, showAddDialog, editingContact := EmptyForm, false, None;
    }

    /** `handleAddContact` with clock reading `now`. A failed check reports and
        changes nothing. Otherwise the draft goes to the session, the form is
        cleared and the dialog closed, and success is reported, whether or not
        the store kept the contact. */
    method HandleAddContact(now: int) returns (r: Outcome<string>)
      requires session.Valid()
      modifies this, session, session.db
      ensures session.Valid()
      ensures r == CheckNewContact(old(newContact))
      ensures r.Fail? ==> unchanged(this) && unchanged(session) && unchanged(session.db)
      ensures r.Pass? ==>
                && newContact == EmptyForm && !showAddDialog && editingContact == old(editingContact)
                && session.db.contacts == ContactsAdded(old(session.db.contacts), old(session.dbService),
                                                          Draft(old(newContact)), old(session.db.nextId), now)
                && session.State() == old(session.State()).(contacts := FetchedContacts(session.db.contacts, old(session.dbService), old(session.contacts)))
      ensures session.db.transactions == old(session.db.transactions) && session.db.purchases == old(session.db.purchases)
    {
      r := CheckNewContact(newContact);
      if r.Fail? {
        return;
      }
      session.AddContact(Draft(newContact), now);
      newContact := EmptyForm;
      showAddDialog := false;
    }

    /** `handleUpdateContact` with clock reading `now`: nothing without a
        contact being edited; otherwise its user fields are sent and the
        editor closes. */
    method HandleUpdateContact(now: int)
      requires session.Valid()
      modifies this, session, session.db
      ensures session.Valid()
      ensures old(editingContact).None? ==> unchanged(this) && unchanged(session) && unchanged(session.db)
      ensures old(editingContact).Some? ==>
                && editingContact.None? && newContact == old(newContact) && showAddDialog == old(showAddDialog)
                && session.db.contacts == ContactsUpdated(old(session.db.contacts), old(session.dbService),
                                                            old(editingContact).value.id, EditPatch(old(editingContact).value), now)
                && session.State() == old(session.State()).(contacts := FetchedContacts(session.db.contacts, old(session.dbService), old(session.contacts)))
      ensures session.db.transactions == old(session.db.transactions) && session.db.purchases == old(session.db.purchases)
    {
      if editingContact.None? {
        return;
      }
      var edited := editingContact.value;
      session.UpdateContact(edited.id, EditPatch(edited), now);
      editingContact := None;
    }

    /** `handleDeleteContact`, with `confirmed` the user's answer to the
        confirmation prompt: a refusal changes nothing; otherwise the contact
        is deleted through the session. */
    method HandleDeleteContact(id: Option<nat>, confirmed: bool)
      requires session.Valid()
      modifies session, session.db
      ensures session.Valid()
      ensures !confirmed ==> unchanged(session) && unchanged(session.db)
      ensures confirmed ==>
                && session.db.contacts == ContactsRemoved(old(session.db.contacts), old(session.dbService), id)
                && session.State() == old(session.State()).(contacts := FetchedContacts(session.db.contacts, old(session.dbService), old(session.contacts)))
      ensures session.db.transactions == old(session.db.transactions) && session.db.purchases == old(session.db.purchases)
    {
      if !confirmed {
        return;
      }
      session.DeleteContact(id);
    }

    /** `toggleFavorite(c)` with clock reading `now`. */
    method ToggleFavorite(c: Contact, now: int)
      requires session.Valid()
      modifies session, session.db
      ensures session.Valid()
      ensures session.db.contacts == ContactsUpdated(old(session.db.contacts), old(session.dbService), c.id, FavoritePatch(c), now)
      ensures session.State() == old(session.State()).(contacts := FetchedContacts(session.db.contacts, old(session.dbService), old(session.contacts)))
      ensures session.db.transactions == old(session.db.transactions) && session.db.purchases == old(session.db.purchases)
    {
      session.UpdateContact(c.id, FavoritePatch(c), now);
    }
  }
}
