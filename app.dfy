/** The state of the contact-book component: the two form fields and the
    list of contacts, with the handlers that change them. */
module App {
  import opened Validation
  import opened ContactList

  datatype Option<T> = None | Some(value: T)

  /** What a submission reports in place of the two alerts. */
  datatype Outcome = Added | NameInvalid | PhoneInvalid

  class ContactBook {
    /** The text of the full-name input. */
    var fullName: string
    /** The text of the phone-number input. */
    var phoneNumber: string
    /** The contacts, in insertion order, as they are displayed. */
    var contacts: seq<Contact>
    /** The last snapshot written to the `contacts` storage slot. */
    ghost var saved: seq<Contact>

    /** The storage slot holds a full copy of the list. */
    ghost predicate Persisted()
      reads this
    {
      saved == contacts
    }

    /** Every stored contact passed the form's checks. */
    predicate ContactsWellFormed()
      reads this
    {
      AllWellFormed(contacts)
    }

    /** Mounting the component: empty form fields, and the list read back
        from storage when the slot holds something, else an empty list. The
        effect that runs on mount then writes the list back. `stored` is the
        slot's content after parsing; `None` stands for a missing slot. */
    constructor (stored: Option<seq<Contact>>)
      ensures fullName == "" && phoneNumber == ""
      ensures contacts == (if stored.Some? then stored.value else [])
      ensures Persisted()
    {
      fullName := "";
      phoneNumber := "";
      contacts := if stored.Some? then stored.value else [];
      saved := contacts;
    }

    /** A keystroke in the full-name input. */
    method SetFullName(value: string)
      modifies this`fullName
      ensures fullName == value
      ensures phoneNumber == old(phoneNumber) && contacts == old(contacts) && saved == old(saved)
    {
      fullName := value;
    }

    /** A keystroke in the phone-number input. */
    method SetPhoneNumber(value: string)
      modifies this`phoneNumber
      ensures phoneNumber == value
      ensures fullName == old(fullName) && contacts == old(contacts) && saved == old(saved)
    {
      phoneNumber := value;
    }

    /** Submitting the form with `id` as the new record's identifier. The
        name is checked first, then the phone number; a failed check
        changes nothing. A passing submission appends the record, writes the
        list to storage and clears both inputs. */
    method Submit(id: string) returns (outcome: Outcome)
      modifies this
      ensures outcome == NameInvalid <==> !ValidName(old(fullName))
      ensures outcome == PhoneInvalid <==> ValidName(old(fullName)) && !ValidPhone(old(phoneNumber))
      ensures outcome == Added <==> ValidName(old(fullName)) && ValidPhone(old(phoneNumber))
      ensures outcome != Added ==>
                fullName == old(fullName) && phoneNumber == old(phoneNumber)
                && contacts == old(contacts) && saved == old(saved)
      ensures outcome == Added ==>
                contacts == old(contacts) + [Contact(id, old(fullName), old(phoneNumber))]
                && fullName == "" && phoneNumber == "" && Persisted()
      ensures old(Persisted()) ==> Persisted()
      ensures old(ContactsWellFormed()) ==> ContactsWellFormed()
    {
      if !ValidName(fullName) {
        return NameInvalid;
      }
      if !ValidPhone(phoneNumber) {
        return PhoneInvalid;
      }
      var newContact := Contact(id, fullName, phoneNumber);
      if ContactsWellFormed() {
        AppendKeepsWellFormed(contacts, newContact);
      }
      contacts := contacts + [newContact];
      saved := contacts;
      fullName := "";
      phoneNumber := "";
      outcome := Added;
    }

    /** Pressing the delete button of a row: every contact carrying `id`
        goes, the rest keep their order, and the list is written to storage.
        The form fields are untouched. */
    method Delete(id: string)
      modifies this`contacts, this`saved
      ensures contacts == WithoutId(old(contacts), id)
      ensures Persisted()
      ensures fullName == old(fullName) && phoneNumber == old(phoneNumber)
      ensures forall i :: 0 <= i < |contacts| ==> contacts[i].id != id
      ensures (forall c :: c in old(contacts) ==> c.id != id) ==> contacts == old(contacts)
      ensures old(ContactsWellFormed()) ==> ContactsWellFormed()
    {
      if ContactsWellFormed() {
        WithoutIdKeepsWellFormed(contacts, id);
      }
      if forall c :: c in contacts ==> c.id != id {
        WithoutIdAbsent(contacts, id);
      }
      contacts := WithoutId(contacts, id);
      saved := contacts;
    }
  }

  /** A valid submission adds exactly the typed record and clears the
      form; a reload from storage gives the same list back. */
  method AddScenario(id: string) {
    var book := new ContactBook(None);
    book.SetFullName("Ana Mari\U{0107}");
    book.SetPhoneNumber("+38512345678");
    NameAcceptedWithDiacritic();
    PhoneAcceptedWithPlus();
    var outcome := book.Submit(id);
    assert outcome == Added;
    assert book.contacts == [Contact(id, "Ana Mari\U{0107}", "+38512345678")];
    assert book.fullName == "" && book.phoneNumber == "";
    var reloaded := new ContactBook(Some(book.contacts));
    assert reloaded.contacts == book.saved;
  }

  /** A name with digits is reported before a bad phone number, and a
      rejected submission keeps what was typed. */
  method RejectScenario(id: string) {
    var book := new ContactBook(None);
    book.SetFullName("John123");
    book.SetPhoneNumber("123-456");
    NameRejected();
    var outcome := book.Submit(id);
    assert outcome == NameInvalid;
    assert book.fullName == "John123" && book.phoneNumber == "123-456" && book.contacts == [];
    book.SetFullName("Ivo");
    NameAcceptedAscii();
    PhoneRejected();
    outcome := book.Submit(id);
    assert outcome == PhoneInvalid;
    assert book.contacts == [];
  }

  /** Of two contacts with different identifiers, deleting the first
      leaves exactly the second, and deleting it again changes nothing. */
  method DeleteScenario(first: Contact, second: Contact)
    requires first.id != second.id
  {
    var book := new ContactBook(Some([first, second]));
    book.Delete(first.id);
    DeleteFirstOfTwo(first, second);
    assert book.contacts == [second];
    book.Delete(first.id);
    assert book.contacts == [second];
  }
}
