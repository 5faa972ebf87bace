# Contact book — a Dafny model

This project models a single-page contact book, a React component named `App`. The component has:
- a form with two inputs, full name and phone number;
- an ordered list of contacts, each carrying an identifier, a full name and a phone number;
- a delete button on each row.

Submitting the form runs two checks, both regular expressions. The name is checked first, then the phone number.
- If a check fails, an alert is shown and nothing else happens.
- If both pass, a new contact is appended to the list and both inputs are cleared.

Deleting keeps only the contacts whose identifier differs from the one clicked. Every change to the list is written to the browser's `contacts` storage slot. On mount, the list is read back from that slot.

The model has three modules:

- `Validation` (`validation.dfy`) holds the two patterns as character-class predicates, with no regular-expression engine.
  - The name pattern `^[a-zA-Zšđžćč\s]+$` is `ValidName`.
  - The phone pattern `^\+?\d+$` is `ValidPhone`.
  - An anchored `[class]+` is the recursive predicate `OneOrMore`. Lemmas prove what it accepts: exactly the non-empty strings made only of characters in the class.
  - `\s` is the full ECMAScript whitespace set (WhiteSpace and LineTerminator), not only the space.
  - The five diacritics are lower-case only.
  - `\d` is the ASCII digits.
- `ContactList` (`contact_list.dfy`) holds the `Contact` record and `WithoutId`, which is the `filter` used by delete.
  - Its lemmas state order preservation, the exact length, idempotence and commutation of deletions, and that deletion and append keep every record well formed.
- `App` (`app.dfy`) holds the class `ContactBook`, with the fields `fullName`, `phoneNumber` and `contacts`.
  - A ghost field `saved` models the storage slot.
  - The methods are the two input handlers, `Submit` and `Delete`.
  - `Submit` takes the new record's identifier as an argument and returns an `Outcome` in place of the alert.
  - Three client methods (`AddScenario`, `RejectScenario`, `DeleteScenario`) exercise the contracts on concrete inputs.

The data types are:
- `ContactList.Contact`. It is the record of src/App.tsx:3-7, with an identifier, a full name and a phone number, all strings.
- `App.Outcome`. It stands for the alerts:
  - `NameInvalid` is the name alert at src/App.tsx:42-44.
  - `PhoneInvalid` is the phone alert at src/App.tsx:49-51.
  - `Added` is the path that falls through to the append.

Three behaviours of the code that a reader might not expect:
- The name alert at src/App.tsx:43 speaks of "spaces". The pattern at src/App.tsx:41 uses `\s`, which admits every JavaScript whitespace character (tab, newline, no-break space, …). The model follows the pattern.
- The name class lists only the lower-case š đ ž ć č (src/App.tsx:41), with no case-insensitive flag. The upper-case forms are rejected.
- `filter` at src/App.tsx:68 drops every contact carrying the id, not just one. Identifiers are millisecond timestamps (src/App.tsx:56), so two can coincide.

## Model

| member | source | states |
|---|---|---|
| Validation.OneOrMoreIff | src/App.tsx:41 | an anchored `[class]+` accepts a string iff it is non-empty and every character is in the class |
| Validation.ValidNameIff | src/App.tsx:41 | the meaning of the predicate `ValidName`: a name passes iff it is non-empty and each character is an ASCII letter, a JavaScript whitespace character or one of š đ ž ć č |
| Validation.ValidNameRejects | src/App.tsx:41 | a name containing a digit, an ASCII punctuation mark or symbol, or an upper-case Š Đ Ž Ć Č anywhere is rejected |
| Validation.NameAcceptedWithDiacritic | src/App.tsx:41 | "Ana Marić" passes (a space and a listed diacritic) |
| Validation.NameAcceptedAscii | src/App.tsx:41 | "Ivo" passes |
| Validation.NameAcceptedWithTab | src/App.tsx:41 | "đuro\tživič" passes: a tab is in `\s` |
| Validation.NameRejected | src/App.tsx:41 | "", "John123", "Šime" and "O'Brien" fail |
| Validation.JsWhitespaceCases | src/App.tsx:41 | `\s` holds tab, line feed, carriage return, U+00A0, U+2028 and U+FEFF; it excludes U+180E and U+200B; no whitespace character is an ASCII letter, a digit or a listed diacritic |
| Validation.ValidPhoneIff | src/App.tsx:48 | the meaning of the predicate `ValidPhone`: a phone number passes iff, after dropping one leading `+` if present, one or more ASCII digits remain |
| Validation.ValidPhoneShape | src/App.tsx:48 | in a passing phone number every character is a digit except a `+` at position 0 only, and the last character is a digit |
| Validation.PlusThenDigits | src/App.tsx:48 | a `+` followed by one or more digits passes |
| Validation.PhoneAcceptedWithPlus | src/App.tsx:48 | "+38512345678" passes |
| Validation.PhoneAcceptedPlain | src/App.tsx:48 | "0911234567" passes |
| Validation.PhoneRejected | src/App.tsx:48 | "", "+", "++1", "1+2" and "123-456" fail |
| ContactList.WithoutId | src/App.tsx:68 | the filtered list is no longer than the input; it contains only input records with a different id, and it contains every such record |
| ContactList.WithoutIdAppend | src/App.tsx:68 | filtering a concatenation is the concatenation of the filtered parts, so order is kept |
| ContactList.WithoutIdIsSubsequence | src/App.tsx:68 | the result is a subsequence of the input, in the original order |
| ContactList.OccurrencesZero | src/App.tsx:68 | no record carries the id iff it occurs zero times |
| ContactList.WithoutIdLength | src/App.tsx:68 | the length drops by exactly the number of records carrying the id, duplicates included |
| ContactList.WithoutIdCount | src/App.tsx:67-70 | a present, unique id leaves one record fewer; an absent id leaves the list unchanged |
| ContactList.WithoutIdAbsent | src/App.tsx:68 | when no record carries the id, the list is unchanged |
| ContactList.WithoutIdIdempotent | src/App.tsx:68 | deleting twice with the same id equals deleting once |
| ContactList.WithoutIdCommutes | src/App.tsx:68 | deletions of two ids give the same list in either order |
| ContactList.WithoutIdKeepsWellFormed | src/App.tsx:68 | if every record passes both checks before a deletion, every record passes them after it |
| ContactList.AppendKeepsWellFormed | src/App.tsx:55-61 | appending a record that passes both checks keeps all records passing |
| ContactList.DeleteFirstOfTwo | src/App.tsx:67-70 | of two records with distinct ids, deleting the first leaves exactly the second |
| App.ContactBook.constructor | src/App.tsx:10-15 | empty inputs; the list is the stored list when the slot holds one, else empty; the slot mirrors the list |
| App.ContactBook.SetFullName | src/App.tsx:30-32 | sets the name input to the value; the phone input, the list and the slot are unchanged |
| App.ContactBook.SetPhoneNumber | src/App.tsx:34-36 | sets the phone input to the value; the name input, the list and the slot are unchanged |
| App.ContactBook.Submit | src/App.tsx:38-65 | a bad name gives NameInvalid, and it takes precedence over a bad phone; a good name with a bad phone gives PhoneInvalid; a failure changes nothing; success appends `Contact(id, name, phone)` at the end, clears both inputs and updates the slot; the slot stays in step and all-valid lists stay all-valid |
| App.ContactBook.Delete | src/App.tsx:67-70 | the list becomes the filtered old list, with no record carrying the id; an absent id changes nothing; the slot mirrors the list; the inputs are untouched; all-valid lists stay all-valid |

## Left out

- Rendering of the form and the list, the `key` attributes and `event.preventDefault()` (src/App.tsx:39, 72-100). These are presentation only. The list is displayed in the order of `contacts`.
- `localStorage` and JSON (src/App.tsx:12-15, 17-28). The storage slot is the ghost field `saved`, a snapshot of the list taken at every change. The constructor receives the slot's content already parsed.
  - `None` stands for a missing slot, and also for an empty string, which JavaScript treats as false.
  - A slot whose content does not parse makes `JSON.parse` throw. That path is not modelled.
  - Storage write failures are not modelled.
- The second read of storage in the mount effect (src/App.tsx:17-23). It loads the same content as the initial read, since nothing else writes the slot in between, so it is folded into the constructor. React's scheduling of effects is not modelled.
- App.ContactBook.constructor: records read from storage are taken as they are. They are never re-checked, so `ContactsWellFormed` is only claimed to be preserved, never established.
- `console.log` and `alert` (src/App.tsx:19, 27, 42-44, 49-51). These are side effects. `Outcome` reports which alert would be shown. The alert texts are not modelled.
- `Date.now().toString()` (src/App.tsx:56). The clock is external, so the identifier is a parameter of `Submit`. The decimal conversion is not modelled.
- Several tabs sharing one storage slot, where the last writer wins. Concurrency is outside the model.
- Characters are Unicode scalar values. JavaScript compares UTF-16 code units. No listed character lies above U+FFFF, so both views accept and reject the same strings.
