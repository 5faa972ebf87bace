/** The stored contact records and the one operation on the list that is
    not an append: removing every record with a given identifier. */
module ContactList {
  import opened Validation

  /** One entry of the book. The identifier is the creation time in
      milliseconds, as a decimal string; nothing makes it unique. */
  datatype Contact = Contact(id: string, fullName: string, phoneNumber: string)

  /** A record as the form lets it in: both fields pass their checks. */
  predicate WellFormed(c: Contact) {
    ValidName(c.fullName) && ValidPhone(c.phoneNumber)
  }

  predicate AllWellFormed(cs: seq<Contact>) {
    forall i :: 0 <= i < |cs| ==> WellFormed(cs[i])
  }

  /** Deletion by identifier: the records whose identifier differs from
      `id`, in their original order; every record carrying `id` goes,
      duplicates included. */
  function WithoutId(cs: seq<Contact>, id: string): (r: seq<Contact>)
    ensures |r| <= |cs|
    ensures forall c :: c in r ==> c in cs && c.id != id
    ensures forall c :: c in cs && c.id != id ==> c in r
    decreases |cs|
  {
    if cs == [] then []
    else if cs[0].id != id then [cs[0]] + WithoutId(cs[1..], id)
    else WithoutId(cs[1..], id)
  }

  /** How many records carry the identifier `id`. */
  function Occurrences(cs: seq<Contact>, id: string): (n: nat)
    decreases |cs|
  {
    if cs == [] then 0
    else (if cs[0].id == id then 1 else 0) + Occurrences(cs[1..], id)
  }

  /** `r` is obtained from `s` by leaving elements out, keeping the order of
      the rest. */
  predicate IsSubsequence<T(==)>(r: seq<T>, s: seq<T>)
    decreases |s|
  {
    r == [] || (s != [] && (IsSubsequence(r, s[1..]) || (r[0] == s[0] && IsSubsequence(r[1..], s[1..]))))
  }

  /** Filtering splits over concatenation: each part keeps its own records
      and the parts stay in order. */
  lemma {:induction false} WithoutIdAppend(a: seq<Contact>, b: seq<Contact>, id: string)
    ensures WithoutId(a + b, id) == WithoutId(a, id) + WithoutId(b, id)
    decreases |a|
  {
    if a == [] {
      assert a + b == b;
    } else {
      assert (a + b)[0] == a[0];
      assert (a + b)[1..] == a[1..] + b;
      WithoutIdAppend(a[1..], b, id);
    }
  }

  /** The result keeps the surviving records in their original order. */
  lemma {:induction false} WithoutIdIsSubsequence(cs: seq<Contact>, id: string)
    ensures IsSubsequence(WithoutId(cs, id), cs)
    decreases |cs|
  {
    if cs != [] {
      WithoutIdIsSubsequence(cs[1..], id);
      var r := WithoutId(cs, id);
      if cs[0].id != id {
        assert r[0] == cs[0] && r[1..] == WithoutId(cs[1..], id);
      }
    }
  }

  /** Exactly the records carrying `id` are dropped. */
  lemma {:induction false} WithoutIdLength(cs: seq<Contact>, id: string)
    ensures |WithoutId(cs, id)| == |cs| - Occurrences(cs, id)
    decreases |cs|
  {
    if cs != [] {
      WithoutIdLength(cs[1..], id);
    }
  }

  /** Removing an identifier that one record carries leaves one record
      fewer; one that no record carries leaves the list as it was. */
  lemma WithoutIdCount(cs: seq<Contact>, id: string)
    ensures Occurrences(cs, id) == 1 ==> |WithoutId(cs, id)| == |cs| - 1
    ensures Occurrences(cs, id) == 0 ==> WithoutId(cs, id) == cs
  {
    WithoutIdLength(cs, id);
    if Occurrences(cs, id) == 0 {
      OccurrencesZero(cs, id);
      WithoutIdAbsent(cs, id);
    }
  }

  /** No record carries `id` exactly when it occurs zero times. */
  lemma {:induction false} OccurrencesZero(cs: seq<Contact>, id: string)
    ensures Occurrences(cs, id) == 0 <==> forall c :: c in cs ==> c.id != id
    decreases |cs|
  {
    if cs != [] {
      OccurrencesZero(cs[1..], id);
      assert forall c :: c in cs <==> c == cs[0] || c in cs[1..];
    }
  }

  /** An identifier that no record carries changes nothing. */
  lemma {:induction false} WithoutIdAbsent(cs: seq<Contact>, id: string)
    requires forall c :: c in cs ==> c.id != id
    ensures WithoutId(cs, id) == cs
    decreases |cs|
  {
    if cs != [] {
      assert cs[0] in cs;
      assert forall c :: c in cs[1..] ==> c in cs;
      WithoutIdAbsent(cs[1..], id);
      assert [cs[0]] + cs[1..] == cs;
    }
  }

  /** Deleting twice with the same identifier is deleting once. */
  lemma WithoutIdIdempotent(cs: seq<Contact>, id: string)
    ensures WithoutId(WithoutId(cs, id), id) == WithoutId(cs, id)
  {
    WithoutIdAbsent(WithoutId(cs, id), id);
  }

  /** Deletions of two identifiers give the same list in either order. */
  lemma {:induction false} WithoutIdCommutes(cs: seq<Contact>, id1: string, id2: string)
    ensures WithoutId(WithoutId(cs, id1), id2) == WithoutId(WithoutId(cs, id2), id1)
    decreases |cs|
  {
    if cs != [] {
      WithoutIdCommutes(cs[1..], id1, id2);
      var a := WithoutId(cs[1..], id1);
      var b := WithoutId(cs[1..], id2);
      if cs[0].id != id1 {
        WithoutIdAppend([cs[0]], a, id2);
      }
      if cs[0].id != id2 {
        WithoutIdAppend([cs[0]], b, id1);
      }
    }
  }

  /** A list whose records all passed the form's checks still has that
      property after a deletion. */
  lemma WithoutIdKeepsWellFormed(cs: seq<Contact>, id: string)
    requires AllWellFormed(cs)
    ensures AllWellFormed(WithoutId(cs, id))
  {
    var r := WithoutId(cs, id);
    forall i | 0 <= i < |r| ensures WellFormed(r[i]) {
      assert r[i] in r;
    }
  }

  /** Appending a record that passed the checks keeps the property. */
  lemma AppendKeepsWellFormed(cs: seq<Contact>, c: Contact)
    requires AllWellFormed(cs) && WellFormed(c)
    ensures AllWellFormed(cs + [c])
  {
  }

  /** Two records with different identifiers; deleting the first leaves
      exactly the second. */
  lemma DeleteFirstOfTwo(a: Contact, b: Contact)
    requires a.id != b.id
    ensures WithoutId([a, b], a.id) == [b]
  {
    assert [a, b][1..] == [b];
    assert [b][1..] == [];
  }
}
