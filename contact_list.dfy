/** The contact list panel: the search filter, the name sort in either direction, the sort
    toggle, and the counts, labels and button states derived from them. */
module ContactList {
  import opened Text
  import opened VcfEncode
  import opened ContactManager

  // ---------------------------------------------------------------------------------------
  // Search

  /** The filter's test: the lower-cased name contains the lower-cased query, or the phone
      contains the query as typed, or a non-empty e-mail contains it ignoring case. */
  predicate Matches(c: Contact, query: string) {
    Contains(ToLower(c.name), ToLower(query)) ||
    Contains(c.phone, query) ||
    (c.email != [] && Contains(ToLower(c.email), ToLower(query)))
  }

  /** `filteredContacts`: the contacts that match, in list order. */
  function Filter(cs: seq<Contact>, query: string): (r: seq<Contact>)
    ensures |r| <= |cs|
    ensures forall c :: c in r <==> c in cs && Matches(c, query)
  {
    if cs == [] then []
    else if Matches(cs[0], query) then [cs[0]] + Filter(cs[1..], query)
    else Filter(cs[1..], query)
  }

  /** The filter keeps the list's order. */
  lemma {:induction false} FilterKeepsOrder(cs: seq<Contact>, query: string)
    ensures Subsequence(Filter(cs, query), cs)
  {
    if cs != [] {
      var rest := Filter(cs[1..], query);
      FilterKeepsOrder(cs[1..], query);
      if Matches(cs[0], query) {
        assert ([cs[0]] + rest)[1..] == rest;
      } else {
        SubsequenceSkip(rest, cs);
      }
    }
  }

  /** Every string contains the empty string (at its start). */
  lemma ContainsEmpty(s: string)
    ensures Contains(s, "")
  {
    assert s[..0] == "";
  }

  /** An empty query keeps every contact, in order. */
  lemma {:induction false} EmptyQueryKeepsAll(cs: seq<Contact>)
    ensures Filter(cs, "") == cs
  {
    if cs != [] {
      ContainsEmpty(ToLower(cs[0].name));
      assert ToLower("") == "";
      EmptyQueryKeepsAll(cs[1..]);
    }
  }

  /** The filter keeps a contact or drops it as a whole: how many copies of it survive is
      all of them or none. */
  lemma {:induction false} FilterCounts(cs: seq<Contact>, query: string, c: Contact)
    ensures multiset(Filter(cs, query))[c] == if Matches(c, query) then multiset(cs)[c] else 0
  {
    if cs != [] {
      FilterCounts(cs[1..], query, c);
      assert cs == [cs[0]] + cs[1..];
    }
  }

  // ---------------------------------------------------------------------------------------
  // Sort

  /** The `sortOrder` state. */
  datatype Order = Asc | Desc

  /** `toggleSortOrder`'s new value. */
  function Flipped(o: Order): (r: Order)
    ensures r != o
  {
    if o == Asc then Desc else Asc
  }

  /** Toggling twice restores the order. */
  lemma FlipTwice(o: Order)
    ensures Flipped(Flipped(o)) == o
  {
  }

  /** Lexicographic order on scalar values: `a` is a prefix of `b`, or the first difference is
      smaller in `a`. */
  predicate LexLeq(a: string, b: string)
    decreases |a|
  {
    a == [] || (b != [] && (a[0] < b[0] || (a[0] == b[0] && LexLeq(a[1..], b[1..]))))
  }

  lemma {:induction false} LexTotal(a: string, b: string)
    ensures LexLeq(a, b) || LexLeq(b, a)
    decreases |a|
  {
    if a != [] && b != [] && a[0] == b[0] {
      LexTotal(a[1..], b[1..]);
    }
  }

  lemma {:induction false} LexTransitive(a: string, b: string, c: string)
    requires LexLeq(a, b) && LexLeq(b, c)
    ensures LexLeq(a, c)
    decreases |a|
  {
    if a != [] && b != [] && c != [] && a[0] == b[0] && b[0] == c[0] {
      LexTransitive(a[1..], b[1..], c[1..]);
    }
  }

  lemma {:induction false} LexAntisymmetric(a: string, b: string)
    requires LexLeq(a, b) && LexLeq(b, a)
    ensures a == b
    decreases |a|
  {
    if a != [] {
      LexAntisymmetric(a[1..], b[1..]);
      assert a == [a[0]] + a[1..] && b == [b[0]] + b[1..];
    }
  }

  /** The sort key: the lower-cased name. */
  function Key(c: Contact): string {
    ToLower(c.name)
  }

  /** The comparator's "`a` may come before `b`": keys ascending, or descending. */
  predicate Before(o: Order, a: Contact, b: Contact) {
    if o == Asc then LexLeq(Key(a), Key(b)) else LexLeq(Key(b), Key(a))
  }

  lemma BeforeTotal(o: Order, a: Contact, b: Contact)
    ensures Before(o, a, b) || Before(o, b, a)
  {
    LexTotal(Key(a), Key(b));
  }

  lemma BeforeTransitive(o: Order, a: Contact, b: Contact, c: Contact)
    requires Before(o, a, b) && Before(o, b, c)
    ensures Before(o, a, c)
  {
    if o == Asc {
      LexTransitive(Key(a), Key(b), Key(c));
    } else {
      LexTransitive(Key(c), Key(b), Key(a));
    }
  }

  /** Every contact comes before every later one. */
  predicate SortedBy(o: Order, s: seq<Contact>) {
    forall i, j :: 0 <= i < j < |s| ==> Before(o, s[i], s[j])
  }

  /** Puts `x` in front of the first element it comes before. */
  function Insert(o: Order, x: Contact, s: seq<Contact>): (r: seq<Contact>)
    requires SortedBy(o, s)
    ensures SortedBy(o, r)
    ensures multiset(r) == multiset(s) + multiset{x}
  {
    if s == [] then [x]
    else if Before(o, x, s[0]) then
      InsertFront(o, x, s);
      [x] + s
    else
      BeforeTotal(o, x, s[0]);
      var rest := Insert(o, x, s[1..]);
      InsertBehind(o, s[0], s[1..], x, rest);
      assert s == [s[0]] + s[1..];
      [s[0]] + rest
  }

  lemma InsertFront(o: Order, x: Contact, s: seq<Contact>)
    requires SortedBy(o, s) && s != [] && Before(o, x, s[0])
    ensures SortedBy(o, [x] + s)
  {
    forall j | 0 < j < |s|
      ensures Before(o, x, s[j])
    {
      BeforeTransitive(o, x, s[0], s[j]);
    }
  }

  lemma InsertBehind(o: Order, head: Contact, tail: seq<Contact>, x: Contact, rest: seq<Contact>)
    requires SortedBy(o, [head] + tail) && Before(o, head, x)
    requires SortedBy(o, rest) && multiset(rest) == multiset(tail) + multiset{x}
    ensures SortedBy(o, [head] + rest)
  {
    forall j | 0 <= j < |rest|
      ensures Before(o, head, rest[j])
    {
      assert rest[j] in multiset(rest);
      if rest[j] != x {
        assert rest[j] in multiset(tail);
        var k :| 0 <= k < |tail| && tail[k] == rest[j];
        var whole := [head] + tail;
        assert whole[0] == head && whole[k + 1] == tail[k];
        assert Before(o, whole[0], whole[k + 1]);
      }
    }
  }

  /** `sortedContacts`: a sorted copy of the list, by lower-cased name in the chosen
      direction. */
  function Sort(o: Order, cs: seq<Contact>): (r: seq<Contact>)
    ensures SortedBy(o, r)
    ensures multiset(r) == multiset(cs)
  {
    if cs == [] then []
    else
      assert cs == [cs[0]] + cs[1..];
      Insert(o, cs[0], Sort(o, cs[1..]))
  }

  /** A sorted list holds the same contacts as its input, each as often, so the same number
      of them. */
  lemma SortKeepsContacts(o: Order, cs: seq<Contact>)
    ensures |Sort(o, cs)| == |cs|
    ensures forall c :: c in Sort(o, cs) <==> c in cs
  {
    var r := Sort(o, cs);
    assert |multiset(r)| == |multiset(cs)|;
    forall c
      ensures c in r <==> c in cs
    {
      assert c in r <==> c in multiset(r);
      assert c in cs <==> c in multiset(cs);
    }
  }

  // ---------------------------------------------------------------------------------------
  // What the panel shows

  /** The count label: singular exactly for one match. */
  function CountLabel(shown: nat): (r: string)
    ensures r == "Contact" <==> shown == 1
  {
    if shown == 1 then "Contact" else "Contacts"
  }

  /** Whether the ` of <total>` suffix is shown: a non-empty query and a count that differs
      from the total. */
  predicate ShowsTotal(query: string, total: nat, shown: nat) {
    query != [] && total != shown
  }

  /** When the suffix is shown, the filter has hidden at least one contact. */
  lemma TotalMeansHidden(cs: seq<Contact>, query: string)
    ensures ShowsTotal(query, |cs|, |Filter(cs, query)|) ==> |Filter(cs, query)| < |cs|
    ensures ShowsTotal(query, |cs|, |Filter(cs, query)|) ==> exists c :: c in cs && !Matches(c, query)
  {
    var r := Filter(cs, query);
    if |r| < |cs| && forall c :: c in cs ==> Matches(c, query) {
      AllMatchKeepsAll(cs, query);
    }
  }

  lemma {:induction false} AllMatchKeepsAll(cs: seq<Contact>, query: string)
    requires forall c :: c in cs ==> Matches(c, query)
    ensures Filter(cs, query) == cs
  {
    if cs != [] {
      AllMatchKeepsAll(cs[1..], query);
    }
  }

  /** `hasSelections`: export and bulk delete are enabled exactly when something is selected. */
  function ButtonsEnabled(selected: seq<nat>): (r: bool)
    ensures r <==> selected != []
  {
    |selected| > 0
  }

  /** `sortedContacts.map(c => c.id)`: what the select-all button hands over. */
  function Ids(cs: seq<Contact>): (r: seq<nat>)
    ensures |r| == |cs|
    ensures forall i :: 0 <= i < |cs| ==> r[i] == cs[i].id
  {
    if cs == [] then [] else [cs[0].id] + Ids(cs[1..])
  }

  /** The select-all button's title: "Deselect All" exactly when as many ids are selected as
      contacts are shown. */
  function SelectAllLabel(selected: seq<nat>, shown: seq<Contact>): (r: string)
    ensures r == "Deselect All" <==> |selected| == |shown|
  {
    if |selected| == |shown| then "Deselect All" else "Select All"
  }

  /** The panel's own state: the sort direction; the contacts, the query and the selection
      come from the manager. */
  class ListView {
    var sortOrder: Order

    /** The panel starts ascending. */
    constructor ()
      ensures sortOrder == Asc
    {
      sortOrder := Asc;
    }

    /** The contacts the panel lists, in display order. */
    function Shown(contacts: seq<Contact>, query: string): seq<Contact>
      reads this
    {
      Sort(sortOrder, Filter(contacts, query))
    }

    /** `toggleSortOrder`. */
    method ToggleSortOrder()
      modifies this
      ensures sortOrder == Flipped(old(sortOrder))
    {
      sortOrder := if sortOrder == Asc then Desc else Asc;
    }

    /** The select-all click in the panel: the manager's select-all with the ids of the
        shown contacts, in display order. */
    method SelectAllShown(manager: Manager, contacts: seq<Contact>, query: string)
      modifies manager
      ensures manager.selected == SelectAllResult(old(manager.selected), Ids(Shown(contacts, query)))
      ensures manager.contacts == old(manager.contacts) && manager.deleteTarget == old(manager.deleteTarget) &&
        manager.bulkDeleteMode == old(manager.bulkDeleteMode)
    {
      manager.SelectAll(Ids(Shown(contacts, query)));
    }
  }
}
