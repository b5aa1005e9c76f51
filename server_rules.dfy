/** The request checks and list computations of the contact API, which the Express server and
    the serverless handler share: the required fields and the e-mail rule of create and
    update, the register check, the bulk-delete id filter with its placeholder list, and the
    bulk-create screening loop with its counts. */
module ServerRules {
  import opened Text

  // ---------------------------------------------------------------------------------------
  // Request bodies

  /** A contact in a request body; `None` is a missing or `null` field. */
  datatype Body = Body(name: Option<string>, phone: Option<string>, countryCode: Option<string>, email: Option<string>)

  /** The row the server stores: the fields as sent, and the trimmed e-mail or `null`. */
  datatype Row = Row(name: string, phone: string, countryCode: string, email: Option<string>)

  /** A JavaScript truthiness test on a string field: present and not empty. */
  predicate Given(v: Option<string>) {
    v.Some? && v.value != []
  }

  const FieldsRequired: string := "Name, phone, and country code are required"
  const InvalidEmail: string := "Invalid email format"

  /** `email && email.trim() ? email.trim() : null`. */
  function StoredEmail(email: Option<string>): (r: Option<string>)
    ensures r.Some? <==> email.Some? && !IsBlank(email.value)
    ensures r.Some? ==> r.value == Trim(email.value) && r.value != []
  {
    if email.Some? && Trim(email.value) != [] then Some(Trim(email.value)) else None
  }

  /** The three required fields are given. */
  predicate HasRequired(b: Body) {
    Given(b.name) && Given(b.phone) && Given(b.countryCode)
  }

  /** The e-mail is absent or blank, or its trimmed value matches the address pattern. */
  predicate EmailAcceptable(b: Body) {
    StoredEmail(b.email).None? || MatchesEmailPattern(StoredEmail(b.email).value)
  }

  /** What a check makes of a request: a rejection with its status and message, or the row
      to store. */
  datatype Checked = Rejected(status: nat, error: string) | Accepted(row: Row)

  /** The checks of create and update: the required fields first, then the e-mail. */
  function CheckContact(b: Body): (r: Checked)
    ensures r.Accepted? <==> HasRequired(b) && EmailAcceptable(b)
    ensures r.Accepted? ==> r.row == Row(b.name.value, b.phone.value, b.countryCode.value, StoredEmail(b.email))
    ensures r.Rejected? ==> r.status == 400
    ensures r == Rejected(400, FieldsRequired) <==> !HasRequired(b)
  {
    if !HasRequired(b) then Rejected(400, FieldsRequired)
    else if !EmailAcceptable(b) then Rejected(400, InvalidEmail)
    else Accepted(Row(b.name.value, b.phone.value, b.countryCode.value, StoredEmail(b.email)))
  }

  /** A stored e-mail is `null` or a trimmed address of the pattern's shape. */
  lemma StoredEmailShape(b: Body)
    requires CheckContact(b).Accepted?
    ensures var e := CheckContact(b).row.email;
      e.None? || (e.value == Trim(e.value) && NoSpace(e.value) && |e.value| >= 5)
  {
    var e := CheckContact(b).row.email;
    if e.Some? {
      TrimIdempotent(b.email.value);
      EmailPatternShape(e.value);
    }
  }

  /** Update runs the same checks, and only then looks the contact up: a contact the user does
      not own gives 404. */
  function CheckUpdate(b: Body, found: bool): (r: Checked)
    ensures CheckContact(b).Rejected? ==> r == CheckContact(b)
    ensures CheckContact(b).Accepted? && !found ==> r == Rejected(404, "Contact not found")
    ensures r.Accepted? <==> CheckContact(b).Accepted? && found
  {
    var checked := CheckContact(b);
    if checked.Rejected? then checked
    else if !found then Rejected(404, "Contact not found")
    else checked
  }

  /** The register check: all three fields, then a password of at least 6 characters. */
  function RegisterError(email: Option<string>, password: Option<string>, name: Option<string>): (r: Option<string>)
    ensures r.None? <==> Given(email) && Given(password) && Given(name) && |password.value| >= 6
    ensures r == Some("All fields are required") <==> !(Given(email) && Given(password) && Given(name))
  {
    if !(Given(email) && Given(password) && Given(name)) then Some("All fields are required")
    else if |password.value| < 6 then Some("Password must be at least 6 characters")
    else None
  }

  // ---------------------------------------------------------------------------------------
  // Bulk delete

  /** `contactIds.map(id => parseInt(id, 10)).filter(id => !isNaN(id) && id > 0)`, with each
      entry already parsed (`None` for `NaN`). */
  function PositiveIds(ids: seq<Option<int>>): (r: seq<int>)
    ensures |r| <= |ids|
    ensures forall x :: x in r <==> Some(x) in ids && x > 0
  {
    if ids == [] then []
    else if ids[0].Some? && ids[0].value > 0 then [ids[0].value] + PositiveIds(ids[1..])
    else PositiveIds(ids[1..])
  }

  /** The filter keeps each positive id as often as it is listed and drops everything else. */
  lemma {:induction false} PositiveIdsCounts(ids: seq<Option<int>>)
    ensures forall x :: multiset(PositiveIds(ids))[x] == if x > 0 then multiset(ids)[Some(x)] else 0
  {
    if ids != [] {
      PositiveIdsCounts(ids[1..]);
      assert ids == [ids[0]] + ids[1..];
    }
  }

  /** Filtering two runs of ids is filtering each run, so the filter keeps the listed order. */
  lemma {:induction false} PositiveIdsAppend(a: seq<Option<int>>, b: seq<Option<int>>)
    ensures PositiveIds(a + b) == PositiveIds(a) + PositiveIds(b)
  {
    if a != [] {
      PositiveIdsAppend(a[1..], b);
      assert (a + b)[0] == a[0] && (a + b)[1..] == a[1..] + b;
      if a[0].Some? && a[0].value > 0 {
        assert [a[0].value] + (PositiveIds(a[1..]) + PositiveIds(b)) == [a[0].value] + PositiveIds(a[1..]) + PositiveIds(b);
      }
    } else {
      assert a + b == b;
    }
  }

  /** `validIds.map(() => '?').join(', ')`. */
  function Placeholders(n: nat): (r: string)
    ensures |r| == if n == 0 then 0 else 3 * n - 2
    ensures forall i :: 0 <= i < |r| ==> r[i] == if i % 3 == 0 then '?' else if i % 3 == 1 then ',' else ' '
  {
    if n == 0 then ""
    else if n == 1 then "?"
    else Placeholders(n - 1) + ", ?"
  }

  /** The rows a `DELETE ... WHERE id IN (...) AND user_id = ?` removes: the listed ids the
      user owns. */
  function Removed(ids: seq<int>, owned: set<int>): set<int> {
    set x | x in ids && x in owned
  }

  /** A list has at least as many entries as it has distinct owned ones. */
  lemma {:induction false} RemovedBound(ids: seq<int>, owned: set<int>)
    ensures |Removed(ids, owned)| <= |ids|
  {
    if ids != [] {
      RemovedBound(ids[1..], owned);
      var rest := Removed(ids[1..], owned);
      if ids[0] in owned {
        assert Removed(ids, owned) == rest + {ids[0]};
      } else {
        assert Removed(ids, owned) == rest;
      }
    }
  }

  /** The answer to a bulk delete. */
  datatype DeleteResult = DeleteRejected(error: string) | Deleted(placeholders: string, deletedCount: nat, deletedIds: seq<int>)

  const NotNonEmptyArray: string := "Contact IDs must be a non-empty array"
  const NoValidIds: string := "No valid contact IDs provided"

  /** The Express handler: reject a missing or empty list, keep the positive ids, reject when
      none is left, delete, and report the first `changes` valid ids as deleted. `contactIds`
      is `None` when the body's field is not an array; `owned` are the user's contact ids. */
  function BulkDeleteAsWritten(contactIds: Option<seq<Option<int>>>, owned: set<int>): (r: DeleteResult)
    ensures contactIds.None? || contactIds.value == [] ==> r == DeleteRejected(NotNonEmptyArray)
    ensures contactIds.Some? && contactIds.value != [] && PositiveIds(contactIds.value) == [] ==> r == DeleteRejected(NoValidIds)
    ensures contactIds.Some? && PositiveIds(contactIds.value) != [] ==> r.Deleted?
    ensures r.Deleted? ==> var valid := PositiveIds(contactIds.value);
      valid != [] && r.placeholders == Placeholders(|valid|) &&
      r.deletedCount == |Removed(valid, owned)| <= |valid| && r.deletedIds == valid[..r.deletedCount]
  {
    if contactIds.None? || contactIds.value == [] then DeleteRejected(NotNonEmptyArray)
    else
      var valid := PositiveIds(contactIds.value);
      if valid == [] then DeleteRejected(NoValidIds)
      else
        var changes := |Removed(valid, owned)|;
        RemovedBound(valid, owned);
        Deleted(Placeholders(|valid|), changes, valid[..changes])
  }

  /** The reported ids can name a contact that was not deleted: of the ids 1 and 2, the user
      owns only 2, one row goes, and 1 is reported. */
  lemma BulkDeleteReportsUndeleted()
    ensures var r := BulkDeleteAsWritten(Some([Some(1), Some(2)]), {2});
      r.Deleted? && r.deletedIds == [1] && 1 !in {2}
  {
    var valid := PositiveIds([Some(1), Some(2)]);
    assert valid == [1, 2] by {
      assert PositiveIds([Some(2)]) == [2] by {
        assert [Some(2)][1..] == [];
      }
      assert [Some(1), Some(2)][1..] == [Some(2)];
    }
    assert Removed(valid, {2}) == {2} by {
      assert forall x :: x in Removed(valid, {2}) <==> x == 2;
    }
  }

  /** The listed ids the user owns, each once: what `RETURNING id` reports. */
  function OwnedOnce(ids: seq<int>, owned: set<int>): (r: seq<int>)
    ensures forall x :: x in r <==> x in ids && x in owned
    ensures forall i, j :: 0 <= i < j < |r| ==> r[i] != r[j]
  {
    if ids == [] then []
    else
      var rest := OwnedOnce(ids[1..], owned);
      if ids[0] in owned && ids[0] !in rest then [ids[0]] + rest else rest
  }

  /** A list without repetitions has as many entries as distinct ones. */
  lemma {:induction false} DistinctCard(s: seq<int>)
    requires forall i, j :: 0 <= i < j < |s| ==> s[i] != s[j]
    ensures |set x | x in s| == |s|
  {
    if s != [] {
      DistinctCard(s[1..]);
      assert (set x | x in s) == (set x | x in s[1..]) + {s[0]};
      assert s[0] !in s[1..] by {
        forall k | 0 <= k < |s[1..]|
          ensures s[1..][k] != s[0]
        {
          assert s[1..][k] == s[k + 1];
        }
      }
    }
  }

  /** The handler as intended: the same checks, and the ids actually deleted reported, as
      the serverless store's `RETURNING id` does. */
  function BulkDelete(contactIds: Option<seq<Option<int>>>, owned: set<int>): (r: DeleteResult)
    ensures contactIds.None? || contactIds.value == [] ==> r == DeleteRejected(NotNonEmptyArray)
    ensures contactIds.Some? && contactIds.value != [] && PositiveIds(contactIds.value) == [] ==> r == DeleteRejected(NoValidIds)
    ensures contactIds.Some? && PositiveIds(contactIds.value) != [] ==> r.Deleted?
    ensures r.Deleted? ==> var valid := PositiveIds(contactIds.value);
      valid != [] && r.placeholders == Placeholders(|valid|) &&
      (forall x :: x in r.deletedIds <==> x in valid && x in owned) &&
      |r.deletedIds| == r.deletedCount == |Removed(valid, owned)|
  {
    if contactIds.None? || contactIds.value == [] then DeleteRejected(NotNonEmptyArray)
    else
      var valid := PositiveIds(contactIds.value);
      if valid == [] then DeleteRejected(NoValidIds)
      else
        var ids := OwnedOnce(valid, owned);
        DistinctCard(ids);
        assert (set x | x in ids) == Removed(valid, owned);
        Deleted(Placeholders(|valid|), |ids|, ids)
  }

  // ---------------------------------------------------------------------------------------
  // Bulk create

  /** The message of the `i`th (0-based) contact of a bulk create when it is rejected; the
      message counts from 1. */
  function ItemError(b: Body, i: nat): string
    requires !HasRequired(b) || !EmailAcceptable(b)
  {
    if !HasRequired(b) then "Contact " + NatToString(i + 1) + ": " + FieldsRequired
    else "Contact " + NatToString(i + 1) + " (" + b.name.value + "): " + InvalidEmail
  }

  /** The valid rows and the error messages after the first `n` contacts, as the loop leaves
      them: each contact gives one row or one message. */
  function Screened(cs: seq<Body>, n: nat): (r: (seq<Row>, seq<string>))
    requires n <= |cs|
    ensures |r.0| + |r.1| == n
  {
    if n == 0 then ([], [])
    else
      var (valid, errors) := Screened(cs, n - 1);
      var b := cs[n - 1];
      match CheckContact(b)
      case Accepted(row) => (valid + [row], errors)
      case Rejected(_, _) => (valid, errors + [ItemError(b, n - 1)])
  }

  /** The bulk-create loop: each contact is checked like a single create and lands either in
      `validContacts` or, as a numbered message, in `errors`. */
  method ScreenContacts(cs: seq<Body>) returns (valid: seq<Row>, errors: seq<string>)
    ensures (valid, errors) == Screened(cs, |cs|)
  {
    valid, errors := [], [];
    for i := 0 to |cs|
      invariant (valid, errors) == Screened(cs, i)
    {
      var b := cs[i];
      if !HasRequired(b) {
        errors := errors + ["Contact " + NatToString(i + 1) + ": " + FieldsRequired];
        continue;
      }
      if StoredEmail(b.email).Some? {
        if !MatchesEmailPattern(StoredEmail(b.email).value) {
          errors := errors + ["Contact " + NatToString(i + 1) + " (" + b.name.value + "): " + InvalidEmail];
          continue;
        }
      }
      valid := valid + [Row(b.name.value, b.phone.value, b.countryCode.value, StoredEmail(b.email))];
    }
  }

  /** The rows of the accepted contacts, in input order. */
  function AcceptedRows(cs: seq<Body>): (r: seq<Row>)
    ensures |r| <= |cs|
  {
    if cs == [] then []
    else
      var rest := AcceptedRows(cs[1..]);
      match CheckContact(cs[0])
      case Accepted(row) => [row] + rest
      case Rejected(_, _) => rest
  }

  lemma {:induction false} AcceptedRowsSnoc(cs: seq<Body>, b: Body)
    ensures AcceptedRows(cs + [b]) == AcceptedRows(cs) + (if CheckContact(b).Accepted? then [CheckContact(b).row] else [])
  {
    if cs == [] {
      assert [b][1..] == [];
    } else {
      assert (cs + [b])[1..] == cs[1..] + [b];
      AcceptedRowsSnoc(cs[1..], b);
    }
  }

  /** Screening partitions the input: the rows are exactly the accepted contacts' rows in input order, and the `k`th message names a
      rejected contact's 1-based position. */
  lemma {:induction false} ScreenedPartition(cs: seq<Body>, n: nat)
    requires n <= |cs|
    ensures var (valid, errors) := Screened(cs, n);
      valid == AcceptedRows(cs[..n]) &&
      forall k :: 0 <= k < |errors| ==>
        exists i :: 0 <= i < n && CheckContact(cs[i]).Rejected? && errors[k] == ItemError(cs[i], i)
  {
    if n > 0 {
      ScreenedPartition(cs, n - 1);
      TakeOneMore(cs, n - 1);
      AcceptedRowsSnoc(cs[..n - 1], cs[n - 1]);
    }
  }

  /** The answer to a bulk create. `BadRequest` carries the `details` list when it has one. */
  datatype CreateResult =
    | BadRequest(error: string, details: seq<string>)
    | Imported(created: seq<Row>, importedCount: nat, skippedCount: nat, errors: Option<seq<string>>)

  /** The bulk-create handler: reject a missing or empty list, screen the contacts, reject
      when none is valid (with every message), otherwise store the valid ones and report the
      counts and, when there are any, the messages. `contacts` is `None` when the body's field
      is not an array. */
  method BulkCreate(contacts: Option<seq<Body>>) returns (result: CreateResult)
    ensures contacts.None? || contacts.value == [] ==> result == BadRequest("Contacts must be a non-empty array", [])
    ensures contacts.Some? && contacts.value != [] ==>
      var (valid, errors) := Screened(contacts.value, |contacts.value|);
      result == if valid == [] then BadRequest("No valid contacts to import", errors)
                else Imported(valid, |valid|, |contacts.value| - |valid|, if errors != [] then Some(errors) else None)
  {
    if contacts.None? || contacts.value == [] {
      return BadRequest("Contacts must be a non-empty array", []);
    }
    var valid, errors := ScreenContacts(contacts.value);
    if |valid| == 0 {
      return BadRequest("No valid contacts to import", errors);
    }
    result := Imported(valid, |valid|, |contacts.value| - |valid|, if |errors| > 0 then Some(errors) else None);
  }

  /** The counts of an import add up: the skipped count is the number of messages, and with
      the imported count makes the input's length; a rejected import lists one message per
      contact. */
  lemma ImportCounts(cs: seq<Body>)
    requires cs != []
    ensures var (valid, errors) := Screened(cs, |cs|);
      (valid != [] ==> |cs| - |valid| == |errors| && |valid| + |errors| == |cs|) &&
      (valid == [] ==> |errors| == |cs| && forall b :: b in cs ==> CheckContact(b).Rejected?)
  {
    ScreenedPartition(cs, |cs|);
    assert cs[..|cs|] == cs;
    var (valid, errors) := Screened(cs, |cs|);
    if valid == [] {
      forall b | b in cs
        ensures CheckContact(b).Rejected?
      {
        NoAcceptedRows(cs, b);
      }
    }
  }

  lemma {:induction false} NoAcceptedRows(cs: seq<Body>, b: Body)
    requires AcceptedRows(cs) == [] && b in cs
    ensures CheckContact(b).Rejected?
  {
    if cs[0] != b {
      NoAcceptedRows(cs[1..], b);
    }
  }
}
