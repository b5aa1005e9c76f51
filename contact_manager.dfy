/** The state of the contact manager screen: the loaded contacts, the selection, the pending
    delete, and the handlers that change them (load, add, update, select, delete, export,
    import). Server calls are replaced by their answers, passed in as parameters: `None` is
    a call that failed. */
module ContactManager {
  import opened Text
  import opened Countries
  import opened VcfDecode
  import opened VcfEncode
  import opened FormRules
  import EditContact

  /** A contact row as the server returns it; a `null` column is held as `""`. */
  datatype StoredRow = StoredRow(id: nat, name: string, phone: string, countryCode: string, email: string)

  /** What the delete dialog is about: nothing, one contact, or the selection (`'bulk'`). */
  datatype DeleteTarget = NoTarget | Single(id: nat) | Bulk

  /** The file the export offers for download. */
  datatype Download = Download(fileName: string, text: string)

  /** How an import ended. */
  datatype ImportOutcome =
    | NotVcf                               // the file name does not end in `.vcf`
    | NothingFound                         // the file holds no contact the parser accepts
    | Declined                             // the user did not confirm
    | Failed(payload: seq<NewContact>)     // the server refused the batch
    | Imported(payload: seq<NewContact>)   // the server stored the batch

  // ---------------------------------------------------------------------------------------
  // Loading

  /** The `candidates[0]?.code` step: the longest table code whose digits begin `digits`. */
  function InferredCode(digits: string): (r: Option<string>)
    ensures r.Some? <==> exists c :: c in Table && StartsWith(digits, CodeDigits(c))
    ensures r.Some? ==> forall c :: c in Table && StartsWith(digits, CodeDigits(c)) ==> r.value == c.code
  {
    LongestPrefixUnique(digits);
    var e := LongestPrefixEntry(digits);
    if e.Some? then Some(e.value.code) else None
  }

  /** The code a loaded contact gets: the stored one, else the inferred one, else `+91`. */
  function LoadCountryCode(storedCode: string, phone: string): string {
    if storedCode != "" then storedCode
    else match InferredCode(DigitsOf(phone))
      case Some(code) => code
      case None => "+91"
  }

  /** The phone a loaded contact shows: `<code> <digits>` when the code's digits do not lead
      the number's digits (or the stored phone is empty), else the stored phone. */
  function DisplayPhone(phone: string, countryCode: string): string {
    var digits := DigitsOf(phone);
    var cc := DigitsOf(countryCode);
    if cc != [] && !StartsWith(digits, cc) then countryCode + " " + digits
    else if phone != "" then phone
    else countryCode + " " + digits
  }

  /** The transform `fetchContacts` applies to each stored row. */
  function LoadContact(row: StoredRow): Contact {
    var code := LoadCountryCode(row.countryCode, row.phone);
    Contact(row.id, row.name, DisplayPhone(row.phone, code), code, row.email)
  }

  /** The transform the add, update and import handlers apply to a row the server returns:
      the fields as they are, with no inference. */
  function FromRow(row: StoredRow): Contact {
    Contact(row.id, row.name, row.phone, row.countryCode, row.email)
  }

  /** The loaded code: a stored code wins; without one, the only table code whose digits begin
      the phone's digits; without such a code, `+91`. */
  lemma LoadCodePrecedence(storedCode: string, phone: string)
    ensures storedCode != "" ==> LoadCountryCode(storedCode, phone) == storedCode
    ensures storedCode == "" ==>
      forall c :: c in Table && StartsWith(DigitsOf(phone), CodeDigits(c)) ==> LoadCountryCode(storedCode, phone) == c.code
    ensures storedCode == "" && (forall c :: c in Table ==> !StartsWith(DigitsOf(phone), CodeDigits(c))) ==>
      LoadCountryCode(storedCode, phone) == "+91"
  {
  }

  /** `+91` is in the table, so a contact loaded without a stored code always has a table code. */
  lemma LoadedCodeInTable(phone: string)
    ensures exists c :: c in Table && c.code == LoadCountryCode("", phone)
  {
    var code := LoadCountryCode("", phone);
    var digits := DigitsOf(phone);
    if exists c :: c in Table && StartsWith(digits, CodeDigits(c)) {
      var c :| c in Table && StartsWith(digits, CodeDigits(c));
      assert code == c.code;
    } else {
      TableShape();
      assert Table[0] in Table;
    }
  }

  /** Loading never loses or changes the national number: the shown phone's digits are the
      code's digits followed by the national number of the stored phone. */
  lemma DisplayKeepsNational(phone: string, countryCode: string)
    ensures DigitsOf(DisplayPhone(phone, countryCode)) == DigitsOf(countryCode) + National(countryCode, phone)
  {
    var digits := DigitsOf(phone);
    var cc := DigitsOf(countryCode);
    if cc != [] && !StartsWith(digits, cc) {
      DigitsOfJoined(countryCode, digits);
    } else if phone != "" {
      if cc == [] {
        assert cc + digits == digits;
      }
    } else {
      DigitsOfJoined(countryCode, digits);
      assert digits == [];
    }
  }

  /** So the shown phone's digits always begin with the code's digits, and exporting the
      loaded contact writes the code exactly once. */
  lemma LoadedPhoneLeadsWithCode(row: StoredRow)
    ensures var c := LoadContact(row);
      StartsWith(DigitsOf(c.phone), DigitsOf(c.countryCode)) &&
      National(c.countryCode, c.phone) == National(c.countryCode, row.phone)
  {
    var c := LoadContact(row);
    var cc := DigitsOf(c.countryCode);
    var n := National(c.countryCode, row.phone);
    DisplayKeepsNational(row.phone, c.countryCode);
    assert DigitsOf(c.phone) == cc + n;
    assert (cc + n)[..|cc|] == cc;
    if cc != [] {
      assert (cc + n)[|cc|..] == n;
    } else {
      assert cc + n == n;
    }
  }

  // ---------------------------------------------------------------------------------------
  // Lists filtered by id

  /** `ids.filter(x => x !== id)`. */
  function Without(ids: seq<nat>, id: nat): (r: seq<nat>)
    ensures |r| <= |ids|
    ensures forall x :: x in r <==> x in ids && x != id
  {
    if ids == [] then []
    else if ids[0] == id then Without(ids[1..], id)
    else [ids[0]] + Without(ids[1..], id)
  }

  /** The selection toggle: an id that is selected is removed (every copy), any other id is
      appended. */
  function Toggled(ids: seq<nat>, id: nat): seq<nat> {
    if id in ids then Without(ids, id) else ids + [id]
  }

  /** No id occurs twice. */
  predicate NoDuplicates(ids: seq<nat>) {
    forall i, j :: 0 <= i < j < |ids| ==> ids[i] != ids[j]
  }

  /** Removing an id from a list that does not hold it changes nothing. */
  lemma {:induction false} WithoutAbsent(ids: seq<nat>, id: nat)
    requires id !in ids
    ensures Without(ids, id) == ids
  {
    if ids != [] {
      WithoutAbsent(ids[1..], id);
      assert [ids[0]] + ids[1..] == ids;
    }
  }

  /** Removing an id keeps the others in their order and introduces no duplicate. */
  lemma {:induction false} WithoutNoDuplicates(ids: seq<nat>, id: nat)
    requires NoDuplicates(ids)
    ensures NoDuplicates(Without(ids, id))
  {
    if ids != [] {
      assert NoDuplicates(ids[1..]);
      WithoutNoDuplicates(ids[1..], id);
      var rest := Without(ids[1..], id);
      if ids[0] != id {
        assert ids[0] !in ids[1..];
        assert ids[0] !in rest;
        var r := [ids[0]] + rest;
        forall i, j | 0 <= i < j < |r|
          ensures r[i] != r[j]
        {
          if i == 0 {
            assert r[j] == rest[j - 1];
            assert r[j] in rest;
          } else {
            assert r[i] == rest[i - 1] && r[j] == rest[j - 1];
          }
        }
      }
    }
  }

  /** The toggle flips exactly one id's membership. */
  lemma ToggleFlips(ids: seq<nat>, id: nat)
    ensures id in Toggled(ids, id) <==> id !in ids
    ensures forall x :: x != id ==> (x in Toggled(ids, id) <==> x in ids)
  {
  }

  /** The toggle keeps a selection free of duplicates. */
  lemma ToggleNoDuplicates(ids: seq<nat>, id: nat)
    requires NoDuplicates(ids)
    ensures NoDuplicates(Toggled(ids, id))
  {
    if id in ids {
      WithoutNoDuplicates(ids, id);
    } else {
      var r := ids + [id];
      forall i, j | 0 <= i < j < |r|
        ensures r[i] != r[j]
      {
        if j == |ids| {
          assert r[i] == ids[i];
        }
      }
    }
  }

  /** Toggling an unselected id twice gives the selection back. */
  lemma ToggleTwice(ids: seq<nat>, id: nat)
    requires id !in ids
    ensures Toggled(Toggled(ids, id), id) == ids
  {
    var once := ids + [id];
    assert id in once;
    if ids == [] {
      assert once == [id];
      assert once[1..] == [];
    } else {
      ToggleTwiceFromFront(ids, id);
    }
  }

  lemma {:induction false} ToggleTwiceFromFront(ids: seq<nat>, id: nat)
    requires id !in ids
    ensures Without(ids + [id], id) == ids
  {
    if ids == [] {
      assert [id][1..] == [];
    } else {
      assert (ids + [id])[1..] == ids[1..] + [id];
      ToggleTwiceFromFront(ids[1..], id);
      assert [ids[0]] + ids[1..] == ids;
    }
  }

  /** `contacts.filter(c => ids.includes(c.id))`: the contacts whose id is in `ids`, in list
      order. */
  function KeepSelected(cs: seq<Contact>, ids: seq<nat>): (r: seq<Contact>)
    ensures |r| <= |cs|
    ensures forall c :: c in r <==> c in cs && c.id in ids
  {
    if cs == [] then []
    else if cs[0].id in ids then [cs[0]] + KeepSelected(cs[1..], ids)
    else KeepSelected(cs[1..], ids)
  }

  /** `contacts.filter(c => !ids.includes(c.id))`: the contacts whose id is not in `ids`, in
      list order. */
  function DropSelected(cs: seq<Contact>, ids: seq<nat>): (r: seq<Contact>)
    ensures |r| <= |cs|
    ensures forall c :: c in r <==> c in cs && c.id !in ids
  {
    if cs == [] then []
    else if cs[0].id in ids then DropSelected(cs[1..], ids)
    else [cs[0]] + DropSelected(cs[1..], ids)
  }

  /** The exported contacts and the contacts a bulk delete leaves are a partition of the list:
      together they are the list, counted with multiplicity. */
  lemma {:induction false} KeepDropPartition(cs: seq<Contact>, ids: seq<nat>)
    ensures multiset(KeepSelected(cs, ids)) + multiset(DropSelected(cs, ids)) == multiset(cs)
    ensures |KeepSelected(cs, ids)| + |DropSelected(cs, ids)| == |cs|
  {
    if cs != [] {
      KeepDropPartition(cs[1..], ids);
      assert cs == [cs[0]] + cs[1..];
    }
  }

  /** An order-preserving filter: `sub` is `cs` with some entries left out. */
  predicate Subsequence(sub: seq<Contact>, cs: seq<Contact>)
    decreases |cs|
  {
    if sub == [] then true
    else if cs == [] then false
    else if sub[0] == cs[0] then Subsequence(sub[1..], cs[1..])
    else Subsequence(sub, cs[1..])
  }

  /** Both filters keep the list's order. */
  lemma {:induction false} FiltersKeepOrder(cs: seq<Contact>, ids: seq<nat>)
    ensures Subsequence(KeepSelected(cs, ids), cs)
    ensures Subsequence(DropSelected(cs, ids), cs)
  {
    if cs != [] {
      FiltersKeepOrder(cs[1..], ids);
      var k, d := KeepSelected(cs[1..], ids), DropSelected(cs[1..], ids);
      if cs[0].id in ids {
        assert ([cs[0]] + k)[1..] == k;
        SubsequenceSkip(d, cs);
      } else {
        assert ([cs[0]] + d)[1..] == d;
        SubsequenceSkip(k, cs);
      }
    }
  }

  /** A subsequence of the tail is a subsequence of the list. */
  lemma {:induction false} SubsequenceSkip(sub: seq<Contact>, cs: seq<Contact>)
    requires cs != [] && Subsequence(sub, cs[1..])
    ensures Subsequence(sub, cs)
    decreases |cs|, |sub|
  {
    if sub != [] && sub[0] == cs[0] {
      // `sub[1..]` is then a subsequence of `cs[1..]` as well
      SubsequenceTail(sub, cs[1..]);
    }
  }

  /** Dropping the head of a subsequence leaves a subsequence. */
  lemma {:induction false} SubsequenceTail(sub: seq<Contact>, cs: seq<Contact>)
    requires sub != [] && Subsequence(sub, cs)
    ensures Subsequence(sub[1..], cs)
    decreases |cs|, |sub|
  {
    if cs != [] {
      if sub[0] == cs[0] {
        if sub[1..] != [] {
          SubsequenceSkip(sub[1..], cs);
        }
      } else {
        SubsequenceTail(sub, cs[1..]);
        if sub[1..] != [] {
          SubsequenceSkip(sub[1..], cs);
        }
      }
    }
  }

  /** `contacts.map(c => c.id === t.id ? t : c)`. */
  function ReplaceById(cs: seq<Contact>, t: Contact): (r: seq<Contact>)
    ensures |r| == |cs|
    ensures forall i :: 0 <= i < |cs| ==> r[i] == (if cs[i].id == t.id then t else cs[i])
  {
    seq(|cs|, i requires 0 <= i < |cs| => if cs[i].id == t.id then t else cs[i])
  }

  /** The phone the edit handler sends: `<code> <digits>`. */
  function CombinedPhone(countryCode: string, phone: string): (r: string)
    ensures DigitsOf(r) == DigitsOf(countryCode) + DigitsOf(phone)
  {
    DigitsOfJoined(countryCode, DigitsOf(phone));
    countryCode + " " + DigitsOf(phone)
  }

  /** The body the update sends: the dialog's fields, with the phone rebuilt as the code, a
      space and the digits of the dialog's phone. */
  function UpdateRequest(data: EditContact.EditPayload): (r: NewContact)
    ensures r.name == data.name && r.countryCode == data.countryCode && r.email == data.email
    ensures DigitsOf(r.phone) == DigitsOf(data.countryCode) + DigitsOf(data.phone)
    ensures StartsWith(r.phone, data.countryCode + " ")
  {
    NewContact(data.name, data.countryCode, CombinedPhone(data.countryCode, data.phone), data.email)
  }

  /** The row the import sends for one parsed contact. */
  function NormalizeForServer(p: ParsedContact): (r: NewContact)
    ensures r.name == p.name && r.countryCode == p.countryCode
    ensures DigitsOf(r.phone) == DigitsOf(p.countryCode) + DigitsOf(p.phone)
    ensures r.email.None? <==> p.email == ""
  {
    NewContact(p.name, p.countryCode, CombinedPhone(p.countryCode, p.phone),
      if p.email == "" then None else Some(p.email))
  }

  /** `file.name.toLowerCase().endsWith('.vcf')`. */
  predicate HasVcfExtension(fileName: string) {
    var lower := ToLower(fileName);
    |lower| >= 4 && lower[|lower| - 4..] == ".vcf"
  }

  /** The extension check ignores case: the name's last four characters spell `.vcf` in any
      mix of cases. */
  lemma VcfExtensionIgnoresCase(fileName: string)
    ensures HasVcfExtension(fileName) <==>
      |fileName| >= 4 && fileName[|fileName| - 4] == '.' &&
      LowerChar(fileName[|fileName| - 3]) == 'v' &&
      LowerChar(fileName[|fileName| - 2]) == 'c' &&
      LowerChar(fileName[|fileName| - 1]) == 'f'
  {
    var lower := ToLower(fileName);
    var n := |fileName|;
    if n >= 4 {
      assert LowerChar(fileName[n - 4]) == '.' <==> fileName[n - 4] == '.';
      if lower[n - 4..] == ".vcf" {
        assert lower[n - 4] == '.' && lower[n - 3] == 'v' && lower[n - 2] == 'c' && lower[n - 1] == 'f';
      }
    }
  }

  /** The contacts a server batch adds, in the server's order. */
  function FromRows(rows: seq<StoredRow>): (r: seq<Contact>)
    ensures |r| == |rows|
    ensures forall i :: 0 <= i < |rows| ==> r[i] == FromRow(rows[i])
  {
    seq(|rows|, i requires 0 <= i < |rows| => FromRow(rows[i]))
  }

  // ---------------------------------------------------------------------------------------
  // The screen's state and its handlers

  class Manager {
    var contacts: seq<Contact>
    var selected: seq<nat>
    var deleteTarget: DeleteTarget
    var bulkDeleteMode: bool

    /** The screen as it mounts: nothing loaded, nothing selected, no dialog open. */
    constructor ()
      ensures contacts == [] && selected == [] && deleteTarget == NoTarget && !bulkDeleteMode
    {
      contacts := [];
      selected := [];
      deleteTarget := NoTarget;
      bulkDeleteMode := false;
    }

    /** `fetchContacts`: on success the list becomes the loaded rows, in the server's order. */
    method FetchContacts(fetched: Option<seq<StoredRow>>)
      modifies this
      ensures fetched.Some? ==>
        |contacts| == |fetched.value| &&
        forall i :: 0 <= i < |contacts| ==> contacts[i] == LoadContact(fetched.value[i])
      ensures fetched.None? ==> contacts == old(contacts)
      ensures selected == old(selected) && deleteTarget == old(deleteTarget) && bulkDeleteMode == old(bulkDeleteMode)
    {
      if fetched.Some? {
        var rows := fetched.value;
        contacts := seq(|rows|, i requires 0 <= i < |rows| => LoadContact(rows[i]));
      }
    }

    /** `handleAddContact`: the stored contact goes to the front of the list. */
    method AddContact(created: Option<StoredRow>)
      modifies this
      ensures contacts == if created.Some? then [FromRow(created.value)] + old(contacts) else old(contacts)
      ensures selected == old(selected) && deleteTarget == old(deleteTarget) && bulkDeleteMode == old(bulkDeleteMode)
    {
      if created.Some? {
        contacts := [FromRow(created.value)] + contacts;
      }
    }

    /** `handleUpdateContact`: send the edit dialog's data with the phone rebuilt from the code
        and the digits, then put the stored contact in place of every entry with its id.
        `request` is the body sent for `data.id`; `updated` is the server's answer. */
    method UpdateContact(data: EditContact.EditPayload, updated: Option<StoredRow>) returns (request: NewContact)
      modifies this
      ensures request == UpdateRequest(data)
      ensures updated.None? ==> contacts == old(contacts)
      ensures updated.Some? ==> contacts == ReplaceById(old(contacts), FromRow(updated.value))
      ensures selected == old(selected) && deleteTarget == old(deleteTarget) && bulkDeleteMode == old(bulkDeleteMode)
    {
      request := UpdateRequest(data);
      if updated.Some? {
        contacts := ReplaceById(contacts, FromRow(updated.value));
      }
    }

    /** `handleToggleSelect`. */
    method ToggleSelect(id: nat)
      modifies this
      ensures selected == Toggled(old(selected), id)
      ensures contacts == old(contacts) && deleteTarget == old(deleteTarget) && bulkDeleteMode == old(bulkDeleteMode)
    {
      if id in selected {
        selected := Without(selected, id);
      } else {
        selected := selected + [id];
      }
    }

    /** `handleSelectAll`: clears the selection when it is as long as the shown list, and
        otherwise selects the shown list. */
    method SelectAll(shownIds: seq<nat>)
      modifies this
      ensures selected == SelectAllResult(old(selected), shownIds)
      ensures contacts == old(contacts) && deleteTarget == old(deleteTarget) && bulkDeleteMode == old(bulkDeleteMode)
    {
      if |selected| == |shownIds| {
        selected := [];
      } else {
        selected := shownIds;
      }
    }

    /** The delete buttons of a card and of the detail view: ask about one contact. */
    method RequestDelete(id: nat)
      modifies this
      ensures deleteTarget == Single(id)
      ensures contacts == old(contacts) && selected == old(selected) && bulkDeleteMode == old(bulkDeleteMode)
    {
      deleteTarget := Single(id);
    }

    /** `handleBulkDelete`: ask about the selection, if there is one. */
    method BulkDelete()
      modifies this
      ensures old(selected) != [] ==> bulkDeleteMode && deleteTarget == Bulk
      ensures old(selected) == [] ==> bulkDeleteMode == old(bulkDeleteMode) && deleteTarget == old(deleteTarget)
      ensures contacts == old(contacts) && selected == old(selected)
    {
      if |selected| > 0 {
        bulkDeleteMode := true;
        deleteTarget := Bulk;
      }
    }

    /** `confirmDelete`: after the server agrees, a bulk delete drops the selected contacts
        and clears the selection; a single delete drops the contacts with the target id. When
        the server refuses, nothing changes. */
    method ConfirmDelete(serverOk: bool)
      modifies this
      ensures !serverOk ==>
        contacts == old(contacts) && selected == old(selected) &&
        deleteTarget == old(deleteTarget) && bulkDeleteMode == old(bulkDeleteMode)
      ensures serverOk && old(bulkDeleteMode) ==>
        contacts == DropSelected(old(contacts), old(selected)) && selected == [] && !bulkDeleteMode
      ensures serverOk && !old(bulkDeleteMode) ==>
        contacts == DropSelected(old(contacts), if old(deleteTarget).Single? then [old(deleteTarget).id] else []) &&
        selected == old(selected) && !bulkDeleteMode
      ensures serverOk ==> deleteTarget == NoTarget
    {
      if !serverOk {
        return;
      }
      if bulkDeleteMode {
        contacts := DropSelected(contacts, selected);
        selected := [];
        bulkDeleteMode := false;
      } else {
        contacts := DropSelected(contacts, if deleteTarget.Single? then [deleteTarget.id] else []);
      }
      deleteTarget := NoTarget;
    }

    /** `handleCancelDelete`. */
    method CancelDelete()
      modifies this
      ensures deleteTarget == NoTarget && !bulkDeleteMode
      ensures contacts == old(contacts) && selected == old(selected)
    {
      deleteTarget := NoTarget;
      bulkDeleteMode := false;
    }

    /** `handleExportContacts`: nothing with an empty selection; otherwise the cards of the
        selected contacts in list order, under the download name, and the selection is
        cleared. With one id selected and no contact carrying it the handler fails before
        clearing. */
    method ExportContacts() returns (download: Option<Download>)
      modifies this
      ensures var toExport := KeepSelected(old(contacts), old(selected));
        var name := ExportFileName(|old(selected)|, toExport);
        if old(selected) != [] && name.Some? then
          download == Some(Download(name.value, ExportText(toExport))) && selected == []
        else
          download == None && selected == old(selected)
      ensures contacts == old(contacts) && deleteTarget == old(deleteTarget) && bulkDeleteMode == old(bulkDeleteMode)
    {
      if |selected| == 0 {
        return None;
      }
      var toExport := KeepSelected(contacts, selected);
      var text := ExportCards(toExport);
      var name := ExportFileName(|selected|, toExport);
      if name.None? {
        return None;
      }
      download := Some(Download(name.value, text));
      selected := [];
    }

    /** `handleFileChange`: check the extension, parse the file, stop when it holds no contact
        or the user declines, send the normalised contacts, and put the stored ones in front
        of the list. */
    method ImportFile(fileName: string, content: string, confirmed: bool, stored: Option<seq<StoredRow>>)
      returns (outcome: ImportOutcome)
      modifies this
      ensures !HasVcfExtension(fileName) ==> outcome == NotVcf
      ensures HasVcfExtension(fileName) && Decode(content) == [] ==> outcome == NothingFound
      ensures HasVcfExtension(fileName) && Decode(content) != [] && !confirmed ==> outcome == Declined
      ensures HasVcfExtension(fileName) && Decode(content) != [] && confirmed ==>
        var payload := seq(|Decode(content)|, i requires 0 <= i < |Decode(content)| => NormalizeForServer(Decode(content)[i]));
        outcome == (if stored.Some? then Imported(payload) else Failed(payload))
      ensures contacts == if outcome.Imported? then FromRows(stored.value) + old(contacts) else old(contacts)
      ensures selected == old(selected) && deleteTarget == old(deleteTarget) && bulkDeleteMode == old(bulkDeleteMode)
    {
      if !HasVcfExtension(fileName) {
        return NotVcf;
      }
      var parsed := ParseVcf(content);
      if |parsed| == 0 {
        return NothingFound;
      }
      if !confirmed {
        return Declined;
      }
      var payload := seq(|parsed|, i requires 0 <= i < |parsed| => NormalizeForServer(parsed[i]));
      if stored.None? {
        return Failed(payload);
      }
      contacts := FromRows(stored.value) + contacts;
      outcome := Imported(payload);
    }
  }

  /** `contactsToExport.map(card).join('')`, card after card. */
  method ExportCards(toExport: seq<Contact>) returns (text: string)
    ensures text == ExportText(toExport)
  {
    text := "";
    var i := 0;
    while i < |toExport|
      invariant 0 <= i <= |toExport|
      invariant text == ExportText(toExport[..i])
    {
      text := AppendCard(text, toExport[..i], toExport[i]);
      TakeOneMore(toExport, i);
      i := i + 1;
    }
    assert toExport[..i] == toExport;
  }

  /** The selection `handleSelectAll` leaves: none, or exactly the shown ids. It is cleared
      when the selection is as long as the shown list, whichever ids either holds. */
  function SelectAllResult(selection: seq<nat>, shown: seq<nat>): (r: seq<nat>)
    ensures r == [] || r == shown
    ensures r == [] <==> |selection| == |shown| || shown == []
  {
    if |selection| == |shown| then [] else shown
  }

  /** Select-all compares counts, not ids: a selection as long as the shown list is cleared
      even when it holds none of the shown ids, and a second press after a selecting press
      clears what the first one selected. */
  lemma SelectAllComparesCounts(selection: seq<nat>, shown: seq<nat>)
    ensures |selection| == |shown| ==> SelectAllResult(selection, shown) == []
    ensures |selection| != |shown| ==> SelectAllResult(SelectAllResult(selection, shown), shown) == []
  {
    if |selection| != |shown| {
      assert SelectAllResult(selection, shown) == shown;
    }
  }

  /** Deleting after a bulk confirmation removes every selected contact and keeps every other
      contact, in order. */
  lemma BulkDeleteEffect(cs: seq<Contact>, ids: seq<nat>)
    ensures forall c :: c in DropSelected(cs, ids) ==> c.id !in ids
    ensures forall c :: c in cs && c.id !in ids ==> c in DropSelected(cs, ids)
    ensures Subsequence(DropSelected(cs, ids), cs)
  {
    FiltersKeepOrder(cs, ids);
  }
}
