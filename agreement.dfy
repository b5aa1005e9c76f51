/** Where the client and the server meet: the body a client form sends for a contact that
    passed the form's checks is accepted by the server's create and update checks unchanged,
    and every contact an import parses clears the server's required-field check. */
module Agreement {
  import opened Text
  import opened FormRules
  import opened ServerRules
  import ContactForm
  import EditContact
  import ContactManager
  import VcfDecode

  /** The JSON body of a request as the server reads it: every field the client sends is
      present. */
  function BodyOf(p: NewContact): (r: Body)
    ensures r.name == Some(p.name) && r.phone == Some(p.phone) && r.countryCode == Some(p.countryCode)
    ensures r.email == p.email
  {
    Body(Some(p.name), Some(p.phone), Some(p.countryCode), p.email)
  }

  /** A client e-mail (trimmed, blank sent as `null`) that passed the form's pattern check
      is stored by the server exactly as sent and passes the server's pattern check. */
  lemma ClientEmailStoredAsSent(email: string)
    requires Trim(email) == [] || MatchesEmailPattern(Trim(email))
    ensures StoredEmail(BlankToNull(Trim(email))) == BlankToNull(Trim(email))
    ensures StoredEmail(BlankToNull(Trim(email))).None? ||
      MatchesEmailPattern(StoredEmail(BlankToNull(Trim(email))).value)
  {
    TrimIdempotent(email);
  }

  /** A form the add dialog lets through is stored by the create endpoint with the fields
      the client sent. The code comes from the country picker, so it is never empty. */
  lemma AddFormAccepted(form: FormData)
    requires form.countryCode != []
    requires Validation(form, ContactForm.SelectedCountry(form.countryCode)) == NoErrors
    ensures var p := ContactForm.AddPayload(form);
      CheckContact(BodyOf(p)) == Accepted(Row(p.name, p.phone, p.countryCode, p.email))
  {
    ValidIff(form, ContactForm.SelectedCountry(form.countryCode));
    ClientEmailStoredAsSent(form.email);
  }

  /** A dialog the edit form lets through is stored by the update endpoint with the fields
      of the request the update handler builds. */
  lemma EditFormAccepted(id: nat, form: FormData, contactPhone: string)
    requires form.countryCode != []
    requires Validation(form, EditContact.ResolveCountry(form.countryCode, contactPhone)) == NoErrors
    ensures var p := ContactManager.UpdateRequest(EditContact.EditPayloadOf(id, form));
      CheckContact(BodyOf(p)) == Accepted(Row(p.name, p.phone, p.countryCode, p.email))
  {
    ValidIff(form, EditContact.ResolveCountry(form.countryCode, contactPhone));
    ClientEmailStoredAsSent(form.email);
  }

  /** Every contact the import parses reaches the server with its name, phone and code, so
      a bulk create can skip it only for its e-mail. */
  lemma ImportedPassRequired(content: string)
    ensures forall p :: p in VcfDecode.Decode(content) ==>
      HasRequired(BodyOf(ContactManager.NormalizeForServer(p)))
    ensures forall p :: p in VcfDecode.Decode(content) ==>
      (CheckContact(BodyOf(ContactManager.NormalizeForServer(p))).Accepted? <==>
       EmailAcceptable(BodyOf(ContactManager.NormalizeForServer(p))))
  {
    VcfDecode.DecodedRecordsComplete(VcfDecode.ParserPatterns, VcfDecode.Cards(content));
    forall p | p in VcfDecode.Decode(content)
      ensures HasRequired(BodyOf(ContactManager.NormalizeForServer(p)))
    {
      var r := ContactManager.NormalizeForServer(p);
      assert |r.phone| >= |p.countryCode|;
    }
  }
}
