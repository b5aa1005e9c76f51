/** The add-contact form: its fields, the country picker's lookup, digit-only phone input,
    and submission (validate, send, reset or show the server's error). */
module ContactForm {
  import opened Text
  import opened Countries
  import opened FormRules

  /** `getSelectedCountry`: the row with the selected code, else the first row (`+91`). */
  function SelectedCountry(code: string): (r: Country)
    ensures r in Table
    ensures (exists c :: c in Table && c.code == code) ==> r.code == code
    ensures (forall c :: c in Table ==> c.code != code) ==> r == Table[0]
  {
    var found := Find(Table, ByCode(code));
    if found.Some? then found.value else Table[0]
  }

  /** The body the form sends: trimmed name, `<code> <trimmed phone>`, the code, and the
      trimmed e-mail or `null`. */
  function AddPayload(form: FormData): (r: NewContact)
    ensures r.name == Trim(form.name) && r.countryCode == form.countryCode
    ensures r.phone == form.countryCode + " " + Trim(form.phone)
    ensures r.email == BlankToNull(Trim(form.email))
  {
    NewContact(Trim(form.name), form.countryCode, form.countryCode + " " + Trim(form.phone), BlankToNull(Trim(form.email)))
  }

  /** For a form that validates, the sent phone is the code, a space and exactly the
      country's number of digits, and the sent name is not blank. */
  lemma ValidPayloadShape(form: FormData)
    requires Validation(form, SelectedCountry(form.countryCode)) == NoErrors
    ensures var p := AddPayload(form);
      p.name != [] &&
      exists national :: p.phone == form.countryCode + " " + national &&
        AllDigits(national) && |national| == SelectedCountry(form.countryCode).length
  {
    ValidIff(form, SelectedCountry(form.countryCode));
    var p := AddPayload(form);
    assert p.phone == form.countryCode + " " + Trim(form.phone);
  }

  /** The form's reaction to a submit: the errors it shows and the body it sends, if any. */
  method CheckAndBuild(form: FormData) returns (errors: Errors, sent: Option<NewContact>)
    ensures errors == Validation(form, SelectedCountry(form.countryCode))
    ensures sent == if errors == NoErrors then Some(AddPayload(form)) else None
  {
    var valid;
    errors, valid := ValidateContact(form, SelectedCountry(form.countryCode));
    sent := if valid then Some(AddPayload(form)) else None;
  }

  class Form {
    var newContact: FormData
    var errors: Errors

    /** The empty form, `+91`, no errors. */
    constructor ()
      ensures newContact == EmptyForm && errors == NoErrors
    {
      newContact := EmptyForm;
      errors := NoErrors;
    }

    /** `handlePhoneInput`: keep only the digits of what was typed. */
    method PhoneInput(value: string)
      modifies this
      ensures newContact == old(newContact).(phone := DigitsOf(value))
      ensures errors == old(errors)
    {
      newContact := newContact.(phone := DigitsOf(value));
    }

    /** `handleCountrySelect`. */
    method SelectCountry(code: string)
      modifies this
      ensures newContact == old(newContact).(countryCode := code)
      ensures errors == old(errors)
    {
      newContact := newContact.(countryCode := code);
    }

    /** `handleAddContact`. `serverError` is what the add call throws (`None` when it
        succeeds). An invalid form shows its errors and sends nothing; a valid one sends its
        payload, then resets on success or shows the routed server error. */
    method Submit(serverError: Option<string>) returns (sent: Option<NewContact>)
      modifies this
      ensures var errs := Validation(old(newContact), SelectedCountry(old(newContact).countryCode));
        if errs != NoErrors then
          sent == None && errors == errs && newContact == old(newContact)
        else
          sent == Some(AddPayload(old(newContact))) &&
          (serverError.None? ==> newContact == EmptyForm && errors == NoErrors) &&
          (serverError.Some? ==> newContact == old(newContact) && errors == RouteError(serverError.value))
    {
      var errs;
      errs, sent := CheckAndBuild(newContact);
      errors := errs;
      if sent.None? {
        return;
      }
      if serverError.None? {
        newContact := EmptyForm;
        errors := NoErrors;
      } else {
        errors := RouteError(serverError.value);
      }
    }
  }
}
