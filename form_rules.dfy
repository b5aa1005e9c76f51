/** The rules the add form and the edit dialog share: `validateContact` (identical in both),
    the routing of a server error to one field, and the body the client sends. */
module FormRules {
  import opened Text
  import opened Countries

  /** The fields of a contact form (`newContact` in the add form, `formData` in the edit
      dialog); a missing e-mail is `""`. */
  datatype FormData = FormData(name: string, phone: string, countryCode: string, email: string)

  /** The empty form, with `+91` chosen. */
  const EmptyForm: FormData := FormData("", "", "+91", "")

  /** The `errors` object of a form: one optional message per field. */
  datatype Errors = Errors(name: Option<string>, phone: Option<string>, email: Option<string>)

  const NoErrors: Errors := Errors(None, None, None)

  const NameRequired: string := "Name is required"
  const PhoneRequired: string := "Phone number is required"
  const PhoneDigitsOnly: string := "Phone number must contain only digits"
  const InvalidEmail: string := "Invalid email format"

  /** The length message names the country's digit count and name. */
  function PhoneLengthMessage(country: Country): string {
    "Phone number must be " + NatToString(country.length) + " digits for " + country.name
  }

  /** A contact as the client sends it to the server; a blank e-mail is sent as `null`. */
  datatype NewContact = NewContact(name: string, countryCode: string, phone: string, email: Option<string>)

  /** `s || null` on an already trimmed string. */
  function BlankToNull(s: string): (r: Option<string>)
    ensures r.None? <==> s == []
    ensures r.Some? ==> r.value == s
  {
    if s == [] then None else Some(s)
  }

  /** The phone error of a trimmed phone: required, then digits only, then the country's
      length. */
  function PhoneError(trimmedPhone: string, country: Country): Option<string> {
    if trimmedPhone == [] then Some(PhoneRequired)
    else if !AllDigits(trimmedPhone) then Some(PhoneDigitsOnly)
    else if |trimmedPhone| != country.length then Some(PhoneLengthMessage(country))
    else None
  }

  /** The errors `validateContact` records for the form's fields. */
  function Validation(form: FormData, country: Country): Errors {
    var trimmedEmail := Trim(form.email);
    Errors(
      if Trim(form.name) == [] then Some(NameRequired) else None,
      PhoneError(Trim(form.phone), country),
      if trimmedEmail != [] && !MatchesEmailPattern(trimmedEmail) then Some(InvalidEmail) else None)
  }

  /** `validateContact`: fills a fresh errors object field by field and reports whether it
      stayed empty. */
  method ValidateContact(form: FormData, country: Country) returns (errors: Errors, valid: bool)
    ensures errors == Validation(form, country)
    ensures valid <==> errors == NoErrors
  {
    errors := NoErrors;
    var trimmedName := Trim(form.name);
    var trimmedPhone := Trim(form.phone);
    var trimmedEmail := Trim(form.email);
    if trimmedName == [] {
      errors := errors.(name := Some(NameRequired));
    }
    if trimmedPhone == [] {
      errors := errors.(phone := Some(PhoneRequired));
    } else if !AllDigits(trimmedPhone) {
      errors := errors.(phone := Some(PhoneDigitsOnly));
    } else if |trimmedPhone| != country.length {
      errors := errors.(phone := Some(PhoneLengthMessage(country)));
    }
    if trimmedEmail != [] {
      if !MatchesEmailPattern(trimmedEmail) {
        errors := errors.(email := Some(InvalidEmail));
      }
    }
    valid := errors == NoErrors;
  }

  /** The form is valid exactly when the trimmed name is not empty, the trimmed phone is a
      non-empty run of digits of the country's length, and the trimmed e-mail is empty or
      matches the address pattern. */
  lemma ValidIff(form: FormData, country: Country)
    ensures Validation(form, country) == NoErrors <==>
      Trim(form.name) != [] &&
      Trim(form.phone) != [] && AllDigits(Trim(form.phone)) && |Trim(form.phone)| == country.length &&
      (Trim(form.email) == [] || MatchesEmailPattern(Trim(form.email)))
  {
  }

  /** The three phone messages are different strings. */
  lemma PhoneMessagesDiffer(country: Country)
    ensures PhoneRequired != PhoneDigitsOnly
    ensures PhoneLengthMessage(country) != PhoneRequired
    ensures PhoneLengthMessage(country) != PhoneDigitsOnly
  {
    var m := PhoneLengthMessage(country);
    assert m[13] == 'm' && PhoneRequired[13] == 'i';
    assert m[18] == 'b' && PhoneDigitsOnly[18] == 'c';
    assert PhoneRequired[13] != PhoneDigitsOnly[13];
  }

  /** At most one phone error is reported, and which one is fixed by the precedence
      required, then digits only, then length. */
  lemma PhoneErrorPrecedence(phone: string, country: Country)
    ensures PhoneError(Trim(phone), country) == Some(PhoneRequired) <==> Trim(phone) == []
    ensures PhoneError(Trim(phone), country) == Some(PhoneDigitsOnly) <==>
      Trim(phone) != [] && !AllDigits(Trim(phone))
    ensures PhoneError(Trim(phone), country) == Some(PhoneLengthMessage(country)) <==>
      Trim(phone) != [] && AllDigits(Trim(phone)) && |Trim(phone)| != country.length
  {
    PhoneMessagesDiffer(country);
  }

  /** A phone kept to the digits of what was typed never draws the digits-only message, and
      trimming it changes nothing. */
  lemma TypedPhoneIsDigits(typed: string, country: Country)
    ensures Trim(DigitsOf(typed)) == DigitsOf(typed)
    ensures PhoneError(Trim(DigitsOf(typed)), country) != Some(PhoneDigitsOnly)
  {
    var d := DigitsOf(typed);
    if d != [] {
      assert IsDigit(d[0]) && IsDigit(d[|d| - 1]);
    }
    TrimUnchanged(d);
    PhoneMessagesDiffer(country);
  }

  /** Where the catch block puts a server error: `phone number` in the message sends it to
      the phone field, else `email` to the e-mail field, else the name field. */
  function RouteError(message: string): Errors {
    if Contains(message, "phone number") then Errors(None, Some(message), None)
    else if Contains(message, "email") then Errors(None, None, Some(message))
    else Errors(Some(message), None, None)
  }

  /** The routed error sits in exactly one field, chosen by the message's words. */
  lemma RouteErrorOneField(message: string)
    ensures var e := RouteError(message);
      (e.phone == Some(message) && e.name.None? && e.email.None? <==> Contains(message, "phone number")) &&
      (e.email == Some(message) && e.name.None? && e.phone.None? <==>
        !Contains(message, "phone number") && Contains(message, "email")) &&
      (e.name == Some(message) && e.phone.None? && e.email.None? <==>
        !Contains(message, "phone number") && !Contains(message, "email"))
  {
  }
}
