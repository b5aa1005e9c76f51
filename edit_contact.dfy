/** The edit dialog: the country it resolves for a contact, the national number it derives
    when it opens, digit-only phone input, and submission. */
module EditContact {
  import opened Text
  import opened Countries
  import opened FormRules
  import opened VcfEncode

  // ---------------------------------------------------------------------------------------
  // resolveCountry

  /** Step 1: a row whose code is the trimmed raw code. */
  predicate CodeStep(code: string) {
    exists c :: c in Table && c.code == code
  }

  /** Step 2: a row whose code digits are the raw code's (non-empty) digits. */
  predicate DigitsStep(code: string) {
    DigitsOf(code) != [] && exists c :: c in Table && CodeDigits(c) == DigitsOf(code)
  }

  /** Step 3: a row whose ISO country, upper-cased, is the upper-cased raw code. */
  predicate IsoStep(code: string) {
    exists c :: c in Table && ToUpper(c.iso) == ToUpper(code)
  }

  /** Step 4: a row whose code digits begin the phone's (non-empty) digits. */
  predicate PrefixStep(phone: string) {
    DigitsOf(phone) != [] && exists c :: c in Table && StartsWith(DigitsOf(phone), CodeDigits(c))
  }

  /** Step 1: `countryCodes.find(c => c.code === codeStr)`. */
  function FindCodeStep(code: string): (r: Option<Country>)
    ensures r.Some? <==> CodeStep(code)
    ensures r.Some? ==> r.value.code == code
    ensures r.Some? ==> r.value in Table
  {
    var found := Find(Table, ByCode(code));
    if found.Some? then found else None
  }

  /** Step 2: the first row whose code digits equal the raw code's non-empty digits. */
  function FindDigitsStep(code: string): (r: Option<Country>)
    ensures r.Some? <==> DigitsStep(code)
    ensures r.Some? ==> CodeDigits(r.value) == DigitsOf(code)
    ensures r.Some? ==> r.value in Table
  {
    var digits := DigitsOf(code);
    if digits == [] then None
    else
      var found := Find(Table, ByCodeDigits(digits));
      if found.Some? then found else None
  }

  /** Step 3: the first row whose upper-cased ISO country is the upper-cased raw code. */
  function FindIsoStep(code: string): (r: Option<Country>)
    ensures r.Some? <==> IsoStep(code)
    ensures r.Some? ==> ToUpper(r.value.iso) == ToUpper(code)
    ensures r.Some? ==> r.value in Table
  {
    var found := Find(Table, ByUpperIso(ToUpper(code)));
    if found.Some? then found else None
  }

  /** Step 4: the longest row whose code digits begin the phone's non-empty digits. */
  function FindPrefixStep(phone: string): (r: Option<Country>)
    ensures r.Some? <==> PrefixStep(phone)
    ensures r.Some? ==> StartsWith(DigitsOf(phone), CodeDigits(r.value))
    ensures r.Some? ==> r.value in Table
  {
    var digits := DigitsOf(phone);
    LongestPrefixUnique(digits);
    if digits == [] then None else LongestPrefixEntry(digits)
  }

  /** `resolveCountry`: exact code, then code digits, then ISO country, then the longest code
      prefixing the phone's digits, then the first row. */
  function ResolveCountry(rawCode: string, rawPhone: string): (r: Country)
    ensures r in Table
  {
    var code := Trim(rawCode);
    var byCode := FindCodeStep(code);
    if byCode.Some? then byCode.value
    else
      var byDigits := FindDigitsStep(code);
      if byDigits.Some? then byDigits.value
      else
        var byIso := FindIsoStep(code);
        if byIso.Some? then byIso.value
        else
          var byPrefix := FindPrefixStep(rawPhone);
          if byPrefix.Some? then byPrefix.value else Table[0]
  }

  /** The resolved row is the one the first applicable step names. */
  lemma ResolvePrecedence(rawCode: string, rawPhone: string)
    ensures var code, r := Trim(rawCode), ResolveCountry(rawCode, rawPhone);
      (CodeStep(code) ==> r.code == code) &&
      (!CodeStep(code) && DigitsStep(code) ==> CodeDigits(r) == DigitsOf(code)) &&
      (!CodeStep(code) && !DigitsStep(code) && IsoStep(code) ==> ToUpper(r.iso) == ToUpper(code)) &&
      (!CodeStep(code) && !DigitsStep(code) && !IsoStep(code) && PrefixStep(rawPhone) ==>
        StartsWith(DigitsOf(rawPhone), CodeDigits(r))) &&
      (!CodeStep(code) && !DigitsStep(code) && !IsoStep(code) && !PrefixStep(rawPhone) ==> r == Table[0])
  {
  }

  // ---------------------------------------------------------------------------------------
  // The national number shown when the dialog opens

  /** `country.length || 10`. */
  function TargetLength(country: Country): nat {
    if country.length == 0 then 10 else country.length
  }

  /** `s` ends `t`. */
  predicate IsSuffix(s: string, t: string) {
    |s| <= |t| && t[|t| - |s|..] == s
  }

  /** The number the opening effect derives: the phone's digits without the code's digits
      when they lead, and, when that is not of the target length, the last target-length
      digits if there are that many. */
  function DerivedNational(country: Country, phone: string): string {
    var target := TargetLength(country);
    var digits := DigitsOf(phone);
    var withoutCode := National(country.code, phone);
    if |withoutCode| != target && |digits| >= target then digits[|digits| - target..] else withoutCode
  }

  /** The opening effect's `let phoneWithoutCode` and its two reassignments. */
  method DeriveNational(country: Country, phone: string) returns (phoneWithoutCode: string)
    ensures phoneWithoutCode == DerivedNational(country, phone)
  {
    var targetLen := TargetLength(country);
    var ccDigits := DigitsOf(country.code);
    var phoneDigits := DigitsOf(phone);
    phoneWithoutCode := phoneDigits;
    if ccDigits != [] && StartsWith(phoneDigits, ccDigits) {
      phoneWithoutCode := phoneDigits[|ccDigits|..];
    }
    if |phoneWithoutCode| != targetLen && |phoneDigits| >= targetLen {
      phoneWithoutCode := phoneDigits[|phoneDigits| - targetLen..];
    }
  }

  /** The derived number is always a suffix of the phone's digits; with at least the target
      length of digits it has exactly the target length (so it is the last digits), and with
      fewer it is the digits without the leading code digits. */
  lemma DerivedNationalFacts(country: Country, phone: string)
    ensures var n, digits, target := DerivedNational(country, phone), DigitsOf(phone), TargetLength(country);
      IsSuffix(n, digits) &&
      (|digits| >= target ==> n == digits[|digits| - target..]) &&
      (|digits| < target ==> n == National(country.code, phone))
  {
    var digits := DigitsOf(phone);
    var w := National(country.code, phone);
    var cc := DigitsOf(country.code);
    if w != digits {
      assert cc + w == digits;
      assert digits[|digits| - |w|..] == w;
    }
    var target := TargetLength(country);
    if |digits| >= target && |w| == target {
      assert IsSuffix(w, digits);
    }
  }

  /** The form data the opening effect sets for a contact: its name, the derived national
      number, the resolved country's code, and its e-mail. */
  function Opened(c: Contact): FormData {
    var country := ResolveCountry(c.countryCode, c.phone);
    FormData(c.name, DerivedNational(country, c.phone), country.code, c.email)
  }

  /** The opening effect: resolve the country, derive the number, build the form data. */
  method OpenForm(c: Contact) returns (form: FormData)
    ensures form == Opened(c)
  {
    var country := ResolveCountry(c.countryCode, c.phone);
    var national := DeriveNational(country, c.phone);
    form := FormData(c.name, national, country.code, c.email);
  }

  /** A contact saved by the add form (`<code> <national>` under a table code, the national
      number of the country's length) opens in the edit dialog with the same country and the
      same national number. */
  lemma ReopenAdded(c: Contact, country: Country, national: string)
    requires country in Table
    requires AllDigits(national) && |national| == country.length
    requires c.countryCode == country.code && c.phone == country.code + " " + national
    ensures Opened(c) == FormData(c.name, national, country.code, c.email)
  {
    ReopenCountry(country, national);
    ReopenNational(country, national);
  }

  /** A table code resolves to its own row (step 1; the codes are distinct). */
  lemma ReopenCountry(country: Country, national: string)
    requires country in Table
    ensures ResolveCountry(country.code, country.code + " " + national) == country
  {
    CodeDigitsAreTail(country);
    TableShape();
    var code := country.code;
    assert IsDigit(code[|code| - 1]) by {
      assert code[|code| - 1] == code[1..][|code| - 2];
    }
    TrimUnchanged(code);
    var r := FindCodeStep(code);
    assert CodeStep(code);
    var i :| 0 <= i < |Table| && Table[i] == r.value;
    var j :| 0 <= j < |Table| && Table[j] == country;
    assert Table[i].code == Table[j].code;
  }

  /** `<code> <national>` under its own country derives `national` back. */
  lemma ReopenNational(country: Country, national: string)
    requires country in Table
    requires AllDigits(national) && |national| == country.length
    ensures DerivedNational(country, country.code + " " + national) == national
  {
    CodeDigitsAreTail(country);
    TableShape();
    var code := country.code;
    DigitsOfJoined(code, national);
    var cc := CodeDigits(country);
    assert cc != [];
    assert (cc + national)[..|cc|] == cc;
    assert (cc + national)[|cc|..] == national;
    assert National(code, code + " " + national) == national;
    assert TargetLength(country) == country.length;
  }

  // ---------------------------------------------------------------------------------------
  // The dialog's state

  /** What the dialog hands to the update handler. */
  datatype EditPayload = EditPayload(id: nat, name: string, phone: string, countryCode: string, email: Option<string>)

  /** The payload of a valid form: the trimmed name and phone, the code, and the trimmed
      e-mail or `null`. */
  function EditPayloadOf(id: nat, form: FormData): (r: EditPayload)
    ensures r.id == id && r.name == Trim(form.name) && r.phone == Trim(form.phone)
    ensures r.countryCode == form.countryCode && r.email == BlankToNull(Trim(form.email))
  {
    EditPayload(id, Trim(form.name), Trim(form.phone), form.countryCode, BlankToNull(Trim(form.email)))
  }

  /** `validateContact` against the country `getSelectedCountry` resolves, and the payload a
      valid form would send. */
  method CheckAndBuild(id: nat, form: FormData, contactPhone: string) returns (errors: Errors, payload: Option<EditPayload>)
    ensures errors == Validation(form, ResolveCountry(form.countryCode, contactPhone))
    ensures payload == if errors == NoErrors then Some(EditPayloadOf(id, form)) else None
  {
    var valid;
    errors, valid := ValidateContact(form, ResolveCountry(form.countryCode, contactPhone));
    payload := if valid then Some(EditPayloadOf(id, form)) else None;
  }

  class Dialog {
    var contactId: nat
    var contactPhone: string
    var formData: FormData
    var errors: Errors
    var isSubmitting: bool

    /** The initial form data: empty fields and `+91`. */
    constructor ()
      ensures formData == EmptyForm && errors == NoErrors && !isSubmitting
    {
      contactId, contactPhone := 0, "";
      formData := EmptyForm;
      errors := NoErrors;
      isSubmitting := false;
    }

    /** The effect that runs when the dialog shows a contact: fill the form from it and
        clear the errors. */
    method Open(c: Contact)
      modifies `formData, `errors, `contactId, `contactPhone
      ensures (formData, errors, contactId, contactPhone) == (Opened(c), NoErrors, c.id, c.phone)
    {
      formData := OpenForm(c);
      errors := NoErrors;
      contactId, contactPhone := c.id, c.phone;
    }

    /** `handlePhoneInput`: keep only the digits of what was typed. */
    method PhoneInput(value: string)
      modifies `formData
      ensures formData == old(formData).(phone := DigitsOf(value))
    {
      formData := formData.(phone := DigitsOf(value));
    }

    /** `handleCountrySelect`. */
    method SelectCountry(code: string)
      modifies `formData
      ensures formData == old(formData).(countryCode := code)
    {
      formData := formData.(countryCode := code);
    }

    /** `handleSubmit`. The errors are always recomputed; only a valid form that is not
        already submitting sends its payload. `serverError` is what the update throws
        (`None` on success): success closes the dialog, an error is routed to one field. */
    method Submit(serverError: Option<string>) returns (sent: Option<EditPayload>, closed: bool)
      modifies `errors, `isSubmitting
      ensures var errs := Validation(old(formData), ResolveCountry(old(formData).countryCode, old(contactPhone)));
        (sent, closed, errors, isSubmitting) ==
          if errs != NoErrors || old(isSubmitting) then (None, false, errs, old(isSubmitting))
          else (Some(EditPayloadOf(old(contactId), old(formData))), serverError.None?,
                if serverError.None? then NoErrors else RouteError(serverError.value), false)
    {
      var errs, payload := CheckAndBuild(contactId, formData, contactPhone);
      errors := errs;
      if payload.None? || isSubmitting {
        return None, false;
      }
      isSubmitting := true;
      sent := payload;
      closed := serverError.None?;
      if serverError.Some? {
        errors := RouteError(serverError.value);
      }
      isSubmitting := false;
    }
  }
}
