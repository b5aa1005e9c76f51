/** The vCard writer of the contact manager: `toE164`, the vCard 3.0 card of one
    contact (built by appending to a string), the export text of the selected contacts
    and the download file name. */
module VcfEncode {
  import opened Text

  /** A contact as the client holds it; a missing e-mail is held as `""`. */
  datatype Contact = Contact(id: nat, name: string, phone: string, countryCode: string, email: string)

  /** The national number of `phone` under `countryCode`: its digits, without the code's
      digits when they lead. */
  function National(countryCode: string, phone: string): (r: string)
    ensures AllDigits(r) && |r| <= |DigitsOf(phone)|
    ensures DigitsOf(countryCode) != [] && StartsWith(DigitsOf(phone), DigitsOf(countryCode)) ==>
      DigitsOf(countryCode) + r == DigitsOf(phone)
    ensures !(DigitsOf(countryCode) != [] && StartsWith(DigitsOf(phone), DigitsOf(countryCode))) ==>
      r == DigitsOf(phone)
  {
    var cc := DigitsOf(countryCode);
    var digits := DigitsOf(phone);
    if cc != [] && StartsWith(digits, cc) then
      assert cc + digits[|cc|..] == digits;
      digits[|cc|..]
    else digits
  }

  /** `toE164`: `''` for a phone without digits, otherwise `+` and the digits, with the
      code's digits put in front when they do not already lead. */
  function ToE164(countryCode: string, phone: string): (r: string)
    ensures r == [] <==> DigitsOf(phone) == []
  {
    var cc := DigitsOf(countryCode);
    var digits := DigitsOf(phone);
    if digits == [] then []
    else if cc != [] && StartsWith(digits, cc) then "+" + digits
    else if cc != [] then "+" + cc + digits
    else "+" + digits
  }

  /** A non-empty E.164 string is `+` followed by digits only: the code's digits and then
      the national number. */
  lemma ToE164Shape(countryCode: string, phone: string)
    requires DigitsOf(phone) != []
    ensures ToE164(countryCode, phone) == "+" + (DigitsOf(countryCode) + National(countryCode, phone))
    ensures AllDigits(DigitsOf(countryCode) + National(countryCode, phone))
  {
    var cc := DigitsOf(countryCode);
    var digits := DigitsOf(phone);
    var n := National(countryCode, phone);
    if cc != [] && StartsWith(digits, cc) {
      assert cc + n == digits;
    } else if cc != [] {
      assert n == digits;
    } else {
      assert cc + n == n;
    }
    AllDigitsAppend(cc, n);
  }

  /** Each line followed by CRLF, all concatenated. */
  function JoinCrlf(lines: seq<string>): string {
    if lines == [] then [] else lines[0] + "\r\n" + JoinCrlf(lines[1..])
  }

  /** One line and its CRLF. */
  function Crlf(line: string): string {
    line + "\r\n"
  }

  /** Joining two runs of lines is joining each run. */
  lemma {:induction false} JoinCrlfAppend(a: seq<string>, b: seq<string>)
    ensures JoinCrlf(a + b) == JoinCrlf(a) + JoinCrlf(b)
  {
    if a == [] {
      assert a + b == b;
    } else {
      assert (a + b)[1..] == a[1..] + b;
      JoinCrlfAppend(a[1..], b);
    }
  }

  lemma JoinCrlfOne(line: string)
    ensures JoinCrlf([line]) == Crlf(line)
  {
    assert [line][1..] == [];
  }

  /** The card's UID: the contact id and `@contact-list`. */
  function Uid(id: nat): string {
    NatToString(id) + "@contact-list"
  }

  /** A line that is written only when `present`. */
  function Optional(present: bool, line: string): seq<string> {
    if present then [line] else []
  }

  lemma JoinCrlfOptional(present: bool, line: string)
    ensures JoinCrlf(Optional(present, line)) == if present then Crlf(line) else []
  {
    if present {
      JoinCrlfOne(line);
    }
  }

  /** The lines of one exported card: the fixed header, the name twice, a TEL line only when
      there is a number, an EMAIL line only when the trimmed e-mail is not blank, and the
      end marker. */
  function CardLinesOf(uid: string, name: string, e164: string, email: string): seq<string> {
    ["BEGIN:VCARD"] + ["VERSION:3.0"] + ["UID:" + uid] + ["N:;" + name + ";;;"] + ["FN:" + name] +
    Optional(e164 != [], "TEL;TYPE=CELL:" + e164) + Optional(email != [], "EMAIL:" + email) + ["END:VCARD"]
  }

  function CardLines(c: Contact): seq<string> {
    CardLinesOf(Uid(c.id), c.name, ToE164(c.countryCode, c.phone), Trim(c.email))
  }

  /** The exported card of one contact. */
  function CardText(c: Contact): string {
    JoinCrlf(CardLines(c))
  }

  /** The text the export callback accumulates, one CRLF-terminated line after another. */
  function CardTextOf(uid: string, name: string, e164: string, email: string): string {
    Crlf("BEGIN:VCARD") + Crlf("VERSION:3.0") + Crlf("UID:" + uid) + Crlf("N:;" + name + ";;;") + Crlf("FN:" + name) +
    (if e164 != [] then Crlf("TEL;TYPE=CELL:" + e164) else []) +
    (if email != [] then Crlf("EMAIL:" + email) else []) +
    Crlf("END:VCARD")
  }

  /** The accumulated text is exactly the card's lines, each terminated by CRLF. */
  lemma CardTextIsJoin(uid: string, name: string, e164: string, email: string)
    ensures CardTextOf(uid, name, e164, email) == JoinCrlf(CardLinesOf(uid, name, e164, email))
  {
    var l1, l2, l3, l4, l5 := "BEGIN:VCARD", "VERSION:3.0", "UID:" + uid, "N:;" + name + ";;;", "FN:" + name;
    var tel, mail := Optional(e164 != [], "TEL;TYPE=CELL:" + e164), Optional(email != [], "EMAIL:" + email);
    JoinCrlfOne(l1);
    JoinCrlfOne(l2);
    JoinCrlfOne(l3);
    JoinCrlfOne(l4);
    JoinCrlfOne(l5);
    JoinCrlfOne("END:VCARD");
    JoinCrlfOptional(e164 != [], "TEL;TYPE=CELL:" + e164);
    JoinCrlfOptional(email != [], "EMAIL:" + email);
    JoinCrlfAppend([l1], [l2]);
    JoinCrlfAppend([l1] + [l2], [l3]);
    JoinCrlfAppend([l1] + [l2] + [l3], [l4]);
    JoinCrlfAppend([l1] + [l2] + [l3] + [l4], [l5]);
    JoinCrlfAppend([l1] + [l2] + [l3] + [l4] + [l5], tel);
    JoinCrlfAppend([l1] + [l2] + [l3] + [l4] + [l5] + tel, mail);
    JoinCrlfAppend([l1] + [l2] + [l3] + [l4] + [l5] + tel + mail, ["END:VCARD"]);
  }

  /** The card builder of the export callback: the locals it computes from the contact,
      then the string accumulated from them. */
  method BuildCard(c: Contact) returns (vcf: string)
    ensures vcf == CardText(c)
  {
    var fullName := c.name;
    var email := Trim(c.email);
    var e164 := ToE164(c.countryCode, c.phone);
    var uid := Uid(c.id);
    vcf := AssembleCard(uid, fullName, e164, email);
    CardTextIsJoin(uid, fullName, e164, email);
  }

  /** The `vcf +=` sequence of the export callback, one CRLF-terminated line at a time. */
  method AssembleCard(uid: string, fullName: string, e164: string, email: string) returns (vcf: string)
    ensures vcf == CardTextOf(uid, fullName, e164, email)
  {
    vcf := "BEGIN:VCARD" + "\r\n";
    vcf := vcf + ("VERSION:3.0" + "\r\n");
    vcf := vcf + ("UID:" + uid + "\r\n");
    vcf := vcf + ("N:;" + fullName + ";;;" + "\r\n");
    vcf := vcf + ("FN:" + fullName + "\r\n");
    if e164 != [] {
      vcf := vcf + ("TEL;TYPE=CELL:" + e164 + "\r\n");
    }
    if email != [] {
      vcf := vcf + ("EMAIL:" + email + "\r\n");
    }
    vcf := vcf + ("END:VCARD" + "\r\n");
  }

  /** `contactsToExport.map(card).join('')`: the cards in the order of the contacts. */
  function ExportText(cs: seq<Contact>): string {
    if cs == [] then [] else CardText(cs[0]) + ExportText(cs[1..])
  }

  /** Exporting two runs of contacts is exporting each run. */
  lemma {:induction false} ExportTextAppend(a: seq<Contact>, b: seq<Contact>)
    ensures ExportText(a + b) == ExportText(a) + ExportText(b)
  {
    if a == [] {
      assert a + b == b;
    } else {
      var ab := a + b;
      assert ab[0] == a[0] && ab[1..] == a[1..] + b;
      ExportTextAppend(a[1..], b);
      assert ExportText(ab) == CardText(a[0]) + (ExportText(a[1..]) + ExportText(b));
    }
  }

  /** Exporting one more contact appends its card. */
  lemma ExportTextSnoc(cs: seq<Contact>, c: Contact)
    ensures ExportText(cs + [c]) == ExportText(cs) + CardText(c)
  {
    ExportTextAppend(cs, [c]);
    ExportTextOne(c);
  }

  lemma ExportTextOne(c: Contact)
    ensures ExportText([c]) == CardText(c)
  {
    var one := [c];
    assert one[1..] == [];
    assert ExportText(one) == CardText(one[0]) + ExportText(one[1..]);
  }

  /** One step of the export: the text of `done` followed by the card of `c`. */
  method AppendCard(text: string, done: seq<Contact>, c: Contact) returns (extended: string)
    requires text == ExportText(done)
    ensures extended == ExportText(done + [c])
  {
    var card := BuildCard(c);
    ExportTextSnoc(done, c);
    extended := text + card;
  }

  /** A character `[a-z0-9]` matches under the `i` flag. */
  predicate IsAsciiAlnum(c: char) {
    'a' <= c <= 'z' || 'A' <= c <= 'Z' || '0' <= c <= '9'
  }

  /** `name.replace(/[^a-z0-9]/gi, '_')`. */
  function Sanitize(name: string): (r: string)
    ensures |r| == |name|
    ensures forall i :: 0 <= i < |r| ==> (IsAsciiAlnum(name[i]) ==> r[i] == name[i])
    ensures forall i :: 0 <= i < |r| ==> (!IsAsciiAlnum(name[i]) ==> r[i] == '_')
  {
    seq(|name|, i requires 0 <= i < |name| => if IsAsciiAlnum(name[i]) then name[i] else '_')
  }

  /** A sanitised name holds only letters, digits and `_`, and sanitising it again changes nothing. */
  lemma SanitizeIdempotent(name: string)
    ensures forall i :: 0 <= i < |Sanitize(name)| ==> IsAsciiAlnum(Sanitize(name)[i]) || Sanitize(name)[i] == '_'
    ensures Sanitize(Sanitize(name)) == Sanitize(name)
  {
  }

  /** The download name: the one selected contact's sanitised name, or `contacts_<n>.vcf`.
      With one id selected but no contact left to export the handler fails (`None`). */
  function ExportFileName(selectedCount: nat, toExport: seq<Contact>): (r: Option<string>)
    ensures selectedCount != 1 ==> r == Some("contacts_" + NatToString(selectedCount) + ".vcf")
    ensures selectedCount == 1 ==> (r.None? <==> toExport == [])
    ensures selectedCount == 1 && toExport != [] ==>
      var n := |toExport[0].name|;
      |r.value| == n + 4 && r.value[n..] == ".vcf" &&
      forall i :: 0 <= i < n ==> IsAsciiAlnum(r.value[i]) || r.value[i] == '_'
    ensures selectedCount == 1 && toExport != [] ==>
      var name := toExport[0].name;
      forall i :: 0 <= i < |name| ==> r.value[i] == if IsAsciiAlnum(name[i]) then name[i] else '_'
    ensures selectedCount == 1 && toExport != [] ==> r == Some(Sanitize(toExport[0].name) + ".vcf")
  {
    if selectedCount == 1 then
      if toExport == [] then None else Some(Sanitize(toExport[0].name) + ".vcf")
    else Some("contacts_" + NatToString(selectedCount) + ".vcf")
  }
}
