/** Reading an export back: what `parseVCF` returns for the text the export callback writes.
    For any dial-pattern table the decoder gives back, per exported contact, the name, the
    trimmed e-mail and the table's split of the E.164 number. With a prefix-free table that
    knows the contact's code, the split returns that code and the national number. The
    decoder's own eight-entry table is such a table for its eight codes, but it lacks two
    of the codes the forms offer (`+971` and `+65`); the table built from the ten country
    rows knows them all. */
module RoundTrip {
  import opened Text
  import Countries
  import opened VcfDecode
  import opened VcfEncode
  import opened Framing

  // ---------------------------------------------------------------------------------------
  // Scanning the lines of an exported card

  /** A line that changes none of the scanned fields. */
  predicate Inert(line: string) {
    !SetsName(line) && !SetsPhone(line) && !SetsEmail(line)
  }

  lemma {:induction false} ScanLinesAppend(ps: seq<DialPattern>, st: CardState, a: seq<string>, b: seq<string>)
    ensures ScanLinesWith(ps, st, a + b) == ScanLinesWith(ps, ScanLinesWith(ps, st, a), b)
    decreases |a|
  {
    if a == [] {
      assert a + b == b;
    } else {
      assert (a + b)[0] == a[0];
      assert (a + b)[1..] == a[1..] + b;
      ScanLinesAppend(ps, ScanLineWith(ps, st, a[0]), a[1..], b);
    }
  }

  lemma ScanOne(ps: seq<DialPattern>, st: CardState, line: string)
    ensures ScanLinesWith(ps, st, [line]) == ScanLineWith(ps, st, line)
  {
    assert [line][1..] == [];
  }

  lemma ScanInertOne(ps: seq<DialPattern>, st: CardState, line: string)
    requires Inert(line)
    ensures ScanLinesWith(ps, st, [line]) == st
  {
    ScanOne(ps, st, line);
    ScanLineFields(ps, st, line);
  }

  /** A line that trimming leaves alone and whose head is none of `FN:`, `TEL`, `EMAIL`. */
  lemma InertLine(line: string)
    requires |line| >= 2 && !IsSpace(line[0]) && !IsSpace(line[|line| - 1])
    requires line[0] != 'F' && line[0] != 'T' && (line[0] != 'E' || line[1] != 'M')
    ensures Inert(line)
  {
    TrimUnchanged(line);
    assert !StartsWith(line, "FN:") by {
      if |line| >= 3 {
        assert line[..3][0] == line[0];
      }
    }
    assert !StartsWith(line, "TEL") by {
      if |line| >= 3 {
        assert line[..3][0] == line[0];
      }
    }
    assert !StartsWith(line, "EMAIL") by {
      if |line| >= 5 {
        assert line[..5][0] == line[0] && line[..5][1] == line[1];
      }
    }
  }

  lemma VersionLineInert()
    ensures Inert("VERSION:3.0")
  {
    var l := "VERSION:3.0";
    InertLine(l);
  }

  lemma UidLineInert(uid: string)
    requires uid != [] && !IsSpace(uid[|uid| - 1])
    ensures Inert("UID:" + uid)
  {
    var u := "UID:" + uid;
    assert u[0] == 'U' && u[|u| - 1] == uid[|uid| - 1];
    InertLine(u);
  }

  lemma NLineInert(name: string)
    ensures Inert("N:;" + name + ";;;")
  {
    var n := "N:;" + name + ";;;";
    assert n[0] == 'N' && n[|n| - 1] == ';';
    InertLine(n);
  }

  lemma EndLineInert()
    ensures Inert("END:VCARD")
  {
    var l := "END:VCARD";
    assert l[0] == 'E' && l[1] == 'N';
    InertLine(l);
  }

  /** The `FN:` line of a trimmed name sets exactly that name. */
  lemma NameLineSets(name: string)
    requires Trim(name) == name
    ensures SetsName("FN:" + name) && NameValue("FN:" + name) == name
    ensures !SetsPhone("FN:" + name) && !SetsEmail("FN:" + name)
  {
    var l := "FN:" + name;
    assert name != [] ==> l[|l| - 1] == name[|name| - 1];
    TrimUnchanged(l);
    assert l[..3] == "FN:";
    assert l[3..] == name;
    FnLineKind(l);
  }

  /** A trimmed line that starts with `F` sets neither the phone nor the e-mail. */
  lemma FnLineKind(l: string)
    requires Trim(l) == l && l != [] && l[0] == 'F'
    ensures !SetsPhone(l) && !SetsEmail(l)
  {
    assert !StartsWith(l, "TEL") by {
      if |l| >= 3 { assert l[..3][0] != "TEL"[0]; }
    }
    assert !StartsWith(l, "EMAIL") by {
      if |l| >= 5 { assert l[..5][0] != "EMAIL"[0]; }
    }
  }

  /** The TEL line of an E.164 number is its own trim and captures the number. */
  lemma TelLineValue(ds: string)
    requires ds != [] && AllDigits(ds)
    ensures var l := "TEL;TYPE=CELL:" + ("+" + ds);
      Trim(l) == l && StartsWith(l, "TEL") && ColonValue(l) == Some("+" + ds) && l[0] == 'T'
  {
    var e := "+" + ds;
    var l := "TEL;TYPE=CELL:" + e;
    assert e[|e| - 1] == ds[|ds| - 1];
    assert l[|l| - 1] == e[|e| - 1];
    TrimUnchanged(l);
    assert l[..3] == "TEL";
    DigitsClean(ds);
    PlainClean("+");
    NoLineTerminatorAppend("+", ds);
    PlainClean("TEL;TYPE=CELL:");
    NoLineTerminatorAppend("TEL;TYPE=CELL:", e);
    assert l[13] == ':' && l[14..] == e;
    ColonValueFirstColon(l, 13);
  }

  /** An E.164 number is its own trim and holds no white space. */
  lemma E164Plain(ds: string)
    requires ds != [] && AllDigits(ds)
    ensures Trim("+" + ds) == "+" + ds && StripSpace("+" + ds) == "+" + ds
  {
    var e := "+" + ds;
    assert e[|e| - 1] == ds[|ds| - 1];
    TrimUnchanged(e);
    assert NoSpace(e) by {
      forall i | 0 <= i < |e|
        ensures !IsSpace(e[i])
      {
        if i > 0 {
          assert e[i] == ds[i - 1];
        }
      }
    }
    StripSpaceUnchanged(e);
  }

  /** The TEL line of an E.164 number sets the split of that number. */
  lemma TelLineSets(ps: seq<DialPattern>, ds: string)
    requires ds != [] && AllDigits(ds)
    ensures var l := "TEL;TYPE=CELL:" + ("+" + ds);
      SetsPhone(l) && TelValue(ps, l) == SplitPhoneWith(ps, "+" + ds) && !SetsName(l) && !SetsEmail(l)
  {
    var l := "TEL;TYPE=CELL:" + ("+" + ds);
    TelLineValue(ds);
    E164Plain(ds);
    assert !StartsWith(l, "FN:") && !StartsWith(l, "EMAIL") by {
      assert l[..3][0] == 'T' && l[..5][0] == 'T';
    }
  }

  /** The EMAIL line of a trimmed, single-line e-mail sets exactly that e-mail. */
  lemma EmailLineSets(email: string)
    requires email != [] && Trim(email) == email && NoLineTerminator(email)
    ensures SetsEmail("EMAIL:" + email) && EmailValue("EMAIL:" + email) == email
    ensures !SetsName("EMAIL:" + email) && !SetsPhone("EMAIL:" + email)
  {
    var l := "EMAIL:" + email;
    assert l[|l| - 1] == email[|email| - 1];
    TrimUnchanged(l);
    assert l[..5] == "EMAIL";
    PlainClean("EMAIL:");
    NoLineTerminatorAppend("EMAIL:", email);
    assert l[5] == ':' && l[6..] == email;
    ColonValueFirstColon(l, 5);
  }

  /** The phone fields a card's scan ends with: the split of its E.164 number, or nothing. */
  function TelFields(ps: seq<DialPattern>, e164: string): (string, string) {
    if e164 != [] then SplitPhoneWith(ps, e164) else ("", "")
  }

  /** The lines before the name line set nothing. */
  lemma ScanPreamble(ps: seq<DialPattern>, uid: string, name: string)
    requires uid != [] && !IsSpace(uid[|uid| - 1])
    ensures ScanLinesWith(ps, EmptyCard, ["VERSION:3.0"] + ["UID:" + uid] + ["N:;" + name + ";;;"]) == EmptyCard
  {
    var v, u, n := "VERSION:3.0", "UID:" + uid, "N:;" + name + ";;;";
    VersionLineInert();
    UidLineInert(uid);
    NLineInert(name);
    ScanLinesAppend(ps, EmptyCard, [v] + [u], [n]);
    ScanLinesAppend(ps, EmptyCard, [v], [u]);
    ScanInertOne(ps, EmptyCard, v);
    ScanInertOne(ps, EmptyCard, u);
    ScanInertOne(ps, EmptyCard, n);
  }

  /** The header lines set only the name. */
  lemma ScanHeader(ps: seq<DialPattern>, uid: string, name: string)
    requires uid != [] && !IsSpace(uid[|uid| - 1])
    requires Trim(name) == name
    ensures ScanLinesWith(ps, EmptyCard, ["VERSION:3.0"] + ["UID:" + uid] + ["N:;" + name + ";;;"] + ["FN:" + name]) ==
      EmptyCard.(name := name)
  {
    var pre := ["VERSION:3.0"] + ["UID:" + uid] + ["N:;" + name + ";;;"];
    var fn := "FN:" + name;
    ScanPreamble(ps, uid, name);
    ScanLinesAppend(ps, EmptyCard, pre, [fn]);
    ScanOne(ps, EmptyCard, fn);
    NameLineSets(name);
    ScanLineFields(ps, EmptyCard, fn);
  }

  /** The optional TEL line sets the split of the number, when there is one. */
  lemma ScanTel(ps: seq<DialPattern>, st: CardState, e164: string)
    requires e164 != [] ==> |e164| >= 2 && e164[0] == '+' && AllDigits(e164[1..])
    requires st.countryCode == "" && st.phone == ""
    ensures ScanLinesWith(ps, st, Optional(e164 != [], "TEL;TYPE=CELL:" + e164)) ==
      st.(countryCode := TelFields(ps, e164).0, phone := TelFields(ps, e164).1)
  {
    if e164 != [] {
      assert e164 == "+" + e164[1..];
      TelLineSets(ps, e164[1..]);
      ScanOne(ps, st, "TEL;TYPE=CELL:" + e164);
      ScanLineFields(ps, st, "TEL;TYPE=CELL:" + e164);
    }
  }

  /** The optional EMAIL line sets the e-mail, when there is one. */
  lemma ScanMail(ps: seq<DialPattern>, st: CardState, email: string)
    requires Trim(email) == email && NoLineTerminator(email) && st.email == ""
    ensures ScanLinesWith(ps, st, Optional(email != [], "EMAIL:" + email)) == st.(email := email)
  {
    if email != [] {
      EmailLineSets(email);
      ScanOne(ps, st, "EMAIL:" + email);
      ScanLineFields(ps, st, "EMAIL:" + email);
    }
  }

  /** Scanning the lines after the marker sets the name, the split number and the e-mail that
      were written, and nothing else. */
  lemma ScanTail(ps: seq<DialPattern>, uid: string, name: string, e164: string, email: string)
    requires uid != [] && !IsSpace(uid[|uid| - 1])
    requires Trim(name) == name
    requires e164 != [] ==> |e164| >= 2 && e164[0] == '+' && AllDigits(e164[1..])
    requires Trim(email) == email && NoLineTerminator(email)
    ensures ScanLinesWith(ps, EmptyCard, TailLinesOf(uid, name, e164, email)) ==
      CardState(name, TelFields(ps, e164).1, email, TelFields(ps, e164).0)
  {
    var head := ["VERSION:3.0"] + ["UID:" + uid] + ["N:;" + name + ";;;"] + ["FN:" + name];
    var tel := Optional(e164 != [], "TEL;TYPE=CELL:" + e164);
    var mail := Optional(email != [], "EMAIL:" + email);
    assert TailLinesOf(uid, name, e164, email) == head + tel + mail + ["END:VCARD"];
    var s1 := EmptyCard.(name := name);
    var s2 := s1.(countryCode := TelFields(ps, e164).0, phone := TelFields(ps, e164).1);
    var s3 := s2.(email := email);
    ScanHeader(ps, uid, name);
    ScanLinesAppend(ps, EmptyCard, head, tel);
    ScanTel(ps, s1, e164);
    ScanLinesAppend(ps, EmptyCard, head + tel, mail);
    ScanMail(ps, s2, email);
    ScanLinesAppend(ps, EmptyCard, head + tel + mail, ["END:VCARD"]);
    EndLineInert();
    ScanInertOne(ps, s3, "END:VCARD");
  }

  // ---------------------------------------------------------------------------------------
  // Reading back, for any pattern table

  /** The fields an exported card can be read back with: framing-safe, and a name that
      trimming leaves alone. */
  predicate Exportable(c: Contact) {
    Frameable(c) && Trim(c.name) == c.name
  }

  /** What reading back one exported contact gives: the name, the table's split of the E.164
      number and the trimmed e-mail, when the name and the split's number are both present. */
  function Reread(ps: seq<DialPattern>, c: Contact): seq<ParsedContact> {
    var (countryCode, phone) := TelFields(ps, ToE164(c.countryCode, c.phone));
    if c.name != "" && phone != "" then [ParsedContact(c.name, phone, countryCode, Trim(c.email))] else []
  }

  function RereadAll(ps: seq<DialPattern>, cs: seq<Contact>): seq<ParsedContact> {
    if cs == [] then [] else Reread(ps, cs[0]) + RereadAll(ps, cs[1..])
  }

  lemma RereadAllOne(ps: seq<DialPattern>, c: Contact)
    ensures RereadAll(ps, [c]) == Reread(ps, c)
  {
    var one := [c];
    assert one[0] == c && one[1..] == [];
  }

  lemma UidShape(id: nat)
    ensures Uid(id) != [] && !IsSpace(Uid(id)[|Uid(id)| - 1])
  {
    var u := Uid(id);
    assert u[|u| - 1] == 't';
  }

  /** One exported card reads back as `Reread` says. */
  lemma ReadBackCard(ps: seq<DialPattern>, c: Contact)
    requires Exportable(c)
    ensures CardRecords(ps, Body(c)) == Reread(ps, c)
  {
    var e164 := ToE164(c.countryCode, c.phone);
    BodyLines(c);
    UidShape(c.id);
    if e164 != [] {
      ToE164Shape(c.countryCode, c.phone);
      assert e164[1..] == DigitsOf(c.countryCode) + National(c.countryCode, c.phone);
    }
    TrimIdempotent(c.email);
    ScanTail(ps, Uid(c.id), c.name, e164, Trim(c.email));
  }

  lemma {:induction false} ReadBackCards(ps: seq<DialPattern>, cs: seq<Contact>)
    requires forall c :: c in cs ==> Exportable(c)
    ensures DecodeCardsWith(ps, Bodies(cs)) == RereadAll(ps, cs)
  {
    if cs != [] {
      assert cs[0] in cs;
      assert forall d :: d in cs[1..] ==> d in cs;
      assert Bodies(cs)[0] == Body(cs[0]) && Bodies(cs)[1..] == Bodies(cs[1..]);
      ReadBackCard(ps, cs[0]);
      ReadBackCards(ps, cs[1..]);
    }
  }

  /** Decoding an export, with any pattern table, reads every contact back as `Reread` says,
      in export order. */
  lemma DecodeExport(ps: seq<DialPattern>, cs: seq<Contact>)
    requires forall c :: c in cs ==> Exportable(c)
    ensures DecodeWith(ps, ExportText(cs)) == RereadAll(ps, cs)
  {
    CardsOfExport(cs);
    ReadBackCards(ps, cs);
  }

  // ---------------------------------------------------------------------------------------
  // Tables that give the country code back

  /** Every entry is a `+` and digits, and spans exactly its code's digits. */
  predicate WellFormedPatterns(ps: seq<DialPattern>) {
    forall p :: p in ps ==> |p.code| >= 2 && p.code[0] == '+' && AllDigits(p.code[1..]) && p.length == |p.code| - 1
  }

  /** No entry's code begins another entry's different code. */
  predicate PrefixFreePatterns(ps: seq<DialPattern>) {
    forall p, q :: p in ps && q in ps && StartsWith(q.code, p.code) ==> p.code == q.code
  }

  /** With a well-formed prefix-free table, a number that starts with a known code splits into
      that code and the rest. */
  lemma SplitKnownCode(ps: seq<DialPattern>, p: DialPattern, n: string)
    requires WellFormedPatterns(ps) && PrefixFreePatterns(ps) && p in ps
    ensures SplitPhoneWith(ps, p.code + n) == (p.code, n)
  {
    var full := p.code + n;
    assert full[..1] == "+";
    var rest := full[1..];
    assert rest == p.code[1..] + n;
    assert rest[..p.length] == p.code[1..];
    assert p.code == "+" + p.code[1..];
    assert PatternMatches(p, rest);
    var q := FirstPattern(ps, rest).value;
    assert q.length <= |rest|;
    assert q.code == full[..|q.code|];
    assert p.code == full[..|p.code|];
    if |p.code| <= |q.code| {
      assert StartsWith(q.code, p.code);
    }
    assert rest[q.length..] == n;
  }

  /** The digits of a well-formed code are the code without its `+`. */
  lemma CodeDigitsOf(code: string)
    requires |code| >= 2 && code[0] == '+' && AllDigits(code[1..])
    ensures DigitsOf(code) == code[1..]
  {
    assert code == [code[0]] + code[1..];
    DigitsOfAppend([code[0]], code[1..]);
    DigitsOfFixed(code[1..]);
  }

  /** A contact whose code is in the table and whose number has digits beyond the code reads
      back with its own code and its national number. */
  lemma RereadKnownCode(ps: seq<DialPattern>, p: DialPattern, c: Contact)
    requires WellFormedPatterns(ps) && PrefixFreePatterns(ps) && p in ps
    requires c.countryCode == p.code && National(c.countryCode, c.phone) != []
    ensures TelFields(ps, ToE164(c.countryCode, c.phone)) == (c.countryCode, National(c.countryCode, c.phone))
  {
    var n := National(c.countryCode, c.phone);
    ToE164Shape(c.countryCode, c.phone);
    CodeDigitsOf(p.code);
    assert ToE164(c.countryCode, c.phone) == p.code + n;
    SplitKnownCode(ps, p, n);
  }

  // ---------------------------------------------------------------------------------------
  // The table built from the country rows

  lemma CountryPatternsWellFormed()
    ensures WellFormedPatterns(CountryPatterns())
  {
    Countries.TableShape();
  }

  lemma CountryPatternsPrefixFree()
    ensures PrefixFreePatterns(CountryPatterns())
  {
    var ps := CountryPatterns();
    forall p, q | p in ps && q in ps && StartsWith(q.code, p.code)
      ensures p.code == q.code
    {
      var i :| 0 <= i < |ps| && ps[i] == p;
      var j :| 0 <= j < |ps| && ps[j] == q;
      if i != j {
        CodePrefixFree(i, j);
      }
    }
  }

  /** No dial code of the table starts with another one. */
  lemma CodePrefixFree(i: nat, j: nat)
    requires i < |Countries.Table| && j < |Countries.Table| && i != j
    ensures !StartsWith(Countries.Table[j].code, Countries.Table[i].code)
  {
    var a, b := Countries.Table[i], Countries.Table[j];
    if StartsWith(b.code, a.code) {
      Countries.CodeDigitsAreTail(a);
      Countries.CodeDigitsAreTail(b);
      assert b.code[1..][..|a.code| - 1] == a.code[1..];
      Countries.PrefixFreePair(i, j);
    }
  }

  /** The contact's code is one the forms offer. */
  predicate KnownCode(code: string) {
    exists i :: 0 <= i < |Countries.Table| && Countries.Table[i].code == code
  }

  /** A contact that reads back whole: exportable, named, with a known code and digits beyond it. */
  predicate RoundTrips(c: Contact) {
    Exportable(c) && c.name != "" && KnownCode(c.countryCode) && National(c.countryCode, c.phone) != []
  }

  /** What a contact is expected to read back as. */
  function Expected(c: Contact): ParsedContact {
    ParsedContact(c.name, National(c.countryCode, c.phone), c.countryCode, Trim(c.email))
  }

  function ExpectedAll(cs: seq<Contact>): (r: seq<ParsedContact>)
    ensures |r| == |cs|
  {
    if cs == [] then [] else [Expected(cs[0])] + ExpectedAll(cs[1..])
  }

  /** The contact reads back whole with table `ps`: exportable, named, with digits beyond its
      code, and a code that is one of the table's. */
  predicate ReadsBack(ps: seq<DialPattern>, c: Contact) {
    Exportable(c) && c.name != "" && National(c.countryCode, c.phone) != [] &&
    exists p :: p in ps && p.code == c.countryCode
  }

  /** With a well-formed prefix-free table, every contact that can read back does, in order. */
  lemma {:induction false} RereadAllKnown(ps: seq<DialPattern>, cs: seq<Contact>)
    requires WellFormedPatterns(ps) && PrefixFreePatterns(ps)
    requires forall c :: c in cs ==> ReadsBack(ps, c)
    ensures RereadAll(ps, cs) == ExpectedAll(cs)
  {
    if cs != [] {
      var c := cs[0];
      assert c in cs;
      assert forall d :: d in cs[1..] ==> d in cs;
      var p :| p in ps && p.code == c.countryCode;
      RereadKnownCode(ps, p, c);
      RereadAllKnown(ps, cs[1..]);
    }
  }

  /** The round trip with the corrected table: importing an export gives every contact back
      with its name, its code, its national number and its trimmed e-mail, in order. */
  lemma ExportRoundTrip(cs: seq<Contact>)
    requires forall c :: c in cs ==> RoundTrips(c)
    ensures DecodeCorrected(ExportText(cs)) == ExpectedAll(cs)
  {
    var ps := CountryPatterns();
    CountryPatternsWellFormed();
    CountryPatternsPrefixFree();
    forall c | c in cs
      ensures ReadsBack(ps, c)
    {
      var i :| 0 <= i < |Countries.Table| && Countries.Table[i].code == c.countryCode;
      assert ps[i] in ps;
    }
    DecodeExport(ps, cs);
    RereadAllKnown(ps, cs);
  }

  // ---------------------------------------------------------------------------------------
  // The decoder's own table, where it works

  /** Each of the decoder's eight entries is a `+` and digits and spans its code's digits. */
  lemma ParserPatternsWellFormed()
    ensures WellFormedPatterns(ParserPatterns)
  {
    forall i | 0 <= i < |ParserPatterns|
      ensures var p := ParserPatterns[i];
        |p.code| >= 2 && p.code[0] == '+' && AllDigits(p.code[1..]) && p.length == |p.code| - 1
    {
    }
  }

  /** Only `+1` has a single digit; every other code has two, the first of them not `1`. */
  lemma ParserCodeShapes()
    ensures forall k :: 0 <= k < |ParserPatterns| ==>
      ParserPatterns[k].code == "+1" || (|ParserPatterns[k].code| == 3 && ParserPatterns[k].code[1] != '1')
  {
  }

  /** So no code of the decoder's table begins another. */
  lemma ParserCodesPrefixFree(i: nat, j: nat)
    requires i < |ParserPatterns| && j < |ParserPatterns|
    requires StartsWith(ParserPatterns[j].code, ParserPatterns[i].code)
    ensures ParserPatterns[i].code == ParserPatterns[j].code
  {
    ParserCodeShapes();
    var a, b := ParserPatterns[i].code, ParserPatterns[j].code;
    if a == "+1" {
      assert b[1] == b[..2][1];
    } else {
      assert b[..3] == b;
    }
  }

  lemma ParserPatternsPrefixFree()
    ensures PrefixFreePatterns(ParserPatterns)
  {
    var ps := ParserPatterns;
    forall p, q | p in ps && q in ps && StartsWith(q.code, p.code)
      ensures p.code == q.code
    {
      var i :| 0 <= i < |ps| && ps[i] == p;
      var j :| 0 <= j < |ps| && ps[j] == q;
      ParserCodesPrefixFree(i, j);
    }
  }

  /** Row `k` of the country table has entry `p`'s code and national length. */
  predicate RowFor(k: int, p: DialPattern) {
    0 <= k < |Countries.Table| && Countries.Table[k].code == p.code && Countries.Table[k].length == p.phoneLength
  }

  /** Every entry of the decoder's table is a row of the country table, with that row's
      national length. */
  lemma ParserPatternsInTable()
    ensures forall i :: 0 <= i < |ParserPatterns| ==> exists k :: RowFor(k, ParserPatterns[i])
  {
    var ps := ParserPatterns;
    assert RowFor(1, ps[0]) && RowFor(0, ps[1]) && RowFor(2, ps[2]) && RowFor(7, ps[3]);
    assert RowFor(4, ps[4]) && RowFor(3, ps[5]) && RowFor(6, ps[6]) && RowFor(5, ps[7]);
  }

  /** The round trip `parseVCF` does keep: contacts whose code is one of its eight read back
      with their name, code, national number and trimmed e-mail, in order. */
  lemma ParserRoundTrip(cs: seq<Contact>)
    requires forall c :: c in cs ==> ReadsBack(ParserPatterns, c)
    ensures Decode(ExportText(cs)) == ExpectedAll(cs)
  {
    ParserPatternsWellFormed();
    ParserPatternsPrefixFree();
    DecodeExport(ParserPatterns, cs);
    RereadAllKnown(ParserPatterns, cs);
  }

  // ---------------------------------------------------------------------------------------
  // The decoder's own table

  /** Entry `p`, spanning one or two digits, fails on its first digit or its second. */
  predicate Misses(p: DialPattern, rest: string)
    requires |rest| >= 2
  {
    1 <= p.length <= 2 && |p.code| == p.length + 1 &&
    (p.code[1] != rest[0] || (p.length == 2 && p.code[2] != rest[1]))
  }

  lemma {:induction false} NoPatternMatches(ps: seq<DialPattern>, rest: string)
    requires |rest| >= 2
    requires forall i :: 0 <= i < |ps| ==> Misses(ps[i], rest)
    ensures FirstPattern(ps, rest) == None
  {
    if ps != [] {
      var p := ps[0];
      assert Misses(ps[0], rest);
      assert forall i :: 0 <= i < |ps[1..]| ==> ps[1..][i] == ps[i + 1];
      NoPatternMatches(ps[1..], rest);
    }
  }

  /** The decoder's table has no entry for a number that starts with none of `1`, `3`,
      `4`, `8`, `91`, `61`. */
  lemma ParserMisses(rest: string)
    requires |rest| >= 2
    requires rest[0] != '1' && rest[0] != '3' && rest[0] != '4' && rest[0] != '8'
    requires rest[0] != '9' || rest[1] != '1'
    requires rest[0] != '6' || rest[1] != '1'
    ensures FirstPattern(ParserPatterns, rest) == None
  {
    NoPatternMatches(ParserPatterns, rest);
  }

  /** A number whose digits do not start with the code's digits gets them put in front. */
  lemma E164Prefixed(code: string, ds: string)
    requires DigitsOf(code) != [] && ds != [] && AllDigits(ds) && !StartsWith(ds, DigitsOf(code))
    ensures ToE164(code, ds) == "+" + DigitsOf(code) + ds && National(code, ds) == ds
  {
    DigitsOfFixed(ds);
  }

  /** A `+`-led number that no entry matches: more than ten digits keep the last ten as the
      number, otherwise the whole becomes the number under `+91`. */
  lemma SplitUnmatched(ps: seq<DialPattern>, cd: string, ds: string)
    requires FirstPattern(ps, cd + ds) == None
    ensures var rest := cd + ds;
      SplitPhoneWith(ps, "+" + cd + ds) ==
        if |rest| > 10 then ("+" + rest[..|rest| - 10], rest[|rest| - 10..]) else ("+91", rest)
  {
    assert ("+" + cd + ds)[1..] == cd + ds;
  }

  /** A three-digit code `97x` before nine digits: no entry of the decoder's table matches, and
      the split keeps the code's first two digits. */
  lemma ParserSplitsNineDigits(cd: string, ds: string)
    requires |cd| == 3 && cd[0] == '9' && cd[1] == '7' && |ds| == 9
    ensures SplitPhoneWith(ParserPatterns, "+" + cd + ds) == ("+" + cd[..2], cd[2..] + ds)
  {
    var rest := cd + ds;
    assert rest[0] == '9' && rest[1] == '7';
    ParserMisses(rest);
    SplitUnmatched(ParserPatterns, cd, ds);
    assert rest[..|rest| - 10] == cd[..2];
    assert rest[|rest| - 10..] == cd[2..] + ds;
  }

  /** A two-digit code `65` before eight digits: no entry of the decoder's table matches, and
      the split falls back to `+91`. */
  lemma ParserMissesEightDigits(cd: string, ds: string)
    requires |cd| == 2 && cd[0] == '6' && cd[1] == '5' && |ds| == 8
    ensures SplitPhoneWith(ParserPatterns, "+" + cd + ds) == ("+91", cd + ds)
  {
    var rest := cd + ds;
    assert rest[0] == '6' && rest[1] == '5';
    ParserMisses(rest);
    SplitUnmatched(ParserPatterns, cd, ds);
  }

  lemma UaeDigits()
    ensures DigitsOf("+971") == "971"
  {
  }

  lemma SingaporeDigits()
    ensures DigitsOf("+65") == "65"
  {
  }

  lemma UaeNumberSplit(phone: string)
    requires |phone| == 9 && AllDigits(phone) && phone[0] != '9'
    ensures ToE164("+971", phone) == "+" + "971" + phone && National("+971", phone) == phone
    ensures SplitPhoneWith(ParserPatterns, ToE164("+971", phone)) == ("+97", "1" + phone)
  {
    var cd := DigitsOf("+971");
    UaeDigits();
    E164Prefixed("+971", phone);
    ParserSplitsNineDigits(cd, phone);
    assert "+" + cd[..2] == "+97" && cd[2..] == "1";
  }

  lemma SingaporeNumberSplit(phone: string)
    requires |phone| == 8 && AllDigits(phone) && phone[0] != '6'
    ensures ToE164("+65", phone) == "+" + "65" + phone && National("+65", phone) == phone
    ensures SplitPhoneWith(ParserPatterns, ToE164("+65", phone)) == ("+91", "65" + phone)
  {
    var cd := DigitsOf("+65");
    SingaporeDigits();
    E164Prefixed("+65", phone);
    ParserMissesEightDigits(cd, phone);
  }

  /** Nine-digit UAE numbers not starting with `9`: the decoder as written gives them code
      `+97` and prefixes the number with `1`; the table built from the country rows gives
      them back whole. */
  lemma ParserTableSplitsUae(c: Contact)
    requires Exportable(c) && c.name != ""
    requires c.countryCode == "+971" && |c.phone| == 9 && AllDigits(c.phone) && c.phone[0] != '9'
    ensures Decode(ExportText([c])) == [ParsedContact(c.name, "1" + c.phone, "+97", Trim(c.email))]
    ensures DecodeCorrected(ExportText([c])) == [ParsedContact(c.name, c.phone, "+971", Trim(c.email))]
  {
    UaeAsWritten(c);
    UaeCorrected(c);
  }

  lemma UaeAsWritten(c: Contact)
    requires Exportable(c) && c.name != ""
    requires c.countryCode == "+971" && |c.phone| == 9 && AllDigits(c.phone) && c.phone[0] != '9'
    ensures Decode(ExportText([c])) == [ParsedContact(c.name, "1" + c.phone, "+97", Trim(c.email))]
  {
    UaeNumberSplit(c.phone);
    DecodeExport(ParserPatterns, [c]);
    RereadAllOne(ParserPatterns, c);
    assert TelFields(ParserPatterns, ToE164(c.countryCode, c.phone)) == ("+97", "1" + c.phone);
  }

  lemma UaeCorrected(c: Contact)
    requires Exportable(c) && c.name != ""
    requires c.countryCode == "+971" && |c.phone| == 9 && AllDigits(c.phone) && c.phone[0] != '9'
    ensures DecodeCorrected(ExportText([c])) == [ParsedContact(c.name, c.phone, "+971", Trim(c.email))]
  {
    UaeNumberSplit(c.phone);
    assert Countries.Table[8].code == "+971";
    assert RoundTrips(c);
    ExportRoundTrip([c]);
    assert ExpectedAll([c]) == [Expected(c)];
  }


  /** Eight-digit Singapore numbers not starting with `6`: the decoder as written files them
      under India's `+91` with `65` glued to the number; the table built from the country
      rows gives them back whole. */
  lemma ParserTableMissesSingapore(c: Contact)
    requires Exportable(c) && c.name != ""
    requires c.countryCode == "+65" && |c.phone| == 8 && AllDigits(c.phone) && c.phone[0] != '6'
    ensures Decode(ExportText([c])) == [ParsedContact(c.name, "65" + c.phone, "+91", Trim(c.email))]
    ensures DecodeCorrected(ExportText([c])) == [ParsedContact(c.name, c.phone, "+65", Trim(c.email))]
  {
    SingaporeAsWritten(c);
    SingaporeCorrected(c);
  }

  lemma SingaporeAsWritten(c: Contact)
    requires Exportable(c) && c.name != ""
    requires c.countryCode == "+65" && |c.phone| == 8 && AllDigits(c.phone) && c.phone[0] != '6'
    ensures Decode(ExportText([c])) == [ParsedContact(c.name, "65" + c.phone, "+91", Trim(c.email))]
  {
    SingaporeNumberSplit(c.phone);
    DecodeExport(ParserPatterns, [c]);
    RereadAllOne(ParserPatterns, c);
    assert TelFields(ParserPatterns, ToE164(c.countryCode, c.phone)) == ("+91", "65" + c.phone);
  }

  lemma SingaporeCorrected(c: Contact)
    requires Exportable(c) && c.name != ""
    requires c.countryCode == "+65" && |c.phone| == 8 && AllDigits(c.phone) && c.phone[0] != '6'
    ensures DecodeCorrected(ExportText([c])) == [ParsedContact(c.name, c.phone, "+65", Trim(c.email))]
  {
    SingaporeNumberSplit(c.phone);
    assert Countries.Table[9].code == "+65";
    assert RoundTrips(c);
    ExportRoundTrip([c]);
    assert ExpectedAll([c]) == [Expected(c)];
  }

}
