/** `parseVCF` and `getInitials`. The decoder cuts the text into cards at every
    `BEGIN:VCARD` (in any ASCII case), cuts each card into non-blank lines, and lets the
    `FN:`, `TEL` and `EMAIL` lines overwrite a name, a phone (split into a country code and
    the rest) and an e-mail; a card that ends without a name or a phone yields nothing.

    The specification functions take the decoder's dial-pattern table as a parameter.
    `Decode`, which the import uses, is the decoder with its own eight-code table
    (`ParserPatterns`), which lacks two of the codes the forms offer; `DecodeCorrected` is the
    decoder with one entry per row of the country table (`CountryPatterns`). */
module VcfDecode {
  import opened Text
  import Countries

  datatype ParsedContact = ParsedContact(name: string, phone: string, countryCode: string, email: string)

  /** One entry of the decoder's own dial table: a code, how many characters of the number it
      spans, and the national length it expects (which the decoder never consults). */
  datatype DialPattern = DialPattern(code: string, length: nat, phoneLength: nat)

  const ParserPatterns: seq<DialPattern> := [
    DialPattern("+1", 1, 10),
    DialPattern("+91", 2, 10),
    DialPattern("+44", 2, 10),
    DialPattern("+61", 2, 9),
    DialPattern("+81", 2, 10),
    DialPattern("+86", 2, 11),
    DialPattern("+33", 2, 9),
    DialPattern("+49", 2, 10)
  ]

  /** One entry per country row: its code, spanning the code's digits. */
  function CountryPatterns(): (r: seq<DialPattern>)
    ensures |r| == |Countries.Table|
    ensures forall i :: 0 <= i < |r| ==> r[i].code == Countries.Table[i].code
  {
    seq(|Countries.Table|, i requires 0 <= i < |Countries.Table| =>
      DialPattern(Countries.Table[i].code, |Countries.Table[i].code| - 1, Countries.Table[i].length))
  }

  // ---------------------------------------------------------------------------------------
  // Cards and lines

  const Marker: string := "BEGIN:VCARD"

  /** `s` begins with the card marker, compared the way `/BEGIN:VCARD/i` compares. */
  predicate MarkerAt(s: string) {
    |s| >= |Marker| && ToUpper(s[..|Marker|]) == Marker
  }

  /** `split(/BEGIN:VCARD/i)`, scanning left to right with `cur` the fragment being built. */
  function SplitCardsFrom(s: string, cur: string): seq<string>
    decreases |s|
  {
    if |s| == 0 then [cur]
    else if MarkerAt(s) then [cur] + SplitCardsFrom(s[|Marker|..], "")
    else SplitCardsFrom(s[1..], cur + [s[0]])
  }

  /** `filter(x => x.trim())`: the pieces that are not blank, in order. */
  function NonBlank(pieces: seq<string>): (r: seq<string>)
    ensures |r| <= |pieces|
  {
    if pieces == [] then []
    else if IsBlank(pieces[0]) then NonBlank(pieces[1..])
    else [pieces[0]] + NonBlank(pieces[1..])
  }

  /** The filter keeps exactly the non-blank pieces, each as often as it occurs. */
  lemma {:induction false} NonBlankFilters(pieces: seq<string>)
    ensures forall x :: x in NonBlank(pieces) <==> x in pieces && !IsBlank(x)
    ensures forall x :: multiset(NonBlank(pieces))[x] == if IsBlank(x) then 0 else multiset(pieces)[x]
  {
    if pieces != [] {
      NonBlankFilters(pieces[1..]);
      assert pieces == [pieces[0]] + pieces[1..];
    }
  }

  /** The candidate cards of a text: its non-blank fragments between markers. */
  function Cards(text: string): seq<string> {
    NonBlank(SplitCardsFrom(text, ""))
  }

  /** A piece that `/\r?\n/` ends loses the `\r` just before the `\n`. */
  function DropCR(p: string): string {
    if |p| > 0 && p[|p| - 1] == '\r' then p[..|p| - 1] else p
  }

  /** `split(/\r?\n/)`, scanning left to right with `cur` the piece being built. */
  function SplitLinesFrom(s: string, cur: string): seq<string>
    decreases |s|
  {
    if |s| == 0 then [cur]
    else if s[0] == '\n' then [DropCR(cur)] + SplitLinesFrom(s[1..], "")
    else SplitLinesFrom(s[1..], cur + [s[0]])
  }

  /** The non-blank lines of a card. */
  function Lines(card: string): seq<string> {
    NonBlank(SplitLinesFrom(card, ""))
  }

  // ---------------------------------------------------------------------------------------
  // One line

  /** `line.match(/:(.*?)$/)`: the leftmost `:` whose tail holds no line terminator (which `.`
      cannot cross) gives the captured tail. */
  function ColonValueFrom(t: string, i: nat): (r: Option<string>)
    decreases |t| - i
  {
    if i >= |t| then None
    else if t[i] == ':' && NoLineTerminator(t[i + 1..]) then Some(t[i + 1..])
    else ColonValueFrom(t, i + 1)
  }

  function ColonValue(t: string): Option<string> {
    ColonValueFrom(t, 0)
  }

  /** On a line without line terminators the captured value is the text after the first `:`. */
  lemma {:induction false} ColonValueFirstColon(t: string, k: nat)
    requires k < |t| && t[k] == ':' && NoLineTerminator(t)
    requires forall i :: 0 <= i < k ==> t[i] != ':'
    ensures ColonValue(t) == Some(t[k + 1..])
  {
    ColonValueSkip(t, 0, k);
  }

  lemma {:induction false} ColonValueSkip(t: string, i: nat, k: nat)
    requires i <= k < |t| && t[k] == ':' && NoLineTerminator(t[k + 1..])
    requires forall j :: i <= j < k ==> t[j] != ':'
    ensures ColonValueFrom(t, i) == Some(t[k + 1..])
    decreases k - i
  {
    if i < k {
      ColonValueSkip(t, i + 1, k);
    }
  }

  /** Pattern `p` matches when `'+' + digits.substring(0, p.length)` is its code. */
  predicate PatternMatches(p: DialPattern, rest: string) {
    p.code == "+" + rest[..Min(p.length, |rest|)]
  }

  /** The first pattern, in table order, that matches (the loop with `break`). */
  function FirstPattern(patterns: seq<DialPattern>, rest: string): (r: Option<DialPattern>)
    ensures r.Some? ==> r.value in patterns && PatternMatches(r.value, rest)
    ensures r.None? <==> forall p :: p in patterns ==> !PatternMatches(p, rest)
    ensures r.Some? ==> exists i :: 0 <= i < |patterns| && patterns[i] == r.value &&
                                    (forall j :: 0 <= j < i ==> !PatternMatches(patterns[j], rest))
  {
    if patterns == [] then None
    else if PatternMatches(patterns[0], rest) then Some(patterns[0])
    else FirstPattern(patterns[1..], rest)
  }

  /** The country-code split of a TEL value whose white space is already removed; the result
      is the pair (countryCode, phone). */
  function SplitPhoneWith(patterns: seq<DialPattern>, full: string): (string, string) {
    if StartsWith(full, "+") then
      var rest := full[1..];
      match FirstPattern(patterns, rest)
      case Some(p) => (p.code, rest[Min(p.length, |rest|)..])
      case None =>
        if |rest| > 10 then ("+" + rest[..|rest| - 10], rest[|rest| - 10..])
        else ("+91", rest)
    else ("+91", full)
  }

  /** What the split promises: a `+`-led country code always; without a leading `+` the code
      `+91` and the value unchanged; with a `+` and a match, or with an unmatched value of
      more than ten characters after the `+`, the two parts put back together give the
      value; an unmatched longer value keeps its last ten characters as the phone, and an
      unmatched shorter one gets `+91` and everything after the `+`. */
  lemma SplitPhoneShape(patterns: seq<DialPattern>, full: string)
    ensures var (cc, phone) := SplitPhoneWith(patterns, full);
      |cc| > 0 && cc[0] == '+' &&
      (!StartsWith(full, "+") ==> cc == "+91" && phone == full) &&
      (StartsWith(full, "+") && (FirstPattern(patterns, full[1..]).Some? || |full| > 11) ==> cc + phone == full) &&
      (StartsWith(full, "+") && FirstPattern(patterns, full[1..]).None? && |full| > 11 ==>
         phone == full[|full| - 10..]) &&
      (StartsWith(full, "+") && FirstPattern(patterns, full[1..]).None? && |full| <= 11 ==>
         cc == "+91" && phone == full[1..])
  {
    if StartsWith(full, "+") {
      var rest := full[1..];
      assert full == "+" + rest;
      match FirstPattern(patterns, rest)
      case Some(p) =>
        MatchedSplitRejoins(p, rest);
      case None =>
        if |rest| > 10 {
          TailSplitRejoins(rest);
        }
    }
  }

  /** A matched code and the rest of the value after it give back the `+`-led value. */
  lemma MatchedSplitRejoins(p: DialPattern, rest: string)
    requires PatternMatches(p, rest)
    ensures p.code + rest[Min(p.length, |rest|)..] == "+" + rest
  {
    var n := Min(p.length, |rest|);
    assert rest[..n] + rest[n..] == rest;
  }

  /** The leading part and the last ten characters give back the `+`-led value. */
  lemma TailSplitRejoins(rest: string)
    requires |rest| > 10
    ensures ("+" + rest[..|rest| - 10]) + rest[|rest| - 10..] == "+" + rest
  {
    assert rest[..|rest| - 10] + rest[|rest| - 10..] == rest;
  }

  /** The locals the scan of one card updates. */
  datatype CardState = CardState(name: string, phone: string, email: string, countryCode: string)

  const EmptyCard: CardState := CardState("", "", "", "")

  /** The line sets the name. */
  predicate SetsName(line: string) {
    StartsWith(Trim(line), "FN:")
  }

  /** The line sets the phone and the country code. */
  predicate SetsPhone(line: string) {
    StartsWith(Trim(line), "TEL") && ColonValue(Trim(line)).Some?
  }

  /** The line sets the e-mail. */
  predicate SetsEmail(line: string) {
    StartsWith(Trim(line), "EMAIL") && ColonValue(Trim(line)).Some?
  }

  /** The name an `FN:` line sets: the text after `FN:`, trimmed. */
  function NameValue(line: string): string
    requires SetsName(line)
  {
    Trim(Trim(line)[3..])
  }

  /** The (countryCode, phone) pair a TEL line sets. */
  function TelValue(patterns: seq<DialPattern>, line: string): (string, string)
    requires SetsPhone(line)
  {
    SplitPhoneWith(patterns, StripSpace(Trim(ColonValue(Trim(line)).value)))
  }

  /** The e-mail an EMAIL line sets: the captured value, trimmed. */
  function EmailValue(line: string): string
    requires SetsEmail(line)
  {
    Trim(ColonValue(Trim(line)).value)
  }

  function NameStep(st: CardState, line: string): CardState {
    if SetsName(line) then st.(name := NameValue(line)) else st
  }

  function PhoneStep(patterns: seq<DialPattern>, st: CardState, line: string): CardState {
    if SetsPhone(line) then
      st.(countryCode := TelValue(patterns, line).0, phone := TelValue(patterns, line).1)
    else st
  }

  function EmailStep(st: CardState, line: string): CardState {
    if SetsEmail(line) then st.(email := EmailValue(line)) else st
  }

  /** The three independent `if`s of the line scan, in source order. */
  function ScanLineWith(patterns: seq<DialPattern>, st: CardState, line: string): CardState {
    EmailStep(PhoneStep(patterns, NameStep(st, line), line), line)
  }

  /** Each field of the line scan changes only on the line kind that sets it. */
  lemma ScanLineFields(patterns: seq<DialPattern>, st: CardState, line: string)
    ensures ScanLineWith(patterns, st, line).name == if SetsName(line) then NameValue(line) else st.name
    ensures (ScanLineWith(patterns, st, line).countryCode, ScanLineWith(patterns, st, line).phone) ==
      if SetsPhone(line) then TelValue(patterns, line) else (st.countryCode, st.phone)
    ensures ScanLineWith(patterns, st, line).email == if SetsEmail(line) then EmailValue(line) else st.email
  {
  }

  /** The `forEach` over a card's lines, from the state `st`. */
  function ScanLinesWith(patterns: seq<DialPattern>, st: CardState, lines: seq<string>): CardState
    decreases |lines|
  {
    if lines == [] then st else ScanLinesWith(patterns, ScanLineWith(patterns, st, lines[0]), lines[1..])
  }

  /** Scanning two runs of lines is scanning the first and then, from where it ended, the
      second. */
  lemma {:induction false} ScanLinesAppend(patterns: seq<DialPattern>, st: CardState, a: seq<string>, b: seq<string>)
    ensures ScanLinesWith(patterns, st, a + b) == ScanLinesWith(patterns, ScanLinesWith(patterns, st, a), b)
    decreases |a|
  {
    if a == [] {
      assert a + b == b;
    } else {
      var ab := a + b;
      assert ab[0] == a[0] && ab[1..] == a[1..] + b;
      ScanLinesAppend(patterns, ScanLineWith(patterns, st, a[0]), a[1..], b);
    }
  }

  /** A card's scan yields a record only if it ended with both a name and a phone. */
  function Record(st: CardState): seq<ParsedContact> {
    if st.name != "" && st.phone != "" then [ParsedContact(st.name, st.phone, st.countryCode, st.email)] else []
  }

  /** The records one card yields: none or one. */
  function CardRecords(patterns: seq<DialPattern>, card: string): seq<ParsedContact> {
    Record(ScanLinesWith(patterns, EmptyCard, Lines(card)))
  }

  /** The records of a sequence of cards, in card order, at most one per card. */
  function DecodeCardsWith(patterns: seq<DialPattern>, cards: seq<string>): (r: seq<ParsedContact>)
    ensures |r| <= |cards|
  {
    if cards == [] then [] else CardRecords(patterns, cards[0]) + DecodeCardsWith(patterns, cards[1..])
  }

  function DecodeWith(patterns: seq<DialPattern>, text: string): seq<ParsedContact> {
    DecodeCardsWith(patterns, Cards(text))
  }

  /** `parseVCF`, with its own eight-code table. */
  function Decode(text: string): seq<ParsedContact> {
    DecodeWith(ParserPatterns, text)
  }

  /** The decoder as it was evidently meant to be: a table entry for every code the forms
      offer. Only the round-trip theorem uses it. */
  function DecodeCorrected(text: string): seq<ParsedContact> {
    DecodeWith(CountryPatterns(), text)
  }

  // ---------------------------------------------------------------------------------------
  // The imperative decoder

  /** The country-code split with the pattern loop of the source, over the table `patterns`. */
  method SplitPhone(patterns: seq<DialPattern>, full: string) returns (countryCode: string, phone: string)
    ensures (countryCode, phone) == SplitPhoneWith(patterns, full)
  {
    if StartsWith(full, "+") {
      var rest := full[1..];
      var matched := false;
      countryCode, phone := "", "";
      for i := 0 to |patterns|
        invariant !matched
        invariant FirstPattern(patterns[i..], rest) == FirstPattern(patterns, rest)
      {
        var pattern := patterns[i];
        var cc := rest[..Min(pattern.length, |rest|)];
        if pattern.code == "+" + cc {
          countryCode := pattern.code;
          phone := rest[Min(pattern.length, |rest|)..];
          matched := true;
          break;
        }
        assert patterns[i..][1..] == patterns[i + 1..];
      }
      if !matched {
        if |rest| > 10 {
          countryCode := "+" + rest[..|rest| - 10];
          phone := rest[|rest| - 10..];
        } else {
          countryCode := "+91";
          phone := rest;
        }
      }
    } else {
      countryCode := "+91";
      phone := full;
    }
  }

  /** Decoding the first `c + 1` cards is decoding the first `c` and then card `c`. */
  lemma DecodeCardsStep(patterns: seq<DialPattern>, cards: seq<string>, c: nat)
    requires c < |cards|
    ensures DecodeCardsWith(patterns, cards[..c + 1]) ==
      DecodeCardsWith(patterns, cards[..c]) + CardRecords(patterns, cards[c])
  {
    assert cards[..c + 1] == cards[..c] + [cards[c]];
    DecodeCardsAppend(patterns, cards[..c], [cards[c]]);
    DecodeCardsOne(patterns, cards[c]);
  }

  lemma DecodeCardsOne(patterns: seq<DialPattern>, card: string)
    ensures DecodeCardsWith(patterns, [card]) == CardRecords(patterns, card)
  {
    var one := [card];
    assert one[0] == card && one[1..] == [];
    assert DecodeCardsWith(patterns, one) == CardRecords(patterns, card) + DecodeCardsWith(patterns, []);
  }

  /** Scanning the lines from `j` on is scanning line `j` and then the lines after it. */
  lemma ScanLinesStep(patterns: seq<DialPattern>, st: CardState, lines: seq<string>, j: nat)
    requires j < |lines|
    ensures ScanLinesWith(patterns, st, lines[j..]) ==
      ScanLinesWith(patterns, ScanLineWith(patterns, st, lines[j]), lines[j + 1..])
  {
    assert lines[j..][1..] == lines[j + 1..];
  }

  /** The body of the inner `forEach` of `parseVCF`: one line, trimmed, tested against the
      three prefixes in turn. */
  method ScanLine(patterns: seq<DialPattern>, name0: string, phone0: string, email0: string, countryCode0: string,
                  line: string)
    returns (name: string, phone: string, email: string, countryCode: string)
    ensures CardState(name, phone, email, countryCode) ==
      ScanLineWith(patterns, CardState(name0, phone0, email0, countryCode0), line)
  {
    name, phone, email, countryCode := name0, phone0, email0, countryCode0;
    var trimmedLine := Trim(line);
    if StartsWith(trimmedLine, "FN:") {
      name := Trim(trimmedLine[3..]);
    }
    ghost var afterName := CardState(name, phone, email, countryCode);
    assert afterName == NameStep(CardState(name0, phone0, email0, countryCode0), line);
    if StartsWith(trimmedLine, "TEL") {
      var phoneMatch := ColonValue(trimmedLine);
      if phoneMatch.Some? {
        var fullPhone := StripSpace(Trim(phoneMatch.value));
        countryCode, phone := SplitPhone(patterns, fullPhone);
      }
    }
    ghost var afterPhone := CardState(name, phone, email, countryCode);
    assert afterPhone == PhoneStep(patterns, afterName, line);
    if StartsWith(trimmedLine, "EMAIL") {
      var emailMatch := ColonValue(trimmedLine);
      if emailMatch.Some? {
        email := Trim(emailMatch.value);
      }
    }
  }

  /** The inner `forEach` of `parseVCF`: the scan of one card's lines into its four locals. */
  method ScanCard(patterns: seq<DialPattern>, lines: seq<string>) returns (name: string, phone: string, email: string, countryCode: string)
    ensures CardState(name, phone, email, countryCode) == ScanLinesWith(patterns, EmptyCard, lines)
  {
    name, phone, email, countryCode := "", "", "", "";
    var j := 0;
    while j < |lines|
      invariant j <= |lines|
      invariant ScanLinesWith(patterns, CardState(name, phone, email, countryCode), lines[j..]) ==
                ScanLinesWith(patterns, EmptyCard, lines)
    {
      ScanLinesStep(patterns, CardState(name, phone, email, countryCode), lines, j);
      name, phone, email, countryCode := ScanLine(patterns, name, phone, email, countryCode, lines[j]);
      j := j + 1;
    }
  }

  /** `parseVCF` over the dial table `patterns`: the cards in order, each scanned, and a
      record kept for every card that ends with a name and a phone. */
  method ParseVcfWith(patterns: seq<DialPattern>, content: string) returns (contacts: seq<ParsedContact>)
    ensures contacts == DecodeWith(patterns, content)
  {
    contacts := [];
    var cards := Cards(content);
    var c := 0;
    while c < |cards|
      invariant c <= |cards|
      invariant contacts == DecodeCardsWith(patterns, cards[..c])
    {
      var name, phone, email, countryCode := ScanCard(patterns, Lines(cards[c]));
      DecodeCardsStep(patterns, cards, c);
      if name != "" && phone != "" {
        contacts := contacts + [ParsedContact(name, phone, countryCode, email)];
      }
      c := c + 1;
    }
    assert cards[..c] == cards;
  }

  /** `parseVCF`: the card loop run with the decoder's own table. */
  method ParseVcf(content: string) returns (contacts: seq<ParsedContact>)
    ensures contacts == Decode(content)
  {
    contacts := ParseVcfWith(ParserPatterns, content);
  }

  // ---------------------------------------------------------------------------------------
  // Properties of the decoder

  /** The scan keeps a `+`-led country code beside any phone it has set. */
  predicate CodeBesidePhone(st: CardState) {
    st.phone != "" ==> |st.countryCode| > 0 && st.countryCode[0] == '+'
  }

  lemma {:induction false} ScanKeepsCode(patterns: seq<DialPattern>, st: CardState, lines: seq<string>)
    requires CodeBesidePhone(st)
    ensures CodeBesidePhone(ScanLinesWith(patterns, st, lines))
    decreases |lines|
  {
    if lines != [] {
      var line := lines[0];
      ScanLineFields(patterns, st, line);
      if SetsPhone(line) {
        SplitPhoneShape(patterns, StripSpace(Trim(ColonValue(Trim(line)).value)));
      }
      ScanKeepsCode(patterns, ScanLineWith(patterns, st, line), lines[1..]);
    }
  }

  /** Every record has a name, a phone and a `+`-led country code. */
  lemma {:induction false} DecodedRecordsComplete(patterns: seq<DialPattern>, cards: seq<string>)
    ensures forall r :: r in DecodeCardsWith(patterns, cards) ==>
      r.name != "" && r.phone != "" && |r.countryCode| > 0 && r.countryCode[0] == '+'
  {
    if cards != [] {
      ScanKeepsCode(patterns, EmptyCard, Lines(cards[0]));
      DecodedRecordsComplete(patterns, cards[1..]);
    }
  }

  /** Records come out in card order: decoding two runs of cards decodes each run. */
  lemma {:induction false} DecodeCardsAppend(patterns: seq<DialPattern>, a: seq<string>, b: seq<string>)
    ensures DecodeCardsWith(patterns, a + b) == DecodeCardsWith(patterns, a) + DecodeCardsWith(patterns, b)
  {
    if a == [] {
      assert a + b == b;
    } else {
      assert (a + b)[0] == a[0];
      assert (a + b)[1..] == a[1..] + b;
      DecodeCardsAppend(patterns, a[1..], b);
    }
  }

  /** Lines that do not set the name leave it alone. */
  lemma {:induction false} ScanKeepsName(patterns: seq<DialPattern>, st: CardState, lines: seq<string>)
    requires forall l :: l in lines ==> !SetsName(l)
    ensures ScanLinesWith(patterns, st, lines).name == st.name
    decreases |lines|
  {
    if lines != [] {
      ScanLineFields(patterns, st, lines[0]);
      ScanKeepsName(patterns, ScanLineWith(patterns, st, lines[0]), lines[1..]);
    }
  }

  /** Lines that do not set the phone leave it and its country code alone. */
  lemma {:induction false} ScanKeepsPhone(patterns: seq<DialPattern>, st: CardState, lines: seq<string>)
    requires forall l :: l in lines ==> !SetsPhone(l)
    ensures ScanLinesWith(patterns, st, lines).phone == st.phone
    ensures ScanLinesWith(patterns, st, lines).countryCode == st.countryCode
    decreases |lines|
  {
    if lines != [] {
      ScanLineFields(patterns, st, lines[0]);
      ScanKeepsPhone(patterns, ScanLineWith(patterns, st, lines[0]), lines[1..]);
    }
  }

  /** Lines that do not set the e-mail leave it alone. */
  lemma {:induction false} ScanKeepsEmail(patterns: seq<DialPattern>, st: CardState, lines: seq<string>)
    requires forall l :: l in lines ==> !SetsEmail(l)
    ensures ScanLinesWith(patterns, st, lines).email == st.email
    decreases |lines|
  {
    if lines != [] {
      ScanLineFields(patterns, st, lines[0]);
      ScanKeepsEmail(patterns, ScanLineWith(patterns, st, lines[0]), lines[1..]);
    }
  }

  lemma FirstNameWins(patterns: seq<DialPattern>, st: CardState, lines: seq<string>)
    requires lines != [] && SetsName(lines[0])
    requires forall l :: l in lines[1..] ==> !SetsName(l)
    ensures ScanLinesWith(patterns, st, lines).name == NameValue(lines[0])
  {
    ScanLineFields(patterns, st, lines[0]);
    ScanKeepsName(patterns, ScanLineWith(patterns, st, lines[0]), lines[1..]);
  }

  /** The last `FN:` line of a card gives the name: the text after `FN:`, trimmed. */
  lemma LastNameWins(patterns: seq<DialPattern>, st: CardState, lines: seq<string>, k: nat)
    requires k < |lines| && SetsName(lines[k])
    requires forall l :: l in lines[k + 1..] ==> !SetsName(l)
    ensures ScanLinesWith(patterns, st, lines).name == NameValue(lines[k])
  {
    var rest := lines[k..];
    assert lines[..k] + rest == lines;
    ScanLinesAppend(patterns, st, lines[..k], rest);
    assert rest[0] == lines[k] && rest[1..] == lines[k + 1..];
    FirstNameWins(patterns, ScanLinesWith(patterns, st, lines[..k]), rest);
  }


  lemma FirstPhoneWins(patterns: seq<DialPattern>, st: CardState, lines: seq<string>)
    requires lines != [] && SetsPhone(lines[0])
    requires forall l :: l in lines[1..] ==> !SetsPhone(l)
    ensures (ScanLinesWith(patterns, st, lines).countryCode, ScanLinesWith(patterns, st, lines).phone) ==
      TelValue(patterns, lines[0])
  {
    ScanLineFields(patterns, st, lines[0]);
    ScanKeepsPhone(patterns, ScanLineWith(patterns, st, lines[0]), lines[1..]);
  }

  /** The last TEL line with a `:` gives the phone and its country code. */
  lemma LastPhoneWins(patterns: seq<DialPattern>, st: CardState, lines: seq<string>, k: nat)
    requires k < |lines| && SetsPhone(lines[k])
    requires forall l :: l in lines[k + 1..] ==> !SetsPhone(l)
    ensures (ScanLinesWith(patterns, st, lines).countryCode, ScanLinesWith(patterns, st, lines).phone) ==
      TelValue(patterns, lines[k])
  {
    var rest := lines[k..];
    assert lines[..k] + rest == lines;
    ScanLinesAppend(patterns, st, lines[..k], rest);
    assert rest[0] == lines[k] && rest[1..] == lines[k + 1..];
    FirstPhoneWins(patterns, ScanLinesWith(patterns, st, lines[..k]), rest);
  }


  lemma FirstEmailWins(patterns: seq<DialPattern>, st: CardState, lines: seq<string>)
    requires lines != [] && SetsEmail(lines[0])
    requires forall l :: l in lines[1..] ==> !SetsEmail(l)
    ensures ScanLinesWith(patterns, st, lines).email == EmailValue(lines[0])
  {
    ScanLineFields(patterns, st, lines[0]);
    ScanKeepsEmail(patterns, ScanLineWith(patterns, st, lines[0]), lines[1..]);
  }

  /** The last EMAIL line with a `:` gives the e-mail, trimmed. */
  lemma LastEmailWins(patterns: seq<DialPattern>, st: CardState, lines: seq<string>, k: nat)
    requires k < |lines| && SetsEmail(lines[k])
    requires forall l :: l in lines[k + 1..] ==> !SetsEmail(l)
    ensures ScanLinesWith(patterns, st, lines).email == EmailValue(lines[k])
  {
    var rest := lines[k..];
    assert lines[..k] + rest == lines;
    ScanLinesAppend(patterns, st, lines[..k], rest);
    assert rest[0] == lines[k] && rest[1..] == lines[k + 1..];
    FirstEmailWins(patterns, ScanLinesWith(patterns, st, lines[..k]), rest);
  }


  /** A card without an EMAIL line yields the e-mail `''`. */
  lemma NoEmailLineGivesEmpty(patterns: seq<DialPattern>, card: string)
    requires forall l :: l in Lines(card) ==> !SetsEmail(l)
    requires CardRecords(patterns, card) != []
    ensures CardRecords(patterns, card)[0].email == ""
  {
    ScanKeepsEmail(patterns, EmptyCard, Lines(card));
  }

  // ---------------------------------------------------------------------------------------
  // getInitials

  /** `name.split(' ')`, scanning left to right with `cur` the word being built. */
  function SplitWordsFrom(s: string, cur: string): seq<string>
    decreases |s|
  {
    if |s| == 0 then [cur]
    else if s[0] == ' ' then [cur] + SplitWordsFrom(s[1..], "")
    else SplitWordsFrom(s[1..], cur + [s[0]])
  }

  /** `.map(word => word[0]).join('')`: an empty word contributes nothing. */
  function FirstChars(words: seq<string>): string {
    if words == [] then []
    else (if words[0] == [] then [] else [words[0][0]]) + FirstChars(words[1..])
  }

  /** `getInitials`: the first characters of the space-separated words, upper-cased, at most two. */
  function GetInitials(name: string): (r: string)
    ensures |r| <= 2
  {
    var joined := ToUpper(FirstChars(SplitWordsFrom(name, "")));
    joined[..Min(2, |joined|)]
  }

  /** The characters that begin a word: not a space, and first or after a space. */
  function WordStartsFrom(s: string, afterSpace: bool): string
    decreases |s|
  {
    if s == [] then []
    else (if s[0] != ' ' && afterSpace then [s[0]] else []) + WordStartsFrom(s[1..], s[0] == ' ')
  }

  lemma {:induction false} FirstCharsAreWordStarts(s: string, cur: string)
    ensures FirstChars(SplitWordsFrom(s, cur)) == (if cur == [] then [] else [cur[0]]) + WordStartsFrom(s, cur == [])
    decreases |s|
  {
    if s == [] {
    } else if s[0] == ' ' {
      FirstCharsAreWordStarts(s[1..], "");
      FirstCharsCons(cur, SplitWordsFrom(s[1..], ""));
      WordStartsStep(s, cur == []);
    } else {
      var word := cur + [s[0]];
      assert word[0] == if cur == [] then s[0] else cur[0];
      FirstCharsAreWordStarts(s[1..], word);
      WordStartsStep(s, cur == []);
      assert (if cur == [] then [] else [cur[0]]) + (if cur == [] then [s[0]] else []) == [word[0]];
    }
  }

  lemma FirstCharsCons(w: string, ws: seq<string>)
    ensures FirstChars([w] + ws) == (if w == [] then [] else [w[0]]) + FirstChars(ws)
  {
    var l := [w] + ws;
    assert l[0] == w && l[1..] == ws;
  }

  lemma WordStartsStep(s: string, afterSpace: bool)
    requires s != []
    ensures WordStartsFrom(s, afterSpace) ==
      (if s[0] != ' ' && afterSpace then [s[0]] else []) + WordStartsFrom(s[1..], s[0] == ' ')
  {
  }


  /** The initials are the upper-cased word-initial characters of the name, the first two of them. */
  lemma InitialsAreWordStarts(name: string)
    ensures var starts := ToUpper(WordStartsFrom(name, true));
      GetInitials(name) == starts[..Min(2, |starts|)]
  {
    FirstCharsAreWordStarts(name, "");
  }
}
