/** The dial-code table `countryCodes` that every form, the loader and the editor consult,
    with the two lookups made on it: `find` by a property, and the longest code whose digits
    begin a phone number's digits. */
module Countries {
  import opened Text

  /** One row of the table; the flag emoji is display-only and not part of the model. */
  datatype Country = Country(code: string, iso: string, name: string, length: nat)

  const Table: seq<Country> := [
    Country("+91", "IN", "India", 10),
    Country("+1", "US", "United States", 10),
    Country("+44", "GB", "United Kingdom", 10),
    Country("+86", "CN", "China", 11),
    Country("+81", "JP", "Japan", 10),
    Country("+49", "DE", "Germany", 10),
    Country("+33", "FR", "France", 9),
    Country("+61", "AU", "Australia", 9),
    Country("+971", "AE", "UAE", 9),
    Country("+65", "SG", "Singapore", 8)
  ]

  /** `c.code.replace(/\D/g, '')`. */
  function CodeDigits(c: Country): string {
    DigitsOf(c.code)
  }

  /** The shape of the table: ten rows, `+91`/India first, every code a `+` and digits. */
  lemma TableShape()
    ensures |Table| == 10
    ensures Table[0] == Country("+91", "IN", "India", 10)
    ensures forall i :: 0 <= i < |Table| ==> 8 <= Table[i].length <= 11
    ensures forall i :: 0 <= i < |Table| ==>
      |Table[i].code| >= 2 && Table[i].code[0] == '+' && AllDigits(Table[i].code[1..])
    ensures forall i, j :: 0 <= i < j < |Table| ==> Table[i].code != Table[j].code
  {
  }

  /** The digits of each code are the code without its `+`. */
  lemma {:induction false} CodeDigitsAreTail(c: Country)
    requires c in Table
    ensures |c.code| >= 2 && CodeDigits(c) == c.code[1..]
  {
    TableShape();
    assert c.code == [c.code[0]] + c.code[1..];
    DigitsOfAppend([c.code[0]], c.code[1..]);
    DigitsOfFixed(c.code[1..]);
  }

  /** No code's digits begin another code's digits, so a phone number has at most one
      matching code. */
  lemma PrefixFree()
    ensures forall i, j :: 0 <= i < |Table| && 0 <= j < |Table| && i != j ==>
      !StartsWith(CodeDigits(Table[j]), CodeDigits(Table[i]))
  {
    forall i, j | 0 <= i < |Table| && 0 <= j < |Table| && i != j
      ensures !StartsWith(CodeDigits(Table[j]), CodeDigits(Table[i]))
    {
      PrefixFreePair(i, j);
    }
  }

  /** The first two digits tell any two codes apart. */
  lemma HeadsDiffer()
    ensures forall i, j :: 0 <= i < |Table| && 0 <= j < |Table| && i != j ==>
      |Table[i].code| >= 2 && |Table[j].code| >= 2 &&
      (Table[i].code[1] != Table[j].code[1] ||
       (|Table[i].code| >= 3 && |Table[j].code| >= 3 && Table[i].code[2] != Table[j].code[2]))
  {
  }

  lemma PrefixFreePair(i: nat, j: nat)
    requires i < |Table| && j < |Table| && i != j
    ensures !StartsWith(CodeDigits(Table[j]), CodeDigits(Table[i]))
  {
    CodeDigitsAreTail(Table[i]);
    CodeDigitsAreTail(Table[j]);
    HeadsDiffer();
    var a, b := Table[i].code, Table[j].code;
    if a[1] != b[1] {
      assert a[1..][0] != b[1..][0];
    } else {
      assert a[1..][1] != b[1..][1];
    }
  }

  /** The three properties the screens look a row up by: its code, its code's digits, and
      its upper-cased ISO country. */
  datatype Key = ByCode(code: string) | ByCodeDigits(digits: string) | ByUpperIso(upper: string)

  predicate Hits(c: Country, k: Key) {
    match k
    case ByCode(code) => c.code == code
    case ByCodeDigits(digits) => CodeDigits(c) == digits
    case ByUpperIso(upper) => ToUpper(c.iso) == upper
  }

  /** `entries[i]` is the first entry the key hits. */
  predicate FirstAt(entries: seq<Country>, k: Key, i: int) {
    0 <= i < |entries| && Hits(entries[i], k) && forall j :: 0 <= j < i ==> !Hits(entries[j], k)
  }

  /** `Array.prototype.find` with one of those properties: the first entry the key hits. */
  function Find(entries: seq<Country>, k: Key): (r: Option<Country>)
    ensures r.None? <==> forall c :: c in entries ==> !Hits(c, k)
    ensures r.Some? ==> exists i :: FirstAt(entries, k, i) && entries[i] == r.value
    ensures r.Some? ==> r.value in entries
  {
    if entries == [] then None
    else if Hits(entries[0], k) then (assert FirstAt(entries, k, 0); Some(entries[0]))
    else
      var r := Find(entries[1..], k);
      if r.Some? then
        var i :| FirstAt(entries[1..], k, i) && entries[1..][i] == r.value;
        assert FirstAt(entries, k, i + 1);
        r
      else r
  }

  /** The `filter` step: the entries whose code digits begin `digits`, in table order. */
  function Candidates(entries: seq<Country>, digits: string): (r: seq<Country>)
    ensures forall c :: c in r <==> c in entries && StartsWith(digits, CodeDigits(c))
  {
    if entries == [] then []
    else if StartsWith(digits, CodeDigits(entries[0])) then [entries[0]] + Candidates(entries[1..], digits)
    else Candidates(entries[1..], digits)
  }

  /** The `sort((a, b) => b.d.length - a.d.length)[0]` step: the first entry of greatest
      code-digit length (the sort is stable). */
  function Longest(cands: seq<Country>): (r: Country)
    requires |cands| > 0
    ensures r in cands && forall c :: c in cands ==> |CodeDigits(c)| <= |CodeDigits(r)|
  {
    if |cands| == 1 then cands[0]
    else
      var rest := Longest(cands[1..]);
      if |CodeDigits(cands[0])| >= |CodeDigits(rest)| then cands[0] else rest
  }

  /** The longest table code whose digits begin `digits`, if any. */
  function LongestPrefixEntry(digits: string): Option<Country> {
    var cands := Candidates(Table, digits);
    if cands == [] then None else Some(Longest(cands))
  }

  /** Two prefixes of the same string are comparable: one begins the other. */
  lemma PrefixesComparable(s: string, a: string, b: string)
    requires StartsWith(s, a) && StartsWith(s, b)
    ensures StartsWith(a, b) || StartsWith(b, a)
  {
    if |a| <= |b| {
      assert b[..|a|] == s[..|a|];
    } else {
      assert a[..|b|] == s[..|b|];
    }
  }

  /** Two table rows whose code digits both begin `digits` are the same row. */
  lemma SamePrefixRow(i: nat, j: nat, digits: string)
    requires i < |Table| && j < |Table|
    requires StartsWith(digits, CodeDigits(Table[i])) && StartsWith(digits, CodeDigits(Table[j]))
    ensures i == j
  {
    PrefixFree();
    PrefixesComparable(digits, CodeDigits(Table[i]), CodeDigits(Table[j]));
  }

  /** Because the codes are prefix-free, the longest-prefix search finds an entry exactly when
      some code's digits begin `digits`, and then it is the only such entry. */
  lemma LongestPrefixUnique(digits: string)
    ensures LongestPrefixEntry(digits).Some? <==> exists c :: c in Table && StartsWith(digits, CodeDigits(c))
    ensures LongestPrefixEntry(digits).Some? ==>
      var e := LongestPrefixEntry(digits).value;
      e in Table && StartsWith(digits, CodeDigits(e)) &&
      forall c :: c in Table && StartsWith(digits, CodeDigits(c)) ==> c == e
  {
    var r := LongestPrefixEntry(digits);
    if r.Some? {
      var e := r.value;
      forall c | c in Table && StartsWith(digits, CodeDigits(c))
        ensures c == e
      {
        var i :| 0 <= i < |Table| && Table[i] == c;
        var j :| 0 <= j < |Table| && Table[j] == e;
        SamePrefixRow(i, j, digits);
      }
    }
  }
}
