/** How the exported text is framed for the decoder: where the card marker can occur, and
    how the text written by the export callback falls apart again into cards and lines. */
module Framing {
  import opened Text
  import opened VcfDecode
  import opened VcfEncode

  /** No card marker begins anywhere inside `s` (a window that runs past the end of `s` is
      too short to be one). */
  predicate MarkerFree(s: string) {
    forall i :: 0 <= i < |s| ==> !MarkerAt(s[i..])
  }

  /** A character that fits no position of the marker in any case. */
  predicate Stopper(c: char) {
    c == ';' || c == '\r' || c == '\n'
  }

  /** No character of `s` can open the marker. */
  predicate NoB(s: string) {
    forall i :: 0 <= i < |s| ==> s[i] != 'B' && s[i] != 'b'
  }

  /** A line of the exported card that is safe to frame: no marker inside it and no line
      terminator. */
  predicate Clean(s: string) {
    MarkerFree(s) && NoLineTerminator(s)
  }

  lemma MarkerUpper()
    ensures ToUpper(Marker) == Marker
  {
  }

  /** A window with a character that differs from the marker's at the same place is no marker. */
  lemma Blocked(s: string, k: nat)
    requires k < |Marker| && k < |s| && UpperChar(s[k]) != Marker[k]
    ensures !MarkerAt(s)
  {
  }

  lemma StopperBlocks(c: char, k: nat)
    requires Stopper(c) && k < |Marker|
    ensures UpperChar(c) != Marker[k]
  {
  }

  lemma NoBMarkerFree(s: string)
    requires NoB(s)
    ensures MarkerFree(s)
  {
    forall i | 0 <= i < |s|
      ensures !MarkerAt(s[i..])
    {
      Blocked(s[i..], 0);
    }
  }

  lemma NoBAppend(a: string, b: string)
    requires NoB(a) && NoB(b)
    ensures NoB(a + b)
  {
    forall i | 0 <= i < |a + b|
      ensures (a + b)[i] != 'B' && (a + b)[i] != 'b'
    {
      if i >= |a| {
        assert (a + b)[i] == b[i - |a|];
      }
    }
  }

  lemma NoLineTerminatorAppend(a: string, b: string)
    requires NoLineTerminator(a) && NoLineTerminator(b)
    ensures NoLineTerminator(a + b)
  {
    forall i | 0 <= i < |a + b|
      ensures !IsLineTerminator((a + b)[i])
    {
      if i >= |a| {
        assert (a + b)[i] == b[i - |a|];
      }
    }
  }

  /** Digits can neither open the marker nor end a line. */
  lemma DigitsClean(s: string)
    requires AllDigits(s)
    ensures NoB(s) && Clean(s)
  {
    NoBMarkerFree(s);
  }

  /** A literal line without `B` and without line terminators. */
  lemma PlainClean(s: string)
    requires NoB(s) && NoLineTerminator(s)
    ensures Clean(s)
  {
    NoBMarkerFree(s);
  }

  /** Putting two marker-free strings side by side creates no marker, as long as every window
      across the seam is broken: by a first half that cannot open the marker, or by a
      stopper on either side of the seam. */
  lemma MarkerFreeAppend(a: string, b: string)
    requires MarkerFree(a) && MarkerFree(b)
    requires NoB(a) || (a != [] && Stopper(a[|a| - 1])) || (b != [] && Stopper(b[0]))
    ensures MarkerFree(a + b)
  {
    forall i | 0 <= i < |a + b|
      ensures !MarkerAt((a + b)[i..])
    {
      var w := (a + b)[i..];
      if i >= |a| {
        assert w == b[i - |a|..];
      } else if i + |Marker| <= |a| {
        assert w[..|Marker|] == a[i..][..|Marker|];
        assert !MarkerAt(a[i..]);
      } else if NoB(a) {
        Blocked(w, 0);
      } else if a != [] && Stopper(a[|a| - 1]) {
        assert w[|a| - 1 - i] == a[|a| - 1];
        StopperBlocks(a[|a| - 1], |a| - 1 - i);
        Blocked(w, |a| - 1 - i);
      } else {
        assert w[|a| - i] == b[0];
        StopperBlocks(b[0], |a| - i);
        Blocked(w, |a| - i);
      }
    }
  }

  lemma CleanAppend(a: string, b: string)
    requires Clean(a) && Clean(b)
    requires NoB(a) || (a != [] && Stopper(a[|a| - 1])) || (b != [] && Stopper(b[0]))
    ensures Clean(a + b)
  {
    MarkerFreeAppend(a, b);
    NoLineTerminatorAppend(a, b);
  }

  /** Joined clean lines hold no marker, and the text ends with a line feed. */
  lemma {:induction false} MarkerFreeJoin(ls: seq<string>)
    requires forall l :: l in ls ==> MarkerFree(l)
    ensures MarkerFree(JoinCrlf(ls))
    ensures ls != [] ==> |JoinCrlf(ls)| > 0 && JoinCrlf(ls)[|JoinCrlf(ls)| - 1] == '\n'
  {
    if ls != [] {
      assert ls[0] in ls;
      assert forall l :: l in ls[1..] ==> l in ls;
      MarkerFreeJoin(ls[1..]);
      NoBMarkerFree("\r\n");
      MarkerFreeAppend(ls[0], "\r\n");
      var head := ls[0] + "\r\n";
      assert head[|head| - 1] == '\n';
      MarkerFreeAppend(head, JoinCrlf(ls[1..]));
      if ls[1..] != [] {
        var t := JoinCrlf(ls[1..]);
        assert (head + t)[|head + t| - 1] == t[|t| - 1];
      }
    }
  }

  /** The cutter reads a marker-free run that ends in a stopper without cutting it. */
  lemma {:induction false} SplitCardsSkip(s: string, t: string, cur: string)
    requires MarkerFree(s) && (s == [] || Stopper(s[|s| - 1]))
    ensures SplitCardsFrom(s + t, cur) == SplitCardsFrom(t, cur + s)
    decreases |s|
  {
    if s == [] {
      assert s + t == t;
      assert cur + s == cur;
    } else {
      assert !MarkerAt(s + t) by {
        if |s| >= |Marker| {
          assert (s + t)[..|Marker|] == s[..|Marker|];
          assert s[0..] == s;
        } else {
          assert (s + t)[|s| - 1] == s[|s| - 1];
          StopperBlocks(s[|s| - 1], |s| - 1);
          Blocked(s + t, |s| - 1);
        }
      }
      assert (s + t)[1..] == s[1..] + t;
      assert MarkerFree(s[1..]) by {
        forall i | 0 <= i < |s[1..]|
          ensures !MarkerAt(s[1..][i..])
        {
          assert s[1..][i..] == s[i + 1..];
        }
      }
      SplitCardsSkip(s[1..], t, cur + [s[0]]);
      assert cur + [s[0]] + s[1..] == cur + s;
    }
  }

  /** The splitter reads a run without line feeds into the current piece. */
  lemma {:induction false} SplitLinesSkip(s: string, t: string, cur: string)
    requires NoLineTerminator(s)
    ensures SplitLinesFrom(s + t, cur) == SplitLinesFrom(t, cur + s)
    decreases |s|
  {
    if s == [] {
      assert s + t == t;
      assert cur + s == cur;
    } else {
      assert (s + t)[0] == s[0];
      assert (s + t)[1..] == s[1..] + t;
      SplitLinesSkip(s[1..], t, cur + [s[0]]);
      assert cur + [s[0]] + s[1..] == cur + s;
    }
  }

  /** A line without terminators, its CRLF and what follows split into the line and the
      pieces of what follows. */
  lemma SplitLinesCrlf(line: string, rest: string)
    requires NoLineTerminator(line)
    ensures SplitLinesFrom(line + "\r\n" + rest, "") == [line] + SplitLinesFrom(rest, "")
  {
    var crlf := "\r\n" + rest;
    assert line + "\r\n" + rest == line + crlf;
    SplitLinesSkip(line, crlf, "");
    assert "" + line == line;
    var lf := "\n" + rest;
    assert crlf[0] == '\r' && crlf[1..] == lf;
    assert SplitLinesFrom(crlf, line) == SplitLinesFrom(lf, line + ['\r']);
    assert lf[0] == '\n' && lf[1..] == rest;
    assert (line + ['\r'])[..|line|] == line;
    assert DropCR(line + ['\r']) == line;
  }

  /** CRLF-joined lines without terminators split back into the same lines, followed by the
      empty piece after the last line feed. */
  lemma {:induction false} SplitLinesJoin(ls: seq<string>)
    requires forall l :: l in ls ==> NoLineTerminator(l)
    ensures SplitLinesFrom(JoinCrlf(ls), "") == ls + [""]
  {
    if ls != [] {
      var line, tail := ls[0], ls[1..];
      assert line in ls;
      assert forall l :: l in tail ==> l in ls;
      SplitLinesCrlf(line, JoinCrlf(tail));
      SplitLinesJoin(tail);
      assert ls + [""] == [line] + (tail + [""]);
    }
  }

  lemma {:induction false} NonBlankAppend(a: seq<string>, b: seq<string>)
    ensures NonBlank(a + b) == NonBlank(a) + NonBlank(b)
  {
    if a == [] {
      assert a + b == b;
    } else {
      assert (a + b)[1..] == a[1..] + b;
      NonBlankAppend(a[1..], b);
    }
  }

  lemma {:induction false} NonBlankKeeps(ps: seq<string>)
    requires forall p :: p in ps ==> !IsBlank(p)
    ensures NonBlank(ps) == ps
  {
    if ps != [] {
      assert ps[0] in ps;
      assert forall p :: p in ps[1..] ==> p in ps;
      NonBlankKeeps(ps[1..]);
    }
  }

  /** The lines after the marker line of a card, in the order they are written. */
  function TailLinesOf(uid: string, name: string, e164: string, email: string): seq<string> {
    ["VERSION:3.0"] + ["UID:" + uid] + ["N:;" + name + ";;;"] + ["FN:" + name] +
    Optional(e164 != [], "TEL;TYPE=CELL:" + e164) + Optional(email != [], "EMAIL:" + email) + ["END:VCARD"]
  }

  function TailLines(c: Contact): seq<string> {
    TailLinesOf(Uid(c.id), c.name, ToE164(c.countryCode, c.phone), Trim(c.email))
  }

  /** The fragment the cutter yields for one exported card: everything after its marker. */
  function Body(c: Contact): string {
    "\r\n" + JoinCrlf(TailLines(c))
  }

  function Bodies(cs: seq<Contact>): (r: seq<string>)
    ensures |r| == |cs|
  {
    if cs == [] then [] else [Body(cs[0])] + Bodies(cs[1..])
  }

  lemma CardLinesSplit(uid: string, name: string, e164: string, email: string)
    ensures CardLinesOf(uid, name, e164, email) == [Marker] + TailLinesOf(uid, name, e164, email)
  {
  }

  lemma JoinAfterMarker(tail: seq<string>)
    ensures JoinCrlf([Marker] + tail) == Marker + ("\r\n" + JoinCrlf(tail))
  {
    assert ([Marker] + tail)[1..] == tail;
  }

  /** A card is its marker followed by its body. */
  lemma CardSplitsAtMarker(c: Contact)
    ensures CardText(c) == Marker + Body(c)
  {
    CardLinesSplit(Uid(c.id), c.name, ToE164(c.countryCode, c.phone), Trim(c.email));
    JoinAfterMarker(TailLines(c));
  }

  /** The fields the exported card is safe to frame with. */
  predicate Frameable(c: Contact) {
    Clean(c.name) && Clean(Trim(c.email))
  }

  lemma UidLineClean(id: nat)
    ensures Clean("UID:" + Uid(id))
  {
    PlainClean("@contact-list");
    PlainClean("UID:");
    DigitsClean(NatToString(id));
    CleanAppend(NatToString(id), "@contact-list");
    NoBAppend(NatToString(id), "@contact-list");
    CleanAppend("UID:", Uid(id));
  }

  lemma NameLinesClean(name: string)
    requires Clean(name)
    ensures Clean("N:;" + name + ";;;") && Clean("FN:" + name)
  {
    PlainClean("N:;");
    PlainClean(";;;");
    CleanAppend("N:;", name);
    CleanAppend("N:;" + name, ";;;");
    PlainClean("FN:");
    CleanAppend("FN:", name);
  }

  lemma TelLineClean(ds: string)
    requires AllDigits(ds)
    ensures Clean("TEL;TYPE=CELL:" + ("+" + ds))
  {
    DigitsClean(ds);
    PlainClean("+");
    NoBAppend("+", ds);
    CleanAppend("+", ds);
    PlainClean("TEL;TYPE=CELL:");
    CleanAppend("TEL;TYPE=CELL:", "+" + ds);
  }

  lemma EmailLineClean(email: string)
    requires Clean(email)
    ensures Clean("EMAIL:" + email)
  {
    PlainClean("EMAIL:");
    CleanAppend("EMAIL:", email);
  }

  /** Every line after the marker line is one of the seven kinds, and none is blank. */
  lemma TailLinesOfShape(uid: string, name: string, e164: string, email: string)
    ensures forall l :: l in TailLinesOf(uid, name, e164, email) ==>
      !IsBlank(l) &&
      (l == "VERSION:3.0" || l == "UID:" + uid || l == "N:;" + name + ";;;" || l == "FN:" + name ||
       (e164 != [] && l == "TEL;TYPE=CELL:" + e164) || (email != [] && l == "EMAIL:" + email) ||
       l == "END:VCARD")
  {
    forall l | l in TailLinesOf(uid, name, e164, email)
      ensures !IsBlank(l)
    {
      TailLineKinds(uid, name, e164, email, l);
      assert !IsSpace(l[0]);
    }
  }

  lemma TailLineKinds(uid: string, name: string, e164: string, email: string, l: string)
    requires l in TailLinesOf(uid, name, e164, email)
    ensures l == "VERSION:3.0" || l == "UID:" + uid || l == "N:;" + name + ";;;" || l == "FN:" + name ||
      (e164 != [] && l == "TEL;TYPE=CELL:" + e164) || (email != [] && l == "EMAIL:" + email) ||
      l == "END:VCARD"
  {
  }

  lemma TailLinesOfClean(uid: string, name: string, e164: string, email: string)
    requires Clean("UID:" + uid) && Clean(name) && Clean(email)
    requires e164 != [] ==> Clean("TEL;TYPE=CELL:" + e164)
    ensures forall l :: l in TailLinesOf(uid, name, e164, email) ==> Clean(l) && !IsBlank(l)
  {
    PlainClean("VERSION:3.0");
    PlainClean("END:VCARD");
    NameLinesClean(name);
    EmailLineClean(email);
    TailLinesOfShape(uid, name, e164, email);
  }

  /** Every line after the marker line of an exported card is clean and not blank. */
  lemma TailLinesClean(c: Contact)
    requires Frameable(c)
    ensures forall l :: l in TailLines(c) ==> Clean(l) && !IsBlank(l)
  {
    var e164 := ToE164(c.countryCode, c.phone);
    UidLineClean(c.id);
    if e164 != [] {
      ToE164Shape(c.countryCode, c.phone);
      TelLineClean(DigitsOf(c.countryCode) + National(c.countryCode, c.phone));
    }
    TailLinesOfClean(Uid(c.id), c.name, e164, Trim(c.email));
  }

  /** A CRLF-led run of clean, non-blank lines holds no marker, ends with a line feed and is
      not blank. */
  lemma BodyOfFree(tail: seq<string>)
    requires tail != [] && forall l :: l in tail ==> Clean(l) && !IsBlank(l)
    ensures var body := "\r\n" + JoinCrlf(tail);
      MarkerFree(body) && |body| > 0 && Stopper(body[|body| - 1]) && !IsBlank(body)
  {
    var j := JoinCrlf(tail);
    var body := "\r\n" + j;
    MarkerFreeJoin(tail);
    NoBMarkerFree("\r\n");
    MarkerFreeAppend("\r\n", j);
    assert body[|body| - 1] == j[|j| - 1];
    assert tail[0] in tail;
    var i :| 0 <= i < |tail[0]| && !IsSpace(tail[0][i]);
    assert j == tail[0] + ("\r\n" + JoinCrlf(tail[1..]));
    assert body[2 + i] == tail[0][i];
  }

  /** The non-blank lines of a CRLF-led run of clean, non-blank lines are those lines. */
  lemma BodyOfLines(tail: seq<string>)
    requires forall l :: l in tail ==> Clean(l) && !IsBlank(l)
    ensures Lines("\r\n" + JoinCrlf(tail)) == tail
  {
    assert ([""] + tail)[1..] == tail;
    assert "\r\n" + JoinCrlf(tail) == JoinCrlf([""] + tail);
    assert forall l :: l in [""] + tail ==> NoLineTerminator(l);
    SplitLinesJoin([""] + tail);
    NonBlankAppend([""] + tail, [""]);
    NonBlankAppend([""], tail);
    NonBlankKeeps(tail);
  }

  /** The non-blank lines of an exported card body are the lines written after its marker. */
  lemma BodyLines(c: Contact)
    requires Frameable(c)
    ensures MarkerFree(Body(c)) && |Body(c)| > 0 && Stopper(Body(c)[|Body(c)| - 1])
    ensures !IsBlank(Body(c))
    ensures Lines(Body(c)) == TailLines(c)
  {
    TailLinesClean(c);
    BodyOfFree(TailLines(c));
    BodyOfLines(TailLines(c));
  }

  /** The cutter cuts at a marker and reads a marker-free body that ends in a stopper whole. */
  lemma CutAtMarker(body: string, rest: string, cur: string)
    requires MarkerFree(body) && body != [] && Stopper(body[|body| - 1])
    ensures SplitCardsFrom(Marker + body + rest, cur) == [cur] + SplitCardsFrom(rest, body)
  {
    var s := Marker + (body + rest);
    assert Marker + body + rest == s;
    assert s[..|Marker|] == Marker;
    MarkerUpper();
    assert s[|Marker|..] == body + rest;
    SplitCardsSkip(body, rest, "");
    assert "" + body == body;
  }

  /** Cutting the exported text at the markers gives the leading fragment and then one body
      per contact, in order. */
  lemma {:induction false} SplitExport(cs: seq<Contact>, cur: string)
    requires forall c :: c in cs ==> Frameable(c)
    ensures SplitCardsFrom(ExportText(cs), cur) == [cur] + Bodies(cs)
  {
    if cs != [] {
      assert cs[0] in cs;
      assert forall d :: d in cs[1..] ==> d in cs;
      CardSplitsAtMarker(cs[0]);
      BodyLines(cs[0]);
      CutAtMarker(Body(cs[0]), ExportText(cs[1..]), cur);
      SplitExport(cs[1..], Body(cs[0]));
    }
  }

  /** The cards the decoder sees in an exported text are exactly the contacts' bodies. */
  lemma CardsOfExport(cs: seq<Contact>)
    requires forall c :: c in cs ==> Frameable(c)
    ensures Cards(ExportText(cs)) == Bodies(cs)
  {
    SplitExport(cs, "");
    NonBlankAppend([""], Bodies(cs));
    BodiesNotBlank(cs);
    NonBlankKeeps(Bodies(cs));
  }

  lemma {:induction false} BodiesNotBlank(cs: seq<Contact>)
    requires forall c :: c in cs ==> Frameable(c)
    ensures forall b :: b in Bodies(cs) ==> !IsBlank(b)
  {
    if cs != [] {
      assert cs[0] in cs;
      assert forall d :: d in cs[1..] ==> d in cs;
      BodyLines(cs[0]);
      BodiesNotBlank(cs[1..]);
    }
  }
}
