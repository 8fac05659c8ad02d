/**
 Which local parts `UnquoteMbox` accepts, what it makes of them, and which error it reports for the others
 (framework/address/split.go:59-105).
 */
module AddressMeaning {
  import opened Common
  import opened Address

  /** Text that needs no quotes: no quote, no backslash, no at-sign. */
  predicate BareText(p: string) { '"' !in p && '\\' !in p && '@' !in p }

  /** A character inside quotes, as itself or behind a backslash. */
  datatype Unit = Plain(c: char) | Slashed(c: char)

  predicate UnitsOk(us: seq<Unit>) {
    forall i :: 0 <= i < |us| && us[i].Plain? ==> us[i].c != '"' && us[i].c != '\\'
  }

  function Spell(us: seq<Unit>): string {
    if us == [] then ""
    else
      var u := us[|us| - 1];
      Spell(us[..|us| - 1]) + if u.Plain? then [u.c] else ['\\', u.c]
  }

  function Meant(us: seq<Unit>): (t: string)
    ensures |t| == |us| && forall i :: 0 <= i < |us| ==> t[i] == us[i].c
  {
    seq(|us|, i requires 0 <= i < |us| => us[i].c)
  }

  /** Bare text, an opening quote and units. */
  function Opened(p: string, us: seq<Unit>): string { p + "\"" + Spell(us) }

  lemma {:induction false} SpellSnoc(us: seq<Unit>, u: Unit)
    ensures Spell(us + [u]) == Spell(us) + if u.Plain? then [u.c] else ['\\', u.c]
    ensures Meant(us + [u]) == Meant(us) + [u.c]
  {
    assert (us + [u])[..|us|] == us;
  }

  // ---------------------------------------------------------------------------
  // What the scanner makes of well-formed text
  // ---------------------------------------------------------------------------

  lemma {:induction false} BareScans(p: string)
    requires BareText(p)
    ensures ScanAll(p) == Ok(Scan(false, false, false, p))
  {
    if p != "" {
      BareScans(p[..|p| - 1]);
      assert p == p[..|p| - 1] + [p[|p| - 1]];
    }
  }

  lemma {:induction false} UnitsScan(p: string, us: seq<Unit>)
    requires BareText(p) && UnitsOk(us)
    ensures ScanAll(Opened(p, us)) == Ok(Scan(true, false, false, p + Meant(us)))
    decreases |us|
  {
    hide ScanAll, BareText;
    if us == [] {
      BareScans(p);
      ScanSnoc(p, '"');
      assert Opened(p, us) == p + ['"'] && p + Meant(us) == p;
    } else {
      var front, u := us[..|us| - 1], us[|us| - 1];
      UnitsScan(p, front);
      assert us == front + [u];
      SpellSnoc(front, u);
      assert p + Meant(us) == p + Meant(front) + [u.c];
      if u.Plain? {
        ScanSnoc(Opened(p, front), u.c);
        assert Opened(p, us) == Opened(p, front) + [u.c];
      } else {
        ScanSnoc(Opened(p, front), '\\');
        ScanSnoc(Opened(p, front) + ['\\'], u.c);
        assert Opened(p, us) == Opened(p, front) + ['\\'] + [u.c];
      }
    }
  }

  // ---------------------------------------------------------------------------
  // What a scan says about the text
  // ---------------------------------------------------------------------------

  /** The scanner has read bare text, is inside quotes, or is behind the closing one. */
  datatype Shape = Outside(p: string) | Inside(p: string, us: seq<Unit>) | Closed(p: string, us: seq<Unit>)

  predicate ShapeOk(h: Shape) { BareText(h.p) && (!h.Outside? ==> UnitsOk(h.us)) }

  function Written(h: Shape, escaped: bool): string {
    match h
    case Outside(p) => p
    case Inside(p, us) => Opened(p, us) + (if escaped then "\\" else "")
    case Closed(p, us) => Opened(p, us) + "\""
  }

  function TextOf(h: Shape): string { if h.Outside? then h.p else h.p + Meant(h.us) }

  /** The shape is what a scan of the text has come to. */
  predicate Matches(s: string, st: Scan, h: Shape) {
    && ShapeOk(h) && s == Written(h, st.escaped) && st.text == TextOf(h)
    && st.quoted == h.Inside? && st.terminated == h.Closed? && (st.escaped ==> h.Inside?)
  }

  lemma {:induction false} ShapeOf(s: string) returns (h: Shape)
    requires ScanAll(s).Ok?
    ensures Matches(s, ScanAll(s).value, h)
    decreases |s|
  {
    if s == "" {
      h := Outside("");
    } else {
      var front, c := s[..|s| - 1], s[|s| - 1];
      assert s == front + [c];
      var g := ShapeOf(front);
      h := NextShape(front, ScanAll(front).value, g, c);
    }
  }

  lemma {:induction false} NextShape(s: string, st: Scan, g: Shape, c: char) returns (h: Shape)
    requires Matches(s, st, g) && ScanChar(st, c).Ok?
    ensures Matches(s + [c], ScanChar(st, c).value, h)
  {
    hide BareText, UnitsOk, Opened;
    match g
    case Outside(p) =>
      if c == '"' {
        h := Inside(p, []);
        Opens(p);
      } else {
        h := Outside(p + [c]);
        StaysBare(p, c);
      }
    case Inside(p, us) =>
      if st.escaped {
        h := Inside(p, us + [Slashed(c)]);
        OneMoreUnit(p, us, Slashed(c));
      } else if c == '"' || c == '\\' {
        h := if c == '"' then Closed(p, us) else g;
        assert s + [c] == Opened(p, us) + [c];
      } else {
        h := Inside(p, us + [Plain(c)]);
        OneMoreUnit(p, us, Plain(c));
      }
    case Closed(p, us) => h := g;
  }

  lemma {:induction false} Opens(p: string)
    ensures p + "\"" == Opened(p, []) + "" && p + Meant([]) == p && UnitsOk([])
  {}

  lemma {:induction false} StaysBare(p: string, c: char)
    requires BareText(p) && c != '"' && c != '\\' && c != '@'
    ensures BareText(p + [c])
  {}

  lemma {:induction false} OneMoreUnit(p: string, us: seq<Unit>, u: Unit)
    requires UnitsOk(us) && (u.Plain? ==> u.c != '"' && u.c != '\\')
    ensures UnitsOk(us + [u]) && p + Meant(us) + [u.c] == p + Meant(us + [u])
    ensures Opened(p, us + [u]) + "" == Opened(p, us) + (if u.Plain? then "" else "\\") + [u.c]
  {
    hide Spell, Meant;
    SpellSnoc(us, u);
    var x := Spell(us);
    if u.Plain? {
      assert p + "\"" + (x + [u.c]) + "" == p + "\"" + x + "" + [u.c];
    } else {
      assert p + "\"" + (x + ['\\', u.c]) + "" == p + "\"" + x + "\\" + [u.c];
    }
  }

  /** The scan of a written shape. */
  lemma {:induction false} ShapeScans(h: Shape, escaped: bool)
    requires ShapeOk(h) && (escaped ==> h.Inside?)
    ensures ScanAll(Written(h, escaped)) == Ok(Scan(h.Inside?, escaped, h.Closed?, TextOf(h)))
  {
    hide ScanAll, BareText, UnitsOk;
    match h
    case Outside(p) => BareScans(p);
    case Inside(p, us) =>
      UnitsScan(p, us);
      if escaped {
        ScanSnoc(Opened(p, us), '\\');
        assert Written(h, true) == Opened(p, us) + ['\\'];
      } else {
        assert Written(h, false) == Opened(p, us);
      }
    case Closed(p, us) =>
      UnitsScan(p, us);
      ScanSnoc(Opened(p, us), '"');
      assert Written(h, escaped) == Opened(p, us) + ['"'];
  }

  // ---------------------------------------------------------------------------
  // The theorems
  // ---------------------------------------------------------------------------

  /**
   A local part unquotes to a text exactly if it is that text, without quotes, backslashes and at-signs; or
   such text, a quote and quoted characters which together give it, with the closing quote or, unlike what
   the grammar of RFC 5321 asks for, without it.
   */
  lemma {:induction false} UnquotesIff(mbox: string, t: string)
    ensures UnquotedForm(mbox) == Ok(t) <==>
            && t != ""
            && (|| (BareText(mbox) && mbox == t)
                || exists p, us, end :: BareText(p) && UnitsOk(us) && end in {"", "\\", "\""}
                                        && mbox == Opened(p, us) + end && t == p + Meant(us))
  {
    hide ScanAll;
    if UnquotedForm(mbox) == Ok(t) {
      var h := ShapeOf(mbox);
      if !h.Outside? {
        var end := if h.Closed? then "\"" else if ScanAll(mbox).value.escaped then "\\" else "";
        assert mbox == Opened(h.p, h.us) + end && t == h.p + Meant(h.us) && end in {"", "\\", "\""};
      }
    }
    if t != "" && BareText(mbox) && mbox == t { ShapeScans(Outside(mbox), false); }
    if exists p, us, end :: BareText(p) && UnitsOk(us) && end in {"", "\\", "\""}
                            && mbox == Opened(p, us) + end && t == p + Meant(us) {
      var p, us, end :| BareText(p) && UnitsOk(us) && end in {"", "\\", "\""}
                        && mbox == Opened(p, us) + end && t == p + Meant(us);
      if end == "\"" { ShapeScans(Closed(p, us), false); } else { ShapeScans(Inside(p, us), end == "\\"); }
    }
  }

  /** The character at which the scan fails, and the shape of what is before it. */
  lemma {:induction false} FailsAt(s: string) returns (k: nat, h: Shape)
    requires ScanAll(s).Err?
    ensures k < |s| && ScanAll(s[..k]).Ok? && Matches(s[..k], ScanAll(s[..k]).value, h)
    ensures ScanAll(s) == ScanChar(ScanAll(s[..k]).value, s[k])
  {
    var front := s[..|s| - 1];
    if ScanAll(front).Err? {
      k, h := FailsAt(front);
      assert front[..k] == s[..k];
    } else {
      k := |s| - 1;
      h := ShapeOf(front);
    }
  }

  lemma {:induction false} FailsFrom(s: string, k: nat, st: Scan)
    requires k < |s| && ScanAll(s[..k]) == Ok(st) && ScanChar(st, s[k]).Err?
    ensures ScanAll(s) == Err(ScanChar(st, s[k]).error)
  {
    assert s[..k + 1] == s[..k] + [s[k]];
    ScanSnoc(s[..k], s[k]);
    ScanErrorSticks(s, k + 1);
  }

  /** Which of the three faults is reported, exactly. */
  lemma {:induction false} FaultIff(mbox: string)
    ensures UnquotedForm(mbox) == Err(EscapeOutsideQuotes) <==>
            exists k :: 0 <= k < |mbox| && BareText(mbox[..k]) && mbox[k] == '\\'
    ensures UnquotedForm(mbox) == Err(UnquotedAtSign) <==>
            exists k :: 0 <= k < |mbox| && BareText(mbox[..k]) && mbox[k] == '@'
    ensures UnquotedForm(mbox) == Err(TextAfterClosingQuote) <==>
            exists p, us :: BareText(p) && UnitsOk(us) && Opened(p, us) + "\"" < mbox
  {
    hide ScanAll, Opened;
    if ScanAll(mbox).Err? {
      var k, h := FailsAt(mbox);
      if h.Closed? { assert Opened(h.p, h.us) + "\"" == mbox[..k]; }
    }
    forall k | 0 <= k < |mbox| && BareText(mbox[..k]) && (mbox[k] == '\\' || mbox[k] == '@')
      ensures ScanAll(mbox) == Err(if mbox[k] == '@' then UnquotedAtSign else EscapeOutsideQuotes)
    {
      BareScans(mbox[..k]);
      FailsFrom(mbox, k, Scan(false, false, false, mbox[..k]));
    }
    forall p, us | BareText(p) && UnitsOk(us) && Opened(p, us) + "\"" < mbox
      ensures ScanAll(mbox) == Err(TextAfterClosingQuote)
    {
      var k := |Opened(p, us)| + 1;
      ShapeScans(Closed(p, us), false);
      assert mbox[..k] == Opened(p, us) + "\"" == Written(Closed(p, us), false);
      FailsFrom(mbox, k, Scan(false, false, true, TextOf(Closed(p, us))));
    }
  }

  // ---------------------------------------------------------------------------
  // Quoting no more than needed
  // ---------------------------------------------------------------------------

  lemma {:induction false} EscapedLength(s: string)
    ensures |Escaped(s)| == |s| + multiset(s)['"'] + multiset(s)['\\']
  {
    if s != "" {
      var p, c := s[..|s| - 1], s[|s| - 1];
      EscapedLength(p);
      assert s == p + [c];
    }
  }

  /**
   `QuoteMbox` leaves a local part alone exactly if all of its characters may stand without quotes or are
   control characters; otherwise it adds two quotes, and a backslash for every quote and every backslash.
   */
  lemma {:induction false} QuotesOnlyIfNeeded(s: string)
    ensures QuotedForm(s) == s <==> forall i :: 0 <= i < |s| ==> AtomChar(s[i]) || ControlChar(s[i])
    ensures QuotedForm(s) != s ==> |QuotedForm(s)| == |s| + 2 + multiset(s)['"'] + multiset(s)['\\']
  {
    EscapedLength(s);
    NeedsQuotesIff(s);
    hide Escaped, NeedsQuotes, AtomChar;
    if NeedsQuotes(s) { assert |QuotedForm(s)| == |s| + 2 + multiset(s)['"'] + multiset(s)['\\']; }
  }

  lemma {:induction false} SpecialIff(c: char)
    ensures c in MBOX_SPECIAL <==> !AtomChar(c) && !ControlChar(c)
  {}

  lemma {:induction false} NeedsQuotesIff(s: string)
    ensures NeedsQuotes(s) <==> !forall i :: 0 <= i < |s| ==> AtomChar(s[i]) || ControlChar(s[i])
  {
    hide AtomChar, ControlChar;
    forall i | 0 <= i < |s| ensures s[i] in MBOX_SPECIAL <==> !AtomChar(s[i]) && !ControlChar(s[i]) {
      SpecialIff(s[i]);
    }
  }
}
