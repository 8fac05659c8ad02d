/**
 Local-part quoting, address splitting and mailbox validation
 (framework/address/split.go and framework/address/validation.go).
 Strings are sequences of code points.
 */
module Address {
  import opened Common

  datatype Error =
    | MissingAtSign | EmptyLocalPart | EmptyDomain
    | TextAfterClosingQuote | EscapeOutsideQuotes | UnquotedAtSign

  // ---------------------------------------------------------------------------
  // Split
  // ---------------------------------------------------------------------------

  /** The characters that simple Unicode case folding identifies with a letter of "postmaster". */
  predicate FoldsTo(c: char, letter: char) {
    match letter
    case 'p' => c == 'p' || c == 'P'
    case 'o' => c == 'o' || c == 'O'
    case 's' => c == 's' || c == 'S' || c == '\U{017F}'
    case 't' => c == 't' || c == 'T'
    case 'm' => c == 'm' || c == 'M'
    case 'a' => c == 'a' || c == 'A'
    case 'e' => c == 'e' || c == 'E'
    case 'r' => c == 'r' || c == 'R'
    case _ => c == letter
  }

  const POSTMASTER := "postmaster"

  predicate IsPostmaster(addr: string) {
    |addr| == |POSTMASTER| && forall i :: 0 <= i < |addr| ==> FoldsTo(addr[i], POSTMASTER[i])
  }

  /** Index of the last at-sign, or -1. */
  function LastAt(addr: string): (i: int)
    ensures -1 <= i < |addr|
    ensures i >= 0 ==> addr[i] == '@'
    ensures forall j :: i < j < |addr| ==> addr[j] != '@'
  {
    if addr == "" then -1
    else if addr[|addr| - 1] == '@' then |addr| - 1
    else LastAt(addr[..|addr| - 1])
  }

  datatype Parts = Parts(mailbox: string, domain: string)

  function Split(addr: string): Result<Parts, Error> {
    if IsPostmaster(addr) then Ok(Parts(addr, ""))
    else
      var i := LastAt(addr);
      if i == -1 then Err(MissingAtSign)
      else if i == 0 then Err(EmptyLocalPart)
      else if i == |addr| - 1 then Err(EmptyDomain)
      else Ok(Parts(addr[..i], addr[i + 1..]))
  }

  /** What a successful split means, and exactly when splitting fails. */
  lemma {:induction false} SplitMeaning(addr: string)
    ensures Split(addr).Ok? && !IsPostmaster(addr) ==>
              var p := Split(addr).value;
              p.mailbox != "" && p.domain != "" && '@' !in p.domain && addr == p.mailbox + "@" + p.domain
    ensures Split(addr).Err? <==>
            !IsPostmaster(addr)
            && ('@' !in addr || addr[|addr| - 1] == '@' || '@' !in addr[1..])
    ensures Split(addr) == Err(MissingAtSign) <==> !IsPostmaster(addr) && '@' !in addr
    ensures Split(addr) == Err(EmptyLocalPart) <==>
            !IsPostmaster(addr) && addr != "" && addr[0] == '@' && '@' !in addr[1..]
    ensures Split(addr) == Err(EmptyDomain) <==>
            !IsPostmaster(addr) && |addr| > 1 && addr[|addr| - 1] == '@'
  {}

  /** The postmaster needs no domain, in whatever case it is written. */
  lemma {:induction false} PostmasterIsAccepted(addr: string)
    requires |addr| == 10 && forall i :: 0 <= i < 10 ==> addr[i] == "postmaster"[i] || addr[i] == "POSTMASTER"[i]
    ensures Split(addr) == Ok(Parts(addr, ""))
  {
    forall i | 0 <= i < |addr| ensures FoldsTo(addr[i], POSTMASTER[i]) { FoldsToBoth(i); }
  }

  lemma {:induction false} FoldsToBoth(i: nat)
    requires i < 10
    ensures FoldsTo("postmaster"[i], POSTMASTER[i]) && FoldsTo("POSTMASTER"[i], POSTMASTER[i])
  {
    match i
    case 0 => case 1 => case 2 => case 3 => case 4 => case 5 => case 6 => case 7 => case 8 => case 9 =>
  }

  /** Splitting undoes joining, for every local part whatsoever and every at-free domain. */
  lemma {:induction false} SplitOfJoin(mailbox: string, domain: string)
    requires mailbox != "" && domain != "" && '@' !in domain
    ensures Split(mailbox + "@" + domain) == Ok(Parts(mailbox, domain))
  {
    var a := mailbox + "@" + domain;
    assert a[|mailbox|] == '@';
    if |a| == |POSTMASTER| {
      assert !FoldsTo(a[|mailbox|], POSTMASTER[|mailbox|]);
    }
    var i := LastAt(a);
    assert forall j :: |mailbox| < j < |a| ==> a[j] == domain[j - |mailbox| - 1];
    assert i == |mailbox|;
    assert a[..i] == mailbox && a[i + 1..] == domain;
  }

  // ---------------------------------------------------------------------------
  // QuoteMbox
  // ---------------------------------------------------------------------------

  /** The "specials" of RFC 5322 without the dot, plus space. */
  const MBOX_SPECIAL: set<char> := {'(', ')', '<', '>', '[', ']', ':', ';', '@', '\\', ',', '"', ' '}

  function EscapedChar(c: char): string {
    if c == '\\' || c == '"' then ['\\', c] else [c]
  }

  function Escaped(s: string): string {
    if s == "" then "" else Escaped(s[..|s| - 1]) + EscapedChar(s[|s| - 1])
  }

  predicate NeedsQuotes(s: string) {
    exists i :: 0 <= i < |s| && s[i] in MBOX_SPECIAL
  }

  function QuotedForm(s: string): string {
    if NeedsQuotes(s) then "\"" + Escaped(s) + "\"" else s
  }

  method QuoteMbox(mbox: string) returns (r: string)
    ensures r == QuotedForm(mbox)
    ensures mbox != "" ==> UnquotedForm(r) == Ok(mbox)
    ensures ValidMailbox(r) <==> NoControls(mbox)
  {
    var escaped := "";
    var quoted := false;
    for i := 0 to |mbox|
      invariant escaped == Escaped(mbox[..i])
      invariant quoted == NeedsQuotes(mbox[..i])
    {
      var ch := mbox[i];
      assert mbox[..i + 1][..i] == mbox[..i];
      assert NeedsQuotes(mbox[..i + 1]) == (NeedsQuotes(mbox[..i]) || ch in MBOX_SPECIAL) by {
        NeedsQuotesSnoc(mbox[..i], ch);
        assert mbox[..i + 1] == mbox[..i] + [ch];
      }
      if ch in MBOX_SPECIAL {
        if ch == '\\' || ch == '"' {
          escaped := escaped + "\\";
        }
        escaped := escaped + [ch];
        quoted := true;
      } else {
        escaped := escaped + [ch];
      }
    }
    assert mbox[..|mbox|] == mbox;
    r := if quoted then "\"" + escaped + "\"" else mbox;
    if mbox != "" {
      UnquoteUndoesQuote(mbox);
    }
    QuotedFormValid(mbox);
  }

  lemma {:induction false} NeedsQuotesSnoc(s: string, c: char)
    ensures NeedsQuotes(s + [c]) == (NeedsQuotes(s) || c in MBOX_SPECIAL)
  {
    var t := s + [c];
    if c in MBOX_SPECIAL {
      assert t[|s|] in MBOX_SPECIAL;
    }
    if NeedsQuotes(s) {
      var i :| 0 <= i < |s| && s[i] in MBOX_SPECIAL;
      assert t[i] in MBOX_SPECIAL;
    }
  }

  // ---------------------------------------------------------------------------
  // UnquoteMbox
  // ---------------------------------------------------------------------------

  /** The scanner's local variables. */
  datatype Scan = Scan(quoted: bool, escaped: bool, terminated: bool, text: string)

  function ScanChar(st: Scan, ch: char): Result<Scan, Error> {
    if st.terminated then Err(TextAfterClosingQuote)
    else if ch == '"' && !st.escaped then
      Ok(st.(quoted := !st.quoted, terminated := st.quoted))
    else if ch == '\\' && !st.escaped then
      if !st.quoted then Err(EscapeOutsideQuotes)
      else Ok(st.(escaped := true))
    else if ch == '@' && !st.quoted then Err(UnquotedAtSign)
    else Ok(st.(escaped := false, text := st.text + [ch]))
  }

  function ScanAll(s: string): Result<Scan, Error> {
    if s == "" then Ok(Scan(false, false, false, ""))
    else
      match ScanAll(s[..|s| - 1])
      case Err(e) => Err(e)
      case Ok(st) => ScanChar(st, s[|s| - 1])
  }

  function UnquotedForm(mbox: string): Result<string, Error> {
    match ScanAll(mbox)
    case Err(e) => Err(e)
    case Ok(st) => if st.text == "" then Err(EmptyLocalPart) else Ok(st.text)
  }

  method UnquoteMbox(mbox: string) returns (r: Result<string, Error>)
    ensures r == UnquotedForm(mbox)
  {
    var quoted, escaped, terminatedQuote := false, false, false;
    var text := "";
    for i := 0 to |mbox|
      invariant ScanAll(mbox[..i]) == Ok(Scan(quoted, escaped, terminatedQuote, text))
    {
      var ch := mbox[i];
      assert mbox[..i + 1][..i] == mbox[..i];
      ghost var here := ScanAll(mbox[..i + 1]);
      if terminatedQuote {
        ScanErrorSticks(mbox, i + 1);
        return Err(TextAfterClosingQuote);
      }
      if ch == '"' && !escaped {
        quoted := !quoted;
        if !quoted {
          terminatedQuote := true;
        }
      } else if ch == '\\' && !escaped {
        if !quoted {
          ScanErrorSticks(mbox, i + 1);
          return Err(EscapeOutsideQuotes);
        }
        escaped := true;
      } else if ch == '@' && !quoted {
        ScanErrorSticks(mbox, i + 1);
        return Err(UnquotedAtSign);
      } else {
        escaped := false;
        text := text + [ch];
      }
    }
    assert mbox[..|mbox|] == mbox;
    if text == "" {
      return Err(EmptyLocalPart);
    }
    return Ok(text);
  }

  /** An error found in a prefix is the error of the whole string. */
  lemma {:induction false} ScanErrorSticks(s: string, k: nat)
    requires k <= |s| && ScanAll(s[..k]).Err?
    ensures ScanAll(s) == ScanAll(s[..k])
    decreases |s|
  {
    if k == |s| {
      assert s[..k] == s;
    } else {
      assert s[..|s| - 1][..k] == s[..k];
      ScanErrorSticks(s[..|s| - 1], k);
    }
  }

  // ---------------------------------------------------------------------------
  // ValidMailboxName
  // ---------------------------------------------------------------------------

  const VALID_GRAPHIC: set<char> :=
    {'!', '#', '$', '%', '&', '\'', '*', '+', '-', '/', '=', '?', '^', '_', '`', '{', '|', '}', '~', '.'}

  predicate ControlChar(c: char) { c < ' ' || c == '\U{7F}' }

  predicate NoControls(s: string) {
    forall i :: 0 <= i < |s| ==> !ControlChar(s[i])
  }

  predicate AtomChar(c: char) {
    c in VALID_GRAPHIC || '0' <= c <= '9' || 'A' <= c <= 'Z' || 'a' <= c <= 'z' || c > '\U{7F}'
  }

  predicate ValidMailbox(mbox: string) {
    if HasPrefix(mbox, "\"") then
      UnquotedForm(mbox).Ok? && NoControls(UnquotedForm(mbox).value)
    else
      forall i :: 0 <= i < |mbox| ==> AtomChar(mbox[i])
  }

  method ValidMailboxName(mbox: string) returns (ok: bool)
    ensures ok <==> ValidMailbox(mbox)
  {
    if |mbox| >= 1 && mbox[..1] == "\"" {
      var raw := UnquoteMbox(mbox);
      if raw.Err? {
        return false;
      }
      for i := 0 to |raw.value|
        invariant NoControls(raw.value[..i])
      {
        var ch := raw.value[i];
        if ch < ' ' || ch == '\U{7F}' {
          assert ControlChar(raw.value[i]);
          return false;
        }
      }
      assert raw.value[..|raw.value|] == raw.value;
      return true;
    }
    for i := 0 to |mbox|
      invariant forall j :: 0 <= j < i ==> AtomChar(mbox[j])
    {
      var ch := mbox[i];
      if ch in VALID_GRAPHIC { continue; }
      if ch >= '0' && ch <= '9' { continue; }
      if ch >= 'A' && ch <= 'Z' { continue; }
      if ch >= 'a' && ch <= 'z' { continue; }
      if ch > '\U{7F}' { continue; }
      assert !AtomChar(mbox[i]);
      return false;
    }
    return true;
  }

  // ---------------------------------------------------------------------------
  // The codec and the validator agree
  // ---------------------------------------------------------------------------

  lemma {:induction false} ScanOfNothing()
    ensures ScanAll("") == Ok(Scan(false, false, false, ""))
  {}

  lemma {:induction false} ScanSnoc(s: string, c: char)
    requires ScanAll(s).Ok?
    ensures ScanAll(s + [c]) == ScanChar(ScanAll(s).value, c)
  {}

  /** Inside quotes, the escaped form of a character scans to that character. */
  lemma {:induction false} ScanOfEscapedChar(q: string, p: string, c: char)
    requires ScanAll(q) == Ok(Scan(true, false, false, p))
    ensures ScanAll(q + EscapedChar(c)) == Ok(Scan(true, false, false, p + [c]))
  {
    hide ScanAll;
    if c == '\\' || c == '"' {
      ScanSnoc(q, '\\');
      ScanSnoc(q + ['\\'], c);
      assert q + EscapedChar(c) == q + ['\\'] + [c];
    } else {
      ScanSnoc(q, c);
    }
  }

  /** Scanning an opening quote and an escaped text yields the text, with the quote still open. */
  lemma {:induction false} ScanOfEscaped(s: string)
    ensures ScanAll("\"" + Escaped(s)) == Ok(Scan(true, false, false, s))
  {
    ScanOfNothing();
    hide ScanAll;
    if s == "" {
      ScanSnoc("", '"');
      assert "" + ['"'] == "\"" + Escaped(s);
    } else {
      var p, c := s[..|s| - 1], s[|s| - 1];
      ScanOfEscaped(p);
      ScanOfEscapedChar("\"" + Escaped(p), p, c);
      assert "\"" + Escaped(s) == ("\"" + Escaped(p)) + EscapedChar(c);
      assert s == p + [c];
    }
  }

  /** A text without specials scans to itself. */
  lemma {:induction false} ScanOfPlain(s: string)
    requires !NeedsQuotes(s)
    ensures ScanAll(s) == Ok(Scan(false, false, false, s))
  {
    if s != "" {
      var p, c := s[..|s| - 1], s[|s| - 1];
      assert s == p + [c];
      NeedsQuotesSnoc(p, c);
      ScanOfPlain(p);
    }
  }

  /** Unquoting undoes quoting, for every nonempty local part. */
  lemma {:induction false} UnquoteUndoesQuote(s: string)
    requires s != ""
    ensures UnquotedForm(QuotedForm(s)) == Ok(s)
  {
    if NeedsQuotes(s) {
      ScanOfEscaped(s);
      var q := "\"" + Escaped(s) + "\"";
      assert q[..|q| - 1] == "\"" + Escaped(s);
    } else {
      ScanOfPlain(s);
    }
  }

  /** The quoted form is a valid mailbox name exactly when the text has no ASCII control character. */
  lemma {:induction false} QuotedFormValid(s: string)
    ensures ValidMailbox(QuotedForm(s)) <==> NoControls(s)
  {
    if NeedsQuotes(s) {
      UnquoteUndoesQuote(s);
    } else {
      assert !HasPrefix(s, "\"") by {
        if s != "" {
          assert s[..1][0] == s[0];
        }
      }
      forall i | 0 <= i < |s|
        ensures AtomChar(s[i]) <==> !ControlChar(s[i])
      {
        assert s[i] !in MBOX_SPECIAL;
      }
    }
  }

  /** An address written from a quoted local part and an at-free domain splits back and unquotes back. */
  lemma {:induction false} AddressRoundTrip(s: string, domain: string)
    requires s != "" && domain != "" && '@' !in domain
    ensures Split(QuotedForm(s) + "@" + domain) == Ok(Parts(QuotedForm(s), domain))
    ensures UnquotedForm(Split(QuotedForm(s) + "@" + domain).value.mailbox) == Ok(s)
  {
    assert QuotedForm(s) != "";
    SplitOfJoin(QuotedForm(s), domain);
    UnquoteUndoesQuote(s);
  }
}
