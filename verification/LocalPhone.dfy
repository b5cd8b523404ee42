/** The local phone number that is stored with a message. */
module LocalPhone {
  import opened Text

  const RECEIVED := 1
  const SENT := 2

  /** strings.HasPrefix on the text in lower case. */
  predicate HasScheme(s: string, scheme: string) {
    scheme <= Lower(s)
  }

  /** What follows the first four bytes. A dotted capital I counts as the letter i of a scheme but takes two bytes. */
  function AfterScheme(s: string): string
    requires |s| >= 4
  {
    if s[1] == '\U{0130}' then s[3..] else s[4..]
  }

  predicate EndsAddress(c: char) {
    c == '@' || c == ';' || c == '>'
  }

  predicate IsBracket(c: char) {
    c == '<' || c == '>' || c == '"'
  }

  predicate IsSeparator(c: char) {
    c == ' ' || c == '-' || c == '(' || c == ')'
  }

  function Address(s: string): (r: string)
    ensures r <= s
    ensures forall c :: c in r ==> !EndsAddress(c)
  {
    if s == "" || EndsAddress(s[0]) then "" else [s[0]] + Address(s[1..])
  }

  function StripLeft(s: string): (r: string)
    ensures |r| <= |s| && (r == s <==> s == "" || !IsBracket(s[0]))
    ensures r == "" || !IsBracket(r[0])
  {
    if s == "" || !IsBracket(s[0]) then s else StripLeft(s[1..])
  }

  function StripRight(s: string): (r: string)
    ensures |r| <= |s| && (r == s <==> s == "" || !IsBracket(s[|s| - 1]))
    ensures r == "" || !IsBracket(r[|r| - 1])
  {
    if s == "" || !IsBracket(s[|s| - 1]) then s else StripRight(s[..|s| - 1])
  }

  function WithoutSeparators(s: string): string {
    if s == "" then "" else (if IsSeparator(s[0]) then "" else [s[0]]) + WithoutSeparators(s[1..])
  }

  lemma {:induction false} SeparatorsGone(s: string)
    ensures |WithoutSeparators(s)| <= |s|
    ensures forall c :: c in WithoutSeparators(s) ==> !IsSeparator(c)
    ensures (forall c :: c in s ==> !IsSeparator(c)) ==> WithoutSeparators(s) == s
  {
    if s != "" { SeparatorsGone(s[1..]); }
  }

  function WithoutTel(s: string): string {
    if HasScheme(s, "tel:") then Trim(AfterScheme(s)) else s
  }

  function WithoutSip(s: string): string {
    if HasScheme(s, "sip:") then Address(Trim(AfterScheme(s))) else s
  }

  function Canonical(v: string): string {
    Trim(WithoutSeparators(StripRight(StripLeft(WithoutSip(WithoutTel(Trim(v)))))))
  }

  predicate IsDigit(c: char) {
    '0' <= c <= '9'
  }

  /** Six to fifteen digits, perhaps after a plus. */
  predicate IsNumber(s: string) {
    var digits := if s != "" && s[0] == '+' then s[1..] else s;
    6 <= |digits| <= 15 && forall c :: c in digits ==> IsDigit(c)
  }

  predicate LooksLikePhoneNumber(v: string) {
    IsNumber(Canonical(v))
  }

  /** The first of the given number, the one on this side of the message and the one learned for the subscription that
      looks like a number, each in its canonical form; failing all, the given one. */
  function LocalPhoneOf(imsi: string, smsType: int, given: string, sender: string, recipient: string, learned: string)
    : string
  {
    var own := Canonical(if smsType == RECEIVED then recipient else if smsType == SENT then sender else "");
    if LooksLikePhoneNumber(Canonical(given)) then Canonical(given)
    else if LooksLikePhoneNumber(own) then own
    else if imsi != "" && LooksLikePhoneNumber(Canonical(learned)) then Canonical(learned)
    else Trim(Canonical(given))
  }

  /** Neither a scheme in front nor a bracket at either end is left. */
  predicate Settled(s: string) {
    && !HasScheme(s, "tel:") && !HasScheme(s, "sip:")
    && (s != "" ==> !IsBracket(s[0]) && !IsBracket(s[|s| - 1]))
  }

  lemma TrimShortens(s: string)
    ensures |Trim(s)| <= |s|
    ensures forall c :: c in Trim(s) ==> c in s
  {
    assert forall c :: c in TrimLeft(s) ==> c in s;
  }

  /** What the canonical form of a trimmed text comes from. */
  function Stripped(s: string): string {
    WithoutSeparators(StripRight(StripLeft(WithoutSip(WithoutTel(s)))))
  }

  lemma StrippedIsSame(s: string)
    requires forall c :: c in s ==> !IsSeparator(c)
    ensures |Stripped(s)| <= |s| && (|Stripped(s)| == |s| <==> Settled(s)) && (Settled(s) ==> Stripped(s) == s)
  {
    hide Trim;
    var tel := WithoutTel(s);
    var sip := WithoutSip(tel);
    SeparatorsGone(StripRight(StripLeft(sip)));
    if HasScheme(s, "tel:") { TrimShortens(AfterScheme(s)); }
    if HasScheme(tel, "sip:") { TrimShortens(AfterScheme(tel)); }
  }

  /** A canonical form is its own canonical form exactly when it is settled. */
  lemma CanonicalAgain(v: string)
    ensures var c := Canonical(v); Canonical(c) == c <==> Settled(c)
  {
    var inner := Stripped(Trim(v));
    var c := Canonical(v);
    assert c == Trim(inner) && Canonical(c) == Trim(Stripped(Trim(c)));
    TrimAgain(inner);
    TrimShortens(inner);
    hide Trim, Stripped, Canonical, Settled;
    assert forall x :: x in inner ==> !IsSeparator(x) by { NoSeparators(Trim(v)); }
    StrippedIsSame(c);
    TrimShortens(Stripped(c));
  }

  lemma NoSeparators(s: string)
    ensures forall c :: c in Stripped(s) ==> !IsSeparator(c)
  {
    SeparatorsGone(StripRight(StripLeft(WithoutSip(WithoutTel(s)))));
  }

  /** What is stored is a number exactly when it looks like one and is settled: the program's test strips a second
      time, so it also accepts texts that the first time left with a scheme or brackets. */
  lemma StoredNumber(imsi: string, smsType: int, given: string, sender: string, recipient: string, learned: string)
    ensures var r := LocalPhoneOf(imsi, smsType, given, sender, recipient, learned);
            IsNumber(r) <==> LooksLikePhoneNumber(r) && Settled(r)
  {
    var r := LocalPhoneOf(imsi, smsType, given, sender, recipient, learned);
    var own := if smsType == RECEIVED then recipient else if smsType == SENT then sender else "";
    TrimAgain(Stripped(Trim(given)));
    assert r in {Canonical(given), Canonical(own), Canonical(learned)};
    CanonicalAgain(given);
    CanonicalAgain(own);
    CanonicalAgain(learned);
    if IsNumber(r) { NumberIsSettled(r); }
  }

  lemma NumberIsSettled(s: string)
    requires IsNumber(s)
    ensures Settled(s)
  {
    assert forall c :: c in s ==> c == '+' || IsDigit(c);
    assert Lower(s)[0] == LowerChar(s[0]);
    assert s[0] in s && s[|s| - 1] in s;
  }

  lemma NoSpaceToTrim(s: string)
    requires s != "" && !IsSpace(s[0]) && !IsSpace(s[|s| - 1])
    ensures Trim(s) == s
  {
  }

  lemma OtherStart(s: string)
    requires s != "" && LowerChar(s[0]) != 't' && LowerChar(s[0]) != 's'
    ensures !HasScheme(s, "tel:") && !HasScheme(s, "sip:")
  {
    assert Lower(s)[0] == LowerChar(s[0]);
  }

  lemma BracketsOff(s: string)
    requires s != "" && !IsBracket(s[0]) && !IsBracket(s[|s| - 1])
    ensures StripRight(StripLeft(['<'] + s + ['>'])) == s
  {
    var v, b := ['<'] + s + ['>'], s + ['>'];
    assert v[1..] == b && b[..|b| - 1] == s;
    assert StripLeft(b) == b && StripRight(s) == s;
    assert IsBracket('<') && IsBracket('>');
    hide IsBracket;
  }

  lemma InBrackets(s: string)
    requires s != "" && !IsBracket(s[0]) && !IsBracket(s[|s| - 1]) && !IsSpace(s[0]) && !IsSpace(s[|s| - 1])
    requires forall c :: c in s ==> !IsSeparator(c)
    ensures Canonical(['<'] + s + ['>']) == s
  {
    var v := ['<'] + s + ['>'];
    NoSpaceToTrim(v);
    NoSpaceToTrim(s);
    OtherStart(v);
    BracketsOff(s);
    SeparatorsGone(s);
    hide Trim, HasScheme, IsSpace, IsSeparator, IsBracket, LowerChar, StripLeft, StripRight, WithoutSeparators;
    assert WithoutSip(WithoutTel(v)) == v;
    hide WithoutSip, WithoutTel;
    assert Canonical(v) == Trim(WithoutSeparators(StripRight(StripLeft(v))));
  }

  predicate IsTel(s: string, n: string) {
    |s| == 4 + |n| && s[0] == 't' && s[1] == 'e' && s[2] == 'l' && s[3] == ':' && s[4..] == n
  }

  lemma TelScheme(s: string, n: string)
    requires IsTel(s, n)
    ensures HasScheme(s, "tel:") && AfterScheme(s) == n
  {
    assert Lower(s)[..4] == "tel:";
  }

  lemma NumberChars(n: string)
    requires IsNumber(n)
    ensures n != "" && !IsSpace(n[0]) && !IsSpace(n[|n| - 1]) && !IsBracket(n[|n| - 1])
    ensures forall c :: c in n ==> !IsSeparator(c)
  {
    assert forall c :: c in n ==> c == '+' || IsDigit(c);
    assert n[0] in n && n[|n| - 1] in n;
  }

  lemma BehindTel(s: string, n: string)
    requires IsTel(s, n) && IsNumber(n)
    ensures Canonical(s) == n
  {
    NumberChars(n);
    assert s[|s| - 1] == n[|n| - 1];
    NoSpaceToTrim(s);
    NoSpaceToTrim(n);
    TelScheme(s, n);
    NumberIsSettled(n);
    StrippedIsSame(n);
    hide Trim, IsSpace, IsBracket, IsSeparator, IsNumber, HasScheme, AfterScheme;
    assert WithoutTel(s) == n == WithoutTel(n);
    assert Canonical(s) == Trim(Stripped(s)) && Stripped(s) == Stripped(n);
  }

  lemma NothingGiven()
    ensures Canonical("") == "" && !IsNumber("")
  {
    assert Trim("") == "" && Stripped("") == "";
  }

  lemma TelInBrackets(s: string, n: string)
    requires IsNumber(n) && IsTel(s, n)
    ensures Canonical(['<'] + s + ['>']) == s
  {
    NumberChars(n);
    assert s[|s| - 1] == n[|n| - 1];
    forall c | c in s ensures !IsSeparator(c) {
      var i :| 0 <= i < |s| && s[i] == c;
      if i >= 4 { assert n[i - 4] == c; }
    }
    InBrackets(s);
  }

  /** Such a text: any number that stands in angle brackets keeps its scheme. */
  lemma SchemeIsStored(n: string, s: string)
    requires IsNumber(n) && IsTel(s, n)
    ensures LocalPhoneOf("", RECEIVED, "", "", ['<'] + s + ['>'], "") == s && LooksLikePhoneNumber(s) && !IsNumber(s)
  {
    NumberChars(n);
    TelScheme(s, n);
    BehindTel(s, n);
    TelInBrackets(s, n);
    NothingGiven();
    if IsNumber(s) { NumberIsSettled(s); }
    hide Canonical, HasScheme, IsBracket, IsSpace, IsSeparator, IsTel;
  }

  /** A number is its own canonical form. */
  lemma NumberStays(n: string)
    requires IsNumber(n)
    ensures Canonical(n) == n && LooksLikePhoneNumber(n)
  {
    NumberChars(n);
    NoSpaceToTrim(n);
    NumberIsSettled(n);
    StrippedIsSame(n);
    hide Trim, IsSpace, IsBracket, IsSeparator, IsNumber, HasScheme;
  }

  predicate PlainChars(s: string) {
    forall c :: c in s ==> c == '+' || IsDigit(c)
  }

  /** Digits and plus signs stay as they are. */
  lemma PlainText(s: string)
    requires PlainChars(s)
    ensures Canonical(s) == s
  {
    if s == "" {
      NothingGiven();
    } else {
      PlainEnds(s);
      NoSpaceToTrim(s);
      StrippedIsSame(s);
      hide Trim, IsSpace, IsBracket, IsSeparator, HasScheme, PlainChars;
    }
  }

  lemma PlainEnds(s: string)
    requires PlainChars(s) && s != ""
    ensures Settled(s) && !IsSpace(s[0]) && !IsSpace(s[|s| - 1]) && forall c :: c in s ==> !IsSeparator(c)
  {
    assert s[0] in s && s[|s| - 1] in s;
    OtherStart(s);
    hide HasScheme;
  }

  lemma PlainLooks(s: string)
    requires PlainChars(s)
    ensures LooksLikePhoneNumber(s) <==> IsNumber(s)
  {
    hide Canonical, PlainChars, IsNumber;
    PlainText(s);
  }

  lemma DigitsAreNumber(digits: string, plus: string)
    requires (forall c :: c in digits ==> '0' <= c <= '9') && plus == ['+'] + digits
    ensures IsNumber(digits) <==> 6 <= |digits| <= 15
    ensures IsNumber(plus) <==> 6 <= |digits| <= 15
    ensures PlainChars(digits) && PlainChars(plus)
  {
    assert plus[1..] == digits;
    assert digits != "" ==> digits[0] in digits && digits[0] != '+';
  }

  /** What looks like a number: six to fifteen digits, with or without a plus in front. */
  lemma LooksExactly(digits: string, plus: string)
    requires (forall c :: c in digits ==> '0' <= c <= '9') && plus == ['+'] + digits
    ensures LooksLikePhoneNumber(digits) <==> 6 <= |digits| <= 15
    ensures LooksLikePhoneNumber(plus) <==> 6 <= |digits| <= 15
  {
    hide LooksLikePhoneNumber, IsNumber, PlainChars;
    DigitsAreNumber(digits, plus);
    PlainLooks(digits);
    PlainLooks(plus);
  }

  /** The dotted capital I of a scheme takes two bytes, so one character less is cut off. */
  lemma DottedScheme(rest: string)
    ensures AfterScheme(['s', '\U{0130}', 'p', ':'] + rest) == [':'] + rest
    ensures AfterScheme(['s', 'i', 'p', ':'] + rest) == rest
  {
  }

  predicate NumberOrNothing(x: string) {
    x == "" || IsNumber(x)
  }

  lemma CleanText(x: string)
    requires NumberOrNothing(x)
    ensures Canonical(x) == x && Trim(x) == x && (LooksLikePhoneNumber(x) <==> x != "")
  {
    NothingGiven();
    if x != "" {
      NumberStays(x);
      NumberChars(x);
      NoSpaceToTrim(x);
    }
    hide Canonical, IsNumber;
  }

  lemma Nothing()
    ensures NumberOrNothing("")
  {
  }

  /** Which number is stored when the candidates are plain numbers or nothing: the one given, else the one on this side
      of the message, which is the recipient of a received and the sender of a sent one, else the one learned. */
  lemma OwnNumber(imsi: string, smsType: int, given: string, sender: string, recipient: string, learned: string)
    requires NumberOrNothing(given) && NumberOrNothing(sender) && NumberOrNothing(recipient) && NumberOrNothing(learned)
    ensures LocalPhoneOf(imsi, smsType, given, sender, recipient, learned) ==
            if given != "" then given
            else if smsType == 1 && recipient != "" then recipient
            else if smsType == 2 && sender != "" then sender
            else if imsi != "" then learned else ""
  {
    hide Canonical, LooksLikePhoneNumber, Trim, NumberOrNothing;
    CleanText(given);
    CleanText(sender);
    CleanText(recipient);
    CleanText(learned);
    Nothing();
    CleanText("");
  }

  lemma CanonicalTrimmed(v: string)
    ensures Trim(Canonical(v)) == Canonical(v)
  {
    assert Canonical(v) == Trim(Stripped(Trim(v)));
    TrimAgain(Stripped(Trim(v)));
    hide Canonical, Trim, Stripped;
  }

  lemma NothingLooks()
    ensures !LooksLikePhoneNumber(Canonical(""))
  {
    NothingGiven();
    hide Canonical, IsNumber;
  }

  /** When nothing looks like a number the text given is stored in its canonical form, which may be no number. */
  lemma NothingLooksLikeIt(imsi: string, smsType: int, given: string, sender: string, recipient: string,
                           learned: string)
    requires !LooksLikePhoneNumber(Canonical(given)) && !LooksLikePhoneNumber(Canonical(learned))
    requires !LooksLikePhoneNumber(Canonical(sender)) && !LooksLikePhoneNumber(Canonical(recipient))
    ensures LocalPhoneOf(imsi, smsType, given, sender, recipient, learned) == Canonical(given)
  {
    hide Canonical, LooksLikePhoneNumber, Trim;
    CanonicalTrimmed(given);
    NothingLooks();
  }

  /** Separators inside a number do not count. */
  lemma Separated(a: string, c: char, b: string)
    requires IsSeparator(c) && a != "" && b != "" && IsNumber(a + b)
    ensures Canonical(a + [c] + b) == a + b
  {
    var s, n := a + [c] + b, a + b;
    assert s[0] == n[0] && s[|s| - 1] == n[|n| - 1];
    SeparatedEnds(a, c, b);
    hide Trim, IsSpace, IsSeparator, IsNumber, HasScheme, WithoutSeparators, IsBracket, StripLeft, StripRight;
    NoSpaceToTrim(s);
    NoSpaceToTrim(n);
    WithoutOne(a, c, b);
    assert WithoutSip(WithoutTel(Trim(s))) == s;
    hide WithoutTel, WithoutSip;
    assert Canonical(s) == Trim(WithoutSeparators(StripRight(StripLeft(s))));
  }

  lemma SeparatedEnds(a: string, c: char, b: string)
    requires IsSeparator(c) && a != "" && b != "" && IsNumber(a + b)
    ensures var s, n := a + [c] + b, a + b;
            && !IsSpace(n[0]) && !IsSpace(n[|n| - 1]) && StripRight(StripLeft(s)) == s
            && !HasScheme(s, "tel:") && !HasScheme(s, "sip:")
    ensures forall x :: x in a || x in b ==> !IsSeparator(x)
  {
    var s, n := a + [c] + b, a + b;
    NumberChars(n);
    NumberIsSettled(n);
    assert s[0] == n[0] && s[|s| - 1] == n[|n| - 1];
    assert forall x :: x in n ==> x == '+' || IsDigit(x);
    assert n[0] in n;
    OtherStart(s);
    forall x | x in a || x in b ensures !IsSeparator(x) {
      assert x in n;
    }
    hide IsSpace, IsSeparator, IsNumber, HasScheme, IsBracket;
  }

  lemma {:induction false} SeparatorsSplit(a: string, b: string)
    ensures WithoutSeparators(a + b) == WithoutSeparators(a) + WithoutSeparators(b)
  {
    hide IsSeparator;
    if a == "" {
      assert a + b == b;
    } else {
      assert (a + b)[1..] == a[1..] + b;
      SeparatorsSplit(a[1..], b);
    }
  }

  lemma WithoutOne(a: string, c: char, b: string)
    requires IsSeparator(c) && (forall x :: x in a || x in b ==> !IsSeparator(x))
    ensures WithoutSeparators(a + [c] + b) == a + b
  {
    hide IsSeparator, WithoutSeparators;
    OneSeparator(c);
    SeparatorsSplit(a, [c]);
    assert WithoutSeparators(a) == a by { SeparatorsGone(a); }
    assert WithoutSeparators(a + [c]) == a;
    SeparatorsSplit(a + [c], b);
    assert WithoutSeparators(b) == b by { SeparatorsGone(b); }
  }

  lemma OneSeparator(c: char)
    requires IsSeparator(c)
    ensures WithoutSeparators([c]) == ""
  {
  }

  lemma AddressTrimmed(s: string, n: string, host: string) returns (h: string)
    requires s == ['s', 'i', 'p', ':'] + n + ['@'] + host
    ensures Trim(s) == ['s', 'i', 'p', ':'] + n + ['@'] + h && !IsSpace(Trim(s)[|Trim(s)| - 1])
  {
    var r := Trim(s);
    assert TrimLeft(s) == s;
    assert s[|n| + 4] == '@' && !IsSpace('@');
    h := r[|n| + 5..];
    assert r == s[..|r|];
  }

  lemma {:induction false} AddressIs(n: string, h: string)
    requires forall c :: c in n ==> !EndsAddress(c)
    ensures Address(n + ['@'] + h) == n
  {
    if n != "" {
      assert (n + ['@'] + h)[1..] == n[1..] + ['@'] + h;
      AddressIs(n[1..], h);
    }
  }

  lemma SipScheme(t: string, rest: string)
    requires t == ['s', 'i', 'p', ':'] + rest
    ensures WithoutSip(WithoutTel(t)) == Address(Trim(rest))
  {
    hide Trim, Address;
    assert Lower(t)[0] == 's' && !HasScheme(t, "tel:");
    assert Lower(t)[..4] == ['s', 'i', 'p', ':'];
    assert AfterScheme(t) == rest;
  }

  lemma SipInside(s: string, n: string, host: string)
    requires IsNumber(n) && s == ['s', 'i', 'p', ':'] + n + ['@'] + host
    ensures WithoutSip(WithoutTel(Trim(s))) == n
  {
    var h := AddressTrimmed(s, n, host);
    NumberChars(n);
    NoAddressEnd(n);
    hide Trim, IsSpace, IsNumber, EndsAddress, Address, HasScheme, AfterScheme, IsBracket, IsSeparator;
    var rest := n + ['@'] + h;
    assert Trim(s) == ['s', 'i', 'p', ':'] + rest;
    assert rest[0] == n[0] && rest[|rest| - 1] == Trim(s)[|Trim(s)| - 1];
    NoSpaceToTrim(rest);
    SipScheme(Trim(s), rest);
    AddressIs(n, h);
  }

  lemma NoAddressEnd(n: string)
    requires IsNumber(n)
    ensures forall c :: c in n ==> !EndsAddress(c)
  {
    assert forall c :: c in n ==> c == '+' || IsDigit(c);
  }

  /** Of a sip: address only the number before the host counts. */
  lemma SipAddress(s: string, n: string, host: string)
    requires IsNumber(n) && s == ['s', 'i', 'p', ':'] + n + ['@'] + host
    ensures Canonical(s) == n
  {
    SipInside(s, n, host);
    NumberStays(n);
    NumberIsSettled(n);
    hide Trim, WithoutSeparators, StripLeft, StripRight, IsNumber;
    assert WithoutSip(WithoutTel(Trim(n))) == n by { NumberChars(n); NoSpaceToTrim(n); }
  }
}
