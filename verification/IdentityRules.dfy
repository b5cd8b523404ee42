/** What the resolver's names mean: which of a device's compositions it keeps, when two texts are one IMEI, and when a
    configuration without one stands for a device. */
module IdentityRules {
  import opened Text
  import opened IdentityResolver

  // ---------- the composition that is kept ----------

  const MODES := ["qmi", "mbim", "ncm", "ecm", "rndis"]

  predicate HasMode(h: Hardware, k: int) {
    0 <= k < |MODES| && Lower(Trim(h.mode)) == MODES[k]
  }

  /** The mode of `a` does not come after that of `b` in the list; any other mode comes last. */
  ghost predicate NoWorse(a: Hardware, b: Hardware) {
    forall k :: HasMode(b, k) ==> exists l :: l <= k && HasMode(a, l)
  }

  lemma ModeNames()
    ensures |MODES| == 5 && MODES[0] == "qmi" && MODES[1] == "mbim" && MODES[2] == "ncm" && MODES[3] == "ecm"
    ensures MODES[4] == "rndis"
    ensures forall k, l :: 0 <= k < l < 5 ==> MODES[k] != MODES[l]
  {
    assert MODES[0][0] == 'q' && MODES[1][0] == 'm' && MODES[2][0] == 'n' && MODES[3][0] == 'e' && MODES[4][0] == 'r';
  }

  lemma RankOfMode(h: Hardware, k: int)
    ensures HasMode(h, k) <==> 0 <= k < 5 && Rank(h) == 5 - k
    ensures Rank(h) <= 5
  {
    ModeNames();
    hide Lower, Trim;
  }

  lemma ModeIsRank(h: Hardware)
    ensures Rank(h) <= 5 && forall k :: HasMode(h, k) <==> 0 <= k < 5 && Rank(h) == 5 - k
  {
    assert |MODES| == 5;
    hide Rank, Lower, Trim;
    forall k ensures HasMode(h, k) <==> 0 <= k < 5 && Rank(h) == 5 - k { RankOfMode(h, k); }
  }

  lemma RankIsOrder(a: Hardware, b: Hardware)
    ensures NoWorse(a, b) <==> Rank(b) <= Rank(a)
  {
    hide HasMode, Rank;
    ModeIsRank(a);
    ModeIsRank(b);
    var k, l := 5 - Rank(b), 5 - Rank(a);
    if Rank(b) <= Rank(a) && Rank(b) > 0 { assert HasMode(a, l) && HasMode(b, k); }
    if NoWorse(a, b) && Rank(b) > 0 {
      assert HasMode(b, k);
      var m :| m <= k && HasMode(a, m);
    }
  }

  /** Of all compositions of one IMEI the one that is kept has the mode that comes first in the list, and it was seen
      before all others that are as good. */
  lemma KeptComposition(hw: seq<Hardware>, out: seq<Hardware>, i: nat, j: nat)
    requires Deduped(hw, out) && i < |out| && j < |hw| && Key(hw[j]) != "" && Key(out[i]) == Key(hw[j])
    ensures NoWorse(out[i], hw[j])
    ensures exists b: nat :: b < |hw| && out[i] == hw[b] && (NoWorse(hw[j], out[i]) ==> b <= j)
  {
    var firsts :| IsDeduped(hw, out, firsts);
    assert Binds(hw, firsts[i], out[i]);
    hide Key, Rank, NoWorse;
    if Key(hw[firsts[i]]) != "" {
      var b: nat :| FirstBest(hw, b) && Key(hw[b]) == Key(hw[firsts[i]]) && out[i] == hw[b];
      RankIsOrder(out[i], hw[j]);
      RankIsOrder(hw[j], out[i]);
    }
  }

  // ---------- when two texts are one IMEI ----------

  /** Characters other than digits do not count. */
  lemma {:induction false} OnlyDigitsCount(a: string, c: char, b: string)
    requires !('0' <= c <= '9')
    ensures NormalizeIMEI(a + [c] + b) == NormalizeIMEI(a + b)
  {
    DigitsSplit(a + [c], b);
    DigitsSplit(a, [c]);
    DigitsSplit(a, b);
    NoDigit(c);
    hide Digits;
    assert Digits(a) + "" == Digits(a);
  }

  lemma NoDigit(c: char)
    requires !IsDigit(c)
    ensures Digits([c]) == ""
  {
  }

  lemma {:induction false} DigitsSplit(a: string, b: string)
    ensures Digits(a + b) == Digits(a) + Digits(b)
  {
    hide IsDigit;
    if a == "" {
      assert a + b == b;
    } else {
      assert (a + b)[1..] == a[1..] + b;
      DigitsSplit(a[1..], b);
    }
  }

  /** Of fourteen digits or more the first fourteen count, so a check digit makes no difference; fewer are no IMEI. */
  lemma FourteenDigits(s: string)
    requires forall i :: 0 <= i < |s| ==> '0' <= s[i] <= '9'
    ensures NormalizeIMEI(s) == if |s| < 14 then "" else s[..14]
  {
    AllDigits(s);
  }

  lemma {:induction false} AllDigits(s: string)
    requires forall i :: 0 <= i < |s| ==> IsDigit(s[i])
    ensures Digits(s) == s
  {
    if s != "" { AllDigits(s[1..]); }
  }

  // ---------- when a configuration without IMEI stands for a device ----------

  /** The same text, but for space around it, that is more than space. */
  predicate SameName(a: string, b: string) {
    Trim(a) == Trim(b) && !Blank(a)
  }

  /** Known USB paths decide, against whatever the other names say; without one of them either other name will do. */
  lemma PathDecides(c: Config, h: Hardware)
    ensures !Blank(c.usbPath) && !Blank(h.usbPath) ==> (LegacyPathMatch(c, h) <==> SameName(c.usbPath, h.usbPath))
    ensures Blank(c.usbPath) || Blank(h.usbPath) ==>
              (LegacyPathMatch(c, h) <==>
                (SameName(c.controlDevice, h.controlPath) || SameName(c.netInterface, h.netInterface)))
  {
    BlankTrimsToNothing(c.usbPath);
    BlankTrimsToNothing(h.usbPath);
    BlankTrimsToNothing(c.controlDevice);
    BlankTrimsToNothing(c.netInterface);
    hide Trim, Blank;
  }
}
