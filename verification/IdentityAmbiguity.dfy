/** Configurations that share an id: exactly when one of them can be neither matched nor offline. */
module IdentityAmbiguity {
  import opened Text
  import opened IdentityResolver

  /** The device that a configuration without an IMEI describes. */
  function DeviceAt(c: Config): Hardware {
    Hardware("", "", c.usbPath, c.controlDevice, c.netInterface)
  }

  function Copies(h: Hardware, n: nat): (hw: seq<Hardware>)
    ensures forall x :: x in hw ==> x == h
  {
    if n == 0 then [] else Copies(h, n - 1) + [h]
  }

  function Ids(cs: seq<Config>): (ids: set<string>)
    ensures |ids| <= |cs| && forall c :: c in cs ==> c.id in ids
  {
    if cs == [] then {} else Ids(cs[..|cs| - 1]) + {cs[|cs| - 1].id}
  }

  lemma SelfDeduped(hw: seq<Hardware>)
    requires UniqueKeys(hw)
    ensures Deduped(hw, hw)
  {
    hide Key, Rank;
    var all := seq(|hw|, i requires 0 <= i < |hw| => i as nat);
    forall f: nat ensures f in all <==> Opens(hw, f) {
      if f < |hw| { assert all[f] == f; }
    }
    forall i | 0 <= i < |hw| ensures Binds(hw, all[i], hw[i]) {
      if Key(hw[i]) != "" { assert FirstBest(hw, i); }
    }
    assert IsDeduped(hw, hw, all);
  }

  lemma {:induction false} CopiesLength(h: Hardware, n: nat)
    ensures |Copies(h, n)| == n && (n > 0 ==> Copies(h, n)[..n - 1] == Copies(h, n - 1) && Copies(h, n)[n - 1] == h)
  {
    if n > 0 { CopiesLength(h, n - 1); }
  }

  lemma CopiesUnique(h: Hardware, n: nat)
    requires Key(h) == ""
    ensures UniqueKeys(Copies(h, n))
  {
    hide Key;
  }

  lemma {:induction false} CopiesHaveNoKey(h: Hardware, n: nat, cs: seq<Config>)
    requires Key(h) == ""
    ensures IMEIRound(Copies(h, n), cs) == Identified([], {}, [], Copies(h, n))
  {
    hide Key, FirstByKey;
    CopiesLength(h, n);
    if n > 0 { CopiesHaveNoKey(h, n - 1, cs); }
  }

  /** Each further copy of a device takes one more configuration, until none that matches is free. */
  lemma {:induction false} CopiesExhaust(h: Hardware, n: nat, legacy: seq<Config>)
    ensures var r := PathRound(Copies(h, n), legacy, {}, false);
            r.used <= Ids(legacy) && (FirstFree(legacy, r.used, h) == |legacy| || |r.used| == n)
  {
    hide LegacyPathMatch, FirstFree, Trim, Copies, PathRound, Ids;
    CopiesLength(h, n);
    if n == 0 {
      NoDevices(Copies(h, n), legacy, {}, false);
    } else {
      CopiesExhaust(h, n - 1, legacy);
      var r := PathRound(Copies(h, n - 1), legacy, {}, false);
      OneMoreTurn(Copies(h, n), legacy);
      FreeMeaning(legacy, r.used, h);
      IdsMember(legacy);
    }
  }

  lemma IdsMember(cs: seq<Config>)
    ensures forall i :: 0 <= i < |cs| ==> cs[i].id in Ids(cs)
  {
  }

  lemma OneMoreTurn(hw: seq<Hardware>, legacy: seq<Config>)
    requires hw != []
    ensures var r := PathRound(hw[..|hw| - 1], legacy, {}, false);
            var f := FirstFree(legacy, r.used, hw[|hw| - 1]);
            PathRound(hw, legacy, {}, false).used == if f < |legacy| then r.used + {legacy[f].id} else r.used
  {
    hide FirstFree, Trim;
  }

  lemma EnoughCopies(h: Hardware, legacy: seq<Config>, c: Config)
    requires c in legacy && LegacyPathMatch(c, h)
    ensures c.id in PathRound(Copies(h, |legacy| + 1), legacy, {}, false).used
  {
    hide PathRound, LegacyPathMatch, Ids;
    CopiesExhaust(h, |legacy| + 1, legacy);
    var used := PathRound(Copies(h, |legacy| + 1), legacy, {}, false).used;
    SubsetSize(used, Ids(legacy));
    NoFreeMatch(legacy, used, h);
  }

  lemma SubsetSize(a: set<string>, b: set<string>)
    requires a <= b
    ensures |a| <= |b|
  {
    assert b == a + (b - a);
  }

  lemma Twice(cs: seq<Config>, i: nat, j: nat)
    requires i < j < |cs| && cs[i] == cs[j]
    ensures multiset(cs)[cs[i]] >= 2
  {
    assert cs == cs[..j] + [cs[j]] + cs[j + 1..];
    assert cs[..j][i] == cs[i];
    assert multiset(cs) == multiset(cs[..j]) + multiset{cs[j]} + multiset(cs[j + 1..]);
    assert cs[i] in multiset(cs[..j]);
  }

  /** When an id is used once and two configurations have it, one of them is nowhere. */
  lemma SharedIdLost(cs: seq<Config>, r: Result, i: nat, j: nat)
    requires i < j < |cs| && cs[i].id == cs[j].id
    requires DistinctPairs(r.matched) && (exists p :: p in r.matched && p.config.id == cs[i].id)
    requires forall c :: c in r.offline ==> forall p :: p in r.matched ==> p.config.id != c.id
    ensures !Accounted(cs, r)
  {
    var p :| p in r.matched && p.config.id == cs[i].id;
    var ms := Configs(r.matched);
    assert DistinctIds(ms);
    OnceEach(ms);
    var k :| 0 <= k < |r.matched| && r.matched[k] == p;
    assert ms[k] == p.config;
    var x := if cs[i] != p.config then cs[i] else cs[j];
    assert p.config.id == x.id;
    assert x !in r.offline;
    if cs[i] == cs[j] {
      Twice(cs, i, j);
    }
    assert x in multiset(cs);
    forall m | 0 <= m < |ms| && m != k ensures ms[m] != x { assert ms[m].id != ms[k].id; }
  }

  /** Two configurations with one id, one of which some device could be given: for some hardware the list of pairs and
      the offline list together miss one. */
  lemma AmbiguousLoses(cs: seq<Config>, i: nat, j: nat) returns (hw: seq<Hardware>)
    requires i < |cs| && j < |cs| && i != j && cs[i].id == cs[j].id && Matchable(cs, i)
    ensures UniqueKeys(hw) && !Accounted(cs, Resolution(hw, cs))
  {
    hide UniqueKeys, Accounted, Resolved, LegacyPathMatch, IMEIRound, PathRound, Trim, ConfigKey, Key, DistinctPairs,
      HasPath;
    hw := if ConfigKey(cs[i]) != "" then [Hardware(cs[i].imei, "", "", "", "")]
          else Copies(DeviceAt(cs[i]), |LegacyOf(cs)| + 1);
    if ConfigKey(cs[i]) != "" { OneDeviceUses(cs, i, hw[0]); } else { CopiesUse(cs, i); }
    ResolutionResolves(hw, cs);
    OfflineApart(hw, cs);
    SharedIdLost(cs, Resolution(hw, cs), if i < j then i else j, if i < j then j else i);
  }

  lemma OfflineApart(hw: seq<Hardware>, cs: seq<Config>)
    requires Resolved(hw, cs, Resolution(hw, cs))
    ensures var r := Resolution(hw, cs);
            forall c :: c in r.offline ==> forall p :: p in r.matched ==> p.config.id != c.id
  {
    hide Resolution, Accounted, GoodPair, InTurn, LegacyPathMatch, NoConfigFor, Unambiguous, DistinctPairs, Key,
      ConfigKey;
  }

  lemma OneDeviceUses(cs: seq<Config>, i: nat, h: Hardware)
    requires i < |cs| && ConfigKey(cs[i]) != "" && Matchable(cs, i) && h.imei == cs[i].imei
    ensures UniqueKeys([h])
    ensures var r := Resolution([h], cs);
            DistinctPairs(r.matched) && exists p :: p in r.matched && p.config.id == cs[i].id
  {
    hide NormalizeIMEI;
    assert FirstByKey(cs, Key(h)) == i;
    assert [h][..0] == [];
    assert IMEIRound([], cs) == Identified([], {}, [], []);
    assert IMEIRound([h], cs) == Identified([Pair(cs[i], h, "")], {cs[i].id}, [], []);
    assert Resolution([h], cs).matched == [Pair(cs[i], h, "")];
    assert Pair(cs[i], h, "") in Resolution([h], cs).matched;
  }

  lemma CopiesUse(cs: seq<Config>, i: nat)
    requires i < |cs| && ConfigKey(cs[i]) == "" && HasPath(cs[i])
    ensures var hw := Copies(DeviceAt(cs[i]), |LegacyOf(cs)| + 1);
            var r := Resolution(hw, cs);
            UniqueKeys(hw) && DistinctPairs(r.matched) && exists p :: p in r.matched && p.config.id == cs[i].id
  {
    hide UniqueKeys, IMEIRound, PathRound, Trim, ConfigKey, DistinctPairs, UsedExactly, LeftOver, WithUse, Hardwares,
      LegacyOf;
    var h := DeviceAt(cs[i]);
    var hw := Copies(h, |LegacyOf(cs)| + 1);
    CopiesUnique(h, |LegacyOf(cs)| + 1);
    CopiesHaveNoKey(h, |LegacyOf(cs)| + 1, cs);
    LegacyMember(cs, cs[i]);
    EnoughCopies(h, LegacyOf(cs), cs[i]);
    assert PathRound([], LegacyOf(cs), {}, true) == Migrated([], {}, []) by { NoDevices([], LegacyOf(cs), {}, true); }
    NothingMatched();
    PairsDistinct(hw, cs);
    UseOfRounds(hw, cs);
    UsedMeansMatched(Resolution(hw, cs).matched, PathRound(hw, LegacyOf(cs), {}, false).used, cs[i].id);
  }

  lemma NoDevices(hw: seq<Hardware>, legacy: seq<Config>, used: set<string>, backfill: bool)
    requires hw == []
    ensures PathRound(hw, legacy, used, backfill) == Migrated([], used, [])
  {
  }

  /** Whatever the hardware, every configuration is matched once or offline: this holds of a list of configurations if
      and only if none that a device could be given shares its id with another. */
  lemma AccountedExactly(cs: seq<Config>)
    ensures (forall hardware, hw :: Deduped(hardware, hw) ==> Accounted(cs, Resolution(hw, cs))) <==> Unambiguous(cs)
  {
    hide Accounted, Resolution, Matchable, IsDeduped, UniqueKeys;
    if Unambiguous(cs) {
      forall hardware, hw | Deduped(hardware, hw) ensures Accounted(cs, Resolution(hw, cs)) {
        var firsts: seq<nat> :| IsDeduped(hardware, hw, firsts);
        DedupedKeysUnique(hardware, hw, firsts);
        AccountsForAll(hw, cs);
      }
    } else {
      var i: nat, j: nat :| i < |cs| && j < |cs| && i != j && cs[i].id == cs[j].id && Matchable(cs, i);
      var hw := AmbiguousLoses(cs, i, j);
      SelfDeduped(hw);
    }
  }

  /** With distinct ids, then, every configuration is matched once or offline, whatever the hardware. */
  lemma DistinctIdsAccounted(hardware: seq<Hardware>, hw: seq<Hardware>, cs: seq<Config>)
    requires Deduped(hardware, hw) && DistinctIds(cs)
    ensures Accounted(cs, Resolution(hw, cs))
  {
    hide Accounted, Resolution, Deduped, DistinctIds, Unambiguous;
    DistinctIsUnambiguous(cs);
    AccountedExactly(cs);
  }

  /** The plainest case: `a` has the device's IMEI, `b` shares the id of `a`; `b` is neither matched nor offline. */
  lemma SharedIdHides(a: Config, b: Config, h: Hardware)
    requires Key(h) != "" && ConfigKey(a) == Key(h) && ConfigKey(b) != Key(h) && a.id == b.id
    ensures var r := Resolution([h], [a, b]);
            r.matched == [Pair(a, h, "")] && r.offline == [] && r.unmatched == [] && r.degraded == []
  {
    hide NormalizeIMEI;
    var cs := [a, b];
    assert FirstByKey(cs, Key(h)) == 0;
    assert [h][..0] == [] && cs[..1] == [a] && [a][..0] == [];
    assert IMEIRound([], cs) == Identified([], {}, [], []);
    assert IMEIRound([h], cs) == Identified([Pair(a, h, "")], {a.id}, [], []);
    assert WithUse([a], {a.id}, false) == [];
    assert WithUse(cs, {a.id}, false) == [];
  }
}
