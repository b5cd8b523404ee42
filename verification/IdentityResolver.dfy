/** Which configured device is which piece of hardware: identity by IMEI first, and a one-time match by stable
    paths for configurations that have none. */
module IdentityResolver {
  import opened Text

  datatype Hardware = Hardware(imei: string, mode: string, usbPath: string, controlPath: string, netInterface: string)

  datatype Config = Config(id: string, imei: string, usbPath: string, controlDevice: string, netInterface: string)

  /** `backfill` is the IMEI to write into a configuration that had none. */
  datatype Pair = Pair(config: Config, hardware: Hardware, backfill: string)

  const IMEI_KEY_LENGTH := 14

  predicate IsDigit(c: char) {
    '0' <= c <= '9'
  }

  function Digits(s: string): string {
    if s == "" then "" else (if IsDigit(s[0]) then [s[0]] else "") + Digits(s[1..])
  }

  /** The comparison key of an IMEI: its first fourteen digits, or nothing. */
  function NormalizeIMEI(raw: string): string {
    var digits := Digits(raw);
    if |digits| < IMEI_KEY_LENGTH then "" else digits[..IMEI_KEY_LENGTH]
  }

  function Key(h: Hardware): string {
    NormalizeIMEI(h.imei)
  }

  function ConfigKey(c: Config): string {
    NormalizeIMEI(c.imei)
  }

  function Rank(h: Hardware): nat {
    var mode := Lower(Trim(h.mode));
    if mode == "qmi" then 5
    else if mode == "mbim" then 4
    else if mode == "ncm" then 3
    else if mode == "ecm" then 2
    else if mode == "rndis" then 1
    else 0
  }

  /** The USB path decides when both sides have one; otherwise the control node or the interface may. */
  predicate LegacyPathMatch(c: Config, h: Hardware) {
    var cfgUSB, hwUSB := Trim(c.usbPath), Trim(h.usbPath);
    if cfgUSB != "" && hwUSB != "" then cfgUSB == hwUSB
    else
      || (Trim(c.controlDevice) != "" && Trim(c.controlDevice) == Trim(h.controlPath))
      || (Trim(c.netInterface) != "" && Trim(c.netInterface) == Trim(h.netInterface))
  }

  // ---------- one binding for each IMEI ----------

  /** `hw[b]` is the first of the best compositions of its IMEI. */
  ghost predicate FirstBest(hw: seq<Hardware>, b: nat) {
    b < |hw| && forall j :: 0 <= j < |hw| && Key(hw[j]) == Key(hw[b]) ==>
      Rank(hw[j]) <= Rank(hw[b]) && (j < b ==> Rank(hw[j]) < Rank(hw[b]))
  }

  /** Position `f` opens a new binding: hardware without an IMEI, or the first with its IMEI. */
  ghost predicate Opens(hw: seq<Hardware>, f: nat) {
    f < |hw| && (Key(hw[f]) == "" || forall j :: 0 <= j < f ==> Key(hw[j]) != Key(hw[f]))
  }

  /** `x` is the binding that position `f` opens. */
  ghost predicate Binds(hw: seq<Hardware>, f: nat, x: Hardware) {
    f < |hw| &&
    if Key(hw[f]) == "" then x == hw[f]
    else exists b: nat :: FirstBest(hw, b) && Key(hw[b]) == Key(hw[f]) && x == hw[b]
  }

  /** `out` is `hw` with one binding for each IMEI: `firsts` are the positions that open one, in order, and each
      binding is the first best composition. */
  ghost predicate IsDeduped(hw: seq<Hardware>, out: seq<Hardware>, firsts: seq<nat>) {
    && |out| == |firsts|
    && Ascending(firsts)
    && (forall f: nat :: f in firsts <==> Opens(hw, f))
    && (forall i :: 0 <= i < |out| ==> Binds(hw, firsts[i], out[i]))
  }

  ghost predicate Deduped(hw: seq<Hardware>, out: seq<Hardware>) {
    exists firsts :: IsDeduped(hw, out, firsts)
  }

  ghost predicate UniqueKeys(out: seq<Hardware>) {
    forall i, j :: 0 <= i < j < |out| && Key(out[i]) != "" ==> Key(out[i]) != Key(out[j])
  }

  lemma DedupedKeysUnique(hw: seq<Hardware>, out: seq<Hardware>, firsts: seq<nat>)
    requires IsDeduped(hw, out, firsts)
    ensures UniqueKeys(out)
  {
    hide Key, Rank;
    forall i, j | 0 <= i < j < |out| && Key(out[i]) != "" ensures Key(out[i]) != Key(out[j]) {
      assert firsts[i] in firsts && firsts[j] in firsts;
      assert Binds(hw, firsts[i], out[i]) && Binds(hw, firsts[j], out[j]);
      assert Opens(hw, firsts[i]) && Opens(hw, firsts[j]);
    }
  }

  lemma OpensPrefix(hw: seq<Hardware>, h: Hardware, f: nat)
    requires f < |hw|
    ensures Opens(hw + [h], f) <==> Opens(hw, f)
  {
    hide Key;
    var hw' := hw + [h];
    assert forall j :: 0 <= j < |hw| ==> hw'[j] == hw[j];
    if Key(hw[f]) != "" && !Opens(hw, f) {
      var j :| 0 <= j < f && Key(hw[j]) == Key(hw[f]);
      assert hw'[j] == hw[j];
    }
  }

  /** A composition of another IMEI leaves a binding alone. */
  lemma BindsStays(hw: seq<Hardware>, f: nat, x: Hardware, h: Hardware)
    requires Binds(hw, f, x) && (Key(x) == "" || Key(x) != Key(h))
    ensures Binds(hw + [h], f, x)
  {
    hide Key, Rank;
    var hw' := hw + [h];
    if Key(hw[f]) != "" {
      var b: nat :| FirstBest(hw, b) && Key(hw[b]) == Key(hw[f]) && x == hw[b];
      assert FirstBest(hw', b) && hw'[b] == hw[b];
    }
  }

  /** One more piece of hardware that opens a binding. */
  lemma DedupeOpen(hw: seq<Hardware>, out: seq<Hardware>, firsts: seq<nat>, h: Hardware)
    requires IsDeduped(hw, out, firsts)
    requires Key(h) == "" || forall i :: 0 <= i < |out| ==> Key(out[i]) != Key(h)
    ensures IsDeduped(hw + [h], out + [h], firsts + [|hw|])
  {
    hide Key, Rank;
    var hw' := hw + [h];
    if Key(h) != "" {
      forall j | 0 <= j < |hw| ensures Key(hw[j]) != Key(h) {
        if Key(hw[j]) == Key(h) { KeyIsBound(hw, out, firsts, j); }
      }
      assert FirstBest(hw', |hw|);
    }
    forall f: nat ensures Opens(hw', f) <==> Opens(hw, f) || f == |hw| {
      if f < |hw| { OpensPrefix(hw, h, f); }
      if f == |hw| { assert hw'[f] == h && forall j :: 0 <= j < |hw| ==> hw'[j] == hw[j]; }
    }
    forall i | 0 <= i < |out| ensures Binds(hw', firsts[i], out[i]) { BindsStays(hw, firsts[i], out[i], h); }
  }

  /** Every IMEI seen has a binding. */
  lemma KeyIsBound(hw: seq<Hardware>, out: seq<Hardware>, firsts: seq<nat>, j: nat)
    requires IsDeduped(hw, out, firsts) && j < |hw| && Key(hw[j]) != ""
    ensures exists i :: 0 <= i < |out| && Key(out[i]) == Key(hw[j])
  {
    hide Key, Rank;
    var f := FirstWithKey(hw, j);
    assert f in firsts;
    var i :| 0 <= i < |firsts| && firsts[i] == f;
    assert Binds(hw, firsts[i], out[i]);
    assert Key(out[i]) == Key(hw[j]);
  }

  lemma {:induction false} FirstWithKey(hw: seq<Hardware>, j: nat) returns (f: nat)
    requires j < |hw|
    ensures f <= j && Key(hw[f]) == Key(hw[j]) && forall k :: 0 <= k < f ==> Key(hw[k]) != Key(hw[j])
    decreases j
  {
    hide Key;
    f := j;
    if k :| 0 <= k < j && Key(hw[k]) == Key(hw[j]) { f := FirstWithKey(hw, k); }
  }

  /** One more composition of a bound IMEI: it replaces the binding only when it is strictly better. */
  lemma DedupeAgain(hw: seq<Hardware>, out: seq<Hardware>, firsts: seq<nat>, h: Hardware, k: nat)
    requires IsDeduped(hw, out, firsts) && k < |out| && Key(h) != "" && Key(out[k]) == Key(h)
    ensures IsDeduped(hw + [h], if Rank(h) > Rank(out[k]) then out[k := h] else out, firsts)
  {
    hide Key, Rank;
    var hw' := hw + [h];
    var out' := if Rank(h) > Rank(out[k]) then out[k := h] else out;
    DedupedKeysUnique(hw, out, firsts);
    assert firsts[k] in firsts && Opens(hw, firsts[k]) && Binds(hw, firsts[k], out[k]);
    forall f: nat ensures Opens(hw', f) <==> Opens(hw, f) {
      if f < |hw| { OpensPrefix(hw, h, f); }
      if f == |hw| { assert hw'[firsts[k]] == hw[firsts[k]] && hw'[f] == h; }
    }
    var bk: nat :| FirstBest(hw, bk) && Key(hw[bk]) == Key(hw[firsts[k]]) && out[k] == hw[bk];
    assert if Rank(h) > Rank(out[k]) then FirstBest(hw', |hw|) && hw'[|hw|] == h
        else FirstBest(hw', bk) && hw'[bk] == hw[bk];
    assert Binds(hw', firsts[k], out'[k]);
    forall i | 0 <= i < |out| && i != k ensures Binds(hw', firsts[i], out'[i]) {
      assert Key(out[i]) == "" || Key(out[i]) != Key(out[k]);
      BindsStays(hw, firsts[i], out[i], h);
    }
  }

  method DedupeCompositions(hardware: seq<Hardware>) returns (out: seq<Hardware>)
    ensures Deduped(hardware, out)
  {
    hide Key, Rank, IsDeduped;
    var primaryIdx: map<string, nat> := map[];
    out := [];
    ghost var firsts: seq<nat> := [];
    assert hardware[..0] == [];
    NothingDeduped();
    for n := 0 to |hardware|
      invariant IsDeduped(hardware[..n], out, firsts) && |out| == |firsts|
      invariant forall i :: 0 <= i < |out| && Key(out[i]) != "" ==> Key(out[i]) in primaryIdx
      invariant forall k :: k in primaryIdx ==> k != "" && primaryIdx[k] < |out| && Key(out[primaryIdx[k]]) == k
    {
      var hw := hardware[n];
      assert hardware[..n + 1] == hardware[..n] + [hw];
      var key := Key(hw);
      if key == "" {
        DedupeOpen(hardware[..n], out, firsts, hw);
        out := out + [hw];
        firsts := firsts + [n];
      } else if key in primaryIdx {
        var idx := primaryIdx[key];
        DedupeAgain(hardware[..n], out, firsts, hw, idx);
        if Rank(hw) > Rank(out[idx]) { out := out[idx := hw]; }
      } else {
        DedupeOpen(hardware[..n], out, firsts, hw);
        primaryIdx := primaryIdx[key := |out|];
        out := out + [hw];
        firsts := firsts + [n];
      }
    }
    assert hardware[..|hardware|] == hardware;
  }

  ghost predicate Ascending(a: seq<nat>) {
    forall i, j :: 0 <= i < j < |a| ==> a[i] < a[j]
  }

  lemma LastIsGreatest(a: seq<nat>, x: nat)
    requires Ascending(a) && x in a
    ensures x <= a[|a| - 1] && (x in a[..|a| - 1] <==> x != a[|a| - 1])
  {
    var i :| 0 <= i < |a| && a[i] == x;
    if i < |a| - 1 { assert a[..|a| - 1][i] == x; }
  }

  function ButLast(a: seq<nat>): seq<nat>
    requires a != []
  {
    a[..|a| - 1]
  }

  lemma SameLast(a: seq<nat>, b: seq<nat>)
    requires Ascending(a) && Ascending(b) && a != [] && b != []
    requires forall x :: x in a <==> x in b
    ensures a[|a| - 1] == b[|b| - 1]
    ensures forall x :: x in ButLast(a) <==> x in ButLast(b)
  {
    hide Ascending;
    LastIsGreatest(a, b[|b| - 1]);
    LastIsGreatest(b, a[|a| - 1]);
    forall x: nat ensures x in ButLast(a) <==> x in ButLast(b) {
      if x in a { LastIsGreatest(a, x); LastIsGreatest(b, x); }
    }
  }

  lemma {:induction false} SameAscending(a: seq<nat>, b: seq<nat>)
    requires Ascending(a) && Ascending(b)
    requires forall x :: x in a <==> x in b
    ensures a == b
  {
    assert b != [] ==> b[0] in b;
    if a != [] {
      assert a[0] in b;
      SameLast(a, b);
      SameAscending(ButLast(a), ButLast(b));
      hide Ascending;
      assert a == ButLast(a) + [a[|a| - 1]] && b == ButLast(b) + [b[|b| - 1]];
    }
  }

  lemma BindsOne(hw: seq<Hardware>, f: nat, x: Hardware, y: Hardware)
    requires Binds(hw, f, x) && Binds(hw, f, y)
    ensures x == y
  {
    hide Key, Rank;
  }

  /** There is one way to keep a binding for each IMEI. */
  lemma DedupeIsUnique(hw: seq<Hardware>, a: seq<Hardware>, b: seq<Hardware>)
    requires Deduped(hw, a) && Deduped(hw, b)
    ensures a == b
  {
    hide Binds, Opens;
    var fa: seq<nat> :| IsDeduped(hw, a, fa);
    var fb: seq<nat> :| IsDeduped(hw, b, fb);
    assert forall x: nat :: x in fa <==> x in fb;
    SameAscending(fa, fb);
    forall i | 0 <= i < |a| ensures a[i] == b[i] { BindsOne(hw, fa[i], a[i], b[i]); }
  }

  lemma NothingDeduped()
    ensures IsDeduped([], [], [])
  {
  }

  // ---------- matching ----------

  datatype Result = Result(
    matched: seq<Pair>,
    unmatched: seq<Hardware>,
    offline: seq<Config>,
    degraded: seq<Hardware>)

  function Hardwares(ps: seq<Pair>): seq<Hardware> {
    seq(|ps|, i requires 0 <= i < |ps| => ps[i].hardware)
  }

  function Configs(ps: seq<Pair>): seq<Config> {
    seq(|ps|, i requires 0 <= i < |ps| => ps[i].config)
  }

  ghost predicate DistinctIds(cs: seq<Config>) {
    forall i, j :: 0 <= i < j < |cs| ==> cs[i].id != cs[j].id
  }

  /** The first configuration with this key. */
  ghost predicate FirstConfig(cs: seq<Config>, key: string, c: Config) {
    exists i: nat :: i < |cs| && cs[i] == c && ConfigKey(c) == key && forall j :: 0 <= j < i ==> ConfigKey(cs[j]) != key
  }

  /** What makes a pair legitimate. */
  ghost predicate GoodPair(cs: seq<Config>, p: Pair) {
    && p.config in cs
    && if Key(p.hardware) != "" && ConfigKey(p.config) != "" then
         // identity: the first configuration with the very IMEI of the device
         FirstConfig(cs, Key(p.hardware), p.config) && p.backfill == ""
       else
         // migration: never onto a configuration that is anchored to an IMEI, and never for a device that has one
         ConfigKey(p.config) == "" && LegacyPathMatch(p.config, p.hardware)
         && (Key(p.hardware) != "" ==> NoConfigFor(cs, p.hardware))
         && p.backfill == if Key(p.hardware) != "" then Trim(p.hardware.imei) else ""
  }

  ghost predicate NoConfigFor(cs: seq<Config>, h: Hardware) {
    forall i :: 0 <= i < |cs| ==> ConfigKey(cs[i]) != Key(h)
  }

  /** The used ids are exactly those of the matched configurations. */
  ghost predicate UsedExactly(ps: seq<Pair>, used: set<string>) {
    forall id :: id in used <==> exists i :: 0 <= i < |ps| && ps[i].config.id == id
  }

  ghost predicate DistinctPairs(ps: seq<Pair>) {
    forall i, j :: 0 <= i < j < |ps| ==> ps[i].config.id != ps[j].config.id
  }

  // ---------- the three rounds ----------

  /** The configurations without an IMEI, in order. */
  function LegacyOf(cs: seq<Config>): (legacy: seq<Config>)
    ensures forall c :: c in legacy <==> c in cs && ConfigKey(c) == ""
  {
    if cs == [] then []
    else LegacyOf(cs[..|cs| - 1]) + if ConfigKey(cs[|cs| - 1]) == "" then [cs[|cs| - 1]] else []
  }

  /** The first position with this key, or the length. */
  function FirstByKey(cs: seq<Config>, key: string): (f: nat)
    ensures f <= |cs|
    ensures f < |cs| ==> ConfigKey(cs[f]) == key
    ensures forall j :: 0 <= j < f ==> ConfigKey(cs[j]) != key
  {
    if cs == [] || ConfigKey(cs[0]) == key then 0 else FirstByKey(cs[1..], key) + 1
  }

  /** The first free configuration that matches the device by path, or the length. */
  function FirstFree(legacy: seq<Config>, used: set<string>, h: Hardware): (f: nat)
    ensures f <= |legacy|
  {
    if legacy == [] || (legacy[0].id !in used && LegacyPathMatch(legacy[0], h)) then 0
    else FirstFree(legacy[1..], used, h) + 1
  }

  lemma {:induction false} FreeMeaning(legacy: seq<Config>, used: set<string>, h: Hardware)
    ensures var f := FirstFree(legacy, used, h);
            && (f < |legacy| ==> legacy[f].id !in used && LegacyPathMatch(legacy[f], h))
            && forall j :: 0 <= j < f ==> legacy[j].id in used || !LegacyPathMatch(legacy[j], h)
  {
    hide LegacyPathMatch;
    if legacy != [] { FreeMeaning(legacy[1..], used, h); }
  }

  datatype Identified = Identified(
    pairs: seq<Pair>, used: set<string>, pending: seq<Hardware>, imeiless: seq<Hardware>)

  /** The first round: by IMEI, whatever the paths. */
  function IMEIRound(hw: seq<Hardware>, cs: seq<Config>): Identified {
    if hw == [] then Identified([], {}, [], [])
    else
      var r := IMEIRound(hw[..|hw| - 1], cs);
      var h := hw[|hw| - 1];
      var f := FirstByKey(cs, Key(h));
      if Key(h) == "" then r.(imeiless := r.imeiless + [h])
      else if f < |cs| then r.(pairs := r.pairs + [Pair(cs[f], h, "")], used := r.used + {cs[f].id})
      else r.(pending := r.pending + [h])
  }

  datatype Migrated = Migrated(pairs: seq<Pair>, used: set<string>, left: seq<Hardware>)

  /** The second and third rounds: each device in turn takes the first free configuration that matches it by path. */
  function PathRound(hw: seq<Hardware>, legacy: seq<Config>, used: set<string>, backfill: bool): Migrated {
    if hw == [] then Migrated([], used, [])
    else
      var r := PathRound(hw[..|hw| - 1], legacy, used, backfill);
      var h := hw[|hw| - 1];
      var f := FirstFree(legacy, r.used, h);
      if f < |legacy| then
        Migrated(r.pairs + [Pair(legacy[f], h, if backfill then Trim(h.imei) else "")], r.used + {legacy[f].id}, r.left)
      else r.(left := r.left + [h])
  }

  /** The configurations whose id is used or not, in order. */
  function WithUse(cs: seq<Config>, used: set<string>, inUse: bool): seq<Config> {
    if cs == [] then []
    else WithUse(cs[..|cs| - 1], used, inUse) + if cs[|cs| - 1].id in used <==> inUse then [cs[|cs| - 1]] else []
  }

  lemma {:induction false} UseMeaning(cs: seq<Config>, used: set<string>, inUse: bool)
    ensures forall c :: c in WithUse(cs, used, inUse) <==> c in cs && (c.id in used <==> inUse)
  {
    if cs != [] {
      UseMeaning(cs[..|cs| - 1], used, inUse);
      assert cs == cs[..|cs| - 1] + [cs[|cs| - 1]];
    }
  }

  /** The whole resolution of de-duplicated hardware. */
  function Resolution(hw: seq<Hardware>, cs: seq<Config>): Result {
    var one := IMEIRound(hw, cs);
    var two := PathRound(one.pending, LegacyOf(cs), one.used, true);
    var three := PathRound(one.imeiless, LegacyOf(cs), two.used, false);
    Result(one.pairs + two.pairs + three.pairs, two.left, WithUse(cs, three.used, false), three.left)
  }

  // ---------- the rounds as the program runs them ----------

  method TakeLegacyConfig(legacy: seq<Config>, used: set<string>, h: Hardware)
    returns (found: bool, cfg: Config, used': set<string>)
    ensures found <==> FirstFree(legacy, used, h) < |legacy|
    ensures found ==> cfg == legacy[FirstFree(legacy, used, h)] && used' == used + {cfg.id}
    ensures !found ==> used' == used
  {
    hide LegacyPathMatch;
    for i := 0 to |legacy|
      invariant FirstFree(legacy, used, h) == i + FirstFree(legacy[i..], used, h)
    {
      assert legacy[i..][1..] == legacy[i + 1..];
      if legacy[i].id in used { continue; }
      if LegacyPathMatch(legacy[i], h) { return true, legacy[i], used + {legacy[i].id}; }
    }
    return false, Config("", "", "", "", ""), used;
  }

  lemma NoLegacy(cs: seq<Config>)
    requires cs == []
    ensures LegacyOf(cs) == []
  {
  }

  lemma LegacyMore(cs: seq<Config>, n: nat)
    requires n < |cs|
    ensures LegacyOf(cs[..n + 1]) == LegacyOf(cs[..n]) + if ConfigKey(cs[n]) == "" then [cs[n]] else []
  {
    assert cs[..n + 1][..n] == cs[..n];
  }

  /** The index by IMEI and the configurations without one. */
  method IndexConfigs(configured: seq<Config>) returns (byIMEI: map<string, Config>, legacy: seq<Config>)
    ensures legacy == LegacyOf(configured)
    ensures forall k :: k in byIMEI <==> k != "" && FirstByKey(configured, k) < |configured|
    ensures forall k :: k in byIMEI ==> byIMEI[k] == configured[FirstByKey(configured, k)]
  {
    hide ConfigKey, FirstByKey, LegacyOf;
    byIMEI, legacy := map[], [];
    NoLegacy(configured[..0]);
    for n := 0 to |configured|
      invariant legacy == LegacyOf(configured[..n])
      invariant forall k :: k in byIMEI <==> k != "" && FirstByKey(configured, k) < n
      invariant forall k :: k in byIMEI ==> byIMEI[k] == configured[FirstByKey(configured, k)]
    {
      LegacyMore(configured, n);
      var cfg := configured[n];
      var key := ConfigKey(cfg);
      assert FirstByKey(configured, key) <= n;
      if key != "" {
        if key !in byIMEI { byIMEI := byIMEI[key := cfg]; }
        continue;
      }
      legacy := legacy + [cfg];
    }
    assert configured[..|configured|] == configured;
  }

  method MatchByIMEI(hw: seq<Hardware>, configured: seq<Config>, byIMEI: map<string, Config>)
    returns (matched: seq<Pair>, used: set<string>, pending: seq<Hardware>, imeiless: seq<Hardware>)
    requires forall k :: k in byIMEI <==> k != "" && FirstByKey(configured, k) < |configured|
    requires forall k :: k in byIMEI ==> byIMEI[k] == configured[FirstByKey(configured, k)]
    ensures Identified(matched, used, pending, imeiless) == IMEIRound(hw, configured)
  {
    hide Key;
    matched, used, pending, imeiless := [], {}, [], [];
    for n := 0 to |hw|
      invariant Identified(matched, used, pending, imeiless) == IMEIRound(hw[..n], configured)
    {
      assert hw[..n + 1][..n] == hw[..n];
      var h := hw[n];
      var key := Key(h);
      if key == "" {
        imeiless := imeiless + [h];
      } else if key in byIMEI {
        matched, used := matched + [Pair(byIMEI[key], h, "")], used + {byIMEI[key].id};
      } else {
        pending := pending + [h];
      }
    }
    assert hw[..|hw|] == hw;
  }

  method MatchByPath(hw: seq<Hardware>, legacy: seq<Config>, backfill: bool, used0: set<string>)
    returns (added: seq<Pair>, used: set<string>, left: seq<Hardware>)
    ensures Migrated(added, used, left) == PathRound(hw, legacy, used0, backfill)
  {
    hide FirstFree, Trim;
    added, used, left := [], used0, [];
    for n := 0 to |hw|
      invariant Migrated(added, used, left) == PathRound(hw[..n], legacy, used0, backfill)
    {
      assert hw[..n + 1][..n] == hw[..n];
      var h := hw[n];
      var found, cfg, used' := TakeLegacyConfig(legacy, used, h);
      if found {
        added, used := added + [Pair(cfg, h, if backfill then Trim(h.imei) else "")], used';
      } else {
        left := left + [h];
      }
    }
    assert hw[..|hw|] == hw;
  }

  method OfflineConfigs(configured: seq<Config>, used: set<string>) returns (offline: seq<Config>)
    ensures offline == WithUse(configured, used, false)
  {
    offline := [];
    for n := 0 to |configured|
      invariant offline == WithUse(configured[..n], used, false)
    {
      assert configured[..n + 1][..n] == configured[..n];
      if configured[n].id !in used { offline := offline + [configured[n]]; }
    }
    assert configured[..|configured|] == configured;
  }

  method ResolveDeviceIdentities(hardware: seq<Hardware>, configured: seq<Config>) returns (r: Result)
    ensures exists hw :: Deduped(hardware, hw) && r == Resolution(hw, configured) && Resolved(hw, configured, r)
  {
    hide Resolved, IsDeduped;
    var hw := DedupeCompositions(hardware);
    ghost var firsts: seq<nat> :| IsDeduped(hardware, hw, firsts);
    DedupedKeysUnique(hardware, hw, firsts);
    ResolutionResolves(hw, configured);
    var byIMEI, legacy := IndexConfigs(configured);
    var matched, used, pending, imeiless := MatchByIMEI(hw, configured, byIMEI);
    var added, left, offline;
    added, used, left := MatchByPath(pending, legacy, true, used);
    matched := matched + added;
    var unmatched := left;
    added, used, left := MatchByPath(imeiless, legacy, false, used);
    offline := OfflineConfigs(configured, used);
    r := Result(matched + added, unmatched, offline, left);
  }

  // ---------- what the rounds do ----------

  /** Every device seen so far is in exactly one of three places. */
  ghost predicate Partition(hw: seq<Hardware>, ps: seq<Pair>, xs: seq<Hardware>, ys: seq<Hardware>) {
    multiset(hw) == multiset(Hardwares(ps)) + multiset(xs) + multiset(ys)
  }

  lemma PartitionMore(hw: seq<Hardware>, ps: seq<Pair>, xs: seq<Hardware>, ys: seq<Hardware>, h: Hardware, p: Pair)
    requires Partition(hw, ps, xs, ys)
    ensures p.hardware == h ==> Partition(hw + [h], ps + [p], xs, ys)
    ensures Partition(hw + [h], ps, xs + [h], ys) && Partition(hw + [h], ps, xs, ys + [h])
  {
    assert Hardwares(ps + [p]) == Hardwares(ps) + [p.hardware];
  }

  lemma UsedOneMore(ps: seq<Pair>, used: set<string>, p: Pair)
    requires UsedExactly(ps, used)
    ensures UsedExactly(ps + [p], used + {p.config.id})
    ensures DistinctPairs(ps) && p.config.id !in used ==> DistinctPairs(ps + [p])
  {
    var ps' := ps + [p];
    forall id ensures id in used + {p.config.id} <==> exists i :: 0 <= i < |ps'| && ps'[i].config.id == id {
      if id in used {
        var i :| 0 <= i < |ps| && ps[i].config.id == id;
        assert ps'[i] == ps[i];
      }
      assert ps'[|ps|] == p;
    }
  }

  lemma NothingMatched()
    ensures Partition([], [], [], []) && UsedExactly([], {}) && DistinctPairs([])
  {
    assert Hardwares([]) == [];
  }

  const NOBODY := Pair(Config("", "", "", "", ""), Hardware("", "", "", "", ""), "")

  /** A pair of the first round. */
  ghost predicate ByIMEI(cs: seq<Config>, hw: seq<Hardware>, p: Pair) {
    p.hardware in hw && Key(p.hardware) != "" && p.backfill == ""
    && FirstByKey(cs, Key(p.hardware)) < |cs| && p.config == cs[FirstByKey(cs, Key(p.hardware))]
  }

  lemma {:induction false} IMEIRoundMeaning(hw: seq<Hardware>, cs: seq<Config>)
    ensures var r := IMEIRound(hw, cs);
            && Partition(hw, r.pairs, r.pending, r.imeiless) && UsedExactly(r.pairs, r.used)
            && (forall p :: p in r.pairs ==> ByIMEI(cs, hw, p))
            && (forall h :: h in r.pending ==> Key(h) != "" && FirstByKey(cs, Key(h)) == |cs|)
            && (forall h :: h in r.imeiless ==> Key(h) == "")
  {
    hide Key, Partition, UsedExactly, FirstByKey;
    if hw == [] {
      NothingMatched();
    } else {
      var init, h := hw[..|hw| - 1], hw[|hw| - 1];
      assert hw == init + [h];
      IMEIRoundMeaning(init, cs);
      var r := IMEIRound(init, cs);
      var f := FirstByKey(cs, Key(h));
      var p := if f < |cs| then Pair(cs[f], h, "") else NOBODY;
      PartitionMore(init, r.pairs, r.pending, r.imeiless, h, p);
      UsedOneMore(r.pairs, r.used, p);
      assert forall x :: x in init ==> x in hw;
    }
  }

  /** A pair of the later rounds, at its turn: the first configuration in the list that no pair before it holds. */
  ghost predicate InTurn(legacy: seq<Config>, ps: seq<Pair>, k: nat) {
    k < |ps| && exists f: nat :: (
      f < |legacy| && ps[k].config == legacy[f] && LegacyPathMatch(legacy[f], ps[k].hardware)
      && !Holds(ps, k, legacy[f].id)
      && forall j :: 0 <= j < f && LegacyPathMatch(legacy[j], ps[k].hardware) ==> Holds(ps, k, legacy[j].id))
  }

  /** One of the first `k` pairs holds a configuration with this id. */
  ghost predicate Holds(ps: seq<Pair>, k: nat, id: string)
    requires k <= |ps|
  {
    exists i :: 0 <= i < k && ps[i].config.id == id
  }

  lemma HoldsUsed(ps: seq<Pair>, used: set<string>, more: seq<Pair>, id: string)
    requires UsedExactly(ps, used)
    ensures Holds(ps + more, |ps|, id) <==> id in used
  {
    if id in used {
      var i :| 0 <= i < |ps| && ps[i].config.id == id;
      assert (ps + more)[i] == ps[i];
    }
    if Holds(ps + more, |ps|, id) {
      var i :| 0 <= i < |ps| && (ps + more)[i].config.id == id;
      assert ps[i].config.id == id;
    }
  }

  lemma InTurnStays(legacy: seq<Config>, ps: seq<Pair>, more: seq<Pair>, k: nat)
    requires InTurn(legacy, ps, k)
    ensures InTurn(legacy, ps + more, k)
  {
    hide LegacyPathMatch;
    var all := ps + more;
    assert forall i :: 0 <= i < |ps| ==> all[i] == ps[i];
    forall id ensures Holds(all, k, id) == Holds(ps, k, id) {
      if Holds(ps, k, id) {
        var i :| 0 <= i < k && ps[i].config.id == id;
        assert all[i].config.id == id;
      }
    }
    var f: nat :| f < |legacy| && ps[k].config == legacy[f] && LegacyPathMatch(legacy[f], ps[k].hardware)
      && !Holds(ps, k, legacy[f].id)
      && forall j :: 0 <= j < f && LegacyPathMatch(legacy[j], ps[k].hardware) ==> Holds(ps, k, legacy[j].id);
    assert all[k].config == legacy[f];
  }

  lemma TakesTurn(legacy: seq<Config>, ps: seq<Pair>, used: set<string>, p: Pair, f: nat)
    requires UsedExactly(ps, used) && f == FirstFree(legacy, used, p.hardware) < |legacy| && p.config == legacy[f]
    ensures InTurn(legacy, ps + [p], |ps|)
  {
    hide FirstFree, LegacyPathMatch, Holds;
    FreeMeaning(legacy, used, p.hardware);
    assert (ps + [p])[|ps|] == p;
    forall j | 0 <= j <= f ensures Holds(ps + [p], |ps|, legacy[j].id) <==> legacy[j].id in used {
      HoldsUsed(ps, used, [p], legacy[j].id);
    }
  }

  /** What a path round adds to the pairs of the rounds before it. */
  ghost predicate PathPair(legacy: seq<Config>, hw: seq<Hardware>, used0: set<string>, backfill: bool, p: Pair) {
    p.hardware in hw && p.config in legacy && LegacyPathMatch(p.config, p.hardware) && p.config.id !in used0
    && p.backfill == if backfill then Trim(p.hardware.imei) else ""
  }

  /** No free configuration matches the device. */
  ghost predicate LeftOver(legacy: seq<Config>, used: set<string>, h: Hardware) {
    forall c :: c in legacy && c.id !in used ==> !LegacyPathMatch(c, h)
  }

  lemma NoFreeMatch(legacy: seq<Config>, used: set<string>, h: Hardware)
    requires FirstFree(legacy, used, h) == |legacy|
    ensures LeftOver(legacy, used, h)
  {
    hide LegacyPathMatch;
    FreeMeaning(legacy, used, h);
  }

  lemma FreePair(legacy: seq<Config>, used: set<string>, h: Hardware, hw: seq<Hardware>, used0: set<string>,
          backfill: bool)
    requires FirstFree(legacy, used, h) < |legacy| && h in hw && used0 <= used
    ensures var c := legacy[FirstFree(legacy, used, h)];
            PathPair(legacy, hw, used0, backfill, Pair(c, h, if backfill then Trim(h.imei) else "")) && c.id !in used
  {
    hide LegacyPathMatch, Trim;
    FreeMeaning(legacy, used, h);
  }

  lemma {:induction false} PathRoundMeaning(hw: seq<Hardware>, legacy: seq<Config>, used: set<string>, backfill: bool,
                                            before: seq<Pair>)
    requires UsedExactly(before, used)
    ensures var r := PathRound(hw, legacy, used, backfill);
            && Partition(hw, r.pairs, r.left, []) && used <= r.used && UsedExactly(before + r.pairs, r.used)
            && (DistinctPairs(before) ==> DistinctPairs(before + r.pairs))
            && (forall p :: p in r.pairs ==> PathPair(legacy, hw, used, backfill, p))
            && (forall h :: h in r.left ==> h in hw && LeftOver(legacy, r.used, h))
            && (forall k :: |before| <= k < |before + r.pairs| ==> InTurn(legacy, before + r.pairs, k))
  {
    hide Partition, UsedExactly, DistinctPairs, PathPair, InTurn, Trim, LegacyPathMatch, FirstFree, LeftOver;
    if hw == [] {
      NothingMatched();
      assert before + [] == before;
    } else {
      var init, h := hw[..|hw| - 1], hw[|hw| - 1];
      assert hw == init + [h];
      PathRoundMeaning(init, legacy, used, backfill, before);
      var r := PathRound(init, legacy, used, backfill);
      var r' := PathRound(hw, legacy, used, backfill);
      var f := FirstFree(legacy, r.used, h);
      var p := if f < |legacy| then Pair(legacy[f], h, if backfill then Trim(h.imei) else "") else NOBODY;
      PartitionMore(init, r.pairs, r.left, [], h, p);
      forall q | q in r.pairs ensures PathPair(legacy, hw, used, backfill, q) {
        WiderPair(legacy, init, hw, used, backfill, q);
      }
      if f < |legacy| {
        assert before + r'.pairs == before + r.pairs + [p];
        UsedOneMore(before + r.pairs, r.used, p);
        FreePair(legacy, r.used, h, hw, used, backfill);
        TakesTurn(legacy, before + r.pairs, r.used, p, f);
        forall x | x in r.left ensures LeftOver(legacy, r'.used, x) { LeftStays(legacy, r.used, r'.used, x); }
        forall k | |before| <= k < |before + r'.pairs| ensures InTurn(legacy, before + r'.pairs, k) {
          if k < |before + r.pairs| { InTurnStays(legacy, before + r.pairs, [p], k); }
        }
      } else {
        NoFreeMatch(legacy, r.used, h);
      }
    }
  }

  lemma WiderPair(legacy: seq<Config>, init: seq<Hardware>, hw: seq<Hardware>, used: set<string>, backfill: bool,
          p: Pair)
    requires PathPair(legacy, init, used, backfill, p) && forall h :: h in init ==> h in hw
    ensures PathPair(legacy, hw, used, backfill, p)
  {
  }

  lemma LeftStays(legacy: seq<Config>, used: set<string>, used': set<string>, h: Hardware)
    requires LeftOver(legacy, used, h) && used <= used'
    ensures LeftOver(legacy, used', h)
  {
    hide LegacyPathMatch;
  }

  // ---------- configurations that share an id ----------

  predicate HasPath(c: Config) {
    Trim(c.usbPath) != "" || Trim(c.controlDevice) != "" || Trim(c.netInterface) != ""
  }

  /** Some device could be given this configuration: it is the first with its IMEI, or has none but some path. */
  ghost predicate Matchable(cs: seq<Config>, i: nat)
    requires i < |cs|
  {
    if ConfigKey(cs[i]) != "" then forall j :: 0 <= j < i ==> ConfigKey(cs[j]) != ConfigKey(cs[i]) else HasPath(cs[i])
  }

  /** No configuration that a device could be given shares its id with another. */
  ghost predicate Unambiguous(cs: seq<Config>) {
    forall i: nat, j: nat :: i < |cs| && j < |cs| && i != j && cs[i].id == cs[j].id ==> !Matchable(cs, i)
  }

  ghost predicate MatchedFrom(cs: seq<Config>, c: Config) {
    exists i: nat :: i < |cs| && cs[i] == c && Matchable(cs, i)
  }

  lemma DistinctIsUnambiguous(cs: seq<Config>)
    requires DistinctIds(cs)
    ensures Unambiguous(cs)
  {
    hide ConfigKey, HasPath;
  }

  lemma MatchHasPath(c: Config, h: Hardware)
    requires LegacyPathMatch(c, h)
    ensures HasPath(c)
  {
    hide Trim;
  }

  /** The first round takes different configurations, with different ids unless those are ambiguous. */
  lemma {:induction false} IMEIPairsDistinct(hw: seq<Hardware>, cs: seq<Config>)
    requires UniqueKeys(hw) && Unambiguous(cs)
    ensures DistinctPairs(IMEIRound(hw, cs).pairs)
  {
    hide Key, ConfigKey, HasPath, FirstByKey, Unambiguous, ByIMEI;
    if hw != [] {
      var init, h := hw[..|hw| - 1], hw[|hw| - 1];
      assert hw == init + [h];
      IMEIPairsDistinct(init, cs);
      IMEIRoundMeaning(init, cs);
      var r := IMEIRound(init, cs);
      var f := FirstByKey(cs, Key(h));
      if Key(h) != "" && f < |cs| {
        forall i | 0 <= i < |r.pairs| ensures r.pairs[i].config.id != cs[f].id {
          assert r.pairs[i] in r.pairs;
          OtherKey(hw, cs, r.pairs[i]);
        }
      }
    }
  }

  lemma OtherKey(hw: seq<Hardware>, cs: seq<Config>, p: Pair)
    requires hw != [] && UniqueKeys(hw) && Unambiguous(cs) && ByIMEI(cs, hw[..|hw| - 1], p)
    requires Key(hw[|hw| - 1]) != "" && FirstByKey(cs, Key(hw[|hw| - 1])) < |cs|
    ensures p.config.id != cs[FirstByKey(cs, Key(hw[|hw| - 1]))].id
  {
    hide Key, ConfigKey, HasPath;
    var f, g := FirstByKey(cs, Key(hw[|hw| - 1])), FirstByKey(cs, Key(p.hardware));
    var i :| 0 <= i < |hw| - 1 && hw[..|hw| - 1][i] == p.hardware;
    assert hw[i] == p.hardware;
    assert Matchable(cs, f) && f != g;
  }

  lemma {:induction false} OnceEach(cs: seq<Config>)
    requires DistinctIds(cs)
    ensures forall c :: multiset(cs)[c] == if c in cs then 1 else 0
  {
    if cs != [] {
      var init, last := cs[..|cs| - 1], cs[|cs| - 1];
      assert cs == init + [last];
      OnceEach(init);
      assert last !in init;
    }
  }

  lemma LastCounts(cs: seq<Config>, c: Config)
    requires cs != []
    ensures multiset(cs)[c] == multiset(cs[..|cs| - 1])[c] + if cs[|cs| - 1] == c then 1 else 0
  {
    assert cs == cs[..|cs| - 1] + [cs[|cs| - 1]];
  }

  lemma {:induction false} UseCounts(cs: seq<Config>, used: set<string>, inUse: bool, c: Config)
    ensures multiset(WithUse(cs, used, inUse))[c] == if c.id in used <==> inUse then multiset(cs)[c] else 0
  {
    if cs != [] {
      UseCounts(cs[..|cs| - 1], used, inUse, c);
      LastCounts(cs, c);
    }
  }

  lemma UseDivides(cs: seq<Config>, used: set<string>)
    ensures multiset(cs) == multiset(WithUse(cs, used, true)) + multiset(WithUse(cs, used, false))
  {
    hide WithUse;
    forall c: Config
      ensures multiset(cs)[c] == multiset(WithUse(cs, used, true))[c] + multiset(WithUse(cs, used, false))[c]
    {
      UseCounts(cs, used, true, c);
      UseCounts(cs, used, false, c);
    }
  }

  lemma {:induction false} InUseDistinct(cs: seq<Config>, used: set<string>)
    requires forall i, j :: 0 <= i < j < |cs| && cs[i].id == cs[j].id ==> cs[i].id !in used
    ensures DistinctIds(WithUse(cs, used, true))
  {
    if cs != [] {
      var init, last := cs[..|cs| - 1], cs[|cs| - 1];
      InUseDistinct(init, used);
      UseMeaning(init, used, true);
      var r := WithUse(init, used, true);
      forall i | 0 <= i < |r| && last.id in used ensures r[i].id != last.id {
        assert r[i] in init;
        var j :| 0 <= j < |init| && init[j] == r[i];
        assert cs[j] == r[i];
      }
    }
  }

  /** When no ids are ambiguous the configurations in use are those of the pairs, once each. */
  lemma UsedAreMatched(cs: seq<Config>, ps: seq<Pair>, used: set<string>)
    requires Unambiguous(cs) && UsedExactly(ps, used) && DistinctPairs(ps)
    requires forall p :: p in ps ==> MatchedFrom(cs, p.config)
    ensures multiset(WithUse(cs, used, true)) == multiset(Configs(ps))
  {
    hide Matchable, MatchedFrom, UsedExactly, Unambiguous, DistinctIds, WithUse, DistinctPairs, Configs;
    var ms, taken := Configs(ps), WithUse(cs, used, true);
    forall i, j | 0 <= i < j < |cs| && cs[i].id == cs[j].id ensures cs[i].id !in used {
      OnlyOne(cs, ps, used, i, j);
    }
    InUseDistinct(cs, used);
    ConfigsDistinct(ps);
    OnceEach(ms);
    OnceEach(taken);
    UseMeaning(cs, used, true);
    forall c ensures c in taken <==> c in ms {
      if c in taken {
        var j: nat :| j < |cs| && cs[j] == c;
        SameAsMatched(cs, ps, used, j);
      }
      if c in ms { MatchedIsUsed(cs, ps, used, c); }
    }
  }

  lemma ConfigsDistinct(ps: seq<Pair>)
    requires DistinctPairs(ps)
    ensures DistinctIds(Configs(ps))
  {
  }

  lemma MatchedIsUsed(cs: seq<Config>, ps: seq<Pair>, used: set<string>, c: Config)
    requires UsedExactly(ps, used) && (forall p :: p in ps ==> MatchedFrom(cs, p.config)) && c in Configs(ps)
    ensures c in cs && c.id in used
  {
    hide Matchable;
    var i :| 0 <= i < |ps| && Configs(ps)[i] == c;
    assert ps[i] in ps && c.id == ps[i].config.id;
  }

  /** A used id belongs to one configuration only. */
  lemma OnlyOne(cs: seq<Config>, ps: seq<Pair>, used: set<string>, i: nat, j: nat)
    requires Unambiguous(cs) && UsedExactly(ps, used) && forall p :: p in ps ==> MatchedFrom(cs, p.config)
    requires i < |cs| && j < |cs| && i != j && cs[i].id == cs[j].id
    ensures cs[i].id !in used
  {
    hide Matchable;
    forall k | 0 <= k < |ps| ensures ps[k].config.id != cs[i].id {
      assert ps[k] in ps;
      var m: nat :| m < |cs| && cs[m] == ps[k].config && Matchable(cs, m);
    }
  }

  lemma SameAsMatched(cs: seq<Config>, ps: seq<Pair>, used: set<string>, j: nat)
    requires Unambiguous(cs) && UsedExactly(ps, used) && forall p :: p in ps ==> MatchedFrom(cs, p.config)
    requires j < |cs| && cs[j].id in used
    ensures MatchedFrom(cs, cs[j]) && cs[j] in Configs(ps)
  {
    hide Matchable;
    var k :| 0 <= k < |ps| && ps[k].config.id == cs[j].id;
    assert ps[k] in ps;
    var m: nat :| m < |cs| && cs[m] == ps[k].config && Matchable(cs, m);
    assert m == j;
    assert Configs(ps)[k] == cs[j];
  }

  // ---------- what the resolver promises ----------

  /** Every configuration is matched once or offline. */
  ghost predicate Accounted(configured: seq<Config>, r: Result) {
    multiset(configured) == multiset(Configs(r.matched)) + multiset(r.offline)
  }

  ghost predicate Resolved(hw: seq<Hardware>, configured: seq<Config>, r: Result) {
    // every device is in exactly one list, and so is every configuration when no ids are ambiguous
    && multiset(hw) == multiset(Hardwares(r.matched)) + multiset(r.unmatched) + multiset(r.degraded)
    && (Unambiguous(configured) ==> DistinctPairs(r.matched) && Accounted(configured, r))
    // in any case the offline ones are those whose id no matched configuration has
    && (forall c :: c in r.offline <==> c in configured && forall p :: p in r.matched ==> p.config.id != c.id)
    // pairs are legitimate: by IMEI where there is a configuration with it, by path where there is none
    && (forall p :: p in r.matched ==> GoodPair(configured, p))
    // a pair by path holds the first matching configuration that no pair before it holds
    && (forall k: nat :: k < |r.matched| && ConfigKey(r.matched[k].config) == "" ==>
          InTurn(LegacyOf(configured), r.matched, k))
    // whoever is left over has no counterpart by IMEI, and none by path among the free configurations
    && (forall h :: h in r.unmatched ==> Key(h) != "" && NoConfigFor(configured, h))
    && (forall h :: h in r.degraded ==> Key(h) == "")
    && (forall h, c :: (h in r.unmatched || h in r.degraded) && c in r.offline && ConfigKey(c) == "" ==>
          !LegacyPathMatch(c, h))
    // and devices with an IMEI choose before those without
    && (forall h, p :: h in r.unmatched && p in r.matched && Key(p.hardware) == "" ==> !LegacyPathMatch(p.config, h))
  }

  lemma UsedMeansMatched(ps: seq<Pair>, used: set<string>, id: string)
    requires UsedExactly(ps, used)
    ensures id !in used <==> forall p :: p in ps ==> p.config.id != id
  {
    if id in used {
      var i :| 0 <= i < |ps| && ps[i].config.id == id;
      assert ps[i] in ps;
    }
  }

  lemma DevicesPartition(hw: seq<Hardware>, m1: seq<Pair>, m2: seq<Pair>, m3: seq<Pair>, pending: seq<Hardware>,
                         imeiless: seq<Hardware>, unmatched: seq<Hardware>, degraded: seq<Hardware>)
    requires Partition(hw, m1, pending, imeiless) && Partition(pending, m2, unmatched, [])
    requires Partition(imeiless, m3, degraded, [])
    ensures multiset(hw) == multiset(Hardwares(m1 + m2 + m3)) + multiset(unmatched) + multiset(degraded)
  {
    assert Hardwares(m1 + m2 + m3) == Hardwares(m1) + Hardwares(m2) + Hardwares(m3);
  }

  lemma IMEIPairIsGood(cs: seq<Config>, hw: seq<Hardware>, p: Pair)
    requires ByIMEI(cs, hw, p)
    ensures GoodPair(cs, p) && MatchedFrom(cs, p.config) && ConfigKey(p.config) != ""
  {
    hide Key, ConfigKey, HasPath;
    var f := FirstByKey(cs, Key(p.hardware));
    assert Matchable(cs, f);
  }

  lemma PathPairIsGood(cs: seq<Config>, hw: seq<Hardware>, used: set<string>, backfill: bool, p: Pair)
    requires PathPair(LegacyOf(cs), hw, used, backfill, p)
    requires (Key(p.hardware) != "" <==> backfill) && (backfill ==> NoConfigFor(cs, p.hardware))
    ensures GoodPair(cs, p) && MatchedFrom(cs, p.config) && ConfigKey(p.config) == ""
  {
    hide Key, ConfigKey, Trim, LegacyPathMatch;
    MatchHasPath(p.config, p.hardware);
    var i: nat :| i < |cs| && cs[i] == p.config;
    assert Matchable(cs, i);
  }

  lemma NoConfigWithKey(cs: seq<Config>, h: Hardware)
    requires FirstByKey(cs, Key(h)) == |cs|
    ensures NoConfigFor(cs, h)
  {
    hide Key, ConfigKey;
  }

  /** Whose configurations are used: every pair is good, and those found later by path were free before. */
  ghost predicate GoodRounds(cs: seq<Config>, hw: seq<Hardware>) {
    var one := IMEIRound(hw, cs);
    var two := PathRound(one.pending, LegacyOf(cs), one.used, true);
    var three := PathRound(one.imeiless, LegacyOf(cs), two.used, false);
    && (forall p :: p in one.pairs ==> GoodPair(cs, p) && MatchedFrom(cs, p.config) && ConfigKey(p.config) != ""
                                       && Key(p.hardware) != "")
    && (forall p :: p in two.pairs ==> GoodPair(cs, p) && MatchedFrom(cs, p.config) && ConfigKey(p.config) == ""
                                       && Key(p.hardware) != "")
    && (forall p :: p in three.pairs ==> GoodPair(cs, p) && MatchedFrom(cs, p.config) && ConfigKey(p.config) == ""
                                         && Key(p.hardware) == "" && p.config.id !in two.used
                                         && p.config in LegacyOf(cs))
  }

  lemma RoundsAreGood(hw: seq<Hardware>, cs: seq<Config>)
    ensures GoodRounds(cs, hw)
  {
    hide Key, ConfigKey, GoodPair, MatchedFrom, LegacyPathMatch, Trim, FirstByKey, FirstFree, Partition, InTurn,
      LeftOver, UsedExactly, DistinctPairs, IMEIRound, PathRound, LegacyOf;
    var one := IMEIRound(hw, cs);
    IMEIRoundMeaning(hw, cs);
    PathRoundMeaning(one.pending, LegacyOf(cs), one.used, true, one.pairs);
    var two := PathRound(one.pending, LegacyOf(cs), one.used, true);
    PathRoundMeaning(one.imeiless, LegacyOf(cs), two.used, false, one.pairs + two.pairs);
    var three := PathRound(one.imeiless, LegacyOf(cs), two.used, false);
    forall p | p in one.pairs
      ensures GoodPair(cs, p) && MatchedFrom(cs, p.config) && ConfigKey(p.config) != "" && Key(p.hardware) != ""
    {
      IMEIPairIsGood(cs, hw, p);
    }
    forall p | p in two.pairs
      ensures GoodPair(cs, p) && MatchedFrom(cs, p.config) && ConfigKey(p.config) == "" && Key(p.hardware) != ""
    {
      NoConfigWithKey(cs, p.hardware);
      PathPairIsGood(cs, one.pending, one.used, true, p);
    }
    forall p | p in three.pairs
      ensures GoodPair(cs, p) && MatchedFrom(cs, p.config) && ConfigKey(p.config) == ""
              && Key(p.hardware) == "" && p.config.id !in two.used && p.config in LegacyOf(cs)
    {
      PathPairIsGood(cs, one.imeiless, two.used, false, p);
    }
  }

  lemma OfflineAreUnused(cs: seq<Config>, ps: seq<Pair>, used: set<string>)
    requires UsedExactly(ps, used)
    ensures forall c :: c in WithUse(cs, used, false) <==> c in cs && forall p :: p in ps ==> p.config.id != c.id
  {
    hide UsedExactly;
    UseMeaning(cs, used, false);
    forall c ensures c in WithUse(cs, used, false) <==> c in cs && forall p :: p in ps ==> p.config.id != c.id {
      UsedMeansMatched(ps, used, c.id);
    }
  }

  /** The pairs of the first round are not by path; all others stand in turn. */
  lemma AllInTurn(hw: seq<Hardware>, cs: seq<Config>)
    ensures var ps := Resolution(hw, cs).matched;
            forall k: nat :: k < |ps| && ConfigKey(ps[k].config) == "" ==> InTurn(LegacyOf(cs), ps, k)
  {
    hide Key, ConfigKey, GoodPair, MatchedFrom, PathPair, ByIMEI, Partition, InTurn, LeftOver, UsedExactly,
      DistinctPairs, IMEIRound, PathRound, LegacyOf;
    RoundsAreGood(hw, cs);
    var one := IMEIRound(hw, cs);
    IMEIRoundMeaning(hw, cs);
    PathRoundMeaning(one.pending, LegacyOf(cs), one.used, true, one.pairs);
    var two := PathRound(one.pending, LegacyOf(cs), one.used, true);
    PathRoundMeaning(one.imeiless, LegacyOf(cs), two.used, false, one.pairs + two.pairs);
    var three := PathRound(one.imeiless, LegacyOf(cs), two.used, false);
    var ps := one.pairs + two.pairs + three.pairs;
    forall k: nat | k < |one.pairs| ensures ConfigKey(ps[k].config) != "" { assert ps[k] in one.pairs; }
    forall k: nat | k < |ps| && ConfigKey(ps[k].config) == "" ensures InTurn(LegacyOf(cs), ps, k) {
      if |one.pairs| <= k < |one.pairs + two.pairs| {
        InTurnStays(LegacyOf(cs), one.pairs + two.pairs, three.pairs, k);
      }
    }
  }

  lemma PairsDistinct(hw: seq<Hardware>, cs: seq<Config>)
    requires DistinctPairs(IMEIRound(hw, cs).pairs)
    ensures DistinctPairs(Resolution(hw, cs).matched)
  {
    hide Key, ConfigKey, PathPair, ByIMEI, Partition, InTurn, LeftOver, UsedExactly, DistinctPairs, IMEIRound,
      PathRound, LegacyOf;
    var one := IMEIRound(hw, cs);
    IMEIRoundMeaning(hw, cs);
    PathRoundMeaning(one.pending, LegacyOf(cs), one.used, true, one.pairs);
    var two := PathRound(one.pending, LegacyOf(cs), one.used, true);
    PathRoundMeaning(one.imeiless, LegacyOf(cs), two.used, false, one.pairs + two.pairs);
  }

  /** The final set of used ids, and who was used when. */
  lemma UseOfRounds(hw: seq<Hardware>, cs: seq<Config>)
    ensures var one := IMEIRound(hw, cs);
            var two := PathRound(one.pending, LegacyOf(cs), one.used, true);
            var three := PathRound(one.imeiless, LegacyOf(cs), two.used, false);
            && two.used <= three.used && UsedExactly(Resolution(hw, cs).matched, three.used)
            && (forall h :: h in two.left ==>
                  Key(h) != "" && FirstByKey(cs, Key(h)) == |cs| && LeftOver(LegacyOf(cs), two.used, h))
            && (forall h :: h in three.left ==> Key(h) == "" && LeftOver(LegacyOf(cs), three.used, h))
            && multiset(hw) ==
               multiset(Hardwares(Resolution(hw, cs).matched)) + multiset(two.left) + multiset(three.left)
  {
    hide Key, ConfigKey, PathPair, ByIMEI, Partition, InTurn, LeftOver, UsedExactly, DistinctPairs, IMEIRound,
      PathRound, LegacyOf, FirstByKey, Hardwares;
    var one := IMEIRound(hw, cs);
    IMEIRoundMeaning(hw, cs);
    PathRoundMeaning(one.pending, LegacyOf(cs), one.used, true, one.pairs);
    var two := PathRound(one.pending, LegacyOf(cs), one.used, true);
    PathRoundMeaning(one.imeiless, LegacyOf(cs), two.used, false, one.pairs + two.pairs);
    var three := PathRound(one.imeiless, LegacyOf(cs), two.used, false);
    DevicesPartition(hw, one.pairs, two.pairs, three.pairs, one.pending, one.imeiless, two.left, three.left);
  }

  lemma AccountsForAll(hw: seq<Hardware>, cs: seq<Config>)
    requires UniqueKeys(hw) && Unambiguous(cs)
    ensures DistinctPairs(Resolution(hw, cs).matched) && Accounted(cs, Resolution(hw, cs))
  {
    hide UniqueKeys, Unambiguous, UsedExactly, DistinctPairs, LeftOver, GoodPair, MatchedFrom, IMEIRound, PathRound,
      LegacyOf, WithUse, Configs, Hardwares;
    IMEIPairsDistinct(hw, cs);
    PairsDistinct(hw, cs);
    UseOfRounds(hw, cs);
    RoundsAreGood(hw, cs);
    var one := IMEIRound(hw, cs);
    var two := PathRound(one.pending, LegacyOf(cs), one.used, true);
    var three := PathRound(one.imeiless, LegacyOf(cs), two.used, false);
    UsedAreMatched(cs, Resolution(hw, cs).matched, three.used);
    UseDivides(cs, three.used);
  }

  /** The resolver meets its promises. */
  lemma ResolutionResolves(hw: seq<Hardware>, cs: seq<Config>)
    requires UniqueKeys(hw)
    ensures Resolved(hw, cs, Resolution(hw, cs))
  {
    hide Key, ConfigKey, LegacyPathMatch, UniqueKeys, Unambiguous, UsedExactly, DistinctPairs, GoodPair, MatchedFrom,
      InTurn, Accounted, NoConfigFor, FirstByKey, IMEIRound, PathRound, LegacyOf, WithUse, Configs, Hardwares;
    if Unambiguous(cs) { AccountsForAll(hw, cs); }
    AllInTurn(hw, cs);
    UseOfRounds(hw, cs);
    RoundsAreGood(hw, cs);
    var r := Resolution(hw, cs);
    var one := IMEIRound(hw, cs);
    var two := PathRound(one.pending, LegacyOf(cs), one.used, true);
    var three := PathRound(one.imeiless, LegacyOf(cs), two.used, false);
    OfflineAreUnused(cs, r.matched, three.used);
    forall h | h in r.unmatched ensures NoConfigFor(cs, h) { NoConfigWithKey(cs, h); }
    forall h, c | (h in r.unmatched || h in r.degraded) && c in r.offline && ConfigKey(c) == ""
      ensures !LegacyPathMatch(c, h)
    {
      UsedMeansMatched(r.matched, three.used, c.id);
      assert c in LegacyOf(cs) by { LegacyMember(cs, c); }
    }
    forall h, p | h in r.unmatched && p in r.matched && Key(p.hardware) == "" ensures !LegacyPathMatch(p.config, h) {
      assert p in three.pairs;
    }
  }

  lemma LegacyMember(cs: seq<Config>, c: Config)
    requires c in cs && ConfigKey(c) == ""
    ensures c in LegacyOf(cs)
  {
  }
}
