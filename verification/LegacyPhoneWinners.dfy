/** What a migration keeps of the old rows, in the columns of the tables. */
module LegacyPhoneWinners {
  import opened Common
  import opened LegacyPhoneMerge

  /** A row takes part when it has one of the three numbers. */
  predicate HasSome(r: Row) {
    !(r.phone == r.modemPhone == r.vowifiPhone == "")
  }

  /** Rows with a subscription go to it, the others to their card. */
  predicate IsFor(r: Row, t: Target) {
    match t
    case Subscription(imsi) => imsi != "" && r.imsi == imsi
    case Pending(iccid) => r.imsi == "" && r.iccid == iccid
  }

  lemma Members(rows: seq<Row>, t: Target)
    ensures forall r :: (r in WithPhones(rows) && TargetOf(r) == t) <==> (r in rows && HasSome(r) && IsFor(r, t))
  {
    forall r ensures r in WithPhones(rows) <==> r in rows && HasSome(r) {
      WithPhonesCounts(rows, r);
      assert r in WithPhones(rows) <==> r in multiset(WithPhones(rows));
      assert r in rows <==> r in multiset(rows);
    }
    hide WithPhones;
  }

  /** A row is refused exactly when it has a number and nowhere to go with it. */
  lemma RefusedExactly(r: Row, subscriptions: bool, pending: bool)
    ensures Refused(r, subscriptions, pending) <==>
            HasSome(r) && !(r.imsi != "" && subscriptions) && !(r.imsi == "" && r.iccid != "" && pending)
  {
  }

  // ---------- texts ----------

  /** When a row was last seen, changed or made. */
  function Newest(r: Row): nat {
    var a := if r.lastSeen < r.updatedAt then r.updatedAt else r.lastSeen;
    if a < r.createdAt then r.createdAt else a
  }

  lemma SuppliesNewest(rows: seq<Row>, r: Row, t: Target, f: Field)
    requires r in rows && HasSome(r) && IsFor(r, t) && Supplies(r, f) != ""
    requires forall o :: o in rows && HasSome(o) && IsFor(o, t) && o != r ==> Newest(o) < Newest(r)
    ensures t in Plan(rows) && Plan(rows)[t].texts.Get(f) == Supplies(r, f)
  {
    Members(rows, t);
    PlanSummarises(rows, t);
    hide WithPhones, TargetOf, Supplies, Plan;
    var text := Plan(rows)[t].texts.Get(f);
    assert IsNewest(WithPhones(rows), t, f, text);
    var w :| w in WithPhones(rows) && TargetOf(w) == t && Supplies(w, f) == text
             && forall other :: other in WithPhones(rows) && TargetOf(other) == t && Supplies(other, f) != "" ==>
               !RowLess(w, other);
    assert !RowLess(w, r);
    assert Recency(r) == Newest(r) && Recency(w) == Newest(w);
  }

  /** The newest row of a subscription or card decides: its own number or, failing that, the one from VoWiFi or else the
      modem's; and whatever else it says. A reader's made-up card number says nothing. */
  lemma NewestWins(rows: seq<Row>, r: Row, t: Target)
    requires r in rows && HasSome(r) && IsFor(r, t)
    requires forall o :: o in rows && HasSome(o) && IsFor(o, t) && o != r ==> Newest(o) < Newest(r)
    ensures t in Plan(rows)
    ensures var x := Plan(rows)[t].texts;
            && x.phone ==
               (if r.phone != "" then r.phone else if r.vowifiPhone != "" then r.vowifiPhone else r.modemPhone)
            && (r.modemPhone != "" ==> x.modemPhone == r.modemPhone)
            && (r.vowifiPhone != "" ==> x.vowifiPhone == r.vowifiPhone)
            && (t.Subscription? && r.operator != "" ==> x.operator == r.operator)
            && (t.Subscription? && r.iccid != "" && !("reader-imsi-" <= r.iccid) ==> x.currentICCID == r.iccid)
  {
    assert Supplies(r, Phone) != "";
    forall f: Field | Supplies(r, f) != ""
      ensures t in Plan(rows) && Plan(rows)[t].texts.Get(f) == Supplies(r, f)
    {
      SuppliesNewest(rows, r, t, f);
    }
    hide Plan;
    var x := Plan(rows)[t].texts;
    assert x.phone == x.Get(Phone) && x.modemPhone == x.Get(ModemPhone) && x.vowifiPhone == x.Get(VowifiPhone);
    assert x.operator == x.Get(Operator) && x.currentICCID == x.Get(CurrentICCID);
  }

  lemma SuppliedBy(rows: seq<Row>, t: Target, f: Field)
    requires t in Plan(rows)
    ensures var text := Plan(rows)[t].texts.Get(f);
            text != "" ==> exists r :: r in rows && IsFor(r, t) && Supplies(r, f) == text
  {
    Members(rows, t);
    PlanSummarises(rows, t);
    hide WithPhones, TargetOf, Plan, Supplies;
    assert IsNewest(WithPhones(rows), t, f, Plan(rows)[t].texts.Get(f));
  }

  /** No text is made up: a number, operator or card in the plan stands in a row for it, and a card is a real one. */
  lemma NothingMadeUp(rows: seq<Row>, t: Target)
    requires t in Plan(rows)
    ensures var x := Plan(rows)[t].texts;
            && (exists r :: r in rows && IsFor(r, t) && x.phone in [r.phone, r.vowifiPhone, r.modemPhone])
            && (x.modemPhone != "" ==> exists r :: r in rows && IsFor(r, t) && r.modemPhone == x.modemPhone)
            && (x.vowifiPhone != "" ==> exists r :: r in rows && IsFor(r, t) && r.vowifiPhone == x.vowifiPhone)
            && (x.operator != "" ==>
                  t.Subscription? && exists r :: r in rows && IsFor(r, t) && r.operator == x.operator)
            && (x.currentICCID != "" ==>
                  t.Subscription? && !("reader-imsi-" <= x.currentICCID)
                  && exists r :: r in rows && IsFor(r, t) && r.iccid == x.currentICCID)
  {
    PlanSummarises(rows, t);
    hide Plan, Summarises, WithDefaults, WithPhones;
    var x := Plan(rows)[t].texts;
    assert x.phone != "";
    SuppliedBy(rows, t, Phone);
    SuppliedBy(rows, t, ModemPhone);
    SuppliedBy(rows, t, VowifiPhone);
    SuppliedBy(rows, t, Operator);
    SuppliedBy(rows, t, CurrentICCID);
    var r :| r in rows && IsFor(r, t) && Supplies(r, Phone) == x.phone;
    assert x.phone in [r.phone, r.vowifiPhone, r.modemPhone];
  }

  // ---------- times ----------

  /** The latest of the times of the rows for a target, 0 when all are missing. */
  ghost predicate Latest(rows: seq<Row>, t: Target, time: Row -> nat, m: nat) {
    && (forall r :: r in rows && HasSome(r) && IsFor(r, t) ==> time(r) <= m)
    && (m == 0 || exists r :: r in rows && HasSome(r) && IsFor(r, t) && time(r) == m)
  }

  ghost predicate Earliest(rows: seq<Row>, t: Target, m: nat) {
    && (forall r :: r in rows && HasSome(r) && IsFor(r, t) && r.createdAt != 0 ==> m <= r.createdAt)
    && (exists r :: r in rows && HasSome(r) && IsFor(r, t) && r.createdAt == m)
  }

  /** 1970, in nanoseconds since year one. */
  const EPOCH: nat := 62_135_596_800_000_000_000

  /** Creation is the earliest known, or 1970. What is missing of the other times comes from those that are known. */
  lemma TimesKept(rows: seq<Row>, t: Target, seen: nat, updated: nat)
    requires t in Plan(rows) && Latest(rows, t, (r: Row) => r.updatedAt, updated)
    requires t.Subscription? ==> Latest(rows, t, (r: Row) => r.lastSeen, seen)
    ensures var e := Plan(rows)[t];
            && (if exists r :: r in rows && HasSome(r) && IsFor(r, t) && r.createdAt != 0
                then e.createdAt > 0 && Earliest(rows, t, e.createdAt) else e.createdAt == EPOCH)
            && (t.Subscription? ==> e.lastSeen == if seen != 0 then seen else Max(updated, e.createdAt))
            && e.updatedAt == if updated != 0 then updated
                              else if t.Subscription? then Max(e.lastSeen, e.createdAt) else e.createdAt
  {
    Members(rows, t);
    PlanSummarises(rows, t);
    hide WithPhones, TargetOf, Plan, IsNewest;
  }

  function Max(a: nat, b: nat): nat {
    if a < b then b else a
  }
}
