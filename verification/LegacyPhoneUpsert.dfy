/** Writing the planned entries over the rows a destination already has. */
module LegacyPhoneUpsert {
  import opened Common
  import Text
  import opened LegacyPhoneMerge

  /** BTRIM(x) = '' : nothing but plain spaces. */
  predicate SqlBlank(s: string) {
    forall i :: 0 <= i < |s| ==> s[i] == ' '
  }

  /** A statement's CASE: the destination's text stays unless it is blank. */
  function SqlKeep(existing: string, excluded: string): string {
    if SqlBlank(existing) then excluded else existing
  }

  /** keepNonEmpty: what the program expects to find afterwards. */
  function KeepNonEmpty(target: string, existing: string): string {
    if Text.Trim(existing) != "" then existing else target
  }

  function SqlTexts(t: Target, existing: Texts, excluded: Texts): Texts {
    Texts(if t.Pending? then existing.currentICCID else SqlKeep(existing.currentICCID, excluded.currentICCID),
          SqlKeep(existing.phone, excluded.phone), SqlKeep(existing.modemPhone, excluded.modemPhone),
          SqlKeep(existing.vowifiPhone, excluded.vowifiPhone),
          if t.Pending? then existing.operator else SqlKeep(existing.operator, excluded.operator))
  }

  function MergedTexts(t: Target, derived: Texts, existing: Texts): Texts {
    Texts(if t.Pending? then derived.currentICCID else KeepNonEmpty(derived.currentICCID, existing.currentICCID),
          KeepNonEmpty(derived.phone, existing.phone), KeepNonEmpty(derived.modemPhone, existing.modemPhone),
          KeepNonEmpty(derived.vowifiPhone, existing.vowifiPhone),
          if t.Pending? then derived.operator else KeepNonEmpty(derived.operator, existing.operator))
  }

  /** The fields a target's table has. */
  predicate HasField(t: Target, f: Field) {
    t.Pending? ==> f.Phone? || f.ModemPhone? || f.VowifiPhone?
  }

  /** INSERT … ON CONFLICT DO UPDATE of one entry. */
  function Upsert(table: Entries, t: Target, derived: Entry): Entries {
    if t in table then table[t := table[t].(texts := SqlTexts(t, table[t].texts, derived.texts))]
    else table[t := derived]
  }

  function UpsertAll(table: Entries, plan: Entries): Entries {
    map t | t in table.Keys + plan.Keys ::
      if t !in plan then table[t]
      else if t in table then table[t].(texts := SqlTexts(t, table[t].texts, plan[t].texts))
      else plan[t]
  }

  predicate SameTexts(t: Target, a: Texts, b: Texts) {
    a.phone == b.phone && a.modemPhone == b.modemPhone && a.vowifiPhone == b.vowifiPhone
    && (t.Subscription? ==> a.currentICCID == b.currentICCID && a.operator == b.operator)
  }

  /** Whether the row written for `t` is what the program expected. */
  predicate Verifies(table: Entries, t: Target, derived: Entry) {
    var expected := if t in table then MergedTexts(t, derived.texts, table[t].texts) else derived.texts;
    SameTexts(t, expected, Upsert(table, t, derived)[t].texts)
  }

  /** All entries in any order; it stops, and the caller rolls everything back, at a row that does not verify. */
  method MigrateLegacySIMPhones(table: Entries, plan: Entries) returns (migrated: Option<Entries>)
    ensures migrated.Some? <==> forall t :: t in plan ==> Verifies(table, t, plan[t])
    ensures migrated.Some? ==> migrated.value == UpsertAll(table, plan)
  {
    hide SqlTexts, MergedTexts, SameTexts, Verifies, Upsert, UpsertAll;
    hide Migrated;
    var now := table;
    var todo := plan.Keys;
    NoneMigrated(table, plan);
    while todo != {}
      invariant todo <= plan.Keys && Migrated(table, plan, now, todo)
      invariant forall t :: t in plan && t !in todo ==> Verifies(table, t, plan[t])
      decreases todo
    {
      var t :| t in todo;
      var derived := plan[t];
      var expected := derived.texts;
      if t in now { expected := MergedTexts(t, derived.texts, now[t].texts); }
      var written := Upsert(now, t, derived);
      MigrateOne(table, plan, now, todo, t);
      now := written;
      var actual := now[t].texts;
      if !SameTexts(t, expected, actual) { return None; }
      todo := todo - {t};
    }
    AllMigrated(table, plan, now);
    return Some(now);
  }

  /** The planned entries outside `todo` have been written, and those in it not yet. */
  ghost predicate Migrated(table: Entries, plan: Entries, now: Entries, todo: set<Target>) {
    && (forall t :: t in todo ==> (t in now <==> t in table) && (t in table ==> now[t] == table[t]))
    && now.Keys == table.Keys + (plan.Keys - todo)
    && forall t :: t in now && t !in todo ==> t in UpsertAll(table, plan) && now[t] == UpsertAll(table, plan)[t]
  }

  lemma NoneMigrated(table: Entries, plan: Entries)
    ensures Migrated(table, plan, table, plan.Keys)
  {
  }

  lemma Planned(table: Entries, plan: Entries, t: Target)
    requires t in plan
    ensures t in UpsertAll(table, plan)
    ensures UpsertAll(table, plan)[t] ==
            if t in table then table[t].(texts := SqlTexts(t, table[t].texts, plan[t].texts)) else plan[t]
  {
    hide SqlTexts;
  }

  lemma MigrateOne(table: Entries, plan: Entries, now: Entries, todo: set<Target>, t: Target)
    requires Migrated(table, plan, now, todo) && todo <= plan.Keys && t in todo
    ensures var derived := plan[t];
            var written := Upsert(now, t, derived);
            var expected := if t in now then MergedTexts(t, derived.texts, now[t].texts) else derived.texts;
            && t in written && Migrated(table, plan, written, todo - {t})
            && Verifies(table, t, derived) == SameTexts(t, expected, written[t].texts)
  {
    hide SqlTexts, MergedTexts, SameTexts, UpsertAll, Upsert;
    Planned(table, plan, t);
    WrittenRow(now, t, plan[t]);
    WrittenRow(table, t, plan[t]);
  }

  lemma WrittenRow(table: Entries, t: Target, derived: Entry)
    ensures var written := Upsert(table, t, derived);
            && written.Keys == table.Keys + {t} && (forall u :: u in table && u != t ==> written[u] == table[u])
            && written[t] ==
               if t in table then table[t].(texts := SqlTexts(t, table[t].texts, derived.texts)) else derived
  {
    hide SqlTexts;
  }

  lemma AllMigrated(table: Entries, plan: Entries, now: Entries)
    requires Migrated(table, plan, now, {})
    ensures now == UpsertAll(table, plan)
  {
    hide SqlTexts;
    assert UpsertAll(table, plan).Keys == table.Keys + plan.Keys;
  }

  // ---------- migrating again ----------

  lemma KeepAgain(existing: string, excluded: string)
    ensures SqlKeep(SqlKeep(existing, excluded), excluded) == SqlKeep(existing, excluded)
    ensures SqlKeep(excluded, excluded) == excluded
  {
  }

  lemma TextsAgain(t: Target, existing: Texts, excluded: Texts)
    ensures SqlTexts(t, SqlTexts(t, existing, excluded), excluded) == SqlTexts(t, existing, excluded)
    ensures SqlTexts(t, excluded, excluded) == excluded
  {
    hide SqlKeep;
    KeepAgain(existing.currentICCID, excluded.currentICCID);
    KeepAgain(existing.phone, excluded.phone);
    KeepAgain(existing.modemPhone, excluded.modemPhone);
    KeepAgain(existing.vowifiPhone, excluded.vowifiPhone);
    KeepAgain(existing.operator, excluded.operator);
  }

  /** Running the migration a second time changes nothing. */
  lemma MigratingAgainChangesNothing(table: Entries, plan: Entries)
    ensures UpsertAll(UpsertAll(table, plan), plan) == UpsertAll(table, plan)
  {
    hide SqlTexts;
    var once := UpsertAll(table, plan);
    forall t | t in once ensures UpsertAll(once, plan)[t] == once[t] {
      if t in plan {
        TextsAgain(t, if t in table then table[t].texts else plan[t].texts, plan[t].texts);
      }
    }
  }

  lemma KeepVerifiesAgain(existing: string, derived: string)
    requires KeepNonEmpty(derived, existing) == SqlKeep(existing, derived)
    ensures var written := SqlKeep(existing, derived); KeepNonEmpty(derived, written) == SqlKeep(written, derived)
  {
    hide Text.Trim, SqlBlank;
  }

  /** And it succeeds: a write that verified once verifies again. */
  lemma MigratingAgainVerifies(table: Entries, plan: Entries, t: Target)
    requires t in plan && Verifies(table, t, plan[t])
    ensures Verifies(UpsertAll(table, plan), t, plan[t])
  {
    hide KeepNonEmpty, SqlKeep, UpsertAll, Upsert;
    var d := plan[t].texts;
    Planned(table, plan, t);
    WrittenRow(table, t, plan[t]);
    WrittenRow(UpsertAll(table, plan), t, plan[t]);
    if t in table {
      var e := table[t].texts;
      AgainField(t.Subscription?, e.currentICCID, d.currentICCID);
      AgainField(true, e.phone, d.phone);
      AgainField(true, e.modemPhone, d.modemPhone);
      AgainField(true, e.vowifiPhone, d.vowifiPhone);
      AgainField(t.Subscription?, e.operator, d.operator);
    } else {
      KeepSelf(d.currentICCID);
      KeepSelf(d.phone);
      KeepSelf(d.modemPhone);
      KeepSelf(d.vowifiPhone);
      KeepSelf(d.operator);
    }
  }

  lemma AgainField(has: bool, existing: string, derived: string)
    requires has ==> KeepNonEmpty(derived, existing) == SqlKeep(existing, derived)
    ensures var written := SqlKeep(existing, derived);
            has ==> KeepNonEmpty(derived, written) == SqlKeep(written, derived)
  {
    if has { KeepVerifiesAgain(existing, derived); }
  }

  lemma KeepSelf(derived: string)
    ensures KeepNonEmpty(derived, derived) == SqlKeep(derived, derived)
  {
    hide Text.Trim, SqlBlank;
  }

  /** What the destination holds is never replaced: its rows stay, with their times, and so does every text that is
      more than spaces; only planned rows are added. */
  lemma DestinationIsAuthoritative(table: Entries, plan: Entries, t: Target, f: Field)
    ensures var after := UpsertAll(table, plan);
            && after.Keys == table.Keys + plan.Keys
            && (t in table ==>
                  && after[t] == table[t].(texts := after[t].texts)
                  && (!SqlBlank(table[t].texts.Get(f)) ==> after[t].texts.Get(f) == table[t].texts.Get(f))
                  && (SqlBlank(table[t].texts.Get(f)) && t in plan && HasField(t, f) ==>
                        after[t].texts.Get(f) == plan[t].texts.Get(f))
                  && (t.Pending? && (f.CurrentICCID? || f.Operator?) ==>
                        after[t].texts.Get(f) == table[t].texts.Get(f)))
            && (t !in table && t in plan ==> after[t] == plan[t])
  {
    hide SqlBlank;
  }

  // ---------- the statement and the program's expectation ----------

  /** A text the statement calls filled and the program calls empty. */
  predicate OddBlank(s: string) {
    Text.Blank(s) && !SqlBlank(s)
  }

  lemma KeepsAgree(existing: string, derived: string)
    requires Text.Trim(derived) == derived
    ensures KeepNonEmpty(derived, existing) == SqlKeep(existing, derived) <==> !OddBlank(existing)
  {
    Text.BlankTrimsToNothing(existing);
    Text.BlankTrimsToNothing(derived);
  }

  ghost predicate Trimmed(e: Entry) {
    forall f: Field :: Text.Trim(e.texts.Get(f)) == e.texts.Get(f)
  }

  /** A write verifies exactly when none of the destination's texts is space of another kind than plain spaces. */
  lemma VerifiesExactly(table: Entries, t: Target, derived: Entry)
    requires Trimmed(derived)
    ensures Verifies(table, t, derived) <==>
            (t in table ==> forall f :: HasField(t, f) ==> !OddBlank(table[t].texts.Get(f)))
  {
    hide OddBlank, KeepNonEmpty, SqlKeep, SqlBlank, Text.Trim;
    if t in table {
      forall f: Field
        ensures KeepNonEmpty(derived.texts.Get(f), table[t].texts.Get(f))
                  == SqlKeep(table[t].texts.Get(f), derived.texts.Get(f))
                <==> !OddBlank(table[t].texts.Get(f))
      {
        assert Text.Trim(derived.texts.Get(f)) == derived.texts.Get(f);
        KeepsAgree(table[t].texts.Get(f), derived.texts.Get(f));
      }
      var e, d := table[t].texts, derived.texts;
      assert e.Get(CurrentICCID) == e.currentICCID && d.Get(CurrentICCID) == d.currentICCID;
      assert e.Get(Phone) == e.phone && d.Get(Phone) == d.phone;
      assert e.Get(ModemPhone) == e.modemPhone && d.Get(ModemPhone) == d.modemPhone;
      assert e.Get(VowifiPhone) == e.vowifiPhone && d.Get(VowifiPhone) == d.vowifiPhone;
      assert e.Get(Operator) == e.operator && d.Get(Operator) == d.operator;
    }
  }

  /** A row whose phone is a tab stops the migration. */
  lemma TabStopsMigration(t: Target, existing: Entry, derived: Entry)
    requires existing.texts.phone == "\t" && Trimmed(derived)
    ensures !Verifies(map[t := existing], t, derived)
  {
    hide Verifies, Trimmed, OddBlank;
    TabIsOdd();
    VerifiesExactly(map[t := existing], t, derived);
    assert existing.texts.Get(Phone) == "\t" && HasField(t, Phone);
  }

  lemma TabIsOdd()
    ensures OddBlank("\t")
  {
    assert "\t"[0] == '\t';
  }

  ghost predicate TrimmedRow(r: Row) {
    Text.Trim(r.iccid) == r.iccid && Text.Trim(r.operator) == r.operator && Text.Trim(r.phone) == r.phone
    && Text.Trim(r.modemPhone) == r.modemPhone && Text.Trim(r.vowifiPhone) == r.vowifiPhone
  }

  /** Trimmed rows make trimmed entries, so the plan meets the destination as VerifiesExactly says. */
  lemma PlanIsTrimmed(rows: seq<Row>, t: Target)
    requires (forall r :: r in rows ==> TrimmedRow(r)) && t in Plan(rows)
    ensures Trimmed(Plan(rows)[t])
  {
    hide WithPhones, WithDefaults, Text.Trim, RowLess, TargetOf, IsLatest, IsEarliest, Plan;
    PlanSummarises(rows, t);
    AllHavePhones(rows);
    var e :| Summarises(WithPhones(rows), t, e) && Plan(rows)[t].texts == e.texts;
    forall f: Field ensures Text.Trim(e.texts.Get(f)) == e.texts.Get(f) {
      assert IsNewest(WithPhones(rows), t, f, e.texts.Get(f));
      NothingIsTrimmed();
    }
  }

  lemma NothingIsTrimmed()
    ensures Text.Trim("") == ""
  {
  }
}
