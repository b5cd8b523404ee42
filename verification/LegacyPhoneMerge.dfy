/** Folding the phone numbers of the old sim_cards rows into one entry for each subscription. Times are nanoseconds
    since the zero time. */
module LegacyPhoneMerge {
  import opened Common
  import opened Text

  /** A source row, its texts trimmed; a missing time is 0. */
  datatype Row = Row(
    iccid: string, imsi: string, operator: string,
    phone: string, modemPhone: string, vowifiPhone: string,
    lastSeen: nat, createdAt: nat, updatedAt: nat)

  /** Where a row's numbers go: to the subscription with an IMSI, or to the numbers pending for an ICCID. */
  datatype Target = Subscription(imsi: string) | Pending(iccid: string)

  datatype Field = CurrentICCID | Phone | ModemPhone | VowifiPhone | Operator

  datatype Texts = Texts(currentICCID: string, phone: string, modemPhone: string, vowifiPhone: string, operator: string)
  {
    function Get(f: Field): string {
      match f
      case CurrentICCID => currentICCID
      case Phone => phone
      case ModemPhone => modemPhone
      case VowifiPhone => vowifiPhone
      case Operator => operator
    }
  }

  datatype Entry = Entry(texts: Texts, lastSeen: nat, createdAt: nat, updatedAt: nat)

  type Entries = map<Target, Entry>

  const EMPTY := Entry(Texts("", "", "", "", ""), 0, 0, 0)
  const READER_PREFIX := "reader-imsi-"
  /** time.Unix(0, 0) */
  const FALLBACK_TIME: nat := 62_135_596_800_000_000_000

  // ---------- times ----------

  function LaterTime(left: nat, right: nat): nat {
    if left == 0 || right > left then right else left
  }

  function EarlierTime(left: nat, right: nat): nat {
    if right == 0 then left else if left == 0 || right < left then right else left
  }

  function Recency(r: Row): nat {
    LaterTime(r.lastSeen, LaterTime(r.updatedAt, r.createdAt))
  }

  // ---------- the order of the rows ----------

  predicate RowLess(a: Row, b: Row) {
    if Recency(a) != Recency(b) then Recency(a) < Recency(b)
    else if a.iccid != b.iccid then StringLess(a.iccid, b.iccid)
    else StringLess(a.imsi, b.imsi)
  }

  predicate SameKey(a: Row, b: Row) {
    Recency(a) == Recency(b) && a.iccid == b.iccid && a.imsi == b.imsi
  }

  /** Puts `r` behind everything it is not less than, which is what makes the sort stable. */
  function Insert(sorted: seq<Row>, r: Row): seq<Row> {
    if sorted != [] && RowLess(r, sorted[|sorted| - 1])
    then Insert(sorted[..|sorted| - 1], r) + [sorted[|sorted| - 1]]
    else sorted + [r]
  }

  function SortStable(rows: seq<Row>): seq<Row> {
    if rows == [] then [] else Insert(SortStable(rows[..|rows| - 1]), rows[|rows| - 1])
  }

  // ---------- what one row supplies ----------

  function TargetOf(r: Row): Target {
    if r.imsi != "" then Subscription(r.imsi) else Pending(r.iccid)
  }

  function ResolvedPhone(r: Row): string {
    if r.phone != "" then r.phone else if r.vowifiPhone != "" then r.vowifiPhone else r.modemPhone
  }

  /** The text a row has for a field of its target, "" for none. */
  function Supplies(r: Row, f: Field): string {
    match f
    case CurrentICCID => if r.imsi == "" || READER_PREFIX <= r.iccid then "" else r.iccid
    case Phone => ResolvedPhone(r)
    case ModemPhone => r.modemPhone
    case VowifiPhone => r.vowifiPhone
    case Operator => if r.imsi == "" then "" else r.operator
  }

  function Over(current: string, supplied: string): string {
    if supplied != "" then supplied else current
  }

  function Merge(e: Entry, r: Row): Entry {
    Entry(
      Texts(Over(e.texts.currentICCID, Supplies(r, CurrentICCID)), Over(e.texts.phone, Supplies(r, Phone)),
            Over(e.texts.modemPhone, Supplies(r, ModemPhone)), Over(e.texts.vowifiPhone, Supplies(r, VowifiPhone)),
            Over(e.texts.operator, Supplies(r, Operator))),
      if r.imsi == "" then e.lastSeen else LaterTime(e.lastSeen, r.lastSeen),
      EarlierTime(e.createdAt, r.createdAt),
      LaterTime(e.updatedAt, r.updatedAt))
  }

  function EntryOf(entries: Entries, t: Target): Entry {
    if t in entries then entries[t] else EMPTY
  }

  function Fold(rows: seq<Row>): Entries {
    if rows == [] then map[]
    else
      var before := Fold(rows[..|rows| - 1]);
      var r := rows[|rows| - 1];
      before[TargetOf(r) := Merge(EntryOf(before, TargetOf(r)), r)]
  }

  /** What is filled in at the end: a phone from the other two, and the times that no row had. */
  function WithDefaults(t: Target, e: Entry): Entry {
    var phone := if e.texts.phone != "" then e.texts.phone
                 else if e.texts.vowifiPhone != "" then e.texts.vowifiPhone else e.texts.modemPhone;
    var createdAt: nat := if e.createdAt == 0 then FALLBACK_TIME else e.createdAt;
    var lastSeen: nat := if t.Subscription? && e.lastSeen == 0 then LaterTime(e.updatedAt, createdAt) else e.lastSeen;
    var updatedAt: nat := if e.updatedAt != 0 then e.updatedAt
                          else if t.Subscription? then LaterTime(lastSeen, createdAt) else createdAt;
    Entry(e.texts.(phone := phone), lastSeen, createdAt, updatedAt)
  }

  function Completed(entries: Entries): Entries {
    map t | t in entries :: WithDefaults(t, entries[t])
  }

  // ---------- which rows take part ----------

  predicate HasPhone(r: Row) {
    r.phone != "" || r.modemPhone != "" || r.vowifiPhone != ""
  }

  /** A row that stops the migration: it has no key, or its target table was not chosen. */
  predicate Refused(r: Row, subscriptions: bool, pending: bool) {
    HasPhone(r) && (if r.imsi != "" then !subscriptions else r.iccid == "" || !pending)
  }

  function WithPhones(rows: seq<Row>): seq<Row> {
    if rows == [] then []
    else WithPhones(rows[..|rows| - 1]) + if HasPhone(rows[|rows| - 1]) then [rows[|rows| - 1]] else []
  }

  function Plan(rows: seq<Row>): Entries {
    Completed(Fold(SortStable(WithPhones(rows))))
  }

  /** The IMSIs of the subscriptions of a plan and the ICCIDs of its pending numbers, in order. */
  ghost predicate KeysInOrder(entries: Entries, imsis: seq<string>, iccids: seq<string>) {
    && AscendingStrings(imsis) && AscendingStrings(iccids)
    && (forall x :: x in imsis <==> Subscription(x) in entries)
    && (forall x :: x in iccids <==> Pending(x) in entries)
  }

  method KeysOf(entries: Entries) returns (imsis: seq<string>, iccids: seq<string>)
    ensures KeysInOrder(entries, imsis, iccids)
  {
    imsis := SortNames(set t | t in entries && t.Subscription? :: t.imsi);
    iccids := SortNames(set t | t in entries && t.Pending? :: t.iccid);
    forall x ensures x in imsis <==> Subscription(x) in entries {
      if Subscription(x) in entries { assert Subscription(x).imsi == x; }
    }
    forall x ensures x in iccids <==> Pending(x) in entries {
      if Pending(x) in entries { assert Pending(x).iccid == x; }
    }
  }

  /** The plan for the given rows and its keys in order, or none when one of the rows is refused. */
  method PrepareLegacySIMPhoneMigration(rows: seq<Row>, subscriptions: bool, pending: bool)
    returns (plan: Option<Entries>, imsis: seq<string>, iccids: seq<string>)
    ensures plan.None? <==> exists r :: r in rows && Refused(r, subscriptions, pending)
    ensures plan.Some? ==> plan.value == Plan(rows) && KeysInOrder(plan.value, imsis, iccids)
  {
    var sourceRows: seq<Row> := [];
    for i := 0 to |rows|
      invariant sourceRows == WithPhones(rows[..i])
      invariant forall j :: 0 <= j < i ==> !Refused(rows[j], subscriptions, pending)
    {
      assert rows[..i + 1][..i] == rows[..i];
      var row := rows[i];
      if row.phone == "" && row.modemPhone == "" && row.vowifiPhone == "" { continue; }
      assert row in rows;
      if row.imsi == "" {
        if row.iccid == "" { assert Refused(row, subscriptions, pending); return None, [], []; }
        if !pending { assert Refused(row, subscriptions, pending); return None, [], []; }
      } else if !subscriptions { assert Refused(row, subscriptions, pending); return None, [], []; }
      sourceRows := sourceRows + [row];
    }
    assert rows[..|rows|] == rows;
    sourceRows := SortStable(sourceRows);
    var entries := FoldRows(sourceRows);
    entries := FillDefaults(entries);
    imsis, iccids := KeysOf(entries);
    return Some(entries), imsis, iccids;
  }

  method FoldRows(rows: seq<Row>) returns (entries: Entries)
    ensures entries == Fold(rows)
  {
    hide Merge;
    entries := map[];
    for i := 0 to |rows|
      invariant entries == Fold(rows[..i])
    {
      assert rows[..i + 1][..i] == rows[..i];
      var row := rows[i];
      var t := if row.imsi != "" then Subscription(row.imsi) else Pending(row.iccid);
      var entry := MergeRow(if t in entries then entries[t] else EMPTY, row);
      entries := entries[t := entry];
    }
    assert rows[..|rows|] == rows;
  }

  /** One row into the entry of its target. */
  method MergeRow(before: Entry, row: Row) returns (entry: Entry)
    ensures entry == Merge(before, row)
  {
    entry := before;
    var resolvedPhone := row.phone;
    if resolvedPhone == "" {
      resolvedPhone := if row.vowifiPhone != "" then row.vowifiPhone else row.modemPhone;
    }
    var texts := entry.texts;
    if row.imsi != "" {
      if row.iccid != "" && !(READER_PREFIX <= row.iccid) { texts := texts.(currentICCID := row.iccid); }
      if row.operator != "" { texts := texts.(operator := row.operator); }
      entry := entry.(lastSeen := LaterTime(entry.lastSeen, row.lastSeen));
    }
    if resolvedPhone != "" { texts := texts.(phone := resolvedPhone); }
    if row.modemPhone != "" { texts := texts.(modemPhone := row.modemPhone); }
    if row.vowifiPhone != "" { texts := texts.(vowifiPhone := row.vowifiPhone); }
    entry := entry.(texts := texts, createdAt := EarlierTime(entry.createdAt, row.createdAt),
                    updatedAt := LaterTime(entry.updatedAt, row.updatedAt));
  }

  method FillDefaults(entries: Entries) returns (filled: Entries)
    ensures filled == Completed(entries)
  {
    hide WithDefaults;
    filled := entries;
    var todo := entries.Keys;
    while todo != {}
      invariant todo <= entries.Keys && filled.Keys == entries.Keys
      invariant forall t :: t in entries ==> filled[t] == if t in todo then entries[t] else WithDefaults(t, entries[t])
      decreases todo
    {
      var t :| t in todo;
      var e := FillOne(t, filled[t]);
      filled := filled[t := e];
      todo := todo - {t};
    }
  }

  method FillOne(t: Target, e: Entry) returns (filled: Entry)
    ensures filled == WithDefaults(t, e)
  {
    filled := e;
    if filled.texts.phone == "" {
      filled := filled.(texts := filled.texts.(phone :=
        if filled.texts.vowifiPhone != "" then filled.texts.vowifiPhone else filled.texts.modemPhone));
    }
    if filled.createdAt == 0 { filled := filled.(createdAt := FALLBACK_TIME); }
    if t.Subscription? {
      if filled.lastSeen == 0 { filled := filled.(lastSeen := LaterTime(filled.updatedAt, filled.createdAt)); }
      if filled.updatedAt == 0 { filled := filled.(updatedAt := LaterTime(filled.lastSeen, filled.createdAt)); }
    } else {
      if filled.updatedAt == 0 { filled := filled.(updatedAt := filled.createdAt); }
    }
  }

  // ---------- the order is a strict total order on keys ----------

  lemma RowOrder(a: Row, b: Row)
    ensures RowLess(a, b) || RowLess(b, a) || SameKey(a, b)
    ensures !(RowLess(a, b) && RowLess(b, a)) && (SameKey(a, b) ==> !RowLess(a, b))
  {
    hide Recency, StringLess;
    StringOrder(a.iccid, b.iccid);
    StringOrder(a.imsi, b.imsi);
  }

  lemma RowTransitive(a: Row, b: Row, c: Row)
    requires !RowLess(b, a) && !RowLess(c, b)
    ensures !RowLess(c, a)
  {
    hide Recency, StringLess;
    if RowLess(c, a) {
      StringOrder(a.iccid, b.iccid);
      StringOrder(b.iccid, c.iccid);
      StringOrder(a.iccid, c.iccid);
      StringOrder(a.imsi, b.imsi);
      StringOrder(b.imsi, c.imsi);
      StringOrder(a.imsi, c.imsi);
      if StringLess(a.iccid, b.iccid) && StringLess(b.iccid, c.iccid) { StringTransitive(a.iccid, b.iccid, c.iccid); }
      if StringLess(a.imsi, b.imsi) && StringLess(b.imsi, c.imsi) { StringTransitive(a.imsi, b.imsi, c.imsi); }
    }
  }

  // ---------- sorting ----------

  ghost predicate IsSorted(rows: seq<Row>) {
    forall i, j :: 0 <= i < j < |rows| ==> !RowLess(rows[j], rows[i])
  }

  lemma {:induction false} InsertSorts(sorted: seq<Row>, r: Row)
    requires IsSorted(sorted)
    ensures IsSorted(Insert(sorted, r)) && multiset(Insert(sorted, r)) == multiset(sorted) + multiset{r}
  {
    hide RowLess;
    if sorted != [] {
      var init, last := sorted[..|sorted| - 1], sorted[|sorted| - 1];
      assert sorted == init + [last];
      if RowLess(r, last) {
        RowOrder(r, last);
        InsertSorts(init, r);
        var put := Insert(init, r);
        forall i | 0 <= i < |put| ensures !RowLess(last, put[i]) {
          assert put[i] in multiset(put);
          assert put[i] in init || put[i] == r;
        }
      } else {
        forall i | 0 <= i < |sorted| ensures !RowLess(r, sorted[i]) {
          if i < |sorted| - 1 { RowTransitive(sorted[i], last, r); }
        }
      }
    }
  }

  lemma {:induction false} SortSorts(rows: seq<Row>)
    ensures IsSorted(SortStable(rows)) && multiset(SortStable(rows)) == multiset(rows)
  {
    hide IsSorted, Insert;
    if rows == [] {
      NothingSorted();
    } else {
      SortSorts(rows[..|rows| - 1]);
      InsertSorts(SortStable(rows[..|rows| - 1]), rows[|rows| - 1]);
      assert rows == rows[..|rows| - 1] + [rows[|rows| - 1]];
    }
  }

  lemma NothingSorted()
    ensures IsSorted([])
  {
  }

  function OfKey(rows: seq<Row>, k: Row): seq<Row> {
    if rows == [] then []
    else OfKey(rows[..|rows| - 1], k) + if SameKey(rows[|rows| - 1], k) then [rows[|rows| - 1]] else []
  }

  lemma OfKeyAppend(rows: seq<Row>, r: Row, k: Row)
    ensures OfKey(rows + [r], k) == OfKey(rows, k) + if SameKey(r, k) then [r] else []
  {
    assert (rows + [r])[..|rows|] == rows;
  }

  lemma {:induction false} InsertKeepsOrder(sorted: seq<Row>, r: Row, k: Row)
    ensures OfKey(Insert(sorted, r), k) == OfKey(sorted + [r], k)
  {
    hide RowLess;
    OfKeyAppend(sorted, r, k);
    if sorted != [] && RowLess(r, sorted[|sorted| - 1]) {
      var init, last := sorted[..|sorted| - 1], sorted[|sorted| - 1];
      RowOrder(r, last);
      InsertKeepsOrder(init, r, k);
      OfKeyAppend(init, r, k);
      OfKeyAppend(Insert(init, r), last, k);
    }
  }

  /** Rows with the same recency, ICCID and IMSI stay in the order in which they came. */
  lemma {:induction false} SortIsStable(rows: seq<Row>, k: Row)
    ensures OfKey(SortStable(rows), k) == OfKey(rows, k)
  {
    if rows != [] {
      var init, r := rows[..|rows| - 1], rows[|rows| - 1];
      SortIsStable(init, k);
      InsertKeepsOrder(SortStable(init), r, k);
      OfKeyAppend(SortStable(init), r, k);
    }
  }

  // ---------- the source's order does not matter ----------

  /** No two rows share recency, ICCID and IMSI. */
  ghost predicate DistinctKeys(rows: multiset<Row>) {
    forall a :: a in rows ==> rows[a] == 1 && forall b :: b in rows && SameKey(a, b) ==> a == b
  }

  lemma LastIsGreatest(a: seq<Row>, x: Row)
    requires IsSorted(a) && x in a
    ensures !RowLess(a[|a| - 1], x)
  {
    hide RowLess, SameKey, Recency;
    var i :| 0 <= i < |a| && a[i] == x;
    RowEqual(x);
  }

  lemma RowEqual(x: Row)
    ensures SameKey(x, x) && !RowLess(x, x)
  {
    RowOrder(x, x);
  }

  lemma LastsAgree(a: seq<Row>, b: seq<Row>)
    requires IsSorted(a) && IsSorted(b) && multiset(a) == multiset(b) && DistinctKeys(multiset(a))
    requires a != [] && b != []
    ensures a[|a| - 1] == b[|b| - 1]
  {
    hide RowLess, SameKey, IsSorted;
    var x, y := a[|a| - 1], b[|b| - 1];
    assert x in multiset(a) && y in multiset(b);
    LastIsGreatest(a, y);
    LastIsGreatest(b, x);
    RowOrder(x, y);
  }

  lemma WithoutLast(a: seq<Row>)
    requires a != []
    ensures multiset(a[..|a| - 1]) == multiset(a) - multiset{a[|a| - 1]}
  {
    assert a == a[..|a| - 1] + [a[|a| - 1]];
  }

  lemma FewerStayDistinct(a: multiset<Row>, x: Row)
    requires DistinctKeys(a)
    ensures DistinctKeys(a - multiset{x})
  {
    hide SameKey;
  }

  lemma {:induction false} OneSortedOrder(a: seq<Row>, b: seq<Row>)
    requires IsSorted(a) && IsSorted(b) && multiset(a) == multiset(b) && DistinctKeys(multiset(a))
    ensures a == b
  {
    hide RowLess, SameKey, DistinctKeys;
    assert |multiset(a)| == |multiset(b)|;
    if a != [] {
      LastsAgree(a, b);
      WithoutLast(a);
      WithoutLast(b);
      FewerStayDistinct(multiset(a), a[|a| - 1]);
      OneSortedOrder(a[..|a| - 1], b[..|b| - 1]);
      assert a == a[..|a| - 1] + [a[|a| - 1]];
    }
  }

  lemma {:induction false} WithPhonesCounts(rows: seq<Row>, r: Row)
    ensures multiset(WithPhones(rows))[r] == if HasPhone(r) then multiset(rows)[r] else 0
  {
    if rows != [] {
      WithPhonesCounts(rows[..|rows| - 1], r);
      assert rows == rows[..|rows| - 1] + [rows[|rows| - 1]];
    }
  }

  /** With distinct keys, the order in which the source gives its rows makes no difference to the plan. */
  lemma OrderDoesNotMatter(a: seq<Row>, b: seq<Row>)
    requires multiset(a) == multiset(b) && DistinctKeys(multiset(WithPhones(a)))
    ensures Plan(a) == Plan(b)
  {
    hide Completed, Fold;
    var wa, wb := WithPhones(a), WithPhones(b);
    forall r: Row ensures multiset(wa)[r] == multiset(wb)[r] {
      WithPhonesCounts(a, r);
      WithPhonesCounts(b, r);
    }
    assert multiset(wa) == multiset(wb);
    SortSorts(wa);
    SortSorts(wb);
    OneSortedOrder(SortStable(wa), SortStable(wb));
  }

  // ---------- what the plan holds ----------

  /** The text that the newest of the rows for `t` that has one supplies, "" if none has one. */
  ghost predicate IsNewest(rows: seq<Row>, t: Target, f: Field, text: string) {
    if text == "" then forall r :: r in rows && TargetOf(r) == t ==> Supplies(r, f) == ""
    else exists r :: r in rows && TargetOf(r) == t && Supplies(r, f) == text
           && forall other :: other in rows && TargetOf(other) == t && Supplies(other, f) != "" ==> !RowLess(r, other)
  }

  datatype TimeField = LastSeen | UpdatedAt

  function TimeOf(r: Row, f: TimeField): nat {
    match f
    case LastSeen => if r.imsi == "" then 0 else r.lastSeen
    case UpdatedAt => r.updatedAt
  }

  ghost predicate IsLatest(rows: seq<Row>, t: Target, f: TimeField, m: nat) {
    && (forall r :: r in rows && TargetOf(r) == t ==> TimeOf(r, f) <= m)
    && (m == 0 || exists r :: r in rows && TargetOf(r) == t && TimeOf(r, f) == m)
  }

  ghost predicate IsEarliest(rows: seq<Row>, t: Target, m: nat) {
    && (forall r :: r in rows && TargetOf(r) == t && r.createdAt != 0 ==> 0 < m <= r.createdAt)
    && (m == 0 || exists r :: r in rows && TargetOf(r) == t && r.createdAt == m)
  }

  /** One entry against the rows it was made from. */
  ghost predicate Summarises(rows: seq<Row>, t: Target, e: Entry) {
    && (forall f :: IsNewest(rows, t, f, e.texts.Get(f)))
    && IsLatest(rows, t, LastSeen, e.lastSeen)
    && IsLatest(rows, t, UpdatedAt, e.updatedAt)
    && IsEarliest(rows, t, e.createdAt)
  }

  lemma NewestGrows(rows: seq<Row>, t: Target, f: Field, text: string, r: Row)
    requires IsSorted(rows + [r]) && IsNewest(rows, t, f, text)
    ensures IsNewest(rows + [r], t, f, if TargetOf(r) == t then Over(text, Supplies(r, f)) else text)
  {
    hide TargetOf, Supplies, RowLess;
    var all := rows + [r];
    assert forall x :: x in all <==> x in rows || x == r;
    forall x | x in rows ensures !RowLess(r, x) {
      var i :| 0 <= i < |rows| && rows[i] == x;
      assert all[i] == x && all[|rows|] == r;
    }
    RowOrder(r, r);
  }

  lemma LatestGrows(rows: seq<Row>, t: Target, f: TimeField, m: nat, r: Row)
    requires IsLatest(rows, t, f, m)
    ensures IsLatest(rows + [r], t, f, if TargetOf(r) == t then LaterTime(m, TimeOf(r, f)) else m)
  {
    hide TargetOf, TimeOf;
    assert forall x :: x in rows + [r] <==> x in rows || x == r;
  }

  lemma EarliestGrows(rows: seq<Row>, t: Target, m: nat, r: Row)
    requires IsEarliest(rows, t, m)
    ensures IsEarliest(rows + [r], t, if TargetOf(r) == t then EarlierTime(m, r.createdAt) else m)
  {
    hide TargetOf;
    assert forall x :: x in rows + [r] <==> x in rows || x == r;
  }

  lemma MergeSummarises(rows: seq<Row>, r: Row, t: Target, e: Entry)
    requires IsSorted(rows + [r]) && Summarises(rows, t, e)
    ensures Summarises(rows + [r], t, if TargetOf(r) == t then Merge(e, r) else e)
  {
    hide TargetOf, Supplies, IsSorted, IsNewest, IsLatest, IsEarliest, LaterTime, EarlierTime, Over;
    var e' := if TargetOf(r) == t then Merge(e, r) else e;
    forall f ensures IsNewest(rows + [r], t, f, e'.texts.Get(f)) {
      NewestGrows(rows, t, f, e.texts.Get(f), r);
    }
    LatestGrows(rows, t, LastSeen, e.lastSeen, r);
    LatestGrows(rows, t, UpdatedAt, e.updatedAt, r);
    EarliestGrows(rows, t, e.createdAt, r);
    MergedTimes(e, r);
  }

  /** A row without IMSI leaves the time of the last sighting alone. */
  lemma MergedTimes(e: Entry, r: Row)
    ensures Merge(e, r).lastSeen == LaterTime(e.lastSeen, TimeOf(r, LastSeen))
  {
  }

  /** Each entry of the fold summarises the rows of its target: every text is that of the newest row supplying it. */
  lemma {:induction false} FoldSummarises(rows: seq<Row>)
    requires IsSorted(rows)
    ensures forall t :: t in Fold(rows) <==> exists r :: r in rows && TargetOf(r) == t
    ensures forall t :: t in Fold(rows) ==> Summarises(rows, t, Fold(rows)[t])
  {
    hide Summarises, Merge, TargetOf, RowLess;
    if rows != [] {
      var init, r := rows[..|rows| - 1], rows[|rows| - 1];
      assert rows == init + [r];
      FoldSummarises(init);
      forall t | t in Fold(rows) ensures Summarises(rows, t, Fold(rows)[t]) {
        if t !in Fold(init) { NothingSummarised(init, t); }
        MergeSummarises(init, r, t, EntryOf(Fold(init), t));
      }
      assert forall x :: x in rows <==> x in init || x == r;
    }
  }

  lemma NothingSummarised(rows: seq<Row>, t: Target)
    requires forall r :: r in rows ==> TargetOf(r) != t
    ensures Summarises(rows, t, EMPTY)
  {
  }

  /** Rows that hold the same, in any order, are summarised alike. */
  lemma SummaryOfAll(a: seq<Row>, b: seq<Row>, t: Target, e: Entry)
    requires multiset(a) == multiset(b) && Summarises(a, t, e)
    ensures Summarises(b, t, e)
  {
    hide TargetOf, RowLess, Supplies, TimeOf;
    assert forall r :: r in a <==> r in multiset(a);
    assert forall r :: r in b <==> r in multiset(b);
    assert forall r :: r in a <==> r in b;
    forall f ensures IsNewest(b, t, f, e.texts.Get(f)) {
      assert IsNewest(a, t, f, e.texts.Get(f));
    }
  }

  /** The plan, for source rows in any order: one entry for each target that a row with a phone has; every text but the
      phone is that of the newest row supplying it, and so is the phone, which is never missing; the times are the
      latest sighting and update and the earliest creation, or the defaults. */
  lemma PlanSummarises(rows: seq<Row>, t: Target)
    ensures t in Plan(rows) <==> exists r :: r in WithPhones(rows) && TargetOf(r) == t
    ensures t in Plan(rows) ==> exists e ::
              Summarises(WithPhones(rows), t, e) && e.texts.phone != "" && Plan(rows)[t] == WithDefaults(t, e)
              && Plan(rows)[t].texts == e.texts
  {
    hide Summarises, Fold, WithDefaults, TargetOf, WithPhones, SortStable, IsSorted;
    var src := WithPhones(rows);
    var sorted := SortStable(src);
    SortSorts(src);
    FoldSummarises(sorted);
    SameMembers(src, sorted);
    if t in Plan(rows) {
      var e := Fold(sorted)[t];
      SummaryOfAll(sorted, src, t, e);
      var r :| r in src && TargetOf(r) == t;
      PhoneResolved(rows, t, e, r);
      DefaultsKeepTexts(t, e);
    }
  }

  lemma SameMembers(a: seq<Row>, b: seq<Row>)
    requires multiset(a) == multiset(b)
    ensures forall r :: r in a <==> r in b
  {
    assert forall r :: r in a <==> r in multiset(a);
    assert forall r :: r in b <==> r in multiset(b);
  }

  lemma {:induction false} AllHavePhones(rows: seq<Row>)
    ensures forall r :: r in WithPhones(rows) ==> HasPhone(r) && r in rows
  {
    if rows != [] { AllHavePhones(rows[..|rows| - 1]); }
  }

  /** A row that takes part resolves to a phone, so the phone is never filled in afterwards. */
  lemma PhoneResolved(rows: seq<Row>, t: Target, e: Entry, r: Row)
    requires Summarises(WithPhones(rows), t, e) && r in WithPhones(rows) && TargetOf(r) == t
    ensures e.texts.phone != ""
  {
    hide TargetOf;
    AllHavePhones(rows);
    assert Supplies(r, Phone) != "";
    assert IsNewest(WithPhones(rows), t, Phone, e.texts.Get(Phone));
  }

  lemma DefaultsKeepTexts(t: Target, e: Entry)
    requires e.texts.phone != ""
    ensures WithDefaults(t, e).texts == e.texts
  {
  }
}
