/** The thread list of the SMS store: a table derived from the messages, kept up to date by every write. */
module SmsThreads {
  import opened Common
  import opened Text
  import LocalPhone

  /** One message. `ts` is in nanoseconds, cut to whole seconds when it is saved. */
  datatype Sms = Sms(
    imsi: string,
    iccid: string,
    peer: string,
    localPhone: string,
    sender: string,
    recipient: string,
    content: string,
    smsType: int,
    status: int,
    ts: int)

  datatype Thread = Thread(imsi: string, peer: string)

  datatype Contact = Contact(
    iccid: string,
    lastId: nat,
    lastTs: int,
    lastContent: string,
    lastType: int,
    unread: nat)

  datatype Db = Db(msgs: map<nat, Sms>, contacts: map<Thread, Contact>, nextId: nat)

  const RECEIVED := LocalPhone.RECEIVED
  const SENT := LocalPhone.SENT
  const UNREAD := 0

  // ---------- the definition of the view ----------

  function ThreadOf(m: Sms): Thread {
    Thread(m.imsi, m.peer)
  }

  predicate IsUnread(m: Sms) {
    m.smsType == RECEIVED && m.status == UNREAD
  }

  function ThreadIds(msgs: map<nat, Sms>, t: Thread): set<nat> {
    set id | id in msgs && ThreadOf(msgs[id]) == t
  }

  function UnreadIds(msgs: map<nat, Sms>, t: Thread): set<nat> {
    set id | id in msgs && ThreadOf(msgs[id]) == t && IsUnread(msgs[id])
  }

  /** Message order: by time stamp, then by id. */
  predicate Before(ts1: int, id1: nat, ts2: int, id2: nat) {
    ts1 < ts2 || (ts1 == ts2 && id1 < id2)
  }

  predicate Precedes(msgs: map<nat, Sms>, a: nat, b: nat)
    requires a in msgs && b in msgs
  {
    Before(msgs[a].ts, a, msgs[b].ts, b)
  }

  predicate IsLatest(msgs: map<nat, Sms>, t: Thread, id: nat) {
    id in ThreadIds(msgs, t) && forall j :: j in ThreadIds(msgs, t) ==> j == id || Precedes(msgs, j, id)
  }

  function Row(msgs: map<nat, Sms>, t: Thread, id: nat): Contact
    requires id in msgs
  {
    var m := msgs[id];
    Contact(m.iccid, id, m.ts, m.content, m.smsType, |UnreadIds(msgs, t)|)
  }

  /** Threads without a peer are not listed. */
  predicate Listed(t: Thread) {
    !Blank(t.peer)
  }

  /** The row of thread `t` is the one a rebuild would write: its latest message and its unread count. */
  predicate ViewAt(msgs: map<nat, Sms>, contacts: map<Thread, Contact>, t: Thread) {
    if !Listed(t) || ThreadIds(msgs, t) == {} then t !in contacts
    else
      t in contacts && IsLatest(msgs, t, contacts[t].lastId) && contacts[t] == Row(msgs, t, contacts[t].lastId)
  }

  ghost predicate View(msgs: map<nat, Sms>, contacts: map<Thread, Contact>) {
    forall t :: ViewAt(msgs, contacts, t)
  }

  /** Ids are handed out in increasing order, from one. */
  ghost predicate FreshIds(db: Db) {
    db.nextId > 0 && forall id :: id in db.msgs ==> 0 < id < db.nextId
  }

  /** Every row was written with trimmed columns. */
  ghost predicate Trimmed(msgs: map<nat, Sms>) {
    forall id :: id in msgs ==> Trim(msgs[id].imsi) == msgs[id].imsi && Trim(msgs[id].peer) == msgs[id].peer
  }

  ghost predicate Inv(db: Db) {
    FreshIds(db) && Trimmed(db.msgs) && View(db.msgs, db.contacts)
  }

  // ---------- the writes ----------

  function NormalizePeer(smsType: int, sender: string, recipient: string): string {
    if smsType == SENT && Trim(recipient) != "" then Trim(recipient) else Trim(sender)
  }

  /** What one message does to the thread list. */
  function Upsert(contacts: map<Thread, Contact>, id: nat, m: Sms): map<Thread, Contact> {
    var t := ThreadOf(m);
    var seen := if t in contacts then contacts[t].unread else 0;
    contacts[t := Contact(m.iccid, id, m.ts, m.content, m.smsType, if IsUnread(m) then seen + 1 else seen)]
  }

  function TruncateToSecond(t: int): int {
    t - t % SECOND
  }

  /** The row built from the arguments of a save; `iccid` and `learned`, the subscription's own number, are answers of
      the card directory. */
  function NewSms(imsi: string, localPhone: string, sender: string, recipient: string, content: string, smsType: int,
                  status: int, time: int, iccid: string, learned: string): Sms
  {
    Sms(Trim(imsi), iccid, NormalizePeer(smsType, Trim(sender), Trim(recipient)),
        LocalPhone.LocalPhoneOf(Trim(imsi), smsType, localPhone, Trim(sender), Trim(recipient), learned),
        Trim(sender), Trim(recipient), content, smsType, status, TruncateToSecond(time))
  }

  function Insert(db: Db, m: Sms): Db {
    Db(db.msgs[db.nextId := m],
       if m.peer == "" then db.contacts else Upsert(db.contacts, db.nextId, m),
       db.nextId + 1)
  }

  ghost predicate HasLatest(msgs: map<nat, Sms>, t: Thread) {
    exists id :: IsLatest(msgs, t, id)
  }

  /** A non-empty set of messages has a last one. */
  lemma {:induction false} LastOf(msgs: map<nat, Sms>, ids: set<nat>) returns (id: nat)
    requires ids != {} && ids <= msgs.Keys
    ensures id in ids && forall j :: j in ids ==> j == id || Precedes(msgs, j, id)
    decreases |ids|
  {
    var x :| x in ids;
    var rest := ids - {x};
    if rest == {} {
      id := x;
      assert ids == {x};
    } else {
      id := LastOf(msgs, rest);
      if Precedes(msgs, id, x) { id := x; }
      forall j | j in ids ensures j == id || Precedes(msgs, j, id) {
        if j != x { assert j in rest; }
      }
    }
  }

  lemma LatestExists(msgs: map<nat, Sms>, t: Thread)
    requires ThreadIds(msgs, t) != {}
    ensures HasLatest(msgs, t)
  {
    var id := LastOf(msgs, ThreadIds(msgs, t));
    assert IsLatest(msgs, t, id);
  }

  /** Rebuilding one thread from its messages; a blank subscription or peer is left alone. */
  ghost function Rebuild(msgs: map<nat, Sms>, contacts: map<Thread, Contact>, imsi: string, peer: string)
    : (r: map<Thread, Contact>)
  {
    var t := Thread(Trim(imsi), Trim(peer));
    if t.imsi == "" || t.peer == "" then contacts
    else if ThreadIds(msgs, t) == {} then contacts - {t}
    else
      LatestExists(msgs, t);
      var id :| IsLatest(msgs, t, id);
      contacts[t := Row(msgs, t, id)]
  }

  ghost function DeleteById(db: Db, id: nat): Db
    requires id in db.msgs
  {
    var m := db.msgs[id];
    var msgs := db.msgs - {id};
    db.(msgs := msgs, contacts := Rebuild(msgs, db.contacts, m.imsi, m.peer))
  }

  function DeleteThread(db: Db, t: Thread): Db {
    db.(msgs := db.msgs - ThreadIds(db.msgs, t), contacts := db.contacts - {t})
  }

  // ---------- saving ----------

  /** The latest message of a thread is unique. */
  lemma LatestUnique(msgs: map<nat, Sms>, t: Thread, a: nat, b: nat)
    requires IsLatest(msgs, t, a) && IsLatest(msgs, t, b)
    ensures a == b
  {
  }

  /** A message not listed before and later than the rest of its thread. */
  ghost predicate ComesLast(msgs: map<nat, Sms>, id: nat, m: Sms) {
    id !in msgs && forall j :: j in ThreadIds(msgs, ThreadOf(m)) ==> Before(msgs[j].ts, j, m.ts, id)
  }

  lemma ThreadAfterInsert(msgs: map<nat, Sms>, id: nat, m: Sms, t: Thread)
    requires id !in msgs
    ensures ThreadIds(msgs[id := m], t) == if t == ThreadOf(m) then ThreadIds(msgs, t) + {id} else ThreadIds(msgs, t)
  {
    hide ThreadOf;
    var now, was := ThreadIds(msgs[id := m], t), ThreadIds(msgs, t);
    if t == ThreadOf(m) { assert now == was + {id}; } else { assert now == was; }
  }

  lemma UnreadAfterInsert(msgs: map<nat, Sms>, id: nat, m: Sms, t: Thread)
    requires id !in msgs
    ensures |UnreadIds(msgs[id := m], t)| == |UnreadIds(msgs, t)| + if t == ThreadOf(m) && IsUnread(m) then 1 else 0
  {
    hide ThreadOf, IsUnread;
    var now, was := UnreadIds(msgs[id := m], t), UnreadIds(msgs, t);
    if t == ThreadOf(m) && IsUnread(m) { assert now == was + {id}; } else { assert now == was; }
  }

  /** An insert leaves the view of every other thread alone. */
  lemma OtherThreadsKeep(msgs: map<nat, Sms>, contacts: map<Thread, Contact>, id: nat, m: Sms, t: Thread)
    requires id !in msgs && t != ThreadOf(m)
    ensures ViewAt(msgs[id := m], contacts, t) == ViewAt(msgs, contacts, t)
  {
    hide ThreadOf, IsUnread, Listed;
    ThreadAfterInsert(msgs, id, m, t);
    UnreadAfterInsert(msgs, id, m, t);
  }

  /** The upsert keeps the view of a listed thread exactly when the message comes last in it. */
  lemma UpsertKeepsView(msgs: map<nat, Sms>, contacts: map<Thread, Contact>, id: nat, m: Sms)
    requires id !in msgs && Listed(ThreadOf(m)) && View(msgs, contacts)
    ensures View(msgs[id := m], Upsert(contacts, id, m)) <==> ComesLast(msgs, id, m)
  {
    hide ThreadOf, IsUnread, Listed;
    var t := ThreadOf(m);
    var msgs' := msgs[id := m];
    var contacts' := Upsert(contacts, id, m);
    ThreadAfterInsert(msgs, id, m, t);
    UnreadAfterInsert(msgs, id, m, t);
    assert ViewAt(msgs, contacts, t);
    assert ThreadIds(msgs, t) == {} ==> UnreadIds(msgs, t) == {};
    assert IsLatest(msgs', t, id) <==> ComesLast(msgs, id, m);
    assert ViewAt(msgs', contacts', t) <==> ComesLast(msgs, id, m);
    forall u | u != t ensures ViewAt(msgs', contacts', u) {
      OtherThreadsKeep(msgs, contacts, id, m, u);
      assert ViewAt(msgs, contacts, u);
    }
  }

  /** A message without a peer changes no row. */
  lemma InsertUnlisted(msgs: map<nat, Sms>, contacts: map<Thread, Contact>, id: nat, m: Sms)
    requires id !in msgs && !Listed(ThreadOf(m)) && View(msgs, contacts)
    ensures View(msgs[id := m], contacts)
  {
    hide ThreadOf, IsUnread, Listed;
    var msgs' := msgs[id := m];
    forall t ensures ViewAt(msgs', contacts, t) {
      assert ViewAt(msgs, contacts, t);
      if t != ThreadOf(m) { OtherThreadsKeep(msgs, contacts, id, m, t); }
    }
  }

  /** No message of its thread is newer than this one. */
  predicate NotOlder(msgs: map<nat, Sms>, m: Sms) {
    forall j :: j in ThreadIds(msgs, ThreadOf(m)) ==> msgs[j].ts <= m.ts
  }

  lemma NewIdBreaksTies(db: Db, m: Sms)
    requires FreshIds(db)
    ensures ComesLast(db.msgs, db.nextId, m) <==> NotOlder(db.msgs, m)
  {
    hide ThreadOf;
  }

  /** A save keeps the view exactly when the message has no peer or is not older than its thread. */
  lemma SaveKeepsView(db: Db, m: Sms)
    requires FreshIds(db) && View(db.msgs, db.contacts) && Trim(m.peer) == m.peer
    ensures View(Insert(db, m).msgs, Insert(db, m).contacts) <==> m.peer == "" || NotOlder(db.msgs, m)
  {
    hide View, Upsert, NotOlder, ComesLast;
    NewIdBreaksTies(db, m);
    if m.peer == "" {
      InsertUnlisted(db.msgs, db.contacts, db.nextId, m);
    } else {
      UpsertKeepsView(db.msgs, db.contacts, db.nextId, m);
    }
  }

  // ---------- rebuilding and deleting ----------

  /** A rebuild leaves its thread with the row of the definition, or with none, and touches no other row. */
  lemma RebuildFixesThread(msgs: map<nat, Sms>, contacts: map<Thread, Contact>, imsi: string, peer: string)
    requires Trim(imsi) != "" && Trim(peer) != ""
    ensures var t := Thread(Trim(imsi), Trim(peer));
            ViewAt(msgs, Rebuild(msgs, contacts, imsi, peer), t)
            && forall u :: u != t ==> ViewAt(msgs, Rebuild(msgs, contacts, imsi, peer), u) == ViewAt(msgs, contacts, u)
  {
    hide ThreadOf, IsUnread, Trim, IsLatest, Blank;
    TrimAgain(peer);
    BlankTrimsToNothing(Trim(peer));
  }

  /** Removing messages of one thread leaves the view of every other thread alone. */
  lemma OtherThreadsKeepOnRemoval(msgs: map<nat, Sms>, contacts: map<Thread, Contact>, ids: set<nat>, t: Thread,
          u: Thread)
    requires ids <= ThreadIds(msgs, t) && u != t
    ensures ViewAt(msgs - ids, contacts, u) == ViewAt(msgs, contacts, u)
  {
    hide ThreadOf, IsUnread, Listed;
    assert ThreadIds(msgs - ids, u) == ThreadIds(msgs, u);
    assert UnreadIds(msgs - ids, u) == UnreadIds(msgs, u);
  }

  lemma ThreadAfterRemoval(msgs: map<nat, Sms>, id: nat, t: Thread)
    requires id in ThreadIds(msgs, t)
    ensures ThreadIds(msgs - {id}, t) == ThreadIds(msgs, t) - {id}
    ensures |UnreadIds(msgs - {id}, t)| == |UnreadIds(msgs, t)| - if IsUnread(msgs[id]) then 1 else 0
  {
    hide ThreadOf, IsUnread;
    assert UnreadIds(msgs - {id}, t) == UnreadIds(msgs, t) - {id};
  }

  /** Whether the row of its thread shows message `id`: as the last message, or in the unread count. */
  predicate Shown(db: Db, id: nat)
    requires id in db.msgs
  {
    var t := ThreadOf(db.msgs[id]);
    (t in db.contacts && db.contacts[t].lastId == id) || IsUnread(db.msgs[id])
  }

  /** Without a rebuild, the view survives the removal of a message exactly when its row does not show it. */
  lemma RemovalWithoutRebuild(db: Db, id: nat)
    requires View(db.msgs, db.contacts) && id in db.msgs && Listed(ThreadOf(db.msgs[id]))
    ensures View(db.msgs - {id}, db.contacts) <==> !Shown(db, id)
  {
    hide ThreadOf, IsUnread, Listed;
    var t := ThreadOf(db.msgs[id]);
    var msgs' := db.msgs - {id};
    ThreadAfterRemoval(db.msgs, id, t);
    assert ViewAt(db.msgs, db.contacts, t);
    assert ViewAt(msgs', db.contacts, t) <==> !Shown(db, id);
    forall u | u != t ensures ViewAt(msgs', db.contacts, u) {
      OtherThreadsKeepOnRemoval(db.msgs, db.contacts, {id}, t, u);
      assert ViewAt(db.msgs, db.contacts, u);
    }
  }

  lemma RemovalWithRebuild(db: Db, id: nat)
    requires Inv(db) && id in db.msgs && db.msgs[id].imsi != "" && db.msgs[id].peer != ""
    ensures View(db.msgs - {id}, Rebuild(db.msgs - {id}, db.contacts, db.msgs[id].imsi, db.msgs[id].peer))
  {
    hide IsUnread, Listed, Rebuild, Trim;
    var m := db.msgs[id];
    var msgs' := db.msgs - {id};
    RebuildFixesThread(msgs', db.contacts, m.imsi, m.peer);
    forall u | u != ThreadOf(m) ensures ViewAt(msgs', db.contacts, u) {
      OtherThreadsKeepOnRemoval(db.msgs, db.contacts, {id}, ThreadOf(m), u);
      assert ViewAt(db.msgs, db.contacts, u);
    }
  }

  /** Deleting one message keeps the view exactly when the message has a subscription, has no peer, or is not
      shown in its row: a rebuild is skipped for a message without a subscription. */
  lemma DeleteKeepsView(db: Db, id: nat)
    requires Inv(db) && id in db.msgs
    ensures var m := db.msgs[id];
            View(DeleteById(db, id).msgs, DeleteById(db, id).contacts)
            <==> m.imsi != "" || m.peer == "" || !Shown(db, id)
  {
    hide View, Shown;
    var m := db.msgs[id];
    if m.peer == "" {
      RemovalUnlisted(db, id);
    } else if m.imsi == "" {
      RemovalWithoutRebuild(db, id);
    } else {
      RemovalWithRebuild(db, id);
    }
  }

  lemma RemovalUnlisted(db: Db, id: nat)
    requires View(db.msgs, db.contacts) && id in db.msgs && !Listed(ThreadOf(db.msgs[id]))
    ensures View(db.msgs - {id}, db.contacts)
  {
    hide ThreadOf, IsUnread, Listed;
    var msgs' := db.msgs - {id};
    var t := ThreadOf(db.msgs[id]);
    forall u ensures ViewAt(msgs', db.contacts, u) {
      assert ViewAt(db.msgs, db.contacts, u);
      if u != t { OtherThreadsKeepOnRemoval(db.msgs, db.contacts, {id}, t, u); }
    }
  }

  /** Deleting a whole thread keeps the view. */
  lemma DeleteThreadKeepsView(db: Db, t: Thread)
    requires View(db.msgs, db.contacts)
    ensures View(DeleteThread(db, t).msgs, DeleteThread(db, t).contacts)
  {
    hide ThreadOf, IsUnread, Listed;
    var msgs' := db.msgs - ThreadIds(db.msgs, t);
    var contacts' := db.contacts - {t};
    assert ThreadIds(msgs', t) == {};
    forall u ensures ViewAt(msgs', contacts', u) {
      assert ViewAt(db.msgs, db.contacts, u);
      if u != t {
        OtherThreadsKeepOnRemoval(db.msgs, db.contacts, ThreadIds(db.msgs, t), t, u);
        assert ViewAt(msgs', db.contacts, u);
      }
    }
  }

  // ---------- runs ----------

  datatype Write =
    | DoSave(msg: Sms)
    | DoDelete(id: nat)
    | DoDeleteThread(thread: Thread)

  ghost function Apply(db: Db, w: Write): Db {
    match w
    case DoSave(m) => Insert(db, m)
    case DoDelete(id) => if id in db.msgs then DeleteById(db, id) else db
    case DoDeleteThread(t) => DeleteThread(db, t)
  }

  /** The program trims the columns it saves. */
  ghost predicate TrimmedColumns(w: Write) {
    w.DoSave? ==> Trim(w.msg.imsi) == w.msg.imsi && Trim(w.msg.peer) == w.msg.peer
  }

  /** A save without a peer or not older than its thread; a deletion of a message that has a subscription, or no peer,
      or is not shown in the thread list; any deletion of a thread. */
  ghost predicate Harmless(db: Db, w: Write) {
    match w
    case DoSave(m) => m.peer == "" || NotOlder(db.msgs, m)
    case DoDelete(id) => id in db.msgs ==> db.msgs[id].imsi != "" || db.msgs[id].peer == "" || !Shown(db, id)
    case DoDeleteThread(_) => true
  }

  ghost predicate AllHarmless(db: Db, writes: seq<Write>)
    decreases |writes|
  {
    writes == [] ||
    (TrimmedColumns(writes[0]) && Harmless(db, writes[0]) && AllHarmless(Apply(db, writes[0]), writes[1..]))
  }

  ghost function ApplyAll(db: Db, writes: seq<Write>): Db
    decreases |writes|
  {
    if writes == [] then db else ApplyAll(Apply(db, writes[0]), writes[1..])
  }

  lemma WriteKeepsColumns(db: Db, w: Write)
    requires FreshIds(db) && Trimmed(db.msgs) && TrimmedColumns(w)
    ensures FreshIds(Apply(db, w)) && Trimmed(Apply(db, w).msgs)
  {
    hide Upsert, ThreadOf, Rebuild, Trim;
  }

  /** One write keeps the thread list right if and only if it is harmless. */
  lemma WriteKeepsView(db: Db, w: Write)
    requires Inv(db) && TrimmedColumns(w)
    ensures View(Apply(db, w).msgs, Apply(db, w).contacts) <==> Harmless(db, w)
  {
    hide View, NotOlder, Upsert, ThreadOf, Rebuild, Trim, Shown, DeleteById, Insert, DeleteThread;
    match w
    case DoSave(m) => SaveKeepsView(db, m);
    case DoDelete(id) => if id in db.msgs { DeleteKeepsView(db, id); }
    case DoDeleteThread(t) => DeleteThreadKeepsView(db, t);
  }

  /** After any history of harmless saves and deletions the thread list is the one its definition gives. */
  lemma {:induction false} WritesKeepView(db: Db, writes: seq<Write>)
    requires Inv(db) && AllHarmless(db, writes)
    ensures Inv(ApplyAll(db, writes))
    decreases |writes|
  {
    hide View, FreshIds, Trimmed, TrimmedColumns, Harmless, Apply;
    if writes != [] {
      WriteKeepsView(db, writes[0]);
      WriteKeepsColumns(db, writes[0]);
      WritesKeepView(Apply(db, writes[0]), writes[1..]);
    }
  }

  /** A message received without a subscription and deleted again leaves its thread in the list. */
  lemma UnsubscribedDeletion()
    ensures var empty := Db(map[], map[], 1);
            var m := NewSms("", "", "5", "", "hi", RECEIVED, UNREAD, 0, "", "");
            Inv(empty) && TrimmedColumns(DoSave(m)) && Harmless(empty, DoSave(m))
            && var after := Apply(Apply(empty, DoSave(m)), DoDelete(1));
               after.msgs == map[] && Thread("", "5") in after.contacts && !View(after.msgs, after.contacts)
  {
    hide View, NewSms, Trim, FreshIds, Trimmed;
    var empty := Db(map[], map[], 1);
    var m := NewSms("", "", "5", "", "hi", RECEIVED, UNREAD, 0, "", "");
    ItsColumns();
    NothingTrimmed();
    EmptyStore();
    var saved := Insert(empty, m);
    assert saved.msgs == map[1 := m];
    WriteKeepsView(empty, DoSave(m));
    WriteKeepsColumns(empty, DoSave(m));
    WriteKeepsView(saved, DoDelete(1));
    assert saved.msgs - {1} == map[];
  }

  lemma ItsColumns()
    ensures NewSms("", "", "5", "", "hi", RECEIVED, UNREAD, 0, "", "")
         == Sms("", "", "5", "", "5", "", "hi", RECEIVED, UNREAD, 0)
    ensures Trim("5") == "5"
  {
    hide Trim, LocalPhone.Canonical;
    NothingTrimmed();
    DigitKept();
    LocalPhone.NothingGiven();
  }

  lemma DigitKept()
    ensures Trim("5") == "5"
  {
    var s := "5";
    assert !IsSpace(s[0]);
    hide IsSpace;
    assert TrimLeft(s) == s;
    assert TrimRight(s) == s;
  }

  lemma NothingTrimmed()
    ensures Trim("") == ""
  {
  }

  lemma EmptyStore()
    ensures Inv(Db(map[], map[], 1))
  {
  }
}
