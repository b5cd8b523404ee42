/** The SMS store as the program writes it: each transaction changes the two tables in place. */
module SmsStore {
  import opened Text
  import opened SmsThreads

  // ---------- one page of the backfill query ----------

  /** The query filter: every message before the first page, then those after the last one seen. */
  predicate PastCursor(lastTs: int, lastId: nat, ts: int, id: nat) {
    (lastTs == 0 && lastId == 0) || Before(lastTs, lastId, ts, id)
  }

  ghost predicate Increasing(msgs: map<nat, Sms>, ids: seq<nat>) {
    (forall i :: 0 <= i < |ids| ==> ids[i] in msgs)
    && forall i, j :: 0 <= i < j < |ids| ==> Precedes(msgs, ids[i], ids[j])
  }

  /** The first `limit` messages past the cursor, in message order. */
  ghost predicate IsPage(msgs: map<nat, Sms>, lastTs: int, lastId: nat, limit: nat, page: seq<nat>) {
    && |page| <= limit && Increasing(msgs, page)
    && (forall id :: id in page ==> PastCursor(lastTs, lastId, msgs[id].ts, id))
    && (forall id :: id in msgs && PastCursor(lastTs, lastId, msgs[id].ts, id) && id !in page ==>
          |page| == limit && forall i :: 0 <= i < |page| ==> Precedes(msgs, page[i], id))
  }

  lemma {:induction false} FirstOf(msgs: map<nat, Sms>, ids: set<nat>) returns (id: nat)
    requires ids != {} && ids <= msgs.Keys
    ensures id in ids && forall j :: j in ids ==> j == id || Precedes(msgs, id, j)
    decreases |ids|
  {
    var x :| x in ids;
    var rest := ids - {x};
    if rest == {} {
      id := x;
      assert ids == {x};
    } else {
      id := FirstOf(msgs, rest);
      if Precedes(msgs, x, id) { id := x; }
      forall j | j in ids ensures j == id || Precedes(msgs, id, j) {
        if j != x { assert j in rest; }
      }
    }
  }

  method FindPage(msgs: map<nat, Sms>, lastTs: int, lastId: nat, limit: nat) returns (page: seq<nat>)
    ensures IsPage(msgs, lastTs, lastId, limit, page)
  {
    page := [];
    var rest := set id | id in msgs && PastCursor(lastTs, lastId, msgs[id].ts, id);
    while |page| < limit && rest != {}
      invariant |page| <= limit && rest <= msgs.Keys && Increasing(msgs, page)
      invariant forall id :: id in rest ==> PastCursor(lastTs, lastId, msgs[id].ts, id)
      invariant forall id :: id in page ==> PastCursor(lastTs, lastId, msgs[id].ts, id)
      invariant forall id :: id in msgs && PastCursor(lastTs, lastId, msgs[id].ts, id) ==> id in page || id in rest
      invariant forall i, id :: 0 <= i < |page| && id in rest ==> Precedes(msgs, page[i], id)
    {
      ghost var first := FirstOf(msgs, rest);
      var next :| next in rest && forall j :: j in rest ==> j == next || Precedes(msgs, next, j);
      page := page + [next];
      rest := rest - {next};
    }
  }

  // ---------- what the backfill does to a message ----------

  function FillPeer(m: Sms): Sms {
    var peer := NormalizePeer(m.smsType, m.sender, m.recipient);
    if Blank(m.peer) && peer != "" then m.(peer := peer) else m
  }

  function Filled(msgs: map<nat, Sms>): map<nat, Sms> {
    map id | id in msgs :: FillPeer(msgs[id])
  }

  function Only(msgs: map<nat, Sms>, ids: set<nat>): map<nat, Sms> {
    map id | id in msgs && id in ids :: msgs[id]
  }

  lemma FilledPeer(m: Sms)
    ensures FillPeer(m).ts == m.ts
    ensures Listed(ThreadOf(FillPeer(m))) <==> !Blank(m.peer) || NormalizePeer(m.smsType, m.sender, m.recipient) != ""
  {
    var peer := NormalizePeer(m.smsType, m.sender, m.recipient);
    TrimAgain(m.sender);
    TrimAgain(m.recipient);
    BlankTrimsToNothing(peer);
    BlankTrimsToNothing(m.peer);
    hide Trim, Blank;
  }

  /** Backfilling the next message in order extends the view from the messages done to one more. */
  lemma FillExtendsView(msgs: map<nat, Sms>, done: set<nat>, contacts: map<Thread, Contact>, id: nat)
    requires id in msgs && id !in done && done <= msgs.Keys
    requires forall d :: d in done ==> Precedes(msgs, d, id)
    requires View(Only(Filled(msgs), done), contacts)
    ensures var m := FillPeer(msgs[id]);
            View(Only(Filled(msgs), done + {id}), if Listed(ThreadOf(m)) then Upsert(contacts, id, m) else contacts)
  {
    hide View, Upsert, ThreadOf, Listed, FillPeer;
    var m := FillPeer(msgs[id]);
    var seen := Only(Filled(msgs), done);
    assert Only(Filled(msgs), done + {id}) == seen[id := m];
    forall d | d in seen ensures seen[d].ts == msgs[d].ts { FilledPeer(msgs[d]); }
    FilledPeer(msgs[id]);
    if Listed(ThreadOf(m)) { UpsertKeepsView(seen, contacts, id, m); } else { InsertUnlisted(seen, contacts, id, m); }
  }

  lemma Filing(smsType: int, sender: string, recipient: string)
    ensures NormalizePeer(smsType, Trim(sender), Trim(recipient)) ==
            if smsType == 2 && !Blank(recipient) then Trim(recipient) else Trim(sender)
  {
    TrimAgain(sender);
    TrimAgain(recipient);
    BlankTrimsToNothing(recipient);
    hide Trim, Blank;
  }

  class Store {
    var msgs: map<nat, Sms>
    var contacts: map<Thread, Contact>
    var nextId: nat

    ghost function Abs(): Db
      reads this
    {
      Db(msgs, contacts, nextId)
    }

    constructor ()
      ensures Inv(Abs()) && msgs == map[]
    {
      msgs, contacts, nextId := map[], map[], 1;
    }

    method Save(imsi: string, localPhone: string, sender: string, recipient: string, content: string, smsType: int,
                status: int, time: int, iccid: string, learned: string)
      modifies this
      ensures Abs() == Insert(old(Abs()),
                  NewSms(imsi, localPhone, sender, recipient, content, smsType, status, time, iccid, learned))
      // a sent message is filed under its recipient, and its thread shows it as the last one
      ensures var other := if smsType == 2 && !Blank(recipient) then Trim(recipient) else Trim(sender);
              && old(nextId) in msgs && msgs[old(nextId)].peer == other && msgs[old(nextId)].imsi == Trim(imsi)
              && msgs == old(msgs)[old(nextId) := msgs[old(nextId)]]
              && (other != "" ==> Thread(Trim(imsi), other) in contacts
                                  && contacts[Thread(Trim(imsi), other)].lastId == old(nextId)
                                  && contacts[Thread(Trim(imsi), other)].lastContent == content)
    {
      Filing(smsType, sender, recipient);
      hide Trim, NormalizePeer, LocalPhone.LocalPhoneOf, Blank;
      var sms := NewSms(imsi, localPhone, sender, recipient, content, smsType, status, time, iccid, learned);
      msgs := msgs[nextId := sms];
      if sms.peer != "" { contacts := Upsert(contacts, nextId, sms); }
      nextId := nextId + 1;
    }

    method RebuildContact(imsi: string, peer: string) returns (threadEmpty: bool)
      modifies this`contacts
      ensures contacts == SmsThreads.Rebuild(msgs, old(contacts), imsi, peer)
      ensures threadEmpty <==>
              Trim(imsi) == "" || Trim(peer) == "" || ThreadIds(msgs, Thread(Trim(imsi), Trim(peer))) == {}
    {
      hide ThreadOf, IsUnread, Trim, ViewAt;
      var t := Thread(Trim(imsi), Trim(peer));
      if t.imsi == "" || t.peer == "" { return true; }
      if ThreadIds(msgs, t) == {} {
        contacts := contacts - {t};
        return true;
      }
      LatestExists(msgs, t);
      var latest :| latest in msgs && IsLatest(msgs, t, latest);
      forall id | IsLatest(msgs, t, id) ensures id == latest { LatestUnique(msgs, t, id, latest); }
      contacts := contacts[t := Row(msgs, t, latest)];
      return false;
    }

    method DeleteSMSByID(id: nat) returns (found: bool, threadEmpty: bool, imsi: string, peer: string)
      modifies this`msgs, this`contacts
      ensures found == (id in old(msgs))
      ensures found ==> imsi == Trim(old(msgs)[id].imsi) && peer == Trim(old(msgs)[id].peer)
      ensures found ==> (threadEmpty <==> imsi == "" || peer == "" || ThreadIds(msgs, Thread(imsi, peer)) == {})
      ensures Abs() == if found then DeleteById(old(Abs()), id) else old(Abs())
      ensures msgs == old(msgs) - {id}
    {
      hide Rebuild, Trim, ThreadOf;
      if id !in msgs { return false, true, "", ""; }
      var m := msgs[id];
      imsi, peer := Trim(m.imsi), Trim(m.peer);
      msgs := msgs - {id};
      threadEmpty := RebuildContact(imsi, peer);
      TrimAgain(m.imsi);
      TrimAgain(m.peer);
      RebuildTrims(msgs, old(contacts), m.imsi, m.peer);
      found := true;
    }

    method DeleteSMSByIMSIAndPeer(imsi: string, peer: string) returns (deleted: nat)
      modifies this`msgs, this`contacts
      ensures var t := Thread(Trim(imsi), Trim(peer));
              deleted == (if t.imsi == "" || t.peer == "" then 0 else |ThreadIds(old(msgs), t)|)
              && Abs() == if deleted == 0 then old(Abs()) else DeleteThread(old(Abs()), t)
      ensures forall id :: id in old(msgs) ==>
                (id !in msgs <==> Trim(imsi) != "" && Trim(peer) != ""
                                  && old(msgs)[id].imsi == Trim(imsi) && old(msgs)[id].peer == Trim(peer))
    {
      var t := Thread(Trim(imsi), Trim(peer));
      if t.imsi == "" || t.peer == "" { return 0; }
      deleted := |ThreadIds(msgs, t)|;
      assert forall id :: id in msgs ==> (id in ThreadIds(msgs, t) <==> ThreadOf(msgs[id]) == t);
      if deleted == 0 { return; }
      msgs := msgs - ThreadIds(msgs, t);
      contacts := contacts - {t};
    }

    method NeedBackfill() returns (need: bool)
      ensures need <==> NeedsBackfill(msgs, contacts)
    {
      if |msgs| == 0 { return false; }
      var missing := set id | id in msgs && msgs[id].peer == "";
      if id :| id in msgs && msgs[id].peer == "" { assert id in missing; }
      return |contacts| == 0 || missing != {};
    }

    /** One message of a page: fill in its peer, and list it. */
    method BackfillOne(id: nat)
      requires id in msgs
      modifies this`msgs, this`contacts
      ensures msgs == old(msgs)[id := FillPeer(old(msgs)[id])]
      ensures contacts == if Listed(ThreadOf(msgs[id])) then Upsert(old(contacts), id, msgs[id]) else old(contacts)
    {
      hide Upsert, NormalizePeer, Listed, ThreadOf, Trim;
      var sms := msgs[id];
      FilledPeer(sms);
      PeerTrimmed(sms);
      BlankTrimsToNothing(sms.peer);
      if Trim(sms.peer) == "" {
        sms := sms.(peer := NormalizePeer(sms.smsType, sms.sender, sms.recipient));
        if sms.peer != "" { msgs := msgs[id := sms]; }
      }
      if sms.peer != "" { contacts := Upsert(contacts, id, sms); }
    }

    /** The whole backfill, page by page, in message order. */
    method Backfill(batchSize: int) returns (need: bool, ghost visited: seq<nat>)
      requires FreshIds(Abs())
      modifies this`msgs, this`contacts
      ensures need <==> NeedsBackfill(old(msgs), old(contacts))
      ensures !need ==> Abs() == old(Abs()) && visited == []
      // each message is visited exactly once, in order
      ensures need ==> Increasing(old(msgs), visited) && forall id :: id in old(msgs) <==> id in visited
      // and the thread list is the one its definition gives for the messages with their peers filled in
      ensures need ==> msgs == Filled(old(msgs)) && View(msgs, contacts)
    {
      hide View, Listed, FillPeer, PartFilled, Filled, Only, Increasing, Settled, IsPage, Elements, NeedsBackfill;
      var limit: nat := if batchSize <= 0 then 500 else batchSize;
      visited := [];
      need := NeedBackfill();
      if !need { return; }
      contacts := map[];
      ghost var was := msgs;
      NothingFilled(was);
      var lastTs, lastId: nat := 0, 0;
      while true
        invariant Increasing(was, visited) && Settled(was, visited) && AtCursor(was, visited, lastTs, lastId)
        invariant msgs == PartFilled(was, visited)
        invariant View(Only(Filled(was), Elements(visited)), contacts)
        decreases was.Keys - Elements(visited)
      {
        var batch := FindPage(msgs, lastTs, lastId, limit);
        NextPage(was, visited, lastTs, lastId, limit, batch);
        if batch == [] {
          AllFilled(was, visited);
          return;
        }
        BackfillPage(was, visited, batch);
        PageShrinksRest(was, visited, batch);
        visited := visited + batch;
        lastId := batch[|batch| - 1];
        lastTs := msgs[lastId].ts;
      }
    }

    /** One transaction: the messages of one page, in order. */
    method BackfillPage(ghost was: map<nat, Sms>, ghost visited: seq<nat>, batch: seq<nat>)
      requires Increasing(was, visited + batch) && msgs == PartFilled(was, visited)
      requires View(Only(Filled(was), Elements(visited)), contacts)
      modifies this`msgs, this`contacts
      ensures msgs == PartFilled(was, visited + batch)
      ensures View(Only(Filled(was), Elements(visited + batch)), contacts)
    {
      hide View, Upsert, FillPeer, Listed, ThreadOf;
      assert visited + batch[..0] == visited;
      for i := 0 to |batch|
        invariant msgs == PartFilled(was, visited + batch[..i])
        invariant View(Only(Filled(was), Elements(visited + batch[..i])), contacts)
      {
        ghost var done := visited + batch[..i];
        NextInOrder(was, visited + batch, |visited| + i);
        assert (visited + batch)[..|visited| + i] == done;
        FillExtendsView(was, Elements(done), contacts, batch[i]);
        BackfillOne(batch[i]);
        assert visited + batch[..i + 1] == done + [batch[i]];
        assert Elements(done + [batch[i]]) == Elements(done) + {batch[i]};
      }
      assert batch[..|batch|] == batch;
    }
  }

  ghost function Elements(ids: seq<nat>): set<nat> {
    set id | id in ids
  }

  function PartFilled(msgs: map<nat, Sms>, ids: seq<nat>): map<nat, Sms> {
    map id | id in msgs :: if id in ids then FillPeer(msgs[id]) else msgs[id]
  }

  ghost predicate NeedsBackfill(msgs: map<nat, Sms>, contacts: map<Thread, Contact>) {
    msgs != map[] && (contacts == map[] || exists id :: id in msgs && msgs[id].peer == "")
  }

  /** The cursor stands on the last message visited. */
  ghost predicate AtCursor(msgs: map<nat, Sms>, visited: seq<nat>, lastTs: int, lastId: nat) {
    if visited == [] then lastTs == 0 && lastId == 0
    else lastId == visited[|visited| - 1] && lastId in msgs && lastTs == msgs[lastId].ts
  }

  /** Everything visited precedes everything not visited. */
  ghost predicate Settled(msgs: map<nat, Sms>, visited: seq<nat>) {
    forall i, id :: 0 <= i < |visited| && visited[i] in msgs && id in msgs && id !in visited ==>
      Precedes(msgs, visited[i], id)
  }

  lemma NothingFilled(msgs: map<nat, Sms>)
    ensures PartFilled(msgs, []) == msgs && View(Only(Filled(msgs), Elements([])), map[])
    ensures Increasing(msgs, []) && Settled(msgs, [])
  {
    var none := Only(Filled(msgs), Elements([]));
    forall t ensures ViewAt(none, map[], t) { assert ThreadIds(none, t) == {}; }
  }

  lemma AllFilled(msgs: map<nat, Sms>, visited: seq<nat>)
    requires Increasing(msgs, visited) && forall id :: id in msgs ==> id in visited
    ensures forall id :: id in msgs <==> id in visited
    ensures PartFilled(msgs, visited) == Filled(msgs) == Only(Filled(msgs), Elements(visited))
  {
    hide FillPeer;
  }

  lemma PageShrinksRest(msgs: map<nat, Sms>, visited: seq<nat>, page: seq<nat>)
    requires page != [] && Increasing(msgs, visited + page) && forall id :: id in page ==> id in msgs && id !in visited
    ensures msgs.Keys - Elements(visited + page) < msgs.Keys - Elements(visited)
    ensures var last := page[|page| - 1];
            last in msgs && last in PartFilled(msgs, visited + page) &&
            PartFilled(msgs, visited + page)[last].ts == msgs[last].ts
  {
    FilledPeer(msgs[page[|page| - 1]]);
    assert page[0] in Elements(visited + page) && page[0] !in Elements(visited);
  }

  /** Past the cursor lies exactly what has not been visited. */
  lemma CursorSplits(msgs: map<nat, Sms>, visited: seq<nat>, lastTs: int, lastId: nat, id: nat)
    requires 0 !in msgs && Increasing(msgs, visited) && Settled(msgs, visited)
    requires AtCursor(msgs, visited, lastTs, lastId)
    requires id in msgs
    ensures PastCursor(lastTs, lastId, msgs[id].ts, id) <==> id !in visited
  {
    if visited != [] && id in visited {
      var i :| 0 <= i < |visited| && visited[i] == id;
      assert i < |visited| - 1 ==> Precedes(msgs, visited[i], visited[|visited| - 1]);
    }
  }

  /** A page continues the visit where it stopped, and an empty page means that all is visited. */
  lemma NextPage(msgs: map<nat, Sms>, visited: seq<nat>, lastTs: int, lastId: nat, limit: nat, page: seq<nat>)
    requires 0 !in msgs && Increasing(msgs, visited) && Settled(msgs, visited)
    requires AtCursor(msgs, visited, lastTs, lastId)
    requires limit > 0 && IsPage(PartFilled(msgs, visited), lastTs, lastId, limit, page)
    ensures Increasing(msgs, visited + page) && Settled(msgs, visited + page)
    ensures page == [] ==> forall id :: id in msgs ==> id in visited
    ensures forall id :: id in page ==> id in msgs && id !in visited
  {
    hide FillPeer;
    var filled := PartFilled(msgs, visited);
    forall id | id in msgs
      ensures id in filled && filled[id].ts == msgs[id].ts
      ensures PastCursor(lastTs, lastId, msgs[id].ts, id) <==> id !in visited
    {
      FilledPeer(msgs[id]);
      CursorSplits(msgs, visited, lastTs, lastId, id);
    }
    assert forall i, j :: 0 <= i < j < |page| ==> Precedes(filled, page[i], page[j]);
  }

  /** In an increasing sequence every element is new and follows those before it. */
  lemma NextInOrder(msgs: map<nat, Sms>, ids: seq<nat>, k: nat)
    requires Increasing(msgs, ids) && k < |ids|
    ensures ids[k] !in Elements(ids[..k]) && Elements(ids[..k]) <= msgs.Keys
    ensures forall d :: d in Elements(ids[..k]) ==> Precedes(msgs, d, ids[k])
  {
  }

  lemma RebuildTrims(msgs: map<nat, Sms>, contacts: map<Thread, Contact>, imsi: string, peer: string)
    ensures Rebuild(msgs, contacts, Trim(imsi), Trim(peer)) == Rebuild(msgs, contacts, imsi, peer)
  {
    hide ThreadOf, IsUnread, Trim, ThreadIds, IsLatest;
    TrimAgain(imsi);
    TrimAgain(peer);
  }

  lemma PeerTrimmed(m: Sms)
    ensures Listed(ThreadOf(m)) <==> Trim(m.peer) != ""
    ensures m.peer == "" ==> Trim(m.peer) == ""
  {
    BlankTrimsToNothing(m.peer);
  }
}
