/** Where a message is filed, and what its thread then shows, in the columns of the tables. Types of messages are 1 for
    received and 2 for sent; a status of 0 is unread. */
module SmsFiling {
  import opened Text
  import LocalPhone
  import opened SmsThreads
  import opened SmsStore

  /** A sent message is filed under its recipient, whoever its sender is; any other, or one sent to nobody, under its
      sender. Its time is cut to the second it falls in. */
  lemma FiledUnder(imsi: string, localPhone: string, sender: string, recipient: string, content: string, smsType: int,
                   status: int, time: int, iccid: string, learned: string)
    ensures var m := NewSms(imsi, localPhone, sender, recipient, content, smsType, status, time, iccid, learned);
            && (smsType == 2 && !Blank(recipient) ==> m.peer == Trim(recipient))
            && (smsType != 2 || Blank(recipient) ==> m.peer == Trim(sender))
            && m.imsi == Trim(imsi) && m.iccid == iccid && m.sender == Trim(sender) && m.recipient == Trim(recipient)
            && m.content == content && m.smsType == smsType && m.status == status
            && m.ts % 1_000_000_000 == 0 && m.ts <= time < m.ts + 1_000_000_000
  {
    TrimAgain(sender);
    TrimAgain(recipient);
    BlankTrimsToNothing(recipient);
    hide Trim, Blank, LocalPhone.LocalPhoneOf;
  }

  /** The local number of plain numbers, or of nothing: the one given, else the recipient of a received and the
      sender of a sent message, else the one learned for the subscription, if there is one. */
  lemma LocalNumber(imsi: string, localPhone: string, sender: string, recipient: string, content: string, smsType: int,
                    status: int, time: int, iccid: string, learned: string)
    requires LocalPhone.NumberOrNothing(localPhone) && LocalPhone.NumberOrNothing(learned)
    requires LocalPhone.NumberOrNothing(Trim(sender)) && LocalPhone.NumberOrNothing(Trim(recipient))
    ensures var m := NewSms(imsi, localPhone, sender, recipient, content, smsType, status, time, iccid, learned);
            m.localPhone ==
            if localPhone != "" then localPhone
            else if smsType == 1 && Trim(recipient) != "" then Trim(recipient)
            else if smsType == 2 && Trim(sender) != "" then Trim(sender)
            else if Trim(imsi) != "" then learned else ""
  {
    LocalPhone.OwnNumber(Trim(imsi), smsType, localPhone, Trim(sender), Trim(recipient), learned);
    hide Trim, NormalizePeer, LocalPhone.LocalPhoneOf;
  }

  /** Filling in a missing peer does the same, and leaves a message alone that has one, or that names nobody. */
  lemma FilledUnder(m: Sms)
    ensures !Blank(m.peer) ==> FillPeer(m) == m
    ensures Blank(m.peer) && m.smsType == 2 && !Blank(m.recipient) ==> FillPeer(m) == m.(peer := Trim(m.recipient))
    ensures Blank(m.peer) && (m.smsType != 2 || Blank(m.recipient)) ==>
              FillPeer(m) == if Blank(m.sender) then m else m.(peer := Trim(m.sender))
  {
    BlankTrimsToNothing(m.sender);
    BlankTrimsToNothing(m.recipient);
    hide Trim, Blank;
  }

  /** The messages of one card with one peer. */
  function Between(msgs: map<nat, Sms>, imsi: string, peer: string): set<nat> {
    set id | id in msgs && msgs[id].imsi == imsi && msgs[id].peer == peer
  }

  /** What the thread list shows when it is right: a thread for every card and peer with a message, with the newest
      message, by time and then by number, and the number of received messages not read yet. */
  lemma ListShows(msgs: map<nat, Sms>, contacts: map<Thread, Contact>, imsi: string, peer: string)
    requires View(msgs, contacts) && !Blank(peer)
    ensures Thread(imsi, peer) in contacts <==> Between(msgs, imsi, peer) != {}
    ensures Thread(imsi, peer) in contacts ==>
              var c := contacts[Thread(imsi, peer)];
              && c.lastId in Between(msgs, imsi, peer)
              && c.lastTs == msgs[c.lastId].ts && c.lastContent == msgs[c.lastId].content
              && c.lastType == msgs[c.lastId].smsType && c.iccid == msgs[c.lastId].iccid
              && (forall id :: id in Between(msgs, imsi, peer) ==>
                    msgs[id].ts < c.lastTs || (msgs[id].ts == c.lastTs && id <= c.lastId))
              && c.unread == |set id | id in Between(msgs, imsi, peer) && msgs[id].smsType == 1 && msgs[id].status == 0|
  {
    var t := Thread(imsi, peer);
    assert ViewAt(msgs, contacts, t);
    assert Between(msgs, imsi, peer) == ThreadIds(msgs, t);
    assert (set id | id in Between(msgs, imsi, peer) && msgs[id].smsType == 1 && msgs[id].status == 0)
        == UnreadIds(msgs, t);
  }

  /** A message that names nobody on the other side. */
  predicate NamesNobody(m: Sms) {
    Blank(m.peer) && (m.smsType == 2 ==> Blank(m.recipient)) && Blank(m.sender)
  }

  /** When a second backfill would be started after a first: when a message has an empty peer that nothing can fill, or
      when no message names anybody. */
  lemma BackfillAgain(msgs: map<nat, Sms>, contacts: map<Thread, Contact>)
    requires View(Filled(msgs), contacts)
    ensures NeedsBackfill(Filled(msgs), contacts) <==>
            (exists id :: id in msgs && NamesNobody(msgs[id]) && msgs[id].peer == "")
            || (msgs != map[] && forall id :: id in msgs ==> NamesNobody(msgs[id]))
  {
    var filled := Filled(msgs);
    forall id | id in msgs
      ensures Blank(filled[id].peer) <==> NamesNobody(msgs[id])
      ensures filled[id].peer == "" <==> NamesNobody(msgs[id]) && msgs[id].peer == ""
    {
      FilledNames(msgs[id]);
    }
    hide NamesNobody, FillPeer, Filled, Blank;
    if id :| id in msgs && !NamesNobody(msgs[id]) {
      ListShows(filled, contacts, filled[id].imsi, filled[id].peer);
      assert id in Between(filled, filled[id].imsi, filled[id].peer);
      assert contacts != map[];
    } else {
      forall t ensures t !in contacts { NotListed(filled, contacts, t); }
    }
  }

  lemma FilledNames(m: Sms)
    ensures Blank(FillPeer(m).peer) <==> NamesNobody(m)
    ensures FillPeer(m).peer == "" <==> NamesNobody(m) && m.peer == ""
  {
    FilledUnder(m);
    BlankTrimsToNothing(m.sender);
    BlankTrimsToNothing(m.recipient);
    TrimAgain(m.sender);
    TrimAgain(m.recipient);
    BlankTrimsToNothing(Trim(m.sender));
    BlankTrimsToNothing(Trim(m.recipient));
    assert Blank("");
    hide Trim, Blank, FillPeer;
  }

  lemma NotListed(msgs: map<nat, Sms>, contacts: map<Thread, Contact>, t: Thread)
    requires View(msgs, contacts) && forall id :: id in msgs ==> Blank(msgs[id].peer)
    ensures t !in contacts
  {
    assert ViewAt(msgs, contacts, t);
    hide Blank;
  }
}
