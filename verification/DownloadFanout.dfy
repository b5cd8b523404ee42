/** The progress events of one eSIM download, fanned out to subscribers that may be slow, come late and leave. */
module DownloadFanout {
  const BUFFER := 64

  /** An event frame. */
  datatype Event = Event(step: string, payload: string)

  /** The event that ends a download. */
  predicate IsTerminal(ev: Event) {
    ev.step == "done" || ev.step == "error"
  }

  /** A subscriber's channel: what is buffered, what the subscriber has taken, how many events there were when it
      joined and when its channel was closed, and whether anything was dropped. */
  datatype Chan = Chan(
    open: bool,
    buffer: seq<Event>,
    received: seq<Event>,
    joined: nat,
    left: nat,
    dropped: bool)

  /** `faults` counts what would panic: a send on a closed channel, or closing one twice. */
  datatype State = State(
    events: seq<Event>,
    done: bool,
    subs: set<nat>,
    chans: map<nat, Chan>,
    faults: nat)

  function Init(): State {
    State([], false, {}, map[], 0)
  }

  // ---------- the operations ----------

  /** A send that never blocks: a full buffer drops the event. */
  function Offer(c: Chan, ev: Event): Chan {
    if |c.buffer| < BUFFER then c.(buffer := c.buffer + [ev]) else c.(dropped := true)
  }

  function Close(c: Chan, events: nat): Chan {
    c.(open := false, left := events)
  }

  function Delivered(chans: map<nat, Chan>, subs: set<nat>, ev: Event): map<nat, Chan> {
    map ch | ch in chans :: if ch in subs then Offer(chans[ch], ev) else chans[ch]
  }

  function Closed(chans: map<nat, Chan>, subs: set<nat>, events: nat): map<nat, Chan> {
    map ch | ch in chans :: if ch in subs then Close(chans[ch], events) else chans[ch]
  }

  /** Subscriptions whose channel is closed already. */
  function Stale(s: State): set<nat> {
    set ch | ch in s.subs && (ch !in s.chans || !s.chans[ch].open)
  }

  function Publish(s: State, ev: Event): State {
    var events := s.events + [ev];
    var done := s.done || IsTerminal(ev);
    var chans := Delivered(s.chans, s.subs, ev);
    var faults := s.faults + |Stale(s)| + (if done then |Stale(s)| else 0);
    State(events, done, if done then {} else s.subs, if done then Closed(chans, s.subs, |events|) else chans, faults)
  }

  function Subscribe(s: State, ch: nat): State {
    if s.done then s
    else s.(subs := s.subs + {ch}, chans := s.chans[ch := Chan(true, [], [], |s.events|, 0, false)])
  }

  function Unsubscribe(s: State, ch: nat): State {
    if ch !in s.subs || ch !in s.chans then s
    else s.(subs := s.subs - {ch}, chans := s.chans[ch := Close(s.chans[ch], |s.events|)],
            faults := s.faults + if s.chans[ch].open then 0 else 1)
  }

  function Receive(s: State, ch: nat): State {
    if ch !in s.chans || s.chans[ch].buffer == [] then s
    else
      var c := s.chans[ch];
      s.(chans := s.chans[ch := c.(buffer := c.buffer[1..], received := c.received + [c.buffer[0]])])
  }

  datatype Step =
    | DoPublish(ev: Event)
    | DoSubscribe(ch: nat)
    | DoUnsubscribe(ch: nat)
    | DoReceive(ch: nat)

  /** A new subscription gets a new channel. */
  ghost predicate Enabled(s: State, step: Step) {
    step.DoSubscribe? ==> step.ch !in s.chans
  }

  function Next(s: State, step: Step): State {
    match step
    case DoPublish(ev) => Publish(s, ev)
    case DoSubscribe(ch) => Subscribe(s, ch)
    case DoUnsubscribe(ch) => Unsubscribe(s, ch)
    case DoReceive(ch) => Receive(s, ch)
  }

  ghost predicate Legal(s: State, steps: seq<Step>)
    decreases |steps|
  {
    steps == [] || (Enabled(s, steps[0]) && Legal(Next(s, steps[0]), steps[1..]))
  }

  function Run(s: State, steps: seq<Step>): State
    decreases |steps|
  {
    if steps == [] then s else Run(Next(s, steps[0]), steps[1..])
  }

  // ---------- what every run keeps ----------

  /** `a` is `b` with some elements left out. */
  ghost predicate Subsequence(a: seq<Event>, b: seq<Event>) {
    a == [] ||
    (b != [] &&
     (Subsequence(a, b[..|b| - 1])
      || (a[|a| - 1] == b[|b| - 1] && Subsequence(a[..|a| - 1], b[..|b| - 1]))))
  }

  /** All that ever went into the channel. */
  function Fed(c: Chan): seq<Event> {
    c.received + c.buffer
  }

  /** What a subscriber is owed: of the events from its subscription to its end, a subsequence, and all of them in
      order when its buffer never overflowed. */
  ghost predicate Served(events: seq<Event>, c: Chan) {
    var end := if c.open then |events| else c.left;
    && c.joined <= end <= |events| && |c.buffer| <= BUFFER
    && Subsequence(Fed(c), events[c.joined..end])
    && (!c.dropped ==> Fed(c) == events[c.joined..end])
  }

  ghost predicate Inv(s: State) {
    // a channel is open exactly while it is subscribed
    && (forall ch :: ch in s.subs ==> ch in s.chans)
    && (forall ch :: ch in s.chans ==> (s.chans[ch].open <==> ch in s.subs))
    && (s.done ==> s.subs == {})
    && s.faults == 0
    && (forall ch :: ch in s.chans ==> Served(s.events, s.chans[ch]))
  }

  lemma SubsequenceGrows(a: seq<Event>, b: seq<Event>, x: Event)
    requires Subsequence(a, b)
    ensures Subsequence(a, b + [x]) && Subsequence(a + [x], b + [x])
  {
    assert (b + [x])[..|b|] == b && (a + [x])[..|a|] == a;
  }

  /** An open channel is served on when an event is offered to it. */
  lemma OfferServes(events: seq<Event>, c: Chan, ev: Event)
    requires Served(events, c) && c.open
    ensures Served(events + [ev], Offer(c, ev))
  {
    var due := events[c.joined..];
    assert events[c.joined..|events|] == due;
    assert (events + [ev])[c.joined..|events| + 1] == due + [ev];
    SubsequenceGrows(Fed(c), due, ev);
    hide Subsequence, Fed;
    FedByOffer(c, ev);
  }

  lemma FedByOffer(c: Chan, ev: Event)
    ensures Fed(Offer(c, ev)) == if |c.buffer| < BUFFER then Fed(c) + [ev] else Fed(c)
  {
    assert c.received + (c.buffer + [ev]) == c.received + c.buffer + [ev];
  }

  lemma ClosedStaysServed(events: seq<Event>, c: Chan, ev: Event)
    requires Served(events, c) && !c.open
    ensures Served(events + [ev], c)
  {
    assert (events + [ev])[c.joined..c.left] == events[c.joined..c.left];
  }

  lemma PublishKeeps(s: State, ev: Event)
    requires Inv(s)
    ensures Inv(Publish(s, ev))
  {
    hide Served, Offer;
    assert Stale(s) == {};
    var s' := Publish(s, ev);
    forall ch | ch in s'.chans ensures Served(s'.events, s'.chans[ch]) && (s'.chans[ch].open <==> ch in s'.subs) {
      var c := s.chans[ch];
      if ch in s.subs {
        OfferServes(s.events, c, ev);
        OfferKeepsOpen(c, ev);
        CloseServes(s'.events, Offer(c, ev));
      } else {
        ClosedStaysServed(s.events, c, ev);
      }
    }
  }

  lemma OfferKeepsOpen(c: Chan, ev: Event)
    ensures Offer(c, ev).open == c.open
  {
  }

  /** Sending closes nothing. */
  lemma DeliveredOpen(s: State, ev: Event)
    requires Inv(s)
    ensures forall ch :: ch in s.subs ==> ch in s.chans && s.chans[ch].open
    ensures forall ch :: ch in s.subs ==>
              ch in Delivered(s.chans, s.subs, ev) && Delivered(s.chans, s.subs, ev)[ch].open
  {
    hide Served;
  }

  lemma CloseServes(events: seq<Event>, c: Chan)
    requires Served(events, c) && c.open
    ensures Served(events, Close(c, |events|)) && !Close(c, |events|).open
  {
  }

  lemma NextKeeps(s: State, step: Step)
    requires Inv(s) && Enabled(s, step)
    ensures Inv(Next(s, step))
  {
    hide Inv, Publish, Subscribe, Unsubscribe, Receive;
    match step
    case DoPublish(ev) => PublishKeeps(s, ev);
    case DoSubscribe(ch) => SubscribeKeeps(s, ch);
    case DoUnsubscribe(ch) => UnsubscribeKeeps(s, ch);
    case DoReceive(ch) => ReceiveKeeps(s, ch);
  }

  lemma SubscribeKeeps(s: State, ch: nat)
    requires Inv(s) && ch !in s.chans
    ensures Inv(Subscribe(s, ch))
  {
    hide Served;
    JoinServes(s.events);
  }

  /** A new channel is owed nothing yet. */
  lemma JoinServes(events: seq<Event>)
    ensures Served(events, Chan(true, [], [], |events|, 0, false))
  {
    assert events[|events|..|events|] == [];
  }

  lemma UnsubscribeKeeps(s: State, ch: nat)
    requires Inv(s)
    ensures Inv(Unsubscribe(s, ch))
  {
    hide Served;
    if ch in s.subs { CloseServes(s.events, s.chans[ch]); }
  }

  lemma ReceiveKeeps(s: State, ch: nat)
    requires Inv(s)
    ensures Inv(Receive(s, ch))
  {
    hide Served;
    if ch in s.chans && s.chans[ch].buffer != [] { TakeServes(s.events, s.chans[ch]); }
  }

  /** Taking an event out of the buffer loses nothing. */
  lemma TakeServes(events: seq<Event>, c: Chan)
    requires Served(events, c) && c.buffer != []
    ensures Served(events, c.(buffer := c.buffer[1..], received := c.received + [c.buffer[0]]))
  {
    hide Subsequence;
    assert c.received + c.buffer == c.received + [c.buffer[0]] + c.buffer[1..];
  }

  /** In every run: no send on a closed channel, no second close, and every subscriber is served. */
  lemma {:induction false} RunKeeps(s: State, steps: seq<Step>)
    requires Inv(s) && Legal(s, steps)
    ensures Inv(Run(s, steps))
    decreases |steps|
  {
    hide Inv, Next, Enabled;
    if steps != [] {
      NextKeeps(s, steps[0]);
      RunKeeps(Next(s, steps[0]), steps[1..]);
    }
  }

  lemma InitHolds()
    ensures Inv(Init())
  {
  }

  /** A subscriber whose buffer never overflowed and who has drained it after the end holds, with the history it was
      given when it joined, the whole download. */
  lemma NothingMissed(steps: seq<Step>, ch: nat)
    requires Legal(Init(), steps)
    requires var s := Run(Init(), steps);
             ch in s.chans && !s.chans[ch].dropped && s.chans[ch].buffer == []
             && (s.chans[ch].open || s.chans[ch].left == |s.events|)
    ensures var s := Run(Init(), steps);
            s.chans[ch].joined <= |s.events|
            && s.events[..s.chans[ch].joined] + s.chans[ch].received == s.events
  {
    InitHolds();
    RunKeeps(Init(), steps);
    var s := Run(Init(), steps);
    var c := s.chans[ch];
    assert Served(s.events, c);
    assert Fed(c) == c.received;
  }

  // ---------- what subscribers see ----------

  /** A download is over once an event has said "done" or "error", and not before. */
  lemma {:induction false} OverExactly(s: State, steps: seq<Step>)
    requires s.done <==> exists i :: 0 <= i < |s.events| && s.events[i].step in ["done", "error"]
    ensures var t := Run(s, steps);
            t.done <==> exists i :: 0 <= i < |t.events| && t.events[i].step in ["done", "error"]
    decreases |steps|
  {
    if steps != [] {
      var t := Next(s, steps[0]);
      if steps[0].DoPublish? {
        var ev := steps[0].ev;
        assert t.events == s.events + [ev] && t.done == (s.done || IsTerminal(ev));
        hide Publish;
        assert t.events[|s.events|] == ev;
        assert forall i :: 0 <= i < |s.events| ==> t.events[i] == s.events[i];
      }
      OverExactly(t, steps[1..]);
    }
  }

  /** An event reaches every subscriber that has fewer than 64 events waiting, and nobody else; the last one also closes
      the channels. */
  lemma PublishReaches(s: State, ev: Event, ch: nat)
    requires Inv(s) && ch in s.chans
    ensures var t := Publish(s, ev);
            && t.events == s.events + [ev] && ch in t.chans
            && t.chans[ch].buffer ==
                 s.chans[ch].buffer + (if ch in s.subs && |s.chans[ch].buffer| < 64 then [ev] else [])
            && t.chans[ch].received == s.chans[ch].received
            && (t.chans[ch].dropped <==> s.chans[ch].dropped || (ch in s.subs && |s.chans[ch].buffer| >= 64))
            && (t.chans[ch].open <==> ch in s.subs && !s.done && ev.step != "done" && ev.step != "error")
  {
    hide Served;
  }

  /** A subscriber takes the events that wait for it one by one, first come first. */
  lemma TakesInOrder(s: State, ch: nat)
    requires ch in s.chans
    ensures var was, c := s.chans[ch], Receive(s, ch).chans[ch];
            && c.received + c.buffer == was.received + was.buffer
            && |c.received| == |was.received| + (if was.buffer == [] then 0 else 1)
  {
    var c := s.chans[ch];
    if c.buffer != [] { assert c.buffer == [c.buffer[0]] + c.buffer[1..]; }
  }

  /** A new subscriber has all events, in its history or in those to come; leaving closes its channel and no other. */
  lemma JoinAndLeave(s: State, ch: nat, other: nat)
    requires Inv(s) && other != ch
    ensures ch !in s.chans && !s.done ==>
              var t := Subscribe(s, ch);
              && ch in t.subs && t.chans == s.chans[ch := t.chans[ch]] && t.events == s.events
              && t.chans[ch].open && t.chans[ch].buffer == t.chans[ch].received == []
              && t.chans[ch].joined == |s.events|
    ensures s.done ==> Subscribe(s, ch) == s
    ensures ch in s.chans ==>
              var t := Unsubscribe(s, ch);
              && ch !in t.subs && !t.chans[ch].open && t.chans[ch].buffer == s.chans[ch].buffer
              && (other in s.chans ==> t.chans[other] == s.chans[other]) && (other in s.subs ==> other in t.subs)
  {
    hide Served;
  }

  // ---------- the download as the program keeps it ----------

  class Task {
    var events: seq<Event>
    var done: bool
    var subs: set<nat>
    var chans: map<nat, Chan>
    ghost var faults: nat

    ghost function Abs(): State
      reads this
    {
      State(events, done, subs, chans, faults)
    }

    constructor ()
      ensures Abs() == Init() && Inv(Abs())
    {
      events, done, subs, chans, faults := [], false, {}, map[], 0;
    }

    /** Sends to every subscriber, in any order and never to a closed channel. */
    method Deliver(ev: Event)
      requires forall ch :: ch in subs ==> ch in chans && chans[ch].open
      modifies this`chans
      ensures chans == Delivered(old(chans), subs, ev)
    {
      hide Offer;
      ghost var was := chans;
      var todo := subs;
      while todo != {}
        invariant todo <= subs && chans.Keys == was.Keys
        invariant forall ch :: ch in was ==>
                    chans[ch] == if ch in subs && ch !in todo then Offer(was[ch], ev) else was[ch]
        decreases todo
      {
        var ch :| ch in todo;
        assert chans[ch].open;
        chans := chans[ch := Offer(chans[ch], ev)];
        todo := todo - {ch};
      }
    }

    /** Closes every subscribed channel, none of them for the second time. */
    method CloseAll()
      requires forall ch :: ch in subs ==> ch in chans && chans[ch].open
      modifies this`chans, this`subs
      ensures chans == Closed(old(chans), old(subs), |events|) && subs == {}
    {
      hide Close;
      ghost var was := chans;
      var todo := subs;
      while todo != {}
        invariant todo <= subs == old(subs) && chans.Keys == was.Keys
        invariant forall ch :: ch in was ==>
                    chans[ch] == if ch in subs && ch !in todo then Close(was[ch], |events|) else was[ch]
        decreases todo
      {
        var ch :| ch in todo;
        assert chans[ch].open;
        chans := chans[ch := Close(chans[ch], |events|)];
        todo := todo - {ch};
      }
      subs := {};
    }

    method PublishEvent(ev: Event)
      requires Inv(Abs())
      modifies this
      ensures Inv(Abs()) && Abs() == Publish(old(Abs()), ev)
    {
      hide Offer, Close, Served;
      PublishKeeps(Abs(), ev);
      assert Stale(Abs()) == {};
      DeliveredOpen(Abs(), ev);
      hide Inv;
      events := events + [ev];
      if IsTerminal(ev) { done := true; }
      Deliver(ev);
      if done { CloseAll(); }
    }

    /** The events so far, and a channel for the rest unless the download is over. */
    method SubscribeNew(ch: nat) returns (history: seq<Event>, subscribed: bool)
      requires Inv(Abs()) && ch !in chans
      modifies this
      ensures Inv(Abs()) && Abs() == Subscribe(old(Abs()), ch)
      ensures history == events == old(events) && subscribed == !old(done)
    {
      NextKeeps(Abs(), DoSubscribe(ch));
      history := events;
      if done { return history, false; }
      chans := chans[ch := Chan(true, [], [], |events|, 0, false)];
      subs := subs + {ch};
      subscribed := true;
    }

    method UnsubscribeOne(ch: nat)
      requires Inv(Abs())
      modifies this
      ensures Inv(Abs()) && Abs() == Unsubscribe(old(Abs()), ch)
    {
      NextKeeps(Abs(), DoUnsubscribe(ch));
      if ch in subs {
        subs := subs - {ch};
        chans := chans[ch := Close(chans[ch], |events|)];
      }
    }
  }
}
