/**
 The event bus (internal/eventbus/eventbus.go): bounded fan-out channels under a read-write
 lock.  Publishers hold the read lock and send to one subscriber per step, so any number of
 them interleave; subscribing, unsubscribing and closing need the lock for themselves.
 */
module EventBus {

  const CAPACITY: nat := 8

  datatype Sub = Sub(address: nat)
  datatype Chan<E> = Chan(buffer: seq<E>, open: bool)

  /** `panicked` records a send on, or a second close of, a closed channel. */
  datatype Bus<E> = Bus(subs: seq<Sub>, closed: bool, chans: map<Sub, Chan<E>>, panicked: bool)

  // ----- what each critical section does

  function IsOpen<E>(b: Bus<E>, c: Sub): bool { c in b.chans && b.chans[c].open }

  /** The non-blocking send of Publish. */
  function OfferTo<E>(b: Bus<E>, c: Sub, e: E): Bus<E> {
    if !IsOpen(b, c) then b.(panicked := true)
    else if |b.chans[c].buffer| < CAPACITY then
      b.(chans := b.chans[c := b.chans[c].(buffer := b.chans[c].buffer + [e])])
    else b
  }

  function CloseOne<E>(b: Bus<E>, c: Sub): Bus<E> {
    if !IsOpen(b, c) then b.(panicked := true)
    else b.(chans := b.chans[c := b.chans[c].(open := false)])
  }

  function CloseEach<E>(b: Bus<E>, list: seq<Sub>): Bus<E> {
    if list == [] then b else CloseOne(CloseEach(b, list[..|list| - 1]), list[|list| - 1])
  }

  function PublishEach<E>(b: Bus<E>, list: seq<Sub>, e: E): Bus<E> {
    if list == [] then b else OfferTo(PublishEach(b, list[..|list| - 1], e), list[|list| - 1], e)
  }

  function SubscribeTo<E>(b: Bus<E>, c: Sub): Bus<E> {
    if b.closed then b.(chans := b.chans[c := Chan([], false)])
    else b.(chans := b.chans[c := Chan([], true)], subs := b.subs + [c])
  }

  /** Position of a subscriber, or the length of the list. */
  function Find(subs: seq<Sub>, c: Sub): (i: nat)
    ensures i <= |subs| && (i < |subs| ==> subs[i] == c) && c !in subs[..i]
  {
    if subs == [] then 0
    else
      var n := |subs| - 1;
      var i := Find(subs[..n], c);
      if i < n then assert subs[..n][..i] == subs[..i]; i
      else
        assert subs[..n][..i] == subs[..n];
        if subs[n] == c then n
        else
          assert subs == subs[..n] + [subs[n]];
          assert subs[..n + 1] == subs;
          n + 1
  }

  function UnsubscribeFrom<E>(b: Bus<E>, c: Sub): Bus<E> {
    var i := Find(b.subs, c);
    if i == |b.subs| then b
    else
      var rest := b.(subs := b.subs[..i] + b.subs[i + 1..]);
      if b.closed then rest else CloseOne(rest, c)
  }

  function CloseBus<E>(b: Bus<E>): Bus<E> {
    if b.closed then b else CloseEach(b.(closed := true), b.subs).(subs := [])
  }

  /**
   The Bus object; every method is one critical section.  `Valid` says that nothing has panicked,
   that the listed channels are exactly the open ones and that no buffer exceeds its capacity.
   */
  class Broker<E> {
    var subs: seq<Sub>
    var closed: bool
    var chans: map<Sub, Chan<E>>
    ghost var panicked: bool

    ghost predicate Valid()
      reads this
    {
      BusOk(View())
    }

    constructor ()
      ensures Valid() && View() == Bus([], false, map[], false)
    {
      subs, closed, chans, panicked := [], false, map[], false;
    }

    ghost function View(): Bus<E>
      reads this
    {
      Bus(subs, closed, chans, panicked)
    }

    method Publish(e: E)
      requires Valid()
      modifies this
      ensures Valid() && subs == old(subs) && closed == old(closed)
      ensures View() == if old(View()).closed then old(View()) else PublishEach(old(View()), old(subs), e)
      ensures forall c :: BufferOf(View(), c) ==
                var before := old(BufferOf(View(), c));
                if c in subs && |before| < 8 then before + [e] else before
    {
      PublishEachOffers(View(), subs, e);
      if closed {
        return;
      }
      for i := 0 to |subs|
        invariant subs == old(subs) && View() == PublishEach(old(View()), old(subs)[..i], e)
      {
        assert old(subs)[..i + 1][..i] == old(subs)[..i];
        var c := subs[i];
        if c in chans && chans[c].open {
          if |chans[c].buffer| < CAPACITY {
            chans := chans[c := chans[c].(buffer := chans[c].buffer + [e])];
          }
        } else {
          panicked := true;
        }
      }
      assert old(subs)[..|old(subs)|] == old(subs);
    }

    /** `c` is the channel that has just been made, so nobody has it yet. */
    method Subscribe(c: Sub)
      requires Valid() && c !in chans
      modifies this
      ensures Valid() && View() == SubscribeTo(old(View()), c)
      ensures c in chans && BufferOf(View(), c) == [] && closed == old(closed)
      ensures IsOpen(View(), c) <==> !closed
      ensures subs == if closed then [] else old(subs) + [c]
      ensures forall d :: d != c ==> (d in chans <==> d in old(chans)) && (d in chans ==> chans[d] == old(chans)[d])
    {
      SubscribeOk(View(), c);
      if closed {
        chans := chans[c := Chan([], false)];
      } else {
        chans := chans[c := Chan([], true)];
        subs := subs + [c];
      }
    }

    /** close(c), which panics when the channel is closed already. */
    method CloseChannel(c: Sub)
      modifies this
      ensures View() == CloseOne(old(View()), c)
      ensures panicked == (old(panicked) || !old(IsOpen(View(), c)))
    {
      if c in chans && chans[c].open {
        chans := chans[c := chans[c].(open := false)];
      } else {
        panicked := true;
      }
    }

    method Unsubscribe(c: Sub)
      requires Valid()
      modifies this
      ensures Valid() && View() == UnsubscribeFrom(old(View()), c)
      ensures !IsOpen(View(), c) && forall d :: d in subs <==> d in old(subs) && d != c
    {
      UnsubscribeOk(View(), c);
      UnsubscribedIsGone(View(), c);
      for i := 0 to |subs|
        invariant View() == old(View()) && c !in subs[..i]
      {
        if subs[i] == c {
          FoundAt(subs, c, i);
          subs := subs[..i] + subs[i + 1..];
          if !closed {
            CloseChannel(c);
          }
          return;
        }
      }
      assert subs[..|subs|] == subs;
    }

    method Close()
      requires Valid()
      modifies this
      ensures Valid() && View() == CloseBus(old(View()))
      ensures closed && subs == [] && forall c :: !IsOpen(View(), c)
    {
      CloseOk(View());
      if closed {
        return;
      }
      closed := true;
      ghost var start := View();
      for i := 0 to |subs|
        invariant subs == old(subs) && closed && View() == CloseEach(start, old(subs)[..i])
      {
        assert old(subs)[..i + 1][..i] == old(subs)[..i];
        CloseEachKeeps(start, old(subs)[..i]);
        CloseChannel(subs[i]);
      }
      assert old(subs)[..|old(subs)|] == old(subs);
      CloseEachKeeps(start, old(subs));
      subs := [];
    }
  }

  /** A publication reaches the buffer of every listed channel once, unless it is full, and no other. */
  lemma {:induction false} PublishTo<E>(b: Bus<E>, list: seq<Sub>, e: E, c: Sub)
    requires BusOk(b) && DistinctSubs(list) && forall d :: d in list ==> d in b.subs
    ensures var b' := PublishEach(b, list, e);
            && BusOk(b') && b'.subs == b.subs && b'.closed == b.closed
            && BufferOf(b', c) == (var before := BufferOf(b, c);
                                   if c in list && |before| < CAPACITY then before + [e] else before)
  {
    if list != [] {
      var n := |list| - 1;
      assert list == list[..n] + [list[n]];
      PublishTo(b, list[..n], e, c);
      OfferOk(PublishEach(b, list[..n], e), list[n], e);
      OfferReaches(PublishEach(b, list[..n], e), list[n], e, c);
    }
  }

  lemma OfferReaches<E>(b: Bus<E>, d: Sub, e: E, c: Sub)
    requires BusOk(b) && d in b.subs
    ensures OfferTo(b, d, e).subs == b.subs && OfferTo(b, d, e).closed == b.closed
    ensures BufferOf(OfferTo(b, d, e), c) == (var before := BufferOf(b, c);
                                              if c == d && |before| < CAPACITY then before + [e] else before)
  {
    assert IsOpen(b, d);
  }

  lemma PublishEachOffers<E>(b: Bus<E>, list: seq<Sub>, e: E)
    requires BusOk(b) && DistinctSubs(list) && forall d :: d in list ==> d in b.subs
    ensures var b' := PublishEach(b, list, e);
            && BusOk(b') && b'.subs == b.subs && b'.closed == b.closed
            && forall c :: BufferOf(b', c) == (var before := BufferOf(b, c);
                                               if c in list && |before| < CAPACITY then before + [e] else before)
  {
    hide BusOk, PublishEach, BufferOf;
    PublishTo(b, list, e, Sub(0));
    forall c ensures BufferOf(PublishEach(b, list, e), c) == (var before := BufferOf(b, c);
                                                              if c in list && |before| < CAPACITY then before + [e] else before) {
      PublishTo(b, list, e, c);
    }
  }

  lemma UnsubscribedIsGone<E>(b: Bus<E>, c: Sub)
    requires BusOk(b)
    ensures var b' := UnsubscribeFrom(b, c);
            !IsOpen(b', c) && forall d :: d in b'.subs <==> d in b.subs && d != c
  {
    var i := Find(b.subs, c);
    assert c in b.subs <==> IsOpen(b, c);
    if i < |b.subs| {
      forall d ensures d in b.subs[..i] + b.subs[i + 1..] <==> d in b.subs && d != c {
        WithoutOne(b.subs, i, d);
      }
    } else {
      assert b.subs[..i] == b.subs;
    }
  }

  lemma FoundAt(subs: seq<Sub>, c: Sub, i: nat)
    requires i < |subs| && subs[i] == c && c !in subs[..i]
    ensures Find(subs, c) == i
  {
    assert forall k :: 0 <= k < i ==> subs[k] == subs[..i][k] != c;
    assert forall k :: 0 <= k < Find(subs, c) ==> subs[k] == subs[..Find(subs, c)][k];
  }

  lemma {:induction false} CloseEachKeeps<E>(b: Bus<E>, list: seq<Sub>)
    ensures CloseEach(b, list).subs == b.subs && CloseEach(b, list).closed == b.closed
  {
    if list != [] {
      CloseEachKeeps(b, list[..|list| - 1]);
    }
  }

  // ----- interleavings

  datatype Pub = Pub(number: nat)
  datatype Publication<E> = Publication(event: E, next: nat)

  /** `pubs` are the publishers that hold the read lock, `began` all there have been. */
  datatype State<E> = State(bus: Bus<E>, pubs: map<Pub, Publication<E>>, began: set<Pub>)

  datatype Step<E> =
    | Begin(p: Pub, e: E)
    | Send(p: Pub)
    | End(p: Pub)
    | Subscribe(c: Sub)
    | Unsubscribe(c: Sub)
    | Close
    | Receive(c: Sub)

  /** A publisher with a subscriber left to send to. */
  ghost predicate CanSend<E>(s: State<E>, p: Pub) {
    p in s.pubs && !s.bus.closed && s.pubs[p].next < |s.bus.subs|
  }

  ghost function Target<E>(s: State<E>, p: Pub): Sub
    requires CanSend(s, p)
  {
    s.bus.subs[s.pubs[p].next]
  }

  ghost predicate CanReceive<E>(s: State<E>, c: Sub) { c in s.bus.chans && s.bus.chans[c].buffer != [] }

  /** A step that is not enabled changes nothing; the writers are enabled when no publisher holds the lock. */
  ghost function Next<E>(s: State<E>, step: Step<E>): State<E> {
    match step
    case Begin(p, e) =>
      if p in s.began then s else s.(pubs := s.pubs[p := Publication(e, 0)], began := s.began + {p})
    case Send(p) =>
      if CanSend(s, p) then
        var pub := s.pubs[p];
        s.(bus := OfferTo(s.bus, Target(s, p), pub.event), pubs := s.pubs[p := pub.(next := pub.next + 1)])
      else s
    case End(p) =>
      if p in s.pubs && !CanSend(s, p) then s.(pubs := s.pubs - {p}) else s
    case Subscribe(c) => if s.pubs == map[] && c !in s.bus.chans then s.(bus := SubscribeTo(s.bus, c)) else s
    case Unsubscribe(c) => if s.pubs == map[] then s.(bus := UnsubscribeFrom(s.bus, c)) else s
    case Close => if s.pubs == map[] then s.(bus := CloseBus(s.bus)) else s
    case Receive(c) =>
      if CanReceive(s, c) then
        s.(bus := s.bus.(chans := s.bus.chans[c := s.bus.chans[c].(buffer := s.bus.chans[c].buffer[1..])]))
      else s
  }

  ghost function Exec<E>(s: State<E>, steps: seq<Step<E>>): State<E> {
    if steps == [] then s else Next(Exec(s, steps[..|steps| - 1]), steps[|steps| - 1])
  }

  ghost function NewBus<E>(): State<E> { State(Bus([], false, map[], false), map[], {}) }

  // ----- safety

  ghost predicate DistinctSubs(subs: seq<Sub>) {
    forall i, j :: 0 <= i < j < |subs| ==> subs[i] != subs[j]
  }

  /** The listed channels are exactly the open ones, and no buffer exceeds its capacity. */
  ghost predicate BusOk<E>(b: Bus<E>) {
    && !b.panicked
    && DistinctSubs(b.subs)
    && (forall c :: c in b.subs <==> IsOpen(b, c))
    && (forall c :: c in b.chans ==> |b.chans[c].buffer| <= CAPACITY)
    && (b.closed ==> b.subs == [])
  }

  lemma OfferOk<E>(b: Bus<E>, c: Sub, e: E)
    requires BusOk(b) && c in b.subs
    ensures BusOk(OfferTo(b, c, e))
  {
    var b' := OfferTo(b, c, e);
    forall d ensures d in b'.subs <==> IsOpen(b', d) {
      assert d in b.subs <==> IsOpen(b, d);
    }
  }

  lemma SubscribeOk<E>(b: Bus<E>, c: Sub)
    requires BusOk(b) && c !in b.chans
    ensures BusOk(SubscribeTo(b, c))
  {
    var b' := SubscribeTo(b, c);
    assert c !in b.subs;
    forall d ensures d in b'.subs <==> IsOpen(b', d) {
      assert d in b.subs <==> IsOpen(b, d);
    }
  }

  lemma UnsubscribeOk<E>(b: Bus<E>, c: Sub)
    requires BusOk(b)
    ensures BusOk(UnsubscribeFrom(b, c))
  {
    var i, b' := Find(b.subs, c), UnsubscribeFrom(b, c);
    if i < |b.subs| {
      assert c in b.subs;
      forall d ensures d in b'.subs <==> d in b.subs && d != c {
        WithoutOne(b.subs, i, d);
      }
      forall d ensures d in b'.subs <==> IsOpen(b', d) {
        assert d in b.subs <==> IsOpen(b, d);
      }
    }
  }

  lemma WithoutOne(subs: seq<Sub>, i: nat, d: Sub)
    requires DistinctSubs(subs) && i < |subs|
    ensures d in subs[..i] + subs[i + 1..] <==> d in subs && d != subs[i]
  {
    assert subs == subs[..i] + [subs[i]] + subs[i + 1..];
    if d in subs[..i] {
      var k :| 0 <= k < i && subs[..i][k] == d;
    }
    if d in subs[i + 1..] {
      var k :| 0 <= k < |subs| - i - 1 && subs[i + 1..][k] == d;
      assert subs[i + 1 + k] == d;
    }
  }

  /** Closing the listed channels one by one never meets a closed one. */
  lemma {:induction false} CloseEachOk<E>(b: Bus<E>, list: seq<Sub>)
    requires !b.panicked && DistinctSubs(list) && forall c :: c in list ==> IsOpen(b, c)
    ensures var b' := CloseEach(b, list);
            && !b'.panicked && b'.chans.Keys == b.chans.Keys
            && (forall c :: c in b.chans ==> b'.chans[c].buffer == b.chans[c].buffer)
            && (forall c :: IsOpen(b', c) <==> IsOpen(b, c) && c !in list)
  {
    if list != [] {
      var n := |list| - 1;
      assert list == list[..n] + [list[n]];
      CloseEachOk(b, list[..n]);
      assert list[n] !in list[..n];
    }
  }

  lemma CloseOk<E>(b: Bus<E>)
    requires BusOk(b)
    ensures BusOk(CloseBus(b))
  {
    if !b.closed {
      var start := b.(closed := true);
      forall c ensures IsOpen(start, c) <==> c in b.subs {
        assert c in b.subs <==> IsOpen(b, c);
      }
      CloseEachOk(start, b.subs);
      forall c ensures !IsOpen(CloseBus(b), c) {
        assert IsOpen(CloseBus(b), c) <==> IsOpen(CloseEach(start, b.subs), c);
      }
    }
  }

  ghost predicate StateOk<E>(s: State<E>) {
    && BusOk(s.bus)
    && s.pubs.Keys <= s.began
    && forall p :: p in s.pubs ==> s.pubs[p].next <= |s.bus.subs|
  }

  lemma OfferKeepsSubs<E>(b: Bus<E>, c: Sub, e: E)
    ensures OfferTo(b, c, e).subs == b.subs && OfferTo(b, c, e).closed == b.closed
  {
  }

  lemma StepIsSafe<E>(s: State<E>, step: Step<E>)
    requires StateOk(s)
    ensures StateOk(Next(s, step))
  {
    hide BusOk, OfferTo, SubscribeTo, UnsubscribeFrom, CloseBus;
    match step
    case Begin(p, e) =>
    case Send(p) =>
      if CanSend(s, p) {
        OfferOk(s.bus, Target(s, p), s.pubs[p].event);
        OfferKeepsSubs(s.bus, Target(s, p), s.pubs[p].event);
      }
    case End(p) =>
    case Subscribe(c) => if c !in s.bus.chans { SubscribeOk(s.bus, c); }
    case Unsubscribe(c) => UnsubscribeOk(s.bus, c);
    case Close => CloseOk(s.bus);
    case Receive(c) => if CanReceive(s, c) { ReceiveOk(s.bus, c); }
  }

  lemma ReceiveOk<E>(b: Bus<E>, c: Sub)
    requires BusOk(b) && c in b.chans && b.chans[c].buffer != []
    ensures BusOk(b.(chans := b.chans[c := b.chans[c].(buffer := b.chans[c].buffer[1..])]))
  {
    var b' := b.(chans := b.chans[c := b.chans[c].(buffer := b.chans[c].buffer[1..])]);
    forall d ensures d in b'.subs <==> IsOpen(b', d) {
      assert d in b.subs <==> IsOpen(b, d);
    }
  }

  /** In every interleaving: no send on a closed channel, no double close, every listed channel open. */
  lemma {:induction false} RunsAreSafe<E>(steps: seq<Step<E>>)
    ensures StateOk(Exec(NewBus(), steps))
  {
    hide Next;
    if steps != [] {
      var n := |steps| - 1;
      RunsAreSafe(steps[..n]);
      StepIsSafe(Exec(NewBus(), steps[..n]), steps[n]);
    }
  }

  /** Once closed, the list stays empty and a new subscriber gets a closed channel. */
  lemma ClosedForGood<E>(steps: seq<Step<E>>, more: seq<Step<E>>, c: Sub)
    requires Exec(NewBus(), steps).bus.closed
    ensures var b := Exec(NewBus(), steps + more).bus;
            b.closed && b.subs == [] && !IsOpen(SubscribeTo(b, c), c)
    decreases |more|
  {
    RunsAreSafe(steps + more);
    StaysClosed(NewBus(), steps, more);
  }

  lemma {:induction false} StaysClosed<E>(s: State<E>, steps: seq<Step<E>>, more: seq<Step<E>>)
    requires Exec(s, steps).bus.closed
    ensures Exec(s, steps + more).bus.closed
    decreases |more|
  {
    hide Next;
    if more == [] {
      assert steps + more == steps;
    } else {
      var n := |more| - 1;
      StaysClosed(s, steps, more[..n]);
      var all := steps + more;
      assert all[..|all| - 1] == steps + more[..n];
      ClosedStep(Exec(s, steps + more[..n]), more[n]);
    }
  }

  lemma ClosedStep<E>(s: State<E>, step: Step<E>)
    requires s.bus.closed
    ensures Next(s, step).bus.closed
  {
  }

  // ----- delivery

  /** One send to a subscriber: by whom, what, and whether the buffer was full. */
  datatype Offer<E> = Offer(p: Pub, event: E, full: bool)

  function BufferOf<E>(b: Bus<E>, c: Sub): seq<E> { if c in b.chans then b.chans[c].buffer else [] }

  ghost predicate OffersNow<E>(s: State<E>, step: Step<E>, c: Sub) {
    step.Send? && CanSend(s, step.p) && Target(s, step.p) == c
  }

  /** The events offered to a subscriber in a run, in order. */
  ghost function Offers<E>(steps: seq<Step<E>>, c: Sub): seq<Offer<E>> {
    if steps == [] then []
    else
      var n := |steps| - 1;
      var s := Exec(NewBus(), steps[..n]);
      Offers(steps[..n], c)
      + if OffersNow(s, steps[n], c) then
          [Offer(steps[n].p, s.pubs[steps[n].p].event, |BufferOf(s.bus, c)| == 8)]
        else []
  }

  /** The events a subscriber has taken out of its channel, in order. */
  ghost function Received<E>(steps: seq<Step<E>>, c: Sub): seq<E> {
    if steps == [] then []
    else
      var n := |steps| - 1;
      var s := Exec(NewBus(), steps[..n]);
      Received(steps[..n], c) + if steps[n] == Receive(c) && CanReceive(s, c) then [BufferOf(s.bus, c)[0]] else []
  }

  /** The offers that did not meet a full buffer. */
  ghost function Accepted<E>(offers: seq<Offer<E>>): seq<E> {
    if offers == [] then []
    else
      var n := |offers| - 1;
      Accepted(offers[..n]) + if offers[n].full then [] else [offers[n].event]
  }

  lemma AcceptedSnoc<E>(offers: seq<Offer<E>>, o: Offer<E>)
    ensures Accepted(offers + [o]) == Accepted(offers) + if o.full then [] else [o.event]
  {
    assert (offers + [o])[..|offers|] == offers;
  }

  /** What a step does to the buffer of one subscriber. */
  lemma BufferStep<E>(s: State<E>, step: Step<E>, c: Sub)
    requires StateOk(s)
    ensures var before, after := BufferOf(s.bus, c), BufferOf(Next(s, step).bus, c);
            if OffersNow(s, step, c) then
              |before| <= CAPACITY && after == if |before| == CAPACITY then before else before + [s.pubs[step.p].event]
            else if step == Receive(c) && CanReceive(s, c) then before != [] && after == before[1..]
            else after == before
  {
    match step
    case Begin(p, e) =>
    case Send(p) =>
      if CanSend(s, p) {
        assert Target(s, p) in s.bus.subs;
        assert IsOpen(s.bus, Target(s, p));
      }
    case End(p) =>
    case Subscribe(d) =>
    case Unsubscribe(d) =>
    case Close =>
      if !s.bus.closed {
        CloseEachBuffers(s.bus.(closed := true), s.bus.subs, c);
      }
    case Receive(d) =>
  }

  lemma {:induction false} CloseEachBuffers<E>(b: Bus<E>, list: seq<Sub>, c: Sub)
    ensures BufferOf(CloseEach(b, list), c) == BufferOf(b, c)
  {
    if list != [] {
      CloseEachBuffers(b, list[..|list| - 1], c);
    }
  }

  lemma OfferKeepsOrder<E>(got: seq<E>, before: seq<E>, offers: seq<Offer<E>>, o: Offer<E>)
    requires got + before == Accepted(offers)
    ensures got + (if o.full then before else before + [o.event]) == Accepted(offers + [o])
  {
    AcceptedSnoc(offers, o);
  }

  lemma ReceiveKeepsOrder<E>(got: seq<E>, before: seq<E>)
    requires before != []
    ensures got + [before[0]] + before[1..] == got + before
  {
  }

  /** The offers and receipts of a run, by its last step. */
  lemma LastOffer<E>(steps: seq<Step<E>>, step: Step<E>, c: Sub)
    ensures var s, all := Exec(NewBus(), steps), steps + [step];
            && Exec(NewBus(), all) == Next(s, step)
            && Offers(all, c) == Offers(steps, c)
               + (if OffersNow(s, step, c) then
                    [Offer(step.p, s.pubs[step.p].event, |BufferOf(s.bus, c)| == CAPACITY)]
                  else [])
            && Received(all, c) == Received(steps, c)
               + (if step == Receive(c) && CanReceive(s, c) then [BufferOf(s.bus, c)[0]] else [])
  {
    hide Next;
    var all := steps + [step];
    assert all[..|all| - 1] == steps;
  }

  /**
   In every run, what a subscriber has received followed by what waits in its buffer is exactly
   the offers that did not meet a full buffer, in order; and the buffer holds at most 8 events.
   */
  lemma {:induction false} DeliveryIsInOrder<E>(steps: seq<Step<E>>, c: Sub)
    ensures Received(steps, c) + BufferOf(Exec(NewBus(), steps).bus, c) == Accepted(Offers(steps, c))
    ensures |BufferOf(Exec(NewBus(), steps).bus, c)| <= 8
  {
    BufferBound(steps, c);
    if steps == [] {
      return;
    }
    var n := |steps| - 1;
    hide Next, BusOk, StateOk, Exec, Offers, Received, Accepted, OffersNow, BufferOf;
    DeliveryIsInOrder(steps[..n], c);
    DeliveryStep(steps[..n], steps[n], c);
    assert steps[..n] + [steps[n]] == steps;
  }

  lemma BufferBound<E>(steps: seq<Step<E>>, c: Sub)
    ensures |BufferOf(Exec(NewBus(), steps).bus, c)| <= 8
  {
    hide Exec;
    RunsAreSafe(steps);
  }

  lemma DeliveryStep<E>(steps: seq<Step<E>>, step: Step<E>, c: Sub)
    requires Received(steps, c) + BufferOf(Exec(NewBus(), steps).bus, c) == Accepted(Offers(steps, c))
    ensures var all := steps + [step];
            Received(all, c) + BufferOf(Exec(NewBus(), all).bus, c) == Accepted(Offers(all, c))
  {
    hide Next, BusOk, StateOk, Exec, Offers, Received, Accepted, BufferOf;
    var s := Exec(NewBus(), steps);
    RunsAreSafe(steps);
    BufferStep(s, step, c);
    LastOffer(steps, step, c);
    var before := BufferOf(s.bus, c);
    if OffersNow(s, step, c) {
      OfferKeepsOrder(Received(steps, c), before, Offers(steps, c),
                      Offer(step.p, s.pubs[step.p].event, |before| == CAPACITY));
    } else if step == Receive(c) && CanReceive(s, c) {
      ReceiveKeepsOrder(Received(steps, c), before);
      assert Offers(steps, c) + [] == Offers(steps, c);
    } else {
      assert Offers(steps, c) + [] == Offers(steps, c);
    }
  }

  lemma ExecLast<E>(s: State<E>, steps: seq<Step<E>>)
    requires steps != []
    ensures Exec(s, steps) == Next(Exec(s, steps[..|steps| - 1]), steps[|steps| - 1])
  {
  }

  // ----- every publication reaches every subscriber once

  /** How often a publication was offered to a subscriber. */
  ghost function OfferedBy<E>(offers: seq<Offer<E>>, p: Pub): nat {
    if offers == [] then 0
    else OfferedBy(offers[..|offers| - 1], p) + if offers[|offers| - 1].p == p then 1 else 0
  }

  lemma OfferedBySnoc<E>(offers: seq<Offer<E>>, o: Offer<E>, p: Pub)
    ensures OfferedBy(offers + [o], p) == OfferedBy(offers, p) + if o.p == p then 1 else 0
  {
    assert (offers + [o])[..|offers|] == offers;
  }

  /** A running publication has been offered once to the subscribers it has passed and to nobody else. */
  ghost predicate Progress<E>(s: State<E>, steps: seq<Step<E>>, p: Pub, c: Sub) {
    && (p in s.pubs ==> s.pubs[p].next <= |s.bus.subs|
                        && OfferedBy(Offers(steps, c), p) == if c in s.bus.subs[..s.pubs[p].next] then 1 else 0)
    && (p !in s.began ==> OfferedBy(Offers(steps, c), p) == 0)
  }

  lemma LockKeepsSubs<E>(s: State<E>, step: Step<E>)
    requires s.pubs != map[]
    ensures Next(s, step).bus.subs == s.bus.subs && Next(s, step).bus.closed == s.bus.closed
  {
  }

  lemma ProgressStep<E>(s: State<E>, steps: seq<Step<E>>, step: Step<E>, p: Pub, c: Sub)
    requires s == Exec(NewBus(), steps) && StateOk(s) && Progress(s, steps, p, c)
    ensures Progress(Next(s, step), steps + [step], p, c)
  {
    var all, t := steps + [step], Next(s, step);
    assert all[..|all| - 1] == steps;
    var before := Offers(steps, c);
    if OffersNow(s, step, c) {
      var o := Offer(step.p, s.pubs[step.p].event, |BufferOf(s.bus, c)| == CAPACITY);
      assert Offers(all, c) == before + [o];
      OfferedBySnoc(before, o, p);
    } else {
      assert Offers(all, c) == before;
    }
    if p in s.pubs {
      LockKeepsSubs(s, step);
      if step == Send(p) && CanSend(s, p) {
        SentOnce(s.bus.subs, s.pubs[p].next, c);
      }
    }
  }

  lemma SentOnce(subs: seq<Sub>, n: nat, c: Sub)
    requires DistinctSubs(subs) && n < |subs|
    ensures c in subs[..n + 1] <==> c in subs[..n] || c == subs[n]
    ensures c == subs[n] ==> c !in subs[..n]
  {
    assert subs[..n + 1] == subs[..n] + [subs[n]];
  }

  lemma {:induction false} PublicationsProgress<E>(steps: seq<Step<E>>, p: Pub, c: Sub)
    ensures Progress(Exec(NewBus(), steps), steps, p, c)
  {
    if steps != [] {
      var n := |steps| - 1;
      PublicationsProgress(steps[..n], p, c);
      RunsAreSafe(steps[..n]);
      hide Next, StateOk, BusOk, Progress;
      ProgressStep(Exec(NewBus(), steps[..n]), steps[..n], steps[n], p, c);
      assert steps[..n] + [steps[n]] == steps;
      ExecLast(NewBus(), steps);
    }
  }

  /** A publication that can end has been offered exactly once to every listed subscriber and to nobody else. */
  lemma PublicationReachesEverybodyOnce<E>(steps: seq<Step<E>>, p: Pub, c: Sub)
    requires var s := Exec(NewBus(), steps); p in s.pubs && !CanSend(s, p)
    ensures OfferedBy(Offers(steps, c), p) == if c in Exec(NewBus(), steps).bus.subs then 1 else 0
  {
    var s := Exec(NewBus(), steps);
    PublicationsProgress(steps, p, c);
    RunsAreSafe(steps);
    if s.bus.closed {
      assert s.bus.subs == [];
    } else {
      assert s.bus.subs[..s.pubs[p].next] == s.bus.subs;
    }
  }

  /** While a publication runs, the list of subscribers does not change. */
  lemma {:induction false} SubscribersStandStill<E>(s: State<E>, steps: seq<Step<E>>, p: Pub)
    requires p in s.pubs && p in Exec(s, steps).pubs && p in s.began
    ensures Exec(s, steps).bus.subs == s.bus.subs
  {
    if steps != [] {
      var n := |steps| - 1;
      var t := Exec(s, steps[..n]);
      BeganForGood(s, steps[..n], p);
      assert p in t.pubs;
      SubscribersStandStill(s, steps[..n], p);
      LockKeepsSubs(t, steps[n]);
    }
  }

  /** A publication that has begun is not begun again. */
  lemma {:induction false} BeganForGood<E>(s: State<E>, steps: seq<Step<E>>, p: Pub)
    requires p in s.began
    ensures p in Exec(s, steps).began
    ensures forall step :: p in Next(Exec(s, steps), step).pubs ==> p in Exec(s, steps).pubs
  {
    if steps != [] {
      BeganForGood(s, steps[..|steps| - 1], p);
    }
  }
}
