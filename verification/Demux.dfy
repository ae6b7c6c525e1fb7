/** The client half of the RPC multiplexer: the table of outstanding calls, tag allocation, and the
    reader that delivers replies and drains the table when the connection fails. */
module Demux {
  import opened Choice

  const TAGS := 0x1_0000_0000

  type Tag = t: nat | t < TAGS

  type Bytes = seq<char>

  // A reply channel is known by a number; each call makes a new one.
  type Chan = nat

  datatype Reply = Answer(rep: Bytes, ok: bool) | ReadFailed

  // A closed table takes no calls.
  function PutIn<V>(calls: map<Tag, V>, closed: bool, tag: Tag, v: V): map<Tag, V> {
    if closed then calls else calls[tag := v]
  }

  // What is found under a tag leaves the table.
  datatype Removed<V> = NoCall | Found(v: V, rest: map<Tag, V>)

  function Take<V>(calls: map<Tag, V>, tag: Tag): Removed<V> {
    if tag in calls then Found(calls[tag], calls - {tag}) else NoCall
  }

  class CallMap {
    var closed: bool
    var calls: map<Tag, Chan>

    constructor ()
      ensures !closed && calls == map[]
    {
      closed, calls := false, map[];
    }

    method Close()
      modifies this`closed
      ensures closed
    {
      closed := true;
    }

    method Put(tag: Tag, ch: Chan) returns (ok: bool)
      modifies this`calls
      ensures ok == !closed
      ensures calls == PutIn(old(calls), closed, tag, ch)
    {
      if closed {
        return false;
      }
      calls := calls[tag := ch];
      return true;
    }

    method Remove(tag: Tag) returns (ch: Chan, ok: bool)
      modifies this`calls
      ensures Take(old(calls), tag) == if ok then Found(ch, calls) else NoCall
      ensures !ok ==> calls == old(calls)
    {
      if tag in calls {
        ch, ok := calls[tag], true;
        calls := calls - {tag};
      } else {
        ch, ok := 0, false;
      }
    }

    // The tags of the registered calls, in any order.
    method Outstanding() returns (tags: seq<Tag>)
      ensures Elements(tags) == calls.Keys && Distinct(tags)
    {
      tags := [];
      var rest := calls.Keys;
      while rest != {}
        invariant Elements(tags) + rest == calls.Keys && Elements(tags) !! rest
        invariant Distinct(tags)
        decreases rest
      {
        var t := TakeAny(rest);
        rest := rest - {t};
        assert t !in Elements(tags);
        ElementsConcat(tags, [t]);
        tags := tags + [t];
      }
    }
  }

  predicate Distinct<T(==)>(s: seq<T>) {
    forall i, j | 0 <= i < j < |s| :: s[i] != s[j]
  }

  // What has been sent on a channel.
  function Inbox(delivered: map<Chan, seq<Reply>>, ch: Chan): seq<Reply> {
    if ch in delivered then delivered[ch] else []
  }

  function Post(delivered: map<Chan, seq<Reply>>, ch: Chan, r: Reply): map<Chan, seq<Reply>> {
    delivered[ch := Inbox(delivered, ch) + [r]]
  }

  /** The client seen from outside: its table, what it has sent on the channels, and whether the process
      has stopped because a reply had no call. */
  datatype Client = Client(calls: map<Tag, Chan>, closed: bool, delivered: map<Chan, seq<Reply>>, fatal: bool)

  // A call registers, a reply for a tag is handled, or the table is closed. The reader handles the replies;
  // the rest is done by others while it runs.
  datatype Event = Register(tag: Tag, ch: Chan) | Incoming(tag: Tag, reply: Reply) | Shut

  function HandleOne(c: Client, e: Event): Client {
    if c.fatal then c
    else
      match e
      case Register(tag, ch) => c.(calls := PutIn(c.calls, c.closed, tag, ch))
      case Shut => c.(closed := true)
      case Incoming(tag, reply) =>
        match Take(c.calls, tag)
        case NoCall => c.(fatal := true)
        case Found(ch, rest) => c.(calls := rest, delivered := Post(c.delivered, ch, reply))
  }

  // What one event does. A call registers exactly while the table is open; a reply goes to the call with its tag,
  // which leaves the table, and to no other; a reply without a call stops the process.
  lemma EventMeaning(c: Client, e: Event)
    requires !c.fatal
    ensures var d := HandleOne(c, e);
            && (d.closed <==> c.closed || e.Shut?)
            && (d.fatal <==> e.Incoming? && e.tag !in c.calls)
            && (forall t | !(e.Shut? || e.tag == t) :: (t in d.calls <==> t in c.calls) && (t in c.calls ==> d.calls[t] == c.calls[t]))
            && (e.Shut? ==> d.calls == c.calls)
            && (e.Register? ==>
                  if c.closed then d.calls == c.calls else e.tag in d.calls && d.calls[e.tag] == e.ch)
            && (e.Incoming? && !d.fatal ==> e.tag !in d.calls)
            && (forall ch :: Inbox(d.delivered, ch) == Inbox(c.delivered, ch) +
                  if e.Incoming? && e.tag in c.calls && c.calls[e.tag] == ch then [e.reply] else [])
  {
  }

  function Handled(c: Client, events: seq<Event>): Client {
    if events == [] then c else HandleOne(Handled(c, events[..|events| - 1]), events[|events| - 1])
  }

  // The failures that the reader makes up for the calls that are left.
  function Failures(tags: seq<Tag>): seq<Event> {
    seq(|tags|, i requires 0 <= i < |tags| => Incoming(tags[i], ReadFailed))
  }

  lemma HandledLast(c: Client, events: seq<Event>, e: Event)
    ensures Handled(c, events + [e]) == HandleOne(Handled(c, events), e)
  {
    assert (events + [e])[..|events|] == events;
  }

  lemma {:induction false} HandledConcat(c: Client, a: seq<Event>, b: seq<Event>)
    ensures Handled(c, a + b) == Handled(Handled(c, a), b)
    decreases |b|
  {
    if b == [] {
      assert a + b == a;
    } else {
      var n := |b| - 1;
      HandledConcat(c, a, b[..n]);
      assert (a + b)[..|a + b| - 1] == a + b[..n];
    }
  }

  // A stopped process does nothing more.
  lemma {:induction false} StaysStopped(c: Client, events: seq<Event>, i: nat)
    requires i <= |events| && Handled(c, events[..i]).fatal
    ensures Handled(c, events) == Handled(c, events[..i])
    decreases |events|
  {
    if i == |events| {
      assert events[..i] == events;
    } else {
      var n := |events| - 1;
      assert events[..n][..i] == events[..i];
      StaysStopped(c, events[..n], i);
    }
  }

  lemma OneMoreTag(tags: seq<Tag>, i: nat)
    requires Distinct(tags) && i < |tags|
    ensures Elements(tags[..i + 1]) == Elements(tags[..i]) + {tags[i]}
    ensures tags[i] !in Elements(tags[..i]) && tags[i] in Elements(tags)
  {
    assert tags[..i + 1] == tags[..i] + [tags[i]];
    ElementsConcat(tags[..i], [tags[i]]);
  }

  lemma OneMoreFailure(c: Client, tags: seq<Tag>, i: nat)
    requires i < |tags|
    ensures Handled(c, Failures(tags[..i + 1])) ==
            HandleOne(Handled(c, Failures(tags[..i])), Incoming(tags[i], ReadFailed))
  {
    assert Failures(tags[..i + 1]) == Failures(tags[..i]) + [Incoming(tags[i], ReadFailed)];
    HandledLast(c, Failures(tags[..i]), Incoming(tags[i], ReadFailed));
  }

  // One more call of the drain: the tag is in the table, and is the next to leave it.
  lemma DrainStep(calls: map<Tag, Chan>, tags: seq<Tag>, i: nat)
    requires Distinct(tags) && Elements(tags) == calls.Keys && i < |tags|
    ensures tags[i] in calls - Elements(tags[..i])
    ensures calls - Elements(tags[..i]) - {tags[i]} == calls - Elements(tags[..i + 1])
  {
    OneMoreTag(tags, i);
  }

  class DemuxClnt {
    const callmap: CallMap
    var nextTag: Tag
    var delivered: map<Chan, seq<Reply>>

    ghost function View(fatal: bool): Client
      reads this, callmap
    {
      Client(callmap.calls, callmap.closed, delivered, fatal)
    }

    // The first tag goes to the message that names the client, which is not a call.
    constructor ()
      ensures fresh(callmap) && View(false) == Client(map[], false, map[], false) && nextTag == 1
    {
      callmap := new CallMap();
      nextTag, delivered := 1, map[];
    }

    method NewTag() returns (t: Tag)
      modifies this`nextTag
      ensures t == old(nextTag) && nextTag == (t + 1) % TAGS
    {
      t := nextTag;
      nextTag := (nextTag + 1) % TAGS;
    }

    // Delivers a reply to the call with the tag; a reply without a call stops the process.
    method Deliver(tag: Tag, reply: Reply) returns (fatal: bool)
      modifies this`delivered, callmap`calls
      ensures View(fatal) == HandleOne(old(View(false)), Incoming(tag, reply))
      ensures fatal <==> tag !in old(callmap.calls)
    {
      var ch, found := callmap.Remove(tag);
      if found {
        delivered := Post(delivered, ch, reply);
      }
      fatal := !found;
    }

    // The first loop of the reader, with what others do to the table between two replies.
    method ReadAll(events: seq<Event>) returns (fatal: bool)
      modifies this`delivered, callmap
      ensures View(fatal) == Handled(old(View(false)), events)
    {
      for i := 0 to |events|
        invariant View(false) == Handled(old(View(false)), events[..i])
      {
        assert events[..i + 1] == events[..i] + [events[i]];
        HandledLast(old(View(false)), events[..i], events[i]);
        match events[i] {
          case Register(tag, ch) => var _ := callmap.Put(tag, ch);
          case Shut => callmap.Close();
          case Incoming(tag, reply) =>
            fatal := Deliver(tag, reply);
            if fatal {
              StaysStopped(old(View(false)), events, i + 1);
              return;
            }
        }
      }
      assert events[..|events|] == events;
      fatal := false;
    }

    // The second loop of the reader: fail the calls that are left.
    method Drain() returns (ghost outstanding: seq<Tag>)
      modifies this`delivered, callmap`calls
      ensures Elements(outstanding) == old(callmap.calls).Keys && Distinct(outstanding)
      ensures callmap.calls == map[]
      ensures View(false) == Handled(old(View(false)), Failures(outstanding))
    {
      var tags := callmap.Outstanding();
      outstanding := tags;
      for i := 0 to |tags|
        invariant View(false) == Handled(old(View(false)), Failures(tags[..i]))
        invariant callmap.calls == old(callmap.calls) - Elements(tags[..i])
      {
        DrainStep(old(callmap.calls), tags, i);
        OneMoreFailure(old(View(false)), tags, i);
        var fatal := Deliver(tags[i], ReadFailed);
      }
      assert tags[..|tags|] == tags;
    }

    /** Reads replies until the connection fails, then closes the table and fails every call still in it.
        Unless a reply had no call, nothing stays registered, and every call that was registered, before or
        while the reader ran, is told exactly one thing: a reply that came for its tag, or the failure. */
    method Reader(events: seq<Event>) returns (fatal: bool, ghost script: seq<Event>)
      modifies this`delivered, callmap
      ensures View(fatal) == Handled(old(View(false)), script)
      ensures fatal ==> script == events
      ensures !fatal ==> callmap.closed && callmap.calls == map[]
      ensures !fatal && Orderly(old(View(false)), events) ==>
                forall ch | ch in Channels(old(View(false)), events) :: ToldOnce(old(View(false)), script, ch)
    {
      ghost var start := View(false);
      fatal := ReadAll(events);
      script := events;
      if !fatal {
        callmap.Close();
        ghost var outstanding := Drain();
        script := events + [Shut] + Failures(outstanding);
        HandledLast(start, events, Shut);
        HandledConcat(start, events + [Shut], Failures(outstanding));
        if Orderly(start, events) {
          EndKeepsOrder(start, events, outstanding);
          CallsAreToldOnce(start, script);
        }
      }
    }
  }

  /** What the calls are told. */

  ghost predicate Injective(calls: map<Tag, Chan>) {
    forall t, u | t in calls && u in calls && t != u :: calls[t] != calls[u]
  }

  ghost function Range(calls: map<Tag, Chan>): set<Chan> {
    set t | t in calls :: calls[t]
  }

  // The next event registers a call.
  ghost predicate Joins(c: Client, events: seq<Event>, e: Event) {
    e.Register? && !Handled(c, events).fatal && !Handled(c, events).closed
  }

  // The channels of the calls that were in the table, or got into it.
  ghost function Channels(c: Client, events: seq<Event>): set<Chan> {
    if events == [] then Range(c.calls)
    else
      var n := |events| - 1;
      Channels(c, events[..n]) + if Joins(c, events[..n], events[n]) then {events[n].ch} else {}
  }

  // Every call makes a new channel, and its tag is not in use.
  ghost predicate Orderly(c: Client, events: seq<Event>) {
    if events == [] then Injective(c.calls)
    else
      var n := |events| - 1;
      && Orderly(c, events[..n])
      && (Joins(c, events[..n], events[n]) ==>
            events[n].ch !in Channels(c, events[..n]) && events[n].tag !in Handled(c, events[..n]).calls)
  }

  // Event k brought reply r for the tag under which the channel was registered.
  ghost predicate Brought(c: Client, events: seq<Event>, k: nat, ch: Chan, r: Reply) {
    && k < |events| && events[k].Incoming? && events[k].reply == r
    && var d := Handled(c, events[..k]);
       !d.fatal && events[k].tag in d.calls && d.calls[events[k].tag] == ch
  }

  ghost predicate ToldOnce(c: Client, events: seq<Event>, ch: Chan) {
    exists k: nat, r :: Brought(c, events, k, ch, r) &&
                        Inbox(Handled(c, events).delivered, ch) == Inbox(c.delivered, ch) + [r]
  }

  // A call is still registered and has been told nothing, or it has been told one thing and is gone.
  ghost predicate Accounted(c: Client, events: seq<Event>, ch: Chan) {
    var d := Handled(c, events);
    if ch in Range(d.calls) then Inbox(d.delivered, ch) == Inbox(c.delivered, ch) else ToldOnce(c, events, ch)
  }

  // What holds after every orderly sequence of events.
  ghost predicate Steady(c: Client, events: seq<Event>) {
    var d := Handled(c, events);
    && Injective(d.calls) && Range(d.calls) <= Channels(c, events)
    && (forall ch | ch !in Channels(c, events) :: Inbox(d.delivered, ch) == Inbox(c.delivered, ch))
    && (forall ch | ch in Channels(c, events) :: Accounted(c, events, ch))
  }

  lemma RangeAfterPut(calls: map<Tag, Chan>, tag: Tag, ch: Chan)
    requires Injective(calls) && tag !in calls && ch !in Range(calls)
    ensures Injective(calls[tag := ch]) && Range(calls[tag := ch]) == Range(calls) + {ch}
  {
    var more := calls[tag := ch];
    forall x | x in Range(calls) + {ch} ensures x in Range(more) {
      if x == ch {
        assert more[tag] == ch;
      } else {
        var t :| t in calls && calls[t] == x;
        assert more[t] == x;
      }
    }
    forall t, u | t in more && u in more && t != u ensures more[t] != more[u] {
      assert t in calls ==> calls[t] in Range(calls);
      assert u in calls ==> calls[u] in Range(calls);
    }
  }

  lemma RangeAfterTake(calls: map<Tag, Chan>, tag: Tag)
    requires Injective(calls) && tag in calls
    ensures Injective(calls - {tag}) && Range(calls - {tag}) == Range(calls) - {calls[tag]}
  {
    var rest := calls - {tag};
    forall x | x in Range(calls) - {calls[tag]} ensures x in Range(rest) {
      var t :| t in calls && calls[t] == x;
      assert rest[t] == x;
    }
  }

  // What one channel has been told stays told while nothing more arrives for it.
  lemma ToldOnceStays(c: Client, events: seq<Event>, e: Event, ch: Chan)
    requires ToldOnce(c, events, ch)
    requires Inbox(Handled(c, events + [e]).delivered, ch) == Inbox(Handled(c, events).delivered, ch)
    ensures ToldOnce(c, events + [e], ch)
  {
    var k: nat, r :| Brought(c, events, k, ch, r) &&
                     Inbox(Handled(c, events).delivered, ch) == Inbox(c.delivered, ch) + [r];
    assert (events + [e])[..k] == events[..k];
    assert Brought(c, events + [e], k, ch, r);
  }

  lemma QuietStep(c: Client, events: seq<Event>, e: Event)
    requires Steady(c, events) && Channels(c, events + [e]) == Channels(c, events)
    requires var d, f := Handled(c, events), Handled(c, events + [e]);
             f.calls == d.calls && f.delivered == d.delivered
    ensures Steady(c, events + [e])
  {
    forall ch | ch in Channels(c, events) ensures Accounted(c, events + [e], ch) {
      assert Accounted(c, events, ch);
      if ch !in Range(Handled(c, events).calls) {
        ToldOnceStays(c, events, e, ch);
      }
    }
  }

  lemma RegisterStep(c: Client, events: seq<Event>, tag: Tag, ch: Chan)
    requires Steady(c, events) && ch !in Channels(c, events)
    requires var d := Handled(c, events);
             !d.fatal && !d.closed && tag !in d.calls
    requires Channels(c, events + [Register(tag, ch)]) == Channels(c, events) + {ch}
    ensures Steady(c, events + [Register(tag, ch)])
  {
    var e := Register(tag, ch);
    var d := Handled(c, events);
    HandledLast(c, events, e);
    RangeAfterPut(d.calls, tag, ch);
    forall x | x in Channels(c, events + [e]) ensures Accounted(c, events + [e], x) {
      if x != ch {
        assert Accounted(c, events, x);
        if x !in Range(d.calls) {
          ToldOnceStays(c, events, e, x);
        }
      }
    }
  }

  lemma IncomingStep(c: Client, events: seq<Event>, tag: Tag, r: Reply)
    requires Steady(c, events)
    requires var d := Handled(c, events);
             !d.fatal && tag in d.calls
    requires Channels(c, events + [Incoming(tag, r)]) == Channels(c, events)
    ensures Steady(c, events + [Incoming(tag, r)])
  {
    var e := Incoming(tag, r);
    var d := Handled(c, events);
    var to := d.calls[tag];
    HandledLast(c, events, e);
    RangeAfterTake(d.calls, tag);
    assert to in Range(d.calls);
    forall x | x in Channels(c, events) ensures Accounted(c, events + [e], x) {
      assert Accounted(c, events, x);
      if x == to {
        assert (events + [e])[..|events|] == events;
        assert Brought(c, events + [e], |events|, x, r);
      } else if x !in Range(d.calls) {
        ToldOnceStays(c, events, e, x);
      }
    }
  }

  lemma ChannelsLast(c: Client, events: seq<Event>, e: Event)
    ensures Channels(c, events + [e]) == Channels(c, events) + if Joins(c, events, e) then {e.ch} else {}
  {
    assert (events + [e])[..|events|] == events;
  }

  lemma {:induction false} EventStep(c: Client, events: seq<Event>, e: Event)
    requires Steady(c, events)
    requires Joins(c, events, e) ==> e.ch !in Channels(c, events) && e.tag !in Handled(c, events).calls
    ensures Steady(c, events + [e])
  {
    ChannelsLast(c, events, e);
    HandledLast(c, events, e);
    var d := Handled(c, events);
    if Joins(c, events, e) {
      RegisterStep(c, events, e.tag, e.ch);
    } else if e.Incoming? && !d.fatal && e.tag in d.calls {
      IncomingStep(c, events, e.tag, e.reply);
    } else {
      QuietStep(c, events, e);
    }
  }

  lemma {:induction false} OrderlyIsSteady(c: Client, events: seq<Event>)
    requires Orderly(c, events)
    ensures Steady(c, events)
    decreases |events|
  {
    if events == [] {
      assert Handled(c, events) == c && Channels(c, events) == Range(c.calls);
    } else {
      var n := |events| - 1;
      OrderlyIsSteady(c, events[..n]);
      EventStep(c, events[..n], events[n]);
      assert events == events[..n] + [events[n]];
    }
  }

  /** When nothing stays registered, every call has been told exactly one thing. */
  lemma CallsAreToldOnce(c: Client, events: seq<Event>)
    requires Orderly(c, events) && Handled(c, events).calls == map[]
    ensures forall ch | ch in Channels(c, events) :: ToldOnce(c, events, ch)
  {
    OrderlyIsSteady(c, events);
    forall ch | ch in Channels(c, events) ensures ToldOnce(c, events, ch) {
      assert Accounted(c, events, ch);
    }
  }

  // Closing the table and failing what is left registers no call.
  lemma {:induction false} EndKeepsOrder(c: Client, events: seq<Event>, tags: seq<Tag>)
    requires Orderly(c, events)
    ensures var script := events + [Shut] + Failures(tags);
            Orderly(c, script) && Channels(c, script) == Channels(c, events)
    decreases |tags|
  {
    if tags == [] {
      assert (events + [Shut])[..|events|] == events;
      assert events + [Shut] + Failures([]) == events + [Shut];
    } else {
      var n := |tags| - 1;
      EndKeepsOrder(c, events, tags[..n]);
      var script := events + [Shut] + Failures(tags);
      assert script[..|script| - 1] == events + [Shut] + Failures(tags[..n]);
    }
  }
}
