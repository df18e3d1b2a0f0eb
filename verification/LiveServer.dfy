/**
 * The server half of a live channel, on many instances at once: opens, plan changes, announcements and
 * fan-outs that interleave at every await.
 * Models apps/web/app/live.server.ts (liveChannelFor, publishLiveChange, fanOutLocally,
 * ensureLiveListener, liveRequest) and subscribe, publish and close of LiveChannel in
 * packages/maxstack-core/src/sprout/live.ts.
 */
module LiveServer {

  /** A grounded channel plan; `rest` is whatever else its JSON says, so plans are equal when their JSON is. */
  datatype Plan = Plan(resource: string, query: bool, paused: bool, bounded: bool, maxSubscribers: nat, rest: string)

  /** A plan and whether its resource's read rule is the `owner` shortcut. */
  datatype Declaration = Declaration(plan: Plan, ownerRead: bool)

  /** A channel object this process made for a key; `closed` once `close` has been called on it. */
  datatype Channel = Channel(key: string, plan: Plan, closed: bool)

  /** The once-only promise of ensureLiveListener. */
  datatype Listener = Unasked | Attaching | Attached

  /** A request awaiting the listener, holding the declaration it found before the await. */
  datatype Request = Request(key: string, found: Declaration)

  /** A connection; `late` when its channel was already closed as it subscribed. */
  datatype Subscriber = Subscriber(channel: nat, late: bool, open: bool)

  /** An announcement this process heard; `cursor` is how far its loop over the channel map has come. */
  datatype Delivery = Delivery(resource: string, rowId: string, cursor: nat, done: bool)

  /** One call of `publish`, by a delivery, on a channel. */
  datatype Publish = Publish(delivery: nat, channel: nat)

  /** One process: its channel map in insertion order, every channel it ever made, and what is in flight. */
  datatype Instance = Instance(
    keys: seq<string>,
    occupant: map<string, nat>,
    channels: seq<Channel>,
    listener: Listener,
    listeners: nat,
    waiting: seq<Request>,
    subscribers: seq<Subscriber>,
    deliveries: seq<Delivery>,
    published: multiset<Publish>)

  function Started(): Instance {
    Instance([], map[], [], Unasked, 0, [], [], [], multiset{})
  }

  /** What may happen between two awaits. */
  datatype Event =
    | Begin(key: string, found: Declaration)
    | Attach
    | Finish
    | Subscribe(channel: nat, bound: bool)
    | Hear(resource: string, rowId: string)
    | Visit(delivery: nat)

  ghost predicate Enabled(s: Instance, e: Event) {
    match e
    case Begin(_, _) => true
    case Attach => s.listener.Attaching?
    case Finish => s.waiting != [] && s.listener.Attached?
    case Subscribe(c, _) => c < |s.channels|
    case Hear(_, _) => true
    case Visit(d) => d < |s.deliveries| && !s.deliveries[d].done
  }

  /** A query over an owner-read resource could never deliver. */
  predicate Refused(found: Declaration) {
    found.plan.query && found.ownerRead
  }

  predicate Follows(plan: Plan, resource: string) {
    plan.query && plan.resource == resource
  }

  /**
   * The requests await one stored promise, which runs what waits for it in the order it came, and each
   * runs to its end at once: the one that has waited longest goes first.
   */
  function Resumed(s: Instance): Instance
    requires s.waiting != []
  {
    s.(waiting := s.waiting[1..])
  }

  /** Everyone on the channel is told, and forgotten. */
  function HangUp(subscribers: seq<Subscriber>, channel: nat): (r: seq<Subscriber>)
    ensures |r| == |subscribers|
    ensures forall i :: 0 <= i < |r| ==>
                          r[i] == if subscribers[i].channel == channel then subscribers[i].(open := false) else subscribers[i]
  {
    if subscribers == [] then []
    else
      [if subscribers[0].channel == channel then subscribers[0].(open := false) else subscribers[0]]
      + HangUp(subscribers[1..], channel)
  }

  function CloseChannel(s: Instance, channel: nat): Instance
    requires channel < |s.channels|
  {
    s.(channels := s.channels[channel := s.channels[channel].(closed := true)],
       subscribers := HangUp(s.subscribers, channel))
  }

  /** A new channel takes the key: `Map.set` keeps a key's place, and appends a new one. */
  function Occupy(s: Instance, key: string, plan: Plan): Instance {
    s.(keys := if key in s.occupant then s.keys else s.keys + [key],
       occupant := s.occupant[key := |s.channels|],
       channels := s.channels + [Channel(key, plan, false)])
  }

  /** What liveChannelFor does after its await, in one go. */
  function Opened(s: Instance, request: Request): Instance
    requires request.key in s.occupant ==> s.occupant[request.key] < |s.channels|
  {
    var key, plan := request.key, request.found.plan;
    if Refused(request.found) then s
    else if key in s.occupant && s.channels[s.occupant[key]].plan == plan then s
    else if key in s.occupant then Occupy(CloseChannel(s, s.occupant[key]), key, plan)
    else Occupy(s, key, plan)
  }

  predicate Admits(s: Instance, channel: nat, bound: bool)
    requires channel < |s.channels|
  {
    var plan := s.channels[channel].plan;
    !plan.paused && OpenOn(s.subscribers, channel) < plan.maxSubscribers && (plan.bounded ==> bound)
  }

  function OpenOn(subscribers: seq<Subscriber>, channel: nat): nat {
    if subscribers == [] then 0
    else (if subscribers[0].channel == channel && subscribers[0].open then 1 else 0) + OpenOn(subscribers[1..], channel)
  }

  /** One fan-out for each attached listener. */
  function Heard(s: Instance, resource: string, rowId: string): Instance {
    s.(deliveries := s.deliveries + seq(s.listeners, _ => Delivery(resource, rowId, 0, false)))
  }

  /** The next turn of a fan-out's loop; the map may have changed since its last. */
  function Visited(s: Instance, d: nat): Instance
    requires d < |s.deliveries|
    requires s.deliveries[d].cursor < |s.keys| ==>
               && s.keys[s.deliveries[d].cursor] in s.occupant
               && s.occupant[s.keys[s.deliveries[d].cursor]] < |s.channels|
  {
    var delivery := s.deliveries[d];
    if delivery.cursor >= |s.keys| then s.(deliveries := s.deliveries[d := delivery.(done := true)])
    else
      var channel := s.occupant[s.keys[delivery.cursor]];
      s.(deliveries := s.deliveries[d := delivery.(cursor := delivery.cursor + 1)],
         published := if Follows(s.channels[channel].plan, delivery.resource)
                      then s.published + multiset{Publish(d, channel)} else s.published)
  }

  /** The channel map is well kept: one place per key, one channel per place. */
  ghost predicate Mapped(s: Instance) {
    && (forall i, j :: 0 <= i < j < |s.keys| ==> s.keys[i] != s.keys[j])
    && (forall i :: 0 <= i < |s.keys| ==> s.keys[i] in s.occupant)
    && (forall k :: k in s.occupant ==> s.occupant[k] < |s.channels| && s.channels[s.occupant[k]].key == k)
  }

  function After(s: Instance, e: Event): Instance
    requires Mapped(s) && Enabled(s, e)
  {
    match e
    case Begin(key, found) =>
      s.(listener := if s.listener.Unasked? then Attaching else s.listener, waiting := s.waiting + [Request(key, found)])
    case Attach => s.(listener := Attached, listeners := s.listeners + 1)
    case Finish => Opened(Resumed(s), s.waiting[0])
    case Subscribe(c, bound) =>
      if Admits(s, c, bound) then s.(subscribers := s.subscribers + [Subscriber(c, s.channels[c].closed, true)]) else s
    case Hear(resource, rowId) => Heard(s, resource, rowId)
    case Visit(d) => Visited(s, d)
  }

  // ---------------------------------------------------------------------------
  // The code
  // ---------------------------------------------------------------------------

  datatype OpenResult = NotFound | Threw | Open(channel: nat)

  class Server {
    var keys: seq<string>
    var occupant: map<string, nat>
    var channels: seq<Channel>
    var listener: Listener
    var listeners: nat
    var waiting: seq<Request>
    var subscribers: seq<Subscriber>
    var deliveries: seq<Delivery>
    var published: multiset<Publish>

    constructor ()
      ensures Now() == Started()
    {
      keys, occupant, channels, listener, listeners := [], map[], [], Unasked, 0;
      waiting, subscribers, deliveries, published := [], [], [], multiset{};
    }

    ghost function Now(): Instance
      reads this
    {
      Instance(keys, occupant, channels, listener, listeners, waiting, subscribers, deliveries, published)
    }

    /** liveChannelFor up to its await: find the plan, ask for the listener. */
    method BeginOpen(key: string, registry: map<string, Declaration>) returns (found: bool)
      requires Mapped(Now())
      modifies this
      ensures found == (key in registry)
      ensures found ==> Now() == After(old(Now()), Begin(key, registry[key]))
      ensures !found ==> Now() == old(Now())
    {
      if key !in registry {
        return false;
      }
      if listener.Unasked? {
        listener := Attaching;
      }
      waiting := waiting + [Request(key, registry[key])];
      return true;
    }

    /** The body of the once-only promise, after it has the coordinator. */
    method AttachListener()
      requires Mapped(Now()) && Enabled(Now(), Attach)
      modifies this
      ensures Now() == After(old(Now()), Attach)
    {
      listeners := listeners + 1;
      listener := Attached;
    }

    /** liveChannelFor after its await. */
    method FinishOpen() returns (result: OpenResult)
      requires Mapped(Now()) && Enabled(Now(), Finish)
      modifies this
      ensures Now() == After(old(Now()), Finish)
      ensures result == Threw <==> old(waiting)[0].found.plan.query && old(waiting)[0].found.ownerRead
      ensures result != Threw ==>
                && result.Open? && old(waiting)[0].key in occupant && occupant[old(waiting)[0].key] == result.channel
                && result.channel < |channels| && channels[result.channel].plan == old(waiting)[0].found.plan
    {
      var request := waiting[0];
      waiting := waiting[1..];
      var key, plan := request.key, request.found.plan;
      if plan.query && request.found.ownerRead {
        return Threw;
      }
      if key in occupant {
        var existing := occupant[key];
        if channels[existing].plan == plan {
          return Open(existing);
        }
        channels := channels[existing := channels[existing].(closed := true)];
        subscribers := HangUp(subscribers, existing);
      } else {
        keys := keys + [key];
      }
      occupant := occupant[key := |channels|];
      channels := channels + [Channel(key, plan, false)];
      return Open(|channels| - 1);
    }

    /** The body of a fan-out's loop. */
    method Offer(d: nat, channel: nat, resource: string)
      requires channel < |channels|
      modifies this`published
      ensures published == old(published)
                           + if channels[channel].plan.query && channels[channel].plan.resource == resource
                             then multiset{Publish(d, channel)} else multiset{}
    {
      if channels[channel].plan.resource == resource && channels[channel].plan.query {
        published := published + multiset{Publish(d, channel)};
      }
    }

    /** A fan-out that nothing interrupts, from the coordinator's call to the end of its loop. */
    method FanOutLocally(resource: string, rowId: string)
      requires Mapped(Now())
      modifies this`deliveries, this`published
      ensures deliveries == old(deliveries) + [Delivery(resource, rowId, |keys|, true)]
      ensures published == old(published) + Published(Visiting(keys, occupant), channels, |old(deliveries)|, resource)
      ensures forall c :: 0 <= c < |channels| ==>
                published[Publish(|old(deliveries)|, c)] == old(published)[Publish(|old(deliveries)|, c)]
                  + if InMap(Now(), c) && channels[c].plan.query && channels[c].plan.resource == resource then 1 else 0
    {
      OfferAll(|deliveries|, resource);
      OncePerFollower(old(Now()), |deliveries|, resource);
      deliveries := deliveries + [Delivery(resource, rowId, |keys|, true)];
    }

    /** A fan-out's loop over the channel map. */
    method OfferAll(d: nat, resource: string)
      requires forall i :: 0 <= i < |keys| ==> keys[i] in occupant && occupant[keys[i]] < |channels|
      modifies this`published
      ensures published == old(published) + Published(Visiting(keys, occupant), channels, d, resource)
    {
      ghost var visiting := Visiting(keys, occupant);
      var i := 0;
      while i < |keys|
        invariant 0 <= i <= |keys|
        invariant published == old(published) + Published(visiting[..i], channels, d, resource)
      {
        Offer(d, occupant[keys[i]], resource);
        PublishedStep(visiting, channels, d, resource, i, old(published));
        i := i + 1;
      }
      assert visiting[..i] == visiting;
    }
  }

  /** The channels in the order the map is walked. */
  ghost function Visiting(keys: seq<string>, occupant: map<string, nat>): seq<nat>
    requires forall i :: 0 <= i < |keys| ==> keys[i] in occupant
  {
    seq(|keys|, i requires 0 <= i < |keys| => occupant[keys[i]])
  }

  /** One publish for each channel visited that follows the resource. */
  ghost function Published(visited: seq<nat>, channels: seq<Channel>, d: nat, resource: string): multiset<Publish> {
    if visited == [] then multiset{}
    else
      var channel := visited[|visited| - 1];
      Published(visited[..|visited| - 1], channels, d, resource)
      + if channel < |channels| && channels[channel].plan.query && channels[channel].plan.resource == resource
        then multiset{Publish(d, channel)} else multiset{}
  }

  /** A channel of the map: one that holds a key's place. */
  ghost predicate InMap(s: Instance, c: nat) {
    exists k :: k in s.occupant && s.occupant[k] == c && k in s.keys
  }

  /** A list in which no channel comes twice publishes once on each that is in it and is a query over the resource. */
  lemma {:induction false} PublishedOnce(visited: seq<nat>, channels: seq<Channel>, d: nat, resource: string, c: nat)
    requires forall i, j :: 0 <= i < j < |visited| ==> visited[i] != visited[j]
    requires c < |channels|
    ensures Published(visited, channels, d, resource)[Publish(d, c)]
            == if c in visited && channels[c].plan.query && channels[c].plan.resource == resource then 1 else 0
    ensures forall x :: x in Published(visited, channels, d, resource) ==> x.delivery == d
  {
    if visited != [] {
      var n := |visited| - 1;
      assert visited == visited[..n] + [visited[n]];
      PublishedOnce(visited[..n], channels, d, resource, c);
    }
  }

  lemma {:induction false} VisitingHasNoRepeats(s: Instance)
    requires Mapped(s)
    ensures var visiting := Visiting(s.keys, s.occupant);
            && (forall i, j :: 0 <= i < j < |visiting| ==> visiting[i] != visiting[j])
            && forall c :: c in visiting <==> InMap(s, c)
  {
    var visiting := Visiting(s.keys, s.occupant);
    forall i, j | 0 <= i < j < |visiting|
      ensures visiting[i] != visiting[j]
    {
      assert s.channels[visiting[i]].key == s.keys[i] && s.channels[visiting[j]].key == s.keys[j];
    }
    forall c: nat | InMap(s, c)
      ensures c in visiting
    {
      var k :| k in s.occupant && s.occupant[k] == c && k in s.keys;
      var i :| 0 <= i < |s.keys| && s.keys[i] == k;
      assert visiting[i] == c;
    }
    forall c | c in visiting
      ensures InMap(s, c)
    {
      var i :| 0 <= i < |visiting| && visiting[i] == c;
      assert s.keys[i] in s.keys;
    }
  }

  lemma {:induction false} WholeLoopPublishes(s: Instance, d: nat, resource: string, c: nat)
    requires Mapped(s) && c < |s.channels|
    ensures Published(Visiting(s.keys, s.occupant), s.channels, d, resource)[Publish(d, c)]
            == if InMap(s, c) && s.channels[c].plan.query && s.channels[c].plan.resource == resource then 1 else 0
  {
    VisitingHasNoRepeats(s);
    PublishedOnce(Visiting(s.keys, s.occupant), s.channels, d, resource, c);
  }

  /** The whole loop, added to what was published before: one more for each channel of the map that follows, none for any other. */
  lemma {:induction false} OncePerFollower(s: Instance, d: nat, resource: string)
    requires Mapped(s)
    ensures var after := s.published + Published(Visiting(s.keys, s.occupant), s.channels, d, resource);
            forall c :: 0 <= c < |s.channels| ==>
              after[Publish(d, c)] == s.published[Publish(d, c)]
                + if InMap(s, c) && s.channels[c].plan.query && s.channels[c].plan.resource == resource then 1 else 0
  {
    forall c | 0 <= c < |s.channels|
      ensures Published(Visiting(s.keys, s.occupant), s.channels, d, resource)[Publish(d, c)]
              == if InMap(s, c) && s.channels[c].plan.query && s.channels[c].plan.resource == resource then 1 else 0
    {
      WholeLoopPublishes(s, d, resource, c);
    }
  }

  lemma {:induction false} PublishedStep(visited: seq<nat>, channels: seq<Channel>, d: nat, resource: string, i: nat, heard: multiset<Publish>)
    requires i < |visited|
    ensures heard + Published(visited[..i + 1], channels, d, resource)
            == heard + Published(visited[..i], channels, d, resource)
               + if visited[i] < |channels| && channels[visited[i]].plan.query && channels[visited[i]].plan.resource == resource
                 then multiset{Publish(d, visited[i])} else multiset{}
  {
    assert visited[..i + 1][..i] == visited[..i];
  }

  // ---------------------------------------------------------------------------
  // What every event keeps
  // ---------------------------------------------------------------------------

  /** The listener is attached once, and before any channel. */
  ghost predicate Listening(s: Instance) {
    && s.listeners == (if s.listener.Attached? then 1 else 0)
    && (s.keys != [] || s.deliveries != [] ==> s.listener.Attached?)
  }

  ghost predicate Occupies(s: Instance, channel: nat) {
    channel < |s.channels| && s.channels[channel].key in s.occupant && s.occupant[s.channels[channel].key] == channel
  }

  /** A channel is closed exactly when another has taken its key. */
  ghost predicate ReplacedMeansClosed(s: Instance) {
    forall c :: 0 <= c < |s.channels| ==> (s.channels[c].closed <==> !Occupies(s, c))
  }

  /** An open connection sits on a replaced channel exactly when it subscribed too late. */
  ghost predicate OnlyLateDangle(s: Instance) {
    forall i :: 0 <= i < |s.subscribers| ==>
                  && s.subscribers[i].channel < |s.channels|
                  && (s.subscribers[i].open ==> (s.subscribers[i].late <==> s.channels[s.subscribers[i].channel].closed))
  }

  ghost predicate MayHavePublished(s: Instance, d: nat, c: nat) {
    && d < |s.deliveries| && c < |s.channels|
    && s.channels[c].plan.query && s.channels[c].plan.resource == s.deliveries[d].resource
    && exists p :: 0 <= p < s.deliveries[d].cursor && p < |s.keys| && s.keys[p] == s.channels[c].key
  }

  /** No delivery publishes twice on a channel, nor on one that does not follow the resource. */
  ghost predicate AtMostOnce(s: Instance) {
    && (forall d :: 0 <= d < |s.deliveries| ==> s.deliveries[d].cursor <= |s.keys|)
    && (forall d, c :: Publish(d, c) in s.published ==> s.published[Publish(d, c)] == 1 && MayHavePublished(s, d, c))
  }

  ghost predicate Valid(s: Instance) {
    Mapped(s) && Listening(s) && ReplacedMeansClosed(s) && OnlyLateDangle(s) && AtMostOnce(s)
  }

  /** What the channel map and the deliveries may do without a publish. */
  ghost predicate Grew(s: Instance, t: Instance) {
    && s.keys <= t.keys && |s.channels| <= |t.channels| && |s.deliveries| <= |t.deliveries| && t.published == s.published
    && (forall c :: 0 <= c < |s.channels| ==> t.channels[c].key == s.channels[c].key && t.channels[c].plan == s.channels[c].plan)
    && (forall d :: 0 <= d < |s.deliveries| ==> t.deliveries[d].resource == s.deliveries[d].resource
                                                && s.deliveries[d].cursor <= t.deliveries[d].cursor)
    && (forall d :: 0 <= d < |t.deliveries| ==> t.deliveries[d].cursor <= |t.keys|)
  }

  lemma {:induction false} GrowingKeepsAtMostOnce(s: Instance, t: Instance)
    requires AtMostOnce(s) && Grew(s, t)
    ensures AtMostOnce(t)
  {
    forall d: nat, c: nat | Publish(d, c) in t.published
      ensures t.published[Publish(d, c)] == 1 && MayHavePublished(t, d, c)
    {
      assert t == t.(published := s.published);
    }
  }

  /** A replacement closes the channel it replaces. */
  lemma {:induction false} ReplacingCloses(s: Instance, request: Request)
    requires Mapped(s) && ReplacedMeansClosed(s)
    ensures Mapped(Opened(s, request)) && ReplacedMeansClosed(Opened(s, request))
  {
    var after := Opened(s, request);
    if after != s {
      forall c | 0 <= c < |after.channels|
        ensures after.channels[c].closed <==> !Occupies(after, c)
      {
        if c < |s.channels| {
          assert s.channels[c].closed <==> !Occupies(s, c);
        }
      }
    }
  }

  /** A replacement leaves nobody on the channel it replaces. */
  lemma {:induction false} ReplacingHangsUp(s: Instance, request: Request)
    requires Mapped(s) && ReplacedMeansClosed(s) && OnlyLateDangle(s)
    ensures OnlyLateDangle(Opened(s, request))
  {
    var after := Opened(s, request);
    if after != s {
      forall i | 0 <= i < |after.subscribers|
        ensures after.subscribers[i].channel < |after.channels|
        ensures after.subscribers[i].open ==>
                  (after.subscribers[i].late <==> after.channels[after.subscribers[i].channel].closed)
      {
        assert s.subscribers[i].channel < |s.channels|;
      }
    }
  }

  lemma {:induction false} OpeningKeepsValid(s: Instance, request: Request)
    requires Valid(s) && s.listener.Attached?
    ensures Valid(Opened(s, request)) && Grew(s, Opened(s, request))
  {
    ReplacingCloses(s, request);
    ReplacingHangsUp(s, request);
    GrowingKeepsAtMostOnce(s, Opened(s, request));
  }

  /** An event that leaves the channels alone leaves them closed or not as they were. */
  lemma {:induction false} SameChannels(s: Instance, t: Instance)
    requires Mapped(s) && ReplacedMeansClosed(s)
    requires t.keys == s.keys && t.channels == s.channels && t.occupant == s.occupant
    ensures Mapped(t) && ReplacedMeansClosed(t)
  {
    forall c | 0 <= c < |t.channels|
      ensures t.channels[c].closed <==> !Occupies(t, c)
    {
      assert Occupies(s, c) <==> Occupies(t, c);
    }
  }

  /** A channel is visited once: its key has one place in the loop. */
  lemma {:induction false} VisitingKeepsAtMostOnce(s: Instance, d: nat)
    requires Mapped(s) && AtMostOnce(s) && d < |s.deliveries|
    ensures AtMostOnce(Visited(s, d))
  {
    var after := Visited(s, d);
    var cursor := s.deliveries[d].cursor;
    forall e: nat, c: nat | Publish(e, c) in after.published
      ensures after.published[Publish(e, c)] == 1 && MayHavePublished(after, e, c)
    {
      if Publish(e, c) in s.published {
      } else {
        assert after.keys[cursor] == after.channels[c].key;
      }
    }
  }

  lemma {:induction false} FinishKeepsValid(s: Instance)
    requires Valid(s) && Enabled(s, Finish)
    ensures Valid(After(s, Finish))
  {
    SameChannels(s, Resumed(s));
    GrowingKeepsAtMostOnce(s, Resumed(s));
    OpeningKeepsValid(Resumed(s), s.waiting[0]);
  }

  lemma {:induction false} VisitKeepsValid(s: Instance, d: nat)
    requires Valid(s) && Enabled(s, Visit(d))
    ensures Valid(After(s, Visit(d)))
  {
    SameChannels(s, Visited(s, d));
    VisitingKeepsAtMostOnce(s, d);
  }

  lemma {:induction false} SubscribeKeepsValid(s: Instance, c: nat, bound: bool)
    requires Valid(s) && Enabled(s, Subscribe(c, bound))
    ensures Valid(After(s, Subscribe(c, bound)))
  {
    SameChannels(s, After(s, Subscribe(c, bound)));
    GrowingKeepsAtMostOnce(s, After(s, Subscribe(c, bound)));
  }

  lemma {:induction false} HearKeepsValid(s: Instance, resource: string, rowId: string)
    requires Valid(s)
    ensures Valid(After(s, Hear(resource, rowId)))
  {
    SameChannels(s, After(s, Hear(resource, rowId)));
    GrowingKeepsAtMostOnce(s, After(s, Hear(resource, rowId)));
  }

  /** An event that opens no channel and visits none. */
  lemma {:induction false} QuietKeepsValid(s: Instance, e: Event)
    requires Valid(s) && Enabled(s, e) && !e.Finish? && !e.Visit?
    ensures Valid(After(s, e))
  {
    if e.Subscribe? {
      SubscribeKeepsValid(s, e.channel, e.bound);
    } else if e.Hear? {
      HearKeepsValid(s, e.resource, e.rowId);
    } else {
      SameChannels(s, After(s, e));
      GrowingKeepsAtMostOnce(s, After(s, e));
    }
  }

  lemma {:induction false} EventKeepsValid(s: Instance, e: Event)
    requires Valid(s) && Enabled(s, e)
    ensures Valid(After(s, e))
  {
    if e.Finish? {
      FinishKeepsValid(s);
    } else if e.Visit? {
      VisitKeepsValid(s, e.delivery);
    } else {
      QuietKeepsValid(s, e);
    }
  }

  // ---------------------------------------------------------------------------
  // Every interleaving, on every instance
  // ---------------------------------------------------------------------------

  datatype Announcement = Announcement(resource: string, rowId: string)

  /** The declared channels every instance grounds from the one spec, what has been announced, and the instances. */
  datatype World = World(declared: map<string, Declaration>, announced: seq<Announcement>, instances: seq<Instance>)

  datatype Step =
    | Declare(declared: map<string, Declaration>)
    | Announce(announcement: Announcement)
    | Local(instance: nat, event: Event)

  ghost predicate StepEnabled(w: World, step: Step) {
    match step
    case Declare(_) => true
    case Announce(_) => true
    case Local(i, e) =>
      && i < |w.instances| && Enabled(w.instances[i], e)
      && (e.Begin? ==> e.key in w.declared && e.found == w.declared[e.key])
      && (e.Hear? ==> Announcement(e.resource, e.rowId) in w.announced)
  }

  function StepAfter(w: World, step: Step): World
    requires StepEnabled(w, step) && (step.Local? ==> Mapped(w.instances[step.instance]))
  {
    match step
    case Declare(declared) => w.(declared := declared)
    case Announce(a) => w.(announced := w.announced + [a])
    case Local(i, e) => w.(instances := w.instances[i := After(w.instances[i], e)])
  }

  ghost predicate IsRun(worlds: seq<World>, steps: seq<Step>) {
    && |worlds| == |steps| + 1
    && worlds[0].announced == [] && (forall i :: 0 <= i < |worlds[0].instances| ==> worlds[0].instances[i] == Started())
    && forall k :: 0 <= k < |steps| ==>
                     && StepEnabled(worlds[k], steps[k])
                     && (steps[k].Local? ==> Mapped(worlds[k].instances[steps[k].instance]))
                     && worlds[k + 1] == StepAfter(worlds[k], steps[k])
  }

  /**
   * In every interleaving of opens, plan changes, connections and announcements, on every instance: a
   * channel exists only after the one listener is attached, a replaced channel is closed and no other
   * is, nobody is left on one who had not subscribed too late, and no delivery publishes twice on a
   * channel or at all on one that does not follow the resource.
   */
  lemma {:induction false} EveryRunIsValid(worlds: seq<World>, steps: seq<Step>, k: nat, i: nat)
    requires IsRun(worlds, steps) && k < |worlds| && i < |worlds[0].instances|
    ensures |worlds[k].instances| == |worlds[0].instances|
    ensures Valid(worlds[k].instances[i])
  {
    if k > 0 {
      EveryRunIsValid(worlds, steps, k - 1, i);
      var step := steps[k - 1];
      assert StepEnabled(worlds[k - 1], step);
      if step.Local? && step.instance == i {
        EventKeepsValid(worlds[k - 1].instances[i], step.event);
      }
    }
  }

  /** One step, seen from one instance: an event of its own, or nothing. */
  lemma {:induction false} SeenFrom(worlds: seq<World>, steps: seq<Step>, k: nat, i: nat)
    requires IsRun(worlds, steps) && k < |steps| && i < |worlds[0].instances|
    ensures |worlds[k].instances| == |worlds[k + 1].instances| == |worlds[0].instances|
    ensures Valid(worlds[k].instances[i]) && Valid(worlds[k + 1].instances[i])
    ensures var s, t := worlds[k].instances[i], worlds[k + 1].instances[i];
            || t == s
            || (steps[k].Local? && Enabled(s, steps[k].event) && t == After(s, steps[k].event))
  {
    EveryRunIsValid(worlds, steps, k, i);
    EveryRunIsValid(worlds, steps, k + 1, i);
    assert StepEnabled(worlds[k], steps[k]);
  }

  /** What a channel occupying place `p` of the map has been sent by a delivery, at any point of the delivery's loop. */
  ghost predicate SentAsDue(s: Instance, p: nat, channel: nat, d: nat) {
    && p < |s.keys| && channel < |s.channels| && d < |s.deliveries|
    && s.published[Publish(d, channel)] ==
         (if p < s.deliveries[d].cursor && s.channels[channel].plan.query
             && s.channels[channel].plan.resource == s.deliveries[d].resource then 1 else 0)
    && (s.deliveries[d].done ==> p < s.deliveries[d].cursor)
  }

  ghost predicate Holds(s: Instance, p: nat, channel: nat) {
    p < |s.keys| && s.keys[p] in s.occupant && s.occupant[s.keys[p]] == channel
  }

  lemma {:induction false} VisitSendsAsDue(s: Instance, p: nat, channel: nat, d: nat, visited: nat)
    requires Valid(s) && Holds(s, p, channel) && SentAsDue(s, p, channel, d)
    requires visited < |s.deliveries| && !s.deliveries[visited].done
    ensures SentAsDue(Visited(s, visited), p, channel, d)
  {
    var cursor := s.deliveries[visited].cursor;
    if cursor < |s.keys| && cursor != p {
      assert s.occupant[s.keys[cursor]] != channel by {
        assert s.keys[cursor] != s.keys[p];
        assert s.channels[s.occupant[s.keys[cursor]]].key == s.keys[cursor];
      }
    }
  }

  lemma {:induction false} EventSendsAsDue(s: Instance, e: Event, p: nat, channel: nat, d: nat)
    requires Valid(s) && Enabled(s, e) && Holds(s, p, channel) && SentAsDue(s, p, channel, d)
    ensures SentAsDue(After(s, e), p, channel, d)
  {
    if e.Visit? {
      VisitSendsAsDue(s, p, channel, d, e.delivery);
    } else if e.Finish? {
      OpeningKeepsValid(Resumed(s), s.waiting[0]) by {
        SameChannels(s, Resumed(s));
        GrowingKeepsAtMostOnce(s, Resumed(s));
      }
    }
  }

  /** Channel `c` holds place `p` of instance `i`'s map in every world from `start` to `end`. */
  ghost predicate StaysOpen(worlds: seq<World>, i: nat, p: nat, c: nat, start: nat, end: nat) {
    forall k :: start <= k <= end < |worlds| ==> i < |worlds[k].instances| && Holds(worlds[k].instances[i], p, c)
  }

  /** Delivery `d` has just been heard by instance `i`. */
  ghost predicate JustHeard(worlds: seq<World>, steps: seq<Step>, i: nat, d: nat, start: nat) {
    && 0 < start < |worlds| && start <= |steps|
    && i < |worlds[start].instances| && i < |worlds[start - 1].instances|
    && |worlds[start - 1].instances[i].deliveries| <= d < |worlds[start].instances[i].deliveries|
  }

  /** Only an announcement begins a fan-out, at the head of the map. */
  lemma {:induction false} OnlyHearingBegins(s: Instance, e: Event)
    requires Mapped(s) && Enabled(s, e)
    ensures !e.Hear? ==> |After(s, e).deliveries| == |s.deliveries|
    ensures e.Hear? ==> forall d :: |s.deliveries| <= d < |After(s, e).deliveries| ==>
                                      After(s, e).deliveries[d].cursor == 0 && !After(s, e).deliveries[d].done
  {
  }

  lemma {:induction false} HeardUnsent(s: Instance, e: Event, d: nat, p: nat, c: nat)
    requires Valid(s) && Enabled(s, e) && |s.deliveries| <= d < |After(s, e).deliveries|
    requires Mapped(After(s, e)) && Holds(After(s, e), p, c)
    ensures SentAsDue(After(s, e), p, c, d)
  {
    OnlyHearingBegins(s, e);
    assert Publish(d, c) !in s.published;
  }

  lemma {:induction false} StepSendsAsDue(worlds: seq<World>, steps: seq<Step>, k: nat, i: nat, d: nat, p: nat, c: nat)
    requires IsRun(worlds, steps) && k < |steps| && i < |worlds[0].instances|
    requires i < |worlds[k].instances| && Holds(worlds[k].instances[i], p, c) && SentAsDue(worlds[k].instances[i], p, c, d)
    ensures i < |worlds[k + 1].instances| && SentAsDue(worlds[k + 1].instances[i], p, c, d)
  {
    SeenFrom(worlds, steps, k, i);
    var s := worlds[k].instances[i];
    if worlds[k + 1].instances[i] != s {
      EventSendsAsDue(s, steps[k].event, p, c, d);
    }
  }

  lemma {:induction false} HeldAt(worlds: seq<World>, i: nat, p: nat, c: nat, start: nat, end: nat, k: nat)
    requires start <= k <= end < |worlds| && StaysOpen(worlds, i, p, c, start, end)
    ensures i < |worlds[k].instances| && Holds(worlds[k].instances[i], p, c)
    ensures StaysOpen(worlds, i, p, c, start, k)
  {}

  lemma {:induction false} HeardAtStart(worlds: seq<World>, steps: seq<Step>, i: nat, d: nat, start: nat, p: nat, c: nat)
    requires IsRun(worlds, steps) && i < |worlds[0].instances| && JustHeard(worlds, steps, i, d, start)
    requires Holds(worlds[start].instances[i], p, c)
    ensures SentAsDue(worlds[start].instances[i], p, c, d)
  {
    HeardByStep(worlds, steps, i, d, start);
    HeardUnsent(worlds[start - 1].instances[i], steps[start - 1].event, d, p, c);
  }

  /** A delivery that has just been heard came with an event of the instance's own. */
  lemma {:induction false} HeardByStep(worlds: seq<World>, steps: seq<Step>, i: nat, d: nat, start: nat)
    requires IsRun(worlds, steps) && i < |worlds[0].instances| && JustHeard(worlds, steps, i, d, start)
    ensures var s, t := worlds[start - 1].instances[i], worlds[start].instances[i];
            && steps[start - 1].Local? && Valid(s) && Valid(t)
            && Enabled(s, steps[start - 1].event) && t == After(s, steps[start - 1].event)
  {
    SeenFrom(worlds, steps, start - 1, i);
  }

  lemma {:induction false} SentThroughout(worlds: seq<World>, steps: seq<Step>, i: nat, d: nat, start: nat, end: nat, p: nat, c: nat)
    requires IsRun(worlds, steps) && i < |worlds[0].instances|
    requires start <= end < |worlds| && JustHeard(worlds, steps, i, d, start) && StaysOpen(worlds, i, p, c, start, end)
    ensures i < |worlds[end].instances| && SentAsDue(worlds[end].instances[i], p, c, d)
    decreases end
  {
    if end == start {
      HeldAt(worlds, i, p, c, start, end, start);
      HeardAtStart(worlds, steps, i, d, start, p, c);
    } else {
      HeldAt(worlds, i, p, c, start, end, end - 1);
      SentThroughout(worlds, steps, i, d, start, end - 1, p, c);
      StepSendsAsDue(worlds, steps, end - 1, i, d, p, c);
    }
  }

  /**
   * Fan-out is exact: when a delivery's loop is over, a channel that held its key from the moment the
   * announcement was heard has been published to exactly once if it is a query over the resource that
   * changed, and not at all if it is not, whatever opened, closed or was announced meanwhile.
   */
  lemma {:induction false} FanOutIsExact(worlds: seq<World>, steps: seq<Step>, i: nat, d: nat, start: nat, end: nat, p: nat, c: nat)
    requires IsRun(worlds, steps) && i < |worlds[0].instances|
    requires start <= end < |worlds| && JustHeard(worlds, steps, i, d, start) && StaysOpen(worlds, i, p, c, start, end)
    requires i < |worlds[end].instances| && d < |worlds[end].instances[i].deliveries| && worlds[end].instances[i].deliveries[d].done
    ensures var s := worlds[end].instances[i];
            && c < |s.channels|
            && s.published[Publish(d, c)] ==
                 if s.channels[c].plan.query && s.channels[c].plan.resource == s.deliveries[d].resource then 1 else 0
  {
    SentThroughout(worlds, steps, i, d, start, end, p, c);
  }

  /** One announcement heard is one fan-out begun: the listener is attached once. */
  lemma {:induction false} HearingBeginsOne(worlds: seq<World>, steps: seq<Step>, k: nat, i: nat, resource: string, rowId: string)
    requires IsRun(worlds, steps) && k < |worlds| && i < |worlds[0].instances|
    ensures i < |worlds[k].instances|
    ensures var s := worlds[k].instances[i];
            Mapped(s) && After(s, Hear(resource, rowId))
            == s.(deliveries := s.deliveries + if s.listener.Attached? then [Delivery(resource, rowId, 0, false)] else [])
  {
    EveryRunIsValid(worlds, steps, k, i);
    var s := worlds[k].instances[i];
    assert seq(s.listeners, _ => Delivery(resource, rowId, 0, false))
           == if s.listener.Attached? then [Delivery(resource, rowId, 0, false)] else [];
  }

  // ---------------------------------------------------------------------------
  // What an open and a connection do
  // ---------------------------------------------------------------------------

  /**
   * An open changes nothing exactly when it is refused, as a query over an owner-read resource, or the key's
   * channel already runs under an equal plan. Otherwise one new channel takes the key, in the key's old place
   * if it had one; the channel it replaces is closed and everybody on it hung up on, and every other key,
   * channel and connection stays as it was.
   */
  lemma {:induction false} OpenReplacesIff(s: Instance, request: Request)
    requires Mapped(s)
    ensures var after := Opened(s, request);
            var key, plan := request.key, request.found.plan;
            var held := key in s.occupant;
            && (after == s <==> (plan.query && request.found.ownerRead) || (held && s.channels[s.occupant[key]].plan == plan))
            && (after != s ==>
                  && after.keys == (if held then s.keys else s.keys + [key])
                  && after.occupant == s.occupant[key := |s.channels|]
                  && |after.channels| == |s.channels| + 1 && after.channels[|s.channels|] == Channel(key, plan, false)
                  && (forall c :: 0 <= c < |s.channels| ==>
                        after.channels[c] == if held && c == s.occupant[key] then s.channels[c].(closed := true) else s.channels[c])
                  && |after.subscribers| == |s.subscribers|
                  && (forall i :: 0 <= i < |s.subscribers| ==>
                        after.subscribers[i] == if held && s.subscribers[i].channel == s.occupant[key]
                                                then s.subscribers[i].(open := false) else s.subscribers[i])
                  && after.deliveries == s.deliveries && after.published == s.published && after.waiting == s.waiting
                  && after.listener == s.listener && after.listeners == s.listeners)
  {
    var after := Opened(s, request);
    if Refused(request.found) {
    } else if request.key in s.occupant && s.channels[s.occupant[request.key]].plan == request.found.plan {
    } else {
      assert |after.channels| == |s.channels| + 1;
    }
  }

  /** The open connections on a channel, from place `k` on. */
  ghost function OpenFrom(subscribers: seq<Subscriber>, channel: nat, k: nat): set<nat> {
    set i: nat | k <= i < |subscribers| && subscribers[i].channel == channel && subscribers[i].open
  }

  lemma {:induction false} OpenFromCounts(subscribers: seq<Subscriber>, channel: nat, k: nat)
    requires k <= |subscribers|
    ensures OpenOn(subscribers[k..], channel) == |OpenFrom(subscribers, channel, k)|
    decreases |subscribers| - k
  {
    if k < |subscribers| {
      OpenFromCounts(subscribers, channel, k + 1);
      assert subscribers[k..][1..] == subscribers[k + 1..] && subscribers[k..][0] == subscribers[k];
      var counts := subscribers[k].channel == channel && subscribers[k].open;
      assert OpenFrom(subscribers, channel, k) == OpenFrom(subscribers, channel, k + 1) + if counts then {k} else {};
    } else {
      assert OpenFrom(subscribers, channel, k) == {};
    }
  }

  lemma {:induction false} OpenOnCounts(subscribers: seq<Subscriber>, channel: nat)
    ensures OpenOn(subscribers, channel) == |set i: nat | i < |subscribers| && subscribers[i].channel == channel && subscribers[i].open|
  {
    OpenFromCounts(subscribers, channel, 0);
    assert subscribers[0..] == subscribers;
    assert OpenFrom(subscribers, channel, 0) == set i: nat | i < |subscribers| && subscribers[i].channel == channel && subscribers[i].open;
  }

  /** A connection is admitted exactly when the channel is not paused, has room, and has the bound it needs. */
  lemma {:induction false} AdmittedIff(s: Instance, c: nat, bound: bool)
    requires Mapped(s) && c < |s.channels|
    ensures var plan := s.channels[c].plan;
            var connected := set i: nat | i < |s.subscribers| && s.subscribers[i].channel == c && s.subscribers[i].open;
            After(s, Subscribe(c, bound)) ==
            if plan.paused || |connected| >= plan.maxSubscribers || (plan.bounded && !bound) then s
            else s.(subscribers := s.subscribers + [Subscriber(c, s.channels[c].closed, true)])
  {
    OpenOnCounts(s.subscribers, c);
  }

  lemma {:induction false} OpenOnSnoc(subscribers: seq<Subscriber>, x: Subscriber, channel: nat)
    ensures OpenOn(subscribers + [x], channel) == OpenOn(subscribers, channel) + if x.channel == channel && x.open then 1 else 0
  {
    if subscribers == [] {
      assert [] + [x] == [x] && [x][1..] == [];
    } else {
      OpenOnSnoc(subscribers[1..], x, channel);
      assert (subscribers + [x])[1..] == subscribers[1..] + [x];
    }
  }

  lemma {:induction false} HangUpEmpties(subscribers: seq<Subscriber>, gone: nat, channel: nat)
    ensures OpenOn(HangUp(subscribers, gone), channel) == if channel == gone then 0 else OpenOn(subscribers, channel)
  {
    if subscribers != [] {
      HangUpEmpties(subscribers[1..], gone, channel);
      assert HangUp(subscribers, gone)[1..] == HangUp(subscribers[1..], gone);
    }
  }

  lemma {:induction false} NobodyOn(subscribers: seq<Subscriber>, channel: nat)
    requires forall i :: 0 <= i < |subscribers| ==> subscribers[i].channel != channel
    ensures OpenOn(subscribers, channel) == 0
  {
    if subscribers != [] {
      NobodyOn(subscribers[1..], channel);
    }
  }

  /** Nobody is on a paused channel, and no channel has more connections than its plan allows. */
  ghost predicate WithinCapacity(s: Instance) {
    forall c :: 0 <= c < |s.channels| ==>
                  OpenOn(s.subscribers, c) <= if s.channels[c].plan.paused then 0 else s.channels[c].plan.maxSubscribers
  }

  lemma {:induction false} OpeningKeepsCapacity(s: Instance, request: Request)
    requires Mapped(s) && OnlyLateDangle(s) && WithinCapacity(s)
    ensures WithinCapacity(Opened(s, request))
  {
    var after := Opened(s, request);
    if after != s {
      forall c | 0 <= c < |after.channels|
        ensures OpenOn(after.subscribers, c) <= if after.channels[c].plan.paused then 0 else after.channels[c].plan.maxSubscribers
      {
        if request.key in s.occupant {
          HangUpEmpties(s.subscribers, s.occupant[request.key], c);
        }
        if c == |s.channels| {
          NobodyOn(s.subscribers, c);
        }
      }
    }
  }

  lemma {:induction false} EventKeepsCapacity(s: Instance, e: Event)
    requires Valid(s) && Enabled(s, e) && WithinCapacity(s)
    ensures WithinCapacity(After(s, e))
  {
    match e
    case Finish => OpeningKeepsCapacity(Resumed(s), s.waiting[0]);
    case Subscribe(channel, bound) =>
      forall c | 0 <= c < |s.channels|
        ensures OpenOn(s.subscribers + [Subscriber(channel, s.channels[channel].closed, true)], c)
                == OpenOn(s.subscribers, c) + if c == channel then 1 else 0
      {
        OpenOnSnoc(s.subscribers, Subscriber(channel, s.channels[channel].closed, true), c);
      }
    case Begin(_, _) =>
    case Attach =>
    case Hear(_, _) =>
    case Visit(_) =>
  }

  /** In every run no channel ever has more connections than its plan allows, a paused one none, replaced channels included. */
  lemma {:induction false} EveryRunIsWithinCapacity(worlds: seq<World>, steps: seq<Step>, k: nat, i: nat, c: nat)
    requires IsRun(worlds, steps) && k < |worlds| && i < |worlds[0].instances|
    requires i < |worlds[k].instances| && c < |worlds[k].instances[i].channels|
    ensures var s := worlds[k].instances[i];
            var connected := set j: nat | j < |s.subscribers| && s.subscribers[j].channel == c && s.subscribers[j].open;
            |connected| <= if s.channels[c].plan.paused then 0 else s.channels[c].plan.maxSubscribers
  {
    RunKeepsCapacity(worlds, steps, k, i);
    OpenOnCounts(worlds[k].instances[i].subscribers, c);
  }

  lemma {:induction false} RunKeepsCapacity(worlds: seq<World>, steps: seq<Step>, k: nat, i: nat)
    requires IsRun(worlds, steps) && k < |worlds| && i < |worlds[0].instances|
    ensures i < |worlds[k].instances| && WithinCapacity(worlds[k].instances[i])
  {
    if k > 0 {
      RunKeepsCapacity(worlds, steps, k - 1, i);
      SeenFrom(worlds, steps, k - 1, i);
      var s := worlds[k - 1].instances[i];
      if worlds[k].instances[i] != s {
        EventKeepsCapacity(s, steps[k - 1].event);
      }
    }
  }

  lemma {:induction false} ListenerAfter(s: Instance, e: Event)
    requires Mapped(s) && Enabled(s, e)
    ensures After(s, e).listener != Unasked <==> s.listener != Unasked || e.Begin?
  {
  }

  /** Step `k` begins a request on instance `i`. */
  predicate BeginsOn(steps: seq<Step>, i: nat, k: nat)
    requires k < |steps|
  {
    steps[k].Local? && steps[k].instance == i && steps[k].event.Begin?
  }

  /** In every run an instance has asked for its listener exactly when some request has begun on it. */
  lemma {:induction false} ListenerAskedIff(worlds: seq<World>, steps: seq<Step>, n: nat, i: nat)
    requires IsRun(worlds, steps) && n <= |steps| && i < |worlds[0].instances|
    ensures i < |worlds[n].instances|
    ensures worlds[n].instances[i].listener != Unasked <==> exists k: nat :: k < n && BeginsOn(steps, i, k)
  {
    if n > 0 {
      ListenerAskedIff(worlds, steps, n - 1, i);
      ListenerStep(worlds, steps, n - 1, i);
      if BeginsOn(steps, i, n - 1) {
        assert n - 1 < n && BeginsOn(steps, i, n - 1);
      }
    }
  }

  lemma {:induction false} ListenerStep(worlds: seq<World>, steps: seq<Step>, k: nat, i: nat)
    requires IsRun(worlds, steps) && k < |steps| && i < |worlds[0].instances|
    ensures i < |worlds[k].instances| && i < |worlds[k + 1].instances|
    ensures worlds[k + 1].instances[i].listener != Unasked <==> worlds[k].instances[i].listener != Unasked || BeginsOn(steps, i, k)
  {
    SeenFrom(worlds, steps, k, i);
    assert StepEnabled(worlds[k], steps[k]);
    if steps[k].Local? && steps[k].instance == i {
      ListenerAfter(worlds[k].instances[i], steps[k].event);
    }
  }

  // ---------------------------------------------------------------------------
  // A fan-out nobody interrupts
  // ---------------------------------------------------------------------------

  /** The turns of delivery `d`, one after another, while the map stays as it is. */
  function Turns(s: Instance, d: nat, n: nat): (r: Instance)
    requires Mapped(s) && d < |s.deliveries|
    ensures r == s.(deliveries := r.deliveries, published := r.published)
    ensures |r.deliveries| == |s.deliveries| && r.deliveries[d].resource == s.deliveries[d].resource
    ensures r.deliveries[d].rowId == s.deliveries[d].rowId
    decreases n
  {
    if n == 0 then s else Visited(Turns(s, d, n - 1), d)
  }

  /** One turn of a loop that has come to place `n` of the map. */
  lemma {:induction false} TurnPublishes(s: Instance, r: Instance, d: nat, n: nat)
    requires Mapped(s) && d < |s.deliveries| && n < |s.keys|
    requires r == s.(deliveries := s.deliveries[d := s.deliveries[d].(cursor := n)], published := r.published)
    ensures Visited(r, d).deliveries == s.deliveries[d := s.deliveries[d].(cursor := n + 1)]
    ensures var channel := s.occupant[s.keys[n]];
            Visited(r, d).published == r.published + if s.channels[channel].plan.query && s.channels[channel].plan.resource == s.deliveries[d].resource
                                                     then multiset{Publish(d, channel)} else multiset{}
  {
    assert r.deliveries[d] == s.deliveries[d].(cursor := n);
  }

  lemma {:induction false} TurnsPublish(s: Instance, d: nat, n: nat)
    requires Mapped(s) && d < |s.deliveries| && s.deliveries[d].cursor == 0 && !s.deliveries[d].done && n <= |s.keys|
    ensures var r := Turns(s, d, n);
            && r.deliveries == s.deliveries[d := s.deliveries[d].(cursor := n)]
            && r.published == s.published
                 + Published(Visiting(s.keys, s.occupant)[..n], s.channels, d, s.deliveries[d].resource)
  {
    var visiting := Visiting(s.keys, s.occupant);
    if n > 0 {
      TurnsPublish(s, d, n - 1);
      TurnPublishes(s, Turns(s, d, n - 1), d, n - 1);
      PublishedStep(visiting, s.channels, d, s.deliveries[d].resource, n - 1, s.published);
    } else {
      assert visiting[..0] == [];
      assert s.deliveries[d := s.deliveries[d].(cursor := 0)] == s.deliveries;
    }
  }

  /**
   * Nobody interrupting, as many turns as the map has keys and one more end a fan-out, and leave what the loop
   * run at once leaves: one publish on each channel of the map that is a query over the resource.
   */
  lemma {:induction false} UninterruptedFanOut(s: Instance, d: nat, c: nat)
    requires Mapped(s) && d < |s.deliveries| && s.deliveries[d].cursor == 0 && !s.deliveries[d].done && c < |s.channels|
    ensures var r := Turns(s, d, |s.keys| + 1);
            && r.deliveries == s.deliveries[d := s.deliveries[d].(cursor := |s.keys|, done := true)]
            && r.published == s.published + Published(Visiting(s.keys, s.occupant), s.channels, d, s.deliveries[d].resource)
            && r.published[Publish(d, c)] == s.published[Publish(d, c)]
                 + if InMap(s, c) && s.channels[c].plan.query && s.channels[c].plan.resource == s.deliveries[d].resource then 1 else 0
  {
    TurnsPublish(s, d, |s.keys|);
    assert Visiting(s.keys, s.occupant)[..|s.keys|] == Visiting(s.keys, s.occupant);
    WholeLoopPublishes(s, d, s.deliveries[d].resource, c);
  }

  // ---------------------------------------------------------------------------
  // Which plan is in the map
  // ---------------------------------------------------------------------------

  /** The request step `k` finishes on instance `i`, if it finishes one. */
  ghost function DoneAt(worlds: seq<World>, steps: seq<Step>, i: nat, k: nat): seq<Request>
    requires IsRun(worlds, steps) && k < |steps|
  {
    if steps[k] == Local(i, Finish) then
      assert StepEnabled(worlds[k], steps[k]);
      [worlds[k].instances[i].waiting[0]]
    else []
  }

  /** The requests instance `i` has finished in the first `n` steps, in the order it finished them. */
  ghost function Done(worlds: seq<World>, steps: seq<Step>, i: nat, n: nat): seq<Request>
    requires IsRun(worlds, steps) && n <= |steps|
  {
    if n == 0 then [] else Done(worlds, steps, i, n - 1) + DoneAt(worlds, steps, i, n - 1)
  }

  ghost function BegunAt(step: Step, i: nat): seq<Request> {
    if step.Local? && step.instance == i && step.event.Begin? then [Request(step.event.key, step.event.found)] else []
  }

  /** The requests instance `i` has begun in the first `n` steps, in the order in which they read their plans. */
  ghost function Begun(steps: seq<Step>, i: nat, n: nat): seq<Request>
    requires n <= |steps|
  {
    if n == 0 then [] else Begun(steps, i, n - 1) + BegunAt(steps[n - 1], i)
  }

  lemma {:induction false} WaitingAfter(s: Instance, e: Event)
    requires Mapped(s) && Enabled(s, e)
    ensures After(s, e).waiting ==
            if e.Finish? then s.waiting[1..]
            else if e.Begin? then s.waiting + [Request(e.key, e.found)]
            else s.waiting
  {
  }

  /** A step adds to those waiting the one it begins, and takes from them, at the front, the one it finishes. */
  lemma {:induction false} StepInOrder(worlds: seq<World>, steps: seq<Step>, i: nat, k: nat)
    requires IsRun(worlds, steps) && k < |steps| && i < |worlds[0].instances|
    ensures i < |worlds[k].instances| && i < |worlds[k + 1].instances|
    ensures worlds[k].instances[i].waiting + BegunAt(steps[k], i) == DoneAt(worlds, steps, i, k) + worlds[k + 1].instances[i].waiting
  {
    SeenFrom(worlds, steps, k, i);
    assert StepEnabled(worlds[k], steps[k]);
    if steps[k].Local? && steps[k].instance == i {
      WaitingAfter(worlds[k].instances[i], steps[k].event);
    }
  }

  lemma {:induction false} Regrouped<T>(a: seq<T>, b: seq<T>, c: seq<T>, d: seq<T>, e: seq<T>)
    requires b + c == d + e
    ensures (a + b) + c == (a + d) + e
  {
    assert (a + b) + c == a + (b + c);
    assert (a + d) + e == a + (d + e);
  }

  /** In every run requests finish in the order they began: those begun are those done, then those waiting. */
  lemma {:induction false} FinishInOrder(worlds: seq<World>, steps: seq<Step>, i: nat, n: nat)
    requires IsRun(worlds, steps) && n <= |steps| && i < |worlds[0].instances|
    ensures i < |worlds[n].instances|
    ensures Begun(steps, i, n) == Done(worlds, steps, i, n) + worlds[n].instances[i].waiting
  {
    if n > 0 {
      FinishInOrder(worlds, steps, i, n - 1);
      StepInOrder(worlds, steps, i, n - 1);
      Regrouped(Done(worlds, steps, i, n - 1), worlds[n - 1].instances[i].waiting, BegunAt(steps[n - 1], i),
                DoneAt(worlds, steps, i, n - 1), worlds[n].instances[i].waiting);
    }
  }

  /** What the last of some requests for the key that is not refused had found. */
  ghost function LastFor(requests: seq<Request>, key: string): seq<Declaration> {
    if requests == [] then []
    else
      var last := requests[|requests| - 1];
      if last.key == key && !(last.found.plan.query && last.found.ownerRead) then [last.found] else LastFor(requests[..|requests| - 1], key)
  }

  lemma {:induction false} LastForAppend(a: seq<Request>, b: seq<Request>, key: string)
    ensures LastFor(a + b, key) == if LastFor(b, key) != [] then LastFor(b, key) else LastFor(a, key)
  {
    if b == [] {
      assert a + b == a;
    } else {
      var n := |b| - 1;
      LastForAppend(a, b[..n], key);
      assert (a + b)[..|a + b| - 1] == a + b[..n];
    }
  }

  lemma {:induction false} LastForOne(request: Request, key: string)
    ensures LastFor([request], key) ==
            if request.key == key && !(request.found.plan.query && request.found.ownerRead) then [request.found] else []
  {
    assert [request][..0] == [];
  }

  ghost predicate Holding(s: Instance, key: string, last: seq<Declaration>) {
    if last == [] then key !in s.occupant
    else key in s.occupant && s.occupant[key] < |s.channels| && s.channels[s.occupant[key]].plan == last[0].plan
  }

  lemma {:induction false} OpenedHolds(s: Instance, request: Request, key: string, last: seq<Declaration>)
    requires Mapped(s) && Holding(s, key, last)
    ensures Holding(Opened(s, request), key, if request.key == key && !Refused(request.found) then [request.found] else last)
  {
  }

  lemma {:induction false} EventHolds(s: Instance, e: Event, key: string, last: seq<Declaration>)
    requires Mapped(s) && Enabled(s, e) && Holding(s, key, last)
    ensures Holding(After(s, e), key,
                    if e.Finish? && s.waiting[0].key == key && !Refused(s.waiting[0].found) then [s.waiting[0].found] else last)
  {
    if e.Finish? {
      OpenedHolds(Resumed(s), s.waiting[0], key, last);
    }
  }

  /** In every run the plan under a key is the one found by the last request for it to finish, and not be refused. */
  lemma {:induction false} LastToFinishDecides(worlds: seq<World>, steps: seq<Step>, i: nat, key: string, n: nat)
    requires IsRun(worlds, steps) && n <= |steps| && i < |worlds[0].instances|
    ensures i < |worlds[n].instances| && Holding(worlds[n].instances[i], key, LastFor(Done(worlds, steps, i, n), key))
  {
    if n > 0 {
      LastToFinishDecides(worlds, steps, i, key, n - 1);
      SeenFrom(worlds, steps, n - 1, i);
      StepHolds(worlds, steps, i, key, n - 1);
    }
  }

  lemma {:induction false} StepHolds(worlds: seq<World>, steps: seq<Step>, i: nat, key: string, k: nat)
    requires IsRun(worlds, steps) && k < |steps| && i < |worlds[k].instances| && i < |worlds[k + 1].instances|
    requires Mapped(worlds[k].instances[i]) && Holding(worlds[k].instances[i], key, LastFor(Done(worlds, steps, i, k), key))
    ensures Holding(worlds[k + 1].instances[i], key, LastFor(Done(worlds, steps, i, k + 1), key))
  {
    var done := Done(worlds, steps, i, k);
    assert StepEnabled(worlds[k], steps[k]);
    LastForAppend(done, DoneAt(worlds, steps, i, k), key);
    if steps[k].Local? && steps[k].instance == i {
      EventHolds(worlds[k].instances[i], steps[k].event, key, LastFor(done, key));
      if steps[k].event.Finish? {
        LastForOne(worlds[k].instances[i].waiting[0], key);
      }
    }
  }

  /**
   * In every run, once no request for a key waits but refused ones, the plan under the key is the newest
   * any request for it has found and was not refused; and never does an older plan replace a newer one,
   * since requests finish in the order they read their plans.
   */
  lemma {:induction false} NewestPlanWins(worlds: seq<World>, steps: seq<Step>, i: nat, key: string, n: nat)
    requires IsRun(worlds, steps) && n <= |steps| && i < |worlds[0].instances|
    ensures i < |worlds[n].instances|
    ensures Done(worlds, steps, i, n) <= Begun(steps, i, n)
    ensures LastFor(worlds[n].instances[i].waiting, key) == [] ==>
              Holding(worlds[n].instances[i], key, LastFor(Begun(steps, i, n), key))
  {
    FinishInOrder(worlds, steps, i, n);
    LastToFinishDecides(worlds, steps, i, key, n);
    LastForAppend(Done(worlds, steps, i, n), worlds[n].instances[i].waiting, key);
  }

  lemma {:induction false} NothingDeclared(worlds: seq<World>, steps: seq<Step>, k: nat)
    requires IsRun(worlds, steps) && k < |steps|
    ensures !steps[k].Declare? ==> worlds[k + 1].declared == worlds[k].declared
    ensures steps[k].Local? && steps[k].event.Begin? ==>
              steps[k].event.key in worlds[k].declared && worlds[k].declared[steps[k].event.key] == steps[k].event.found
  {
    assert StepEnabled(worlds[k], steps[k]);
  }

  lemma {:induction false} LastBegun(begun: seq<Request>, step: Step, i: nat, key: string, found: Declaration)
    requires step.Local? && step.instance == i && step.event.Begin? && step.event.key == key ==> step.event.found == found
    requires !(found.plan.query && found.ownerRead)
    requires LastFor(begun, key) == [found] || step == Local(i, Begin(key, found))
    ensures LastFor(begun + BegunAt(step, i), key) == [found]
  {
    LastForAppend(begun, BegunAt(step, i), key);
    if BegunAt(step, i) != [] {
      LastForOne(Request(step.event.key, step.event.found), key);
    }
  }

  lemma {:induction false} StaysDeclared(worlds: seq<World>, steps: seq<Step>, key: string, found: Declaration, k: nat, n: nat)
    requires IsRun(worlds, steps) && k < n <= |steps| && (forall j :: k < j < n ==> !steps[j].Declare?)
    requires !steps[k].Declare? && key in worlds[k].declared && worlds[k].declared[key] == found
    ensures key in worlds[n].declared && worlds[n].declared[key] == found
    decreases n
  {
    if n > k + 1 {
      StaysDeclared(worlds, steps, key, found, k, n - 1);
    }
    NothingDeclared(worlds, steps, n - 1);
  }

  /** The requests for the key that begin from step `k` on have all found the same. */
  ghost predicate FindAlike(steps: seq<Step>, i: nat, key: string, found: Declaration, k: nat, n: nat)
    requires n <= |steps|
  {
    forall j :: k <= j < n && steps[j].Local? && steps[j].instance == i && steps[j].event.Begin? && steps[j].event.key == key ==>
                  steps[j].event.found == found
  }

  lemma {:induction false} LastFound(steps: seq<Step>, i: nat, key: string, found: Declaration, k: nat, n: nat)
    requires k < n <= |steps| && steps[k] == Local(i, Begin(key, found)) && !(found.plan.query && found.ownerRead)
    requires FindAlike(steps, i, key, found, k, n)
    ensures LastFor(Begun(steps, i, n), key) == [found]
    decreases n
  {
    if n > k + 1 {
      LastFound(steps, i, key, found, k, n - 1);
    }
    LastBegun(Begun(steps, i, n - 1), steps[n - 1], i, key, found);
  }

  /** What was declared when a request began, while no other declaration is made, is what every later request finds. */
  lemma {:induction false} FindsDeclared(worlds: seq<World>, steps: seq<Step>, i: nat, key: string, found: Declaration, k: nat, n: nat)
    requires IsRun(worlds, steps) && k < n <= |steps| && steps[k] == Local(i, Begin(key, found)) && !(found.plan.query && found.ownerRead)
    requires forall j :: k < j < n ==> !steps[j].Declare?
    ensures key in worlds[n].declared && worlds[n].declared[key] == found
    ensures LastFor(Begun(steps, i, n), key) == [found]
  {
    NothingDeclared(worlds, steps, k);
    StaysDeclared(worlds, steps, key, found, k, n);
    forall j | k <= j < n && steps[j].Local? && steps[j].instance == i && steps[j].event.Begin? && steps[j].event.key == key
      ensures steps[j].event.found == found
    {
      NothingDeclared(worlds, steps, j);
      if j > k {
        StaysDeclared(worlds, steps, key, found, k, j);
      }
    }
    LastFound(steps, i, key, found, k, n);
  }

  /**
   * A changed declaration takes effect without a restart: once a request has begun under it and none
   * waits, the channel under the key runs under what is declared now.
   */
  lemma {:induction false} DeclaredPlanIsServed(worlds: seq<World>, steps: seq<Step>, i: nat, key: string, found: Declaration, k: nat, n: nat)
    requires IsRun(worlds, steps) && k < n <= |steps| && i < |worlds[0].instances|
    requires steps[k] == Local(i, Begin(key, found)) && !(found.plan.query && found.ownerRead)
    requires forall j :: k < j < n ==> !steps[j].Declare?
    requires i < |worlds[n].instances| && LastFor(worlds[n].instances[i].waiting, key) == []
    ensures key in worlds[n].declared && Holding(worlds[n].instances[i], key, [worlds[n].declared[key]])
  {
    FindsDeclared(worlds, steps, i, key, found, k, n);
    NewestPlanWins(worlds, steps, i, key, n);
  }

  // ---------------------------------------------------------------------------
  // What an await costs
  // ---------------------------------------------------------------------------

  /** `events` can happen in this order on a fresh instance, and leave it at `end`. */
  ghost predicate Reaches(s: Instance, events: seq<Event>, end: Instance)
    decreases |events|
  {
    if events == [] then s == end
    else Mapped(s) && Enabled(s, events[0]) && Reaches(After(s, events[0]), events[1..], end)
  }

  ghost predicate LeadsTo(s: Instance, e: Event, t: Instance) {
    Mapped(s) && Enabled(s, e) && After(s, e) == t
  }

  lemma {:induction false} ReachesStep(s: Instance, e: Event, t: Instance, rest: seq<Event>, end: Instance)
    requires LeadsTo(s, e, t) && Reaches(t, rest, end)
    ensures Reaches(s, [e] + rest, end)
  {
    assert ([e] + rest)[1..] == rest;
  }

  /** An instance whose listener is there and whose requests are under way. */
  function Opening(channels: seq<Channel>, occupant: map<string, nat>, keys: seq<string>, waiting: seq<Request>): Instance {
    Instance(keys, occupant, channels, Attached, 1, waiting, [], [], multiset{})
  }

  /** Where one request leaves a fresh instance. */
  function OneOpen(key: string, found: Declaration): Instance {
    Opening([Channel(key, found.plan, false)], map[key := 0], [key], [])
  }

  /** Where a second request, under another plan, leaves it: the first channel is closed. */
  function Reopened(key: string, first: Declaration, second: Declaration): Instance {
    Opening([Channel(key, first.plan, true), Channel(key, second.plan, false)], map[key := 1], [key], [])
  }

  lemma {:induction false} OpensFirst(key: string, found: Declaration)
    requires !Refused(found)
    ensures LeadsTo(Opening([], map[], [], [Request(key, found)]), Finish, OneOpen(key, found))
  {
    assert [Request(key, found)][1..] == [];
  }

  lemma {:induction false} OpensSecond(key: string, first: Declaration, second: Declaration)
    requires !Refused(second) && first.plan != second.plan
    ensures LeadsTo(OneOpen(key, first).(waiting := [Request(key, second)]), Finish, Reopened(key, first, second))
  {
    assert [Request(key, second)][1..] == [];
  }

  lemma {:induction false} Begins(key: string, found: Declaration)
    ensures LeadsTo(Started(), Begin(key, found), Started().(listener := Attaching, waiting := [Request(key, found)]))
  {
  }

  lemma {:induction false} Attaches(waiting: seq<Request>)
    ensures LeadsTo(Started().(listener := Attaching, waiting := waiting), Attach, Opening([], map[], [], waiting))
  {
  }

  lemma {:induction false} FirstOpen(key: string, found: Declaration, rest: seq<Event>, end: Instance)
    requires !Refused(found) && Reaches(OneOpen(key, found), rest, end)
    ensures Reaches(Started(), [Begin(key, found)] + ([Attach] + ([Finish] + rest)), end)
  {
    var waiting := [Request(key, found)];
    OpensFirst(key, found);
    ReachesStep(Opening([], map[], [], waiting), Finish, OneOpen(key, found), rest, end);
    Attaches(waiting);
    ReachesStep(Started().(listener := Attaching, waiting := waiting), Attach, Opening([], map[], [], waiting), [Finish] + rest, end);
    Begins(key, found);
    ReachesStep(Started(), Begin(key, found), Started().(listener := Attaching, waiting := waiting), [Attach] + ([Finish] + rest), end);
  }

  lemma {:induction false} SecondOpen(key: string, first: Declaration, second: Declaration, rest: seq<Event>, end: Instance)
    requires !Refused(second) && first.plan != second.plan && Reaches(Reopened(key, first, second), rest, end)
    ensures Reaches(OneOpen(key, first), [Begin(key, second)] + ([Finish] + rest), end)
  {
    var begun := OneOpen(key, first).(waiting := [Request(key, second)]);
    OpensSecond(key, first, second);
    ReachesStep(begun, Finish, Reopened(key, first, second), rest, end);
    assert LeadsTo(OneOpen(key, first), Begin(key, second), begun);
    ReachesStep(OneOpen(key, first), Begin(key, second), begun, [Finish] + rest, end);
  }

  /**
   * A request that got its channel and then awaited the caller's identity can subscribe after the
   * channel was replaced: it is admitted, told nothing, and no delivery reaches it.
   */
  lemma {:induction false} LateSubscriberDangles(key: string, first: Declaration, second: Declaration) returns (events: seq<Event>, end: Instance)
    requires !Refused(first) && !Refused(second) && first.plan != second.plan
    requires !first.plan.paused && !first.plan.bounded && first.plan.maxSubscribers > 0
    ensures Reaches(Started(), events, end)
    ensures end.subscribers == [Subscriber(0, true, true)] && end.occupant == map[key := 1]
  {
    var s := Reopened(key, first, second);
    end := s.(subscribers := [Subscriber(0, true, true)]);
    ReachesStep(s, Subscribe(0, false), end, [], end);
    var late := [Subscribe(0, false)] + [];
    SecondOpen(key, first, second, late, end);
    FirstOpen(key, first, [Begin(key, second)] + ([Finish] + late), end);
    events := [Begin(key, first)] + ([Attach] + ([Finish] + ([Begin(key, second)] + ([Finish] + late))));
  }
}
