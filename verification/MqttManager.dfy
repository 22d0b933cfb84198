/**
 The MQTT manager: the client's session and the network link under it are two facts from
 two sources, and the registered filters are subscribed again on every new session.
 Client calls that subscribe are taken to succeed.
 */
module MqttManager {
  import opened Options
  import MqttTopic

  /** `subscribed` is what the broker holds for the current session: positions in `filters`. */
  datatype State = State(
    client: bool, running: bool, session: bool, linkUp: bool, filters: seq<string>, subscribed: set<nat>)

  const Initial := State(false, false, false, false, [], {})

  datatype Event =
    | Start(starts: bool)
    | Stop
    | LinkUp(starts: bool)
    | LinkDown
    | Connected
    | Disconnected
    | Register(filter: string)

  /** Events reach the handlers only while they are registered, and the client reports a
      session only while it runs. */
  predicate CanHappen(s: State, e: Event, maxFilters: nat) {
    match e
    case Start(_) => !s.client
    case Stop => s.client
    case LinkUp(_) => s.client
    case LinkDown => s.client
    case Connected => s.client && s.running
    case Disconnected => s.client && s.running
    case Register(_) => |s.filters| < maxFilters
  }

  function Positions(n: nat): (positions: set<nat>)
    ensures forall i: nat :: i in positions <==> i < n
  {
    if n == 0 then {} else Positions(n - 1) + {n - 1}
  }

  predicate IsConnected(s: State) {
    s.session && s.linkUp && s.client
  }

  function Next(s: State, e: Event): State {
    match e
    case Start(starts) => s.(client := true, running := s.linkUp && starts)
    case Stop => s.(client := false, running := false, session := false)
    case LinkUp(starts) => s.(linkUp := true, running := s.running || starts)
    case LinkDown => s.(linkUp := false)
    case Connected => s.(session := true, subscribed := Positions(|s.filters|))
    case Disconnected => s.(session := false)
    case Register(filter) =>
      var t := s.(filters := s.filters + [filter]);
      if IsConnected(s) then t.(subscribed := s.subscribed + {|s.filters|}) else t
  }

  // ---------------------------------------------------------------- read off the events alone

  function Init(events: seq<Event>): seq<Event>
    requires events != []
  {
    events[..|events| - 1]
  }

  function Last(events: seq<Event>): Event
    requires events != []
  {
    events[|events| - 1]
  }

  function Run(events: seq<Event>): State
    decreases |events|
  {
    if events == [] then Initial else Next(Run(Init(events)), Last(events))
  }

  ghost predicate IsRun(events: seq<Event>, maxFilters: nat)
    decreases |events|
  {
    events == [] || (IsRun(Init(events), maxFilters) && CanHappen(Run(Init(events)), Last(events), maxFilters))
  }

  /** The last word on the session: from the client, or a stop, which ends it unreported. */
  predicate SessionUp(events: seq<Event>)
    decreases |events|
  {
    if events == [] then false
    else
      match Last(events)
      case Connected => true
      case Disconnected => false
      case Stop => false
      case _ => SessionUp(Init(events))
  }

  /** The last link event seen was an UP. */
  predicate LinkSeenUp(events: seq<Event>)
    decreases |events|
  {
    if events == [] then false
    else
      match Last(events)
      case LinkUp(_) => true
      case LinkDown => false
      case _ => LinkSeenUp(Init(events))
  }

  predicate Started(events: seq<Event>)
    decreases |events|
  {
    if events == [] then false
    else
      match Last(events)
      case Start(_) => true
      case Stop => false
      case _ => Started(Init(events))
  }

  function Registered(events: seq<Event>): seq<string>
    decreases |events|
  {
    if events == [] then []
    else Registered(Init(events)) + if Last(events).Register? then [Last(events).filter] else []
  }

  /** The positions of the filters registered since the session began, while the session was
      up and the link down. */
  function Missed(events: seq<Event>): set<nat>
    decreases |events|
  {
    if events == [] then {}
    else
      var init := Init(events);
      match Last(events)
      case Connected => {}
      case Register(_) =>
        Missed(init) + if SessionUp(init) && !LinkSeenUp(init) then {|Registered(init)|} else {}
      case _ => Missed(init)
  }

  lemma {:induction false} RunIsHistory(events: seq<Event>, maxFilters: nat)
    requires IsRun(events, maxFilters)
    ensures var s := Run(events);
            && s.client == Started(events) && s.session == SessionUp(events) && s.linkUp == LinkSeenUp(events)
            && s.filters == Registered(events)
            && (s.session ==> s.client)
            && (s.session ==> s.subscribed == Positions(|s.filters|) - Missed(events))
            && (s.subscribed <= Positions(|s.filters|) && Missed(events) <= Positions(|s.filters|))
    decreases |events|
  {
    if events != [] {
      RunIsHistory(Init(events), maxFilters);
    }
  }

  /** At every reachable state with the client started: connected means that the last client
      event was CONNECTED and the last link event seen was UP. */
  lemma ConnectedMeansBoth(events: seq<Event>, maxFilters: nat)
    requires IsRun(events, maxFilters) && Started(events)
    ensures IsConnected(Run(events)) <==> SessionUp(events) && LinkSeenUp(events)
  {
    RunIsHistory(events, maxFilters);
  }

  /** In a session every registered filter is subscribed, except exactly those registered
      while the session was up and the link down. */
  lemma SubscribedExceptMissed(events: seq<Event>, maxFilters: nat)
    requires IsRun(events, maxFilters) && SessionUp(events)
    ensures Run(events).subscribed == Positions(|Registered(events)|) - Missed(events)
    ensures Run(events).subscribed == Positions(|Registered(events)|) <==> Missed(events) == {}
  {
    RunIsHistory(events, maxFilters);
  }

  lemma {:induction false} InitOf(events: seq<Event>, more: seq<Event>)
    requires more != []
    ensures Init(events + more) == events + Init(more) && Last(events + more) == Last(more)
  {
    assert events + more == events + Init(more) + [Last(more)];
  }

  lemma {:induction false} PrefixIsRun(events: seq<Event>, more: seq<Event>, maxFilters: nat)
    requires IsRun(events + more, maxFilters)
    ensures IsRun(events, maxFilters)
    decreases |more|
  {
    if more == [] {
      assert events + more == events;
    } else {
      InitOf(events, more);
      PrefixIsRun(events, Init(more), maxFilters);
    }
  }

  /** A position is registered once, so while no session begins what was missed stays missed. */
  lemma {:induction false} StaysMissed(events: seq<Event>, more: seq<Event>, position: nat)
    requires Connected !in more && position in Missed(events)
    ensures position in Missed(events + more)
    decreases |more|
  {
    if more == [] {
      assert events + more == events;
    } else {
      InitOf(events, more);
      assert Last(more) in more;
      StaysMissed(events, Init(more), position);
    }
  }

  /** A missed filter stays unsubscribed whatever follows, everything reporting a connection
      or not, until the next session begins; and then every filter is subscribed. */
  lemma MissedUntilNextSession(events: seq<Event>, more: seq<Event>, position: nat, maxFilters: nat)
    requires IsRun(events + more, maxFilters) && Connected !in more
    requires SessionUp(events) && position in Missed(events)
    ensures position !in Run(events + more).subscribed
    ensures position < |Registered(events)| <= |Registered(events + more)|
    ensures IsRun(events + more + [Connected], maxFilters) ==> position in Run(events + more + [Connected]).subscribed
  {
    PrefixIsRun(events, more, maxFilters);
    RunIsHistory(events, maxFilters);
    RunIsHistory(events + more, maxFilters);
    StaysMissed(events, more, position);
    RegisteredGrows(events, more);
    StaysUnsubscribed(events, more, position, maxFilters);
    assert Init(events + more + [Connected]) == events + more;
  }

  lemma {:induction false} RegisteredGrows(events: seq<Event>, more: seq<Event>)
    ensures |Registered(events)| <= |Registered(events + more)|
    decreases |more|
  {
    if more == [] {
      assert events + more == events;
    } else {
      InitOf(events, more);
      RegisteredGrows(events, Init(more));
    }
  }

  lemma {:induction false} StaysUnsubscribed(events: seq<Event>, more: seq<Event>, position: nat, maxFilters: nat)
    requires IsRun(events + more, maxFilters) && Connected !in more
    requires SessionUp(events) && position in Missed(events)
    ensures position !in Run(events + more).subscribed
    decreases |more|
  {
    if more == [] {
      assert events + more == events;
      RunIsHistory(events, maxFilters);
    } else {
      InitOf(events, more);
      assert Last(more) in more;
      StaysUnsubscribed(events, Init(more), position, maxFilters);
      PrefixIsRun(events, Init(more), maxFilters);
      RunIsHistory(events + Init(more), maxFilters);
      RunIsHistory(events, maxFilters);
      RegisteredGrows(events, Init(more));
    }
  }

  /** With everything reporting a connection: a filter registered while the link is down, and
      the link's return. */
  lemma MissedThoughConnected(events: seq<Event>, filter: string, starts: bool, maxFilters: nat)
    requires IsRun(events, maxFilters) && IsConnected(Run(events)) && |Run(events).filters| < maxFilters
    ensures var later := events + [LinkDown] + [Register(filter)] + [LinkUp(starts)];
            && IsRun(later, maxFilters) && IsConnected(Run(later)) && |Registered(events)| !in Run(later).subscribed
  {
    var down := events + [LinkDown];
    var registered := down + [Register(filter)];
    var later := registered + [LinkUp(starts)];
    assert Init(down) == events && Init(registered) == down && Init(later) == registered;
    RunIsHistory(events, maxFilters);
    assert IsRun(down, maxFilters) && Run(down) == Next(Run(events), LinkDown);
    assert IsRun(registered, maxFilters) && Run(registered) == Next(Run(down), Register(filter));
    assert IsRun(later, maxFilters);
    RunIsHistory(later, maxFilters);
    assert Missed(registered) == Missed(down) + {|Registered(events)|};
  }

  /** How a filter comes to be missed: registered in a session while the link is down. */
  lemma RegisteredLinkDown(events: seq<Event>, filter: string, maxFilters: nat)
    requires IsRun(events, maxFilters) && |Run(events).filters| < maxFilters
    ensures IsRun(events + [Register(filter)], maxFilters)
    ensures |Registered(events)| in Missed(events + [Register(filter)]) <==> SessionUp(events) && !LinkSeenUp(events)
  {
    assert Init(events + [Register(filter)]) == events;
    RunIsHistory(events, maxFilters);
  }

  // ---------------------------------------------------------------- when the client runs

  /** An event with which the client begins to run: its start call works, on a link that has
      just come up or that was last seen up. */
  predicate SetsOff(events: seq<Event>, i: nat)
    requires i < |events|
  {
    events[i] == LinkUp(true) || (events[i] == Start(true) && LinkSeenUp(events[..i]))
  }

  ghost predicate NoStopAfter(events: seq<Event>, i: nat) {
    forall j :: i < j < |events| ==> !events[j].Stop?
  }

  /** The client runs exactly when something set it off and no stop has come since. */
  lemma {:induction false} RunsSinceSetOff(events: seq<Event>, maxFilters: nat)
    requires IsRun(events, maxFilters)
    ensures Run(events).running <==> exists i: nat :: i < |events| && SetsOff(events, i) && NoStopAfter(events, i)
    ensures Run(events).running ==> Run(events).client
    decreases |events|
  {
    if events != [] {
      var init, n := Init(events), |events| - 1;
      RunsSinceSetOff(init, maxFilters);
      FlagIsLastSeen(init);
      assert events[..n] == init;
      assert SetsOff(events, n) && NoStopAfter(events, n) <==>
             Last(events) == LinkUp(true) || (Last(events) == Start(true) && LinkSeenUp(init));
      forall i: nat | i < n
        ensures SetsOff(events, i) && NoStopAfter(events, i) <==>
                SetsOff(init, i) && NoStopAfter(init, i) && !Last(events).Stop?
      {
        SetOffBefore(events, i);
      }
    }
  }

  lemma SetOffBefore(events: seq<Event>, i: nat)
    requires i < |events| - 1
    ensures SetsOff(events, i) && NoStopAfter(events, i) <==>
            SetsOff(Init(events), i) && NoStopAfter(Init(events), i) && !Last(events).Stop?
  {
    var init := Init(events);
    assert init[..i] == events[..i] && init[i] == events[i];
    if NoStopAfter(init, i) && !Last(events).Stop? {
      forall j | i < j < |events| ensures !events[j].Stop? {
        assert j < |init| ==> events[j] == init[j];
      }
    }
    if NoStopAfter(events, i) {
      assert !events[|events| - 1].Stop?;
      forall j | i < j < |init| ensures !init[j].Stop? {
        assert init[j] == events[j];
      }
    }
  }

  /** After a stop nothing runs, and no connection is reported, until the next start. */
  lemma {:induction false} StoppedIsQuiet(events: seq<Event>, more: seq<Event>, maxFilters: nat)
    requires IsRun(events + [Stop] + more, maxFilters) && (forall e :: e in more ==> !e.Start?)
    ensures var s := Run(events + [Stop] + more); !s.client && !s.running && !s.session && !IsConnected(s)
    decreases |more|
  {
    var stopped := events + [Stop];
    if more == [] {
      assert stopped + more == stopped && Init(stopped) == events;
    } else {
      InitOf(stopped, more);
      assert Last(more) in more;
      StoppedIsQuiet(events, Init(more), maxFilters);
    }
  }

  // ---------------------------------------------------------------- a link already up

  /** Nothing is known of the link before the first start: the handler that learns of it is
      registered there. */
  lemma {:induction false} NothingBeforeStart(events: seq<Event>, maxFilters: nat)
    requires IsRun(events, maxFilters) && (forall e :: e in events ==> !e.Start?)
    ensures var s := Run(events); !s.client && !s.running && !s.linkUp && !LinkSeenUp(events)
    decreases |events|
  {
    if events != [] {
      assert Last(events) in events;
      NothingBeforeStart(Init(events), maxFilters);
    }
  }

  lemma {:induction false} FlagIsLastSeen(events: seq<Event>)
    ensures Run(events).linkUp == LinkSeenUp(events)
    decreases |events|
  {
    if events != [] {
      FlagIsLastSeen(Init(events));
    }
  }

  /** A start goes by the last link event seen, however old: it may have come before a stop. */
  lemma StartFollowsLastSeen(events: seq<Event>, starts: bool)
    ensures Run(events + [Start(starts)]).running <==> LinkSeenUp(events) && starts
  {
    FlagIsLastSeen(events);
    assert Init(events + [Start(starts)]) == events;
  }

  /** So a first start never starts the client, whether the link is up or not, and nothing
      but a link that comes up afterwards does. */
  lemma {:induction false} FirstStartWaits(events: seq<Event>, starts: bool, more: seq<Event>, maxFilters: nat)
    requires IsRun(events + [Start(starts)] + more, maxFilters) && (forall e :: e in events ==> !e.Start?)
    requires forall e :: e in more ==> !e.Start? && !e.LinkUp?
    ensures !Run(events + [Start(starts)] + more).running
    decreases |more|
  {
    var first := events + [Start(starts)];
    PrefixIsRun(first, more, maxFilters);
    PrefixIsRun(events, [Start(starts)], maxFilters);
    if more == [] {
      assert first + more == first;
      NothingBeforeStart(events, maxFilters);
      StartFollowsLastSeen(events, starts);
    } else {
      InitOf(first, more);
      assert Last(more) in more;
      FirstStartWaits(events, starts, Init(more), maxFilters);
    }
  }

  /** What happens around the manager: the network comes and goes whether or not anything
      listens, everything else is an event of its own. */
  datatype Happening = Network(up: bool, starts: bool) | Own(event: Event)

  /** What the manager sees of it: the network only while a client is there to listen. */
  function Seen(world: seq<Happening>): seq<Event>
    decreases |world|
  {
    if world == [] then []
    else
      var before := Seen(world[..|world| - 1]);
      match world[|world| - 1]
      case Own(e) => before + [e]
      case Network(up, starts) =>
        if !Started(before) then before else before + [if up then LinkUp(starts) else LinkDown]
  }

  predicate Orderly(world: seq<Happening>) {
    forall h :: h in world ==> h.Own? ==> !h.event.LinkUp? && !h.event.LinkDown?
  }

  predicate ReallyUp(world: seq<Happening>)
    decreases |world|
  {
    world != [] &&
    var h := world[|world| - 1];
    if h.Network? then h.up else ReallyUp(world[..|world| - 1])
  }

  /** The link as of the last change that happened while a client was listening. */
  predicate SeenUp(world: seq<Happening>)
    decreases |world|
  {
    world != [] &&
    var before, h := world[..|world| - 1], world[|world| - 1];
    if h.Network? && Started(Seen(before)) then h.up else SeenUp(before)
  }

  lemma {:induction false} FlagIsSeenUp(world: seq<Happening>)
    requires Orderly(world)
    ensures LinkSeenUp(Seen(world)) == SeenUp(world)
    decreases |world|
  {
    if world != [] {
      var before, h := world[..|world| - 1], world[|world| - 1];
      FlagIsSeenUp(before);
      assert h in world;
      if h.Own? {
        assert Init(Seen(before) + [h.event]) == Seen(before);
      } else if Started(Seen(before)) {
        assert Init(Seen(world)) == Seen(before);
      }
    }
  }

  /** A start whose client can start runs it exactly when the link was up as last seen; so
      it does what it is for, starting on a link that is up, exactly when the link is now as
      it was last seen. */
  lemma StartMeetsPromise(world: seq<Happening>)
    requires Orderly(world)
    ensures Run(Seen(world) + [Start(true)]).running == SeenUp(world)
    ensures Run(Seen(world) + [Start(true)]).running == ReallyUp(world) <==> SeenUp(world) == ReallyUp(world)
  {
    FlagIsSeenUp(world);
    StartFollowsLastSeen(Seen(world), true);
  }

  lemma NetworkThen(world: seq<Happening>, up: bool, starts: bool)
    ensures var later := world + [Network(up, starts)];
            && ReallyUp(later) == up && SeenUp(later) == (if Started(Seen(world)) then up else SeenUp(world))
            && Started(Seen(later)) == Started(Seen(world))
  {
    var later := world + [Network(up, starts)];
    assert later[..|world|] == world && later[|later| - 1] == Network(up, starts);
    if Started(Seen(world)) {
      assert Init(Seen(later)) == Seen(world);
    }
  }

  lemma OwnThen(world: seq<Happening>, e: Event)
    ensures var later := world + [Own(e)];
            && ReallyUp(later) == ReallyUp(world) && SeenUp(later) == SeenUp(world)
            && Started(Seen(later)) == (if e.Start? then true else if e.Stop? then false else Started(Seen(world)))
  {
    var later := world + [Own(e)];
    assert later[..|world|] == world && later[|later| - 1] == Own(e);
    assert Init(Seen(world) + [e]) == Seen(world);
  }

  /** The link up before the first start: nothing is started. */
  lemma LateStart(starts: bool) returns (world: seq<Happening>)
    ensures world == [Network(true, starts)] && Orderly(world) && ReallyUp(world)
    ensures !Run(Seen(world) + [Start(true)]).running
  {
    world := [Network(true, starts)];
    NetworkThen([], true, starts);
    assert [] + world == world;
    StartMeetsPromise(world);
  }

  /** The link lost while stopped: the next start runs on a link that is not there. */
  lemma StaleStart(starts: bool) returns (world: seq<Happening>)
    ensures world == [Own(Start(starts)), Network(true, starts), Own(Stop), Network(false, starts)]
    ensures Orderly(world) && !ReallyUp(world) && Run(Seen(world) + [Start(true)]).running
  {
    var started := [] + [Own(Start(starts))];
    var up := started + [Network(true, starts)];
    var stopped := up + [Own(Stop)];
    world := stopped + [Network(false, starts)];
    OwnThen([], Start(starts));
    NetworkThen(started, true, starts);
    OwnThen(up, Stop);
    NetworkThen(stopped, false, starts);
    StartMeetsPromise(world);
  }

  // ---------------------------------------------------------------- the component

  class Manager {
    const maxFilters: nat
    var client: bool
    var running: bool
    var session: bool
    var linkUp: bool
    var filters: array<string>
    var filterCount: nat
    /** What the broker has been asked for in the current session. */
    ghost var subscribed: set<nat>
    ghost var events: seq<Event>

    ghost function Abstract(): State
      requires filterCount <= filters.Length
      reads this, filters
    {
      State(client, running, session, linkUp, filters[..filterCount], subscribed)
    }

    ghost predicate Valid()
      reads this, filters
    {
      && filterCount <= filters.Length == maxFilters
      && IsRun(events, maxFilters) && Run(events) == Abstract()
    }

    constructor (maxFilters: nat)
      ensures Valid() && fresh(filters) && events == [] && this.maxFilters == maxFilters
    {
      this.maxFilters := maxFilters;
      client, running, session, linkUp := false, false, false, false;
      filters := new string[maxFilters](_ => "");
      filterCount := 0;
      subscribed, events := {}, [];
    }

    ghost method Record(e: Event)
      requires IsRun(events, maxFilters) && CanHappen(Run(events), e, maxFilters)
      modifies this`events
      ensures events == old(events) + [e] && IsRun(events, maxFilters) && Run(events) == Next(Run(old(events)), e)
    {
      events := events + [e];
      assert Init(events) == old(events);
    }

    method Subscribe(position: nat)
      modifies this`subscribed
      ensures subscribed == old(subscribed) + {position}
    {
      subscribed := subscribed + {position};
    }

    /** A new session starts with nothing subscribed at the broker. */
    method OnConnected()
      requires Valid() && client && running
      modifies this`session, this`subscribed, this`events
      ensures Valid() && events == old(events) + [Connected] && subscribed == Positions(filterCount) && session
    {
      session := true;
      subscribed := {};
      var i := 0;
      while i < filterCount
        modifies this`subscribed
        invariant i <= filterCount && subscribed == Positions(i)
      {
        Subscribe(i);
        i := i + 1;
      }
      Record(Connected);
    }

    method OnDisconnected()
      requires Valid() && client && running
      modifies this`session, this`events
      ensures Valid() && events == old(events) + [Disconnected] && !session
    {
      session := false;
      Record(Disconnected);
    }

    method OnLinkUp(starts: bool)
      requires Valid() && client
      modifies this`linkUp, this`running, this`events
      ensures Valid() && events == old(events) + [LinkUp(starts)]
      ensures linkUp && running == (old(running) || starts)
    {
      linkUp := true;
      if client && !running {
        if starts {
          running := true;
        }
      }
      Record(LinkUp(starts));
    }

    method OnLinkDown()
      requires Valid() && client
      modifies this`linkUp, this`events
      ensures Valid() && events == old(events) + [LinkDown] && !linkUp && session == old(session)
    {
      linkUp := false;
      Record(LinkDown);
    }

    /** A second start is refused; the client runs at once only on a link already seen up. */
    method StartClient(starts: bool) returns (ok: bool)
      requires Valid()
      modifies this`client, this`running, this`events
      ensures Valid() && (ok <==> !old(client))
      ensures events == old(events) + if ok then [Start(starts)] else []
      ensures ok ==> (running <==> LinkSeenUp(old(events)) && starts)
      ensures ok && (forall e :: e in old(events) ==> !e.Start?) ==> !running
      ensures client && (!ok ==> running == old(running))
    {
      FlagIsLastSeen(events);
      if forall e :: e in events ==> !e.Start? {
        NothingBeforeStart(events, maxFilters);
      }
      if client {
        return false;
      }
      client := true;
      running := false;
      if linkUp {
        if starts {
          running := true;
        }
      }
      Record(Start(starts));
      return true;
    }

    method StopClient() returns (ok: bool)
      requires Valid()
      modifies this`client, this`session, this`running, this`events
      ensures Valid() && (ok <==> old(client))
      ensures events == old(events) + if ok then [Stop] else []
      ensures !client && (ok ==> !running && !session)
    {
      if !client {
        return false;
      }
      session := false;
      running := false;
      client := false;
      Record(Stop);
      return true;
    }

    method Connectivity() returns (up: bool)
      requires Valid()
      ensures client ==> (up <==> SessionUp(events) && LinkSeenUp(events))
      ensures !client ==> !up
    {
      RunIsHistory(events, maxFilters);
      return session && linkUp && client;
    }

    /** A filter registered while connected is subscribed at once, and at no other time but
        a new session. `filter` is absent when the full topic does not fit. */
    method RegisterFilter(filter: Option<string>, qos: int) returns (ok: bool)
      requires Valid()
      modifies this`filterCount, this`subscribed, this`events, filters
      ensures Valid()
      ensures ok <==> 0 <= qos <= 2 && old(filterCount) < maxFilters && filter.Some?
      ensures ok ==> filterCount == old(filterCount) + 1
      ensures ok ==> filters[..filterCount] == old(filters[..filterCount]) + [filter.value]
      ensures ok ==> events == old(events) + [Register(filter.value)]
      ensures ok ==> (old(filterCount) in subscribed <==> SessionUp(old(events)) && LinkSeenUp(old(events)))
      ensures !ok ==> events == old(events) && filterCount == old(filterCount) && subscribed == old(subscribed)
    {
      if qos < 0 || qos > 2 {
        return false;
      }
      if filterCount == maxFilters {
        return false;
      }
      if filter.None? {
        return false;
      }
      RunIsHistory(events, maxFilters);
      filters[filterCount] := filter.value;
      filterCount := filterCount + 1;
      if session && linkUp && client {
        Subscribe(filterCount - 1);
      }
      Record(Register(filter.value));
      return true;
    }

    /** Every handler whose filter matches is called, in the order of registration. */
    method Dispatch(topic: string) returns (called: seq<nat>)
      requires Valid()
      ensures forall i, j :: 0 <= i < j < |called| ==> called[i] < called[j]
      ensures forall i: nat :: i in called <==>
                i < filterCount && MqttTopic.Verdict(false, MqttTopic.Levels(filters[i], 0), MqttTopic.Levels(topic, 0))
    {
      called := [];
      var i := 0;
      while i < filterCount
        invariant i <= filterCount
        invariant forall j :: 0 <= j < |called| ==> called[j] < i
        invariant forall j, k :: 0 <= j < k < |called| ==> called[j] < called[k]
        invariant forall k: nat :: k in called <==>
                    k < i && MqttTopic.Verdict(false, MqttTopic.Levels(filters[k], 0), MqttTopic.Levels(topic, 0))
      {
        var matches := MqttTopic.Matches(filters[i], topic);
        if matches {
          called := called + [i];
        }
        i := i + 1;
      }
    }
  }
}
