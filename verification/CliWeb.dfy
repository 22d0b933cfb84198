/**
 Console output on its way to the browsers: the sink copies text into heap chunks and
 queues them, the broadcaster hands each to the web server, that one sends and frees it, and
 a stop winds the broadcaster down. The four interleave; a chunk is known by the order in which
 it was made.
 */
module CliWeb {
  import opened Options

  // ---------------------------------------------------------------- chunking

  /** The text in pieces of at most `max`. */
  function Chunks(text: string, max: nat): seq<string>
    requires max > 0
  {
    if text == "" then []
    else if |text| <= max then [text]
    else [text[..max]] + Chunks(text[max..], max)
  }

  function Flat(parts: seq<string>): string {
    if parts == [] then "" else parts[0] + Flat(parts[1..])
  }

  /** Together the pieces are the text. */
  lemma {:induction false} ChunksAreTheText(text: string, max: nat)
    requires max > 0
    ensures Flat(Chunks(text, max)) == text
    decreases |text|
  {
    if text != "" {
      if |text| <= max {
        assert [text][1..] == [];
      } else {
        ChunksAreTheText(text[max..], max);
        assert Chunks(text, max)[1..] == Chunks(text[max..], max);
        assert text[..max] + text[max..] == text;
      }
    }
  }

  /** None of them is empty or too long, and only the last may be short. */
  lemma {:induction false} ChunksFit(text: string, max: nat)
    requires max > 0
    ensures forall i :: 0 <= i < |Chunks(text, max)| ==> 0 < |Chunks(text, max)[i]| <= max
    ensures forall i :: 0 <= i < |Chunks(text, max)| - 1 ==> |Chunks(text, max)[i]| == max
    decreases |text|
  {
    if |text| > max {
      ChunksFit(text[max..], max);
    }
  }

  // ---------------------------------------------------------------- the state machine

  datatype Item = Chunk(id: nat) | Sentinel

  datatype Task = Absent | Waiting | Holding(id: nat) | Finished

  datatype Stopping = Running | Unregistered | Joining | Draining | Down

  /** `rest` is what the sink call under way has yet to queue and `held` the chunk it has
      just made. `offered` is every piece of every text the sink was given, `place`
      where in it each chunk's text stands, and `payload` what was copied into the chunk. */
  datatype State = State(
    rest: Option<string>, held: Option<nat>, queue: seq<Item>, task: Task, work: seq<nat>, sending: Option<nat>,
    stopping: Stopping, dropped: nat, payload: seq<string>, delivered: seq<nat>, freed: multiset<nat>,
    offered: seq<string>, place: seq<int>)

  const Initial := State(None, None, [], Absent, [], None, Down, 0, [], [], multiset{}, [], [])

  datatype Event =
    | Start(taskCreated: bool, registered: bool)
    | SinkCall(text: string, ownPath: bool)
    | Alloc(works: bool)
    | Send
    | Receive
    | HandOver(accepted: bool)
    | ServerTakes
    | ServerDone(listed: bool)
    | Unregister
    | SendSentinel
    | Joined
    | DrainOne
    | DeleteQueue

  predicate CanHappen(s: State, e: Event, room: nat) {
    match e
    case Start(_, _) => s.stopping == Down
    case SinkCall(_, _) => s.stopping == Running && s.rest.None?
    case Alloc(_) => s.rest.Some? && s.held.None?
    case Send => s.held.Some?
    case Receive => s.task == Waiting && s.queue != []
    case HandOver(_) => s.task.Holding?
    case ServerTakes => s.work != [] && s.sending.None?
    case ServerDone(_) => s.sending.Some?
    case Unregister => s.stopping == Running && s.rest.None?
    case SendSentinel => s.stopping == Unregistered && s.task != Absent && |s.queue| < room
    case Joined => (s.stopping == Unregistered && s.task == Absent) || (s.stopping == Joining && s.task == Finished)
    case DrainOne => s.stopping == Draining && s.queue != []
    case DeleteQueue => s.stopping == Draining && s.queue == []
  }

  function Free(s: State, id: nat): State {
    s.(freed := s.freed + multiset{id})
  }

  /** What is left to queue after one more piece. */
  function Advanced(rest: string, max: nat): Option<string>
    requires max > 0
  {
    if |rest| <= max then None else Some(rest[max..])
  }

  function Next(s: State, e: Event, room: nat, max: nat): State
    requires max > 0
  {
    match e
    case Start(taskCreated, registered) =>
      s.(queue := [], dropped := 0, task := if taskCreated then Waiting else Absent,
         stopping := if taskCreated && registered then Running else Unregistered)
    case SinkCall(text, ownPath) =>
      if text == "" then s
      else if ownPath then s.(dropped := s.dropped + 1, offered := s.offered + Chunks(text, max))
      else s.(rest := Some(text), offered := s.offered + Chunks(text, max))
    case Alloc(works) =>
      if s.rest.None? then s
      else if !works then s.(rest := None, dropped := s.dropped + 1)
      else
        var rest := s.rest.value;
        s.(held := Some(|s.payload|), payload := s.payload + [rest[..if |rest| > max then max else |rest|]],
           place := s.place + [|s.offered| - |Chunks(rest, max)|])
    case Send =>
      if s.held.None? || s.rest.None? then s
      else if |s.queue| < room then
        s.(held := None, queue := s.queue + [Chunk(s.held.value)], rest := Advanced(s.rest.value, max))
      else Free(s, s.held.value).(held := None, rest := None, dropped := s.dropped + 1)
    case Receive =>
      if s.queue == [] then s
      else s.(queue := s.queue[1..], task := if s.queue[0].Chunk? then Holding(s.queue[0].id) else Finished)
    case HandOver(accepted) =>
      if !s.task.Holding? then s
      else if accepted then s.(task := Waiting, work := s.work + [s.task.id])
      else Free(s, s.task.id).(task := Waiting, dropped := s.dropped + 1)
    case ServerTakes => if s.work == [] then s else s.(sending := Some(s.work[0]), work := s.work[1..])
    case ServerDone(listed) =>
      if s.sending.None? then s
      else
        Free(s, s.sending.value).(sending := None,
          delivered := if listed then s.delivered + [s.sending.value] else s.delivered)
    case Unregister => s.(stopping := Unregistered)
    case SendSentinel => s.(queue := s.queue + [Sentinel], stopping := Joining)
    case Joined => s.(task := Absent, stopping := Draining)
    case DrainOne =>
      if s.queue == [] then s
      else
        var t := s.(queue := s.queue[1..]);
        if s.queue[0].Chunk? then Free(t, s.queue[0].id) else t
    case DeleteQueue => s.(stopping := Down)
  }

  ghost predicate IsRun(s: State, events: seq<Event>, room: nat, max: nat)
    requires max > 0
    decreases |events|
  {
    events == [] ||
    (CanHappen(s, events[0], room) && IsRun(Next(s, events[0], room, max), events[1..], room, max))
  }

  function Run(s: State, events: seq<Event>, room: nat, max: nat): State
    requires max > 0
    decreases |events|
  {
    if events == [] then s else Run(Next(s, events[0], room, max), events[1..], room, max)
  }

  // ---------------------------------------------------------------- who owns a chunk

  function One(id: Option<nat>): seq<nat> {
    if id.Some? then [id.value] else []
  }

  function Taken(t: Task): seq<nat> {
    if t.Holding? then [t.id] else []
  }

  function Ids(queue: seq<Item>): seq<nat> {
    if queue == [] then []
    else IdOf(queue[0]) + Ids(queue[1..])
  }

  /** Everything not yet freed, oldest first: with the server, with the broadcaster, in the queue,
      in the sink's hands. */
  function Owned(s: State): seq<nat> {
    Line(One(s.sending), s.work, Taken(s.task), Ids(s.queue), One(s.held))
  }

  function Line(a: seq<nat>, b: seq<nat>, c: seq<nat>, d: seq<nat>, e: seq<nat>): seq<nat> {
    a + b + c + d + e
  }

  predicate Ascending(ids: seq<nat>) {
    forall i, j :: 0 <= i < j < |ids| ==> ids[i] < ids[j]
  }

  // ---------------------------------------------------------------- ownership

  /** Every chunk allocated so far is owned in one place and not freed, or has been freed
      once; what has been delivered is older than what has not. */
  ghost predicate Ownership(owned: seq<nat>, freed: multiset<nat>, delivered: seq<nat>, made: nat) {
    && Ascending(owned) && Ascending(delivered)
    && (forall id :: id in owned ==> id < made)
    && (forall id: nat :: freed[id] == if id < made && id !in owned then 1 else 0)
    && (forall d, o :: d in delivered && o in owned ==> d < o)
    && (forall d :: d in delivered ==> d < made)
  }

  lemma FreshChunk(owned: seq<nat>, freed: multiset<nat>, delivered: seq<nat>, made: nat)
    requires Ownership(owned, freed, delivered, made)
    ensures Ownership(owned + [made], freed, delivered, made + 1)
  {
    var more := owned + [made];
    assert forall id :: id in more <==> id in owned || id == made;
    assert forall i :: 0 <= i < |owned| ==> more[i] in owned;
  }

  lemma FreedChunk(a: seq<nat>, id: nat, b: seq<nat>, freed: multiset<nat>, delivered: seq<nat>, made: nat)
    requires Ownership(a + [id] + b, freed, delivered, made)
    ensures Ownership(a + b, freed + multiset{id}, delivered, made)
  {
    var before, after := a + [id] + b, a + b;
    assert before[|a|] == id;
    assert forall i :: 0 <= i < |a| ==> after[i] == before[i];
    assert forall i :: |a| <= i < |after| ==> after[i] == before[i + 1];
    assert forall k :: k in before <==> k in after || k == id;
    assert id !in after by {
      assert forall i :: 0 <= i < |a| ==> before[i] < before[|a|];
      assert forall i :: |a| < i < |before| ==> before[|a|] < before[i];
    }
    assert forall k: nat :: (freed + multiset{id})[k] == freed[k] + if k == id then 1 else 0;
  }

  lemma DeliveredNext(owned: seq<nat>, freed: multiset<nat>, delivered: seq<nat>, id: nat, made: nat)
    requires Ownership(owned, freed, delivered, made) && id < made
    requires (forall d :: d in delivered ==> d < id) && (forall o :: o in owned ==> id < o)
    ensures Ownership(owned, freed, delivered + [id], made)
  {
    var more := delivered + [id];
    assert forall i :: 0 <= i < |delivered| ==> more[i] in delivered;
    assert forall d :: d in more <==> d in delivered || d == id;
  }

  lemma OldestIsLeast(id: nat, b: seq<nat>)
    requires Ascending([id] + b)
    ensures forall o :: o in b ==> id < o
  {
    var owned := [id] + b;
    assert owned[0] == id && forall i :: 0 <= i < |b| ==> owned[i + 1] == b[i];
  }

  lemma SentChunk(id: nat, b: seq<nat>, freed: multiset<nat>, delivered: seq<nat>, made: nat, listed: bool)
    requires Ownership([id] + b, freed, delivered, made)
    ensures Ownership(b, freed + multiset{id}, if listed then delivered + [id] else delivered, made)
  {
    assert [] + [id] + b == [id] + b && [] + b == b;
    FreedChunk([], id, b, freed, delivered, made);
    assert id in [id] + b by { assert ([id] + b)[0] == id; }
    OldestIsLeast(id, b);
    if listed {
      DeliveredNext(b, freed + multiset{id}, delivered, id, made);
    }
  }

  function IdOf(item: Item): seq<nat> {
    if item.Chunk? then [item.id] else []
  }

  lemma {:induction false} IdsOfAppended(queue: seq<Item>, item: Item)
    ensures Ids(queue + [item]) == Ids(queue) + IdOf(item)
    decreases |queue|
  {
    var more := queue + [item];
    if queue == [] {
      assert more == [item] && [item][1..] == [];
    } else {
      assert more[1..] == queue[1..] + [item] && more[0] == queue[0];
      IdsOfAppended(queue[1..], item);
      assert IdOf(queue[0]) + (Ids(queue[1..]) + IdOf(item)) == IdOf(queue[0]) + Ids(queue[1..]) + IdOf(item);
    }
  }

  // ---------------------------------------------------------------- stopping

  predicate Chunky(queue: seq<Item>) {
    forall i :: 0 <= i < |queue| ==> queue[i].Chunk?
  }

  /** The sentinel is the last thing ever queued, so a finished broadcaster leaves nothing behind. */
  predicate Orderly(s: State) {
    && (s.rest.Some? ==> s.stopping == Running && s.rest.value != "")
    && (s.held.Some? ==> s.rest.Some?)
    && match s.stopping
       case Running => Chunky(s.queue) && s.task != Absent && s.task != Finished
       case Unregistered => Chunky(s.queue) && s.task != Finished && (s.task == Absent ==> s.queue == [])
       case Joining =>
         && s.task != Absent
         && if s.task == Finished then s.queue == []
            else s.queue != [] && Chunky(s.queue[..|s.queue| - 1]) && s.queue[|s.queue| - 1] == Sentinel
       case Draining => s.task == Absent && s.queue == []
       case Down => s.task == Absent && s.queue == []
  }

  lemma QueueStepIsOrderly(s: State, e: Event, room: nat, max: nat)
    requires max > 0 && Orderly(s) && CanHappen(s, e, room) && (e.Send? || e.Receive? || e.SendSentinel? || e.DrainOne?)
    ensures Orderly(Next(s, e, room, max))
  {
  }

  lemma StepIsOrderly(s: State, e: Event, room: nat, max: nat)
    requires max > 0 && Orderly(s) && CanHappen(s, e, room)
    ensures Orderly(Next(s, e, room, max))
  {
    if e.Send? || e.Receive? || e.SendSentinel? || e.DrainOne? {
      QueueStepIsOrderly(s, e, room, max);
    }
  }

  ghost predicate Owns(s: State) {
    Ownership(Owned(s), s.freed, s.delivered, |s.payload|)
  }

  lemma AtTheSink(a: seq<nat>, b: seq<nat>, c: seq<nat>, d: seq<nat>, id: nat)
    ensures Line(a, b, c, d, [id]) == Line(a, b, c, d, []) + [id]
    ensures Line(a, b, c, d, [id]) == Line(a, b, c, d, []) + [id] + []
    ensures Line(a, b, c, d + [id], []) == Line(a, b, c, d, [id])
    ensures Line(a, b, c, d, []) + [] == Line(a, b, c, d, [])
  {
  }

  lemma AtTheTask(a: seq<nat>, b: seq<nat>, d: seq<nat>, e: seq<nat>, id: nat)
    ensures Line(a, b, [], [id] + d, e) == Line(a, b, [id], d, e)
    ensures Line(a, b, [id], d, e) == (a + b) + [id] + (d + e)
    ensures Line(a, b, [], d, e) == (a + b) + (d + e)
    ensures Line(a, b + [id], [], d, e) == Line(a, b, [id], d, e)
  {
  }

  lemma AtTheServer(b: seq<nat>, c: seq<nat>, d: seq<nat>, e: seq<nat>, id: nat)
    ensures Line([], [id] + b, c, d, e) == Line([id], b, c, d, e)
    ensures Line([id], b, c, d, e) == [id] + Line([], b, c, d, e)
  {
  }

  lemma SinkStep(s: State, e: Event, room: nat, max: nat)
    requires max > 0 && Owns(s) && CanHappen(s, e, room) && (e.Alloc? || e.Send?)
    ensures Owns(Next(s, e, room, max))
  {
    var a, b, c, d := One(s.sending), s.work, Taken(s.task), Ids(s.queue);
    if e.Alloc? && e.works {
      AtTheSink(a, b, c, d, |s.payload|);
      FreshChunk(Owned(s), s.freed, s.delivered, |s.payload|);
    } else if e.Send? && s.rest.Some? {
      var id := s.held.value;
      AtTheSink(a, b, c, d, id);
      if |s.queue| < room {
        IdsOfAppended(s.queue, Chunk(id));
      } else {
        FreedChunk(Line(a, b, c, d, []), id, [], s.freed, s.delivered, |s.payload|);
      }
    }
  }

  lemma TaskStep(s: State, e: Event, room: nat, max: nat)
    requires max > 0 && Owns(s) && CanHappen(s, e, room) && (e.Receive? || e.HandOver?)
    ensures Owns(Next(s, e, room, max))
  {
    var a, b, d, h := One(s.sending), s.work, Ids(s.queue), One(s.held);
    if e.Receive? {
      if s.queue[0].Chunk? {
        AtTheTask(a, b, Ids(s.queue[1..]), h, s.queue[0].id);
      } else {
        assert Ids(s.queue) == Ids(s.queue[1..]);
      }
    } else {
      AtTheTask(a, b, d, h, s.task.id);
      if !e.accepted {
        FreedChunk(a + b, s.task.id, d + h, s.freed, s.delivered, |s.payload|);
      }
    }
  }

  lemma ServerStep(s: State, e: Event, room: nat, max: nat)
    requires max > 0 && Owns(s) && CanHappen(s, e, room) && (e.ServerTakes? || e.ServerDone?)
    ensures Owns(Next(s, e, room, max))
  {
    var c, d, h := Taken(s.task), Ids(s.queue), One(s.held);
    if e.ServerTakes? {
      assert s.work == [s.work[0]] + s.work[1..];
      AtTheServer(s.work[1..], c, d, h, s.work[0]);
    } else {
      AtTheServer(s.work, c, d, h, s.sending.value);
      SentChunk(s.sending.value, Line([], s.work, c, d, h), s.freed, s.delivered, |s.payload|, e.listed);
    }
  }

  lemma StopStep(s: State, room: nat, max: nat)
    requires max > 0 && Owns(s)
    ensures Owns(Next(s, SendSentinel, room, max))
  {
    IdsOfAppended(s.queue, Sentinel);
    assert Ids(s.queue) + [] == Ids(s.queue);
    assert Owned(Next(s, SendSentinel, room, max)) == Owned(s);
  }

  lemma StepKeepsOwners(s: State, e: Event, room: nat, max: nat)
    requires max > 0 && Orderly(s) && Owns(s) && CanHappen(s, e, room)
    ensures Owns(Next(s, e, room, max))
  {
    match e
    case Alloc(_) => SinkStep(s, e, room, max);
    case Send => SinkStep(s, e, room, max);
    case Receive => TaskStep(s, e, room, max);
    case HandOver(_) => TaskStep(s, e, room, max);
    case ServerTakes => ServerStep(s, e, room, max);
    case ServerDone(_) => ServerStep(s, e, room, max);
    case SendSentinel => StopStep(s, room, max);
    case _ =>
  }

  // ---------------------------------------------------------------- what the chunks say

  /** Each chunk holds the piece its place names, and later chunks later pieces. */
  ghost predicate Faithful(payload: seq<string>, place: seq<int>, offered: seq<string>, below: int) {
    && |place| == |payload| && below <= |offered|
    && (forall i, j :: 0 <= i < j < |place| ==> place[i] < place[j])
    && (forall i :: 0 <= i < |place| ==> 0 <= place[i] < below && payload[i] == offered[place[i]])
  }

  /** The pieces still to be queued are the last ones offered. */
  ghost predicate Follows(s: State, max: nat)
    requires max > 0
  {
    if s.rest.None? then Faithful(s.payload, s.place, s.offered, |s.offered|)
    else
      var left := Chunks(s.rest.value, max);
      var next := |s.offered| - |left|;
      && 0 <= next && s.offered[next..] == left
      && Faithful(s.payload, s.place, s.offered, if s.held.Some? then next + 1 else next)
  }

  lemma FaithfulLater(
    payload: seq<string>, place: seq<int>, offered: seq<string>, more: seq<string>, below: int, above: int)
    requires Faithful(payload, place, offered, below) && below <= above <= |offered + more|
    ensures Faithful(payload, place, offered + more, above)
  {
  }

  lemma PieceCopied(payload: seq<string>, place: seq<int>, offered: seq<string>, next: int)
    requires 0 <= next < |offered| && Faithful(payload, place, offered, next)
    ensures Faithful(payload + [offered[next]], place + [next], offered, next + 1)
  {
  }

  lemma FirstPiece(rest: string, max: nat)
    requires max > 0 && rest != ""
    ensures var pieces := Chunks(rest, max);
            && |pieces| > 0 && pieces[0] == rest[..if |rest| > max then max else |rest|]
            && pieces[1..] == if Advanced(rest, max).Some? then Chunks(Advanced(rest, max).value, max) else []
  {
    if |rest| <= max {
      assert rest[..|rest|] == rest;
    }
  }

  lemma TextOffered(s: State, text: string, ownPath: bool, room: nat, max: nat)
    requires max > 0 && s.rest.None? && s.held.None? && Follows(s, max) && text != ""
    ensures Follows(Next(s, SinkCall(text, ownPath), room, max), max)
  {
    var more := Chunks(text, max);
    FaithfulLater(s.payload, s.place, s.offered, more, |s.offered|,
                  if ownPath then |s.offered + more| else |s.offered|);
    assert (s.offered + more)[|s.offered|..] == more;
  }

  /** The call gives up: what is left is not queued. */
  lemma TextGivenUp(s: State, max: nat)
    requires max > 0 && Follows(s, max) && (s.rest.Some? ==> s.rest.value != "")
    ensures Faithful(s.payload, s.place, s.offered, |s.offered|)
  {
    if s.rest.Some? {
      FirstPiece(s.rest.value, max);
      var below := |s.offered| - |Chunks(s.rest.value, max)| + if s.held.Some? then 1 else 0;
      assert s.offered + [] == s.offered;
      FaithfulLater(s.payload, s.place, s.offered, [], below, |s.offered|);
    }
  }

  lemma TextCopied(s: State, room: nat, max: nat)
    requires max > 0 && Follows(s, max) && s.rest.Some? && s.rest.value != "" && s.held.None?
    ensures Follows(Next(s, Alloc(true), room, max), max)
  {
    var left := Chunks(s.rest.value, max);
    var next := |s.offered| - |left|;
    FirstPiece(s.rest.value, max);
    assert s.offered[next] == left[0] by { assert s.offered[next..][0] == left[0]; }
    PieceCopied(s.payload, s.place, s.offered, next);
  }

  lemma TextQueued(s: State, room: nat, max: nat)
    requires max > 0 && Follows(s, max) && s.rest.Some? && s.rest.value != "" && s.held.Some? && |s.queue| < room
    ensures Follows(Next(s, Send, room, max), max)
  {
    var left := Chunks(s.rest.value, max);
    var next := |s.offered| - |left|;
    FirstPiece(s.rest.value, max);
    assert s.offered[next + 1..] == s.offered[next..][1..];
    if |left| == 1 {
      assert next + 1 == |s.offered|;
    }
  }

  lemma StepKeepsText(s: State, e: Event, room: nat, max: nat)
    requires max > 0 && Orderly(s) && Follows(s, max) && CanHappen(s, e, room)
    ensures Follows(Next(s, e, room, max), max)
  {
    match e
    case SinkCall(text, ownPath) => if text != "" { TextOffered(s, text, ownPath, room, max); }
    case Alloc(works) => if works { TextCopied(s, room, max); } else { TextGivenUp(s, max); }
    case Send => if |s.queue| < room { TextQueued(s, room, max); } else { TextGivenUp(s, max); }
    case _ =>
  }

  // ---------------------------------------------------------------- whole runs

  ghost predicate Invariant(s: State, max: nat)
    requires max > 0
  {
    Orderly(s) && Owns(s) && Follows(s, max)
  }

  lemma {:induction false} RunKeeps(s: State, events: seq<Event>, room: nat, max: nat)
    requires max > 0 && Invariant(s, max) && IsRun(s, events, room, max)
    ensures Invariant(Run(s, events, room, max), max)
    decreases |events|
  {
    if events != [] {
      StepIsOrderly(s, events[0], room, max);
      StepKeepsOwners(s, events[0], room, max);
      StepKeepsText(s, events[0], room, max);
      RunKeeps(Next(s, events[0], room, max), events[1..], room, max);
    }
  }

  /** In every interleaving: each chunk allocated is owned in exactly one place or has been
      freed exactly once, never both; after a stop, once the server has run what it
      accepted, every one has been freed. */
  lemma EachChunkFreedOnce(events: seq<Event>, room: nat, max: nat, id: nat)
    requires max > 0 && IsRun(Initial, events, room, max)
    requires id < |Run(Initial, events, room, max).payload|
    ensures var s := Run(Initial, events, room, max);
            && s.freed[id] == (if id in Owned(s) then 0 else 1)
            && (forall i, j :: 0 <= i < j < |Owned(s)| ==> Owned(s)[i] != Owned(s)[j])
            && (s.stopping == Down && s.work == [] && s.sending.None? ==> s.freed[id] == 1)
  {
    StartHolds(max);
    RunKeeps(Initial, events, room, max);
    var s := Run(Initial, events, room, max);
    if s.stopping == Down {
      assert Ids(s.queue) == [] && Taken(s.task) == [] && One(s.held) == [];
    }
  }

  lemma StartHolds(max: nat)
    requires max > 0
    ensures Invariant(Initial, max)
  {
    assert Ownership([], multiset{}, [], 0);
    assert Owned(Initial) == [];
  }

  /** `at` names, in rising order, the pieces the deliveries are. */
  ghost predicate Delivers(at: seq<int>, delivered: seq<nat>, payload: seq<string>, offered: seq<string>) {
    && |at| == |delivered|
    && (forall i, j :: 0 <= i < j < |at| ==> at[i] < at[j])
    && forall i :: 0 <= i < |at| ==>
         0 <= at[i] < |offered| && delivered[i] < |payload| && payload[delivered[i]] == offered[at[i]]
  }

  ghost predicate InOrder(s: State) {
    exists at: seq<int> :: Delivers(at, s.delivered, s.payload, s.offered)
  }

  lemma PlacesDeliver(
    delivered: seq<nat>, payload: seq<string>, place: seq<int>, offered: seq<string>) returns (at: seq<int>)
    requires Ascending(delivered) && (forall i :: 0 <= i < |delivered| ==> delivered[i] < |payload|)
    requires Faithful(payload, place, offered, |offered|)
    ensures Delivers(at, delivered, payload, offered)
  {
    at := seq(|delivered|, i requires 0 <= i < |delivered| => place[delivered[i]]);
  }

  /** What reaches the browsers is, in order, some of the pieces of the text produced. */
  lemma DeliveredInOrder(events: seq<Event>, room: nat, max: nat)
    requires max > 0 && IsRun(Initial, events, room, max)
    ensures InOrder(Run(Initial, events, room, max))
  {
    StartHolds(max);
    RunKeeps(Initial, events, room, max);
    var s := Run(Initial, events, room, max);
    TextGivenUp(s, max);
    assert forall i :: 0 <= i < |s.delivered| ==> s.delivered[i] in s.delivered;
    var at := PlacesDeliver(s.delivered, s.payload, s.place, s.offered);
    assert Delivers(at, s.delivered, s.payload, s.offered);
  }

  // ---------------------------------------------------------------- nothing lost unseen

  /** All pieces but the last `left` have their chunks. */
  predicate AllBut(left: int, payload: seq<string>, offered: seq<string>) {
    0 <= left <= |offered| && payload == offered[..|offered| - left]
  }

  /** The pieces the call under way has yet to copy. */
  function Left(rest: Option<string>, held: bool, max: nat): int
    requires max > 0
  {
    if rest.None? then 0 else |Chunks(rest.value, max)| - if held then 1 else 0
  }

  /** As long as nothing has been counted as dropped, the chunks made are the pieces offered,
      but for those the call under way has yet to copy. */
  ghost predicate Complete(s: State, max: nat)
    requires max > 0
  {
    s.dropped == 0 ==> AllBut(Left(s.rest, s.held.Some?, max), s.payload, s.offered)
  }

  lemma CopiedIsComplete(payload: seq<string>, offered: seq<string>, rest: string, max: nat)
    requires max > 0 && rest != "" && AllBut(|Chunks(rest, max)|, payload, offered)
    requires offered[|offered| - |Chunks(rest, max)|..] == Chunks(rest, max)
    ensures AllBut(|Chunks(rest, max)| - 1, payload + [rest[..if |rest| > max then max else |rest|]], offered)
  {
    FirstPiece(rest, max);
    var next := |offered| - |Chunks(rest, max)|;
    assert offered[next] == offered[next..][0];
    assert offered[..next + 1] == offered[..next] + [offered[next]];
  }

  lemma OfferedIsComplete(payload: seq<string>, offered: seq<string>, more: seq<string>)
    requires AllBut(0, payload, offered)
    ensures AllBut(|more|, payload, offered + more)
  {
    assert offered[..|offered|] == offered && (offered + more)[..|offered|] == offered;
  }

  lemma QueuedIsComplete(rest: string, max: nat)
    requires max > 0 && rest != ""
    ensures Left(Advanced(rest, max), false, max) == Left(Some(rest), true, max)
  {
    FirstPiece(rest, max);
  }

  lemma StepIsComplete(s: State, e: Event, room: nat, max: nat)
    requires max > 0 && Orderly(s) && Follows(s, max) && Complete(s, max) && CanHappen(s, e, room) && !e.Start?
    ensures Complete(Next(s, e, room, max), max)
  {
    match e
    case SinkCall(text, ownPath) =>
      if text != "" && s.dropped == 0 {
        OfferedIsComplete(s.payload, s.offered, Chunks(text, max));
      }
    case Alloc(works) =>
      if works && s.dropped == 0 {
        CopiedIsComplete(s.payload, s.offered, s.rest.value, max);
      }
    case Send => QueuedIsComplete(s.rest.value, max);
    case _ =>
  }

  lemma {:induction false} RunIsComplete(s: State, events: seq<Event>, room: nat, max: nat)
    requires max > 0 && Invariant(s, max) && Complete(s, max) && IsRun(s, events, room, max)
    requires forall e :: e in events ==> !e.Start?
    ensures Complete(Run(s, events, room, max), max)
    decreases |events|
  {
    if events != [] {
      StepIsOrderly(s, events[0], room, max);
      StepKeepsOwners(s, events[0], room, max);
      StepKeepsText(s, events[0], room, max);
      StepIsComplete(s, events[0], room, max);
      RunIsComplete(Next(s, events[0], room, max), events[1..], room, max);
    }
  }

  /** Between two starts no text is lost without being counted: while the counter stands at zero
      and no call is under way, every piece of every text has its chunk, in order. */
  lemma NothingLostUncounted(created: bool, registered: bool, events: seq<Event>, room: nat, max: nat)
    requires max > 0 && IsRun(Initial, [Start(created, registered)] + events, room, max)
    requires forall e :: e in events ==> !e.Start?
    ensures var s := Run(Initial, [Start(created, registered)] + events, room, max);
            s.dropped == 0 && s.rest.None? ==> s.payload == s.offered
  {
    var first := Start(created, registered);
    assert ([first] + events)[1..] == events;
    StartHolds(max);
    StepIsOrderly(Initial, first, room, max);
    StepKeepsOwners(Initial, first, room, max);
    StepKeepsText(Initial, first, room, max);
    RunIsComplete(Next(Initial, first, room, max), events, room, max);
  }

  // ---------------------------------------------------------------- the component

  lemma {:induction false} RunThen(s: State, events: seq<Event>, e: Event, room: nat, max: nat)
    requires max > 0 && IsRun(s, events, room, max) && CanHappen(Run(s, events, room, max), e, room)
    ensures IsRun(s, events + [e], room, max)
    ensures Run(s, events + [e], room, max) == Next(Run(s, events, room, max), e, room, max)
    decreases |events|
  {
    if events == [] {
      assert events + [e] == [e] && [e][1..] == [];
    } else {
      assert (events + [e])[1..] == events[1..] + [e];
      RunThen(Next(s, events[0], room, max), events[1..], e, room, max);
    }
  }

  /** The queue, the counter and the heap, with the locals of the sink call under way. Other
      activities move between any two steps of one; `trace` records all of them in order. */
  class Web {
    const room: nat
    const max: nat
    var rest: Option<string>
    var held: Option<nat>
    var queue: seq<Item>
    var broadcaster: Task
    var work: seq<nat>
    var sending: Option<nat>
    var stopping: Stopping
    var dropped: nat
    var payload: seq<string>
    ghost var delivered: seq<nat>
    ghost var freed: multiset<nat>
    ghost var offered: seq<string>
    ghost var place: seq<int>
    ghost var trace: seq<Event>

    ghost function Abstract(): State
      reads this
    {
      State(rest, held, queue, broadcaster, work, sending, stopping, dropped, payload, delivered, freed, offered, place)
    }

    /** The fields are where the recorded run of the state machine leads. */
    ghost predicate Valid()
      reads this
    {
      max > 0 && room > 0 && IsRun(Initial, trace, room, max) && Run(Initial, trace, room, max) == Abstract()
    }

    constructor (room: nat, max: nat)
      requires room > 0 && max > 0
      ensures Valid() && Abstract() == Initial && this.room == room && this.max == max
    {
      this.room, this.max := room, max;
      rest, held, queue, broadcaster, work, sending := None, None, [], Absent, [], None;
      stopping, dropped, payload := Down, 0, [];
      delivered, freed, offered, place, trace := [], multiset{}, [], [], [];
    }

    ghost method Record(e: Event)
      requires max > 0 && room > 0 && IsRun(Initial, trace, room, max)
      requires CanHappen(Run(Initial, trace, room, max), e, room)
      requires Abstract() == Next(Run(Initial, trace, room, max), e, room, max)
      modifies this`trace
      ensures Valid() && trace == old(trace) + [e]
    {
      RunThen(Initial, trace, e, room, max);
      trace := trace + [e];
    }

    lemma Holds()
      requires Valid()
      ensures Invariant(Abstract(), max)
    {
      StartHolds(max);
      RunKeeps(Initial, trace, room, max);
    }

    function Steps(): nat
      reads this
    {
      2 * |queue| + if broadcaster.Holding? then 1 else 0
    }

    /** The broadcaster hands its chunk to the server; a refused one is freed. */
    method HandItOver(accepted: bool)
      requires Valid() && broadcaster.Holding?
      modifies this`broadcaster, this`work, this`dropped, this`freed, this`trace
      ensures Valid() && trace == old(trace) + [HandOver(accepted)] && broadcaster == Waiting
      ensures work == old(work) + (if accepted then [old(broadcaster).id] else [])
      ensures freed == old(freed) + (if accepted then multiset{} else multiset{old(broadcaster).id})
      ensures dropped == old(dropped) + (if accepted then 0 else 1)
    {
      if accepted {
        work := work + [broadcaster.id];
      } else {
        freed := freed + multiset{broadcaster.id};
        dropped := dropped + 1;
      }
      broadcaster := Waiting;
      Record(HandOver(accepted));
    }

    method TakeItem()
      requires Valid() && broadcaster == Waiting && queue != []
      modifies this`queue, this`broadcaster, this`trace
      ensures Valid() && trace == old(trace) + [Receive] && old(queue) == [old(queue)[0]] + queue
      ensures broadcaster == if old(queue)[0].Chunk? then Holding(old(queue)[0].id) else Finished
    {
      var item := queue[0];
      queue := queue[1..];
      broadcaster := if item.Chunk? then Holding(item.id) else Finished;
      Record(Receive);
    }

    /** One move of the broadcaster: the chunk it has is handed to the server, which may refuse
        it, or the next item is taken from the queue. */
    method Broadcast() returns (accepted: bool)
      requires Valid() && (broadcaster.Holding? || (broadcaster == Waiting && queue != []))
      modifies this`queue, this`broadcaster, this`work, this`dropped, this`freed, this`trace
      ensures Valid() && Steps() < old(Steps()) && |queue| <= |old(queue)| && broadcaster != Absent
      ensures trace == old(trace) + [if old(broadcaster).Holding? then HandOver(accepted) else Receive]
      ensures old(broadcaster).Holding? ==>
                && queue == old(queue)
                && work == old(work) + (if accepted then [old(broadcaster).id] else [])
                && freed == old(freed) + (if accepted then multiset{} else multiset{old(broadcaster).id})
      ensures !old(broadcaster).Holding? ==>
                old(queue) == [old(queue)[0]] + queue && work == old(work) && freed == old(freed)
    {
      accepted := *;
      if broadcaster.Holding? {
        HandItOver(accepted);
      } else {
        TakeItem();
      }
    }

    /** One move of the server: the next accepted chunk is taken up, or the one in hand is sent
        to whoever is connected and freed. */
    method Serve() returns (listed: bool)
      requires Valid() && (sending.Some? || work != [])
      modifies this`work, this`sending, this`delivered, this`freed, this`trace
      ensures Valid()
      ensures old(sending).Some? ==>
                && trace == old(trace) + [ServerDone(listed)] && sending == None && work == old(work)
                && freed == old(freed) + multiset{old(sending).value}
                && delivered == old(delivered) + (if listed then [old(sending).value] else [])
      ensures old(sending).None? ==>
                && trace == old(trace) + [ServerTakes] && sending.Some? && old(work) == [sending.value] + work
                && freed == old(freed) && delivered == old(delivered)
    {
      listed := *;
      if sending.Some? {
        if listed {
          delivered := delivered + [sending.value];
        }
        freed := freed + multiset{sending.value};
        sending := None;
        Record(ServerDone(listed));
      } else {
        sending := Some(work[0]);
        work := work[1..];
        Record(ServerTakes);
      }
    }

    /** The broadcaster and the server move any number of times. */
    method Interfere()
      requires Valid()
      modifies this`queue, this`broadcaster, this`work, this`sending, this`dropped, this`delivered, this`freed,
        this`trace
      ensures Valid() && old(trace) <= trace
    {
      var moves: nat := *;
      while moves > 0
        invariant Valid() && old(trace) <= trace
      {
        var server: bool := *;
        if server && (sending.Some? || work != []) {
          var listed := Serve();
        } else if broadcaster.Holding? || (broadcaster == Waiting && queue != []) {
          var accepted := Broadcast();
        }
        moves := moves - 1;
      }
    }

    /** Copies the next piece onto the heap, unless there is no memory. */
    method CopyPiece() returns (ok: bool)
      requires Valid() && rest.Some? && rest.value != "" && held.None?
      modifies this`rest, this`held, this`dropped, this`payload, this`place, this`trace
      ensures Valid() && trace == old(trace) + [Alloc(ok)]
      ensures ok ==>
                && rest == old(rest) && dropped == old(dropped) && held == Some(|old(payload)|)
                && payload == old(payload) + [Chunks(old(rest).value, max)[0]]
      ensures !ok ==> rest.None? && held.None? && payload == old(payload) && dropped == old(dropped) + 1
    {
      ok := *;
      if ok {
        var text := rest.value;
        var chunk := if |text| > max then max else |text|;
        assert text[..chunk] == Chunks(text, max)[0];
        held := Some(|payload|);
        payload := payload + [text[..chunk]];
        place := place + [|offered| - |Chunks(text, max)|];
      } else {
        dropped := dropped + 1;
        rest := None;
      }
      Record(Alloc(ok));
    }

    /** Queues the piece without waiting; a full queue ends the call and frees it. */
    method QueuePiece()
      requires Valid() && rest.Some? && rest.value != "" && held.Some?
      modifies this`rest, this`held, this`queue, this`dropped, this`freed, this`trace
      ensures Valid() && trace == old(trace) + [Send] && held.None?
      ensures rest.Some? ==> rest.value != "" && |rest.value| < |old(rest).value|
      ensures |old(queue)| < room ==>
                && queue == old(queue) + [Chunk(old(held).value)] && freed == old(freed) && dropped == old(dropped)
                && Chunks(old(rest).value, max)[1..] == (if rest.Some? then Chunks(rest.value, max) else [])
      ensures |old(queue)| >= room ==>
                && queue == old(queue) && rest.None? && freed == old(freed) + multiset{old(held).value}
                && dropped == old(dropped) + 1
    {
      var id := held.value;
      held := None;
      if |queue| < room {
        queue := queue + [Chunk(id)];
        rest := if |rest.value| <= max then None else Some(rest.value[max..]);
      } else {
        freed := freed + multiset{id};
        dropped := dropped + 1;
        rest := None;
      }
      Record(Send);
    }

    /** One turn of the sink's loop, while the broadcaster and the server move. */
    method OnePiece()
      requires Valid() && rest.Some? && rest.value != "" && held.None?
      modifies this`rest, this`held, this`queue, this`broadcaster, this`work, this`sending, this`dropped, this`payload,
        this`delivered, this`freed, this`place, this`trace
      ensures Valid() && held.None? && old(trace) < trace
      ensures rest.Some? ==> rest.value != "" && |rest.value| < |old(rest).value|
    {
      Interfere();
      var ok := CopyPiece();
      if ok {
        Interfere();
        QueuePiece();
      }
    }

    /** Piece by piece, until the text is queued or a piece is not. */
    method QueuePieces()
      requires Valid() && rest.Some? && rest.value != "" && held.None?
      modifies this`rest, this`held, this`queue, this`broadcaster, this`work, this`sending, this`dropped, this`payload,
        this`delivered, this`freed, this`place, this`trace
      ensures Valid() && rest.None? && held.None? && old(trace) <= trace
    {
      while rest.Some?
        invariant Valid() && held.None? && old(trace) <= trace && (rest.Some? ==> rest.value != "")
        decreases if rest.Some? then 1 + |rest.value| else 0
      {
        OnePiece();
      }
    }

    /** The sink: text from the delivery path itself is dropped, any other is queued as far as
        it goes; it always returns. */
    method OutputSink(text: string, ownPath: bool)
      requires Valid() && stopping == Running && rest.None? && held.None?
      modifies this
      ensures Valid() && stopping == Running && rest.None? && held.None?
      ensures text == "" ==> Abstract() == old(Abstract()) && trace == old(trace)
      ensures text != "" ==> old(trace) + [SinkCall(text, ownPath)] <= trace
      ensures text != "" && ownPath ==> Abstract() == old(Abstract()).(dropped := old(dropped) + 1, offered := offered)
      ensures offered == old(offered) + Chunks(text, max)
    {
      if text == "" {
        return;
      }
      offered := offered + Chunks(text, max);
      if ownPath {
        dropped := dropped + 1;
        Record(SinkCall(text, true));
      } else {
        rest := Some(text);
        Record(SinkCall(text, false));
        QueuePieces();
      }
    }

    /** The sentinel goes in once the broadcaster has made room for it. */
    method SendStop()
      requires Valid() && stopping == Unregistered && broadcaster != Absent
      modifies this`queue, this`broadcaster, this`work, this`dropped, this`freed, this`stopping, this`trace
      ensures Valid() && stopping == Joining && broadcaster != Absent && old(trace) <= trace
    {
      Holds();
      while |queue| >= room
        invariant old(trace) <= trace
        invariant Valid() && stopping == Unregistered && broadcaster != Absent && broadcaster != Finished
        decreases Steps()
      {
        var accepted := Broadcast();
        Holds();
      }
      queue := queue + [Sentinel];
      stopping := Joining;
      Record(SendSentinel);
    }

    /** The broadcaster works through the queue up to the sentinel. */
    method AwaitBroadcaster()
      requires Valid() && stopping == Joining
      modifies this`queue, this`broadcaster, this`work, this`dropped, this`freed, this`trace
      ensures Valid() && stopping == Joining && broadcaster == Finished && old(trace) <= trace
    {
      Holds();
      while broadcaster != Finished
        invariant old(trace) <= trace
        invariant Valid() && stopping == Joining && broadcaster != Absent
        decreases Steps()
      {
        Holds();
        var accepted := Broadcast();
      }
    }

    /** Whatever is still queued is freed. */
    method Drain()
      requires Valid() && stopping == Draining
      modifies this`queue, this`freed, this`stopping, this`trace
      ensures Valid() && stopping == Down && old(trace) <= trace
    {
      while queue != []
        invariant old(trace) <= trace
        invariant Valid() && stopping == Draining
      {
        var item := queue[0];
        queue := queue[1..];
        if item.Chunk? {
          freed := freed + multiset{item.id};
        }
        Record(DrainOne);
      }
      stopping := Down;
      Record(DeleteQueue);
    }

    lemma AllFreed()
      requires Valid() && stopping == Down
      ensures queue == [] && broadcaster == Absent
      ensures forall id: nat :: id < |payload| && id !in work && sending != Some(id) ==> freed[id] == 1
    {
      Holds();
      assert Owned(Abstract()) == One(sending) + work + [] + [] + [];
    }

    /** After the broadcaster has been wound down, everything not with the server has been
        freed. */
    method StopBroadcaster()
      requires Valid() && stopping == Unregistered
      modifies this
      ensures Valid() && stopping == Down && queue == [] && broadcaster == Absent && old(trace) <= trace
      ensures forall id: nat :: id < |payload| && id !in work && sending != Some(id) ==> freed[id] == 1
    {
      if broadcaster != Absent {
        SendStop();
        AwaitBroadcaster();
      }
      broadcaster := Absent;
      stopping := Draining;
      Record(Joined);
      Drain();
      AllFreed();
    }

    /** The sink is registered last; a start that fails on the way winds down what it began. */
    method Start(created: bool, registered: bool) returns (ok: bool)
      requires Valid() && stopping == Down
      modifies this
      ensures old(trace) + [Event.Start(created, registered)] <= trace
      ensures Valid() && (ok <==> created && registered) && stopping == if ok then Running else Down
      ensures ok ==> dropped == 0 && broadcaster == Waiting && queue == []
    {
      queue, dropped := [], 0;
      broadcaster := if created then Waiting else Absent;
      stopping := if created && registered then Running else Unregistered;
      Record(Event.Start(created, registered));
      ok := created && registered;
      if !ok {
        StopBroadcaster();
      }
    }

    /** The sink is unregistered first, so that nothing is queued behind the sentinel. */
    method Stop()
      requires Valid() && stopping == Running && rest.None?
      modifies this
      ensures old(trace) + [Unregister] <= trace
      ensures Valid() && stopping == Down && queue == [] && broadcaster == Absent
      ensures forall id: nat :: id < |payload| && id !in work && sending != Some(id) ==> freed[id] == 1
    {
      stopping := Unregistered;
      Record(Unregister);
      StopBroadcaster();
    }
  }
}
