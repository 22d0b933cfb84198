/**
 The shared interrupt line: parts pull a wired-AND line low, a falling edge latches an
 interrupt, the interrupt routine notifies the dispatcher, and it runs every handler, looks
 at the line again and notifies itself when it is still low. The parts, the interrupt
 routine, the dispatcher and the code that starts and stops it interleave freely.
 */
module IntDispatch {
  /** One of the parts on the line and the handler that services it. */
  datatype Part = Part(handler: nat, id: nat)

  /** How far start-up has come. The edge interrupt is enabled from `Armed` on. */
  datatype Phase = Off | Created | Armed | Sampled(low: bool) | Running | Disarmed

  /** Where the dispatcher stands: blocked, at the top of its loop with handler
      `next`, about to look at the line again, or about to notify itself. */
  datatype Task = Waiting | Handling(next: nat) | Looking | Rearming

  datatype State = State(
    asserting: set<Part>, edge: bool, notified: nat, task: Task, phase: Phase, handlers: nat, unserviced: nat)
  {
    predicate Low() { asserting != {} }

    predicate Enabled() { phase.Armed? || phase.Sampled? || phase.Running? }

    predicate HasTask() { phase != Off }
  }

  const Initial := State({}, false, 0, Waiting, Off, 0, 0)

  /** The parts' own moves, the interrupt routine, the dispatcher's moves, and the callers'. */
  datatype Event =
    | Assert(part: Part, latches: bool)
    | Withdraw(part: Part)
    | Isr
    | Take
    | Handle(clears: set<Part>)
    | LeaveLoop
    | Look
    | Rearm
    | Register
    | Create
    | Arm
    | GiveUp
    | Sample
    | Finish
    | Disarm
    | Delete

  predicate CanHappen(s: State, e: Event, maxHandlers: nat) {
    match e
    case Assert(_, _) => true
    case Withdraw(_) => true
    case Isr => s.edge && s.Enabled()
    case Take => s.HasTask() && s.task == Waiting && s.notified > 0
    case Handle(_) => s.HasTask() && s.task.Handling? && s.task.next < s.handlers
    case LeaveLoop => s.HasTask() && s.task.Handling? && s.task.next >= s.handlers
    case Look => s.HasTask() && s.task == Looking
    case Rearm => s.HasTask() && s.task == Rearming
    case Register => s.handlers < maxHandlers
    case Create => s.phase == Off
    case Arm => s.phase == Created
    case GiveUp => s.phase == Created
    case Sample => s.phase == Armed
    case Finish => s.phase.Sampled?
    case Disarm => s.phase == Running
    case Delete => s.phase == Disarmed
  }

  /** An edge is latched when the line falls with the interrupt enabled; before that the
      hardware may or may not remember it. The level is never remembered. */
  function Next(s: State, e: Event): State {
    match e
    case Assert(p, latches) =>
      s.(asserting := s.asserting + {p},
         edge := s.edge || (!s.Low() && (s.Enabled() || latches)))
    case Withdraw(p) => s.(asserting := s.asserting - {p})
    case Isr => s.(edge := false, notified := s.notified + 1)
    case Take => s.(notified := 0, task := Handling(0))
    case Handle(clears) =>
      if s.task.Handling? then s.(asserting := s.asserting - clears, task := Handling(s.task.next + 1)) else s
    case LeaveLoop => s.(task := Looking)
    case Look => s.(task := if s.Low() then Rearming else Waiting)
    case Rearm => s.(unserviced := s.unserviced + 1, notified := s.notified + 1, task := Waiting)
    case Register => s.(handlers := s.handlers + 1)
    case Create => s.(phase := Created, notified := 0, task := Waiting)
    case Arm => s.(phase := Armed)
    case GiveUp => s.(phase := Off)
    case Sample => s.(phase := Sampled(s.Low()))
    case Finish => s.(phase := Running, notified := if s.phase == Sampled(true) then s.notified + 1 else s.notified)
    case Disarm => s.(phase := Disarmed)
    case Delete => s.(phase := Off)
  }

  ghost predicate IsRun(s: State, events: seq<Event>, maxHandlers: nat)
    decreases |events|
  {
    events == [] || (CanHappen(s, events[0], maxHandlers) && IsRun(Next(s, events[0]), events[1..], maxHandlers))
  }

  function Run(s: State, events: seq<Event>): State
    decreases |events|
  {
    if events == [] then s else Run(Next(s, events[0]), events[1..])
  }

  // ---------------------------------------------------------------- no lost wakeup

  /** Something will look at the line: an interrupt routine to run, a notification to take,
      or a task that is on its way to looking. */
  predicate Attended(s: State) {
    s.edge || s.notified > 0 || s.task != Waiting
  }

  ghost predicate Invariant(s: State) {
    (s.phase == Running || s.phase == Sampled(false)) && s.Low() ==> Attended(s)
  }

  lemma StepKeeps(s: State, e: Event, maxHandlers: nat)
    requires Invariant(s) && CanHappen(s, e, maxHandlers)
    ensures Invariant(Next(s, e))
  {
  }

  /** In every interleaving, once start-up is over: whenever the line is low, the dispatcher is
      running, has a notification to take, or is about to be given one. */
  lemma {:induction false} NoLostInterrupt(s: State, events: seq<Event>, maxHandlers: nat)
    requires Invariant(s) && IsRun(s, events, maxHandlers)
    ensures Invariant(Run(s, events))
    decreases |events|
  {
    if events != [] {
      StepKeeps(s, events[0], maxHandlers);
      NoLostInterrupt(Next(s, events[0]), events[1..], maxHandlers);
    }
  }

  lemma NeverBlockedWhileLow(events: seq<Event>, maxHandlers: nat)
    requires IsRun(Initial, events, maxHandlers)
    ensures var s := Run(Initial, events);
            s.phase == Running && s.Low() && !s.edge ==> s.notified > 0 || s.task != Waiting
  {
    NoLostInterrupt(Initial, events, maxHandlers);
  }

  // ---------------------------------------------------------------- no wakeup for nothing

  /** On a line no part has pulled, nothing wakes the dispatcher. */
  predicate Quiet(s: State) {
    && s.asserting == {} && !s.edge && s.notified == 0 && s.task == Waiting && s.unserviced == 0
    && s.phase != Sampled(true)
  }

  lemma {:induction false} StaysQuiet(s: State, events: seq<Event>, maxHandlers: nat)
    requires Quiet(s) && IsRun(s, events, maxHandlers) && (forall e :: e in events ==> !e.Assert?)
    ensures Quiet(Run(s, events))
    decreases |events|
  {
    if events != [] {
      StaysQuiet(Next(s, events[0]), events[1..], maxHandlers);
    }
  }

  /** Whatever is started, stopped and registered: until a part asserts, no notification is ever
      given and no round counted. */
  lemma QuietLineWakesNobody(events: seq<Event>, maxHandlers: nat)
    requires IsRun(Initial, events, maxHandlers) && (forall e :: e in events ==> !e.Assert?)
    ensures var s := Run(Initial, events); s.notified == 0 && s.task == Waiting && s.unserviced == 0 && !s.edge
  {
    StaysQuiet(Initial, events, maxHandlers);
  }

  // ---------------------------------------------------------------- without the second look

  /** A dispatcher that goes back to waiting without looking at the line again. */
  function NextWithoutLook(s: State, e: Event): State {
    if e == Look then s.(task := Waiting) else Next(s, e)
  }

  /** Why the second look is there: two parts, the second asserting after its handler has
      run, leave such a dispatcher blocked for good with the line low. */
  lemma SecondLookIsNeeded()
    ensures exists a: Part, b: Part ::
              var s := State({a}, false, 1, Waiting, Running, 2, 0);
              var handled := Next(Next(Next(Next(s, Take), Handle({})), Assert(b, false)), Handle({a}));
              var end := NextWithoutLook(handled, Look);
              Invariant(s) && end.Low() && !Attended(end)
  {
    var a, b := Part(1, 0), Part(0, 0);
    var s := State({a}, false, 1, Waiting, Running, 2, 0);
    var second := Next(Next(s, Take), Handle({}));
    assert a in second.asserting;
    assert b in Next(Next(second, Assert(b, false)), Handle({a})).asserting;
  }

  // ---------------------------------------------------------------- draining

  /** The parts serviced by a handler from `i` on. */
  predicate OwnedFrom(parts: set<Part>, i: nat) {
    forall p :: p in parts ==> i <= p.handler
  }

  /** Every asserting part has a handler. */
  predicate Served(s: State) {
    forall p :: p in s.asserting ==> p.handler < s.handlers
  }

  /** Nothing new asserts: the interrupt routine and the dispatcher move, and each handler clears
      its own parts. */
  predicate Draining(s: State, e: Event) {
    match e
    case Isr => true
    case Take => true
    case Handle(clears) => s.task.Handling? && clears == set p | p in s.asserting && p.handler == s.task.next
    case LeaveLoop => true
    case Look => true
    case Rearm => true
    case _ => false
  }

  ghost predicate IsDrain(s: State, events: seq<Event>)
    decreases |events|
  {
    events == [] || (&& Draining(s, events[0]) && CanHappen(s, events[0], 0)
                     && IsDrain(Next(s, events[0]), events[1..]))
  }

  /** The current round will end with the line still low. */
  predicate Stale(s: State) {
    match s.task
    case Waiting => false
    case Handling(i) => !OwnedFrom(s.asserting, i)
    case Looking => s.Low()
    case Rearming => true
  }

  function RoundLength(s: State): nat {
    s.handlers + 4
  }

  /** A bound on the steps still to come when nothing new asserts. */
  function Budget(s: State): nat {
    (if s.edge then RoundLength(s) + 1 else 0)
    + (if s.notified > 0 then RoundLength(s) else 0)
    + (if Stale(s) then RoundLength(s) else 0)
    + (match s.task
       case Waiting => 0
       case Handling(i) => (if i < s.handlers then s.handlers - i else 0) + 3
       case Looking => 2
       case Rearming => 1)
  }

  ghost predicate Settling(s: State) {
    && s.phase == Running && Invariant(s) && Served(s)
    && (s.task.Handling? ==> s.task.next <= s.handlers)
  }

  lemma DrainStep(s: State, e: Event)
    requires Settling(s) && Draining(s, e) && CanHappen(s, e, 0)
    ensures var t := Next(s, e);
            && Settling(t) && Budget(t) < Budget(s)
            && t.unserviced + (if Stale(t) then 1 else 0) <= s.unserviced + (if Stale(s) then 1 else 0)
  {
    match e
    case Take => assert OwnedFrom(s.asserting, 0);
    case Handle(clears) =>
      assert OwnedFrom(s.asserting, s.task.next) ==> OwnedFrom(s.asserting - clears, s.task.next + 1);
    case LeaveLoop =>
      assert OwnedFrom(s.asserting, s.task.next) ==> forall p :: p in s.asserting ==> false;
    case _ =>
  }

  /** A dispatcher that is not blocked, or an interrupt or notification that waits for it, can
      always move. */
  lemma CanMove(s: State)
    requires Settling(s) && Attended(s)
    ensures exists e :: Draining(s, e) && CanHappen(s, e, 0)
  {
    if s.edge {
      assert Draining(s, Isr) && CanHappen(s, Isr, 0);
    } else if s.task.Waiting? {
      assert Draining(s, Take) && CanHappen(s, Take, 0);
    } else if s.task.Rearming? {
      assert Draining(s, Rearm) && CanHappen(s, Rearm, 0);
    } else if s.task.Looking? {
      assert Draining(s, Look) && CanHappen(s, Look, 0);
    } else if s.task.next < s.handlers {
      var e := Handle(set p | p in s.asserting && p.handler == s.task.next);
      assert Draining(s, e) && CanHappen(s, e, 0);
    } else {
      assert Draining(s, LeaveLoop) && CanHappen(s, LeaveLoop, 0);
    }
  }

  /** When every handler clears its own parts and nothing new asserts, every interleaving
      comes to rest within the length of four rounds; where it rests the line is high and
      the dispatcher waits; and the count of unserviced rounds has gone up at most once. */
  lemma {:induction false} LineIsDrained(s: State, events: seq<Event>)
    requires Settling(s) && IsDrain(s, events)
    ensures |events| <= Budget(s) <= 4 * (s.handlers + 4)
    ensures var t := Run(s, events);
            (forall e :: Draining(t, e) ==> !CanHappen(t, e, 0)) ==> !t.Low() && t.task == Waiting
    ensures s.unserviced <= Run(s, events).unserviced <= s.unserviced + 1
  {
    DrainRun(s, events);
    if Attended(Run(s, events)) {
      CanMove(Run(s, events));
    }
  }

  lemma {:induction false} DrainRun(s: State, events: seq<Event>)
    requires Settling(s) && IsDrain(s, events)
    ensures Settling(Run(s, events)) && |events| + Budget(Run(s, events)) <= Budget(s)
    ensures s.unserviced <= Run(s, events).unserviced <= s.unserviced + (if Stale(s) then 1 else 0)
    decreases |events|
  {
    if events != [] {
      DrainStep(s, events[0]);
      DrainRun(Next(s, events[0]), events[1..]);
    }
  }

  /** The dispatcher never counts past its handlers. */
  predicate InRange(s: State) {
    s.task.Handling? ==> s.task.next <= s.handlers
  }

  lemma {:induction false} StaysInRange(s: State, events: seq<Event>, maxHandlers: nat)
    requires InRange(s) && IsRun(s, events, maxHandlers)
    ensures InRange(Run(s, events))
    decreases |events|
  {
    if events != [] {
      StaysInRange(Next(s, events[0]), events[1..], maxHandlers);
    }
  }

  /** So any run that has started up, with a handler for every part on the line, is where a
      drain can begin. */
  lemma RunSettles(events: seq<Event>, maxHandlers: nat)
    requires IsRun(Initial, events, maxHandlers)
    ensures var s := Run(Initial, events); s.phase == Running && Served(s) ==> Settling(s)
  {
    NoLostInterrupt(Initial, events, maxHandlers);
    StaysInRange(Initial, events, maxHandlers);
  }

  /** After any run that has started up, with a handler for every part on the line: once
      nothing new asserts, every interleaving comes to rest within four rounds' length with
      the line high. */
  lemma DrainsAfterAnyRun(events: seq<Event>, maxHandlers: nat, more: seq<Event>)
    requires IsRun(Initial, events, maxHandlers)
    requires Run(Initial, events).phase == Running && Served(Run(Initial, events))
    requires IsDrain(Run(Initial, events), more)
    ensures var s := Run(Initial, events); var t := Run(s, more);
            && |more| <= 4 * (s.handlers + 4)
            && ((forall e :: Draining(t, e) ==> !CanHappen(t, e, 0)) ==> !t.Low() && t.task == Waiting)
            && s.unserviced <= t.unserviced <= s.unserviced + 1
  {
    RunSettles(events, maxHandlers);
    LineIsDrained(Run(Initial, events), more);
  }

  // ---------------------------------------------------------------- the component

  lemma {:induction false} RunThen(s: State, events: seq<Event>, e: Event, maxHandlers: nat)
    requires IsRun(s, events, maxHandlers) && CanHappen(Run(s, events), e, maxHandlers)
    ensures IsRun(s, events + [e], maxHandlers) && Run(s, events + [e]) == Next(Run(s, events), e)
    decreases |events|
  {
    if events == [] {
      assert events + [e] == [e];
    } else {
      assert (events + [e])[1..] == events[1..] + [e];
      RunThen(Next(s, events[0]), events[1..], e, maxHandlers);
    }
  }

  datatype Result = Done | NoMemory | InvalidState | DriverError

  /** The dispatcher's own state and the line. Between any two of its actions the parts and
      the interrupt routine may move, and `trace` records everything in order. */
  class Dispatcher {
    const maxHandlers: nat
    var asserting: set<Part>
    var edge: bool
    var notified: nat
    var handlers: nat
    var unserviced: nat
    var task: Task
    var phase: Phase
    ghost var trace: seq<Event>

    function Abstract(): State
      reads this
    {
      State(asserting, edge, notified, task, phase, handlers, unserviced)
    }

    /** The fields are where the recorded run of the state machine leads. */
    ghost predicate Valid()
      reads this
    {
      IsRun(Initial, trace, maxHandlers) && Run(Initial, trace) == Abstract() && handlers <= maxHandlers
    }

    constructor (maxHandlers: nat)
      ensures Valid() && phase == Off && handlers == 0 && this.maxHandlers == maxHandlers
    {
      this.maxHandlers := maxHandlers;
      asserting, edge, notified, handlers, unserviced := {}, false, 0, 0, 0;
      task, phase, trace := Waiting, Off, [];
    }

    ghost method Record(e: Event)
      requires IsRun(Initial, trace, maxHandlers) && CanHappen(Run(Initial, trace), e, maxHandlers)
      modifies this`trace
      ensures trace == old(trace) + [e] && IsRun(Initial, trace, maxHandlers)
      ensures Run(Initial, trace) == Next(Run(Initial, old(trace)), e)
    {
      RunThen(Initial, trace, e, maxHandlers);
      trace := trace + [e];
    }

    method GpioIsr()
      requires Valid() && edge && Abstract().Enabled()
      modifies this`edge, this`notified, this`trace
      ensures Valid() && !edge && notified == old(notified) + 1 && trace == old(trace) + [Isr]
    {
      edge := false;
      notified := notified + 1;
      Record(Isr);
    }

    method RegisterHandler() returns (r: Result)
      requires Valid()
      modifies this`handlers, this`trace
      ensures Valid() && old(handlers) <= handlers && old(trace) <= trace
      ensures r == NoMemory <==> old(handlers) == maxHandlers
      ensures handlers == old(handlers) + if r == Done then 1 else 0
    {
      if handlers == maxHandlers {
        return NoMemory;
      }
      handlers := handlers + 1;
      Record(Register);
      return Done;
    }

    /** Any number of parts assert or withdraw, the interrupt routine runs when its edge is
        latched, and handlers are registered. */
    method Interfere()
      requires Valid()
      modifies this`asserting, this`edge, this`notified, this`handlers, this`trace
      ensures Valid() && old(notified) <= notified && old(handlers) <= handlers && old(trace) <= trace
    {
      var moves: nat := *;
      while moves > 0
        invariant Valid() && old(notified) <= notified && old(handlers) <= handlers && old(trace) <= trace
      {
        var p: Part, kind: nat := *, *;
        if kind == 0 && edge && Abstract().Enabled() {
          GpioIsr();
        } else if kind == 1 {
          asserting := asserting - {p};
          Record(Withdraw(p));
        } else if kind == 2 {
          var _ := RegisterHandler();
        } else {
          var latches: bool := *;
          edge := edge || (asserting == {} && (Abstract().Enabled() || latches));
          asserting := asserting + {p};
          Record(Assert(p, latches));
        }
        moves := moves - 1;
      }
    }

    /** Every handler runs, in the order of registration; the table may grow meanwhile. */
    method RunHandlers()
      requires Valid() && task == Waiting && notified > 0 && Abstract().HasTask()
      modifies this`asserting, this`edge, this`notified, this`handlers, this`task, this`trace
      ensures Valid() && task == Looking && old(trace) < trace
    {
      notified := 0;
      task := Handling(0);
      Record(Take);
      var i := 0;
      while i < handlers
        invariant Valid() && task == Handling(i) && old(trace) < trace
        decreases maxHandlers - i
      {
        Interfere();
        RunHandler(i);
        i := i + 1;
      }
      task := Looking;
      Record(LeaveLoop);
    }

    /** A handler may clear any of the parts' interrupts. */
    method RunHandler(i: nat)
      requires Valid() && task == Handling(i) && i < handlers && Abstract().HasTask()
      modifies this`asserting, this`task, this`trace
      ensures Valid() && task == Handling(i + 1) && old(trace) < trace
    {
      var clears: set<Part> := *;
      asserting := asserting - clears;
      task := Handling(i + 1);
      Record(Handle(clears));
    }

    /** The line is looked at again, and a low one notifies the dispatcher and is counted. */
    method LookAgain()
      requires Valid() && task == Looking && Abstract().HasTask()
      modifies this`asserting, this`edge, this`notified, this`handlers, this`unserviced, this`task, this`trace
      ensures Valid() && task == Waiting && old(trace) < trace
      ensures unserviced == old(unserviced) + if old(asserting) != {} then 1 else 0
      ensures old(asserting) != {} ==> notified > 0
    {
      var low := asserting != {};
      task := if low then Rearming else Waiting;
      Record(Look);
      if low {
        Interfere();
        unserviced := unserviced + 1;
        notified := notified + 1;
        task := Waiting;
        Record(Rearm);
      }
    }

    /** One turn of the dispatcher's loop, from the notification it takes to the next wait. */
    method DispatchRound()
      requires Valid() && task == Waiting && notified > 0 && Abstract().HasTask()
      modifies this`asserting, this`edge, this`notified, this`handlers, this`unserviced, this`task, this`trace
      ensures Valid() && task == Waiting && old(trace) < trace
      ensures old(unserviced) <= unserviced <= old(unserviced) + 1
      ensures unserviced > old(unserviced) ==> notified > 0
      ensures phase == Running && asserting != {} ==> edge || notified > 0
    {
      RunHandlers();
      Interfere();
      LookAgain();
      NoLostInterrupt(Initial, trace, maxHandlers);
    }

    /** A step of start-up or shut-down that changes nothing but how far it has come. */
    method Enter(next: Phase, e: Event)
      requires Valid() && CanHappen(Abstract(), e, maxHandlers) && Next(Abstract(), e) == Abstract().(phase := next)
      modifies this`phase, this`trace
      ensures Valid() && phase == next && old(trace) <= trace
    {
      phase := next;
      Record(e);
    }

    /** The task is created before the interrupt is enabled, so that the first edge finds a
        task to notify. */
    method CreateTask()
      requires Valid() && phase == Off
      modifies this`notified, this`task, this`phase, this`trace
      ensures Valid() && phase == Created && notified == 0 && task == Waiting && old(trace) <= trace
    {
      phase, notified, task := Created, 0, Waiting;
      Record(Create);
    }

    /** The level is looked at once with the interrupt enabled, for an edge that has already
        gone by. */
    method CheckOnce()
      requires Valid() && phase == Armed
      modifies this`asserting, this`edge, this`notified, this`handlers, this`phase, this`trace
      ensures Valid() && phase == Running && old(trace) <= trace
    {
      var low := asserting != {};
      Enter(Sampled(low), Sample);
      Interfere();
      if low {
        notified := notified + 1;
      }
      phase := Running;
      Record(Finish);
    }

    method Start(created: bool, installed: bool) returns (r: Result)
      requires Valid() && (phase == Off || phase == Running)
      modifies this`asserting, this`edge, this`notified, this`handlers, this`task, this`phase, this`trace
      ensures Valid() && old(trace) <= trace
      ensures r == InvalidState <==> old(phase) != Off
      ensures r == InvalidState ==> trace == old(trace)
      ensures r == Done <==> old(phase) == Off && created && installed
      ensures r == Done ==> phase == Running && (asserting != {} ==> edge || notified > 0 || task != Waiting)
      ensures r == NoMemory || r == DriverError ==> phase == Off
    {
      if phase != Off {
        return InvalidState;
      }
      if !created {
        return NoMemory;
      }
      CreateTask();
      Interfere();
      if !installed {
        Enter(Off, GiveUp);
        return DriverError;
      }
      Enter(Armed, Arm);
      Interfere();
      CheckOnce();
      NoLostInterrupt(Initial, trace, maxHandlers);
      return Done;
    }

    method Stop() returns (r: Result)
      requires Valid() && (phase == Off || phase == Running)
      modifies this`asserting, this`edge, this`notified, this`handlers, this`phase, this`trace
      ensures Valid() && phase == Off && old(trace) <= trace
      ensures r == if old(phase) == Off then InvalidState else Done
    {
      if phase == Off {
        return InvalidState;
      }
      Enter(Disarmed, Disarm);
      Interfere();
      Enter(Off, Delete);
      return Done;
    }
  }
}
