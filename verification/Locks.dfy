/** The processor and the interrupt controller's worker as two threads: what they block on, the event
    `wait` waits for, the mask, and the interrupt bit.  `cpu_lock` guards instructions and trap
    entries; the controller's own lock guards its registers and is held from the moment the worker
    looks a number up until the trap it raises has been entered. */
module Locks {
  import I = Interrupts

  /** What an instruction does at the controller. */
  datatype Access = Load | Store(item: int, val: nat)

  /** The instruction loop.  Everything but `Outside` holds `cpu_lock`; it is reentrant, so a trap of
      the processor's own does not block on it. */
  datatype Processor =
    | Outside
    | Inside
    | Waiting             // in `wait`
    | Accessing(a: Access) // wants the controller's lock
    | Trapping            // in a trap of its own: event set, not yet cleared

  /** The worker's hand-over of a number it found registered; everything but `Free` holds the
      controller's lock.  Before and after, the worker is where the controller's state says. */
  datatype HandOver =
    | Free
    | Looking     // in `intr`, about to read the interrupt bit
    | Deferring   // read it off, about to note the interrupt as pending
    | Chosen      // read it on, about to enter the trap
    | Signalled   // in `trap`: event set, `cpu_lock` not yet acquired
    | Entered     // in `trap`, holding `cpu_lock`

  datatype Owner = Nobody | TheProcessor | TheWorker

  datatype State = State(
    c: I.Controller,
    hand: HandOver,
    cpu: Processor,
    event: bool,
    intr: bool,      // the interrupt bit of STATUS
    pending: bool,   // intr_pending
    cpuLock: Owner,
    intcLock: Owner)

  /** Power on: mask up, interrupts off. */
  const START: State := State(I.START, Free, Outside, false, false, false, Nobody, Nobody)

  datatype Step =
    | Begin | Finish
    | Wait | Wake
    | Access(a: Access) | Accessed
    | SetIntr(on: bool)      // an instruction, `rfe` included, leaves the interrupt bit so
    | SoftIntr               // the `intr` instruction
    | Fire                   // a register write with an interrupt pending and enabled
    | Trap | Push | Trapped  // a trap of the processor's own: event set, interrupts off, event cleared
    | Control(t: I.Step)     // a device raises, or the worker moves up to the hand-over
    | Look | Defer | Signal | Enter | Leave

  predicate Enabled(s: State, x: Step) {
    match x
    case Begin => s.cpu.Outside? && s.cpuLock.Nobody?
    case Finish => s.cpu.Inside?
    case Wait => s.cpu.Inside?
    case Wake => s.cpu.Waiting? && s.event
    case Access(_) => s.cpu.Inside?
    case Accessed => s.cpu.Accessing? && s.intcLock.Nobody?
    case SetIntr(_) => s.cpu.Inside?
    case SoftIntr => s.cpu.Inside?
    case Fire => s.cpu.Inside? && s.intr && s.pending
    case Trap => s.cpu.Inside?
    case Push => s.cpu.Trapping?
    case Trapped => s.cpu.Trapping? && !s.intr
    case Control(t) =>
      I.Enabled(s.c, t) && !t.Write? && (t.Raise? || s.hand.Free?) && (t.Deliver? ==> s.intcLock.Nobody?)
    case Look => s.hand.Looking?
    case Defer => s.hand.Deferring?
    case Signal => s.hand.Chosen?
    case Enter => s.hand.Signalled? && s.cpuLock.Nobody?
    case Leave => s.hand.Entered?
  }

  /** The processor enters the interrupt trap for what was pending. */
  function Fired(s: State): State { s.(cpu := Trapping, event := true, pending := false) }

  /** The worker's last look-up: a registered number goes on to `intr` under the lock. */
  function Delivered(s: State): State
    requires I.Enabled(s.c, I.Deliver)
  {
    var d := I.Next(s.c, I.Deliver);
    if s.c.worker.n in s.c.interrupts then s.(c := d, hand := Looking, intcLock := TheWorker) else s.(c := d)
  }

  function Next(s: State, x: Step): State
    requires Enabled(s, x)
  {
    match x
    case Begin => s.(cpu := Inside, cpuLock := TheProcessor)
    case Finish => s.(cpu := Outside, cpuLock := Nobody)
    case Wait => s.(cpu := Waiting)
    case Wake => s.(cpu := Inside)
    case Access(a) => s.(cpu := Accessing(a))
    case Accessed =>
      s.(cpu := Inside, c := if s.cpu.a.Store? then I.Written(s.c, s.cpu.a.item, s.cpu.a.val) else s.c)
    case SetIntr(on) => if on && s.pending then Fired(s.(intr := true)) else s.(intr := on)
    case SoftIntr => if s.intr then Fired(s) else s.(pending := true)
    case Fire => Fired(s)
    case Trap => s.(cpu := Trapping, event := true)
    case Push => s.(intr := false)
    case Trapped => s.(cpu := Inside, event := false)
    case Control(t) => if t.Deliver? then Delivered(s) else s.(c := I.Next(s.c, t))
    case Look => s.(hand := if s.intr then Chosen else Deferring)
    case Defer => s.(hand := Free, pending := true, intcLock := Nobody)
    case Signal => s.(hand := Signalled, pending := false, event := true)
    case Enter => s.(hand := Entered, cpuLock := TheWorker)
    case Leave => s.(hand := Free, event := false, intr := false, cpuLock := Nobody, intcLock := Nobody)
  }

  predicate Legal(s: State, steps: seq<Step>)
    decreases |steps|
  {
    |steps| == 0 || (Enabled(s, steps[0]) && Legal(Next(s, steps[0]), steps[1..]))
  }

  /** Where the steps lead. */
  function After(s: State, steps: seq<Step>): State
    requires Legal(s, steps)
    decreases |steps|
  {
    if |steps| == 0 then s else After(Next(s, steps[0]), steps[1..])
  }

  lemma {:induction false} Joined(s: State, a: seq<Step>, b: seq<Step>)
    requires Legal(s, a)
    ensures Legal(s, a + b) <==> Legal(After(s, a), b)
    ensures Legal(s, a + b) ==> After(s, a + b) == After(After(s, a), b)
    decreases |a|
  {
    hide Enabled, Next;
    if |a| == 0 {
      assert a + b == b;
    } else {
      Joined(Next(s, a[0]), a[1..], b);
      assert (a + b)[1..] == a[1..] + b;
    }
  }

  lemma One(s: State, x: Step)
    requires Enabled(s, x)
    ensures Legal(s, [x]) && After(s, [x]) == Next(s, x)
  {
    hide Enabled, Next;
    assert [x][1..] == [];
    assert Legal(Next(s, x), []) && After(Next(s, x), []) == Next(s, x);
  }

  lemma Extends(s: State, steps: seq<Step>, x: Step, longer: seq<Step>)
    requires Legal(s, steps) && Enabled(After(s, steps), x) && longer == steps + [x]
    ensures Legal(s, longer) && After(s, longer) == Next(After(s, steps), x)
  {
    hide Enabled, Next, Legal, After;
    Joined(s, steps, [x]);
    One(After(s, steps), x);
  }

  // -------- every interleaving --------

  /** The locks are held by whoever is past them, by one thread at a time; the event stands only on
      behalf of a trap under way. */
  predicate Consistent(s: State) {
    && (s.cpuLock.TheProcessor? <==> !s.cpu.Outside?)
    && (s.cpuLock.TheWorker? <==> s.hand.Entered?)
    && (s.intcLock.TheWorker? <==> !s.hand.Free?)
    && !s.intcLock.TheProcessor?
    && (s.cpu.Trapping? ==> s.event)
    && (s.event ==> s.cpu.Trapping? || s.hand.Signalled? || s.hand.Entered?)
    && (!s.hand.Free? ==> s.c.worker.AtQueue?)
  }

  lemma StepConsistent(s: State, x: Step)
    requires Consistent(s) && Enabled(s, x)
    ensures Consistent(Next(s, x))
  {
    hide I.Written;
    if x.Accessed? && s.cpu.a.Store? { I.WrittenOrder(s.c, s.cpu.a.item, s.cpu.a.val); }
  }

  lemma {:induction false} StaysConsistent(s: State, steps: seq<Step>)
    requires Consistent(s) && Legal(s, steps)
    ensures Consistent(After(s, steps))
    decreases |steps|
  {
    hide Enabled, Next, Consistent;
    if |steps| != 0 {
      StepConsistent(s, steps[0]);
      StaysConsistent(Next(s, steps[0]), steps[1..]);
    }
  }

  /** An instruction and a trap entry of the worker never overlap. */
  lemma Exclusive(steps: seq<Step>)
    requires Legal(START, steps)
    ensures Consistent(After(START, steps))
    ensures After(START, steps).cpu.Outside? || !After(START, steps).hand.Entered?
  {
    hide Legal, After;
    StaysConsistent(START, steps);
  }

  /** Since the worker last signalled, a trap of the processor's own cleared the event. */
  predicate Wiped(steps: seq<Step>) {
    |steps| != 0 &&
    match steps[|steps| - 1]
    case Signal => false
    case Trapped => true
    case _ => Wiped(steps[..|steps| - 1])
  }

  lemma LastStep(s: State, steps: seq<Step>)
    requires Legal(s, steps) && |steps| != 0
    ensures var before := steps[..|steps| - 1];
      && Legal(s, before) && Enabled(After(s, before), steps[|steps| - 1])
      && After(s, steps) == Next(After(s, before), steps[|steps| - 1])
    decreases |steps|
  {
    hide Enabled, Next;
    var n := |steps| - 1;
    if n == 0 {
      One(s, steps[0]);
      assert steps == [steps[0]] && steps[..n] == [];
    } else {
      LastStep(Next(s, steps[0]), steps[1..]);
      assert steps[1..][..n - 1] == steps[..n][1..];
    }
  }

  /** While the worker waits for `cpu_lock` its event stands, unless it was wiped. */
  lemma {:induction false} EventStands(steps: seq<Step>)
    requires Legal(START, steps) && After(START, steps).hand.Signalled?
    ensures After(START, steps).event <==> After(START, steps).cpu.Trapping? || !Wiped(steps)
    decreases |steps|
  {
    hide Legal, After, I.Written;
    NotAtStart(steps);
    var before := steps[..|steps| - 1];
    LastStep(START, steps);
    Exclusive(before);
    if !steps[|steps| - 1].Signal? { EventStands(before); }
  }

  lemma NotAtStart(steps: seq<Step>)
    requires Legal(START, steps) && After(START, steps) != START
    ensures |steps| != 0
  {
  }

  // -------- when neither thread can move --------

  predicate ThreadStep(x: Step) { !(x.Control? && x.t.Raise?) }

  function Raised(s: State, n: int): State { s.(c := I.Enqueue(s.c, n)) }

  /** Neither thread can take a step, whatever the devices raise. */
  ghost predicate Stuck(s: State) {
    forall x, n :: ThreadStep(x) ==> !Enabled(s, x) && !Enabled(Raised(s, n), x)
  }

  /** The worker has a number in hand and the mask is up. */
  predicate AtClosedMask(s: State) { s.hand.Free? && s.c.worker.AtMask? && !s.c.unmasked }

  lemma StuckShape(s: State)
    requires Consistent(s)
    ensures Stuck(s) <==>
      || (s.hand.Signalled? && (s.cpu.Accessing? || (s.cpu.Waiting? && !s.event)))
      || (s.cpu.Waiting? && AtClosedMask(s))
  {
    if Stuck(s) {
      ProcessorStuck(s);
      WorkerStuck(s);
    } else {
      var x, n :| ThreadStep(x) && (Enabled(s, x) || Enabled(Raised(s, n), x));
    }
  }

  lemma StuckAt(s: State, x: Step, n: int)
    requires Stuck(s) && ThreadStep(x)
    ensures !Enabled(s, x) && !Enabled(Raised(s, n), x)
  {
    hide Enabled;
  }

  lemma ProcessorStuck(s: State)
    requires Consistent(s) && Stuck(s)
    ensures (s.cpu.Waiting? && !s.event) || (s.cpu.Accessing? && !s.hand.Free?) || (s.cpu.Outside? && s.hand.Entered?)
  {
    hide Stuck;
    StuckAt(s, Begin, 0);
    StuckAt(s, Finish, 0);
    StuckAt(s, Wake, 0);
    StuckAt(s, Accessed, 0);
    StuckAt(s, Push, 0);
  }

  lemma WorkerStuck(s: State)
    requires Consistent(s) && Stuck(s)
    ensures AtClosedMask(s) || s.hand.Signalled?
  {
    hide Stuck;
    StuckAt(s, Look, 0);
    StuckAt(s, Defer, 0);
    StuckAt(s, Signal, 0);
    StuckAt(s, Leave, 0);
    StuckAt(s, Control(I.Take), 0);
    StuckAt(s, Control(I.Wake), 0);
    StuckAt(s, Control(I.Check), 0);
    StuckAt(s, Control(I.Mask), 0);
    StuckAt(s, Control(I.Deliver), 0);
  }

  /** Neither thread can move exactly when the worker has signalled and waits for `cpu_lock` while the
      processor, holding it, is at a register of the controller or in a `wait` that a trap of its own
      robbed of the signal; or when the processor is in `wait` and the worker at a mask that is up,
      which only the processor could lift. */
  lemma StuckExactly(steps: seq<Step>)
    requires Legal(START, steps)
    ensures var s := After(START, steps);
      Stuck(s) <==>
        || (s.hand.Signalled? && (s.cpu.Accessing? || (s.cpu.Waiting? && Wiped(steps))))
        || (s.cpu.Waiting? && AtClosedMask(s))
  {
    hide Legal, After, Stuck, Consistent;
    var s := After(START, steps);
    Exclusive(steps);
    if s.hand.Signalled? { EventStands(steps); }
    StuckShape(s);
  }

  lemma NeverWiped(steps: seq<Step>)
    requires Trapped !in steps
    ensures !Wiped(steps)
  {
    if |steps| != 0 { NeverWiped(steps[..|steps| - 1]); }
  }

  /** When only the worker enters traps, a `wait` the worker has signalled always wakes, and the mask
      is the one thing a `wait` can hang on. */
  lemma WaitIsSafe(steps: seq<Step>)
    requires Legal(START, steps) && Trapped !in steps && After(START, steps).cpu.Waiting?
    ensures After(START, steps).hand.Signalled? ==> Enabled(After(START, steps), Wake)
    ensures Stuck(After(START, steps)) <==> AtClosedMask(After(START, steps))
  {
    hide Legal, After, Stuck;
    NeverWiped(steps);
    StuckExactly(steps);
    if After(START, steps).hand.Signalled? { EventStands(steps); }
  }

  // -------- runs that get stuck --------

  /** One step more. */
  lemma Move(s: State, steps: seq<Step>, x: Step) returns (longer: seq<Step>, t: State)
    requires Legal(s, steps) && Enabled(After(s, steps), x)
    ensures longer == steps + [x] && Legal(s, longer) && t == After(s, longer) == Next(After(s, steps), x)
  {
    hide Enabled, Next, Legal, After;
    longer := steps + [x];
    Extends(s, steps, x, longer);
    t := After(s, longer);
  }

  lemma NoStep(s: State)
    ensures Legal(s, []) && After(s, []) == s
  {
  }

  /** The guest turns interrupts on and registers a handler. */
  lemma Registered() returns (p: seq<Step>, t: State)
    ensures Legal(START, p) && t == After(START, p) && Trapped !in p
    ensures t == START.(c := t.c, cpu := Inside, intr := true, cpuLock := TheProcessor)
    ensures t.c == I.START.(interrupts := map[0 := 0])
  {
    hide Legal, After;
    NoStep(START);
    p, t := Move(START, [], Begin);
    p, t := Move(START, p, SetIntr(true));
    p, t := Move(START, p, Access(Store(I.ADD_INT, 1)));
    p, t := Move(START, p, Accessed);
  }

  /** If asked to it lifts the mask; a device raises the interrupt. */
  lemma Prepared(lift: bool) returns (p: seq<Step>, t: State)
    ensures Legal(START, p) && t == After(START, p) && Trapped !in p
    ensures t == START.(c := t.c, cpu := Inside, intr := true, cpuLock := TheProcessor)
    ensures t.c.worker.AtQueue? && t.c.queue == [0] && 0 in t.c.interrupts && t.c.unmasked == lift
  {
    hide Legal, After;
    p, t := Registered();
    if lift {
      p, t := Move(START, p, Access(Store(I.MASK, 0)));
      p, t := Move(START, p, Accessed);
    }
    p, t := Move(START, p, Control(I.Raise(0)));
  }

  /** The worker takes the number past the mask to the processor, and signals. */
  lemma Signalling() returns (p: seq<Step>, t: State)
    ensures Legal(START, p) && t == After(START, p) && Consistent(t)
    ensures t.cpu.Inside? && t.hand.Signalled? && t.event
  {
    hide Legal, After;
    p, t := Prepared(true);
    p, t := Move(START, p, Control(I.Take));
    p, t := Move(START, p, Control(I.Wake));
    p, t := Move(START, p, Control(I.Check));
    p, t := Move(START, p, Control(I.Mask));
    p, t := Move(START, p, Control(I.Deliver));
    p, t := Move(START, p, Look);
    p, t := Move(START, p, Signal);
    Exclusive(p);
  }

  /** A trap of the processor's own clears the worker's signal, and `wait` hangs. */
  lemma WaitCanStick() returns (p: seq<Step>)
    ensures Legal(START, p) && Stuck(After(START, p))
    ensures After(START, p).cpu.Waiting? && After(START, p).hand.Signalled?
  {
    hide Legal, After, Stuck;
    var t;
    p, t := Signalling();
    p, t := Move(START, p, Trap);
    p, t := Move(START, p, Push);
    p, t := Move(START, p, Trapped);
    p, t := Move(START, p, Wait);
    Exclusive(p);
    StuckShape(t);
  }

  /** An access to the controller meets the worker head on: each holds the lock the other needs. */
  lemma AccessCanStick() returns (p: seq<Step>)
    ensures Legal(START, p) && Stuck(After(START, p)) && After(START, p).cpu.Accessing?
  {
    hide Legal, After, Stuck;
    var t;
    p, t := Signalling();
    p, t := Move(START, p, Access(Load));
    Exclusive(p);
    StuckShape(t);
  }

  /** With the mask never lifted `wait` hangs on the first interrupt. */
  lemma MaskCanStick() returns (p: seq<Step>)
    ensures Legal(START, p) && Stuck(After(START, p)) && After(START, p).cpu.Waiting? && Trapped !in p
  {
    hide Legal, After, Stuck;
    var t;
    p, t := Prepared(false);
    p, t := Move(START, p, Wait);
    p, t := Move(START, p, Control(I.Take));
    Exclusive(p);
    StuckShape(t);
  }
}
