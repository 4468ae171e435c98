/** What becomes of an interrupt between the worker and the processor: when a `wait` returns, how many
    interrupts a store to the mask lets through, and what two deliveries to a processor with
    interrupts off amount to. */
module Delivery {
  import opened Locks
  import I = Interrupts
  import Lanes

  // -------- the controller within the two threads --------

  /** The controller's own steps among those of the threads, in order. */
  function ControlSteps(s: State, steps: seq<Step>): seq<I.Step>
    requires Legal(s, steps)
    decreases |steps|
  {
    if |steps| == 0 then [] else ControlStep(s, steps[0]) + ControlSteps(Next(s, steps[0]), steps[1..])
  }

  function ControlStep(s: State, x: Step): seq<I.Step>
    requires Enabled(s, x)
  {
    match x
    case Control(t) => [t]
    case Accessed => if s.cpu.a.Store? then [I.Write(s.cpu.a.item, s.cpu.a.val)] else []
    case _ => []
  }

  /** Whatever the locks allow, the controller makes a run of its own: its laws hold here too. */
  lemma {:induction false} ControllerRuns(s: State, steps: seq<Step>, before: seq<I.Step>)
    requires Legal(s, steps) && I.Legal(before) && I.Reached(before) == s.c
    ensures var run := before + ControlSteps(s, steps); I.Legal(run) && I.Reached(run) == After(s, steps).c
    decreases |steps|
  {
    hide Enabled, Next, ControlStep, I.Legal, I.Reached;
    if |steps| == 0 {
      assert before + [] == before;
    } else {
      var one := ControlStep(s, steps[0]);
      ControlMoves(s, steps[0], before);
      ControllerRuns(Next(s, steps[0]), steps[1..], before + one);
      assert before + one + ControlSteps(Next(s, steps[0]), steps[1..]) == before + ControlSteps(s, steps);
    }
  }

  lemma ControlMoves(s: State, x: Step, before: seq<I.Step>)
    requires Enabled(s, x) && I.Legal(before) && I.Reached(before) == s.c
    ensures I.Legal(before + ControlStep(s, x)) && I.Reached(before + ControlStep(s, x)) == Next(s, x).c
  {
    hide I.Written, I.Handled, I.Legal, I.Reached;
    var one := ControlStep(s, x);
    if |one| == 0 {
      assert before + one == before;
    } else {
      I.Extends(before, one[0]);
      assert one == [one[0]];
    }
  }

  // -------- when `wait` returns --------

  /** The number at the head of the queue, or the next one a device may raise, is registered. */
  predicate QueueHope(c: I.Controller) {
    c.unmasked && if |c.queue| > 0 then c.queue[0] in c.interrupts else (exists n :: n in c.interrupts)
  }

  /** The worker will get a registered number past the mask by itself. */
  predicate WorkerHope(c: I.Controller) {
    match c.worker
    case AtQueue => QueueHope(c)
    case AtMask(n) => c.unmasked && n in c.interrupts
    case Awake(n) => c.unmasked && n in c.interrupts
    case Checked(n) => n in c.interrupts
    case Masked(n) => n in c.interrupts || QueueHope(c)
  }

  /** The event is set or about to be; or interrupts are on and a registered number is past the mask
      or has a lifted mask before it. */
  predicate Hopeful(s: State) {
    s.event || s.hand.Chosen? ||
    (s.intr && (s.hand.Looking? || ((s.hand.Free? || s.hand.Deferring?) && WorkerHope(s.c))))
  }

  /** A `wait` with no hope stays so, whatever the worker and the devices do. */
  lemma HopelessStep(s: State, x: Step)
    requires Consistent(s) && s.cpu.Waiting? && !Hopeful(s) && Enabled(s, x)
    ensures Next(s, x).cpu.Waiting? && !Hopeful(Next(s, x))
  {
  }

  lemma {:induction false} WaitNever(s: State, steps: seq<Step>)
    requires Consistent(s) && s.cpu.Waiting? && !Hopeful(s) && Legal(s, steps)
    ensures After(s, steps).cpu.Waiting? && !After(s, steps).event
    decreases |steps|
  {
    hide Enabled, Next, Consistent;
    if |steps| != 0 {
      HopelessStep(s, steps[0]);
      StepConsistent(s, steps[0]);
      WaitNever(Next(s, steps[0]), steps[1..]);
    }
  }

  /** How many steps of the worker the signal is away. */
  function Rank(s: State): nat {
    if s.event then 0
    else match s.hand
      case Chosen => 1
      case Looking => 2
      case Deferring => 8
      case Free =>
        (match s.c.worker
         case Masked(n) => if n in s.c.interrupts then 3 else 9
         case Checked(_) => 4
         case Awake(_) => 5
         case AtMask(_) => 6
         case AtQueue => 7)
      case _ => 0
  }

  /** A device raises only numbers with a handler. */
  predicate Known(s: State, x: Step) { x.Control? && x.t.Raise? ==> x.t.n in s.c.interrupts }

  /** Each step of the worker brings the signal nearer; a known interrupt does not put it off. */
  lemma HopeStep(s: State, x: Step)
    requires Consistent(s) && s.cpu.Waiting? && Hopeful(s) && !s.event && Enabled(s, x) && Known(s, x)
    ensures var t := Next(s, x);
      && t.cpu.Waiting? && Hopeful(t) && t.c.interrupts == s.c.interrupts
      && (if ThreadStep(x) then Rank(t) < Rank(s) else Rank(t) == Rank(s))
  {
  }

  /** What the worker does next. */
  function WorkerStep(s: State): Step {
    match s.hand
    case Chosen => Signal
    case Looking => Look
    case Deferring => Defer
    case _ =>
      match s.c.worker
      case AtQueue => Control(I.Take)
      case AtMask(_) => Control(I.Wake)
      case Awake(_) => Control(I.Check)
      case Checked(_) => Control(I.Mask)
      case Masked(_) => Control(I.Deliver)
  }

  predicate NothingQueued(s: State) { s.hand.Free? && s.c.worker.AtQueue? && s.c.queue == [] }

  /** And while it has not come the worker can step, or is at an empty queue. */
  lemma HopeMoves(s: State)
    requires Consistent(s) && s.cpu.Waiting? && Hopeful(s) && !s.event
    ensures Enabled(s, WorkerStep(s)) || NothingQueued(s)
    ensures NothingQueued(s) ==> WorkerHope(s.c)
  {
  }

  function ThreadSteps(steps: seq<Step>): nat {
    if |steps| == 0 then 0 else (if ThreadStep(steps[0]) then 1 else 0) + ThreadSteps(steps[1..])
  }

  predicate AllKnown(interrupts: map<int, int>, steps: seq<Step>) {
    forall i :: 0 <= i < |steps| && steps[i].Control? && steps[i].t.Raise? ==> steps[i].t.n in interrupts
  }

  /** A `wait` called with hope returns: as long as devices raise interrupts with handlers, the event
      is set after at most nine steps of the worker. */
  lemma {:induction false} WaitReturns(s: State, steps: seq<Step>)
    requires Consistent(s) && s.cpu.Waiting? && Hopeful(s) && Legal(s, steps)
    requires Wake !in steps && AllKnown(s.c.interrupts, steps)
    ensures After(s, steps).cpu.Waiting? && Rank(s) <= 9
    ensures After(s, steps).event || ThreadSteps(steps) < Rank(s)
    decreases |steps|
  {
    hide Enabled, Next, Consistent, Hopeful;
    RankBound(s);
    if |steps| == 0 {
      HopeRank(s);
    } else {
      var x := steps[0];
      var t := Next(s, x);
      assert x in steps && Known(s, x);
      StepConsistent(s, x);
      assert Wake !in steps[1..];
      if s.event {
        EventKept(s, x);
      } else {
        HopeStep(s, x);
      }
      WaitReturns(t, steps[1..]);
    }
  }

  lemma RankBound(s: State)
    ensures Rank(s) <= 9
  {
  }

  lemma HopeRank(s: State)
    requires Consistent(s) && s.cpu.Waiting? && Hopeful(s)
    ensures s.event || Rank(s) > 0
  {
  }

  lemma EventKept(s: State, x: Step)
    requires Consistent(s) && s.cpu.Waiting? && s.event && Enabled(s, x) && !x.Wake?
    ensures var t := Next(s, x);
      t.cpu.Waiting? && t.event && Hopeful(t) && t.c.interrupts == s.c.interrupts && Rank(t) == Rank(s) == 0
  {
  }

  ghost predicate Wakes(s: State, steps: seq<Step>) {
    Legal(s, steps) && After(s, steps).event
  }

  /** The way to the signal. */
  lemma {:induction false} HopePath(s: State) returns (steps: seq<Step>)
    requires Consistent(s) && s.cpu.Waiting? && Hopeful(s)
    ensures Wakes(s, steps)
    decreases Rank(s)
  {
    hide Enabled, Next, Legal, After, Hopeful, Rank, Consistent, WorkerHope;
    if s.event {
      NoStep(s);
      steps := [];
    } else if NothingQueued(s) {
      HopeMoves(s);
      var n := SomeHandler(s);
      var first := Control(I.Raise(n));
      QueueFilled(s, n);
      HopeStep(s, first);
      StepConsistent(s, first);
      var t := Next(s, first);
      HopeStep(t, Control(I.Take));
      StepConsistent(t, Control(I.Take));
      var rest := HopePath(Next(t, Control(I.Take)));
      Prepend(t, Control(I.Take), rest);
      Prepend(s, first, [Control(I.Take)] + rest);
      steps := [first] + ([Control(I.Take)] + rest);
    } else {
      HopeMoves(s);
      var x := WorkerStep(s);
      HopeStep(s, x);
      StepConsistent(s, x);
      var rest := HopePath(Next(s, x));
      Prepend(s, x, rest);
      steps := [x] + rest;
    }
  }

  lemma SomeHandler(s: State) returns (n: int)
    requires NothingQueued(s) && WorkerHope(s.c)
    ensures n in s.c.interrupts
  {
    n :| n in s.c.interrupts;
  }

  lemma QueueFilled(s: State, n: int)
    requires NothingQueued(s)
    ensures Enabled(s, Control(I.Raise(n))) && Enabled(Next(s, Control(I.Raise(n))), Control(I.Take))
    ensures Next(s, Control(I.Raise(n))).hand.Free? && Next(s, Control(I.Raise(n))).event == s.event
  {
  }

  lemma Prepend(s: State, x: Step, rest: seq<Step>)
    requires Enabled(s, x) && Wakes(Next(s, x), rest)
    ensures Wakes(s, [x] + rest)
  {
    hide Enabled, Next;
    assert ([x] + rest)[1..] == rest;
  }

  /** What must hold when `wait` is called for it to be able to return: there is a way to the signal
      exactly when there is hope. */
  lemma WaitExactly(s: State)
    requires Consistent(s) && s.cpu.Waiting?
    ensures (exists steps :: Wakes(s, steps)) <==> Hopeful(s)
  {
    hide Hopeful, Consistent, Legal, After;
    if Hopeful(s) {
      var steps := HopePath(s);
    } else {
      forall steps | Legal(s, steps) ensures !After(s, steps).event { WaitNever(s, steps); }
    }
  }

  // -------- when an access to the controller gets through --------

  /** The worker is past the point of no return: it will enter a trap, under the controller's lock. */
  predicate Committed(s: State) { s.hand.Chosen? || s.hand.Signalled? || (s.hand.Looking? && s.intr) }

  /** The worker is on its way there, or a registered number is past the mask or next to a lifted one
      with interrupts on. */
  predicate Heads(s: State) {
    Committed(s) || (s.intr && (s.hand.Free? || s.hand.Deferring?) && WorkerHope(s.c))
  }

  /** An access under way stays where it is until it gets through. */
  lemma AccessHeld(s: State, x: Step)
    requires Consistent(s) && s.cpu.Accessing? && Enabled(s, x) && !x.Accessed?
    ensures Next(s, x).cpu == s.cpu && Next(s, x).intr == s.intr && Next(s, x).c.interrupts == s.c.interrupts
    ensures !Heads(s) ==> !Heads(Next(s, x))
    ensures Committed(s) ==> Committed(Next(s, x))
  {
  }

  /** Once the worker is committed, no continuation lets the access through. */
  lemma {:induction false} AccessDoomed(s: State, steps: seq<Step>)
    requires Consistent(s) && s.cpu.Accessing? && Committed(s) && Legal(s, steps)
    ensures After(s, steps).cpu == s.cpu && Accessed !in steps
    decreases |steps|
  {
    hide Enabled, Next, Consistent, Heads, Committed;
    if |steps| != 0 {
      CommittedBlocks(s);
      AccessHeld(s, steps[0]);
      StepConsistent(s, steps[0]);
      AccessDoomed(Next(s, steps[0]), steps[1..]);
      assert forall x :: x in steps ==> x == steps[0] || x in steps[1..];
    }
  }

  lemma CommittedBlocks(s: State)
    requires Consistent(s) && Committed(s)
    ensures !Enabled(s, Accessed)
  {
  }

  lemma {:induction false} AccessWaits(s: State, steps: seq<Step>)
    requires Consistent(s) && s.cpu.Accessing? && Legal(s, steps) && Accessed !in steps
    ensures var t := After(s, steps);
      Consistent(t) && t.cpu == s.cpu && t.intr == s.intr && (!Heads(s) ==> !Heads(t))
    decreases |steps|
  {
    hide Enabled, Next, Consistent, Heads;
    if |steps| != 0 {
      assert steps[0] in steps;
      AccessHeld(s, steps[0]);
      StepConsistent(s, steps[0]);
      assert Accessed !in steps[1..];
      AccessWaits(Next(s, steps[0]), steps[1..]);
    }
  }

  /** The way from an access to the point where neither thread can move. */
  ghost predicate Meets(s: State, steps: seq<Step>) {
    Legal(s, steps) && Accessed !in steps && Stuck(After(s, steps))
  }

  /** A worker that heads for the trap comes nearer with each of its steps. */
  lemma HeadStep(s: State, x: Step)
    requires Consistent(s) && s.cpu.Accessing? && Heads(s) && !s.hand.Signalled?
    requires Enabled(s, x) && Known(s, x) && !x.Accessed?
    ensures var t := Next(s, x);
      t.cpu == s.cpu && Heads(t) && (if ThreadStep(x) then Rank(t) < Rank(s) else Rank(t) == Rank(s))
  {
  }

  lemma HeadMoves(s: State)
    requires Consistent(s) && s.cpu.Accessing? && Heads(s) && !s.hand.Signalled?
    ensures Enabled(s, WorkerStep(s)) || (NothingQueued(s) && WorkerHope(s.c))
    ensures ThreadStep(WorkerStep(s)) && !WorkerStep(s).Accessed?
  {
  }

  lemma {:induction false} HeadPath(s: State) returns (steps: seq<Step>)
    requires Consistent(s) && s.cpu.Accessing? && Heads(s)
    ensures Meets(s, steps)
    decreases Rank(s)
  {
    hide Enabled, Next, Legal, After, Heads, Rank, Consistent, WorkerHope, WorkerStep, Stuck, NothingQueued;
    if s.hand.Signalled? {
      NoStep(s);
      StuckShape(s);
      steps := [];
    } else {
      HeadMoves(s);
      if Enabled(s, WorkerStep(s)) {
        steps := HeadOne(s, WorkerStep(s));
      } else {
        var n := SomeHandler(s);
        var first := Control(I.Raise(n));
        QueueFilled(s, n);
        HeadStep(s, first);
        StepConsistent(s, first);
        var rest := HeadOne(Next(s, first), Control(I.Take));
        MeetsLater(s, first, rest);
        steps := [first] + rest;
      }
    }
  }

  lemma HeadOne(s: State, x: Step) returns (steps: seq<Step>)
    requires Consistent(s) && s.cpu.Accessing? && Heads(s) && !s.hand.Signalled?
    requires Enabled(s, x) && ThreadStep(x) && !x.Accessed?
    ensures Meets(s, steps)
    decreases Rank(s), 0
  {
    hide Enabled, Next, Legal, After, Heads, Rank, Consistent, Stuck;
    HeadStep(s, x);
    StepConsistent(s, x);
    var rest := HeadPath(Next(s, x));
    MeetsLater(s, x, rest);
    steps := [x] + rest;
  }

  lemma MeetsLater(s: State, x: Step, rest: seq<Step>)
    requires Enabled(s, x) && !x.Accessed? && Meets(Next(s, x), rest)
    ensures Meets(s, [x] + rest)
  {
    hide Enabled, Next, Stuck;
    assert ([x] + rest)[1..] == rest;
  }

  /** An access to the controller can end with neither thread able to move if and only if the worker
      is heading for a trap when the access is made. */
  lemma AccessExactly(s: State)
    requires Consistent(s) && s.cpu.Accessing?
    ensures (exists steps :: Meets(s, steps)) <==> Heads(s)
  {
    hide Heads, Consistent, Legal, After, Stuck;
    if Heads(s) {
      var steps := HeadPath(s);
    } else {
      forall steps | Legal(s, steps) && Accessed !in steps ensures !Stuck(After(s, steps)) {
        AccessWaits(s, steps);
        StuckShape(After(s, steps));
        SignalledHeads(After(s, steps));
      }
    }
  }

  lemma SignalledHeads(s: State)
    ensures s.hand.Signalled? ==> Heads(s)
  {
  }

  /** What lets the access through: the worker lets go of the lock, in at most two steps. */
  function Way(s: State): seq<Step> {
    match s.hand
    case Looking => [Look, Defer]
    case Deferring => [Defer]
    case _ => []
  }

  /** It can get through if and only if the worker is not committed. */
  lemma AccessPasses(s: State)
    requires Consistent(s) && s.cpu.Accessing?
    ensures (exists steps :: Legal(s, steps) && Accessed in steps) <==> !Committed(s)
    ensures |Way(s)| <= 2
    ensures !Committed(s) ==> Legal(s, Way(s) + [Accessed])
  {
    hide Legal, After, Consistent;
    if Committed(s) {
      forall steps | Legal(s, steps) ensures Accessed !in steps { AccessDoomed(s, steps); }
    } else {
      WayPasses(s);
      assert Accessed in Way(s) + [Accessed];
    }
  }

  lemma WayPasses(s: State)
    requires Consistent(s) && s.cpu.Accessing? && !Committed(s)
    ensures Legal(s, Way(s) + [Accessed])
  {
    hide Legal, After;
    var p, t := [], s;
    NoStep(s);
    if s.hand.Looking? { p, t := Move(s, p, Look); }
    if t.hand.Deferring? { p, t := Move(s, p, Defer); }
    assert p == Way(s);
    p, t := Move(s, p, Accessed);
  }

  /** What a guest can see to: with interrupts off, and no trap entry of the worker already under way,
      an access never meets the worker; wherever it is held it gets through after at most two steps
      of the worker. */
  lemma AccessWithInterruptsOff(s: State, steps: seq<Step>)
    requires Consistent(s) && s.cpu.Accessing? && !s.intr && !s.hand.Chosen? && !s.hand.Signalled?
    requires Legal(s, steps) && Accessed !in steps
    ensures var t := After(s, steps);
      !Stuck(t) && |Way(t)| <= 2 && Legal(t, Way(t) + [Accessed])
  {
    hide Legal, After, Stuck, Consistent;
    AccessWaits(s, steps);
    var t := After(s, steps);
    AccessPasses(t);
    StuckShape(t);
  }

  // -------- a store to the mask --------

  /** In the middle of an instruction, with the worker at a queue of two or more. */
  predicate Storing(s: State) {
    Consistent(s) && s.cpu.Inside? && s.hand.Free? && s.c.worker.AtQueue? && |s.c.queue| >= 2
  }

  /** A step while the processor stores zeros to the mask and nothing else. */
  predicate StoreStep(x: Step) {
    match x
    case Access(a) => a.Store? && I.Within(a.item, I.MASK) && a.val == 0
    case Accessed => true
    case Control(_) => true
    case _ => x.Look? || x.Defer? || x.Signal? || x.Enter? || x.Leave?
  }

  predicate StoreOnly(steps: seq<Step>) { forall i :: 0 <= i < |steps| ==> StoreStep(steps[i]) }

  /** How far the number at the head of the queue has come: not finished, or finished and on its way
      to a processor with interrupts on. */
  predicate Blocking(s: State, n: int, count: nat) {
    && s.intr && n in s.c.interrupts && Consistent(s)
    && (s.cpu.Inside? || (s.cpu.Accessing? && StoreStep(Access(s.cpu.a))))
    && (if |s.c.finished| == count then
          s.hand.Free? && (if s.c.worker.AtQueue? then |s.c.queue| > 0 && s.c.queue[0] == n
                           else s.c.worker.n == n && (s.c.worker.Awake? ==> s.c.unmasked))
        else
          |s.c.finished| == count + 1 && (s.hand.Looking? || s.hand.Chosen? || s.hand.Signalled?))
  }

  lemma BlockingStep(s: State, x: Step, n: int, count: nat)
    requires Blocking(s, n, count) && Enabled(s, x) && StoreStep(x)
    ensures Blocking(Next(s, x), n, count)
  {
    hide Consistent, Lanes.SetWordByte;
    StepConsistent(s, x);
    BlockingLocks(s, n, count);
    StoreMoves(s, x, n, count);
  }

  lemma BlockingLocks(s: State, n: int, count: nat)
    requires Blocking(s, n, count)
    ensures s.cpuLock.TheProcessor? && (!s.hand.Free? ==> s.intcLock.TheWorker? && s.c.worker.AtQueue?)
  {
  }

  lemma StoreMoves(s: State, x: Step, n: int, count: nat)
    requires Blocking(s, n, count) && Enabled(s, x) && StoreStep(x) && Consistent(Next(s, x))
    requires s.cpuLock.TheProcessor? && (!s.hand.Free? ==> s.intcLock.TheWorker? && s.c.worker.AtQueue?)
    ensures Blocking(Next(s, x), n, count)
  {
    hide Consistent, Lanes.SetWordByte;
  }

  /** With interrupts on and the first number registered, the worker ends up waiting for the storing
      processor, under the lock the next byte needs: no second interrupt gets past in that store. */
  lemma {:induction false} StoreBlocks(s: State, steps: seq<Step>, n: int, count: nat)
    requires Blocking(s, n, count) && Legal(s, steps) && StoreOnly(steps)
    ensures |After(s, steps).c.finished| <= count + 1
    decreases |steps|
  {
    hide Enabled, Next, StoreStep;
    if |steps| != 0 {
      BlockingStep(s, steps[0], n, count);
      StoreBlocks(Next(s, steps[0]), steps[1..], n, count);
    }
  }

  /** A zero byte stored at the mask. */
  lemma Lifted(s: State, p: seq<Step>, i: nat) returns (q: seq<Step>, t: State)
    requires Legal(s, p) && StoreOnly(p) && After(s, p).cpu.Inside? && After(s, p).intcLock.Nobody? && i < 4
    ensures Legal(s, q) && StoreOnly(q) && t == After(s, q)
    ensures var u := After(s, p); t == u.(c := u.c.(unmasked := true, unmasks := u.c.unmasks + 1))
  {
    hide Legal, After;
    var a := Store(I.MASK + i, 0);
    q, t := Move(s, p, Access(a));
    var q1 := q;
    q, t := Move(s, q, Accessed);
    assert StoreStep(Access(a)) && StoreStep(Accessed);
    StoreMore(p, Access(a));
    StoreMore(q1, Accessed);
  }

  lemma StoreMore(p: seq<Step>, x: Step)
    requires StoreOnly(p) && StoreStep(x)
    ensures StoreOnly(p + [x])
  {
    hide StoreStep;
  }

  predicate Deferrable(s: State, n: int) { !s.intr || n !in s.c.interrupts }

  /** The worker past the mask with the head of the queue, up to the look-up. */
  lemma Passed(s: State, p: seq<Step>) returns (q: seq<Step>, t: State)
    requires Legal(s, p) && StoreOnly(p)
    requires var u := After(s, p);
      u.hand.Free? && u.intcLock.Nobody? && u.c.worker.AtQueue? && |u.c.queue| > 0 && u.c.unmasked
    ensures Legal(s, q) && StoreOnly(q) && t == After(s, q)
    ensures var u := After(s, p);
      t == u.(c := u.c.(queue := u.c.queue[1..], worker := I.Masked(u.c.queue[0]), unmasked := false))
  {
    hide Legal, After;
    q, t := Move(s, p, Control(I.Take));
    StoreMore(p, Control(I.Take));
    var q1 := q;
    q, t := Move(s, q, Control(I.Wake));
    StoreMore(q1, Control(I.Wake));
    q1 := q;
    q, t := Move(s, q, Control(I.Check));
    StoreMore(q1, Control(I.Check));
    q1 := q;
    q, t := Move(s, q, Control(I.Mask));
    StoreMore(q1, Control(I.Mask));
  }

  /** A whole turn of the worker for a number it can ignore or leave pending. */
  lemma Deferred(s: State, p: seq<Step>) returns (q: seq<Step>, t: State)
    requires Legal(s, p) && StoreOnly(p)
    requires var u := After(s, p);
      && u.hand.Free? && u.intcLock.Nobody? && u.c.worker.AtQueue? && |u.c.queue| > 0 && u.c.unmasked
      && Deferrable(u, u.c.queue[0])
    ensures Legal(s, q) && StoreOnly(q) && t == After(s, q)
    ensures var u := After(s, p); var n := u.c.queue[0]; var known := n in u.c.interrupts;
      && t == u.(c := t.c, pending := u.pending || known)
      && t.c == u.c.(queue := u.c.queue[1..], unmasked := false,
                     current := if known then u.c.interrupts[n] else u.c.current,
                     finished := u.c.finished + [(n, if known then I.Delivered else I.Ignored)])
  {
    hide Legal, After;
    var u := After(s, p);
    q, t := Passed(s, p);
    var q1 := q;
    q, t := Move(s, q, Control(I.Deliver));
    StoreMore(q1, Control(I.Deliver));
    if u.c.queue[0] in u.c.interrupts {
      q1 := q;
      q, t := Move(s, q, Look);
      StoreMore(q1, Look);
      q1 := q;
      q, t := Move(s, q, Defer);
      StoreMore(q1, Defer);
    }
  }

  /** Two bytes of the store with a turn of the worker after each. */
  lemma TwoPass(s: State) returns (p: seq<Step>, t: State)
    requires Storing(s) && Deferrable(s, s.c.queue[0]) && Deferrable(s, s.c.queue[1])
    ensures Legal(s, p) && StoreOnly(p) && t == After(s, p)
    ensures var n, k := s.c.queue[0], s.c.queue[1];
      && t.hand.Free? && t.cpu.Inside? && t.intr == s.intr && Consistent(t) && t.c.interrupts == s.c.interrupts
      && (n in s.c.interrupts || k in s.c.interrupts ==> t.pending)
      && (k in s.c.interrupts ==> t.c.current == s.c.interrupts[k])
      && |t.c.finished| == |s.c.finished| + 2
      && t.c.finished[|s.c.finished|].0 == n && t.c.finished[|s.c.finished| + 1].0 == k
  {
    hide Legal, After;
    NoStep(s);
    p, t := Lifted(s, [], 0);
    p, t := Deferred(s, p);
    p, t := Lifted(s, p, 1);
    p, t := Deferred(s, p);
    StaysConsistent(s, p);
  }

  /** A second interrupt gets past the mask within one store of zeros to it. */
  ghost predicate PassesTwo(s: State, p: seq<Step>) {
    Legal(s, p) && StoreOnly(p) && |After(s, p).c.finished| >= |s.c.finished| + 2
  }

  /** A word store that lifts the mask writes four unmask bytes; two interrupts can get past in one
      store exactly when interrupts are off or the first is not registered. */
  lemma WordUnmaskPassesTwo(s: State)
    requires Storing(s)
    ensures (exists p :: PassesTwo(s, p)) <==> !s.intr || s.c.queue[0] !in s.c.interrupts
  {
    hide Legal, After, StoreStep;
    if Deferrable(s, s.c.queue[0]) {
      var p := PassTwo(s);
    } else {
      assert Blocking(s, s.c.queue[0], |s.c.finished|);
      forall p | Legal(s, p) && StoreOnly(p) ensures |After(s, p).c.finished| <= |s.c.finished| + 1 {
        StoreBlocks(s, p, s.c.queue[0], |s.c.finished|);
      }
    }
  }

  lemma PassTwo(s: State) returns (p: seq<Step>)
    requires Storing(s) && Deferrable(s, s.c.queue[0])
    ensures PassesTwo(s, p)
  {
    hide Legal, After;
    var t;
    NoStep(s);
    p, t := Lifted(s, [], 0);
    p, t := Deferred(s, p);
    p, t := Lifted(s, p, 1);
    var q;
    p, t := Passed(s, p);
    q := p;
    p, t := Move(s, p, Control(I.Deliver));
    StoreMore(q, Control(I.Deliver));
  }

  // -------- two deliveries, one entry --------

  /** How often the processor enters the interrupt trap for what was pending. */
  function Entries(s: State, steps: seq<Step>): nat
    requires Legal(s, steps)
    decreases |steps|
  {
    if |steps| == 0 then 0
    else
      var x := steps[0];
      (if x.Fire? || (x.SetIntr? && x.on && s.pending) then 1 else 0) + Entries(Next(s, x), steps[1..])
  }

  /** No further delivery, and no `intr` instruction. */
  predicate Undelivered(steps: seq<Step>) {
    forall i :: 0 <= i < |steps| ==> !steps[i].SoftIntr? && !(steps[i].Control? && steps[i].t.Deliver?)
  }

  /** Until the next delivery there is at most one entry, and the controller goes on naming the same
      handler. */
  lemma {:induction false} OneEntry(s: State, steps: seq<Step>)
    requires s.hand.Free? && Legal(s, steps) && Undelivered(steps)
    ensures Entries(s, steps) <= if s.pending then 1 else 0
    ensures After(s, steps).c.current == s.c.current
    decreases |steps|
  {
    hide Enabled, Next;
    if |steps| != 0 {
      EntryStep(s, steps[0]);
      OneEntry(Next(s, steps[0]), steps[1..]);
    }
  }

  lemma EntryStep(s: State, x: Step)
    requires s.hand.Free? && Enabled(s, x) && !x.SoftIntr? && !(x.Control? && x.t.Deliver?)
    ensures var t := Next(s, x);
      && t.hand.Free? && t.c.current == s.c.current && (t.pending ==> s.pending)
      && (x.Fire? || (x.SetIntr? && x.on && s.pending) ==> s.pending && !t.pending)
  {
    hide Lanes.SetWordByte;
  }

  /** How far two registered numbers at the head of the queue have come, interrupts being off: neither
      finished, the first finished, or both; what has been handed over is pending and named. */
  predicate Carried(s: State, n: int, k: int, count: nat) {
    && !s.intr && n in s.c.interrupts && k in s.c.interrupts && |s.c.finished| >= count
    && (s.cpu.Inside? || (s.cpu.Accessing? && StoreStep(Access(s.cpu.a))))
    && (s.hand.Free? || s.hand.Looking? || s.hand.Deferring?)
    && (|s.c.finished| == count ==> s.hand.Free? && HoldsNext(s.c, n) && NextBut(s.c, k))
    && (|s.c.finished| == count + 1 ==>
          s.c.current == s.c.interrupts[n] && (s.hand.Free? ==> s.pending) && HoldsNext(s.c, k))
    && (|s.c.finished| == count + 2 ==>
          s.c.current == s.c.interrupts[k] && (s.hand.Free? ==> s.pending))
  }

  /** The number is the next the worker finishes. */
  predicate HoldsNext(c: I.Controller, n: int) {
    if c.worker.AtQueue? then |c.queue| > 0 && c.queue[0] == n
    else c.worker.n == n && (c.worker.Awake? ==> c.unmasked)
  }

  /** And this one follows it. */
  predicate NextBut(c: I.Controller, k: int) {
    if c.worker.AtQueue? then |c.queue| > 1 && c.queue[1] == k else |c.queue| > 0 && c.queue[0] == k
  }

  lemma CarriedStep(s: State, x: Step, n: int, k: int, count: nat)
    requires Consistent(s) && Carried(s, n, k, count) && Enabled(s, x) && StoreStep(x)
    ensures Carried(Next(s, x), n, k, count) && Next(s, x).c.interrupts == s.c.interrupts
  {
    hide Lanes.SetWordByte;
  }

  lemma {:induction false} StoreCarries(s: State, steps: seq<Step>, n: int, k: int, count: nat)
    requires Consistent(s) && Carried(s, n, k, count) && Legal(s, steps) && StoreOnly(steps)
    ensures Carried(After(s, steps), n, k, count) && After(s, steps).c.interrupts == s.c.interrupts
    decreases |steps|
  {
    hide Enabled, Next, StoreStep, Consistent, Carried;
    if |steps| != 0 {
      CarriedStep(s, steps[0], n, k, count);
      StepConsistent(s, steps[0]);
      StoreCarries(Next(s, steps[0]), steps[1..], n, k, count);
    }
  }

  /** Two registered interrupts let through in one store to a processor with interrupts off, however
      the threads interleave: one flag stands for both, the controller names the handler of the
      second, and whatever happens until the next delivery there is at most one entry. */
  lemma FirstHandlerLost(s: State, p: seq<Step>)
    requires Storing(s) && !s.intr && s.c.queue[0] in s.c.interrupts && s.c.queue[1] in s.c.interrupts
    requires Legal(s, p) && StoreOnly(p) && |After(s, p).c.finished| == |s.c.finished| + 2 && After(s, p).hand.Free?
    ensures After(s, p).pending && After(s, p).c.current == s.c.interrupts[s.c.queue[1]]
    ensures forall q :: Legal(After(s, p), q) && Undelivered(q) ==>
      Entries(After(s, p), q) <= 1 && After(After(s, p), q).c.current == s.c.interrupts[s.c.queue[1]]
  {
    hide Legal, After, Entries, StoreStep;
    var t := After(s, p);
    StoreCarries(s, p, s.c.queue[0], s.c.queue[1], |s.c.finished|);
    forall q | Legal(t, q) && Undelivered(q)
      ensures Entries(t, q) <= 1 && After(t, q).c.current == s.c.interrupts[s.c.queue[1]]
    {
      OneEntry(t, q);
    }
  }

  /** There is such a run from every such state. */
  lemma TwoDelivered(s: State) returns (p: seq<Step>)
    requires Storing(s) && !s.intr && s.c.queue[0] in s.c.interrupts && s.c.queue[1] in s.c.interrupts
    ensures PassesTwo(s, p) && |After(s, p).c.finished| == |s.c.finished| + 2 && After(s, p).hand.Free?
  {
    hide Legal, After, StoreStep;
    var t;
    p, t := TwoPass(s);
  }
}
