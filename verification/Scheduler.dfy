// runSchedulerTickLoopWithDrain and closeStoreAfterSchedulerDrain of internal/app/app.go: the loop,
// the tick goroutines it starts, the goroutine that waits for them, and the deferred store close.
module SchedulerDrain {

  // `Checking` is between the ticker and the second look at the context, `Starting` after it.
  datatype LoopPc = Selecting | Checking | Starting | LoopReturned

  // A tick goroutine: in tick(), about to send its result, about to call wg.Done, gone.
  datatype TickPc = Ticking | Sending | Sent | Gone

  datatype WaiterPc = AwaitingLoop | AwaitingTicks | Drained

  // `tickDone` is the number of results in the channel of capacity 1; `group` is the wait group's
  // counter. The channel done is closed exactly when the loop has returned.
  datatype State = State(
    cancelled: bool,
    loop: LoopPc,
    tickInFlight: bool,
    ticks: map<nat, TickPc>,
    tickDone: nat,
    group: nat,
    waiter: WaiterPc,
    storeClosed: bool)

  const INITIAL := State(false, Selecting, false, map[], 0, 0, AwaitingLoop, false)

  datatype Step =
    | CancelContext
    | SeeCancel
    | TickerFires
    | LookAgain
    | StartTick(t: nat)
    | ReceiveResult
    | TickReturns(t: nat)
    | SendResult(t: nat)
    | LeaveGroup(t: nat)
    | SeeLoopEnd
    | SeeGroupEmpty
    | CloseStore

  predicate At(s: State, t: nat, pc: TickPc) {
    t in s.ticks && s.ticks[t] == pc
  }

  predicate Enabled(s: State, step: Step) {
    match step
    case CancelContext => true
    case SeeCancel => s.loop.Selecting? && s.cancelled
    case TickerFires => s.loop.Selecting?
    case LookAgain => s.loop.Checking?
    case StartTick(t) => s.loop.Starting? && t !in s.ticks
    case ReceiveResult => s.loop.Selecting? && s.tickDone > 0
    case TickReturns(t) => At(s, t, Ticking)
    case SendResult(t) => At(s, t, Sending) && s.tickDone < 1
    case LeaveGroup(t) => At(s, t, Sent) && s.group > 0
    case SeeLoopEnd => s.waiter.AwaitingLoop? && s.loop.LoopReturned?
    case SeeGroupEmpty => s.waiter.AwaitingTicks? && s.group == 0
    case CloseStore => s.waiter.Drained?
  }

  function Next(s: State, step: Step): State
    requires Enabled(s, step)
  {
    match step
    case CancelContext => s.(cancelled := true)
    case SeeCancel => s.(loop := LoopReturned)
    case TickerFires => if s.tickInFlight then s else s.(loop := Checking)
    case LookAgain => s.(loop := if s.cancelled then LoopReturned else Starting)
    case StartTick(t) => s.(loop := Selecting, tickInFlight := true, group := s.group + 1,
        ticks := s.ticks[t := Ticking])
    case ReceiveResult => s.(tickDone := s.tickDone - 1, tickInFlight := false)
    case TickReturns(t) => s.(ticks := s.ticks[t := Sending])
    case SendResult(t) => s.(ticks := s.ticks[t := Sent], tickDone := s.tickDone + 1)
    case LeaveGroup(t) => s.(ticks := s.ticks[t := Gone], group := s.group - 1)
    case SeeLoopEnd => s.(waiter := AwaitingTicks)
    case SeeGroupEmpty => s.(waiter := Drained)
    case CloseStore => s.(storeClosed := true)
  }

  ghost predicate Behavior(ss: seq<State>, steps: seq<Step>) {
    && |ss| == |steps| + 1 && ss[0] == INITIAL
    && forall k {:trigger NextAt(ss, steps, k)} :: 0 <= k < |steps| ==> NextAt(ss, steps, k)
  }

  ghost predicate NextAt(ss: seq<State>, steps: seq<Step>, k: nat)
    requires k < |steps| < |ss|
  {
    Enabled(ss[k], steps[k]) && ss[k + 1] == Next(ss[k], steps[k])
  }

  // ---- The invariant.

  predicate Busy(s: State, t: nat) {
    At(s, t, Ticking) || At(s, t, Sending)
  }

  function Members(s: State): set<nat> {
    set t | t in s.ticks && !s.ticks[t].Gone?
  }

  // Between its start and the receipt of its result a tick is the only one.
  ghost predicate OneBusy(s: State) {
    && (forall t {:trigger Busy(s, t)} :: Busy(s, t) ==> s.tickInFlight && s.tickDone == 0)
    && (forall t, u {:trigger Busy(s, t), Busy(s, u)} :: Busy(s, t) && Busy(s, u) ==> t == u)
    && s.tickDone <= 1 && (s.tickDone == 1 ==> s.tickInFlight)
    && (s.loop.Checking? || s.loop.Starting? ==> !s.tickInFlight)
  }

  ghost predicate Inv(s: State) {
    && OneBusy(s)
    && s.group == |Members(s)|
    && (!s.waiter.AwaitingLoop? ==> s.loop.LoopReturned?)
    && (s.waiter.Drained? ==> s.group == 0)
    && (s.storeClosed ==> s.waiter.Drained?)
  }

  // Who is busy after a step.
  lemma BusyAfter(s: State, step: Step)
    requires Enabled(s, step)
    ensures forall u {:trigger Busy(Next(s, step), u)} ::
      Busy(Next(s, step), u) <==> if step == StartTick(u) then true else Busy(s, u) && step != SendResult(u)
  {
  }

  lemma OneStaysBusy(s: State, step: Step)
    requires OneBusy(s) && Enabled(s, step)
    ensures OneBusy(Next(s, step))
  {
    BusyAfter(s, step);
    assert step.SendResult? ==> Busy(s, step.t);
    hide Busy;
  }

  lemma GroupStaysCounted(s: State, step: Step)
    requires s.group == |Members(s)| && Enabled(s, step)
    ensures Next(s, step).group == |Members(Next(s, step))|
  {
    var s' := Next(s, step);
    if step.StartTick? {
      assert Members(s') == Members(s) + {step.t};
    } else if step.LeaveGroup? {
      assert Members(s') == Members(s) - {step.t} && step.t in Members(s);
    } else {
      assert Members(s') == Members(s);
    }
  }

  lemma NextKeeps(s: State, step: Step)
    requires Inv(s) && Enabled(s, step)
    ensures Inv(Next(s, step))
  {
    OneStaysBusy(s, step);
    GroupStaysCounted(s, step);
    hide OneBusy, Busy, Members;
  }

  lemma EmptyGroup(s: State)
    requires |Members(s)| == 0
    ensures forall t :: t in s.ticks ==> s.ticks[t].Gone?
  {
    forall t | t in s.ticks ensures s.ticks[t].Gone? {
      assert t !in Members(s);
    }
  }

  lemma {:induction false} BehaviorKeeps(ss: seq<State>, steps: seq<Step>, k: nat)
    requires Behavior(ss, steps) && k < |ss|
    ensures Inv(ss[k])
  {
    if k > 0 {
      BehaviorKeeps(ss, steps, k - 1);
      assert NextAt(ss, steps, k - 1);
      hide Inv;
      NextKeeps(ss[k - 1], steps[k - 1]);
    }
  }

  // ---- Theorems.

  // At most one tick is ever running, and a tick that has its result can send it at once.
  lemma OneTickAndNoBlocking(ss: seq<State>, steps: seq<Step>, k: nat, t: nat, u: nat)
    requires Behavior(ss, steps) && k < |ss|
    ensures At(ss[k], t, Ticking) && At(ss[k], u, Ticking) ==> t == u
    ensures At(ss[k], t, Sending) ==> Enabled(ss[k], SendResult(t))
    ensures At(ss[k], t, Sent) ==> Enabled(ss[k], LeaveGroup(t))
  {
    BehaviorKeeps(ss, steps, k);
    assert At(ss[k], t, Sending) ==> Busy(ss[k], t);
    assert At(ss[k], t, Ticking) ==> Busy(ss[k], t);
    assert At(ss[k], u, Ticking) ==> Busy(ss[k], u);
    assert At(ss[k], t, Sent) ==> t in Members(ss[k]);
  }

  // ---- The loop goes on ticking.

  // The flag is up only for a tick that is busy or whose result waits to be received.
  ghost predicate FlagIsForATick(s: State) {
    s.tickInFlight ==> s.tickDone > 0 || exists t :: Busy(s, t)
  }

  lemma FlagStaysForATick(s: State, step: Step)
    requires Inv(s) && FlagIsForATick(s) && Enabled(s, step)
    ensures FlagIsForATick(Next(s, step))
  {
    BusyAfter(s, step);
    var s' := Next(s, step);
    if step.StartTick? {
      assert Busy(s', step.t);
    } else if s.tickInFlight && s.tickDone == 0 {
      var t :| Busy(s, t);
      assert step != SendResult(t) ==> Busy(s', t);
    }
  }

  lemma {:induction false} FlagIsAlwaysForATick(ss: seq<State>, steps: seq<Step>, k: nat)
    requires Behavior(ss, steps) && k < |ss|
    ensures FlagIsForATick(ss[k])
  {
    if k > 0 {
      FlagIsAlwaysForATick(ss, steps, k - 1);
      BehaviorKeeps(ss, steps, k - 1);
      assert NextAt(ss, steps, k - 1);
      hide FlagIsForATick, Inv, Busy;
      FlagStaysForATick(ss[k - 1], steps[k - 1]);
    }
  }

  // A loop that is back in its select, with no tick busy, no result waiting and no cancellation, starts
  // another tick when the ticker fires.
  lemma TicksAgain(ss: seq<State>, steps: seq<Step>, k: nat, t: nat)
    requires Behavior(ss, steps) && k < |ss| && ss[k].loop.Selecting? && !ss[k].cancelled
    requires ss[k].tickDone == 0 && (forall u :: !Busy(ss[k], u)) && t !in ss[k].ticks
    ensures Enabled(ss[k], TickerFires)
    ensures var s1 := Next(ss[k], TickerFires);
      Enabled(s1, LookAgain) && Enabled(Next(s1, LookAgain), StartTick(t))
      && At(Next(Next(s1, LookAgain), StartTick(t)), t, Ticking)
  {
    FlagIsAlwaysForATick(ss, steps, k);
  }

  // The loop, once it has returned, stays so and starts nothing more; ticks only come to an end.
  ghost predicate Winding(s: State, s': State) {
    && (s.loop.LoopReturned? ==> s'.loop.LoopReturned? && s'.ticks.Keys == s.ticks.Keys)
    && (forall t :: At(s, t, Gone) ==> At(s', t, Gone))
    && (s.waiter.Drained? ==> s'.waiter.Drained?)
  }

  lemma {:induction false} OnlyWindsDown(ss: seq<State>, steps: seq<Step>, m: nat, n: nat)
    requires Behavior(ss, steps) && m <= n < |ss|
    ensures Winding(ss[m], ss[n])
    decreases n
  {
    if m < n {
      OnlyWindsDown(ss, steps, m, n - 1);
      assert NextAt(ss, steps, n - 1);
    }
  }

  // The drained signal comes only when the last tick is gone, and no tick starts after it.
  lemma DrainedMeansOver(ss: seq<State>, steps: seq<Step>, m: nat, n: nat, t: nat)
    requires Behavior(ss, steps) && m <= n < |ss| && ss[m].waiter.Drained?
    ensures t in ss[n].ticks ==> t in ss[m].ticks && At(ss[n], t, Gone)
  {
    BehaviorKeeps(ss, steps, m);
    OnlyWindsDown(ss, steps, m, n);
    EmptyGroup(ss[m]);
    assert t in ss[m].ticks ==> At(ss[m], t, Gone);
  }

  // The deferred close of the store never overlaps a tick: none is running then or ever after.
  lemma StoreCloseOverlapsNoTick(ss: seq<State>, steps: seq<Step>, m: nat, n: nat, t: nat)
    requires Behavior(ss, steps) && m < |steps| && m <= n < |ss|
    requires steps[m] == CloseStore || ss[m].storeClosed
    ensures !At(ss[n], t, Ticking)
  {
    assert NextAt(ss, steps, m);
    BehaviorKeeps(ss, steps, m);
    DrainedMeansOver(ss, steps, m, n, t);
  }

  // Steps of the machinery itself, which nobody outside has to make happen.
  predicate Own(step: Step) {
    step.SeeCancel? || step.LookAgain? || step.SendResult? || step.LeaveGroup? || step.SeeLoopEnd?
        || step.SeeGroupEmpty?
  }

  // After cancellation the drain is never stuck: unless a tick is still running, or is about to be
  // started by a loop that looked before the cancellation, some step of its own is enabled until
  // the drained signal is out.
  lemma DrainIsNeverStuck(ss: seq<State>, steps: seq<Step>, k: nat)
    requires Behavior(ss, steps) && k < |ss| && ss[k].cancelled && !ss[k].loop.Starting?
    requires forall t :: !At(ss[k], t, Ticking)
    requires !ss[k].waiter.Drained?
    ensures exists step :: Own(step) && Enabled(ss[k], step)
  {
    BehaviorKeeps(ss, steps, k);
    var s := ss[k];
    if s.loop.Selecting? {
      assert Own(SeeCancel) && Enabled(s, SeeCancel);
    } else if s.loop.Checking? {
      assert Own(LookAgain) && Enabled(s, LookAgain);
    } else if s.waiter.AwaitingLoop? {
      assert Own(SeeLoopEnd) && Enabled(s, SeeLoopEnd);
    } else if s.group == 0 {
      assert Own(SeeGroupEmpty) && Enabled(s, SeeGroupEmpty);
    } else {
      var t :| t in Members(s);
      if s.ticks[t].Sending? {
        assert Busy(s, t);
        assert Own(SendResult(t)) && Enabled(s, SendResult(t));
      } else {
        assert !At(s, t, Ticking);
        assert Own(LeaveGroup(t)) && Enabled(s, LeaveGroup(t));
      }
    }
  }

  function Unsent(s: State): set<nat> {
    set t | t in s.ticks && (s.ticks[t].Sending? || s.ticks[t].Ticking?)
  }

  function LoopLeft(pc: LoopPc): nat {
    if pc.LoopReturned? then 0 else 1
  }

  function WaiterLeft(pc: WaiterPc): nat {
    match pc
    case AwaitingLoop => 2
    case AwaitingTicks => 1
    case Drained => 0
  }

  // And it ends: each of these steps leaves less to do.
  function LeftToDo(s: State): nat {
    LoopLeft(s.loop) + WaiterLeft(s.waiter) + s.group + |Unsent(s)|
  }

  lemma DrainMakesProgress(s: State, step: Step)
    requires Own(step) && Enabled(s, step) && s.cancelled
    ensures LeftToDo(Next(s, step)) < LeftToDo(s)
  {
    var s' := Next(s, step);
    if step.SendResult? {
      assert step.t in Unsent(s) && Unsent(s') == Unsent(s) - {step.t};
    } else {
      assert Unsent(s') == Unsent(s);
    }
    hide Unsent;
  }
}
