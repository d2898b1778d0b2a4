/** The dispatchers: one per connected worker, all popping from one queue, each with its own slots. */
module Dispatcher {
  import opened Types

  /** A submission in the queue, named by its place in the order of pushing. */
  type Item = nat

  /** Where the loop of a dispatcher stands. A cancelled pop returns without giving its slot back. */
  datatype Phase =
    | Checking
    | Loaded
    | Popping
    | Carrying(item: Item)
    | Selecting
    | Stopped(cancelled: bool)

  /** `judging` and `notices` belong to the worker: jobs it runs, and finish messages not read yet. */
  datatype Poller = Poller(
    parallel: int,
    availableThread: int,
    phase: Phase,
    judging: set<Item>,
    notices: nat,
    reading: bool)

  datatype State = State(
    pushed: nat,
    queue: seq<Item>,
    dropped: set<Item>,
    finished: set<Item>,
    pollers: map<Id, Poller>)

  datatype Step =
    | Push
    | Connect(id: Id, header: Option<int>)
    | Load(id: Id)
    | Take(id: Id)
    | Pop(id: Id)
    | PopFails(id: Id)
    | PopCancelled(id: Id)
    | PrepareFails(id: Id)
    | Write(id: Id)
    | WakeUp(id: Id)
    | Stop(id: Id)
    | Finish(id: Id, item: Item)
    | Read(id: Id)
    | HangUp(id: Id)

  const START := State(0, [], {}, {}, map[])

  /** The parallelism a worker asks for; one slot when it asks for none or cannot be understood. */
  function Slots(header: Option<int>): (n: int)
    ensures n > 0 && (n == 1 || header == Some(n))
    ensures header.Some? && header.value > 0 ==> header == Some(n)
  {
    if header.None? || header.value <= 0 then 1 else header.value
  }

  predicate At(s: State, id: Id, phase: Phase) {
    id in s.pollers && s.pollers[id].phase == phase
  }

  predicate Carries(s: State, id: Id) {
    id in s.pollers && s.pollers[id].phase.Carrying?
  }

  predicate Enabled(s: State, step: Step) {
    match step
    case Push => true
    case Connect(id, _) => id !in s.pollers
    case Load(id) => At(s, id, Checking)
    case Take(id) => At(s, id, Loaded)
    case Pop(id) => At(s, id, Popping) && s.queue != []
    case PopFails(id) => At(s, id, Popping)
    case PopCancelled(id) => At(s, id, Popping)
    case PrepareFails(id) => Carries(s, id)
    case Write(id) => Carries(s, id)
    case WakeUp(id) => At(s, id, Selecting)
    case Stop(id) => At(s, id, Selecting)
    case Finish(id, item) => id in s.pollers && item in s.pollers[id].judging
    case Read(id) => id in s.pollers && s.pollers[id].reading && s.pollers[id].notices > 0
    case HangUp(id) => id in s.pollers && s.pollers[id].reading
  }

  function Put(s: State, id: Id, p: Poller): State {
    s.(pollers := s.pollers[id := p])
  }

  function Next(s: State, step: Step): State
    requires Enabled(s, step)
  {
    match step
    case Push => s.(queue := s.queue + [s.pushed], pushed := s.pushed + 1)
    case Connect(id, header) => Put(s, id, Poller(Slots(header), Slots(header), Checking, {}, 0, true))
    case Load(id) =>
      var p := s.pollers[id];
      Put(s, id, p.(phase := if p.availableThread > 0 then Loaded else Selecting))
    case Take(id) => var p := s.pollers[id]; Put(s, id, p.(phase := Popping, availableThread := p.availableThread - 1))
    case Pop(id) => Put(s, id, s.pollers[id].(phase := Carrying(s.queue[0]))).(queue := s.queue[1..])
    case PopFails(id) =>
      var p := s.pollers[id];
      Put(s, id, p.(phase := Checking, availableThread := p.availableThread + 1))
    case PopCancelled(id) => Put(s, id, s.pollers[id].(phase := Stopped(true)))
    case PrepareFails(id) =>
      var p := s.pollers[id];
      Put(s, id, p.(phase := Checking, availableThread := p.availableThread + 1))
        .(dropped := s.dropped + {p.phase.item})
    case Write(id) => var p := s.pollers[id]; Put(s, id, p.(phase := Selecting, judging := p.judging + {p.phase.item}))
    case WakeUp(id) => Put(s, id, s.pollers[id].(phase := Checking))
    case Stop(id) => Put(s, id, s.pollers[id].(phase := Stopped(false)))
    case Finish(id, item) =>
      var p := s.pollers[id];
      Put(s, id, p.(judging := p.judging - {item}, notices := p.notices + 1)).(finished := s.finished + {item})
    case Read(id) =>
      var p := s.pollers[id];
      Put(s, id, p.(notices := p.notices - 1, availableThread := p.availableThread + 1))
    case HangUp(id) => Put(s, id, s.pollers[id].(reading := false))
  }

  ghost predicate Runs(s: State, steps: seq<Step>)
    decreases |steps|
  {
    steps == [] || (Enabled(s, steps[0]) && Runs(Next(s, steps[0]), steps[1..]))
  }

  ghost function After(s: State, steps: seq<Step>): State
    requires Runs(s, steps)
    decreases |steps|
  {
    if steps == [] then s else After(Next(s, steps[0]), steps[1..])
  }

  // ---------------------------------------------------------------- slots

  /** The slot a dispatcher has taken for a job that is not at the worker. */
  function Held(phase: Phase): nat {
    match phase
    case Popping => 1
    case Carrying(_) => 1
    case Stopped(cancelled) => if cancelled then 1 else 0
    case _ => 0
  }

  /** Every slot is in exactly one place, and the load that saw a free slot is still right when it is taken. */
  predicate Credited(p: Poller) {
    && p.availableThread >= 0 && (p.phase.Loaded? ==> p.availableThread > 0)
    && p.availableThread + Held(p.phase) + |p.judging| + p.notices == p.parallel
  }

  predicate AllCredited(s: State) {
    forall id :: id in s.pollers ==> Credited(s.pollers[id])
  }

  // ---------------------------------------------------------------- places

  /** With the dispatcher that popped it, or at its worker. */
  predicate With(p: Poller, i: Item) {
    p.phase == Carrying(i) || i in p.judging
  }

  predicate Has(s: State, id: Id, i: Item) {
    id in s.pollers && With(s.pollers[id], i)
  }

  predicate Over(s: State, i: Item) {
    i in s.dropped || i in s.finished
  }

  predicate Popped(s: State, i: Item) {
    i < s.pushed - |s.queue|
  }

  /** The queue holds the latest items, in the order they were pushed. */
  predicate QueueRight(s: State) {
    |s.queue| <= s.pushed && forall j :: 0 <= j < |s.queue| ==> s.queue[j] == s.pushed - |s.queue| + j
  }

  /** A popped item is in one place: over, or with one dispatcher or its worker. */
  ghost predicate Placed(s: State) {
    && QueueRight(s)
    && (forall i: Item :: Popped(s, i) <==> Over(s, i) || exists id :: Has(s, id, i))
    && (forall id: Id, i: Item :: Has(s, id, i) ==> !Over(s, i))
    && (forall id: Id, id': Id, i: Item :: Has(s, id, i) && Has(s, id', i) ==> id == id')
    && (forall id: Id, i: Item :: At(s, id, Carrying(i)) ==> i !in s.pollers[id].judging)
    && s.dropped !! s.finished
  }

  ghost predicate Right(s: State) {
    Placed(s) && AllCredited(s)
  }

  lemma ActorCredited(s: State, step: Step)
    requires Enabled(s, step) && !step.Push?
    requires step.id in s.pollers ==> Credited(s.pollers[step.id])
    requires Carries(s, step.id) ==> s.pollers[step.id].phase.item !in s.pollers[step.id].judging
    ensures step.id in Next(s, step).pollers && Credited(Next(s, step).pollers[step.id])
  {
  }

  lemma OthersKept(s: State, step: Step, id: Id)
    requires Enabled(s, step) && (step.Push? || id != step.id)
    ensures id in Next(s, step).pollers <==> id in s.pollers
    ensures id in s.pollers ==> Next(s, step).pollers[id] == s.pollers[id]
  {
  }

  lemma StepCredited(s: State, step: Step)
    requires Enabled(s, step) && Right(s)
    ensures AllCredited(Next(s, step))
  {
    forall id | id in Next(s, step).pollers ensures Credited(Next(s, step).pollers[id]) {
      if !step.Push? && id == step.id {
        assert Carries(s, id) ==> At(s, id, Carrying(s.pollers[id].phase.item));
        ActorCredited(s, step);
      } else {
        OthersKept(s, step, id);
      }
    }
  }

  // ---------------------------------------------------------------- what moves

  /** The item that is over with this step. */
  predicate Ends(s: State, step: Step, i: Item) {
    match step
    case Finish(_, item) => i == item
    case PrepareFails(id) => At(s, id, Carrying(i))
    case _ => false
  }

  predicate Starts(s: State, step: Step, id: Id, i: Item) {
    step == Pop(id) && s.queue != [] && i == s.queue[0]
  }

  ghost predicate Moves(s: State, step: Step, s': State) {
    && (forall id: Id, i: Item :: Has(s', id, i) <==> (Has(s, id, i) && !Ends(s, step, i)) || Starts(s, step, id, i))
    && (forall i: Item :: Over(s', i) <==> Over(s, i) || Ends(s, step, i))
    && (step.Push? ==> s'.pushed == s.pushed + 1 && s'.queue == s.queue + [s.pushed])
    && (step.Pop? ==> s'.pushed == s.pushed && s.queue != [] && s'.queue == s.queue[1..])
    && (!step.Push? && !step.Pop? ==> s'.pushed == s.pushed && s'.queue == s.queue)
  }

  lemma StepMoves(s: State, step: Step)
    requires Enabled(s, step) && Placed(s)
    ensures Moves(s, step, Next(s, step))
  {
    var s' := Next(s, step);
    forall id: Id, i: Item
      ensures Has(s', id, i) <==> (Has(s, id, i) && !Ends(s, step, i)) || Starts(s, step, id, i)
    {
      if Ends(s, step, i) {
        assert Has(s, step.id, i);
        assert At(s, step.id, Carrying(i)) ==> i !in s.pollers[step.id].judging;
        assert Has(s, id, i) ==> id == step.id;
        assert !Has(s', step.id, i);
      }
    }
  }

  lemma EndsOne(s: State, step: Step, i: Item) returns (id: Id)
    requires Enabled(s, step) && Ends(s, step, i)
    ensures Has(s, id, i)
  {
    id := step.id;
  }

  lemma MovesPlaced(s: State, step: Step, s': State)
    requires Enabled(s, step) && Placed(s) && Moves(s, step, s')
    ensures QueueRight(s')
    ensures forall id: Id, i: Item :: Has(s', id, i) ==> !Over(s', i)
    ensures forall id: Id, id': Id, i: Item :: Has(s', id, i) && Has(s', id', i) ==> id == id'
  {
    forall id: Id, i: Item | Starts(s, step, id, i) ensures !Popped(s, i) {
      assert s.queue[0] == s.pushed - |s.queue|;
    }
  }

  lemma PoppedSomewhere(s: State, step: Step, s': State, i: Item)
    requires Enabled(s, step) && Placed(s) && Moves(s, step, s')
    ensures Popped(s', i) <==> Over(s', i) || exists id :: Has(s', id, i)
  {
    if Popped(s, i) && !Over(s, i) {
      var id :| Has(s, id, i);
      assert Has(s', id, i) || Ends(s, step, i);
    }
    if Ends(s, step, i) {
      var id := EndsOne(s, step, i);
    }
    if step.Pop? && i == s.queue[0] {
      assert Starts(s, step, step.id, i);
      assert Has(s', step.id, i);
    }
  }

  lemma StepPlaced(s: State, step: Step)
    requires Enabled(s, step) && Placed(s)
    ensures Placed(Next(s, step))
  {
    var s' := Next(s, step);
    StepMoves(s, step);
    MovesPlaced(s, step, s');
    forall i: Item ensures Popped(s', i) <==> Over(s', i) || exists id :: Has(s', id, i) {
      PoppedSomewhere(s, step, s', i);
    }
    StepApart(s, step);
  }

  lemma StepApart(s: State, step: Step)
    requires Enabled(s, step) && Placed(s)
    ensures forall id: Id, i: Item :: At(Next(s, step), id, Carrying(i)) ==> i !in Next(s, step).pollers[id].judging
    ensures Next(s, step).dropped !! Next(s, step).finished
  {
    if step.Pop? {
      assert !Popped(s, s.queue[0]);
      assert !Has(s, step.id, s.queue[0]);
    }
    if step.PrepareFails? {
      var i := s.pollers[step.id].phase.item;
      assert Has(s, step.id, i);
    }
    if step.Finish? {
      assert Has(s, step.id, step.item);
    }
  }

  lemma {:induction false} RunRight(s: State, steps: seq<Step>)
    requires Right(s) && Runs(s, steps)
    ensures Right(After(s, steps))
    decreases |steps|
  {
    if steps != [] {
      StepPlaced(s, steps[0]);
      StepCredited(s, steps[0]);
      RunRight(Next(s, steps[0]), steps[1..]);
    }
  }

  lemma StartRight()
    ensures Right(START)
  {
  }

  // ---------------------------------------------------------------- results

  /**
   * After every run of any number of dispatchers and workers, each slot of a worker is free, held by the
   * dispatcher, in use, or on its way back; so no worker ever has more jobs than slots, and once nothing is
   * under way all its slots are free, unless a cancelled pop took one along.
   */
  lemma SlotCredits(steps: seq<Step>, id: Id)
    requires Runs(START, steps) && id in After(START, steps).pollers
    ensures var p := After(START, steps).pollers[id];
      && p.availableThread >= 0
      && p.availableThread + Held(p.phase) + |p.judging| + p.notices == p.parallel
      && |p.judging| <= p.parallel
      && (p.availableThread == p.parallel <==> Held(p.phase) == 0 && p.judging == {} && p.notices == 0)
  {
    StartRight();
    RunRight(START, steps);
  }

  /** After every run, a popped submission is dropped, or finished, or with exactly one dispatcher or its worker. */
  lemma OnePlace(steps: seq<Step>, i: Item)
    requires Runs(START, steps)
    ensures var s := After(START, steps);
      && (i < s.pushed <==> i in s.queue || i in s.dropped || i in s.finished || exists id :: Has(s, id, i))
      && !(i in s.queue && (Over(s, i) || exists id :: Has(s, id, i)))
      && !(i in s.dropped && i in s.finished)
      && !(Over(s, i) && exists id :: Has(s, id, i))
      && (forall id: Id, id': Id :: Has(s, id, i) && Has(s, id', i) ==> id == id')
  {
    StartRight();
    RunRight(START, steps);
    var s := After(START, steps);
    assert Popped(s, i) <==> i < s.pushed - |s.queue|;
    if s.pushed - |s.queue| <= i < s.pushed {
      assert s.queue[i - (s.pushed - |s.queue|)] == i;
    }
  }

  lemma {:induction false} ParallelKept(s: State, steps: seq<Step>, id: Id)
    requires Runs(s, steps) && id in s.pollers
    ensures id in After(s, steps).pollers && After(s, steps).pollers[id].parallel == s.pollers[id].parallel
    decreases |steps|
  {
    if steps != [] {
      ParallelKept(Next(s, steps[0]), steps[1..], id);
    }
  }

  /** A worker never has more jobs than it asked for when it connected, or than one if it asked for nothing sensible. */
  lemma NoMoreThanAsked(before: seq<Step>, id: Id, header: Option<int>, steps: seq<Step>)
    requires Runs(START, before) && Enabled(After(START, before), Connect(id, header))
    requires Runs(Next(After(START, before), Connect(id, header)), steps)
    ensures var s := After(Next(After(START, before), Connect(id, header)), steps);
      var asked := if header.Some? && header.value > 0 then header.value else 1;
      id in s.pollers && s.pollers[id].parallel == asked && |s.pollers[id].judging| <= asked
  {
    StartRight();
    RunRight(START, before);
    var s := After(START, before);
    StepPlaced(s, Connect(id, header));
    StepCredited(s, Connect(id, header));
    RunRight(Next(s, Connect(id, header)), steps);
    ParallelKept(Next(s, Connect(id, header)), steps, id);
  }

  /** A free slot and a waiting item are enough: the dispatcher can pop the oldest item, and only then. */
  lemma FreeSlotServes(s: State, id: Id)
    requires At(s, id, Checking) && s.queue != []
    ensures Runs(s, [Load(id), Take(id), Pop(id)]) <==> s.pollers[id].availableThread >= 1
    ensures s.pollers[id].availableThread >= 1 ==>
      At(After(s, [Load(id), Take(id), Pop(id)]), id, Carrying(s.queue[0]))
  {
    var steps := [Load(id), Take(id), Pop(id)];
    var s1 := Next(s, Load(id));
    assert steps[1..] == [Take(id), Pop(id)];
    if s.pollers[id].availableThread >= 1 {
      var s2 := Next(s1, Take(id));
      assert steps[1..][1..] == [Pop(id)];
      OneStep(s2, Pop(id));
      assert Runs(s1, [Take(id), Pop(id)]) && After(s1, [Take(id), Pop(id)]) == Next(s2, Pop(id));
    }
  }

  lemma OneStep(s: State, step: Step)
    requires Enabled(s, step)
    ensures Runs(s, [step]) && After(s, [step]) == Next(s, step)
  {
    assert [step][1..] == [];
    assert After(Next(s, step), []) == Next(s, step);
  }

  /** How often item `i` is written to a worker. */
  ghost function Writes(s: State, steps: seq<Step>, i: Item): nat
    requires Runs(s, steps)
    decreases |steps|
  {
    if steps == [] then 0
    else
      (if steps[0].Write? && At(s, steps[0].id, Carrying(i)) then 1 else 0)
      + Writes(Next(s, steps[0]), steps[1..], i)
  }

  /** Popped, and past its dispatcher. */
  ghost predicate Gone(s: State, i: Item) {
    Popped(s, i) && forall id :: !At(s, id, Carrying(i))
  }

  lemma StepGone(s: State, step: Step, i: Item)
    requires Enabled(s, step) && Placed(s) && (Gone(s, i) || (step.Write? && At(s, step.id, Carrying(i))))
    ensures Gone(Next(s, step), i)
  {
    if step.Pop? {
      assert s.queue[0] == s.pushed - |s.queue|;
    }
    if step.Write? && At(s, step.id, Carrying(i)) {
      assert Has(s, step.id, i);
    }
    forall id ensures !At(Next(s, step), id, Carrying(i)) {
      if At(s, id, Carrying(i)) {
        assert Has(s, id, i) && Has(s, step.id, i);
      }
    }
  }

  lemma {:induction false} WrittenOnce(s: State, steps: seq<Step>, i: Item)
    requires Placed(s) && Runs(s, steps)
    ensures Writes(s, steps, i) <= 1
    ensures Gone(s, i) ==> Writes(s, steps, i) == 0
    decreases |steps|
  {
    if steps != [] {
      StepPlaced(s, steps[0]);
      WrittenOnce(Next(s, steps[0]), steps[1..], i);
      if Gone(s, i) || (steps[0].Write? && At(s, steps[0].id, Carrying(i))) {
        StepGone(s, steps[0], i);
      }
    }
  }

  /** In every run, a pushed submission is handed to at most one worker, at most once. */
  lemma DispatchedOnce(steps: seq<Step>, i: Item)
    requires Runs(START, steps)
    ensures Writes(START, steps, i) <= 1
  {
    StartRight();
    WrittenOnce(START, steps, i);
  }

  // ---------------------------------------------------------------- one turn of a dispatcher

  datatype PopResult = Got(item: Item) | PopError | Cancelled

  datatype Turn = NoSlot | Retry | Leave | Sent(item: Item)

  /**
   * The counter that the dispatcher's loop and the reader share. `outstanding` and `lost` are history: jobs sent
   * whose finish was not counted yet, and slots that left with a cancelled pop.
   */
  class Connection {
    const parallel: int
    var availableThread: int
    ghost var outstanding: nat
    ghost var lost: nat

    ghost predicate Valid()
      reads this
    {
      availableThread >= 0 && availableThread + outstanding + lost == parallel
    }

    constructor (header: Option<int>)
      ensures Valid() && parallel == Slots(header) && outstanding == lost == 0
    {
      parallel := Slots(header);
      availableThread, outstanding, lost := Slots(header), 0, 0;
    }

    /** The reader, when the worker reports one of its jobs finished: never more slots than the worker has. */
    method JudgeOneFinished()
      requires Valid() && outstanding > 0
      modifies this
      ensures Valid() && outstanding == old(outstanding) - 1 && lost == old(lost)
      ensures 0 < availableThread <= parallel
    {
      availableThread := availableThread + 1;
      outstanding := outstanding - 1;
    }

    /**
     * One turn of the loop. The reader may count finished jobs at any time: `seen` of them between the load and the
     * decrement, `meanwhile` more while the slot is held. A job is sent only for a slot, and the slot stays taken
     * only for a job that was sent, or when the loop is left for a cancelled pop.
     */
    method Poll(seen: nat, meanwhile: nat, popped: PopResult, prepared: bool, written: bool) returns (turn: Turn)
      requires Valid() && seen + meanwhile <= outstanding
      modifies this
      ensures Valid()
      ensures outstanding == old(outstanding) - seen - meanwhile + (if turn.Sent? then 1 else 0)
      ensures lost == old(lost) + (if turn.Leave? then 1 else 0)
      ensures turn.NoSlot? <==> old(availableThread) == 0
      ensures turn.Leave? <==> old(availableThread) > 0 && popped.Cancelled?
      ensures turn.Sent? <==> old(availableThread) > 0 && popped.Got? && prepared && written
      ensures turn.Sent? ==> turn.item == popped.item
    {
      var val := availableThread;
      availableThread, outstanding := availableThread + seen, outstanding - seen;
      if val > 0 {
        availableThread := availableThread - 1;
        availableThread, outstanding := availableThread + meanwhile, outstanding - meanwhile;
        match popped {
          case Cancelled =>
            lost := lost + 1;
            return Leave;
          case PopError =>
            availableThread := availableThread + 1;
            return Retry;
          case Got(item) =>
            if !prepared || !written {
              availableThread := availableThread + 1;
              return Retry;
            }
            outstanding := outstanding + 1;
            return Sent(item);
        }
      }
      availableThread, outstanding := availableThread + meanwhile, outstanding - meanwhile;
      return NoSlot;
    }
  }
}
