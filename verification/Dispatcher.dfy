/**
 The slot accounting of the autonomy dispatcher: one scheduler and N workers share an atomic
 counter, a mutex-guarded map of per-agent counts and a bounded channel.

 Reserving updates the map before the counter and releasing updates the counter before the
 map, so the two disagree between steps.  The model interleaves every atomic step of every
 party; the invariants hold in each state of each interleaving.
 */
module Dispatcher {

  /** A dispatched run and the agent whose slot it occupies. */
  datatype Item = Item(run: nat, agent: string)

  datatype Scheduler =
    | Idle
    | Loaded(item: Item)       // the counter was read below the limit
    | Inserted(item: Item)     // the map was raised; the mutex is still held
    | Reserved(item: Item)     // the counter was raised too; dispatch is being prepared
    | Prepared(item: Item)     // about to send
    | Releasing(item: Item)    // about to lower the counter
    | Released(item: Item)     // about to lower the map
    | Killed                   // left its loop and dropped the sender

  datatype Worker =
    | Waiting
    | Running(item: Item)      // dispatching; about to lower the counter
    | Returned(item: Item)     // about to lower the map
    | Stopped

  datatype Config = Config(globalConcurrency: nat, perAgentConcurrency: nat)

  datatype State = State(
    slots: int,                  // the atomic counter
    reserved: map<string, nat>,  // the map behind the mutex
    channel: seq<Item>,
    closed: bool,                // the receiving side is gone
    scheduler: Scheduler,
    workers: seq<Worker>,
    sent: seq<Item>,             // history: items put into the channel
    finished: multiset<Item>)    // history: items whose slots were given back by a worker

  predicate Init(c: Config, s: State) {
    s == State(0, map[], [], false, Idle, seq(c.globalConcurrency, _ => Waiting), [], multiset{})
  }

  // ---------------------------------------------------------------- atomic steps

  datatype Step =
    | SelectJob(item: Item)    // `reserve_slot`: read the counter
    | Insert                   // `reserve_slot`: check and raise the map
    | AddSlot                  // `reserve_slot`: raise the counter
    | Prepare(ok: bool)        // `prepare_dispatch` yields an item or not
    | TrySend
    | SubSlot                  // `release_slot` by the scheduler: lower the counter
    | Remove                   // `release_slot` by the scheduler: lower the map
    | Kill                     // the platform kill flag ends the scheduler's loop
    | Close                    // the receiving side goes away
    | Receive(w: nat)
    | Finish(w: nat)           // `release_slot` by a worker: lower the counter
    | Return(w: nat)           // `release_slot` by a worker: lower the map
    | Quit(w: nat)             // the channel is closed and empty

  function Count(reserved: map<string, nat>, agent: string): nat {
    if agent in reserved then reserved[agent] else 0
  }

  /** Lowers an agent's count and drops it at zero. */
  function Lower(reserved: map<string, nat>, agent: string): map<string, nat> {
    if agent !in reserved then reserved
    else if reserved[agent] > 1 then reserved[agent := reserved[agent] - 1]
    else reserved - {agent}
  }

  predicate Enabled(c: Config, s: State, a: Step) {
    match a
    case SelectJob(_) => s.scheduler.Idle?
    case Insert => s.scheduler.Loaded?
    case AddSlot => s.scheduler.Inserted?
    case Prepare(_) => s.scheduler.Reserved?
    case TrySend => s.scheduler.Prepared?
    case SubSlot => s.scheduler.Releasing?
    case Remove => s.scheduler.Released?
    case Kill => s.scheduler.Idle?
    case Close => true
    case Receive(w) => w < |s.workers| && s.workers[w].Waiting? && s.channel != []
    case Finish(w) => w < |s.workers| && s.workers[w].Running?
    case Return(w) => w < |s.workers| && s.workers[w].Returned? && !s.scheduler.Inserted?
    case Quit(w) => w < |s.workers| && s.workers[w].Waiting? && s.channel == [] && s.scheduler.Killed?
  }

  function Next(c: Config, s: State, a: Step): State
    requires Enabled(c, s, a)
  {
    match a
    case SelectJob(item) =>
      if s.slots >= c.globalConcurrency then s else s.(scheduler := Loaded(item))
    case Insert =>
      var item := s.scheduler.item;
      var held := Count(s.reserved, item.agent);
      if held >= c.perAgentConcurrency then s.(scheduler := Idle)
      else s.(reserved := s.reserved[item.agent := held + 1], scheduler := Inserted(item))
    case AddSlot => s.(slots := s.slots + 1, scheduler := Reserved(s.scheduler.item))
    case Prepare(ok) =>
      s.(scheduler := if ok then Prepared(s.scheduler.item) else Releasing(s.scheduler.item))
    case TrySend =>
      var item := s.scheduler.item;
      if s.closed || |s.channel| >= c.globalConcurrency then s.(scheduler := Releasing(item))
      else s.(channel := s.channel + [item], sent := s.sent + [item], scheduler := Idle)
    case SubSlot => s.(slots := s.slots - 1, scheduler := Released(s.scheduler.item))
    case Remove => s.(reserved := Lower(s.reserved, s.scheduler.item.agent), scheduler := Idle)
    case Kill => s.(scheduler := Killed)
    case Close => s.(closed := true)
    case Receive(w) => s.(channel := s.channel[1..], workers := s.workers[w := Running(s.channel[0])])
    case Finish(w) => s.(slots := s.slots - 1, workers := s.workers[w := Returned(s.workers[w].item)])
    case Return(w) =>
      var item := s.workers[w].item;
      s.(reserved := Lower(s.reserved, item.agent), workers := s.workers[w := Waiting],
         finished := s.finished + multiset{item})
    case Quit(w) => s.(workers := s.workers[w := Stopped])
  }

  /** A run: states linked by enabled steps. */
  ghost predicate Run(c: Config, states: seq<State>, steps: seq<Step>) {
    && |states| == |steps| + 1 && Init(c, states[0])
    && forall i :: 0 <= i < |steps| ==> Enabled(c, states[i], steps[i]) && states[i + 1] == Next(c, states[i], steps[i])
  }

  // ---------------------------------------------------------------- who holds what

  function Bit(b: bool): nat {
    if b then 1 else 0
  }

  /** How many workers satisfy `p`. */
  function Tally(workers: seq<Worker>, p: Worker -> bool): nat {
    if workers == [] then 0 else Bit(p(workers[0])) + Tally(workers[1..], p)
  }

  lemma {:induction false} TallyUpdate(workers: seq<Worker>, p: Worker -> bool, w: nat, worker: Worker)
    requires w < |workers|
    ensures Tally(workers[w := worker], p) + Bit(p(workers[w])) == Tally(workers, p) + Bit(p(worker))
  {
    var updated := workers[w := worker];
    if w == 0 {
      assert updated[1..] == workers[1..];
    } else {
      TallyUpdate(workers[1..], p, w - 1, worker);
      assert updated[1..] == workers[1..][w - 1 := worker];
    }
  }

  lemma {:induction false} TallyZero(workers: seq<Worker>, p: Worker -> bool)
    requires forall i :: 0 <= i < |workers| ==> !p(workers[i])
    ensures Tally(workers, p) == 0
  {
    if workers != [] {
      TallyZero(workers[1..], p);
    }
  }

  /** How many queued items belong to an agent. */
  function Queued(items: seq<Item>, agent: string): nat {
    if items == [] then 0 else Bit(items[0].agent == agent) + Queued(items[1..], agent)
  }

  lemma {:induction false} QueuedAppend(items: seq<Item>, item: Item, agent: string)
    ensures Queued(items + [item], agent) == Queued(items, agent) + Bit(item.agent == agent)
  {
    if items == [] {
      assert items + [item] == [item];
    } else {
      QueuedAppend(items[1..], item, agent);
      assert (items + [item])[1..] == items[1..] + [item];
    }
  }

  function Holds(agent: string): Worker -> bool {
    (w: Worker) => (w.Running? || w.Returned?) && w.item.agent == agent
  }

  function Carries(item: Item): Worker -> bool {
    (w: Worker) => (w.Running? || w.Returned?) && w.item == item
  }

  function Counted(): Worker -> bool {
    (w: Worker) => w.Running?
  }

  /** The slots an agent has in the map. */
  function MapShare(s: State, agent: string): nat {
    InFlight(s, agent) +
    Bit((s.scheduler.Inserted? || s.scheduler.Reserved? || s.scheduler.Prepared? || s.scheduler.Releasing?
         || s.scheduler.Released?) && s.scheduler.item.agent == agent)
  }

  /** Items of an agent that occupy a slot: queued, being dispatched, or being given back. */
  function InFlight(s: State, agent: string): nat {
    Queued(s.channel, agent) + Tally(s.workers, Holds(agent))
  }

  /** The slots in the counter. */
  function CounterShare(s: State): nat {
    |s.channel| + Tally(s.workers, Counted()) +
    Bit(s.scheduler.Reserved? || s.scheduler.Prepared? || s.scheduler.Releasing?)
  }

  // ---------------------------------------------------------------- invariant

  ghost predicate CounterExact(c: Config, s: State) {
    && s.slots == CounterShare(s) <= c.globalConcurrency
    && (s.scheduler.Loaded? || s.scheduler.Inserted? ==> s.slots < c.globalConcurrency)
  }

  ghost predicate MapExact(c: Config, s: State, agent: string) {
    && Count(s.reserved, agent) == MapShare(s, agent) <= c.perAgentConcurrency
    && (agent in s.reserved ==> s.reserved[agent] >= 1)
  }

  /** An item sent is in the channel, with one worker, or finished. */
  ghost predicate ItemConserved(s: State, item: Item) {
    multiset(s.sent)[item] == multiset(s.channel)[item] + Tally(s.workers, Carries(item)) + s.finished[item]
  }

  ghost predicate StopsInOrder(s: State) {
    forall i :: 0 <= i < |s.workers| && s.workers[i].Stopped? ==> s.scheduler.Killed? && s.channel == []
  }

  ghost predicate Inv(c: Config, s: State) {
    && |s.workers| == c.globalConcurrency
    && CounterExact(c, s) && StopsInOrder(s)
    && (forall agent :: MapExact(c, s, agent))
    && (forall item :: ItemConserved(s, item))
  }

  /** The service starts at rest, with all its workers waiting. */
  lemma ServiceStarts(c: Config) returns (s: State)
    ensures Init(c, s) && Quiescent(s) && s.scheduler.Idle? && !s.closed && s.sent == []
    ensures |s.workers| == c.globalConcurrency && forall i :: 0 <= i < |s.workers| ==> s.workers[i].Waiting?
  {
    s := State(0, map[], [], false, Idle, seq(c.globalConcurrency, _ => Waiting), [], multiset{});
  }

  lemma InitInv(c: Config, s: State)
    requires Init(c, s)
    ensures Inv(c, s)
  {
    TallyZero(s.workers, Counted());
    forall agent: string
      ensures MapExact(c, s, agent)
    {
      TallyZero(s.workers, Holds(agent));
    }
    forall item: Item
      ensures ItemConserved(s, item)
    {
      TallyZero(s.workers, Carries(item));
    }
  }

  /** The worker a step moves, if any. */
  predicate Moves(a: Step) {
    a.Receive? || a.Finish? || a.Return? || a.Quit?
  }

  lemma StepCounter(c: Config, s: State, a: Step)
    requires CounterExact(c, s) && Enabled(c, s, a)
    ensures CounterExact(c, Next(c, s, a))
  {
    if Moves(a) {
      TallyUpdate(s.workers, Counted(), a.w, Next(c, s, a).workers[a.w]);
    }
  }

  lemma WorkerStepMap(c: Config, s: State, a: Step, agent: string)
    requires MapExact(c, s, agent) && Enabled(c, s, a) && Moves(a)
    ensures MapExact(c, Next(c, s, a), agent)
  {
    TallyUpdate(s.workers, Holds(agent), a.w, Next(c, s, a).workers[a.w]);
  }

  lemma SchedulerStepMap(c: Config, s: State, a: Step, agent: string)
    requires MapExact(c, s, agent) && Enabled(c, s, a) && !Moves(a)
    ensures MapExact(c, Next(c, s, a), agent)
  {
    if a.TrySend? {
      QueuedAppend(s.channel, s.scheduler.item, agent);
    } else {
      assert Next(c, s, a).channel == s.channel;
    }
  }

  lemma WorkerStepItems(c: Config, s: State, a: Step, item: Item)
    requires ItemConserved(s, item) && Enabled(c, s, a) && Moves(a)
    ensures ItemConserved(Next(c, s, a), item)
  {
    TallyUpdate(s.workers, Carries(item), a.w, Next(c, s, a).workers[a.w]);
    if a.Receive? {
      assert s.channel == [s.channel[0]] + s.channel[1..];
    }
  }

  lemma SchedulerStepItems(c: Config, s: State, a: Step, item: Item)
    requires ItemConserved(s, item) && Enabled(c, s, a) && !Moves(a)
    ensures ItemConserved(Next(c, s, a), item)
  {
  }

  /** Every atomic step of every party keeps the invariant. */
  lemma StepInv(c: Config, s: State, a: Step)
    requires Inv(c, s) && Enabled(c, s, a)
    ensures Inv(c, Next(c, s, a))
  {
    StepCounter(c, s, a);
    forall agent: string
      ensures MapExact(c, Next(c, s, a), agent)
    {
      if Moves(a) {
        WorkerStepMap(c, s, a, agent);
      } else {
        SchedulerStepMap(c, s, a, agent);
      }
    }
    forall item: Item
      ensures ItemConserved(Next(c, s, a), item)
    {
      if Moves(a) {
        WorkerStepItems(c, s, a, item);
      } else {
        SchedulerStepItems(c, s, a, item);
      }
    }
  }

  lemma {:induction false} RunInv(c: Config, states: seq<State>, steps: seq<Step>, i: nat)
    requires Run(c, states, steps) && i < |states|
    ensures Inv(c, states[i])
  {
    if i == 0 {
      InitInv(c, states[0]);
    } else {
      RunInv(c, states, steps, i - 1);
      StepInv(c, states[i - 1], steps[i - 1]);
    }
  }

  // ---------------------------------------------------------------- what a run promises

  predicate Quiescent(s: State) {
    && (s.scheduler.Idle? || s.scheduler.Killed?) && s.channel == []
    && forall i :: 0 <= i < |s.workers| ==> s.workers[i].Waiting? || s.workers[i].Stopped?
  }

  ghost predicate Safe(c: Config, s: State) {
    && 0 <= s.slots <= c.globalConcurrency
    && (forall agent :: InFlight(s, agent) <= Count(s.reserved, agent) <= c.perAgentConcurrency)
    && (s.scheduler.Prepared? ==> |s.channel| < c.globalConcurrency)
    && (s.scheduler.Releasing? || (exists i :: 0 <= i < |s.workers| && s.workers[i].Running?) ==> s.slots > 0)
    && (Quiescent(s) ==> s.slots == 0 && s.reserved == map[] && multiset(s.sent) == s.finished)
  }

  /** In every state of every run the limits hold, and at rest nothing is left behind. */
  lemma RunsAreSafe(c: Config, states: seq<State>, steps: seq<Step>)
    requires Run(c, states, steps)
    ensures forall i :: 0 <= i < |states| ==> Safe(c, states[i])
  {
    forall i | 0 <= i < |states|
      ensures Safe(c, states[i])
    {
      RunInv(c, states, steps, i);
      InvSafe(c, states[i]);
    }
  }

  lemma InvSafe(c: Config, s: State)
    requires Inv(c, s)
    ensures Safe(c, s)
  {
    forall agent
      ensures InFlight(s, agent) <= Count(s.reserved, agent) <= c.perAgentConcurrency
    {
      assert MapExact(c, s, agent);
    }
    forall i | 0 <= i < |s.workers| && s.workers[i].Running?
      ensures s.slots > 0
    {
      TallyUpdate(s.workers, Counted(), i, Waiting);
    }
    if Quiescent(s) {
      RestIsClean(c, s);
    }
  }

  lemma RestIsClean(c: Config, s: State)
    requires Inv(c, s) && Quiescent(s)
    ensures s.slots == 0 && s.reserved == map[] && multiset(s.sent) == s.finished
  {
    TallyZero(s.workers, Counted());
    forall agent: string
      ensures agent !in s.reserved
    {
      TallyZero(s.workers, Holds(agent));
      assert MapExact(c, s, agent);
    }
    assert s.reserved.Keys == {};
    forall item: Item
      ensures multiset(s.sent)[item] == s.finished[item]
    {
      TallyZero(s.workers, Carries(item));
      assert ItemConserved(s, item);
    }
  }

  /** The items that workers have taken from the channel in the first `i` steps of a run. */
  ghost function Taken(c: Config, states: seq<State>, steps: seq<Step>, i: nat): seq<Item>
    requires Run(c, states, steps) && i <= |steps|
  {
    if i == 0 then []
    else Taken(c, states, steps, i - 1) + if steps[i - 1].Receive? then [states[i - 1].channel[0]] else []
  }

  /** In every run the items are taken in the order in which they were sent. */
  lemma {:induction false} FirstComeFirstServed(c: Config, states: seq<State>, steps: seq<Step>, i: nat)
    requires Run(c, states, steps) && i <= |steps|
    ensures Taken(c, states, steps, i) + states[i].channel == states[i].sent
  {
    if i > 0 {
      FirstComeFirstServed(c, states, steps, i - 1);
      OrderIsKept(c, states[i - 1], steps[i - 1], Taken(c, states, steps, i - 1));
    }
  }

  lemma OrderIsKept(c: Config, s: State, a: Step, taken: seq<Item>)
    requires Enabled(c, s, a) && taken + s.channel == s.sent
    ensures (if a.Receive? then taken + [s.channel[0]] else taken + []) + Next(c, s, a).channel == Next(c, s, a).sent
  {
    assert taken + [] == taken;
    if a.Receive? {
      assert taken + [s.channel[0]] + s.channel[1..] == taken + s.channel;
    } else if a.TrySend? {
      assert taken + (s.channel + [s.scheduler.item]) == taken + s.channel + [s.scheduler.item];
    }
  }

  /** A full channel never makes `try_send` fail: only a closed one does. */
  lemma SendFailsOnlyWhenClosed(c: Config, states: seq<State>, steps: seq<Step>, i: nat)
    requires Run(c, states, steps) && i < |steps| && steps[i].TrySend?
    ensures states[i + 1].scheduler.Releasing? <==> states[i].closed
    ensures !states[i].closed ==> states[i + 1].channel == states[i].channel + [states[i].scheduler.item]
  {
    RunInv(c, states, steps, i);
    InvSafe(c, states[i]);
  }

  // ---------------------------------------------------------------- draining

  /** Steps that start new work or change the surroundings; all others finish work. */
  predicate Starts(a: Step) {
    a.SelectJob? || a.Kill? || a.Close? || a.Quit?
  }

  function SchedulerWork(s: Scheduler): nat {
    match s
    case Idle => 0
    case Killed => 0
    case Loaded(_) => 7
    case Inserted(_) => 6
    case Reserved(_) => 5
    case Prepared(_) => 4
    case Releasing(_) => 2
    case Released(_) => 1
  }

  function Work(s: State): nat {
    SchedulerWork(s.scheduler) + 3 * |s.channel| + Tally(s.workers, Counted()) + Tally(s.workers, Busy())
  }

  function Busy(): Worker -> bool {
    (w: Worker) => w.Running? || w.Returned?
  }

  /** Every finishing step makes measurable progress, so a drain cannot go on for ever. */
  lemma DrainProgress(c: Config, s: State, a: Step)
    requires Enabled(c, s, a) && !Starts(a)
    ensures Work(Next(c, s, a)) < Work(s)
  {
    if Moves(a) {
      TallyUpdate(s.workers, Counted(), a.w, Next(c, s, a).workers[a.w]);
      TallyUpdate(s.workers, Busy(), a.w, Next(c, s, a).workers[a.w]);
    }
  }

  /** No reachable state with work in it is stuck: some finishing step is enabled. */
  lemma NeverStuck(c: Config, s: State) returns (a: Step)
    requires Inv(c, s) && !Quiescent(s)
    ensures Enabled(c, s, a) && !Starts(a)
  {
    match s.scheduler
    case Loaded(_) => a := Insert;
    case Inserted(_) => a := AddSlot;
    case Reserved(_) => a := Prepare(true);
    case Prepared(_) => a := TrySend;
    case Releasing(_) => a := SubSlot;
    case Released(_) => a := Remove;
    case _ =>
      if i :| 0 <= i < |s.workers| && s.workers[i].Running? {
        a := Finish(i);
      } else if i :| 0 <= i < |s.workers| && s.workers[i].Returned? {
        a := Return(i);
      } else {
        assert |s.channel| <= |s.workers|;
        assert !s.workers[0].Stopped?;
        a := Receive(0);
      }
  }

  /** Some way of finishing the work leads from any reachable state to rest, with every slot given back. */
  lemma {:induction false} Drain(c: Config, s: State) returns (steps: seq<Step>, rest: State)
    requires Inv(c, s)
    ensures |steps| <= Work(s) && (forall i :: 0 <= i < |steps| ==> !Starts(steps[i]))
    ensures Reaches(c, s, steps, rest) && Inv(c, rest)
    ensures Quiescent(rest) && rest.slots == 0 && rest.reserved == map[] && multiset(rest.sent) == rest.finished
    decreases Work(s)
  {
    if Quiescent(s) {
      RestIsClean(c, s);
      return [], s;
    }
    var a := NeverStuck(c, s);
    StepInv(c, s, a);
    DrainProgress(c, s, a);
    var more;
    more, rest := Drain(c, Next(c, s, a));
    steps := [a] + more;
    assert steps[1..] == more;
  }

  predicate Reaches(c: Config, s: State, steps: seq<Step>, t: State)
    decreases |steps|
  {
    if steps == [] then s == t else Enabled(c, s, steps[0]) && Reaches(c, Next(c, s, steps[0]), steps[1..], t)
  }

  lemma {:induction false} OneMore(c: Config, s: State, steps: seq<Step>, t: State, a: Step)
    returns (longer: seq<Step>, u: State)
    requires Reaches(c, s, steps, t) && Enabled(c, t, a)
    ensures longer == steps + [a] && u == Next(c, t, a) && Reaches(c, s, longer, u)
    decreases |steps|
  {
    longer, u := steps + [a], Next(c, t, a);
    if steps == [] {
      assert longer[1..] == [];
    } else {
      var more;
      more, u := OneMore(c, Next(c, s, steps[0]), steps[1..], t, a);
      assert longer[1..] == more;
    }
  }

  /** No choice of finishing steps can put rest off beyond the work there is. */
  lemma {:induction false} DrainBound(c: Config, s: State, steps: seq<Step>, t: State)
    requires Reaches(c, s, steps, t) && forall i :: 0 <= i < |steps| ==> !Starts(steps[i])
    ensures |steps| + Work(t) <= Work(s)
    decreases |steps|
  {
    if steps != [] {
      DrainProgress(c, s, steps[0]);
      DrainBound(c, Next(c, s, steps[0]), steps[1..], t);
    }
  }

  // ---------------------------------------------------------------- the two slot methods, uninterrupted

  /** `reserve_slot` and `release_slot` of one party; each takes the atomic steps of the machine in turn. */
  class SlotTable {
    const config: Config
    var queued: int
    var reserved: map<string, nat>

    constructor (config: Config)
      ensures this.config == config && queued == 0 && reserved == map[]
    {
      this.config, queued, reserved := config, 0, map[];
    }

    ghost predicate Shows(s: State)
      reads this
    {
      s.slots == queued && s.reserved == reserved
    }

    method ReserveSlot(item: Item, ghost s: State) returns (ok: bool, ghost steps: seq<Step>, ghost t: State)
      requires Shows(s) && s.scheduler.Idle?
      modifies this
      ensures Shows(t) && Reaches(config, s, steps, t)
      ensures ok <==> old(queued) < config.globalConcurrency
                      && Count(old(reserved), item.agent) < config.perAgentConcurrency
      ensures t.scheduler == if ok then Reserved(item) else Idle
    {
      steps, t := OneMore(config, s, [], s, SelectJob(item));
      if queued >= config.globalConcurrency {
        return false, steps, t;
      }
      steps, t := OneMore(config, s, steps, t, Insert);
      var perAgent := Count(reserved, item.agent);
      if perAgent >= config.perAgentConcurrency {
        return false, steps, t;
      }
      reserved := reserved[item.agent := perAgent + 1];
      queued := queued + 1;
      steps, t := OneMore(config, s, steps, t, AddSlot);
      ok := true;
    }

    method ReleaseSlot(item: Item, ghost s: State) returns (ghost steps: seq<Step>, ghost t: State)
      requires Shows(s) && s.scheduler == Releasing(item)
      modifies this
      ensures Shows(t) && Reaches(config, s, steps, t) && t.scheduler.Idle?
    {
      steps, t := OneMore(config, s, [], s, SubSlot);
      queued := queued - 1;
      if item.agent in reserved {
        var count := reserved[item.agent];
        reserved := if count > 1 then reserved[item.agent := count - 1] else reserved - {item.agent};
      }
      steps, t := OneMore(config, s, steps, t, Remove);
    }
  }

  // ---------------------------------------------------------------- what becomes of a job

  /** A job below both limits that can be prepared is sent, and holds one slot. */
  lemma PreparedJobIsSent(c: Config, s: State, item: Item) returns (steps: seq<Step>, t: State)
    requires Inv(c, s) && s.scheduler.Idle? && !s.closed
    requires s.slots < c.globalConcurrency && Count(s.reserved, item.agent) < c.perAgentConcurrency
    ensures steps == [SelectJob(item), Insert, AddSlot, Prepare(true), TrySend] && Reaches(c, s, steps, t) && Inv(c, t)
    ensures t == s.(slots := s.slots + 1, reserved := s.reserved[item.agent := Count(s.reserved, item.agent) + 1],
                    channel := s.channel + [item], sent := s.sent + [item])
  {
    steps, t := UpTo(c, s, item, true);
    steps, t := OneMore(c, s, steps, t, TrySend);
    ReachesInv(c, s, steps, t);
  }

  /** If the receiving side is gone, the slot is given back and nothing has changed. */
  lemma ClosedChannelLeavesNoTrace(c: Config, s: State, item: Item) returns (steps: seq<Step>)
    requires Inv(c, s) && s.scheduler.Idle? && s.closed
    requires s.slots < c.globalConcurrency && Count(s.reserved, item.agent) < c.perAgentConcurrency
    ensures steps == [SelectJob(item), Insert, AddSlot, Prepare(true), TrySend, SubSlot, Remove]
    ensures Reaches(c, s, steps, s)
  {
    var t;
    steps, t := UpTo(c, s, item, true);
    steps, t := OneMore(c, s, steps, t, TrySend);
    steps, t := OneMore(c, s, steps, t, SubSlot);
    steps, t := OneMore(c, s, steps, t, Remove);
    assert MapExact(c, s, item.agent);
    ReleaseUndoesReserve(s.reserved, item.agent);
  }

  /** A job above one of the limits changes nothing. */
  lemma BlockedJobLeavesNoTrace(c: Config, s: State, item: Item) returns (steps: seq<Step>)
    requires s.scheduler.Idle?
    requires s.slots >= c.globalConcurrency || Count(s.reserved, item.agent) >= c.perAgentConcurrency
    ensures steps == if s.slots >= c.globalConcurrency then [SelectJob(item)] else [SelectJob(item), Insert]
    ensures Reaches(c, s, steps, s)
  {
    var t;
    steps, t := OneMore(c, s, [], s, SelectJob(item));
    if s.slots < c.globalConcurrency {
      steps, t := OneMore(c, s, steps, t, Insert);
    }
  }

  /** A waiting worker takes the first queued item, and only that, to its end and gives back its slot. */
  lemma QueuedItemIsFinished(c: Config, s: State, w: nat) returns (steps: seq<Step>, t: State)
    requires Inv(c, s) && s.channel != [] && w < |s.workers| && s.workers[w].Waiting? && !s.scheduler.Inserted?
    ensures steps == [Receive(w), Finish(w), Return(w)] && Reaches(c, s, steps, t) && Inv(c, t)
    ensures t == s.(slots := s.slots - 1, reserved := Lower(s.reserved, s.channel[0].agent), channel := s.channel[1..],
                    finished := s.finished + multiset{s.channel[0]})
    ensures forall agent ::
              Count(t.reserved, agent) == Count(s.reserved, agent) - if agent == s.channel[0].agent then 1 else 0
  {
    steps, t := OneMore(c, s, [], s, Receive(w));
    steps, t := OneMore(c, s, steps, t, Finish(w));
    steps, t := OneMore(c, s, steps, t, Return(w));
    ReachesInv(c, s, steps, t);
    assert MapExact(c, s, s.channel[0].agent);
    assert t.workers == s.workers;
  }

  /** A job that is sent and run by a waiting worker on an empty channel leaves nothing but its history. */
  lemma JobRunsToItsEnd(c: Config, s: State, item: Item, w: nat) returns (steps: seq<Step>, t: State)
    requires Inv(c, s) && s.scheduler.Idle? && !s.closed && s.channel == []
    requires s.slots < c.globalConcurrency && Count(s.reserved, item.agent) < c.perAgentConcurrency
    requires w < |s.workers| && s.workers[w].Waiting?
    ensures Reaches(c, s, steps, t) && t == s.(sent := s.sent + [item], finished := s.finished + multiset{item})
  {
    var sent, finishing;
    steps, sent := PreparedJobIsSent(c, s, item);
    assert sent.channel[0] == item;
    finishing, t := QueuedItemIsFinished(c, sent, w);
    ReachesFurther(c, s, steps, sent, finishing, t);
    steps := steps + finishing;
    assert MapExact(c, s, item.agent);
    ReleaseUndoesReserve(s.reserved, item.agent);
  }

  /** The scheduler that has left its loop sends nothing more, whatever the others do. */
  lemma KilledSendsNothing(c: Config, s: State, a: Step)
    requires Enabled(c, s, a) && s.scheduler.Killed?
    ensures Next(c, s, a).scheduler.Killed? && Next(c, s, a).sent == s.sent
  {
  }

  /** The kill flag ends the service in order: what was sent is finished, and then every worker stops. */
  lemma ShutdownCompletes(c: Config, s: State) returns (steps: seq<Step>, end: State)
    requires Inv(c, s) && s.scheduler.Idle?
    ensures |steps| > 0 && steps[0] == Kill && Reaches(c, s, steps, end)
    ensures forall i :: 0 <= i < |end.workers| ==> end.workers[i].Stopped?
    ensures end.slots == 0 && end.reserved == map[] && end.sent == s.sent && multiset(end.sent) == end.finished
  {
    var killed := Next(c, s, Kill);
    StepInv(c, s, Kill);
    var draining, rest := Drain(c, killed);
    StaysKilled(c, killed, draining, rest);
    var quitting;
    quitting, end := AllQuit(c, rest, 0);
    steps := [Kill] + (draining + quitting);
    ReachesFurther(c, killed, draining, rest, quitting, end);
    assert steps[1..] == draining + quitting;
  }

  lemma {:induction false} StaysKilled(c: Config, s: State, steps: seq<Step>, t: State)
    requires Reaches(c, s, steps, t) && s.scheduler.Killed?
    ensures t.scheduler.Killed? && t.sent == s.sent
    decreases |steps|
  {
    if steps != [] {
      KilledSendsNothing(c, s, steps[0]);
      StaysKilled(c, Next(c, s, steps[0]), steps[1..], t);
    }
  }

  /** With nothing left to receive, the workers stop one after the other. */
  lemma {:induction false} AllQuit(c: Config, s: State, w: nat) returns (steps: seq<Step>, end: State)
    requires Quiescent(s) && s.scheduler.Killed? && w <= |s.workers|
    requires forall i :: 0 <= i < w ==> s.workers[i].Stopped?
    ensures Reaches(c, s, steps, end) && end == s.(workers := end.workers) && |end.workers| == |s.workers|
    ensures forall i :: 0 <= i < |end.workers| ==> end.workers[i].Stopped?
    decreases |s.workers| - w
  {
    if w == |s.workers| {
      return [], s;
    }
    if s.workers[w].Stopped? {
      steps, end := AllQuit(c, s, w + 1);
    } else {
      var more;
      more, end := AllQuit(c, Next(c, s, Quit(w)), w + 1);
      steps := [Quit(w)] + more;
      assert steps[1..] == more;
    }
  }

  /** Reserving a slot and preparing the dispatch. */
  lemma UpTo(c: Config, s: State, item: Item, ok: bool) returns (steps: seq<Step>, t: State)
    requires s.scheduler.Idle?
    requires s.slots < c.globalConcurrency && Count(s.reserved, item.agent) < c.perAgentConcurrency
    ensures steps == [SelectJob(item), Insert, AddSlot, Prepare(ok)] && Reaches(c, s, steps, t)
    ensures t == s.(slots := s.slots + 1, reserved := s.reserved[item.agent := Count(s.reserved, item.agent) + 1],
                    scheduler := if ok then Prepared(item) else Releasing(item))
  {
    steps, t := OneMore(c, s, [], s, SelectJob(item));
    steps, t := OneMore(c, s, steps, t, Insert);
    steps, t := OneMore(c, s, steps, t, AddSlot);
    steps, t := OneMore(c, s, steps, t, Prepare(ok));
  }

  lemma {:induction false} ReachesInv(c: Config, s: State, steps: seq<Step>, t: State)
    requires Inv(c, s) && Reaches(c, s, steps, t)
    ensures Inv(c, t)
    decreases |steps|
  {
    if steps != [] {
      StepInv(c, s, steps[0]);
      ReachesInv(c, Next(c, s, steps[0]), steps[1..], t);
    }
  }

  lemma {:induction false} ReachesFurther(c: Config, s: State, a: seq<Step>, t: State, b: seq<Step>, u: State)
    requires Reaches(c, s, a, t) && Reaches(c, t, b, u)
    ensures Reaches(c, s, a + b, u)
    decreases |a|
  {
    if a == [] {
      assert a + b == b;
    } else {
      ReachesFurther(c, Next(c, s, a[0]), a[1..], t, b, u);
      assert (a + b)[1..] == a[1..] + b;
    }
  }

  /** A slot that is reserved and released again leaves no trace in the map. */
  lemma ReleaseUndoesReserve(reserved: map<string, nat>, agent: string)
    requires agent in reserved ==> reserved[agent] >= 1
    ensures Lower(reserved[agent := Count(reserved, agent) + 1], agent) == reserved
  {
  }

  /** A job that is selected but cannot be prepared leaves the whole state as it was. */
  lemma FailedPreparationLeavesNoTrace(c: Config, s: State, item: Item) returns (steps: seq<Step>)
    requires Inv(c, s) && s.scheduler.Idle?
    requires s.slots < c.globalConcurrency && Count(s.reserved, item.agent) < c.perAgentConcurrency
    ensures steps == [SelectJob(item), Insert, AddSlot, Prepare(false), SubSlot, Remove] && Reaches(c, s, steps, s)
  {
    var t;
    steps, t := UpTo(c, s, item, false);
    steps, t := OneMore(c, s, steps, t, SubSlot);
    steps, t := OneMore(c, s, steps, t, Remove);
    assert MapExact(c, s, item.agent);
    ReleaseUndoesReserve(s.reserved, item.agent);
  }
}
