/**
The promise state machine of detail/coro.hpp with its consumers in detail/task.hpp and
task.hpp. Two sides race: the coroutine reaching final_suspend, and the one holder of the
task, who joins (co_await or wait) or detaches. Every load, store and compare-exchange is
one step, in sequentially consistent order; a weak compare-exchange may fail for no reason.
 */
module TaskLifecycle {

  datatype State = Idle | RunningJoinable | RunningDetached | RunningJoining | Zombie | Finished

  /** Where the coroutine side is, from its body to its last access. */
  datatype CoPc =
    | Body                      // not yet at final_suspend
    | CoLoaded(expected: State) // in the loop of FinalAwaiter::await_suspend
    | CoDestroying              // won against a detach: about to destroy the frame
    | CoReading                 // won against a join: about to read callback_
    | CoCalling                 // about to call the callback
    | CoDone

  /** Where the consumer is. */
  datatype UserPc =
    | Holding                       // owns the Task
    | Suspended                     // co_awaits the coroutine directly; never spawned
    | DetachLoaded(expected: State) // in the loop of request_detach
    | DetachDestroying
    | JoinLoaded(expected: State)   // in the loop of request_join, before choosing
    | JoinArmed(expected: State)    // has chosen and, if needed, stored callback_
    | Waiting                       // registered; blocked until the callback
    | Ready                         // about to read the result out of the frame
    | Collecting                    // about to destroy the frame
    | Gone

  datatype Side = Coroutine | Consumer

  /**
   `destroyed` and `called` count destructions of the frame and callback invocations.
   `first` lists the sides in the order in which their compare-exchanges succeeded; `joined`
   says that the consumer's was a join. `misuse` is raised by any
   access to a destroyed frame, `panicked` by any panic arm or failed assertion.
   */
  datatype Task = Task(
    state: State, co: CoPc, user: UserPc,
    callbackSet: bool, destroyed: nat, called: nat,
    first: seq<Side>, joined: bool, misuse: bool, panicked: bool)

  datatype Step =
    | CoFinish
    | CoExchange(ok: bool)
    | CoDestroy
    | CoReadCallback
    | CoCall
    | DetachLoad
    | DetachExchange(ok: bool)
    | DetachDestroy
    | JoinLoad
    | JoinArm
    | JoinExchange(ok: bool)
    | Collect
    | CollectDestroy

  function Spawned(): Task {
    Task(RunningJoinable, Body, Holding, false, 0, 0, [], false, false, false)
  }

  function Awaited(): Task {
    Task(Idle, Body, Suspended, false, 0, 0, [], false, false, false)
  }

  predicate Enabled(t: Task, s: Step) {
    match s
    case CoFinish => t.co == Body
    case CoExchange(_) => t.co.CoLoaded?
    case CoDestroy => t.co == CoDestroying
    case CoReadCallback => t.co == CoReading
    case CoCall => t.co == CoCalling
    case DetachLoad => t.user == Holding
    case DetachExchange(_) => t.user.DetachLoaded?
    case DetachDestroy => t.user == DetachDestroying
    case JoinLoad => t.user == Holding
    case JoinArm => t.user.JoinLoaded?
    case JoinExchange(_) => t.user.JoinArmed?
    case Collect => t.user == Ready
    case CollectDestroy => t.user == Collecting
  }

  /** An access to the coroutine frame. */
  function Touch(t: Task): Task {
    t.(misuse := t.misuse || t.destroyed > 0)
  }

  function Panic(t: Task): Task {
    t.(panicked := true)
  }

  /** FinalAwaiter::await_suspend: one turn of the loop and, when it wins, the choice of what to do next. */
  function CoExchanged(t: Task, ok: bool): Task
    requires t.co.CoLoaded?
  {
    var e := t.co.expected;
    if e == Idle then
      if t.user == Suspended then t.(co := CoDone, user := Ready) else Panic(t)
    else if e != RunningJoinable && e != RunningDetached && e != RunningJoining then
      Panic(t)
    else if ok && t.state == e then
      t.(state := if e == RunningJoinable then Zombie else Finished,
         co := if e == RunningDetached then CoDestroying else if e == RunningJoining then CoReading else CoDone,
         first := t.first + [Coroutine])
    else
      t.(co := CoLoaded(t.state))
  }

  function DetachExchanged(t: Task, ok: bool): Task
    requires t.user.DetachLoaded?
  {
    var e := t.user.expected;
    if e != RunningJoinable && e != Zombie then
      Panic(t)
    else if ok && t.state == e then
      t.(state := if e == RunningJoinable then RunningDetached else Finished,
         user := if e == RunningJoinable then Gone else DetachDestroying,
         first := t.first + [Consumer])
    else
      t.(user := DetachLoaded(t.state))
  }

  function JoinArmedFrom(t: Task): Task
    requires t.user.JoinLoaded?
  {
    var e := t.user.expected;
    if e == RunningJoinable then t.(user := JoinArmed(e), callbackSet := true)
    else if e == Zombie then t.(user := JoinArmed(e))
    else Panic(t)
  }

  function JoinExchanged(t: Task, ok: bool): Task
    requires t.user.JoinArmed?
  {
    var e := t.user.expected;
    if ok && t.state == e then
      t.(state := if e == RunningJoinable then RunningJoining else Finished,
         user := if e == RunningJoinable then Waiting else Ready,
         first := t.first + [Consumer], joined := true)
    else
      t.(user := JoinLoaded(t.state))
  }

  function Next(t: Task, s: Step): Task
    requires Enabled(t, s)
  {
    match s
    case CoFinish => Touch(t).(co := CoLoaded(t.state))
    case CoExchange(ok) => CoExchanged(Touch(t), ok)
    case CoDestroy => Touch(t).(destroyed := t.destroyed + 1, co := CoDone)
    case CoReadCallback => if t.callbackSet then Touch(t).(co := CoCalling) else Panic(t)
    case CoCall => if t.user == Waiting then t.(called := t.called + 1, co := CoDone, user := Ready) else Panic(t)
    case DetachLoad => Touch(t).(user := DetachLoaded(t.state))
    case DetachExchange(ok) => DetachExchanged(Touch(t), ok)
    case DetachDestroy => Touch(t).(destroyed := t.destroyed + 1, user := Gone)
    case JoinLoad => Touch(t).(user := JoinLoaded(t.state))
    case JoinArm => JoinArmedFrom(Touch(t))
    case JoinExchange(ok) => JoinExchanged(Touch(t), ok)
    case Collect => Touch(t).(user := Collecting)
    case CollectDestroy => Touch(t).(destroyed := t.destroyed + 1, user := Gone)
  }

  /** t' is reached from t by the given steps, each enabled in its turn. */
  predicate Runs(t: Task, steps: seq<Step>, t': Task)
    decreases |steps|
  {
    if steps == [] then t' == t
    else Enabled(t, steps[0]) && Runs(Next(t, steps[0]), steps[1..], t')
  }

  // ---- the invariant: which positions of the two sides can coexist ----

  predicate MayExpect(pc: UserPc, allowed: set<State>) {
    || pc == Holding
    || (pc.DetachLoaded? && pc.expected in allowed)
    || (pc.JoinLoaded? && pc.expected in allowed)
    || (pc.JoinArmed? && pc.expected in allowed)
  }

  predicate CoMayExpect(pc: CoPc, allowed: set<State>) {
    pc == Body || (pc.CoLoaded? && pc.expected in allowed)
  }

  /** The consumer is past waiting and either has yet to destroy the frame or has done so. */
  predicate Consuming(t: Task) {
    && t.user in {DetachDestroying, Ready, Collecting, Gone}
    && t.destroyed == (if t.user == Gone then 1 else 0)
  }

  /** The callback has been or will be called: the consumer joined before the coroutine completed. */
  predicate Registered(t: Task) {
    t.joined && t.first != [] && t.first[0] == Consumer
  }

  predicate Inv(t: Task) {
    && !t.misuse && !t.panicked
    && match t.state
       case Idle =>
         && t.first == [] && t.called == 0 && !t.joined
         && (CoMayExpect(t.co, {Idle}) ==> t.user == Suspended && t.destroyed == 0)
         && (t.co == CoDone ==> Consuming(t))
         && (CoMayExpect(t.co, {Idle}) || t.co == CoDone)
       case RunningJoinable =>
         && t.first == [] && t.called == 0 && t.destroyed == 0 && !t.joined
         && CoMayExpect(t.co, {RunningJoinable}) && MayExpect(t.user, {RunningJoinable})
         && (t.user == JoinArmed(RunningJoinable) ==> t.callbackSet)
       case RunningDetached =>
         && t.first == [Consumer] && t.called == 0 && t.destroyed == 0 && !t.joined
         && CoMayExpect(t.co, {RunningJoinable, RunningDetached}) && t.user == Gone
       case RunningJoining =>
         && t.first == [Consumer] && t.called == 0 && t.destroyed == 0 && t.joined
         && CoMayExpect(t.co, {RunningJoinable, RunningJoining}) && t.user == Waiting && t.callbackSet
       case Zombie =>
         && t.first == [Coroutine] && t.called == 0 && t.destroyed == 0 && !t.joined
         && t.co == CoDone && MayExpect(t.user, {RunningJoinable, Zombie})
       case Finished =>
         || (&& t.first == [Coroutine, Consumer] && t.called == 0 && t.co == CoDone && Consuming(t))
         || (&& t.first == [Consumer, Coroutine] && t.called == 0 && t.user == Gone && !t.joined
             && t.co in {CoDestroying, CoDone} && t.destroyed == (if t.co == CoDone then 1 else 0))
         || (&& t.first == [Consumer, Coroutine] && t.called == 0 && t.destroyed == 0 && t.joined
             && t.user == Waiting && t.callbackSet && t.co in {CoReading, CoCalling})
         || (&& t.first == [Consumer, Coroutine] && t.called == 1 && t.joined && t.co == CoDone && Consuming(t))
  }

  lemma StepKeepsInv(t: Task, s: Step)
    requires Inv(t) && Enabled(t, s)
    ensures Inv(Next(t, s))
  {
  }

  // ---- every run ----

  lemma {:induction false} RunKeepsInv(t: Task, steps: seq<Step>, t': Task)
    requires Inv(t) && Runs(t, steps, t')
    ensures Inv(t')
    decreases |steps|
  {
    if steps != [] {
      StepKeepsInv(t, steps[0]);
      RunKeepsInv(Next(t, steps[0]), steps[1..], t');
    }
  }

  /**
   Safety over every interleaving: no access to a destroyed frame, no panic arm, at most one
   destruction and only after final_suspend is over, and the callback called at most once and
   only for a join that came before completion.
   */
  lemma {:induction false} EveryRunIsSafe(t: Task, steps: seq<Step>, t': Task)
    requires t == Spawned() || t == Awaited()
    requires Runs(t, steps, t')
    ensures !t'.misuse && !t'.panicked
    ensures t'.destroyed <= 1 && (t'.destroyed == 1 ==> t'.co == CoDone && t'.user == Gone)
    ensures t'.called <= 1 && (t'.called == 1 ==> Registered(t'))
  {
    RunKeepsInv(t, steps, t');
  }

  /** A compare-exchange whose flag makes it fail, whether or not the state would have. One that fails
      because the state has changed does so under either flag, and need not be counted here. */
  predicate Spurious(t: Task, s: Step) {
    (s.CoExchange? || s.DetachExchange? || s.JoinExchange?) && !s.ok
  }

  ghost predicate Quiescent(t: Task) {
    forall s: Step :: !Enabled(t, s)
  }

  /** When neither side has anything left to do, nothing is leaked and the joiner has been woken. */
  lemma QuiescentIsFinished(t: Task)
    requires Inv(t) && Quiescent(t)
    ensures t.destroyed == 1 && t.co == CoDone && t.user == Gone
    ensures t.called == if Registered(t) then 1 else 0
  {
    assert !Enabled(t, CoFinish) && !Enabled(t, CoExchange(true)) && !Enabled(t, CoDestroy);
    assert !Enabled(t, CoReadCallback) && !Enabled(t, CoCall);
    assert !Enabled(t, DetachLoad) && !Enabled(t, DetachExchange(true)) && !Enabled(t, DetachDestroy);
    assert !Enabled(t, JoinArm) && !Enabled(t, JoinExchange(true));
    assert !Enabled(t, Collect) && !Enabled(t, CollectDestroy);
  }

  function CoRank(t: Task): nat {
    match t.co
    case Body => 6
    case CoLoaded(e) => if e == t.state then 4 else 5
    case CoDestroying => 1
    case CoReading => 2
    case CoCalling => 1
    case CoDone => 0
  }

  function UserRank(t: Task): nat {
    match t.user
    case Holding => 8
    case Suspended => 8
    case DetachLoaded(e) => if e == t.state then 4 else 5
    case DetachDestroying => 1
    case JoinLoaded(e) => if e == t.state then 5 else 7
    case JoinArmed(e) => if e == t.state then 4 else 6
    case Waiting => 3
    case Ready => 2
    case Collecting => 1
    case Gone => 0
  }

  /** What is left to do, counting two exchanges and the retries each can cause. */
  function Work(t: Task): nat {
    10 * (if |t.first| < 2 then 2 - |t.first| else 0) + CoRank(t) + UserRank(t)
  }

  lemma StepMakesProgress(t: Task, s: Step)
    requires Inv(t) && Enabled(t, s) && !Spurious(t, s)
    ensures Work(Next(t, s)) < Work(t)
  {
    match s
    case CoExchange(_) => assert t.first == [] || t.first == [Consumer];
    case DetachExchange(_) => assert t.first == [] || t.first == [Coroutine];
    case JoinExchange(_) => assert t.first == [] || t.first == [Coroutine];
    case _ =>
  }

  predicate NoSpurious(t: Task, steps: seq<Step>)
    decreases |steps|
  {
    steps != [] ==> Enabled(t, steps[0]) && !Spurious(t, steps[0]) && NoSpurious(Next(t, steps[0]), steps[1..])
  }

  lemma {:induction false} RunMakesProgress(t: Task, steps: seq<Step>, t': Task)
    requires Inv(t) && Runs(t, steps, t') && NoSpurious(t, steps)
    ensures |steps| + Work(t') <= Work(t)
    decreases |steps|
  {
    if steps != [] {
      StepKeepsInv(t, steps[0]);
      StepMakesProgress(t, steps[0]);
      RunMakesProgress(Next(t, steps[0]), steps[1..], t');
    }
  }

  /**
   Completion: without spurious failures no run exceeds 34 steps, and a run that cannot be
   extended has destroyed the frame exactly once and has called the callback exactly once if
   a join was registered before completion, else not at all.
   */
  lemma {:induction false} EveryRunEnds(t: Task, steps: seq<Step>, t': Task)
    requires t == Spawned() || t == Awaited()
    requires Runs(t, steps, t') && NoSpurious(t, steps)
    ensures |steps| <= 34
    ensures Quiescent(t') ==> t'.destroyed == 1 && t'.called == (if Registered(t') then 1 else 0)
  {
    RunKeepsInv(t, steps, t');
    RunMakesProgress(t, steps, t');
    if Quiescent(t') { QuiescentIsFinished(t'); }
  }
}
