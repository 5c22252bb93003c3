/** Stopping a turn while its process starts (src/agent/process.rs,
    src/agent/mod.rs, src/daemon/agent.rs): every interleaving of the runtime,
    the thread that spawns a turn's process and the turn's task, over any
    number of turns of one agent, which share one registry entry. */
module ProcessHandshake {
  import opened Basics

  /** The thread that spawns the process, registers it, checks for a stop in
      one step with the runtime's mark, hands over the pipes, then stops the
      process itself or writes the prompt. */
  datatype Thread =
    | NotStarted
    | Spawned
    | Registered
    | Checked(saw: bool)
    | Handed(saw: bool, unread: bool)
    | Acted(wrote: bool)

  /** The turn's task: waiting for the pipes, or holding them with the guard
      that stops the process when dropped. */
  datatype Task = NotBegun | Awaiting | Holding | Dropped(received: bool)

  /** The task's wait for the last turn's process, before it spawns its own. */
  datatype Wait = NotLooked | Stopping(process: nat) | Clear

  /** What the runtime's stop found in the registry. */
  datatype Lookup = NotYet | Looked(found: Option<nat>)

  datatype Turn = Turn(
    thread: Thread,
    task: Task,
    wait: Wait,
    marked: bool,
    aborted: bool,
    lookup: Lookup,
    exited: bool,
    stopStarted: bool,
    /** The earlier turn whose late entry took its place in the registry. */
    displacedBy: Option<nat>)

  datatype State = State(turns: seq<Turn>, registry: Option<nat>)

  datatype Action =
    | Begin | WaitPrevious | PreviousGone | Receive | DropTask
    | Spawn | Register | Check | HandOver | Act | Exit
    | Mark | Abort | LookUp
    | Unregister

  datatype Step = Step(turn: nat, action: Action)

  const TO_COME := Turn(NotStarted, NotBegun, NotLooked, false, false, NotYet, false, false, None)

  function Initial(n: nat): State {
    State(seq(n, _ => TO_COME), None)
  }

  function Put(s: State, i: nat, t: Turn): State
    requires i < |s.turns|
  {
    s.(turns := s.turns[i := t])
  }

  /** Someone starts stopping the registered process. */
  function StopFound(s: State): State {
    if s.registry.Some? && s.registry.value < |s.turns| then
      Put(s, s.registry.value, s.turns[s.registry.value].(stopStarted := true))
    else s
  }

  /** The entry is removed, unless another process replaced it. */
  function Removed(s: State, i: nat): State {
    if s.registry == Some(i) then s.(registry := None) else s
  }

  /** The entry in the registry, when it is a later turn's, is displaced. */
  function Displaced(s: State, j: nat): State {
    if s.registry.Some? && j < s.registry.value < |s.turns| then
      Put(s, s.registry.value, s.turns[s.registry.value].(displacedBy := Some(j)))
    else s
  }

  /** A turn is over for the runtime: it was marked stopped and aborted, or its
      task ended. */
  predicate Over(t: Turn) {
    (t.marked && t.aborted) || t.task.Dropped?
  }

  /** One step; one that is not enabled changes nothing. */
  function Next(s: State, step: Step): State {
    var i := step.turn;
    if i >= |s.turns| then s
    else
      var t := s.turns[i];
      match step.action
      // The runtime starts a turn once the one before is over.
      case Begin =>
        if t.task.NotBegun? && (i == 0 || Over(s.turns[i - 1])) then Put(s, i, t.(task := Awaiting)) else s
      // The task: stop what is registered, wait until that is gone.
      case WaitPrevious =>
        if !t.task.Awaiting? || !t.wait.NotLooked? then s
        else if s.registry == None then Put(s, i, t.(wait := Clear))
        else StopFound(Put(s, i, t.(wait := Stopping(s.registry.value))))
      case PreviousGone =>
        if t.task.Awaiting? && t.wait.Stopping? then Removed(Put(s, i, t.(wait := Clear)), t.wait.process) else s
      // It takes the pipes, and is dropped when it ends or is aborted.
      case Receive =>
        if t.task.Awaiting? && (t.thread.Handed? || t.thread.Acted?) then Put(s, i, t.(task := Holding)) else s
      case DropTask =>
        if t.task.Awaiting? && (t.aborted || t.thread.NotStarted?) then Put(s, i, t.(task := Dropped(false)))
        else if t.task.Holding? && t.exited then Removed(Put(s, i, t.(task := Dropped(true))), i)
        else if t.task.Holding? then Put(s, i, t.(task := Dropped(true), stopStarted := true))
        else s
      // The thread.
      case Spawn =>
        if t.thread.NotStarted? && t.task.Awaiting? && t.wait.Clear? then Put(s, i, t.(thread := Spawned)) else s
      case Register =>
        if t.thread.Spawned? then Put(Displaced(s, i), i, t.(thread := Registered)).(registry := Some(i)) else s
      case Check => if t.thread.Registered? then Put(s, i, t.(thread := Checked(t.marked))) else s
      case HandOver =>
        if t.thread.Checked? then Put(s, i, t.(thread := Handed(t.thread.saw, t.task.Dropped?))) else s
      case Act =>
        if !t.thread.Handed? then s
        else if t.thread.saw || t.thread.unread then Put(s, i, t.(thread := Acted(false), stopStarted := true))
        else Put(s, i, t.(thread := Acted(true)))
      // The process.
      case Exit => if t.thread.NotStarted? then s else Put(s, i, t.(exited := true))
      // The runtime: mark, abort, look the process up and stop it.
      case Mark => if t.task.NotBegun? then s else Put(s, i, t.(marked := true))
      case Abort => if t.marked then Put(s, i, t.(aborted := true)) else s
      case LookUp =>
        if t.aborted && t.lookup.NotYet? then StopFound(Put(s, i, t.(lookup := Looked(s.registry)))) else s
      // A stop that was started came to its end.
      case Unregister => if t.stopStarted then Removed(s, i) else s
  }

  function Run(s: State, steps: seq<Step>): State
    decreases |steps|
  {
    if steps == [] then s else Run(Next(s, steps[0]), steps[1..])
  }

  // ----- The invariant -----

  predicate IsRegistered(t: Turn) {
    !t.thread.NotStarted? && !t.thread.Spawned?
  }

  predicate SawStop(t: Turn) {
    (t.thread.Checked? || t.thread.Handed?) && t.thread.saw
  }

  /** Its thread checked and saw no stop. */
  predicate PastCheck(t: Turn) {
    IsRegistered(t) && !t.thread.Registered? && !SawStop(t)
  }

  /** Its process needs no more stopping: it exited or is being stopped. */
  predicate Handled(t: Turn) {
    t.exited || t.stopStarted
  }

  /** Its process is handled, or will be without its prompt, or there will be
      none; or an earlier turn's late entry displaced it. */
  predicate Doomed(t: Turn) {
    Handled(t) || t.displacedBy.Some? || (t.marked && !PastCheck(t)) || (t.thread.NotStarted? && t.task.Dropped?)
  }

  ghost predicate TurnOk(s: State, i: nat)
    requires i < |s.turns|
  {
    var t := s.turns[i];
    && (s.registry == Some(i) ==> IsRegistered(t))
    && (IsRegistered(t) ==> s.registry == Some(i) || Doomed(t))
    && (t.stopStarted ==> IsRegistered(t))
    && (t.exited ==> !t.thread.NotStarted?)
    && (t.displacedBy.Some? ==> IsRegistered(t) && t.displacedBy.value < i)
    && (t.lookup.Looked? ==> t.aborted)
    && (t.aborted ==> t.marked)
    && (t.lookup == Looked(Some(i)) ==> t.stopStarted)
    // Past a check that saw no stop, a lookup that missed it found it gone or displaced.
    && (PastCheck(t) && t.lookup.Looked? && t.lookup.found != Some(i) ==> Handled(t) || t.displacedBy.Some?)
    && (t.thread == Acted(false) ==> t.stopStarted)
    && (t.task == Dropped(true) ==> Handled(t))
    && (t.task == Dropped(false) ==> t.marked || t.thread.NotStarted?)
    && (t.task.Holding? ==> t.thread.Handed? || t.thread.Acted?)
    && (t.task.NotBegun? ==> t.wait.NotLooked? && !t.marked)
    && (!t.wait.Clear? ==> t.thread.NotStarted?)
    && (t.wait.Stopping? ==> t.wait.process < |s.turns| && s.turns[t.wait.process].stopStarted)
  }

  /** A turn begins when the earlier ones are over, and once it has looked at
      the registry, they are doomed. */
  predicate PairOk(earlier: Turn, later: Turn) {
    (!later.task.NotBegun? ==> Over(earlier)) && (!later.wait.NotLooked? ==> Doomed(earlier))
  }

  ghost predicate Inv(s: State) {
    && (s.registry.Some? ==> s.registry.value < |s.turns|)
    && (forall i :: 0 <= i < |s.turns| ==> TurnOk(s, i))
    && (forall i, j :: 0 <= i < j < |s.turns| ==> PairOk(s.turns[i], s.turns[j]))
  }

  /** What a turn can lose no more. */
  predicate Keeps(t: Turn, t': Turn) {
    && (Over(t) ==> Over(t')) && (Doomed(t) ==> Doomed(t')) && (t.stopStarted ==> t'.stopStarted)
    && (!t.task.NotBegun? ==> !t'.task.NotBegun?)
  }

  /** A step that touches one turn and leaves the registry alone; it neither
      begins nor looks at the registry. */
  lemma PutKeepsInv(s: State, i: nat, t: Turn)
    requires Inv(s) && i < |s.turns| && TurnOk(Put(s, i, t), i) && Keeps(s.turns[i], t)
    requires t.task.NotBegun? == s.turns[i].task.NotBegun? && t.wait.NotLooked? == s.turns[i].wait.NotLooked?
    ensures Inv(Put(s, i, t))
  {
    hide Doomed, Over;
    var s' := Put(s, i, t);
    forall k | 0 <= k < |s'.turns|
      ensures TurnOk(s', k)
    {
      assert TurnOk(s, k);
    }
    forall a, b | 0 <= a < b < |s'.turns|
      ensures PairOk(s'.turns[a], s'.turns[b])
    {
      assert PairOk(s.turns[a], s.turns[b]);
    }
  }

  lemma StopFoundKeepsInv(s: State)
    requires Inv(s)
    ensures Inv(StopFound(s))
  {
    if s.registry.Some? {
      var j := s.registry.value;
      assert TurnOk(s, j);
      PutKeepsInv(s, j, s.turns[j].(stopStarted := true));
    }
  }

  lemma RemovedKeepsInv(s: State, i: nat)
    requires Inv(s) && i < |s.turns| && Handled(s.turns[i])
    ensures Inv(Removed(s, i))
  {
    var s' := Removed(s, i);
    forall k | 0 <= k < |s'.turns|
      ensures TurnOk(s', k)
    {
      assert TurnOk(s, k);
    }
  }

  lemma BeginKeepsInv(s: State, i: nat)
    requires Inv(s) && i < |s.turns| && s.turns[i].task.NotBegun? && (i == 0 || Over(s.turns[i - 1]))
    ensures Inv(Put(s, i, s.turns[i].(task := Awaiting)))
  {
    var s' := Put(s, i, s.turns[i].(task := Awaiting));
    assert TurnOk(s, i);
    forall k | 0 <= k < |s'.turns|
      ensures TurnOk(s', k)
    {
      assert TurnOk(s, k);
    }
    forall a, b | 0 <= a < b < |s'.turns|
      ensures PairOk(s'.turns[a], s'.turns[b])
    {
      assert PairOk(s.turns[a], s.turns[b]);
      if b == i && a < i - 1 {
        // The turn before has begun, so those before it are over.
        assert TurnOk(s, i - 1) && PairOk(s.turns[a], s.turns[i - 1]);
      }
    }
  }

  /** Looking at the registry: what is found is being stopped, so every earlier
      turn is doomed. */
  lemma WaitPreviousKeepsInv(s: State, i: nat)
    requires Inv(s) && i < |s.turns| && s.turns[i].task.Awaiting? && s.turns[i].wait.NotLooked?
    ensures Inv(Next(s, Step(i, WaitPrevious)))
  {
    hide StopFound;
    var wait := if s.registry == None then Clear else Stopping(s.registry.value);
    StopFoundKeepsInv(s);
    var s1 := StopFound(s);
    StopFoundMeans(s);
    assert TurnOk(s, i) && TurnOk(s1, i);
    var s' := Put(s1, i, s1.turns[i].(wait := wait));
    FoundCommutes(s, i, wait);
    forall k | 0 <= k < |s'.turns|
      ensures TurnOk(s', k)
    {
      assert TurnOk(s1, k);
    }
    forall a, b | 0 <= a < b < |s'.turns|
      ensures PairOk(s'.turns[a], s'.turns[b])
    {
      assert PairOk(s1.turns[a], s1.turns[b]);
      if b == i {
        assert TurnOk(s, a);
        assert PairOk(s.turns[a], s.turns[i]);
      }
    }
  }

  lemma StopFoundMeans(s: State)
    requires s.registry.Some? ==> s.registry.value < |s.turns|
    ensures StopFound(s).registry == s.registry && |StopFound(s).turns| == |s.turns|
    ensures s.registry == None ==> StopFound(s) == s
    ensures forall k :: 0 <= k < |s.turns| ==>
              StopFound(s).turns[k] == if s.registry == Some(k) then s.turns[k].(stopStarted := true) else s.turns[k]
  {
  }

  lemma FoundCommutes(s: State, i: nat, wait: Wait)
    requires Inv(s) && i < |s.turns| && s.registry != Some(i)
    ensures StopFound(Put(s, i, s.turns[i].(wait := wait)))
         == Put(StopFound(s), i, StopFound(s).turns[i].(wait := wait))
  {
    var p := Put(s, i, s.turns[i].(wait := wait));
    assert StopFound(p).turns == Put(StopFound(s), i, StopFound(s).turns[i].(wait := wait)).turns;
  }

  lemma RegisterKeepsInv(s: State, i: nat)
    requires Inv(s) && i < |s.turns| && s.turns[i].thread.Spawned?
    ensures Inv(Next(s, Step(i, Register)))
  {
    hide StopFound, Removed;
    var s' := Next(s, Step(i, Register));
    assert TurnOk(s, i);
    forall k | 0 <= k < |s'.turns|
      ensures TurnOk(s', k)
    {
      assert TurnOk(s, k);
      if s.registry == Some(k) && k < i {
        assert PairOk(s.turns[k], s.turns[i]);
      }
    }
    forall a, b | 0 <= a < b < |s'.turns|
      ensures PairOk(s'.turns[a], s'.turns[b])
    {
      assert PairOk(s.turns[a], s.turns[b]);
    }
  }

  lemma LookUpKeepsInv(s: State, i: nat)
    requires Inv(s) && i < |s.turns| && s.turns[i].aborted && s.turns[i].lookup.NotYet?
    ensures Inv(Next(s, Step(i, LookUp)))
  {
    var t := s.turns[i];
    assert TurnOk(s, i);
    if s.registry == Some(i) {
      var found := t.(lookup := Looked(Some(i)), stopStarted := true);
      PutKeepsInv(s, i, found);
      assert Next(s, Step(i, LookUp)) == Put(s, i, found);
    } else {
      PutKeepsInv(s, i, t.(lookup := Looked(s.registry)));
      StopFoundKeepsInv(Put(s, i, t.(lookup := Looked(s.registry))));
    }
  }

  lemma TaskKeepsInv(s: State, i: nat)
    requires Inv(s) && i < |s.turns|
    ensures Inv(Next(s, Step(i, DropTask))) && Inv(Next(s, Step(i, PreviousGone)))
  {
    var t := s.turns[i];
    assert TurnOk(s, i);
    if t.task.Awaiting? && (t.aborted || t.thread.NotStarted?) {
      PutKeepsInv(s, i, t.(task := Dropped(false)));
    } else if t.task.Holding? && t.exited {
      PutKeepsInv(s, i, t.(task := Dropped(true)));
      RemovedKeepsInv(Put(s, i, t.(task := Dropped(true))), i);
    } else if t.task.Holding? {
      PutKeepsInv(s, i, t.(task := Dropped(true), stopStarted := true));
    }
    if t.task.Awaiting? && t.wait.Stopping? {
      PutKeepsInv(s, i, t.(wait := Clear));
      RemovedKeepsInv(Put(s, i, t.(wait := Clear)), t.wait.process);
    }
  }

  /** The steps that touch only their own turn. */
  lemma OwnStepKeepsInv(s: State, step: Step)
    requires Inv(s) && step.turn < |s.turns|
    requires step.action in {Spawn, Check, HandOver, Act, Exit, Receive, Mark, Abort}
    ensures Inv(Next(s, step))
  {
    hide StopFound, Removed, Displaced;
    var i, s' := step.turn, Next(s, step);
    assert TurnOk(s, i);
    var t := s'.turns[i];
    assert s' == s || s' == Put(s, i, t);
    if s' != s {
      assert TurnOk(s', i);
      PutKeepsInv(s, i, t);
    }
  }

  lemma NextKeepsInv(s: State, step: Step)
    requires Inv(s)
    ensures Inv(Next(s, step)) && |Next(s, step).turns| == |s.turns|
  {
    var i := step.turn;
    if i < |s.turns| {
      var t := s.turns[i];
      hide TurnOk, PairOk;
      match step.action {
        case Begin => if t.task.NotBegun? && (i == 0 || Over(s.turns[i - 1])) { BeginKeepsInv(s, i); }
        case WaitPrevious => if t.task.Awaiting? && t.wait.NotLooked? { WaitPreviousKeepsInv(s, i); }
        case Register => if t.thread.Spawned? { RegisterKeepsInv(s, i); }
        case LookUp => if t.aborted && t.lookup.NotYet? { LookUpKeepsInv(s, i); }
        case DropTask => TaskKeepsInv(s, i);
        case PreviousGone => TaskKeepsInv(s, i);
        case Unregister => if t.stopStarted { RemovedKeepsInv(s, i); }
        case _ => OwnStepKeepsInv(s, step);
      }
    }
  }

  lemma {:induction false} RunKeepsInv(s: State, steps: seq<Step>)
    requires Inv(s)
    ensures Inv(Run(s, steps)) && |Run(s, steps).turns| == |s.turns|
    decreases |steps|
  {
    hide Inv, Next;
    if steps != [] {
      NextKeepsInv(s, steps[0]);
      RunKeepsInv(Next(s, steps[0]), steps[1..]);
    }
  }

  lemma InitialIsInv(n: nat)
    ensures Inv(Initial(n))
  {
  }

  // ----- What every interleaving keeps -----

  /** The launch of turn `i` and its stop are both over: the runtime looked its
      process up, or a later turn waited for what was registered. */
  predicate Settled(s: State, i: nat)
    requires i < |s.turns|
  {
    var t := s.turns[i];
    && t.thread.Acted? && t.task.Dropped?
    && (t.lookup.Looked? || exists k :: i < k < |s.turns| && !s.turns[k].wait.NotLooked?)
  }

  lemma SettledIsHandled(s: State, i: nat)
    requires Inv(s) && i < |s.turns| && Settled(s, i)
    ensures var t := s.turns[i];
            Handled(t) || (t.displacedBy.Some? && t.displacedBy.value < i && t.task == Dropped(false) && t.thread == Acted(true))
  {
    assert TurnOk(s, i);
    if k :| i < k < |s.turns| && !s.turns[k].wait.NotLooked? {
      assert PairOk(s.turns[i], s.turns[k]);
    }
  }

  /** In every interleaving, once a turn's stop and its launch are over, its
      process has exited or is being stopped, except when an earlier turn's
      process was registered after it and its task, there when the pipes were
      handed over, never took them. */
  lemma StoppedTurnsAreHandled(n: nat, steps: seq<Step>, i: nat)
    requires i < n
    ensures var s := Run(Initial(n), steps);
            && |s.turns| == n
            && (Settled(s, i) ==>
                  || Handled(s.turns[i])
                  || (s.turns[i].task == Dropped(false)
                      && (exists j, p :: 0 <= j < i && RegistersOver(n, steps, j, i, p))
                      && exists q, r :: Launched(n, steps, i, q, r, true)))
  {
    InitialIsInv(n);
    RunKeepsInv(Initial(n), steps);
    var s := Run(Initial(n), steps);
    if Settled(s, i) {
      SettledIsHandled(s, i);
      if !Handled(s.turns[i]) {
        DisplacedMeans(n, steps, i, s.turns[i].displacedBy.value);
        PromptExactlyWhen(n, steps, i);
      }
    }
  }

  // ----- Which prompts are written -----

  /** Step `q` is turn `i`'s check for a stop, where its turn is marked or not. */
  ghost predicate ChecksAt(n: nat, steps: seq<Step>, i: nat, q: int, saw: bool) {
    && 0 <= q < |steps| && steps[q] == Step(i, Check)
    && var s := Run(Initial(n), steps[..q]);
       i < |s.turns| && s.turns[i].thread == Registered && s.turns[i].marked == saw
  }

  /** Step `r` hands the pipes of turn `i` to its task, which is there or was
      dropped. */
  ghost predicate HandsAt(n: nat, steps: seq<Step>, i: nat, r: int, saw: bool, unread: bool) {
    && 0 <= r < |steps| && steps[r] == Step(i, HandOver)
    && var s := Run(Initial(n), steps[..r]);
       i < |s.turns| && s.turns[i].thread == Checked(saw) && s.turns[i].task.Dropped? == unread
  }

  /** Turn `i`'s thread checked at `q` and handed over at `r`; its prompt was to
      be written exactly when the turn was not marked at the one and its task
      not dropped at the other. */
  ghost predicate Launched(n: nat, steps: seq<Step>, i: nat, q: int, r: int, wrote: bool) {
    exists saw, unread :: ChecksAt(n, steps, i, q, saw) && HandsAt(n, steps, i, r, saw, unread) && wrote == (!saw && !unread)
  }

  /** In every interleaving, a prompt is written exactly when the turn had not
      been stopped at its check and its task was there at the hand-over. */
  lemma PromptExactlyWhen(n: nat, steps: seq<Step>, i: nat)
    requires i < n
    ensures var s := Run(Initial(n), steps);
            && |s.turns| == n
            && (s.turns[i].thread.Acted? ==> exists q, r :: Launched(n, steps, i, q, r, s.turns[i].thread.wrote))
  {
    hide Next;
    InitialIsInv(n);
    RunKeepsInv(Initial(n), steps);
    var t := Run(Initial(n), steps).turns[i];
    if t.thread.Acted? {
      var r, saw, unread := HandedOver(n, steps, i);
      var q := CheckedFirst(n, steps[..r], i);
      assert steps[..r][..q] == steps[..q];
      assert ChecksAt(n, steps, i, q, saw);
      assert Launched(n, steps, i, q, r, t.thread.wrote);
    }
  }

  /** What moves a turn's thread on, and what it learns then. */
  lemma ThreadMoves(s: State, step: Step, i: nat)
    requires i < |s.turns| && |Next(s, step).turns| == |s.turns| && (s.registry.Some? ==> s.registry.value < |s.turns|)
    requires Next(s, step).turns[i].thread != s.turns[i].thread
    ensures step.turn == i
    ensures var t := s.turns[i];
            match Next(s, step).turns[i].thread
            case Checked(saw) => step.action == Check && t.thread == Registered && saw == t.marked
            case Handed(saw, unread) => step.action == HandOver && t.thread == Checked(saw) && unread == t.task.Dropped?
            case Acted(wrote) => t.thread.Handed? && wrote == (!t.thread.saw && !t.thread.unread)
            case _ => true
  {
    hide Next;
    if step.turn != i {
      TouchesOther(s, step, i);
    } else {
      OwnThreadMoves(s, step);
    }
  }

  lemma OwnThreadMoves(s: State, step: Step)
    requires step.turn < |s.turns| && (s.registry.Some? ==> s.registry.value < |s.turns|)
    ensures |Next(s, step).turns| == |s.turns|
    ensures var t, t' := s.turns[step.turn], Next(s, step).turns[step.turn];
            t'.thread != t.thread ==>
              match t'.thread
              case Checked(saw) => step.action == Check && t.thread == Registered && saw == t.marked
              case Handed(saw, unread) => step.action == HandOver && t.thread == Checked(saw) && unread == t.task.Dropped?
              case Acted(wrote) => t.thread.Handed? && wrote == (!t.thread.saw && !t.thread.unread)
              case _ => true
  {
    hide StopFound, Removed, Displaced, Over;
    var i := step.turn;
    var t := s.turns[i];
    match step.action {
      case WaitPrevious =>
        if s.registry.Some? {
          StopFoundMeans(Put(s, i, t.(wait := Stopping(s.registry.value))));
        }
      case LookUp => StopFoundMeans(Put(s, i, t.(lookup := Looked(s.registry))));
      case Register => DisplacedOnly(s, i);
      case PreviousGone =>
        if t.wait.Stopping? {
          RemovedSame(Put(s, i, t.(wait := Clear)), t.wait.process);
        }
      case DropTask => RemovedSame(Put(s, i, t.(task := Dropped(true))), i);
      case Unregister => RemovedSame(s, i);
      case _ =>
    }
  }

  lemma {:induction false} HandedOver(n: nat, steps: seq<Step>, i: nat) returns (r: int, saw: bool, unread: bool)
    requires i < |Run(Initial(n), steps).turns| == n
    requires Run(Initial(n), steps).turns[i].thread.Handed? || Run(Initial(n), steps).turns[i].thread.Acted?
    ensures HandsAt(n, steps, i, r, saw, unread)
    ensures match Run(Initial(n), steps).turns[i].thread
            case Handed(s, u) => saw == s && unread == u
            case Acted(wrote) => wrote == (!saw && !unread)
            case _ => true
    decreases |steps|
  {
    hide Next;
    if steps == [] {
      return 0, false, false;
    }
    var m := |steps| - 1;
    var s, t := LastStep(n, steps, i);
    if t.thread.Checked? {
      ThreadMoves(s, steps[m], i);
      return m, t.thread.saw, t.task.Dropped?;
    }
    if t.thread != Run(Initial(n), steps).turns[i].thread {
      ThreadMoves(s, steps[m], i);
    }
    r, saw, unread := HandedOver(n, steps[..m], i);
    assert steps[..m][..r] == steps[..r];
  }

  lemma {:induction false} CheckedFirst(n: nat, steps: seq<Step>, i: nat) returns (q: int)
    requires i < |Run(Initial(n), steps).turns| == n && Run(Initial(n), steps).turns[i].thread.Checked?
    ensures ChecksAt(n, steps, i, q, Run(Initial(n), steps).turns[i].thread.saw)
    decreases |steps|
  {
    hide Next;
    if steps == [] {
      return 0;
    }
    var m := |steps| - 1;
    var s, t := LastStep(n, steps, i);
    if t.thread != Run(Initial(n), steps).turns[i].thread {
      ThreadMoves(s, steps[m], i);
      return m;
    }
    q := CheckedFirst(n, steps[..m], i);
    assert steps[..m][..q] == steps[..q];
  }

  /** The state and the turn before the last step. */
  lemma LastStep(n: nat, steps: seq<Step>, i: nat) returns (s: State, t: Turn)
    requires steps != [] && i < |Run(Initial(n), steps).turns| == n
    ensures s == Run(Initial(n), steps[..|steps| - 1]) && Inv(s) && |s.turns| == n && t == s.turns[i]
    ensures Run(Initial(n), steps) == Next(s, steps[|steps| - 1])
  {
    hide Next, Inv;
    var m := |steps| - 1;
    s := Run(Initial(n), steps[..m]);
    assert steps == steps[..m] + [steps[m]];
    RunSplits(Initial(n), steps[..m], steps[m]);
    InitialIsInv(n);
    RunKeepsInv(Initial(n), steps[..m]);
    t := s.turns[i];
  }

  /** Step `p` registers turn `j`'s process in the place of turn `i`'s. */
  ghost predicate RegistersOver(n: nat, steps: seq<Step>, j: nat, i: nat, p: int) {
    && 0 <= p < |steps| && steps[p] == Step(j, Register)
    && var s := Run(Initial(n), steps[..p]);
       s.registry == Some(i) && j < |s.turns| && s.turns[j].thread.Spawned?
  }

  lemma {:induction false} RunSplits(s: State, steps: seq<Step>, last: Step)
    ensures Run(s, steps + [last]) == Next(Run(s, steps), last)
    decreases |steps|
  {
    hide Next;
    if steps == [] {
      assert [last][1..] == [] && Run(Next(s, last), []) == Next(s, last);
    } else {
      assert (steps + [last])[1..] == steps[1..] + [last];
      RunSplits(Next(s, steps[0]), steps[1..], last);
    }
  }

  lemma {:induction false} DisplacedMeans(n: nat, steps: seq<Step>, i: nat, j: nat)
    requires i < |Run(Initial(n), steps).turns| == n && Run(Initial(n), steps).turns[i].displacedBy == Some(j)
    ensures exists p :: RegistersOver(n, steps, j, i, p)
    decreases |steps|
  {
    if steps != [] {
      var m := |steps| - 1;
      var s := Run(Initial(n), steps[..m]);
      assert steps == steps[..m] + [steps[m]];
      RunSplits(Initial(n), steps[..m], steps[m]);
      InitialIsInv(n);
      RunKeepsInv(Initial(n), steps[..m]);
      if s.turns[i].displacedBy == Some(j) {
        DisplacedMeans(n, steps[..m], i, j);
        var p :| RegistersOver(n, steps[..m], j, i, p);
        assert steps[..m][..p] == steps[..p];
        assert RegistersOver(n, steps, j, i, p);
      } else {
        DisplacedNow(s, steps[m], i);
        assert RegistersOver(n, steps, j, i, m);
      }
    }
  }

  /** Only a registration displaces an entry. */
  lemma DisplacedNow(s: State, step: Step, i: nat)
    requires i < |s.turns| && |Next(s, step).turns| == |s.turns|
    requires Next(s, step).turns[i].displacedBy != s.turns[i].displacedBy
    ensures step.action == Register && step.turn < i && s.registry == Some(i) && s.turns[step.turn].thread.Spawned?
    ensures Next(s, step).turns[i].displacedBy == Some(step.turn)
  {
  }

  /** Never two processes at once: a turn begins only once each earlier one was
      stopped and aborted, or its task ended; and when it is about to spawn its
      own process, each earlier turn's exited, is being stopped, or will be
      stopped with no prompt written; or it was displaced. */
  lemma EarlierTurnsAreDoomed(n: nat, steps: seq<Step>, i: nat, j: nat)
    requires i < j < n
    ensures var s := Run(Initial(n), steps);
            && |s.turns| == n
            && (!s.turns[j].task.NotBegun? ==> (s.turns[i].marked && s.turns[i].aborted) || s.turns[i].task.Dropped?)
            && (s.turns[j].wait.Clear? ==> Doomed(s.turns[i]))
  {
    InitialIsInv(n);
    RunKeepsInv(Initial(n), steps);
    var s := Run(Initial(n), steps);
    assert PairOk(s.turns[i], s.turns[j]);
  }

  predicate Waits(t: Turn, k: nat) {
    t.task.Awaiting? && t.wait == Stopping(k)
  }

  /** An entry leaves the registry only for a process that exited or is being
      stopped, or for a process registered in its place; and it does leave
      when its exited process's task ends, when its stop is over, and when a
      later turn has waited for it. */
  lemma EntriesLeave(s: State, step: Step, k: nat)
    requires Inv(s) && s.registry == Some(k) && k < |s.turns|
    ensures var s' := Next(s, step);
            && (s'.registry == None ==> Handled(s.turns[k]))
            && (s'.registry != s.registry && s'.registry.Some? ==> step == Step(s'.registry.value, Register))
            && (step == Step(k, DropTask) && s.turns[k].task.Holding? && s.turns[k].exited ==> s'.registry == None)
            && (step == Step(k, Unregister) && s.turns[k].stopStarted ==> s'.registry == None)
            && (step.action == PreviousGone && step.turn < |s.turns| && Waits(s.turns[step.turn], k) ==> s'.registry == None)
  {
    hide Over, Doomed, PairOk, SawStop, PastCheck;
    if step.turn < |s.turns| {
      assert TurnOk(s, step.turn);
    }
  }

  /** With one turn, only the runtime, its own thread or its own guard stops
      its process. */
  ghost predicate Alone(s: State) {
    && |s.turns| == 1
    && var t := s.turns[0];
       t.stopStarted ==> t.lookup == Looked(Some(0)) || t.thread == Acted(false) || t.task == Dropped(true)
  }

  lemma {:induction false} AloneStaysAlone(s: State, steps: seq<Step>)
    requires Alone(s) && Inv(s)
    ensures Alone(Run(s, steps)) && Inv(Run(s, steps))
    decreases |steps|
  {
    hide Next, Alone, Inv;
    if steps != [] {
      AloneStep(s, steps[0]);
      NextKeepsInv(s, steps[0]);
      AloneStaysAlone(Next(s, steps[0]), steps[1..]);
    }
  }

  lemma AloneStep(s: State, step: Step)
    requires Alone(s) && Inv(s)
    ensures Alone(Next(s, step))
  {
    assert TurnOk(s, 0);
    hide Inv;
    if step.turn == 0 {
      match step.action {
        case DropTask =>
        case LookUp =>
        case Register =>
        case WaitPrevious =>
        case PreviousGone =>
        case Unregister =>
        case _ => assert Next(s, step) == s || Next(s, step) == Put(s, 0, Next(s, step).turns[0]);
      }
    }
  }

  /** With one turn, the runtime and the thread never both miss: the runtime
      finds the registered process, or the thread sees the stop, stops it
      itself and writes nothing, unless the process exited or the turn's own
      guard stopped it. */
  lemma NeverBothMiss(steps: seq<Step>)
    ensures var s := Run(Initial(1), steps);
            |s.turns| == 1
            && var t := s.turns[0];
               t.thread.Acted? && t.lookup.Looked? ==>
                 || t.lookup.found == Some(0)
                 || (t.thread == Acted(false) && t.stopStarted)
                 || t.exited || t.task == Dropped(true)
  {
    InitialIsInv(1);
    AloneStaysAlone(Initial(1), steps);
    assert TurnOk(Run(Initial(1), steps), 0);
  }

  // ----- Undisturbed -----

  /** A turn that may begin while nothing is registered, and that nobody stops,
      gets its prompt and its pipes, and leaves nothing registered or stopped. */
  lemma OrdinaryTurn(s: State, i: nat)
    requires i < |s.turns| && s.turns[i] == TO_COME && s.registry == None
    requires i > 0 ==> (s.turns[i - 1].marked && s.turns[i - 1].aborted) || s.turns[i - 1].task.Dropped?
    ensures Run(s, [Step(i, Begin), Step(i, WaitPrevious), Step(i, Spawn), Step(i, Register), Step(i, Check),
                    Step(i, HandOver), Step(i, Receive), Step(i, Act), Step(i, Exit), Step(i, DropTask)])
         == State(s.turns[i := Turn(Acted(true), Dropped(true), Clear, false, false, NotYet, true, false, None)], None)
  {
    var steps := [Step(i, Begin), Step(i, WaitPrevious), Step(i, Spawn), Step(i, Register), Step(i, Check),
                  Step(i, HandOver), Step(i, Receive), Step(i, Act), Step(i, Exit), Step(i, DropTask)];
    var s3 := OrdinaryStart(s, i);
    var s6 := OrdinaryMiddle(s, i);
    OrdinaryEnd(s, i);
    hide Next;
    var s1, s2 := Next(s, steps[0]), Next(Next(s, steps[0]), steps[1]);
    var s4, s5 := Next(s3, steps[3]), Next(Next(s3, steps[3]), steps[4]);
    var s7 := Next(s6, steps[6]);
    var s8 := Next(s7, steps[7]);
    var s9 := Next(s8, steps[8]);
    RunAt(s, steps, 0);
    RunAt(s1, steps, 1);
    RunAt(s2, steps, 2);
    RunAt(s3, steps, 3);
    RunAt(s4, steps, 4);
    RunAt(s5, steps, 5);
    RunAt(s6, steps, 6);
    RunAt(s7, steps, 7);
    RunAt(s8, steps, 8);
    RunAt(s9, steps, 9);
    assert steps[0..] == steps && steps[10..] == [];
  }

  lemma RunAt(s: State, steps: seq<Step>, k: nat)
    requires k < |steps|
    ensures Run(s, steps[k..]) == Run(Next(s, steps[k]), steps[k + 1..])
  {
    hide Next;
    assert steps[k..][1..] == steps[k + 1..];
  }

  /** The state in which turn `i` is this and this is registered. */
  function With(s: State, i: nat, t: Turn, registry: Option<nat>): State
    requires i < |s.turns|
  {
    State(s.turns[i := t], registry)
  }

  lemma OrdinaryStart(s: State, i: nat) returns (s3: State)
    requires i < |s.turns| && s.turns[i] == TO_COME && s.registry == None
    requires i > 0 ==> (s.turns[i - 1].marked && s.turns[i - 1].aborted) || s.turns[i - 1].task.Dropped?
    ensures s3 == Next(Next(Next(s, Step(i, Begin)), Step(i, WaitPrevious)), Step(i, Spawn))
    ensures s3 == With(s, i, TO_COME.(task := Awaiting, wait := Clear, thread := Spawned), None)
  {
    var s1 := Next(s, Step(i, Begin));
    var s2 := Next(s1, Step(i, WaitPrevious));
    s3 := Next(s2, Step(i, Spawn));
    assert s3.turns == s.turns[i := s3.turns[i]];
  }

  lemma OrdinaryMiddle(s: State, i: nat) returns (s6: State)
    requires i < |s.turns|
    ensures var s3 := With(s, i, TO_COME.(task := Awaiting, wait := Clear, thread := Spawned), None);
            s6 == Next(Next(Next(s3, Step(i, Register)), Step(i, Check)), Step(i, HandOver))
    ensures s6 == With(s, i, TO_COME.(task := Awaiting, wait := Clear, thread := Handed(false, false)), Some(i))
  {
    var s3 := With(s, i, TO_COME.(task := Awaiting, wait := Clear, thread := Spawned), None);
    var s4 := Next(s3, Step(i, Register));
    var s5 := Next(s4, Step(i, Check));
    s6 := Next(s5, Step(i, HandOver));
    assert s6.turns == s.turns[i := s6.turns[i]];
  }

  lemma OrdinaryEnd(s: State, i: nat)
    requires i < |s.turns|
    ensures var s6 := With(s, i, TO_COME.(task := Awaiting, wait := Clear, thread := Handed(false, false)), Some(i));
            var s8 := Next(Next(s6, Step(i, Receive)), Step(i, Act));
            Next(Next(s8, Step(i, Exit)), Step(i, DropTask))
            == With(s, i, Turn(Acted(true), Dropped(true), Clear, false, false, NotYet, true, false, None), None)
  {
    var s6 := With(s, i, TO_COME.(task := Awaiting, wait := Clear, thread := Handed(false, false)), Some(i));
    var s7 := Next(s6, Step(i, Receive));
    var s8 := Next(s7, Step(i, Act));
    var s9 := Next(s8, Step(i, Exit));
    var s10 := Next(s9, Step(i, DropTask));
    assert s10.turns == s.turns[i := s10.turns[i]];
  }

  // ----- Where it fails -----

  /** The process of an earlier turn may still come to be registered: its
      thread is between its start and that, or its task may yet start it. */
  predicate MayStillRegister(t: Turn) {
    !IsRegistered(t) && !(t.thread.NotStarted? && t.task.Dropped?)
  }

  predicate NoneInFlight(s: State, i: nat)
    requires i <= |s.turns|
  {
    forall j :: 0 <= j < i ==> !MayStillRegister(s.turns[j])
  }

  predicate Missed(s: State, i: nat) {
    i < |s.turns| && Settled(s, i) && !Handled(s.turns[i])
  }

  ghost predicate CanBeMissed(s: State, i: nat) {
    exists steps :: Missed(Run(s, steps), i)
  }

  /** Turn `i`'s process got its prompt and is missed: turn `j`'s took its place
      in the registry, and the runtime's stop found that one. */
  predicate MissedFor(s: State, i: nat, j: nat) {
    && Missed(s, i) && s.turns[i].displacedBy == Some(j) && s.turns[i].thread == Acted(true)
    && s.turns[i].lookup == Looked(Some(j)) && s.registry == Some(j)
  }

  ghost predicate CanBeMissedFor(s: State, i: nat, j: nat) {
    exists steps :: MissedFor(Run(s, steps), i, j)
  }

  /** A turn that may begin can come to be missed exactly when, at that time,
      the process of an earlier turn may still come to be registered. */
  lemma MissedExactlyWhen(n: nat, steps: seq<Step>, i: nat)
    requires i < n
    ensures var s := Run(Initial(n), steps);
            && |s.turns| == n
            && (s.turns[i].task.NotBegun? && (i == 0 || Over(s.turns[i - 1])) ==>
                  (CanBeMissed(s, i) <==> !NoneInFlight(s, i)))
  {
    InitialIsInv(n);
    RunKeepsInv(Initial(n), steps);
    var s := Run(Initial(n), steps);
    if s.turns[i].task.NotBegun? && (i == 0 || Over(s.turns[i - 1])) {
      assert TurnOk(s, i);
      if NoneInFlight(s, i) {
        forall more
          ensures !Missed(Run(s, more), i)
        {
          NeverDisplaced(s, more, i);
          if Missed(Run(s, more), i) {
            SettledIsHandled(Run(s, more), i);
          }
        }
      } else {
        var j :| 0 <= j < i && MayStillRegister(s.turns[j]);
        LateEntryMisses(s, i, j);
        var more :| MissedFor(Run(s, more), i, j);
        assert Missed(Run(s, more), i);
      }
    }
  }

  /** With no earlier process to come, nothing displaces turn `i`'s. */
  lemma {:induction false} NeverDisplaced(s: State, steps: seq<Step>, i: nat)
    requires Inv(s) && i < |s.turns| && NoneInFlight(s, i) && s.turns[i].displacedBy == None
    ensures Inv(Run(s, steps)) && |Run(s, steps).turns| == |s.turns| && Run(s, steps).turns[i].displacedBy == None
    decreases |steps|
  {
    if steps != [] {
      var s' := Next(s, steps[0]);
      NextKeepsInv(s, steps[0]);
      forall j | 0 <= j < i
        ensures !MayStillRegister(s'.turns[j])
      {
        assert !MayStillRegister(s.turns[j]);
        RegisteredStays(s, steps[0], j);
      }
      if s'.turns[i].displacedBy.Some? {
        DisplacedNow(s, steps[0], i);
      }
      hide Inv, Next;
      NeverDisplaced(s', steps[1..], i);
    }
  }

  lemma RegisteredStays(s: State, step: Step, j: nat)
    requires Inv(s) && j < |s.turns| && |Next(s, step).turns| == |s.turns|
    requires !MayStillRegister(s.turns[j])
    ensures !MayStillRegister(Next(s, step).turns[j])
  {
    if step.turn != j {
      TouchesOther(s, step, j);
    } else {
      OwnGoesOn(s, step);
    }
  }

  /** Its own thread and task only go on. */
  lemma OwnGoesOn(s: State, step: Step)
    requires step.turn < |s.turns| && (s.registry.Some? ==> s.registry.value < |s.turns|)
    ensures |Next(s, step).turns| == |s.turns|
    ensures var t, t' := s.turns[step.turn], Next(s, step).turns[step.turn];
            && (IsRegistered(t) ==> IsRegistered(t'))
            && (t.thread.NotStarted? && t.task.Dropped? ==> t'.thread.NotStarted? && t'.task.Dropped?)
  {
    hide StopFound, Removed, Displaced;
    var i := step.turn;
    var t := s.turns[i];
    match step.action {
      case WaitPrevious =>
        if s.registry.Some? {
          StopFoundMeans(Put(s, i, t.(wait := Stopping(s.registry.value))));
        }
      case LookUp => StopFoundMeans(Put(s, i, t.(lookup := Looked(s.registry))));
      case Register => DisplacedOnly(s, i);
      case PreviousGone =>
        if t.wait.Stopping? {
          RemovedSame(Put(s, i, t.(wait := Clear)), t.wait.process);
        }
      case DropTask => RemovedSame(Put(s, i, t.(task := Dropped(true))), i);
      case Unregister => RemovedSame(s, i);
      case _ =>
    }
  }

  /** A step leaves every other turn alone, but that it may stop or displace
      its process. */
  lemma TouchesOther(s: State, step: Step, j: nat)
    requires j < |s.turns| && (s.registry.Some? ==> s.registry.value < |s.turns|) && step.turn != j
    ensures |Next(s, step).turns| == |s.turns|
    ensures var t, t' := s.turns[j], Next(s, step).turns[j];
            t' == t.(stopStarted := t'.stopStarted, displacedBy := t'.displacedBy)
  {
    hide StopFound, Removed, Displaced;
    var i := step.turn;
    if i < |s.turns| {
      var t := s.turns[i];
      match step.action {
        case WaitPrevious =>
          if s.registry.Some? {
            StopFoundMeans(Put(s, i, t.(wait := Stopping(s.registry.value))));
          }
        case LookUp => StopFoundMeans(Put(s, i, t.(lookup := Looked(s.registry))));
        case Register => DisplacedOnly(s, i);
        case PreviousGone =>
          if t.wait.Stopping? {
            RemovedSame(Put(s, i, t.(wait := Clear)), t.wait.process);
          }
        case DropTask => RemovedSame(Put(s, i, t.(task := Dropped(true))), i);
        case Unregister => RemovedSame(s, i);
        case _ =>
      }
    }
  }

  /** A turn that is not registered is out of every other turn's reach. */
  lemma OutOfReach(s: State, step: Step, j: nat)
    requires j < |s.turns| && step.turn != j && s.registry != Some(j)
    ensures j < |Next(s, step).turns| && Next(s, step).turns[j] == s.turns[j] && Next(s, step).registry != Some(j)
  {
    hide Over, StopFound, Removed, Displaced;
    var i := step.turn;
    if i < |s.turns| {
      var t := s.turns[i];
      match step.action {
        case WaitPrevious =>
          if s.registry.Some? {
            SparesOthers(Put(s, i, t.(wait := Stopping(s.registry.value))), j);
          }
        case LookUp => SparesOthers(Put(s, i, t.(lookup := Looked(s.registry))), j);
        case Register => SparesDisplaced(s, i, j);
        case PreviousGone =>
          if t.wait.Stopping? {
            RemovedSame(Put(s, i, t.(wait := Clear)), t.wait.process);
          }
        case DropTask => RemovedSame(Put(s, i, t.(task := Dropped(true))), i);
        case Unregister => RemovedSame(s, i);
        case _ =>
      }
    }
  }

  lemma SparesOthers(s: State, j: nat)
    requires j < |s.turns| && s.registry != Some(j)
    ensures |StopFound(s).turns| == |s.turns| && StopFound(s).turns[j] == s.turns[j] && StopFound(s).registry == s.registry
  {
  }

  lemma SparesDisplaced(s: State, i: nat, j: nat)
    requires j < |s.turns| && s.registry != Some(j)
    ensures |Displaced(s, i).turns| == |s.turns| && Displaced(s, i).turns[j] == s.turns[j]
  {
  }

  lemma DisplacedOnly(s: State, j: nat)
    ensures |Displaced(s, j).turns| == |s.turns| && Displaced(s, j).registry == s.registry
    ensures forall k :: 0 <= k < |s.turns| ==>
              Displaced(s, j).turns[k]
              == if s.registry == Some(k) && j < k then s.turns[k].(displacedBy := Some(j)) else s.turns[k]
  {
  }

  lemma RemovedSame(s: State, i: nat)
    ensures Removed(s, i).turns == s.turns && Removed(s, i).registry in {s.registry, None}
  {
  }

  lemma Before(s: State, step: Step, i: nat, j: nat)
    requires CanBeMissedFor(Next(s, step), i, j)
    ensures CanBeMissedFor(s, i, j)
  {
    hide Next, MissedFor;
    var steps :| MissedFor(Run(Next(s, step), steps), i, j);
    assert ([step] + steps)[1..] == steps;
    assert MissedFor(Run(s, [step] + steps), i, j);
  }

  /** The late entry: turn `i` begins, waits for what is registered and
      registers its process; only then is turn `j`'s registered. */
  lemma LateEntryMisses(s: State, i: nat, j: nat)
    requires Inv(s) && j < i < |s.turns| && MayStillRegister(s.turns[j])
    requires s.turns[i].task.NotBegun? && Over(s.turns[i - 1])
    ensures CanBeMissedFor(s, i, j)
  {
    hide Inv;
    EarlierBegun(s, i, j);
    // Turn `j`'s thread starts, if it has not.
    var s1 := Next(s, Step(j, WaitPrevious));
    var s2 := Next(s1, Step(j, PreviousGone));
    var s3 := Next(s2, Step(j, Spawn));
    StartsThread(s, i, j);
    InFlightMisses(s3, i, j);
    Before(s2, Step(j, Spawn), i, j);
    Before(s1, Step(j, PreviousGone), i, j);
    Before(s, Step(j, WaitPrevious), i, j);
  }

  lemma StartsThread(s: State, i: nat, j: nat)
    requires j < i < |s.turns| && TurnOk(s, j) && MayStillRegister(s.turns[j]) && !s.turns[j].task.NotBegun?
    requires s.turns[i] == TO_COME && Over(s.turns[i - 1])
    requires s.registry.Some? ==> s.registry.value < |s.turns| && s.registry.value != i
    ensures var s1 := Next(s, Step(j, WaitPrevious));
            var s2 := Next(s1, Step(j, PreviousGone));
            var s3 := Next(s2, Step(j, Spawn));
            && |s3.turns| == |s.turns| && s3.turns[j].thread.Spawned? && s3.turns[i] == TO_COME && Over(s3.turns[i - 1])
            && (s3.registry == None || s3.registry == s.registry)
  {
    hide Doomed, PastCheck;
    var s1 := Next(s, Step(j, WaitPrevious));
    var s2 := Next(s1, Step(j, PreviousGone));
    if s.turns[j].task.Awaiting? && s.turns[j].wait.NotLooked? && s.registry.Some? {
      StopFoundMeans(Put(s, j, s.turns[j].(wait := Stopping(s.registry.value))));
    }
    hide StopFound;
    assert s1.turns[i] == TO_COME && Over(s1.turns[i - 1]) && s1.registry == s.registry && |s1.turns| == |s.turns|;
    assert s2.turns[i] == TO_COME && Over(s2.turns[i - 1]) && |s2.turns| == |s.turns|;
    assert s2.turns[j].thread.Spawned? || (s2.turns[j].thread.NotStarted? && s2.turns[j].task.Awaiting? && s2.turns[j].wait.Clear?);
  }

  lemma EarlierBegun(s: State, i: nat, j: nat)
    requires Inv(s) && j < i < |s.turns| && Over(s.turns[i - 1]) && s.turns[i].task.NotBegun?
    ensures s.turns[i] == TO_COME
    ensures !s.turns[j].task.NotBegun? && TurnOk(s, j) && TurnOk(s, i)
    ensures s.registry.Some? ==> s.registry.value < |s.turns| && s.registry.value != i
  {
    assert TurnOk(s, j) && TurnOk(s, i) && TurnOk(s, i - 1);
    if j < i - 1 {
      assert PairOk(s.turns[j], s.turns[i - 1]);
    }
  }

  lemma InFlightMisses(s: State, i: nat, j: nat)
    requires j < i < |s.turns| && s.turns[j].thread.Spawned? && s.turns[i] == TO_COME && Over(s.turns[i - 1])
    requires s.registry.Some? ==> s.registry.value < |s.turns| && s.registry.value != i
    ensures CanBeMissedFor(s, i, j)
  {
    var s1 := Next(s, Step(i, Begin));
    var s2 := Next(s1, Step(i, WaitPrevious));
    var s3 := Next(s2, Step(i, PreviousGone));
    assert s1 == Put(s, i, TO_COME.(task := Awaiting));
    assert s3.turns[i] == TO_COME.(task := Awaiting, wait := Clear);
    assert s3.turns[j].thread.Spawned? && |s3.turns| == |s.turns|;
    ClearMisses(s3, i, j);
    Before(s2, Step(i, PreviousGone), i, j);
    Before(s1, Step(i, WaitPrevious), i, j);
    Before(s, Step(i, Begin), i, j);
  }

  /** Both are registered, the earlier turn's last. */
  lemma ClearMisses(s: State, i: nat, j: nat)
    requires j < i < |s.turns| && s.turns[j].thread.Spawned?
    requires s.turns[i] == TO_COME.(task := Awaiting, wait := Clear)
    ensures CanBeMissedFor(s, i, j)
  {
    var s1 := Next(s, Step(i, Spawn));
    var s2 := Next(s1, Step(i, Register));
    var s3 := Next(s2, Step(j, Register));
    assert s2.turns[i] == TO_COME.(thread := Registered, task := Awaiting, wait := Clear);
    DisplacedOnly(s1, i);
    DisplacedMisses(s3, i, j);
    Before(s2, Step(j, Register), i, j);
    Before(s1, Step(i, Register), i, j);
    Before(s, Step(i, Spawn), i, j);
  }

  /** Displaced as soon as it is registered, and stopped after its prompt. */
  lemma DisplacedMisses(s: State, i: nat, j: nat)
    requires i < |s.turns| && j < |s.turns| && j != i && s.registry == Some(j)
    requires s.turns[i] == Turn(Registered, Awaiting, Clear, false, false, NotYet, false, false, Some(j))
    ensures CanBeMissedFor(s, i, j)
  {
    var s1 := Next(s, Step(i, Check));
    var s2 := Next(s1, Step(i, HandOver));
    var s3 := Next(s2, Step(i, Act));
    var s4 := Next(s3, Step(i, Mark));
    var s5 := Next(s4, Step(i, Abort));
    var s6 := Next(s5, Step(i, DropTask));
    var s7 := Next(s6, Step(i, LookUp));
    assert Run(s7, []) == s7 && MissedFor(s7, i, j);
    Before(s6, Step(i, LookUp), i, j);
    Before(s5, Step(i, DropTask), i, j);
    Before(s4, Step(i, Abort), i, j);
    Before(s3, Step(i, Mark), i, j);
    Before(s2, Step(i, Act), i, j);
    Before(s1, Step(i, HandOver), i, j);
    Before(s, Step(i, Check), i, j);
  }

  /** Nor will anything ever stop a process that was missed: every later step
      but its own exit leaves it as it is. */
  lemma MissedForGood(s: State, i: nat, step: Step)
    requires Missed(s, i) && s.registry != Some(i) && s.turns[i].lookup.Looked? && step != Step(i, Exit)
    ensures var s' := Next(s, step);
            Missed(s', i) && s'.registry != Some(i) && s'.turns[i].lookup.Looked?
  {
    if step.turn != i {
      OutOfReach(s, step, i);
    }
  }
}
