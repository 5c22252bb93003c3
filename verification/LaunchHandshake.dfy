/** Stopping a Claude turn while it launches (src/agent/claude.rs,
    src/agent/mod.rs): the launch runs on a task of its own, and the bg id it
    reports takes the place of the registry entry. */
module LaunchHandshake {

  /** What a launch turned out to be: the session itself, a copy of it, or
      unclear (its note names the session itself as the copy). */
  datatype Kind = Own | Copy | Unclear

  datatype Phase = Launching | Printed | Reported(saw: bool) | Finished

  /** `resume`: the runtime knew the session's bg id before the launch. */
  datatype State = State(
    kind: Kind,
    resume: bool,
    phase: Phase,
    reported: bool,
    marked: bool,
    /** The runtime's stop read a bg id. */
    knows: bool,
    aborted: bool,
    /** The runtime's stop is over. */
    stopOver: bool,
    /** It came before the launch had started anything. */
    early: bool,
    /** What the launch started was stopped, after it was started. */
    stopped: bool)

  datatype Action = Print | Report | Finish | Handle | Mark | Abort | RuntimeStop

  function Initial(kind: Kind, resume: bool): State {
    State(kind, resume, Launching, false, false, false, false, false, false, false)
  }

  function Next(s: State, action: Action): State {
    match action
    // The launch task.
    case Print => if s.phase.Launching? then s.(phase := Printed) else s
    case Report =>
      if s.phase.Printed? && s.kind.Own? then s.(phase := Reported(s.marked), reported := true) else s
    case Finish =>
      if s.phase.Reported? then s.(phase := Finished, stopped := s.stopped || s.phase.saw)
      else if s.phase.Printed? && s.kind.Copy? then s.(phase := Finished, stopped := true)
      else if s.phase.Printed? && s.kind.Unclear? then s.(phase := Finished)
      else s
    // The turn's task, while it is not aborted: stop an unclear resume.
    case Handle => if s.phase.Finished? && s.kind.Unclear? && !s.aborted then s.(stopped := true) else s
    // The runtime: mark the turn stopped and read the newest ids in one step,
    // abort the turn's task, stop the bg id it knows.
    case Mark => if s.marked then s else s.(marked := true, knows := s.resume || s.reported)
    case Abort => if s.marked then s.(aborted := true) else s
    case RuntimeStop =>
      if !s.aborted || s.stopOver then s
      else if s.knows && !s.kind.Copy? && !s.phase.Launching? then s.(stopOver := true, stopped := true)
      else s.(stopOver := true, early := s.phase.Launching?)
  }

  function Run(s: State, actions: seq<Action>): State {
    if actions == [] then s else Next(Run(s, actions[..|actions| - 1]), actions[|actions| - 1])
  }

  ghost predicate Inv(s: State) {
    && (s.kind.Unclear? ==> s.resume)
    && (s.aborted || s.stopOver ==> s.marked)
    && (s.stopOver ==> s.aborted)
    && (s.early ==> s.stopOver)
    && (s.phase.Launching? ==> !s.stopped)
    && (s.phase.Reported? ==> s.kind.Own?)
    && (s.reported <==> s.kind.Own? && (s.phase.Reported? || s.phase.Finished?))
    && (s.phase.Reported? && s.phase.saw ==> s.marked)
    && (s.phase.Reported? && !s.phase.saw && s.marked ==> s.knows && !s.early)
    && (s.phase.Finished? && s.kind.Own? && s.marked ==> s.stopped || (s.knows && !s.early))
    && (s.phase.Finished? && s.kind.Copy? ==> s.stopped)
    && (s.phase.Reported? && !s.phase.saw && s.stopOver ==> s.stopped)
    && (s.phase.Finished? && s.kind.Own? && s.stopOver ==> s.stopped)
    && (s.kind.Unclear? && s.marked ==> s.knows)
    && (s.kind.Unclear? && s.stopOver ==> s.stopped != s.early)
  }

  lemma InitialIsInv(kind: Kind, resume: bool)
    requires kind.Unclear? ==> resume
    ensures Inv(Initial(kind, resume))
  {
  }

  lemma NextKeepsInv(s: State, action: Action)
    requires Inv(s)
    ensures var s' := Next(s, action); Inv(s') && s'.kind == s.kind && s'.resume == s.resume
  {
  }

  lemma {:induction false} RunKeepsInv(kind: Kind, resume: bool, actions: seq<Action>)
    requires kind.Unclear? ==> resume
    ensures var s := Run(Initial(kind, resume), actions); Inv(s) && s.kind == kind && s.resume == resume
  {
    hide Inv, Next;
    InitialIsInv(kind, resume);
    if actions != [] {
      RunKeepsInv(kind, resume, actions[..|actions| - 1]);
      NextKeepsInv(Run(Initial(kind, resume), actions[..|actions| - 1]), actions[|actions| - 1]);
    }
  }

  /** In every interleaving, once the launch and the runtime's stop are over,
      what was launched has been stopped: except exactly when the resume was
      unclear and the runtime's stop came before it had started. */
  lemma LaunchedIsStopped(kind: Kind, resume: bool, actions: seq<Action>)
    requires kind.Unclear? ==> resume
    ensures var s := Run(Initial(kind, resume), actions);
            s.phase.Finished? && s.stopOver ==> (s.stopped <==> !(kind.Unclear? && s.early))
  {
    RunKeepsInv(kind, resume, actions);
  }

  /** An unclear resume that lands after the stop runs on. */
  lemma UnclearResumeIsMissed()
    ensures var s := Run(Initial(Unclear, true), [Mark, Abort, RuntimeStop, Print, Finish]);
            s.phase.Finished? && s.stopOver && s.early && !s.stopped
            && forall action :: Next(s, action) == s
  {
    var a := [Mark, Abort, RuntimeStop, Print, Finish];
    var s0 := Initial(Unclear, true);
    assert a[..4] == [Mark, Abort, RuntimeStop, Print] && a[..4][..3] == [Mark, Abort, RuntimeStop]
        && a[..3][..2] == [Mark, Abort] && a[..2][..1] == [Mark] && a[..1][..0] == [];
    assert Run(s0, []) == s0;
    assert Run(s0, [Mark]) == Next(s0, Mark);
    assert Run(s0, [Mark, Abort]) == Next(Next(s0, Mark), Abort);
    assert Run(s0, [Mark, Abort, RuntimeStop]) == Next(Next(Next(s0, Mark), Abort), RuntimeStop);
  }
}
