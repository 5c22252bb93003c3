/** Finding and signalling every process of a turn (src/agent/process.rs). */
module ProcessTree {
  import opened Basics

  /** What `/proc/<pid>/stat` says. */
  datatype Stat = Stat(state: char, start: nat)

  /** A pid and its start time name one process. */
  datatype Process = Process(pid: nat, start: nat)

  /** One reading of the process table: any children lists, with repeats and
      cycles, and a stat for the pids that have one. */
  datatype Table = Table(children: map<nat, seq<nat>>, stats: map<nat, Stat>)
  {
    /** No entry for a process that is gone. */
    function ChildrenOf(pid: nat): seq<nat> {
      if pid in children then children[pid] else []
    }

    /** Still the process that was seen, and not a zombie. */
    predicate Alive(p: Process) {
      p.pid in stats && stats[p.pid].start == p.start && stats[p.pid].state != 'Z'
    }

    /** A child that is listed and has a stat. */
    predicate Edge(parent: nat, child: nat) {
      parent in children && child in children[parent] && child in stats
    }

    /** The process that has this pid now, not a zombie, is one of `seen`. */
    predicate RunsOf(seen: set<Process>, pid: int) {
      pid >= 0 && pid in stats && stats[pid].state != 'Z' && Process(pid, stats[pid].start) in seen
    }
  }

  // ----- Reachability -----

  /** A path of pids down the tree. */
  ghost predicate IsPath(t: Table, path: seq<nat>) {
    path != [] && forall i :: 0 < i < |path| ==> t.Edge(path[i - 1], path[i])
  }

  ghost predicate Connects(t: Table, path: seq<nat>, from: set<nat>, to: nat) {
    IsPath(t, path) && path[0] in from && path[|path| - 1] == to
  }

  ghost predicate Reaches(t: Table, from: set<nat>, to: nat) {
    exists path :: Connects(t, path, from, to)
  }

  /** A process below one of `from`. */
  ghost predicate Descends(t: Table, from: set<nat>, p: Process) {
    && p.pid in t.stats && t.stats[p.pid].start == p.start
    && exists parent :: Reaches(t, from, parent) && t.Edge(parent, p.pid)
  }

  lemma ReachesSelf(t: Table, from: set<nat>, pid: nat)
    requires pid in from
    ensures Reaches(t, from, pid)
  {
    assert Connects(t, [pid], from, pid);
  }

  lemma ReachesChild(t: Table, from: set<nat>, parent: nat, child: nat)
    requires Reaches(t, from, parent) && t.Edge(parent, child)
    ensures Reaches(t, from, child)
  {
    var path :| Connects(t, path, from, parent);
    assert Connects(t, path + [child], from, child);
  }

  /** A set of pids that children never leave holds all that it reaches. */
  lemma {:induction false} ClosedHoldsReach(t: Table, from: set<nat>, closed: set<nat>, path: seq<nat>)
    requires IsPath(t, path) && path[0] in from && from <= closed
    requires forall p, c :: p in closed && t.Edge(p, c) ==> c in closed
    ensures path[|path| - 1] in closed
  {
    if |path| > 1 {
      ClosedHoldsReach(t, from, closed, path[..|path| - 1]);
      assert t.Edge(path[|path| - 2], path[|path| - 1]);
    }
  }

  // ----- The tree -----

  /** The pids of the processes that still run. */
  function AliveIn(t: Table, processes: seq<Process>): seq<nat> {
    if processes == [] then []
    else (if t.Alive(processes[0]) then [processes[0].pid] else []) + AliveIn(t, processes[1..])
  }

  /** The pids a stop may signal. */
  predicate MayBeKilled(pid: int, daemon: nat) {
    1 < pid <= 0x7fff_ffff && pid != daemon
  }

  lemma {:induction false} AliveInMeans(t: Table, processes: seq<Process>)
    ensures forall pid :: pid in AliveIn(t, processes) <==> t.RunsOf(Elements(processes), pid)
  {
    if processes != [] {
      AliveInMeans(t, processes[1..]);
      assert processes == [processes[0]] + processes[1..];
      assert Elements(processes) == {processes[0]} + Elements(processes[1..]);
    }
  }

  function Elements<T>(s: seq<T>): set<T> {
    set x | x in s
  }

  /** Where a walk starts: the turn's process, and those seen that still run. */
  ghost function Roots(t: Table, root: Option<nat>, seen: set<Process>): set<nat> {
    (if root.Some? then {root.value} else {}) + set pid | pid in t.stats && t.RunsOf(seen, pid)
  }

  lemma RootsAreListed(t: Table, root: Option<nat>, seen: seq<Process>)
    ensures Roots(t, root, Elements(seen)) == Elements(Singleton(root) + AliveIn(t, seen))
  {
    AliveInMeans(t, seen);
    assert forall pid :: pid in Roots(t, root, Elements(seen)) <==> root == Some(pid) || t.RunsOf(Elements(seen), pid);
  }

  /** The child of `parent` that `p` is. */
  predicate IsChild(t: Table, parent: nat, p: Process) {
    t.Edge(parent, p.pid) && t.stats[p.pid].start == p.start
  }

  /** All that walks have found of a turn, in the order found. */
  class Tree {
    var seen: seq<Process>

    constructor ()
      ensures seen == []
    {
      seen := [];
    }

    /** Find what is below `root` and below whatever seen still runs: all of it
        and no more, whatever cycles and repeats the table has. */
    method Grow(t: Table, root: Option<nat>)
      modifies this
      ensures old(seen) <= seen
      ensures forall p :: p in seen <==> p in old(seen) || Descends(t, Roots(t, root, Elements(old(seen))), p)
      ensures forall i, j :: 0 <= i < j < |seen| && |old(seen)| <= j ==> seen[i] != seen[j]
    {
      hide Walk, AliveIn, Descends, Reaches, Roots;
      RootsAreListed(t, root, seen);
      ghost var roots := Roots(t, root, Elements(seen));
      ghost var all := roots + t.stats.Keys;
      var stack := Singleton(root) + AliveIn(t, seen);
      var walked: set<nat> := {};
      WalkStarts(t, roots, stack, seen);
      while stack != []
        invariant old(seen) <= seen
        invariant forall i, j :: 0 <= i < j < |seen| && |old(seen)| <= j ==> seen[i] != seen[j]
        invariant Walk(t, roots, stack, walked, old(seen), seen)
        invariant walked + Elements(stack) <= all
        decreases all - walked, |stack|
      {
        var n := |stack| - 1;
        var pid := stack[n];
        ghost var before := stack;
        stack := stack[..n];
        assert before == stack + [pid];
        if pid in walked {
          WalkSkips(t, roots, before, walked, old(seen), seen);
          continue;
        }
        walked := walked + {pid};
        ghost var seenBefore := seen;
        stack := Push(t, pid, stack);
        WalkStep(t, roots, before, walked - {pid}, old(seen), seenBefore, pid, stack, seen);
      }
      WalkEnds(t, roots, walked, old(seen), seen);
    }

    /** Add the children of `pid` to the tree and to the walk. */
    method Push(t: Table, pid: nat, stack0: seq<nat>) returns (stack: seq<nat>)
      modifies this
      ensures old(seen) <= seen
      ensures forall i, j :: 0 <= i < j < |seen| && |old(seen)| <= j ==> seen[i] != seen[j]
      ensures forall p :: p in seen <==> p in old(seen) || IsChild(t, pid, p)
      ensures forall c :: c in stack <==> c in stack0 || t.Edge(pid, c)
    {
      var list := t.ChildrenOf(pid);
      stack := stack0;
      for i := 0 to |list|
        invariant old(seen) <= seen
        invariant forall a, b :: 0 <= a < b < |seen| && |old(seen)| <= b ==> seen[a] != seen[b]
        invariant forall p :: p in seen <==> p in old(seen) || (p.pid in list[..i] && IsChild(t, pid, p))
        invariant forall c :: c in stack <==> c in stack0 || (c in list[..i] && t.Edge(pid, c))
      {
        assert list[..i + 1] == list[..i] + [list[i]];
        var child := list[i];
        if child in t.stats {
          var process := Process(child, t.stats[child].start);
          if process !in seen {
            seen := seen + [process];
          }
          stack := stack + [child];
        }
      }
      assert list[..|list|] == list;
    }

    /** Signal every process seen that still runs, but never pid 0, pid 1 or
        the daemon (nor a number that is no pid). */
    method Signal(t: Table, daemon: nat) returns (targets: seq<int>)
      ensures forall pid: int :: pid in targets <==>
                && 1 < pid <= 0x7fff_ffff && pid != daemon
                && pid in t.stats && t.stats[pid].state != 'Z' && Process(pid, t.stats[pid].start) in seen
    {
      AliveInMeans(t, seen);
      var pids := AliveIn(t, seen);
      targets := [];
      for i := 0 to |pids|
        invariant forall pid :: pid in targets <==> MayBeKilled(pid, daemon) && pid in pids[..i]
      {
        assert pids[..i + 1] == pids[..i] + [pids[i]];
        var pid := pids[i];
        if pid <= 1 || pid == daemon {
          continue;
        }
        if pid <= PID_MAX {
          targets := targets + [pid];
        }
      }
      assert pids[..|pids|] == pids;
    }
  }

  /** The largest `pid_t`. */
  const PID_MAX := 0x7fff_ffff

  /** The negative pid that names a group for kill(2): never 0 or -1, which
      would name the daemon's own group and every process. */
  function GroupTarget(pgid: int): (target: Option<int>)
    ensures target.Some? ==> target.value == -pgid && target.value < -1
    ensures target.None? <==> pgid <= 1 || pgid > PID_MAX
  {
    if 1 < pgid <= PID_MAX then Some(0 - pgid) else None
  }

  /** The walk so far: what it found is below the roots, and what is below a
      walked pid was found. */
  ghost predicate Walk(t: Table, roots: set<nat>, stack: seq<nat>, walked: set<nat>, before: seq<Process>, seen: seq<Process>) {
    && (forall pid :: pid in walked || pid in stack ==> Reaches(t, roots, pid))
    && (forall pid :: pid in roots ==> pid in walked || pid in stack)
    && (forall p, c :: p in walked && t.Edge(p, c) ==> c in walked || c in stack)
    && (forall p, x :: p in walked && IsChild(t, p, x) ==> x in seen)
    && (forall x :: x in seen ==> x in before || Descends(t, roots, x))
    && (forall x :: x in before ==> x in seen)
  }

  lemma WalkStarts(t: Table, roots: set<nat>, stack: seq<nat>, seen: seq<Process>)
    requires roots == Elements(stack)
    ensures Walk(t, roots, stack, {}, seen, seen)
  {
    forall pid | pid in stack
      ensures Reaches(t, roots, pid)
    {
      ReachesSelf(t, roots, pid);
    }
  }

  /** A pid walked already is only dropped. */
  lemma WalkSkips(t: Table, roots: set<nat>, stack: seq<nat>, walked: set<nat>, before: seq<Process>, seen: seq<Process>)
    requires Walk(t, roots, stack, walked, before, seen)
    requires stack != [] && stack[|stack| - 1] in walked
    ensures Walk(t, roots, stack[..|stack| - 1], walked, before, seen)
  {
    assert stack == stack[..|stack| - 1] + [stack[|stack| - 1]];
  }

  lemma WalkStep(t: Table, roots: set<nat>, stack: seq<nat>, walked: set<nat>, before: seq<Process>, seen: seq<Process>,
                 pid: nat, stack': seq<nat>, seen': seq<Process>)
    requires Walk(t, roots, stack, walked, before, seen)
    requires stack != [] && pid == stack[|stack| - 1]
    requires forall p :: p in seen' <==> p in seen || IsChild(t, pid, p)
    requires forall c :: c in stack' <==> c in stack[..|stack| - 1] || t.Edge(pid, c)
    ensures Walk(t, roots, stack', walked + {pid}, before, seen')
  {
    assert Reaches(t, roots, pid);
    forall c | t.Edge(pid, c)
      ensures Reaches(t, roots, c)
    {
      ReachesChild(t, roots, pid, c);
    }
    assert stack == stack[..|stack| - 1] + [pid];
  }

  lemma WalkEnds(t: Table, roots: set<nat>, walked: set<nat>, before: seq<Process>, seen: seq<Process>)
    requires Walk(t, roots, [], walked, before, seen)
    ensures forall x :: x in seen <==> x in before || Descends(t, roots, x)
  {
    forall x | Descends(t, roots, x)
      ensures x in seen
    {
      var parent :| Reaches(t, roots, parent) && t.Edge(parent, x.pid);
      var path :| Connects(t, path, roots, parent);
      ClosedHoldsReach(t, roots, walked, path);
      assert IsChild(t, parent, x);
    }
  }

  // ----- Stopping a turn's process -----

  datatype StopSignal = Interrupt | Terminate | Kill

  const STOP_SIGNALS := [Interrupt, Terminate, Kill]
  const STOP_POLL := 50

  /** What a stop can see at one moment; of a scope, whether its cgroup is named
      then, and whether that holds a process. */
  datatype Moment = Moment(table: Table, exited: bool, groupAlive: bool, scopeNamed: bool, scopePopulated: bool)

  /** A signal sent: when, to which group, to which processes and to which
      scope. */
  datatype Sent = Sent(stop: StopSignal, at: nat, group: Option<int>, targets: seq<int>, scope: Option<string>)

  /** The turn's own process is walked from while it runs: its pid may be
      another's later. */
  function RootAt(m: Moment, pid: nat): Option<nat> {
    if m.exited then None else Some(pid)
  }

  /** What one walk finds: everything below the turn's process, or below a
      process seen that still runs. */
  ghost function Found(m: Moment, pid: nat, seen: set<Process>): set<Process> {
    set q | q in m.table.stats && Descends(m.table, Roots(m.table, RootAt(m, pid), seen), Process(q, m.table.stats[q].start))
          :: Process(q, m.table.stats[q].start)
  }

  /** What walks at these times have seen. */
  ghost function SeenAfter(world: nat -> Moment, pid: nat, before: set<Process>, walks: seq<nat>): set<Process> {
    if walks == [] then before
    else
      var n := |walks| - 1;
      var seen := SeenAfter(world, pid, before, walks[..n]);
      seen + Found(world(walks[n]), pid, seen)
  }

  /** The processes a signal must reach: those seen that still run, but never
      pid 0, pid 1 or the daemon. */
  ghost predicate Aims(m: Moment, daemon: nat, seen: set<Process>, target: int) {
    MayBeKilled(target, daemon) && m.table.RunsOf(seen, target)
  }

  /** Something was left, as far as the walks up to then, the last at that
      moment, could see, and the signal went to the group and exactly to the
      processes that they have seen and that still run. */
  ghost predicate Reached(world: nat -> Moment, pid: nat, daemon: nat, located: bool, before: set<Process>, walks: seq<nat>,
                          s: Sent) {
    && s.group == GroupTarget(pid) && walks != [] && walks[|walks| - 1] == s.at
    && !NothingLeft(world(s.at), located, SeenAfter(world, pid, before, walks))
    && forall target :: target in s.targets <==> Aims(world(s.at), daemon, SeenAfter(world, pid, before, walks), target)
  }

  /** Signal `s` was sent after some of the walks. */
  ghost predicate ReachedAfter(world: nat -> Moment, pid: nat, daemon: nat, located: bool, before: set<Process>,
                               walks: seq<nat>, s: Sent) {
    exists n :: 0 <= n <= |walks| && Reached(world, pid, daemon, located, before, walks[..n], s)
  }

  /** The scope's cgroup is known: it was, or it had a name at a signal. */
  predicate Named(world: nat -> Moment, scope: Option<string>, was: bool, signals: seq<Sent>) {
    was || (scope.Some? && exists j :: 0 <= j < |signals| && world(signals[j].at).scopeNamed)
  }

  lemma {:induction false} SeenStays(world: nat -> Moment, pid: nat, before: set<Process>, walks: seq<nat>, n: nat)
    requires n <= |walks|
    ensures SeenAfter(world, pid, before, walks[..n]) <= SeenAfter(world, pid, before, walks)
    decreases |walks|
  {
    hide Found;
    if n < |walks| {
      var front := walks[..|walks| - 1];
      SeenStays(world, pid, before, front, n);
      assert front[..n] == walks[..n];
    } else {
      assert walks[..n] == walks;
    }
  }

  lemma FoundBelow(m: Moment, pid: nat, seen: set<Process>, p: Process)
    requires !m.exited && Descends(m.table, {pid}, p)
    ensures p in Found(m, pid, seen)
  {
    var roots := Roots(m.table, RootAt(m, pid), seen);
    assert pid in roots;
    DescendsMore(m.table, {pid}, roots, p);
    hide Roots, Reaches;
    assert p.pid in m.table.stats && p == Process(p.pid, m.table.stats[p.pid].start);
  }

  /** Once the turn's process has exited, its pid is not walked from any more:
      whatever has that pid then, the walk finds what is below the processes
      seen that still run. */
  lemma ExitedIsNotWalked(m: Moment, pid: nat, seen: set<Process>, p: Process)
    requires m.exited
    ensures p in Found(m, pid, seen) ==>
              exists q, parent ::
                && q in seen && q.pid in m.table.stats
                && m.table.stats[q.pid].start == q.start && m.table.stats[q.pid].state != 'Z'
                && Reaches(m.table, {q.pid}, parent) && m.table.Edge(parent, p.pid)
  {
    if p in Found(m, pid, seen) {
      var parent :| Reaches(m.table, Roots(m.table, None, seen), parent) && m.table.Edge(parent, p.pid);
      var path :| Connects(m.table, path, Roots(m.table, None, seen), parent);
      var q := Process(path[0], m.table.stats[path[0]].start);
      assert Connects(m.table, path, {q.pid}, parent);
      assert Reaches(m.table, {q.pid}, parent);
      assert q in seen;
    }
  }

  /** A child is found while its parent runs, and reached though the parent
      has exited: whatever some walk found below the turn's process is a target
      of every later signal for as long as it runs. */
  lemma OrphansAreReached(world: nat -> Moment, pid: nat, daemon: nat, located: bool, before: set<Process>, walks: seq<nat>, s: Sent,
                          i: nat, p: Process)
    requires Reached(world, pid, daemon, located, before, walks, s) && i < |walks|
    requires !world(walks[i]).exited && Descends(world(walks[i]).table, {pid}, p)
    requires world(s.at).table.RunsOf({p}, p.pid) && MayBeKilled(p.pid, daemon)
    ensures p.pid in s.targets
  {
    var m, seen := world(walks[i]), SeenAfter(world, pid, before, walks[..i]);
    FoundBelow(m, pid, seen, p);
    hide SeenAfter, Found, Descends;
    assert walks[..i + 1] == walks[..i] + [walks[i]];
    SeenNext(world, pid, before, walks[..i], walks[i]);
    SeenStays(world, pid, before, walks, i + 1);
    assert Aims(world(s.at), daemon, SeenAfter(world, pid, before, walks), p.pid);
  }

  /** A stop has nothing more to do. A scope whose cgroup was never named to it
      counts as empty. */
  ghost predicate NothingLeft(m: Moment, located: bool, seen: set<Process>) {
    m.exited && !m.groupAlive && !(located && m.scopePopulated) && forall p :: p in seen ==> !m.table.RunsOf(seen, p.pid)
  }

  /** Walks from `from` on, one every `STOP_POLL`, until nothing is left or
      `within` is up. */
  ghost predicate Polls(world: nat -> Moment, pid: nat, located: bool, before: set<Process>, walks: seq<nat>, from: nat, within: nat) {
    && walks != []
    && (forall i :: 0 <= i < |walks| ==> walks[i] == from + i * STOP_POLL)
    && (forall i :: 0 <= i < |walks| - 1 ==> GoesOn(world, pid, located, before, walks, i, from, within))
  }

  ghost predicate GoesOn(world: nat -> Moment, pid: nat, located: bool, before: set<Process>, walks: seq<nat>, i: int, from: nat, within: nat)
    requires 0 <= i < |walks|
  {
    walks[i] < from + within && !NothingLeft(world(walks[i]), located, SeenAfter(world, pid, before, walks[..i + 1]))
  }

  /** The next walk is due at `now`. */
  ghost predicate PollDue(world: nat -> Moment, pid: nat, located: bool, before: set<Process>, walks: seq<nat>, from: nat, within: nat,
                          now: nat) {
    && now == from + |walks| * STOP_POLL
    && (walks != [] ==>
          && Polls(world, pid, located, before, walks, from, within) && walks[|walks| - 1] < from + within
          && !NothingLeft(world(walks[|walks| - 1]), located, SeenAfter(world, pid, before, walks)))
  }

  lemma PollsNext(world: nat -> Moment, pid: nat, located: bool, before: set<Process>, walks: seq<nat>, from: nat, within: nat, now: nat)
    requires PollDue(world, pid, located, before, walks, from, within, now)
    ensures Polls(world, pid, located, before, walks + [now], from, within)
  {
    hide SeenAfter, NothingLeft;
    var next := walks + [now];
    forall i | 0 <= i < |walks|
      ensures GoesOn(world, pid, located, before, next, i, from, within)
    {
      assert next[..i + 1] == walks[..i + 1];
      if i < |walks| - 1 {
        assert GoesOn(world, pid, located, before, walks, i, from, within);
      } else {
        assert walks[..i + 1] == walks;
      }
    }
    forall i | 0 <= i < |next|
      ensures next[i] == from + i * STOP_POLL
    {
    }
  }

  lemma PollsGoOn(world: nat -> Moment, pid: nat, located: bool, before: set<Process>, walks: seq<nat>, from: nat, within: nat, now: nat)
    requires Polls(world, pid, located, before, walks, from, within) && now == walks[|walks| - 1] && now < from + within
    requires !NothingLeft(world(now), located, SeenAfter(world, pid, before, walks))
    ensures PollDue(world, pid, located, before, walks, from, within, now + STOP_POLL)
  {
    hide SeenAfter, NothingLeft;
    assert walks[|walks| - 1] == from + (|walks| - 1) * STOP_POLL;
  }

  lemma NoWalks(world: nat -> Moment, pid: nat, before: set<Process>)
    ensures SeenAfter(world, pid, before, []) == before
  {
  }

  lemma SeenNext(world: nat -> Moment, pid: nat, before: set<Process>, walks: seq<nat>, t: nat)
    ensures var seen := SeenAfter(world, pid, before, walks);
            SeenAfter(world, pid, before, walks + [t]) == seen + Found(world(t), pid, seen)
  {
    hide Found;
    assert (walks + [t])[..|walks|] == walks;
  }

  lemma {:induction false} SeenSplits(world: nat -> Moment, pid: nat, before: set<Process>, a: seq<nat>, b: seq<nat>)
    ensures SeenAfter(world, pid, before, a + b) == SeenAfter(world, pid, SeenAfter(world, pid, before, a), b)
    decreases |b|
  {
    hide Found;
    if b == [] {
      assert a + b == a;
    } else {
      var n := |b| - 1;
      SeenSplits(world, pid, before, a, b[..n]);
      assert a + b == (a + b[..n]) + [b[n]];
      SeenNext(world, pid, before, a + b[..n], b[n]);
    }
  }

  /** Walks are never more than `STOP_POLL` apart, the first one at `from`. */
  predicate Steady(walks: seq<nat>, from: nat) {
    && (walks != [] ==> walks[0] == from)
    && forall i :: 0 < i < |walks| ==> StepOk(walks, i)
  }

  predicate StepOk(walks: seq<nat>, i: int)
    requires 0 < i < |walks|
  {
    walks[i - 1] <= walks[i] <= walks[i - 1] + STOP_POLL
  }

  lemma SteadyOn(a: seq<nat>, b: seq<nat>, from: nat, now: nat)
    requires Steady(a, from) && Steady(b, now) && b != []
    requires if a == [] then now == from else a[|a| - 1] <= now <= a[|a| - 1] + STOP_POLL
    ensures Steady(a + b, from)
  {
    forall i | 0 < i < |a + b|
      ensures StepOk(a + b, i)
    {
      assert i < |a| ==> StepOk(a, i);
      assert i > |a| ==> StepOk(b, i - |a|);
    }
  }

  lemma PollsAreSteady(world: nat -> Moment, pid: nat, located: bool, before: set<Process>, walks: seq<nat>, from: nat, within: nat)
    requires Polls(world, pid, located, before, walks, from, within)
    ensures Steady(walks, from)
  {
    hide SeenAfter, NothingLeft;
    forall i | 0 < i < |walks|
      ensures StepOk(walks, i)
    {
      assert walks[i] == from + i * STOP_POLL && walks[i - 1] == from + (i - 1) * STOP_POLL;
    }
  }

  /** Each signal was sent after some of the walks, while something was left. */
  ghost predicate AllReached(world: nat -> Moment, pid: nat, daemon: nat, scope: Option<string>, was: bool,
                             before: set<Process>, walks: seq<nat>, signals: seq<Sent>) {
    forall k :: 0 <= k < |signals| ==>
      ReachedAfter(world, pid, daemon, Named(world, scope, was, signals[..k + 1]), before, walks, signals[k])
  }

  lemma ReachedStays(world: nat -> Moment, pid: nat, daemon: nat, scope: Option<string>, was: bool, before: set<Process>,
                     a: seq<nat>, b: seq<nat>, signals: seq<Sent>)
    requires AllReached(world, pid, daemon, scope, was, before, a, signals) && a <= b
    ensures AllReached(world, pid, daemon, scope, was, before, b, signals)
  {
    hide Reached, Named;
    forall k | 0 <= k < |signals|
      ensures ReachedAfter(world, pid, daemon, Named(world, scope, was, signals[..k + 1]), before, b, signals[k])
    {
      var located := Named(world, scope, was, signals[..k + 1]);
      assert ReachedAfter(world, pid, daemon, located, before, a, signals[k]);
      var n :| 0 <= n <= |a| && Reached(world, pid, daemon, located, before, a[..n], signals[k]);
      assert b[..n] == a[..n];
    }
  }

  /** What is signalled was seen and still is the process that was seen. */
  lemma TargetsAreSeen(world: nat -> Moment, pid: nat, daemon: nat, scope: Option<string>, was: bool, before: set<Process>,
                       walks: seq<nat>, signals: seq<Sent>)
    requires AllReached(world, pid, daemon, scope, was, before, walks, signals)
    ensures forall k, target :: 0 <= k < |signals| && target in signals[k].targets ==>
              && MayBeKilled(target, daemon)
              && world(signals[k].at).table.RunsOf(SeenAfter(world, pid, before, walks), target)
  {
    hide SeenAfter, Named, NothingLeft;
    forall k, target | 0 <= k < |signals| && target in signals[k].targets
      ensures MayBeKilled(target, daemon)
      ensures world(signals[k].at).table.RunsOf(SeenAfter(world, pid, before, walks), target)
    {
      var located := Named(world, scope, was, signals[..k + 1]);
      assert ReachedAfter(world, pid, daemon, located, before, walks, signals[k]);
      var n :| 0 <= n <= |walks| && Reached(world, pid, daemon, located, before, walks[..n], signals[k]);
      SeenStays(world, pid, before, walks, n);
    }
  }

  class TurnProcess {
    const pid: nat
    const daemon: nat
    /** What the machine looks like at each millisecond. */
    const world: nat -> Moment
    const tree: Tree
    /** The unit of the scope it was started in, if it was. */
    const scope: Option<string>
    var now: nat
    var signals: seq<Sent>
    /** The scope's cgroup is known. */
    var located: bool
    /** The unit the service manager was told to stop at the end. */
    var released: Option<string>
    /** When the tree was walked. */
    ghost var walks: seq<nat>

    constructor (pid: nat, daemon: nat, scope: Option<string>, world: nat -> Moment)
      ensures this.pid == pid && this.daemon == daemon && this.scope == scope && this.world == world
      ensures fresh(tree) && tree.seen == [] && now == 0 && signals == [] && walks == [] && !located && released == None
    {
      this.pid, this.daemon, this.scope, this.world := pid, daemon, scope, world;
      tree := new Tree();
      now, signals, walks, located, released := 0, [], [], false, None;
    }

    ghost function Seen(): set<Process>
      reads this, tree
    {
      Elements(tree.seen)
    }

    /** Whether a stop has nothing more to do. */
    method Gone() returns (gone: bool)
      ensures gone <==> NothingLeft(world(now), located, Seen())
    {
      var m := world(now);
      AliveInMeans(m.table, tree.seen);
      var alive := AliveIn(m.table, tree.seen);
      gone := m.exited && !m.groupAlive && alive == [] && !(located && m.scopePopulated);
      assert alive != [] ==> alive[0] in alive;
    }

    /** Learn the scope's cgroup, unless it is known or has no name yet. */
    method Locate()
      modifies this`located
      ensures located == (old(located) || (scope.Some? && world(now).scopeNamed))
    {
      if !located && scope.Some? {
        located := world(now).scopeNamed;
      }
    }

    /** One more walk, at this moment. */
    method Grow()
      modifies tree, this`walks
      ensures walks == old(walks) + [now]
      ensures Seen() == old(Seen()) + Found(world(now), pid, old(Seen()))
    {
      var root := if world(now).exited then None else Some(pid);
      tree.Grow(world(now).table, root);
      walks := walks + [now];
    }

    /** Signal the group, and every process seen that still runs. */
    method SendSignal(stop: StopSignal)
      modifies this`signals
      ensures |signals| == |old(signals)| + 1 && signals[..|old(signals)|] == old(signals)
      ensures var sent := signals[|old(signals)|];
              && sent.stop == stop && sent.at == now && sent.group == GroupTarget(pid) && sent.scope == scope
              && forall target :: target in sent.targets <==> Aims(world(now), daemon, Seen(), target)
    {
      var targets := tree.Signal(world(now).table, daemon);
      signals := signals + [Sent(stop, now, GroupTarget(pid), targets, scope)];
    }

    /** Wait up to `within` for everything to be gone, walking as it goes. */
    method WaitGone(within: nat) returns (gone: bool)
      modifies this`now, this`walks, tree
      ensures old(walks) < walks && walks[|walks| - 1] == now
      ensures Polls(world, pid, located, old(Seen()), walks[|old(walks)|..], old(now), within)
      ensures Seen() == SeenAfter(world, pid, old(Seen()), walks[|old(walks)|..])
      ensures gone <==> NothingLeft(world(now), located, Seen())
      ensures !gone ==> now >= old(now) + within
      ensures old(now) <= now < old(now) + within + STOP_POLL
    {
      hide Found, NothingLeft, SeenAfter, Polls;
      var deadline := now + within;
      ghost var n := |walks|;
      assert walks[n..] == [];
      NoWalks(world, pid, Seen());
      while true
        invariant old(walks) <= walks && old(now) <= now < deadline + STOP_POLL
        invariant Seen() == SeenAfter(world, pid, old(Seen()), walks[n..])
        invariant PollDue(world, pid, located, old(Seen()), walks[n..], old(now), within, now)
        decreases deadline + STOP_POLL - now
      {
        ghost var before := walks[n..];
        Grow();
        assert walks[n..] == before + [now];
        SeenNext(world, pid, old(Seen()), before, now);
        PollsNext(world, pid, located, old(Seen()), before, old(now), within, now);
        var gone := Gone();
        if gone {
          return true;
        }
        if now >= deadline {
          return false;
        }
        PollsGoOn(world, pid, located, old(Seen()), walks[n..], old(now), within, now);
        now := now + STOP_POLL;
      }
    }

    /** The signals in turn, as long as a stop has more to do, each after the
        grace of the one before; then the scope's unit is stopped, come what
        may. */
    method Escalate(graces: seq<nat>) returns (ok: bool)
      requires |graces| == |STOP_SIGNALS| && signals == [] && walks == []
      modifies this`now, this`signals, this`walks, this`located, this`released, tree
      ensures ok <==> NothingLeft(world(now), located, Seen())
      ensures Steady(walks, old(now)) && walks != [] && walks[|walks| - 1] == now
      ensures Seen() == SeenAfter(world, pid, old(Seen()), walks)
      ensures |signals| <= 3 && (!ok ==> |signals| == 3) && (signals == [] ==> now == old(now))
      ensures forall k :: 0 <= k < |signals| ==> signals[k].stop == [Interrupt, Terminate, Kill][k] && signals[k].scope == scope
      ensures AllReached(world, pid, daemon, scope, old(located), old(Seen()), walks, signals)
      ensures forall k :: 0 < k < |signals| ==> signals[k].at >= signals[k - 1].at + graces[k - 1]
      ensures now <= old(now) + graces[0] + graces[1] + graces[2] + 3 * STOP_POLL
      ensures forall k, target: int :: 0 <= k < |signals| && target in signals[k].targets ==>
                var stats := world(signals[k].at).table.stats;
                && 1 < target <= 0x7fff_ffff && target != daemon
                && target in stats && stats[target].state != 'Z' && Process(target, stats[target].start) in Seen()
      ensures ok <==>
                && world(now).exited && !world(now).groupAlive && (located ==> !world(now).scopePopulated)
                && forall p :: p in Seen() && p.pid in world(now).table.stats ==>
                     var stat := world(now).table.stats[p.pid]; stat.start != p.start || stat.state == 'Z'
      ensures released == scope
      ensures located ==> old(located) || scope.Some?
      ensures forall k :: 0 <= k < |signals| && scope.Some? && world(signals[k].at).scopeNamed ==> located
    {
      hide SeenAfter, Steady, GroupTarget;
      ghost var before, was := Seen(), located;
      ok := EscalateSignals(graces);
      TargetsAreSeen(world, pid, daemon, scope, was, before, walks, signals);
      released := scope;
    }

    method EscalateSignals(graces: seq<nat>) returns (ok: bool)
      requires |graces| == |STOP_SIGNALS| && signals == [] && walks == []
      modifies this`now, this`signals, this`walks, this`located, tree
      ensures ok <==> NothingLeft(world(now), located, Seen())
      ensures Steady(walks, old(now)) && walks != [] && walks[|walks| - 1] == now
      ensures Seen() == SeenAfter(world, pid, old(Seen()), walks)
      ensures |signals| <= 3 && (!ok ==> |signals| == 3) && (signals == [] ==> now == old(now))
      ensures forall k :: 0 <= k < |signals| ==> signals[k].stop == [Interrupt, Terminate, Kill][k] && signals[k].scope == scope
      ensures AllReached(world, pid, daemon, scope, old(located), old(Seen()), walks, signals)
      ensures forall k :: 0 < k < |signals| ==> signals[k].at >= signals[k - 1].at + graces[k - 1]
      ensures now <= old(now) + graces[0] + graces[1] + graces[2] + 3 * STOP_POLL
      ensures located ==> old(located) || scope.Some?
      ensures forall k :: 0 <= k < |signals| && scope.Some? && world(signals[k].at).scopeNamed ==> located
    {
      hide Found, NothingLeft, SeenAfter, Polls, AllReached, Aims, Steady, GroupTarget, Named;
      ghost var before, was := Seen(), located;
      NothingSent(world, pid, daemon, scope, was, before, now);
      for k := 0 to 3
        invariant |signals| == k && SoFar(was, before, old(now)) && located == Named(world, scope, was, signals)
        invariant if k > 0 then walks != [] else now == old(now)
        invariant forall i :: 0 <= i < k ==> signals[i].stop == STOP_SIGNALS[i] && signals[i].scope == scope
        invariant located ==> old(located) || scope.Some?
        invariant forall i :: 0 <= i < k && scope.Some? && world(signals[i].at).scopeNamed ==> located
        invariant forall i :: 0 < i < k ==> signals[i].at >= signals[i - 1].at + graces[i - 1]
        invariant k > 0 ==> now >= signals[k - 1].at + graces[k - 1]
        invariant now <= old(now) + SumTo(graces, k) + k * STOP_POLL
        invariant k > 0 ==> !NothingLeft(world(now), located, Seen())
      {
        assert SumTo(graces, k) <= SumTo(graces, k + 1) <= SumTo(graces, 3);
        var gone := Round(STOP_SIGNALS[k], graces[k], was, before, old(now));
        if gone {
          return true;
        }
      }
      return false;
    }

    /** What was walked and signalled since `from`, when `before` was seen and the
        cgroup was known or not. */
    ghost predicate SoFar(was: bool, before: set<Process>, from: nat)
      reads this, tree
    {
      && Steady(walks, from) && (if walks == [] then now == from else walks[|walks| - 1] == now)
      && Seen() == SeenAfter(world, pid, before, walks)
      && AllReached(world, pid, daemon, scope, was, before, walks, signals)
    }

    /** One signal, unless nothing is left before it, and the wait after it. */
    method Round(stop: StopSignal, grace: nat, ghost was: bool, ghost before: set<Process>, ghost from: nat)
      returns (gone: bool)
      requires SoFar(was, before, from) && located == Named(world, scope, was, signals)
      modifies this`now, this`signals, this`walks, this`located, tree
      ensures SoFar(was, before, from) && walks != [] && (!gone ==> located == Named(world, scope, was, signals))
      ensures gone <==> NothingLeft(world(now), located, Seen())
      ensures located == (old(located) || (scope.Some? && world(old(now)).scopeNamed))
      ensures old(signals) <= signals && |signals| <= |old(signals)| + 1 && (!gone ==> |signals| > |old(signals)|)
      ensures |signals| == |old(signals)| ==> now == old(now)
      ensures |signals| > |old(signals)| ==>
                var sent := signals[|old(signals)|]; sent.stop == stop && sent.scope == scope && sent.at == old(now)
      ensures old(now) <= now < old(now) + grace + STOP_POLL && (!gone ==> now >= old(now) + grace)
    {
      hide Found, NothingLeft, SeenAfter, Polls, AllReached, Aims, Steady, GroupTarget, Named;
      ghost var w0, s0 := walks, signals;
      Locate();
      Grow();
      GrowSteady(w0, from, now);
      SeenNext(world, pid, before, w0, now);
      ghost var w1 := walks;
      ReachedStays(world, pid, daemon, scope, was, before, w0, w1, s0);
      gone := Gone();
      if gone {
        return;
      }
      SendSignal(stop);
      ghost var s1, asked := signals, now;
      NamedNext(world, scope, was, s0, s1[|s0|]);
      ReachedNow(world, pid, daemon, scope, was, before, w1, s0, s1[|s0|]);
      assert s1 == s0 + [s1[|s0|]];
      gone := WaitGone(grace);
      ghost var w2 := walks[|w1|..];
      assert walks == w1 + w2;
      PollsAreSteady(world, pid, located, SeenAfter(world, pid, before, w1), w2, asked, grace);
      PollsNonempty(world, pid, located, SeenAfter(world, pid, before, w1), w2, asked, grace);
      SteadyOn(w1, w2, from, asked);
      SeenSplits(world, pid, before, w1, w2);
      ReachedStays(world, pid, daemon, scope, was, before, w1, walks, s1);
    }
  }

  lemma NothingSent(world: nat -> Moment, pid: nat, daemon: nat, scope: Option<string>, was: bool, before: set<Process>, from: nat)
    ensures Steady([], from) && AllReached(world, pid, daemon, scope, was, before, [], []) && Named(world, scope, was, []) == was
    ensures SeenAfter(world, pid, before, []) == before
  {
  }

  lemma GrowSteady(walks: seq<nat>, from: nat, now: nat)
    requires Steady(walks, from) && if walks == [] then now == from else walks[|walks| - 1] == now
    ensures Steady(walks + [now], from)
  {
    SteadyOn(walks, [now], from, now);
  }

  lemma PollsNonempty(world: nat -> Moment, pid: nat, located: bool, before: set<Process>, walks: seq<nat>, from: nat, within: nat)
    requires Polls(world, pid, located, before, walks, from, within)
    ensures walks != []
  {
  }

  lemma NamedNext(world: nat -> Moment, scope: Option<string>, was: bool, signals: seq<Sent>, s: Sent)
    ensures Named(world, scope, was, signals + [s])
         == (Named(world, scope, was, signals) || (scope.Some? && world(s.at).scopeNamed))
  {
    var all := signals + [s];
    assert all[|signals|] == s;
    if j :| 0 <= j < |signals| && world(signals[j].at).scopeNamed {
      assert world(all[j].at).scopeNamed;
    }
  }

  lemma ReachedNow(world: nat -> Moment, pid: nat, daemon: nat, scope: Option<string>, was: bool, before: set<Process>,
                   walks: seq<nat>, signals: seq<Sent>, s: Sent)
    requires AllReached(world, pid, daemon, scope, was, before, walks, signals)
    requires walks != [] && walks[|walks| - 1] == s.at && s.group == GroupTarget(pid)
    requires !NothingLeft(world(s.at), Named(world, scope, was, signals + [s]), SeenAfter(world, pid, before, walks))
    requires forall target :: target in s.targets <==> Aims(world(s.at), daemon, SeenAfter(world, pid, before, walks), target)
    ensures AllReached(world, pid, daemon, scope, was, before, walks, signals + [s])
  {
    hide Aims, SeenAfter, NothingLeft, Named;
    var all := signals + [s];
    assert all[..|all|] == all && walks[..|walks|] == walks;
    assert Reached(world, pid, daemon, Named(world, scope, was, all), before, walks[..|walks|], s);
    forall k | 0 <= k < |signals|
      ensures ReachedAfter(world, pid, daemon, Named(world, scope, was, all[..k + 1]), before, walks, all[k])
    {
      assert all[..k + 1] == signals[..k + 1];
    }
  }

  function SumTo(graces: seq<nat>, k: nat): nat
    requires k <= 3 == |graces|
  {
    (if k > 0 then graces[0] else 0) + (if k > 1 then graces[1] else 0) + (if k > 2 then graces[2] else 0)
  }

  lemma DescendsMore(t: Table, from: set<nat>, more: set<nat>, p: Process)
    requires Descends(t, from, p) && from <= more
    ensures Descends(t, more, p)
  {
    var parent :| Reaches(t, from, parent) && t.Edge(parent, p.pid);
    var path :| Connects(t, path, from, parent);
    assert Connects(t, path, more, parent);
  }
}
