/** The advisory-lock mutex between manual and scheduled runs of a cron. Any number of invocations, in web and worker
    processes alike, interleave step by step; an invocation may die anywhere, and its lock connection with it, or lose
    that connection and live on. */
module CronLock {
  type Pid = nat
  type RunId = nat

  // The bigint key of a cron name: any function, injective or not.
  type KeyFn = string -> int

  // Where an invocation is. Locked: got the lock; Running: its row is committed and the runner executes;
  // Ran: the runner is over, the row not closed yet; Releasing: about to unlock.
  datatype Pc =
    | Idle
    | Trying(cron: string)
    | Locked(cron: string)
    | Running(cron: string, run: RunId)
    | Ran(cron: string, run: RunId, ok: bool)
    | Releasing(cron: string)
    | Dead
  {
    predicate Holds() { Locked? || Running? || Ran? || Releasing? }

    predicate Owns(r: RunId) { (Running? || Ran?) && run == r }
  }

  datatype RunStatus = RunningRow | SuccessRow | FailedRow
  datatype RunRow = RunRow(cron: string, status: RunStatus)

  // lost and stray are history: the invocations whose lock connection dropped since they last tried the lock, and
  // the runs whose row was left behind by a fault.
  datatype State = State(
    pcs: map<Pid, Pc>, locks: map<int, Pid>, rows: map<RunId, RunRow>, paused: set<string>, lost: set<Pid>, stray: set<RunId>)

  datatype Step =
    | StartManual(pid: Pid, cron: string)
    | StartScheduled(pid: Pid, cron: string)
    | TryLock(pid: Pid)
    | OpenRun(pid: Pid, run: RunId)
    | OpenFails(pid: Pid)
    | Finish(pid: Pid, ok: bool)
    | CloseRun(pid: Pid)
    | CloseFails(pid: Pid)
    | Unlock(pid: Pid)
    | Crash(pid: Pid)
    | Lose(pid: Pid)
    | SetPaused(cron: string, pause: bool)
  {
    // A fault leaves the row of a run behind, or its lock.
    predicate Fault() { Crash? || CloseFails? || Lose? }
  }

  predicate At(s: State, p: Pid) {
    p in s.pcs
  }

  predicate Enabled(s: State, step: Step) {
    match step
    case StartManual(p, _) => At(s, p) && s.pcs[p].Idle?
    case StartScheduled(p, _) => At(s, p) && s.pcs[p].Idle?
    case TryLock(p) => At(s, p) && s.pcs[p].Trying?
    case OpenRun(p, r) => At(s, p) && s.pcs[p].Locked? && r !in s.rows
    case OpenFails(p) => At(s, p) && s.pcs[p].Locked?
    case Finish(p, _) => At(s, p) && s.pcs[p].Running?
    case CloseRun(p) => At(s, p) && s.pcs[p].Ran? && s.pcs[p].run in s.rows
    case CloseFails(p) => At(s, p) && s.pcs[p].Ran?
    case Unlock(p) => At(s, p) && s.pcs[p].Releasing?
    case Crash(p) => At(s, p) && !s.pcs[p].Dead?
    case Lose(p) => At(s, p) && s.pcs[p].Holds()
    case SetPaused(_, _) => true
  }

  function Goto(s: State, p: Pid, pc: Pc): State {
    s.(pcs := s.pcs[p := pc])
  }

  // A session gives up what it holds, and nothing else.
  function Released(locks: map<int, Pid>, p: Pid): map<int, Pid> {
    map k | k in locks && locks[k] != p :: locks[k]
  }

  function Next(key: KeyFn, s: State, step: Step): State
    requires Enabled(s, step)
  {
    match step
    case StartManual(p, c) => Goto(s, p, Trying(c))
    case StartScheduled(p, c) => if c in s.paused then s else Goto(s, p, Trying(c))
    case TryLock(p) =>
      var c := s.pcs[p].cron;
      var tried := s.(lost := s.lost - {p});
      if key(c) in s.locks then Goto(tried, p, Idle) else Goto(tried, p, Locked(c)).(locks := s.locks[key(c) := p])
    case OpenRun(p, r) =>
      Goto(s, p, Running(s.pcs[p].cron, r)).(rows := s.rows[r := RunRow(s.pcs[p].cron, RunningRow)])
    case OpenFails(p) => Goto(s, p, Releasing(s.pcs[p].cron))
    case Finish(p, ok) => Goto(s, p, Ran(s.pcs[p].cron, s.pcs[p].run, ok))
    case CloseRun(p) =>
      var pc := s.pcs[p];
      Goto(s, p, Releasing(pc.cron)).(rows := s.rows[pc.run := RunRow(pc.cron, if pc.ok then SuccessRow else FailedRow)])
    case CloseFails(p) => Goto(s, p, Releasing(s.pcs[p].cron)).(stray := s.stray + {s.pcs[p].run})
    case Unlock(p) => Goto(s, p, Idle).(locks := Released(s.locks, p))
    case Crash(p) =>
      var pc := s.pcs[p];
      Goto(s, p, Dead).(locks := Released(s.locks, p), stray := if pc.Running? || pc.Ran? then s.stray + {pc.run} else s.stray)
    case Lose(p) => s.(locks := Released(s.locks, p), lost := s.lost + {p})
    case SetPaused(c, pause) => s.(paused := if pause then s.paused + {c} else s.paused - {c})
  }

  ghost predicate Run(key: KeyFn, states: seq<State>, steps: seq<Step>) {
    |states| == |steps| + 1 &&
    forall i :: 0 <= i < |steps| ==> Enabled(states[i], steps[i]) && states[i + 1] == Next(key, states[i], steps[i])
  }

  // Everyone idle, no lock, no row.
  ghost predicate Initial(s: State) {
    s.locks == map[] && s.rows == map[] && s.lost == {} && s.stray == {} && forall p <- s.pcs :: s.pcs[p].Idle?
  }

  // ---- the invariant ----

  // Holders that kept their connection have their lock.
  ghost predicate HoldersLock(key: KeyFn, s: State) {
    forall p <- s.pcs :: s.pcs[p].Holds() && p !in s.lost ==> key(s.pcs[p].cron) in s.locks && s.locks[key(s.pcs[p].cron)] == p
  }

  // And a lock is that of such a holder.
  ghost predicate LocksHeld(key: KeyFn, s: State) {
    forall k <- s.locks ::
      var p := s.locks[k]; p in s.pcs && p !in s.lost && s.pcs[p].Holds() && key(s.pcs[p].cron) == k
  }

  ghost predicate Owned(s: State, r: RunId) {
    exists p <- s.pcs :: s.pcs[p].Owns(r) && r in s.rows && s.rows[r].cron == s.pcs[p].cron
  }

  // A RUNNING row is owned by an invocation that is at it, or was left behind by a fault.
  ghost predicate RowsOwned(s: State) {
    && (forall r <- s.rows :: s.rows[r].status.RunningRow? ==> r in s.stray || Owned(s, r))
    && (forall p <- s.pcs :: s.pcs[p].Running? || s.pcs[p].Ran? ==>
          s.pcs[p].run in s.rows && s.rows[s.pcs[p].run] == RunRow(s.pcs[p].cron, RunningRow))
    && (forall p, q :: p in s.pcs && q in s.pcs && p != q && (s.pcs[p].Running? || s.pcs[p].Ran?) && (s.pcs[q].Running? || s.pcs[q].Ran?)
          ==> s.pcs[p].run != s.pcs[q].run)
  }

  ghost predicate Inv(key: KeyFn, s: State) {
    HoldersLock(key, s) && LocksHeld(key, s) && RowsOwned(s)
  }

  lemma NextKeepsHolders(key: KeyFn, s: State, step: Step)
    requires HoldersLock(key, s) && LocksHeld(key, s) && Enabled(s, step)
    ensures HoldersLock(key, Next(key, s, step))
  {
  }

  lemma NextKeepsLocks(key: KeyFn, s: State, step: Step)
    requires HoldersLock(key, s) && LocksHeld(key, s) && Enabled(s, step)
    ensures LocksHeld(key, Next(key, s, step))
  {
  }

  lemma RowStaysOwned(key: KeyFn, s: State, step: Step, r: RunId)
    requires RowsOwned(s) && Enabled(s, step)
    ensures var t := Next(key, s, step); r in t.rows && t.rows[r].status.RunningRow? ==> r in t.stray || Owned(t, r)
  {
    var t := Next(key, s, step);
    if step.OpenRun? && step.run == r {
      assert t.pcs[step.pid].Owns(r);
    } else if r in s.rows && s.rows[r].status.RunningRow? && r !in s.stray {
      var p :| p in s.pcs && s.pcs[p].Owns(r) && s.rows[r].cron == s.pcs[p].cron;
      assert p in t.pcs && (t.pcs[p].Owns(r) || t.pcs[p] != s.pcs[p]);
    }
  }

  lemma NextKeepsRows(key: KeyFn, s: State, step: Step)
    requires RowsOwned(s) && Enabled(s, step)
    ensures RowsOwned(Next(key, s, step))
  {
    var t := Next(key, s, step);
    forall r | r in t.rows && t.rows[r].status.RunningRow? ensures r in t.stray || Owned(t, r) { RowStaysOwned(key, s, step, r); }
  }

  lemma {:induction false} RunKeepsInv(key: KeyFn, states: seq<State>, steps: seq<Step>, i: nat)
    requires Run(key, states, steps) && Initial(states[0]) && i <= |steps|
    ensures Inv(key, states[i])
  {
    if i > 0 {
      RunKeepsInv(key, states, steps, i - 1);
      NextKeepsHolders(key, states[i - 1], steps[i - 1]);
      NextKeepsLocks(key, states[i - 1], steps[i - 1]);
      NextKeepsRows(key, states[i - 1], steps[i - 1]);
    }
  }

  // ---- what the lock gives ----

  // The connection of p dropped after p last tried the lock.
  ghost predicate Dropped(steps: seq<Step>, i: nat, p: Pid)
    requires i <= |steps|
  {
    exists j :: 0 <= j < i && steps[j] == Lose(p) && forall k :: j < k < i ==> steps[k] != TryLock(p)
  }

  lemma {:induction false} LostIsDropped(key: KeyFn, states: seq<State>, steps: seq<Step>, i: nat, p: Pid)
    requires Run(key, states, steps) && Initial(states[0]) && i <= |steps|
    ensures p in states[i].lost <==> Dropped(steps, i, p)
  {
    if i > 0 {
      LostIsDropped(key, states, steps, i - 1, p);
      var last := steps[i - 1];
      assert states[i].lost == match last
        case TryLock(q) => states[i - 1].lost - {q}
        case Lose(q) => states[i - 1].lost + {q}
        case _ => states[i - 1].lost;
      if last != TryLock(p) && Dropped(steps, i - 1, p) {
        var j :| 0 <= j < i - 1 && steps[j] == Lose(p) && forall k :: j < k < i - 1 ==> steps[k] != TryLock(p);
        assert forall k :: j < k < i ==> steps[k] != TryLock(p);
      }
      if last == Lose(p) { assert Dropped(steps, i, p); }
    }
  }

  /** In every reachable state, whoever executes a cron holds its lock exactly when its connection has not dropped. */
  lemma HoldsExactly(key: KeyFn, states: seq<State>, steps: seq<Step>, i: nat, p: Pid)
    requires Run(key, states, steps) && Initial(states[0]) && i <= |steps|
    requires p in states[i].pcs && states[i].pcs[p].Holds()
    ensures var k, locks := key(states[i].pcs[p].cron), states[i].locks;
      k in locks && locks[k] == p <==> !Dropped(steps, i, p)
  {
    RunKeepsInv(key, states, steps, i);
    LostIsDropped(key, states, steps, i, p);
  }

  /** Two invocations never execute crons of the same key, except when the lock connection of one of them dropped; so
      while connections last, at most one run of a cron executes at a time. */
  lemma MutualExclusion(key: KeyFn, states: seq<State>, steps: seq<Step>, i: nat, p: Pid, q: Pid)
    requires Run(key, states, steps) && Initial(states[0]) && i <= |steps|
    requires p in states[i].pcs && q in states[i].pcs && states[i].pcs[p].Running? && states[i].pcs[q].Running?
    requires key(states[i].pcs[p].cron) == key(states[i].pcs[q].cron) && p != q
    ensures Dropped(steps, i, p) || Dropped(steps, i, q)
  {
    HoldsExactly(key, states, steps, i, p);
    HoldsExactly(key, states, steps, i, q);
  }

  lemma {:induction false} StrayOnlyByFaults(key: KeyFn, states: seq<State>, steps: seq<Step>, i: nat)
    requires Run(key, states, steps) && Initial(states[0]) && i <= |steps|
    requires forall j :: 0 <= j < i ==> !steps[j].Fault()
    ensures states[i].stray == {}
  {
    if i > 0 { StrayOnlyByFaults(key, states, steps, i - 1); }
  }

  // The run is executed by an invocation that lost its lock.
  ghost predicate Unlocked(steps: seq<Step>, s: State, i: nat, r: RunId)
    requires i <= |steps|
  {
    exists p <- s.pcs :: s.pcs[p].Owns(r) && Dropped(steps, i, p)
  }

  /** With faults, a row that says RUNNING while nobody holds the lock is one a fault left behind, or one whose
      invocation lost its connection and is still at it. */
  lemma RunningRowIsOwnedOrStray(key: KeyFn, states: seq<State>, steps: seq<Step>, i: nat, r: RunId)
    requires Run(key, states, steps) && Initial(states[0]) && i <= |steps|
    requires r in states[i].rows && states[i].rows[r].status.RunningRow?
    ensures r in states[i].stray || key(states[i].rows[r].cron) in states[i].locks || Unlocked(steps, states[i], i, r)
  {
    RunKeepsInv(key, states, steps, i);
    var s := states[i];
    if r !in s.stray {
      var p :| p in s.pcs && s.pcs[p].Owns(r) && s.rows[r].cron == s.pcs[p].cron;
      HoldsExactly(key, states, steps, i, p);
    }
  }

  /** Without crashes, failed closes and lost connections, a free lock means that no row of the cron says RUNNING. */
  lemma FreeLockNoRunningRow(key: KeyFn, states: seq<State>, steps: seq<Step>, i: nat, r: RunId)
    requires Run(key, states, steps) && Initial(states[0]) && i <= |steps|
    requires forall j :: 0 <= j < i ==> !steps[j].Fault()
    requires r in states[i].rows && key(states[i].rows[r].cron) !in states[i].locks
    ensures !states[i].rows[r].status.RunningRow?
  {
    StrayOnlyByFaults(key, states, steps, i);
    if states[i].rows[r].status.RunningRow? {
      RunningRowIsOwnedOrStray(key, states, steps, i, r);
    }
  }

  predicate Refused(key: KeyFn, s: State, p: Pid)
    requires Enabled(s, TryLock(p))
  {
    Next(key, s, TryLock(p)).pcs[p].Idle?
  }

  ghost predicate InFlight(s: State, c: string, p: Pid) {
    p in s.pcs && s.pcs[p].Holds() && s.pcs[p].cron == c
  }

  /** A start is refused exactly when an invocation whose connection has not dropped is at a cron of the same key. So
      whatever the key function, a second run of the same cron is then refused, and a key that two names share only
      refuses more. */
  lemma RefusedExactly(key: KeyFn, states: seq<State>, steps: seq<Step>, i: nat, p: Pid)
    requires Run(key, states, steps) && Initial(states[0]) && i <= |steps| && Enabled(states[i], TryLock(p))
    ensures Refused(key, states[i], p) <==>
      exists q, d :: InFlight(states[i], d, q) && !Dropped(steps, i, q) && key(d) == key(states[i].pcs[p].cron)
  {
    RunKeepsInv(key, states, steps, i);
    var s, k := states[i], key(states[i].pcs[p].cron);
    if k in s.locks {
      HoldsExactly(key, states, steps, i, s.locks[k]);
      assert InFlight(s, s.pcs[s.locks[k]].cron, s.locks[k]);
    } else {
      forall q, d | InFlight(s, d, q) && key(d) == k ensures Dropped(steps, i, q) { HoldsExactly(key, states, steps, i, q); }
    }
  }

  /** A crash frees every lock of the invocation that died: unless its connection had dropped before, the next try for
      its cron succeeds. */
  lemma CrashFreesTheLock(key: KeyFn, states: seq<State>, steps: seq<Step>, i: nat, p: Pid, c: string)
    requires Run(key, states, steps) && Initial(states[0]) && i <= |steps|
    requires Enabled(states[i], Crash(p)) && InFlight(states[i], c, p)
    ensures var locks := Next(key, states[i], Crash(p)).locks;
      (forall k <- locks :: locks[k] != p) && (key(c) in locks ==> Dropped(steps, i, p))
  {
    RunKeepsInv(key, states, steps, i);
    HoldsExactly(key, states, steps, i, p);
  }

  // ---- what starts, and what its row tells ----

  // c was switched off before step i, and not on again.
  ghost predicate SwitchedOff(steps: seq<Step>, i: nat, c: string)
    requires i <= |steps|
  {
    exists j :: 0 <= j < i && steps[j] == SetPaused(c, true) && forall k :: j < k < i ==> steps[k] != SetPaused(c, false)
  }

  lemma {:induction false} PausedExactly(key: KeyFn, states: seq<State>, steps: seq<Step>, i: nat, c: string)
    requires Run(key, states, steps) && c !in states[0].paused && i <= |steps|
    ensures c in states[i].paused <==> SwitchedOff(steps, i, c)
  {
    if i > 0 {
      PausedExactly(key, states, steps, i - 1, c);
      var last := steps[i - 1];
      assert states[i].paused == match last
        case SetPaused(d, pause) => if pause then states[i - 1].paused + {d} else states[i - 1].paused - {d}
        case _ => states[i - 1].paused;
      if last != SetPaused(c, false) && SwitchedOff(steps, i - 1, c) {
        var j :| 0 <= j < i - 1 && steps[j] == SetPaused(c, true) && forall k :: j < k < i - 1 ==> steps[k] != SetPaused(c, false);
        assert forall k :: j < k < i ==> steps[k] != SetPaused(c, false);
      }
      if last == SetPaused(c, true) { assert SwitchedOff(steps, i, c); }
    }
  }

  /** A scheduled tick goes for the lock exactly when its cron is not switched off, and otherwise leaves no trace; a
      manual start goes for it always. */
  lemma StartsExactly(key: KeyFn, states: seq<State>, steps: seq<Step>, i: nat, p: Pid, c: string)
    requires Run(key, states, steps) && c !in states[0].paused && i <= |steps| && Enabled(states[i], StartScheduled(p, c))
    ensures var s := states[i];
      && (SwitchedOff(steps, i, c) ==> Next(key, s, StartScheduled(p, c)) == s)
      && (!SwitchedOff(steps, i, c) ==> Next(key, s, StartScheduled(p, c)).pcs[p] == Trying(c))
      && Next(key, s, StartManual(p, c)).pcs[p] == Trying(c)
  {
    PausedExactly(key, states, steps, i, c);
  }

  // From j to i the invocation waits to close its row.
  ghost predicate Waits(states: seq<State>, p: Pid, j: nat, i: nat)
    requires j <= i < |states|
  {
    forall k :: j <= k <= i ==> p in states[k].pcs && states[k].pcs[p].Ran?
  }

  lemma {:induction false} WaitingStays(key: KeyFn, states: seq<State>, steps: seq<Step>, p: Pid, j: nat, i: nat)
    requires Run(key, states, steps) && j <= i <= |steps| && Waits(states, p, j, i)
    ensures states[i].pcs[p] == states[j].pcs[p]
  {
    if j < i {
      WaitingStays(key, states, steps, p, j, i - 1);
      assert states[i - 1].pcs[p].Ran?;
    }
  }

  /** The row of a run ends SUCCESS exactly when its runner did not raise, under the name of its cron. */
  lemma RowTellsRun(key: KeyFn, states: seq<State>, steps: seq<Step>, p: Pid, ok: bool, j: nat, i: nat)
    requires Run(key, states, steps) && j < i < |steps| && steps[j] == Finish(p, ok) && steps[i] == CloseRun(p)
    requires Waits(states, p, j + 1, i)
    ensures p in states[j].pcs && states[j].pcs[p].Running?
    ensures var pc := states[j].pcs[p];
      pc.run in states[i + 1].rows && states[i + 1].rows[pc.run] == RunRow(pc.cron, if ok then SuccessRow else FailedRow)
  {
    assert Enabled(states[j], steps[j]) && Enabled(states[i], steps[i]);
    WaitingStays(key, states, steps, p, j + 1, i);
  }

  lemma RunLosesConnection(key: KeyFn, c: string, p: Pid, q: Pid, r: RunId) returns (states: seq<State>, steps: seq<Step>)
    requires p != q
    ensures Run(key, states, steps) && Initial(states[0])
    ensures states[|steps|] == State(map[p := Running(c, r), q := Idle], map[], map[r := RunRow(c, RunningRow)], {}, {p}, {})
  {
    var s0 := State(map[p := Idle, q := Idle], map[], map[], {}, {}, {});
    var s1 := Next(key, s0, StartManual(p, c));
    var s2 := Next(key, s1, TryLock(p));
    var s3 := Next(key, s2, OpenRun(p, r));
    states := [s0, s1, s2, s3, Next(key, s3, Lose(p))];
    steps := [StartManual(p, c), TryLock(p), OpenRun(p, r), Lose(p)];
  }

  /** And a dropped connection does break exclusion, for any key function and any cron: from an idle start, the run of
      p loses its connection and q starts beside it. */
  lemma LostConnectionBreaksExclusion(key: KeyFn, c: string, p: Pid, q: Pid, r: RunId, t: RunId)
    returns (states: seq<State>, steps: seq<Step>)
    requires p != q && r != t
    ensures Run(key, states, steps) && Initial(states[0])
    ensures var s := states[|steps|];
      p in s.pcs && q in s.pcs && s.pcs[p] == Running(c, r) && s.pcs[q] == Running(c, t)
  {
    var before, front := RunLosesConnection(key, c, p, q, r);
    var s4 := before[|front|];
    var s5 := Next(key, s4, StartManual(q, c));
    var s6 := Next(key, s5, TryLock(q));
    states := before + [s5, s6, Next(key, s6, OpenRun(q, t))];
    steps := front + [StartManual(q, c), TryLock(q), OpenRun(q, t)];
  }
}
