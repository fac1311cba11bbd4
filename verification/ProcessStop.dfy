/**
  Stopping the installed application and cleaning its state. Process tables, command results and
  files are whatever the machine reports at each moment; everything the scripts observe or do is
  recorded in order.
 */
module ProcessStop {
  import opened Results

  datatype ProcessKind = Core | Desktop

  datatype Process = Process(command: string, kind: ProcessKind, parentPid: nat, pid: nat)

  /** What one inspection saw. */
  datatype Inspection = Inspection(table: seq<Process>, journal: bool, loopbackProxy: bool, tunKey: bool, targets: seq<string>)

  datatype Blocker = StillRunning | JournalExists | LoopbackProxy | TunKeyExists

  datatype StopError =
    | TableUnreadable | NotControllable | QuitRefused | StillAlive | SignalRefused
    | AnotherInstance | RestoreFailed | Blocked | NoUser | BootoutFailed | AgentRegistered | TrashFailed

  type Outcome = Result<(), StopError>

  /** What is observed and done, with how it turned out. */
  datatype Event =
    | Read(table: seq<Process>)
    | Unreadable
    | Pause
    | Term(process: Process, accepted: bool)
    | Kill(process: Process, accepted: bool)
    | Quit(process: Process, accepted: bool)
    | Restore(ok: bool)
    | Inspect(seen: Inspection)
    | Bootout(target: string, status: int)
    | Lookup(target: string, status: int)
    | Trash(target: string, ok: bool)

  datatype Signal = TermSignal | KillSignal | QuitRequest

  function Sent(signal: Signal, p: Process, accepted: bool): Event
  {
    match signal
    case TermSignal => Term(p, accepted)
    case KillSignal => Kill(p, accepted)
    case QuitRequest => Quit(p, accepted)
  }

  /** The machine: answers anything, and remembers everything. */
  class Machine {
    ghost var events: seq<Event>

    method ReadProcessTable() returns (r: Option<seq<Process>>)
      modifies this
      ensures events == old(events) + [if r.Some? then Read(r.value) else Unreadable]
    {
      r := *;
      events := events + [if r.Some? then Read(r.value) else Unreadable];
    }

    method Wait250()
      modifies this
      ensures events == old(events) + [Pause]
    {
      events := events + [Pause];
    }

    /** Sends a signal or a quit request; it may be refused. */
    method Send(signal: Signal, p: Process) returns (ok: bool)
      modifies this
      ensures events == old(events) + [Sent(signal, p, ok)]
    {
      ok := *;
      events := events + [Sent(signal, p, ok)];
    }

    method Observe() returns (r: Option<Inspection>)
      modifies this
      ensures events == old(events) + [if r.Some? then Inspect(r.value) else Unreadable]
    {
      r := *;
      events := events + [if r.Some? then Inspect(r.value) else Unreadable];
    }

    method RestoreProxy() returns (ok: bool)
      modifies this
      ensures events == old(events) + [Restore(ok)]
    {
      ok := *;
      events := events + [Restore(ok)];
    }

    /** Asks launchd to unregister an agent. */
    method BootOut(target: string) returns (status: int)
      modifies this
      ensures events == old(events) + [Bootout(target, status)]
    {
      status := *;
      events := events + [Bootout(target, status)];
    }

    /** Asks launchd whether it still knows an agent: status 0 means yes. */
    method LookUp(target: string) returns (status: int)
      modifies this
      ensures events == old(events) + [Lookup(target, status)]
    {
      status := *;
      events := events + [Lookup(target, status)];
    }

    method MoveToTrash(target: string) returns (ok: bool)
      modifies this
      ensures events == old(events) + [Trash(target, ok)]
    {
      ok := *;
      events := events + [Trash(target, ok)];
    }
  }

  // ---------------------------------------------------------------- ownership

  predicate IsInstalled(p: Process, executables: seq<string>)
  {
    p.kind == Desktop && exists e | e in executables :: p.command == e || e + " " <= p.command
  }

  function Filter(table: seq<Process>, keep: Process -> bool): (r: seq<Process>)
    ensures forall p :: p in r <==> p in table && keep(p)
  {
    if table == [] then []
    else if keep(table[0]) then [table[0]] + Filter(table[1..], keep) else Filter(table[1..], keep)
  }

  function Desktops(table: seq<Process>, executables: seq<string>): seq<Process>
  {
    Filter(table, p => IsInstalled(p, executables))
  }

  /** Installed desktops, and the cores they are the parents of. */
  function Controllable(table: seq<Process>, executables: seq<string>): seq<Process>
  {
    var desktops := Desktops(table, executables);
    desktops + Filter(table, (p: Process) => p.kind == Core && exists d | d in desktops :: d.pid == p.parentPid)
  }

  /** The table lists a process with the same pid, kind and command. */
  predicate Lists(table: seq<Process>, p: Process)
  {
    exists q | q in table :: q.pid == p.pid && q.kind == p.kind && q.command == p.command
  }

  function Present(owned: seq<Process>, table: seq<Process>): seq<Process>
  {
    Filter(owned, p => Lists(table, p))
  }

  // ---------------------------------------------------------------- the protocol, as a description of runs

  /** Polling: reads and pauses in turn until a read lists none of the processes, or the time is up. */
  ghost predicate IsWait(trace: seq<Event>, owned: seq<Process>, left: nat, r: Result<seq<Process>, StopError>)
    decreases left
  {
    if trace == [Unreadable] then r == Err(TableUnreadable)
    else
      && |trace| > 0 && trace[0].Read?
      && var present := Present(owned, trace[0].table);
      if left == 0 || present == [] then |trace| == 1 && r == Ok(present)
      else |trace| > 1 && trace[1] == Pause && IsWait(trace[2..], owned, if left < 250 then 0 else left - 250, r)
  }

  /** Signalling: each process in turn is read again and signalled exactly if it is still listed. */
  ghost predicate IsRound(trace: seq<Event>, processes: seq<Process>, signal: Signal, r: Outcome)
    decreases |processes|
  {
    if processes == [] then trace == [] && r.Ok?
    else if trace == [Unreadable] then r == Err(TableUnreadable)
    else
      && |trace| > 0 && trace[0].Read?
      && var p := processes[0];
      if !Lists(trace[0].table, p) then IsRound(trace[1..], processes[1..], signal, r)
      else
        && |trace| > 1
        && (if trace[1] == Sent(signal, p, false) then |trace| == 2 && r == Err(SignalRefused)
            else trace[1] == Sent(signal, p, true) && IsRound(trace[2..], processes[1..], signal, r))
  }

  /** Asking: every desktop in turn, up to the first that refuses. */
  ghost predicate IsAsking(trace: seq<Event>, desktops: seq<Process>, r: Outcome)
    decreases |desktops|
  {
    if desktops == [] then trace == [] && r.Ok?
    else
      && |trace| > 0
      && (if trace[0] == Quit(desktops[0], false) then |trace| == 1 && r == Err(QuitRefused)
          else trace[0] == Quit(desktops[0], true) && IsAsking(trace[1..], desktops[1..], r))
  }

  /** How a wait decides the outcome. */
  function Waited(r: Result<seq<Process>, StopError>): Outcome
  {
    match r
    case Err(e) => Err(e)
    case Ok(present) => if present == [] then Ok(()) else Err(StillAlive)
  }

  ghost predicate IsSafeStop(trace: seq<Event>, executables: seq<string>, r: Outcome)
  {
    if trace == [Unreadable] then r == Err(TableUnreadable)
    else
      && |trace| > 0 && trace[0].Read?
      && var table, owned := trace[0].table, Controllable(trace[0].table, executables);
      var desktops := Filter(owned, (p: Process) => p.kind == Desktop);
      if table == [] then |trace| == 1 && r == Ok(())
      else if desktops == [] then |trace| == 1 && r == Err(NotControllable)
      else
        exists asks, asked ::
          && IsAsking(asks, desktops, asked)
          && (if asked.Err? then trace == [trace[0]] + asks && r == asked
              else exists waits, waited :: IsWait(waits, owned, 15000, waited) && trace == [trace[0]] + asks + waits && r == Waited(waited))
  }

  /** The phases of force stopping: terminate, wait, kill what is left, wait again. */
  datatype Phases = Phases(terms: seq<Event>, asked: Outcome, grace: seq<Event>, left: Result<seq<Process>, StopError>,
                           kills: seq<Event>, forced: Outcome, after: seq<Event>, last: Result<seq<Process>, StopError>)

  /** Each phase is entered exactly if the one before it went through. */
  ghost predicate ArePhases(f: Phases, owned: seq<Process>, r: Outcome)
  {
    && IsRound(f.terms, owned, TermSignal, f.asked)
    && if f.asked.Err? then f.grace == [] && f.kills == [] && f.after == [] && r == f.asked
       else
         && IsWait(f.grace, owned, 3000, f.left)
         && if f.left.Err? then f.kills == [] && f.after == [] && r == Err(f.left.error)
            else
              && IsRound(f.kills, f.left.value, KillSignal, f.forced)
              && if f.forced.Err? then f.after == [] && r == f.forced
                 else IsWait(f.after, owned, 3000, f.last) && r == Waited(f.last)
  }

  ghost predicate IsForceStop(trace: seq<Event>, executables: seq<string>, r: Outcome)
  {
    if trace == [Unreadable] then r == Err(TableUnreadable)
    else
      && |trace| > 0 && trace[0].Read?
      && var table, owned := trace[0].table, Controllable(trace[0].table, executables);
      if table == [] then |trace| == 1 && r == Ok(())
      else if owned == [] then |trace| == 1 && r == Err(NotControllable)
      else exists f :: ArePhases(f, owned, r) && trace == [trace[0]] + f.terms + f.grace + f.kills + f.after
  }

  // ---------------------------------------------------------------- the procedures follow it

  /** What was seen so far is the beginning of a wait that may still take `left` milliseconds. */
  ghost predicate WaitsOn(trace: seq<Event>, owned: seq<Process>, maximum: nat, left: nat)
  {
    forall rest, r :: IsWait(rest, owned, left, r) ==> IsWait(trace + rest, owned, maximum, r)
  }

  lemma WaitStarts(owned: seq<Process>, maximum: nat)
    ensures WaitsOn([], owned, maximum, maximum)
  {
    hide IsWait;
    forall rest, r | IsWait(rest, owned, maximum, r) ensures IsWait([] + rest, owned, maximum, r) {
      assert [] + rest == rest;
    }
  }

  lemma WaitTurn(trace: seq<Event>, owned: seq<Process>, maximum: nat, left: nat, table: seq<Process>)
    requires WaitsOn(trace, owned, maximum, left) && left > 0 && Present(owned, table) != []
    ensures WaitsOn(trace + [Read(table), Pause], owned, maximum, if left < 250 then 0 else left - 250)
  {
    hide Present;
    var next := if left < 250 then 0 else left - 250;
    forall rest, r | IsWait(rest, owned, next, r) ensures IsWait(trace + [Read(table), Pause] + rest, owned, maximum, r) {
      var turn := [Read(table), Pause] + rest;
      assert turn[2..] == rest;
      assert IsWait(turn, owned, left, r);
      assert trace + [Read(table), Pause] + rest == trace + turn;
    }
  }

  lemma WaitEnds(trace: seq<Event>, owned: seq<Process>, maximum: nat, left: nat, last: Event, r: Result<seq<Process>, StopError>)
    requires WaitsOn(trace, owned, maximum, left)
    requires || (last == Unreadable && r == Err(TableUnreadable))
             || (last.Read? && r == Ok(Present(owned, last.table)) && (left == 0 || r == Ok([])))
    ensures IsWait(trace + [last], owned, maximum, r)
  {
    hide Present;
    assert IsWait([last], owned, left, r);
  }

  /** The polling loop. */
  method WaitForOwnedProcesses(machine: Machine, owned: seq<Process>, maximum: nat)
    returns (r: Result<seq<Process>, StopError>, ghost trace: seq<Event>)
    modifies machine
    ensures machine.events == old(machine.events) + trace && IsWait(trace, owned, maximum, r)
  {
    hide IsWait, WaitsOn, Present;
    var elapsed := 0;
    trace := [];
    WaitStarts(owned, maximum);
    while elapsed < maximum
      invariant machine.events == old(machine.events) + trace
      invariant WaitsOn(trace, owned, maximum, if elapsed < maximum then maximum - elapsed else 0)
    {
      var table := machine.ReadProcessTable();
      if table.None? {
        WaitEnds(trace, owned, maximum, maximum - elapsed, Unreadable, Err(TableUnreadable));
        return Err(TableUnreadable), trace + [Unreadable];
      }
      if Present(owned, table.value) == [] {
        WaitEnds(trace, owned, maximum, maximum - elapsed, Read(table.value), Ok([]));
        return Ok([]), trace + [Read(table.value)];
      }
      machine.Wait250();
      WaitTurn(trace, owned, maximum, maximum - elapsed, table.value);
      trace := trace + [Read(table.value), Pause];
      elapsed := elapsed + 250;
    }
    var table := machine.ReadProcessTable();
    if table.None? {
      WaitEnds(trace, owned, maximum, 0, Unreadable, Err(TableUnreadable));
      return Err(TableUnreadable), trace + [Unreadable];
    }
    WaitEnds(trace, owned, maximum, 0, Read(table.value), Ok(Present(owned, table.value)));
    return Ok(Present(owned, table.value)), trace + [Read(table.value)];
  }

  /** What was done so far is the beginning of a round over all processes. */
  ghost predicate GoesOn(trace: seq<Event>, processes: seq<Process>, signal: Signal, left: seq<Process>)
  {
    forall rest, r :: IsRound(rest, left, signal, r) ==> IsRound(trace + rest, processes, signal, r)
  }

  lemma RoundStarts(processes: seq<Process>, signal: Signal)
    ensures GoesOn([], processes, signal, processes)
  {
    hide IsRound;
    forall rest, r | IsRound(rest, processes, signal, r) ensures IsRound([] + rest, processes, signal, r) {
      assert [] + rest == rest;
    }
  }

  lemma RoundTurn(trace: seq<Event>, processes: seq<Process>, signal: Signal, left: seq<Process>, turn: seq<Event>)
    requires GoesOn(trace, processes, signal, left) && left != [] && |turn| > 0 && turn[0].Read?
    requires if Lists(turn[0].table, left[0]) then turn == [turn[0], Sent(signal, left[0], true)] else turn == [turn[0]]
    ensures GoesOn(trace + turn, processes, signal, left[1..])
  {
    hide Lists;
    forall rest, r | IsRound(rest, left[1..], signal, r) ensures IsRound(trace + turn + rest, processes, signal, r) {
      var all := turn + rest;
      assert all[|turn|..] == rest;
      assert IsRound(all, left, signal, r);
      assert trace + turn + rest == trace + all;
    }
  }

  lemma RoundEnds(trace: seq<Event>, processes: seq<Process>, signal: Signal, left: seq<Process>, end: seq<Event>, r: Outcome)
    requires GoesOn(trace, processes, signal, left)
    requires || (left == [] && end == [] && r.Ok?)
             || (left != [] && end == [Unreadable] && r == Err(TableUnreadable))
             || (left != [] && |end| == 2 && end[0].Read? && Lists(end[0].table, left[0]) && end[1] == Sent(signal, left[0], false)
                 && r == Err(SignalRefused))
    ensures IsRound(trace + end, processes, signal, r)
  {
    hide Lists;
    assert IsRound(end, left, signal, r);
  }

  /** Signals every process the machine still shows, reading again before each signal. */
  method SignalOwned(machine: Machine, processes: seq<Process>, signal: Signal) returns (r: Outcome, ghost trace: seq<Event>)
    modifies machine
    ensures machine.events == old(machine.events) + trace && IsRound(trace, processes, signal, r)
  {
    hide IsRound, GoesOn, Lists;
    trace := [];
    RoundStarts(processes, signal);
    assert processes[0..] == processes;
    for i := 0 to |processes|
      invariant machine.events == old(machine.events) + trace && GoesOn(trace, processes, signal, processes[i..])
    {
      var p := processes[i];
      assert processes[i..][1..] == processes[i + 1..];
      var table := machine.ReadProcessTable();
      if table.None? {
        RoundEnds(trace, processes, signal, processes[i..], [Unreadable], Err(TableUnreadable));
        return Err(TableUnreadable), trace + [Unreadable];
      }
      if !Lists(table.value, p) {
        RoundTurn(trace, processes, signal, processes[i..], [Read(table.value)]);
        trace := trace + [Read(table.value)];
        continue;
      }
      var ok := machine.Send(signal, p);
      if !ok {
        RoundEnds(trace, processes, signal, processes[i..], [Read(table.value), Sent(signal, p, false)], Err(SignalRefused));
        return Err(SignalRefused), trace + [Read(table.value), Sent(signal, p, false)];
      }
      RoundTurn(trace, processes, signal, processes[i..], [Read(table.value), Sent(signal, p, true)]);
      trace := trace + [Read(table.value), Sent(signal, p, true)];
    }
    RoundEnds(trace, processes, signal, [], [], Ok(()));
    assert trace + [] == trace;
    return Ok(()), trace;
  }

  lemma {:induction false} AskingNext(trace: seq<Event>, desktops: seq<Process>, i: nat, accepted: bool)
    requires i < |desktops| && trace == Asked(desktops[..i])
    ensures if accepted then trace + [Quit(desktops[i], true)] == Asked(desktops[..i + 1])
            else IsAsking(trace + [Quit(desktops[i], false)], desktops, Err(QuitRefused))
    decreases i
  {
    if i > 0 {
      assert desktops[..i][1..] == desktops[1..][..i - 1];
      AskingNext(trace[1..], desktops[1..], i - 1, false);
      assert (trace + [Quit(desktops[i], false)])[1..] == trace[1..] + [Quit(desktops[i], false)];
    }
  }

  /** All of them asked, all accepting. */
  function Asked(desktops: seq<Process>): (r: seq<Event>)
    ensures |r| == |desktops|
  {
    seq(|desktops|, i requires 0 <= i < |desktops| => Quit(desktops[i], true))
  }

  lemma {:induction false} AskedAll(desktops: seq<Process>)
    ensures IsAsking(Asked(desktops), desktops, Ok(()))
    decreases |desktops|
  {
    if desktops != [] {
      assert Asked(desktops)[1..] == Asked(desktops[1..]);
      AskedAll(desktops[1..]);
    }
  }

  method AskToQuit(machine: Machine, desktops: seq<Process>) returns (r: Outcome, ghost trace: seq<Event>)
    modifies machine
    ensures machine.events == old(machine.events) + trace && IsAsking(trace, desktops, r)
  {
    hide IsAsking;
    trace := [];
    for i := 0 to |desktops|
      invariant machine.events == old(machine.events) + trace && trace == Asked(desktops[..i])
    {
      var ok := machine.Send(QuitRequest, desktops[i]);
      AskingNext(trace, desktops, i, ok);
      trace := trace + [Quit(desktops[i], ok)];
      if !ok {
        return Err(QuitRefused), trace;
      }
    }
    assert desktops[..|desktops|] == desktops;
    AskedAll(desktops);
    return Ok(()), trace;
  }

  method SafelyStopMish(machine: Machine, executables: seq<string>) returns (r: Outcome, ghost trace: seq<Event>)
    modifies machine
    ensures machine.events == old(machine.events) + trace && IsSafeStop(trace, executables, r)
  {
    hide Controllable, Filter, IsAsking, IsWait, Present;
    var table := machine.ReadProcessTable();
    if table.None? {
      return Err(TableUnreadable), [Unreadable];
    }
    trace := [Read(table.value)];
    if table.value == [] {
      return Ok(()), trace;
    }
    var owned := Controllable(table.value, executables);
    var desktops := Filter(owned, (p: Process) => p.kind == Desktop);
    if desktops == [] {
      return Err(NotControllable), trace;
    }
    ghost var asks, waits;
    var asked, waited;
    asked, asks := AskToQuit(machine, desktops);
    trace := trace + asks;
    if asked.Err? {
      return asked, trace;
    }
    waited, waits := WaitForOwnedProcesses(machine, owned, 15000);
    trace := trace + waits;
    return Waited(waited), trace;
  }

  method ForceStopMish(machine: Machine, executables: seq<string>) returns (r: Outcome, ghost trace: seq<Event>)
    modifies machine
    ensures machine.events == old(machine.events) + trace && IsForceStop(trace, executables, r)
  {
    hide Controllable, Filter, IsRound, IsWait, Present;
    var table := machine.ReadProcessTable();
    if table.None? {
      return Err(TableUnreadable), [Unreadable];
    }
    trace := [Read(table.value)];
    if table.value == [] {
      return Ok(()), trace;
    }
    var owned := Controllable(table.value, executables);
    if owned == [] {
      return Err(NotControllable), trace;
    }
    ghost var f;
    r, f := ForcePhases(machine, owned);
    trace := trace + f.terms + f.grace + f.kills + f.after;
  }

  method ForcePhases(machine: Machine, owned: seq<Process>) returns (r: Outcome, ghost f: Phases)
    modifies machine
    ensures machine.events == old(machine.events) + f.terms + f.grace + f.kills + f.after && ArePhases(f, owned, r)
  {
    hide IsRound, IsWait;
    ghost var terms, grace, kills, after;
    var asked, left, forced, last;
    asked, terms := SignalOwned(machine, owned, TermSignal);
    if asked.Err? {
      return asked, Phases(terms, asked, [], Ok([]), [], Ok(()), [], Ok([]));
    }
    left, grace := WaitForOwnedProcesses(machine, owned, 3000);
    if left.Err? {
      return Err(left.error), Phases(terms, asked, grace, left, [], Ok(()), [], Ok([]));
    }
    forced, kills := SignalOwned(machine, left.value, KillSignal);
    if forced.Err? {
      return forced, Phases(terms, asked, grace, left, kills, forced, [], Ok([]));
    }
    last, after := WaitForOwnedProcesses(machine, owned, 3000);
    return Waited(last), Phases(terms, asked, grace, left, kills, forced, after, last);
  }

  // ---------------------------------------------------------------- what every run keeps

  function Pauses(events: seq<Event>): nat
  {
    if events == [] then 0
    else Pauses(events[..|events| - 1]) + (if events[|events| - 1].Pause? then 1 else 0)
  }

  lemma {:induction false} PausesConcat(a: seq<Event>, b: seq<Event>)
    ensures Pauses(a + b) == Pauses(a) + Pauses(b)
    decreases |b|
  {
    if b == [] {
      assert a + b == a;
    } else {
      PausesConcat(a, b[..|b| - 1]);
      assert (a + b)[..|a + b| - 1] == a + b[..|b| - 1];
    }
  }

  lemma {:induction false} Unpaused(trace: seq<Event>)
    requires forall e | e in trace :: !e.Pause?
    ensures Pauses(trace) == 0
    decreases |trace|
  {
    if trace != [] {
      assert trace[|trace| - 1] in trace;
      Unpaused(trace[..|trace| - 1]);
    }
  }

  predicate IsSignal(e: Event)
  {
    e.Term? || e.Kill?
  }

  /** A process is signalled only if it is owned and the read just before lists it. */
  ghost predicate SignalsOwned(trace: seq<Event>, owned: seq<Process>)
  {
    forall i | 0 <= i < |trace| && IsSignal(trace[i]) ::
      && i > 0 && trace[i - 1].Read?
      && Lists(trace[i - 1].table, trace[i].process) && trace[i].process in owned
  }

  /** A kill comes only after the whole grace period. */
  ghost predicate KillsAfterGrace(trace: seq<Event>)
  {
    forall i | 0 <= i < |trace| && trace[i].Kill? :: Pauses(trace[..i]) == 12
  }

  /** The last thing seen is a table without any of the processes. */
  ghost predicate EndsWithout(trace: seq<Event>, owned: seq<Process>)
  {
    |trace| > 0 && trace[|trace| - 1].Read? && Present(owned, trace[|trace| - 1].table) == []
  }

  lemma SignalsConcat(a: seq<Event>, b: seq<Event>, owned: seq<Process>)
    requires SignalsOwned(a, owned) && SignalsOwned(b, owned)
    ensures SignalsOwned(a + b, owned)
  {
    hide Lists;
    forall i | 0 <= i < |a + b| && IsSignal((a + b)[i])
      ensures i > 0 && (a + b)[i - 1].Read? && Lists((a + b)[i - 1].table, (a + b)[i].process) && (a + b)[i].process in owned
    {
      if i >= |a| {
        assert (a + b)[i] == b[i - |a|] && (i > |a| ==> (a + b)[i - 1] == b[i - |a| - 1]);
      }
    }
  }

  /** Nothing but reads, failed reads and pauses. */
  ghost predicate IsQuiet(trace: seq<Event>)
  {
    forall e | e in trace :: e.Read? || e.Unreadable? || e.Pause?
  }

  lemma QuietSignals(trace: seq<Event>, owned: seq<Process>)
    requires IsQuiet(trace)
    ensures SignalsOwned(trace, owned)
  {
    forall i | 0 <= i < |trace| ensures !IsSignal(trace[i]) {
      assert trace[i] in trace;
    }
  }

  /** A wait only watches, for at most the given time, and reports what its last read lists. */
  lemma {:induction false} WaitOnlyWatches(trace: seq<Event>, owned: seq<Process>, left: nat, r: Result<seq<Process>, StopError>)
    requires IsWait(trace, owned, left, r)
    ensures IsQuiet(trace) && 250 * Pauses(trace) < left + 250
    ensures r.Ok? ==> |trace| > 0 && trace[|trace| - 1].Read? && r.value == Present(owned, trace[|trace| - 1].table)
    ensures r.Ok? && r.value != [] ==> 250 * Pauses(trace) >= left
    decreases left
  {
    hide Present;
    if trace == [Unreadable] || left == 0 || Present(owned, trace[0].table) == [] {
      Unpaused(trace);
    } else {
      var rest, next := trace[2..], if left < 250 then 0 else left - 250;
      WaitOnlyWatches(rest, owned, next, r);
      assert trace == [trace[0], Pause] + rest;
      PausesConcat([trace[0], Pause], rest);
      OneTurn(trace[0]);
    }
  }

  lemma OneTurn(first: Event)
    requires first.Read?
    ensures Pauses([first, Pause]) == 1
  {
    Unpaused([first]);
    assert [first, Pause][..1] == [first];
  }

  predicate IsSent(e: Event, signal: Signal)
  {
    match signal
    case TermSignal => e.Term?
    case KillSignal => e.Kill?
    case QuitRequest => e.Quit?
  }

  lemma {:induction false} RoundSignalsOwned(trace: seq<Event>, processes: seq<Process>, signal: Signal, r: Outcome, owned: seq<Process>)
    requires IsRound(trace, processes, signal, r) && forall p | p in processes :: p in owned
    ensures SignalsOwned(trace, owned)
    ensures forall e | e in trace :: e.Read? || e.Unreadable? || IsSent(e, signal)
    decreases |processes|
  {
    hide Lists;
    if processes != [] && trace != [Unreadable] {
      assert processes[0] in processes;
      if !Lists(trace[0].table, processes[0]) {
        RoundSignalsOwned(trace[1..], processes[1..], signal, r, owned);
        SignalsConcat([trace[0]], trace[1..], owned);
        assert trace == [trace[0]] + trace[1..];
      } else {
        var turn := trace[..2];
        assert turn == [trace[0], trace[1]];
        if trace[1] == Sent(signal, processes[0], true) {
          RoundSignalsOwned(trace[2..], processes[1..], signal, r, owned);
          SignalsConcat(turn, trace[2..], owned);
          assert trace == turn + trace[2..];
        } else {
          assert trace == turn;
        }
      }
    }
  }

  /** Before the kills: one read, the terminations, and the first wait, with no kill among them. */
  lemma GraceBeforeKills(front: seq<Event>, kills: seq<Event>, after: seq<Event>)
    requires (forall e | e in front :: !e.Kill?) && (forall e | e in kills :: !e.Pause?) && IsQuiet(after)
    requires kills != [] ==> Pauses(front) == 12
    ensures KillsAfterGrace(front + kills + after)
  {
    var trace := front + kills + after;
    assert forall i | 0 <= i < |front| :: trace[i] in front;
    assert forall i | |front| + |kills| <= i < |trace| :: trace[i] in after;
    forall i | 0 <= i < |trace| && trace[i].Kill? ensures Pauses(trace[..i]) == 12 {
      var j := i - |front|;
      assert trace[..i] == front + kills[..j];
      PausesConcat(front, kills[..j]);
      Unpaused(kills[..j]);
    }
  }

  /** What the phases guarantee one by one. */
  ghost predicate AreSafe(f: Phases, owned: seq<Process>, r: Outcome)
  {
    && SignalsOwned(f.terms, owned) && SignalsOwned(f.kills, owned) && IsQuiet(f.grace) && IsQuiet(f.after)
    && (forall e | e in f.terms :: e.Read? || e.Unreadable? || e.Term?)
    && (forall e | e in f.kills :: e.Read? || e.Unreadable? || e.Kill?)
    && Pauses(f.grace) <= 12 && Pauses(f.after) <= 12 && (f.kills != [] ==> Pauses(f.grace) == 12)
    && (r.Ok? ==> EndsWithout(f.after, owned))
  }

  lemma PhasesAreSafe(f: Phases, owned: seq<Process>, r: Outcome)
    requires ArePhases(f, owned, r)
    ensures AreSafe(f, owned, r)
  {
    hide IsRound, IsWait, Lists;
    NothingHappened(owned);
    RoundSignalsOwned(f.terms, owned, TermSignal, f.asked, owned);
    if f.asked.Ok? {
      WaitOnlyWatches(f.grace, owned, 3000, f.left);
      if f.left.Ok? {
        RoundSignalsOwned(f.kills, f.left.value, KillSignal, f.forced, owned);
        RoundOfNone(f.kills, f.left.value, KillSignal, f.forced);
        if f.forced.Ok? {
          WaitOnlyWatches(f.after, owned, 3000, f.last);
        }
      }
    }
  }

  lemma NothingHappened(owned: seq<Process>)
    ensures SignalsOwned([], owned) && IsQuiet([]) && Pauses([]) == 0
  {
  }

  lemma RoundOfNone(trace: seq<Event>, processes: seq<Process>, signal: Signal, r: Outcome)
    requires IsRound(trace, processes, signal, r)
    ensures processes == [] ==> trace == []
  {
  }

  lemma PhasesJoin(first: Event, f: Phases, owned: seq<Process>, r: Outcome)
    requires first.Read? && AreSafe(f, owned, r)
    ensures var trace := [first] + f.terms + f.grace + f.kills + f.after;
            && SignalsOwned(trace, owned) && KillsAfterGrace(trace) && Pauses(trace) <= 24
            && (r.Ok? ==> EndsWithout(trace, owned))
  {
    hide Pauses, SignalsOwned, KillsAfterGrace, Present;
    var front := [first] + f.terms + f.grace;
    var trace := front + f.kills + f.after;
    QuietSignals([first], owned);
    QuietSignals(f.grace, owned);
    QuietSignals(f.after, owned);
    SignalsConcat([first], f.terms, owned);
    SignalsConcat([first] + f.terms, f.grace, owned);
    SignalsConcat(front, f.kills, owned);
    SignalsConcat(front + f.kills, f.after, owned);
    Unpaused([first]);
    Unpaused(f.terms);
    Unpaused(f.kills);
    PausesConcat([first], f.terms);
    PausesConcat([first] + f.terms, f.grace);
    PausesConcat(front, f.kills);
    PausesConcat(front + f.kills, f.after);
    GraceBeforeKills(front, f.kills, f.after);
    assert f.after != [] ==> trace[|trace| - 1] == f.after[|f.after| - 1];
  }

  /**
    For every run of the protocol, whatever the tables: a signal goes only to a process that was
    controllable at the start and is listed in the read just before it; a kill comes only after the
    whole grace period; there are at most 24 pauses; and a normal return means that the last table
    read was empty or held none of the controllable processes.
   */
  lemma ForceStopIsSafe(trace: seq<Event>, executables: seq<string>, r: Outcome)
    requires IsForceStop(trace, executables, r) && trace != [Unreadable]
    ensures var owned := Controllable(trace[0].table, executables);
            && SignalsOwned(trace, owned) && KillsAfterGrace(trace) && Pauses(trace) <= 24
            && (r.Ok? ==> trace == [Read([])] || EndsWithout(trace, owned))
  {
    hide Controllable, ArePhases, SignalsOwned, KillsAfterGrace, Present;
    var owned := Controllable(trace[0].table, executables);
    if |trace| > 1 {
      var f :| ArePhases(f, owned, r) && trace == [trace[0]] + f.terms + f.grace + f.kills + f.after;
      PhasesAreSafe(f, owned, r);
      PhasesJoin(trace[0], f, owned, r);
    } else {
      JustOneRead(trace, owned);
      if trace[0].table != [] && owned != [] {
        var f :| ArePhases(f, owned, r) && trace == [trace[0]] + f.terms + f.grace + f.kills + f.after;
        PhasesAreSafe(f, owned, r);
        PhasesJoin(trace[0], f, owned, r);
      }
    }
  }

  lemma JustOneRead(trace: seq<Event>, owned: seq<Process>)
    requires |trace| == 1 && trace[0].Read?
    ensures SignalsOwned(trace, owned) && KillsAfterGrace(trace) && Pauses(trace) == 0
  {
    Unpaused(trace);
  }

  /** A safe stop sends no signal at all, and a normal return means the same as for a forced one. */
  lemma SafeStopIsSafe(trace: seq<Event>, executables: seq<string>, r: Outcome)
    requires IsSafeStop(trace, executables, r)
    ensures forall e | e in trace :: e.Read? || e.Unreadable? || e.Pause? || (e.Quit? && IsInstalled(e.process, executables))
    ensures r.Ok? ==> trace == [Read([])] || EndsWithout(trace, Controllable(trace[0].table, executables))
  {
    hide IsInstalled, IsAsking, IsWait, Present;
    if trace != [Unreadable] && trace[0].table != [] {
      var owned := Controllable(trace[0].table, executables);
      var desktops := Filter(owned, (p: Process) => p.kind == Desktop);
      if desktops != [] {
        var asks, asked :| && IsAsking(asks, desktops, asked)
          && (if asked.Err? then trace == [trace[0]] + asks && r == asked
              else exists waits, waited :: IsWait(waits, owned, 15000, waited) && trace == [trace[0]] + asks + waits && r == Waited(waited));
        AsksDesktops(asks, desktops, asked);
        if asked.Ok? {
          var waits, waited :| IsWait(waits, owned, 15000, waited) && trace == [trace[0]] + asks + waits && r == Waited(waited);
          WaitOnlyWatches(waits, owned, 15000, waited);
        }
      }
    }
  }

  lemma {:induction false} AsksDesktops(asks: seq<Event>, desktops: seq<Process>, r: Outcome)
    requires IsAsking(asks, desktops, r)
    ensures forall e | e in asks :: e.Quit? && e.process in desktops
    decreases |desktops|
  {
    if desktops != [] && |asks| > 1 {
      AsksDesktops(asks[1..], desktops[1..], r);
      assert asks == [asks[0]] + asks[1..];
    }
  }

  // ---------------------------------------------------------------- cleaning

  function Blockers(seen: Inspection): seq<Blocker>
  {
    (if seen.table != [] then [StillRunning] else []) + (if seen.journal then [JournalExists] else [])
    + (if seen.loopbackProxy then [LoopbackProxy] else []) + (if seen.tunKey then [TunKeyExists] else [])
  }

  /** Launch agents are property lists in the agents' directory. */
  predicate IsAgent(target: string)
  {
    |target| >= 6 && target[|target| - 6..] == ".plist" && exists i | 0 <= i <= |target| :: "/Library/LaunchAgents/" <= target[i..]
  }

  function Agents(targets: seq<string>): (r: seq<string>)
    ensures forall a :: a in r <==> a in targets && IsAgent(a)
  {
    if targets == [] then []
    else
      var front, last := Agents(targets[..|targets| - 1]), targets[|targets| - 1];
      if IsAgent(last) then front + [last] else front
  }

  function Trashed(targets: seq<string>): (r: seq<Event>)
    ensures |r| == |targets|
  {
    seq(|targets|, i requires 0 <= i < |targets| => Trash(targets[i], true))
  }

  /** Trashing in order, up to the first failure. */
  ghost predicate IsTrashing(trace: seq<Event>, targets: seq<string>, r: Outcome)
  {
    if r.Ok? then trace == Trashed(targets)
    else
      && 0 < |trace| <= |targets| && r == Err(TrashFailed)
      && var n := |trace| - 1; trace[..n] == Trashed(targets)[..n] && trace[n] == Trash(targets[n], false)
  }

  /** Unregistering: status 0 or 5 of the request, and then launchd no longer knows the agent. */
  ghost predicate IsUnregistering(trace: seq<Event>, agents: seq<string>, r: Outcome)
    decreases |agents|
  {
    if agents == [] then trace == [] && r.Ok?
    else
      && |trace| > 0 && trace[0].Bootout? && trace[0].target == agents[0]
      && if trace[0].status != 0 && trace[0].status != 5 then |trace| == 1 && r == Err(BootoutFailed)
         else
           && |trace| > 1 && trace[1].Lookup? && trace[1].target == agents[0]
           && if trace[1].status == 0 then |trace| == 2 && r == Err(AgentRegistered)
              else IsUnregistering(trace[2..], agents[1..], r)
  }

  /** Every agent is unregistered before anything is trashed; then all targets in order. */
  ghost predicate IsApply(trace: seq<Event>, seen: Inspection, hasUser: bool, r: Outcome)
  {
    if Blockers(seen) != [] then trace == [] && r == Err(Blocked)
    else if !hasUser then trace == [] && r == Err(NoUser)
    else
      exists agents, unregistered ::
        && IsUnregistering(agents, Agents(seen.targets), unregistered)
        && (if unregistered.Err? then trace == agents && r == unregistered
            else exists trashed :: trace == agents + trashed && IsTrashing(trashed, seen.targets, r))
  }

  /** What was done so far is the beginning of unregistering all agents. */
  ghost predicate UnregistersOn(trace: seq<Event>, agents: seq<string>, left: seq<string>)
  {
    forall rest, r :: IsUnregistering(rest, left, r) ==> IsUnregistering(trace + rest, agents, r)
  }

  lemma UnregisterStarts(agents: seq<string>)
    ensures UnregistersOn([], agents, agents)
  {
    hide IsUnregistering;
    forall rest, r | IsUnregistering(rest, agents, r) ensures IsUnregistering([] + rest, agents, r) {
      assert [] + rest == rest;
    }
  }

  lemma UnregisterTurn(trace: seq<Event>, agents: seq<string>, left: seq<string>, turn: seq<Event>)
    requires UnregistersOn(trace, agents, left) && left != [] && |turn| == 2
    requires turn[0] == Bootout(left[0], 0) || turn[0] == Bootout(left[0], 5)
    requires turn[1].Lookup? && turn[1].target == left[0] && turn[1].status != 0
    ensures UnregistersOn(trace + turn, agents, left[1..])
  {
    forall rest, r | IsUnregistering(rest, left[1..], r) ensures IsUnregistering(trace + turn + rest, agents, r) {
      var all := turn + rest;
      assert all[2..] == rest;
      assert IsUnregistering(all, left, r);
      assert trace + turn + rest == trace + all;
    }
  }

  lemma UnregisterEnds(trace: seq<Event>, agents: seq<string>, left: seq<string>, end: seq<Event>, r: Outcome)
    requires UnregistersOn(trace, agents, left) && IsUnregistering(end, left, r)
    ensures IsUnregistering(trace + end, agents, r)
  {
    hide IsUnregistering;
  }

  method UnregisterAgents(machine: Machine, agents: seq<string>) returns (r: Outcome, ghost trace: seq<Event>)
    modifies machine
    ensures machine.events == old(machine.events) + trace && IsUnregistering(trace, agents, r)
  {
    hide UnregistersOn;
    trace := [];
    UnregisterStarts(agents);
    assert agents[0..] == agents;
    for i := 0 to |agents|
      invariant machine.events == old(machine.events) + trace && UnregistersOn(trace, agents, agents[i..])
    {
      assert agents[i..][1..] == agents[i + 1..];
      var status := machine.BootOut(agents[i]);
      if status != 0 && status != 5 {
        UnregisterEnds(trace, agents, agents[i..], [Bootout(agents[i], status)], Err(BootoutFailed));
        return Err(BootoutFailed), trace + [Bootout(agents[i], status)];
      }
      var known := machine.LookUp(agents[i]);
      ghost var turn := [Bootout(agents[i], status), Lookup(agents[i], known)];
      if known == 0 {
        UnregisterEnds(trace, agents, agents[i..], turn, Err(AgentRegistered));
        return Err(AgentRegistered), trace + turn;
      }
      UnregisterTurn(trace, agents, agents[i..], turn);
      trace := trace + turn;
    }
    UnregisterEnds(trace, agents, [], [], Ok(()));
    assert trace + [] == trace;
    return Ok(()), trace;
  }

  method TrashTargets(machine: Machine, targets: seq<string>) returns (r: Outcome, ghost trace: seq<Event>)
    modifies machine
    ensures machine.events == old(machine.events) + trace && IsTrashing(trace, targets, r)
  {
    trace := [];
    for i := 0 to |targets|
      invariant machine.events == old(machine.events) + trace && trace == Trashed(targets)[..i]
    {
      var ok := machine.MoveToTrash(targets[i]);
      trace := trace + [Trash(targets[i], ok)];
      if !ok {
        return Err(TrashFailed), trace;
      }
    }
    return Ok(()), trace;
  }

  method ApplyCleanup(machine: Machine, seen: Inspection, hasUser: bool) returns (r: Outcome, ghost trace: seq<Event>)
    modifies machine
    ensures machine.events == old(machine.events) + trace && IsApply(trace, seen, hasUser, r)
  {
    hide Blockers, IsAgent, Agents, IsUnregistering, IsTrashing, Trashed;
    trace := [];
    if Blockers(seen) != [] {
      return Err(Blocked), trace;
    }
    if !hasUser {
      return Err(NoUser), trace;
    }
    var unregistered;
    ghost var agents, trashed;
    unregistered, agents := UnregisterAgents(machine, Agents(seen.targets));
    if unregistered.Err? {
      return unregistered, agents;
    }
    r, trashed := TrashTargets(machine, seen.targets);
    trace := agents + trashed;
  }

  /** Safe shutdown, and force only where it failed. */
  ghost predicate IsStop(trace: seq<Event>, executables: seq<string>, r: Outcome)
  {
    exists safe, asked ::
      && IsSafeStop(safe, executables, asked)
      && (if asked.Ok? then trace == safe && r == asked
          else exists force :: trace == safe + force && IsForceStop(force, executables, r))
  }

  method StopMish(machine: Machine, executables: seq<string>) returns (r: Outcome, ghost trace: seq<Event>)
    modifies machine
    ensures machine.events == old(machine.events) + trace && IsStop(trace, executables, r)
  {
    hide IsSafeStop, IsForceStop;
    ghost var safe, force;
    var asked;
    asked, safe := SafelyStopMish(machine, executables);
    if asked.Ok? {
      return asked, safe;
    }
    r, force := ForceStopMish(machine, executables);
    trace := safe + force;
  }

  /** Before the second inspection of `all`: stop, make sure nothing is left, restore the proxy. */
  ghost predicate IsPreparation(trace: seq<Event>, executables: seq<string>, r: Outcome)
  {
    exists stop, stopped ::
      && IsStop(stop, executables, stopped)
      && (if stopped.Err? then trace == stop && r == stopped
          else
            || (trace == stop + [Unreadable] && r == Err(TableUnreadable))
            || (exists table :: trace == stop + [Read(table)] && table != [] && r == Err(AnotherInstance))
            || (trace == stop + [Read([]), Restore(false)] && r == Err(RestoreFailed))
            || (trace == stop + [Read([]), Restore(true)] && r == Ok(())))
  }

  method PrepareAll(machine: Machine, executables: seq<string>) returns (r: Outcome, ghost trace: seq<Event>)
    modifies machine
    ensures machine.events == old(machine.events) + trace && IsPreparation(trace, executables, r)
  {
    hide IsStop;
    ghost var stop;
    var stopped;
    stopped, stop := StopMish(machine, executables);
    if stopped.Err? {
      return stopped, stop;
    }
    var table := machine.ReadProcessTable();
    if table.None? {
      return Err(TableUnreadable), stop + [Unreadable];
    }
    if table.value != [] {
      return Err(AnotherInstance), stop + [Read(table.value)];
    }
    var restored := machine.RestoreProxy();
    trace := stop + [Read([]), Restore(restored)];
    r := if restored then Ok(()) else Err(RestoreFailed);
  }

  /** The `clean` and `all` actions with `--apply`: inspect, for `all` prepare and inspect again, then apply. */
  ghost predicate IsCleanup(trace: seq<Event>, executables: seq<string>, all: bool, hasUser: bool, r: Outcome)
  {
    if trace == [Unreadable] then r == Err(TableUnreadable)
    else
      && |trace| > 0 && trace[0].Inspect?
      && if !all then IsApply(trace[1..], trace[0].seen, hasUser, r)
         else
           exists steps, prepared ::
             && IsPreparation(steps, executables, prepared)
             && (if prepared.Err? then trace == [trace[0]] + steps && r == prepared
                 else
                   || (trace == [trace[0]] + steps + [Unreadable] && r == Err(TableUnreadable))
                   || (exists seen, applied ::
                         trace == [trace[0]] + steps + [Inspect(seen)] + applied && IsApply(applied, seen, hasUser, r)))
  }

  method RunCleanup(machine: Machine, executables: seq<string>, all: bool, hasUser: bool)
    returns (r: Outcome, ghost trace: seq<Event>)
    modifies machine
    ensures machine.events == old(machine.events) + trace && IsCleanup(trace, executables, all, hasUser, r)
  {
    hide IsPreparation, IsApply, IsCleanup;
    var inspection := machine.Observe();
    if inspection.None? {
      NothingInspected(executables, all, hasUser);
      return Err(TableUnreadable), [Unreadable];
    }
    ghost var first := [Inspect(inspection.value)];
    ghost var applied;
    if !all {
      r, applied := ApplyCleanup(machine, inspection.value, hasUser);
      trace := first + applied;
      CleanIs(inspection.value, executables, applied, hasUser, r);
      return;
    }
    var prepared;
    ghost var steps;
    prepared, steps := PrepareAll(machine, executables);
    if prepared.Err? {
      UnpreparedIs(inspection.value, executables, steps, hasUser, prepared);
      return prepared, first + steps;
    }
    var again := machine.Observe();
    if again.None? {
      NotInspectedAgain(inspection.value, executables, steps, hasUser, prepared);
      return Err(TableUnreadable), first + steps + [Unreadable];
    }
    r, applied := ApplyCleanup(machine, again.value, hasUser);
    trace := first + steps + [Inspect(again.value)] + applied;
    AllIs(inspection.value, executables, steps, prepared, again.value, applied, hasUser, r);
  }

  lemma NothingInspected(executables: seq<string>, all: bool, hasUser: bool)
    ensures IsCleanup([Unreadable], executables, all, hasUser, Err(TableUnreadable))
  {
  }

  lemma CleanIs(first: Inspection, executables: seq<string>, applied: seq<Event>, hasUser: bool, r: Outcome)
    requires IsApply(applied, first, hasUser, r)
    ensures IsCleanup([Inspect(first)] + applied, executables, false, hasUser, r)
  {
    hide IsApply;
    assert ([Inspect(first)] + applied)[1..] == applied;
  }

  lemma UnpreparedIs(first: Inspection, executables: seq<string>, steps: seq<Event>, hasUser: bool, r: Outcome)
    requires IsPreparation(steps, executables, r) && r.Err?
    ensures IsCleanup([Inspect(first)] + steps, executables, true, hasUser, r)
  {
    hide IsPreparation, IsApply;
    var trace := [Inspect(first)] + steps;
    assert trace[0] == Inspect(first);
  }

  lemma NotInspectedAgain(first: Inspection, executables: seq<string>, steps: seq<Event>, hasUser: bool, prepared: Outcome)
    requires IsPreparation(steps, executables, prepared) && prepared.Ok?
    ensures IsCleanup([Inspect(first)] + steps + [Unreadable], executables, true, hasUser, Err(TableUnreadable))
  {
    hide IsPreparation, IsApply;
    var trace := [Inspect(first)] + steps + [Unreadable];
    assert trace[0] == Inspect(first);
  }

  lemma AllIs(first: Inspection, executables: seq<string>, steps: seq<Event>, prepared: Outcome, again: Inspection,
              applied: seq<Event>, hasUser: bool, r: Outcome)
    requires IsPreparation(steps, executables, prepared) && prepared.Ok? && IsApply(applied, again, hasUser, r)
    ensures IsCleanup([Inspect(first)] + steps + [Inspect(again)] + applied, executables, true, hasUser, r)
  {
    hide IsPreparation, IsApply;
    var trace := [Inspect(first)] + steps + [Inspect(again)] + applied;
    assert trace[0] == Inspect(first);
  }

  // ---------------------------------------------------------------- removal is guarded

  /** What removing consists of: unregistering an agent, making sure of it, and trashing. */
  predicate IsRemoval(e: Event)
  {
    e.Bootout? || e.Lookup? || e.Trash?
  }

  ghost predicate RemovesNothing(trace: seq<Event>)
  {
    forall e | e in trace :: !IsRemoval(e)
  }

  /** The removals of the run, if any, directly follow this inspection, which is without blockers and lists them. */
  ghost predicate IsGuard(trace: seq<Event>, front: seq<Event>, seen: Inspection, applied: seq<Event>)
  {
    && trace == front + [Inspect(seen)] + applied && RemovesNothing(front) && Blockers(seen) == []
    && forall e | e in applied :: IsRemoval(e) && e.target in seen.targets
  }

  /** After a first inspection: stopped, a table without Mish processes, and the proxy restored. */
  ghost predicate FollowsStop(front: seq<Event>, executables: seq<string>)
  {
    exists first, stop ::
      IsStop(stop, executables, Ok(())) && front == [Inspect(first)] + (stop + [Read([]), Restore(true)])
  }

  lemma AppliesListed(applied: seq<Event>, seen: Inspection, hasUser: bool, r: Outcome)
    requires IsApply(applied, seen, hasUser, r)
    ensures forall e | e in applied :: IsRemoval(e) && e.target in seen.targets
    ensures Blockers(seen) != [] ==> applied == []
  {
    hide Blockers, IsAgent, IsUnregistering, IsTrashing;
    if Blockers(seen) == [] && hasUser {
      var agents, unregistered :|
        && IsUnregistering(agents, Agents(seen.targets), unregistered)
        && (if unregistered.Err? then applied == agents && r == unregistered
            else exists trashed :: applied == agents + trashed && IsTrashing(trashed, seen.targets, r));
      UnregistersOnly(agents, Agents(seen.targets), unregistered);
      if unregistered.Ok? {
        var trashed :| applied == agents + trashed && IsTrashing(trashed, seen.targets, r);
        TrashesOnly(trashed, seen.targets, r);
      }
    }
  }

  lemma {:induction false} UnregistersOnly(trace: seq<Event>, agents: seq<string>, r: Outcome)
    requires IsUnregistering(trace, agents, r)
    ensures forall e | e in trace :: IsRemoval(e) && e.target in agents
    decreases |agents|
  {
    if agents != [] && |trace| > 1 && trace[1].status != 0 {
      UnregistersOnly(trace[2..], agents[1..], r);
      assert trace == [trace[0], trace[1]] + trace[2..];
    }
  }

  lemma TrashesOnly(trace: seq<Event>, targets: seq<string>, r: Outcome)
    requires IsTrashing(trace, targets, r)
    ensures forall e | e in trace :: IsRemoval(e) && e.target in targets
  {
    forall e | e in trace ensures IsRemoval(e) && e.target in targets {
      var i :| 0 <= i < |trace| && trace[i] == e;
      assert i < |targets|;
      assert r.Err? && i < |trace| - 1 ==> trace[..|trace| - 1][i] == Trashed(targets)[..|trace| - 1][i];
    }
  }

  lemma SafeStopRemovesNothing(trace: seq<Event>, executables: seq<string>, r: Outcome)
    requires IsSafeStop(trace, executables, r)
    ensures RemovesNothing(trace)
  {
    hide IsSafeStop, IsInstalled;
    SafeStopIsSafe(trace, executables, r);
  }

  lemma ForceStopRemovesNothing(trace: seq<Event>, executables: seq<string>, r: Outcome)
    requires IsForceStop(trace, executables, r)
    ensures RemovesNothing(trace)
  {
    hide Controllable, ArePhases;
    if trace != [Unreadable] && trace[0].table != [] && Controllable(trace[0].table, executables) != [] {
      var owned := Controllable(trace[0].table, executables);
      var f :| ArePhases(f, owned, r) && trace == [trace[0]] + f.terms + f.grace + f.kills + f.after;
      PhasesAreSafe(f, owned, r);
    }
  }

  lemma PreparationRemovesNothing(trace: seq<Event>, executables: seq<string>, r: Outcome)
    requires IsPreparation(trace, executables, r)
    ensures RemovesNothing(trace)
  {
    hide IsSafeStop, IsForceStop;
    var stop, stopped :|
      && IsStop(stop, executables, stopped)
      && (if stopped.Err? then trace == stop && r == stopped
          else
            || (trace == stop + [Unreadable] && r == Err(TableUnreadable))
            || (exists table :: trace == stop + [Read(table)] && table != [] && r == Err(AnotherInstance))
            || (trace == stop + [Read([]), Restore(false)] && r == Err(RestoreFailed))
            || (trace == stop + [Read([]), Restore(true)] && r == Ok(())));
    var safe, asked :|
      && IsSafeStop(safe, executables, asked)
      && (if asked.Ok? then stop == safe && stopped == asked
          else exists force :: stop == safe + force && IsForceStop(force, executables, stopped));
    SafeStopRemovesNothing(safe, executables, asked);
    if asked.Err? {
      var force :| stop == safe + force && IsForceStop(force, executables, stopped);
      ForceStopRemovesNothing(force, executables, stopped);
    }
  }

  /**
    Whatever a run removes was listed by an inspection without blockers that directly precedes the
    removals; with `all` that inspection was made after the application was stopped, a table without
    its processes was read, and the proxy was restored.
   */
  lemma RemovalIsGuarded(trace: seq<Event>, executables: seq<string>, all: bool, hasUser: bool, r: Outcome)
    requires IsCleanup(trace, executables, all, hasUser, r)
    ensures RemovesNothing(trace)
            || exists front, seen, applied :: IsGuard(trace, front, seen, applied) && (all ==> FollowsStop(front, executables))
  {
    hide IsApply, IsPreparation, Blockers, RemovesNothing, IsGuard, FollowsStop;
    if all {
      AllIsGuarded(trace, executables, hasUser, r);
    } else if trace == [Unreadable] {
      Harmless(trace);
    } else {
      assert trace == [] + [Inspect(trace[0].seen)] + trace[1..];
      Harmless([]);
      ApplyIsGuarded(trace, [], trace[0].seen, trace[1..], hasUser, r);
    }
  }

  lemma Harmless(trace: seq<Event>)
    requires trace == [] || trace == [Unreadable]
    ensures RemovesNothing(trace)
  {
  }

  lemma ApplyIsGuarded(trace: seq<Event>, front: seq<Event>, seen: Inspection, applied: seq<Event>, hasUser: bool, r: Outcome)
    requires trace == front + [Inspect(seen)] + applied && RemovesNothing(front) && IsApply(applied, seen, hasUser, r)
    ensures RemovesNothing(trace) || IsGuard(trace, front, seen, applied)
  {
    hide IsApply, Blockers;
    AppliesListed(applied, seen, hasUser, r);
  }

  lemma AllIsGuarded(trace: seq<Event>, executables: seq<string>, hasUser: bool, r: Outcome)
    requires IsCleanup(trace, executables, true, hasUser, r)
    ensures RemovesNothing(trace)
            || exists front, seen, applied :: IsGuard(trace, front, seen, applied) && FollowsStop(front, executables)
  {
    hide IsApply, IsPreparation, Blockers, IsGuard, FollowsStop;
    if trace != [Unreadable] {
      var steps, prepared :|
        && IsPreparation(steps, executables, prepared)
        && (if prepared.Err? then trace == [trace[0]] + steps && r == prepared
            else
              || (trace == [trace[0]] + steps + [Unreadable] && r == Err(TableUnreadable))
              || (exists seen, applied ::
                    trace == [trace[0]] + steps + [Inspect(seen)] + applied && IsApply(applied, seen, hasUser, r)));
      PreparationRemovesNothing(steps, executables, prepared);
      if prepared.Ok? && trace != [trace[0]] + steps + [Unreadable] {
        var seen, applied :| trace == [trace[0]] + steps + [Inspect(seen)] + applied && IsApply(applied, seen, hasUser, r);
        ApplyIsGuarded(trace, [trace[0]] + steps, seen, applied, hasUser, r);
        Prepared(trace[0].seen, steps, executables, prepared);
      }
    }
  }

  lemma Prepared(first: Inspection, steps: seq<Event>, executables: seq<string>, r: Outcome)
    requires IsPreparation(steps, executables, r) && r.Ok?
    ensures FollowsStop([Inspect(first)] + steps, executables)
  {
    hide IsStop;
    var stop, stopped :|
      && IsStop(stop, executables, stopped)
      && (if stopped.Err? then steps == stop && r == stopped
          else
            || (steps == stop + [Unreadable] && r == Err(TableUnreadable))
            || (exists table :: steps == stop + [Read(table)] && table != [] && r == Err(AnotherInstance))
            || (steps == stop + [Read([]), Restore(false)] && r == Err(RestoreFailed))
            || (steps == stop + [Read([]), Restore(true)] && r == Ok(())));
    assert stopped.value == ();
  }
}
