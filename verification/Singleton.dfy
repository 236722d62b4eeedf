/**
 * Interleaved agent processes around the named mutex (singleton.h) and the running marker
 * (main.cpp, RunningMarkerGuard). The mutex exists while any handle to it is open, the
 * handle a losing process closes at once included.
 */
module Singleton {
  import opened Text

  type Pid = nat

  /** Where a process is; Holding is everything between Boot and Release. */
  datatype Phase = Absent | Started | Losing | Holding | Unlocked | Leaving

  /** Open handles to the mutex, phase of each process, and the pid in the marker file. */
  datatype System = System(handles: set<Pid>, phases: map<Pid, Phase>, marker: Option<Pid>)

  datatype Step =
    | Start(p: Pid)          // the guard's constructor writes the marker
    | Create(p: Pid)         // CreateMutexW
    | CloseLosing(p: Pid)    // CloseHandle after ERROR_ALREADY_EXISTS
    | ReleaseMutex(p: Pid)   // first half of Release
    | CloseOwned(p: Pid)     // second half of Release
    | Leave(p: Pid)          // the guard's destructor deletes the marker
    | Die(p: Pid)            // killed: the system closes its handles, the marker stays

  const INITIAL := System({}, map[], None)

  function PhaseOf(s: System, p: Pid): Phase {
    if p in s.phases then s.phases[p] else Absent
  }

  function To(s: System, p: Pid, phase: Phase): System {
    s.(phases := s.phases[p := phase])
  }

  /** One step; a step the process is not ready for changes nothing. */
  function Next(s: System, step: Step): System {
    match step
    case Start(p) =>
      if PhaseOf(s, p) != Absent then s else To(s, p, Started).(marker := Some(p))
    case Create(p) =>
      if PhaseOf(s, p) != Started then s
      else if s.handles == {} then To(s, p, Holding).(handles := {p})
      else To(s, p, Losing).(handles := s.handles + {p})
    case CloseLosing(p) =>
      if PhaseOf(s, p) != Losing then s else To(s, p, Leaving).(handles := s.handles - {p})
    case ReleaseMutex(p) =>
      if PhaseOf(s, p) != Holding then s else To(s, p, Unlocked)
    case CloseOwned(p) =>
      if PhaseOf(s, p) != Unlocked then s else To(s, p, Leaving).(handles := s.handles - {p})
    case Leave(p) =>
      if PhaseOf(s, p) != Leaving then s else To(s, p, Absent).(marker := None)
    case Die(p) => To(s, p, Absent).(handles := s.handles - {p})
  }

  function After(steps: seq<Step>): System {
    if steps == [] then INITIAL else Next(After(steps[..|steps| - 1]), steps[|steps| - 1])
  }

  predicate HasHandle(phase: Phase) {
    phase == Losing || phase == Holding || phase == Unlocked
  }

  predicate OwnsMutex(s: System, p: Pid) {
    PhaseOf(s, p) == Holding || PhaseOf(s, p) == Unlocked
  }

  /** Handles are open in exactly the phases that keep one, and one process at most owns. */
  ghost predicate Inv(s: System) {
    && (forall p :: p in s.handles <==> HasHandle(PhaseOf(s, p)))
    && (forall p, q :: OwnsMutex(s, p) && OwnsMutex(s, q) ==> p == q)
  }

  lemma StepKeepsInv(s: System, step: Step)
    requires Inv(s)
    ensures Inv(Next(s, step))
  {
    var t := Next(s, step);
    assert forall q :: q != step.p ==> PhaseOf(t, q) == PhaseOf(s, q);
    assert OwnsMutex(t, step.p) ==> s.handles == {} || OwnsMutex(s, step.p);
    forall q, r | OwnsMutex(t, q) && OwnsMutex(t, r) ensures q == r {
      assert q != step.p ==> OwnsMutex(s, q) && q in s.handles;
      assert r != step.p ==> OwnsMutex(s, r) && r in s.handles;
    }
  }

  /** Mutual exclusion: in every interleaving at most one process is past Boot. */
  lemma {:induction false} MutualExclusion(steps: seq<Step>)
    ensures Inv(After(steps))
    ensures forall p, q :: PhaseOf(After(steps), p) == Holding && PhaseOf(After(steps), q) == Holding ==> p == q
  {
    if steps != [] {
      MutualExclusion(steps[..|steps| - 1]);
      StepKeepsInv(After(steps[..|steps| - 1]), steps[|steps| - 1]);
    }
  }

  /** A process gets past Boot exactly when no other process has a handle open. */
  lemma AcquiredIffAlone(steps: seq<Step>, p: Pid)
    requires PhaseOf(After(steps), p) == Started
    ensures PhaseOf(Next(After(steps), Create(p)), p) == Holding
       <==> forall q :: PhaseOf(After(steps), q) !in {Losing, Holding, Unlocked}
  {
    MutualExclusion(steps);
    var s := After(steps);
    if s.handles != {} {
      var q :| q in s.handles;
    }
  }

  /** A loser that has not closed its handle yet turns a third process away though none runs. */
  lemma LingeringLoser(a: Pid, b: Pid, c: Pid) returns (steps: seq<Step>)
    requires a != b && b != c && a != c
    ensures PhaseOf(After(steps), c) == Losing && forall p :: !OwnsMutex(After(steps), p)
  {
    steps := [];
    Unroll(steps, Start(a)); steps := steps + [Start(a)];
    Unroll(steps, Create(a)); steps := steps + [Create(a)];
    Unroll(steps, Start(b)); steps := steps + [Start(b)];
    Unroll(steps, Create(b)); steps := steps + [Create(b)];
    Unroll(steps, ReleaseMutex(a)); steps := steps + [ReleaseMutex(a)];
    Unroll(steps, CloseOwned(a)); steps := steps + [CloseOwned(a)];
    Unroll(steps, Start(c)); steps := steps + [Start(c)];
    Unroll(steps, Create(c)); steps := steps + [Create(c)];
  }

  lemma Unroll(steps: seq<Step>, step: Step)
    ensures After(steps + [step]) == Next(After(steps), step)
  {
    assert (steps + [step])[..|steps|] == steps;
  }

  // ---- The running marker ----

  /** A step that writes the marker, and one that deletes it, whoever wrote it. */
  predicate Writes(s: System, step: Step) {
    step.Start? && PhaseOf(s, step.p) == Absent
  }

  predicate Deletes(s: System, step: Step) {
    step.Leave? && PhaseOf(s, step.p) == Leaving
  }

  /** The last step of a run that wrote or deleted the marker. */
  function LastMark(steps: seq<Step>): Option<Step> {
    if steps == [] then None
    else
      var before, step := steps[..|steps| - 1], steps[|steps| - 1];
      if Writes(After(before), step) || Deletes(After(before), step) then Some(step) else LastMark(before)
  }

  /** The process whose write is the last thing that happened to the marker. */
  function LastWriter(steps: seq<Step>): Option<Pid> {
    if LastMark(steps).Some? && LastMark(steps).value.Start? then Some(LastMark(steps).value.p) else None
  }

  /** The process whose exit is the last thing that happened to the marker. */
  function LastLeaver(steps: seq<Step>): Option<Pid> {
    if LastMark(steps).Some? && LastMark(steps).value.Leave? then Some(LastMark(steps).value.p) else None
  }

  /** The marker is there exactly when it was written last, and then names that process. */
  lemma {:induction false} MarkerExact(steps: seq<Step>)
    ensures After(steps).marker == LastWriter(steps)
  {
    if steps != [] { MarkerExact(steps[..|steps| - 1]); }
  }

  /** A process that runs has written a marker, and a process that left last has not come back. */
  lemma {:induction false} LastMarkKnown(steps: seq<Step>, p: Pid)
    ensures PhaseOf(After(steps), p) != Absent ==> LastMark(steps).Some?
    ensures LastLeaver(steps) == Some(p) ==> PhaseOf(After(steps), p) == Absent
    ensures LastMark(steps).Some? ==> LastMark(steps).value.Start? || LastMark(steps).value.Leave?
  {
    if steps != [] { LastMarkKnown(steps[..|steps| - 1], p); }
  }

  /**
   * While an agent holds the mutex its marker is missing exactly when the last mark was the exit
   * of another process, which deletes a marker that is not its own.
   */
  lemma MissingExactly(steps: seq<Step>, p: Pid)
    requires PhaseOf(After(steps), p) == Holding
    ensures After(steps).marker == None <==> LastLeaver(steps).Some?
    ensures LastLeaver(steps).Some? ==> LastLeaver(steps).value != p
  {
    hide After, LastMark;
    MarkerExact(steps);
    LastMarkKnown(steps, p);
  }

  /** The writer of the marker was killed after writing it. */
  predicate WriterDied(steps: seq<Step>) {
    if steps == [] then false
    else
      var before, step := steps[..|steps| - 1], steps[|steps| - 1];
      !Writes(After(before), step) &&
      (WriterDied(before) || (step.Die? && LastWriter(before) == Some(step.p)))
  }

  /** A marker is stale, its process gone, exactly when that process was killed. */
  lemma {:induction false} StaleExactly(steps: seq<Step>)
    requires After(steps).marker.Some?
    ensures PhaseOf(After(steps), After(steps).marker.value) == Absent <==> WriterDied(steps)
  {
    hide LastMark;
    MarkerExact(steps);
    if steps != [] {
      var before := steps[..|steps| - 1];
      MarkerExact(before);
      if After(before).marker.Some? { StaleExactly(before); }
    }
  }

  /** A killed agent's marker stays though no process is left. */
  lemma KilledMarkerStays(p: Pid) returns (steps: seq<Step>)
    ensures After(steps).marker == Some(p) && forall q :: PhaseOf(After(steps), q) == Absent
  {
    steps := [];
    Unroll(steps, Start(p)); steps := steps + [Start(p)];
    Unroll(steps, Create(p)); steps := steps + [Create(p)];
    Unroll(steps, Die(p)); steps := steps + [Die(p)];
  }

  /** A losing second agent deletes the marker while the first one still holds the mutex. */
  lemma LoserDeletesMarker(a: Pid, b: Pid) returns (steps: seq<Step>)
    requires a != b
    ensures PhaseOf(After(steps), a) == Holding && After(steps).marker == None
  {
    steps := [];
    Unroll(steps, Start(a)); steps := steps + [Start(a)];
    Unroll(steps, Create(a)); steps := steps + [Create(a)];
    Unroll(steps, Start(b)); steps := steps + [Start(b)];
    Unroll(steps, Create(b)); steps := steps + [Create(b)];
    Unroll(steps, CloseLosing(b)); steps := steps + [CloseLosing(b)];
    Unroll(steps, Leave(b)); steps := steps + [Leave(b)];
  }
}
