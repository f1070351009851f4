/** The worklist protocol shared by ParallelScan (src/impl/scan_manager.h) and SyncLocalRecursive
    (src/impl/sync_manager.h): workers pop directories, push the ones they find, give up after three
    failed pops and clear their bit of running_mark; the starting thread relaunches cleared workers
    and stops when the mark is zero.

    Here a worker only looks, is busy, is leaving or is off, and the queue is only its length; the
    scan and the sync machines are shown to take these steps. */
module Worklist {

  /** `Look(t)`: t pops have failed since the last directory.  `Leaving`: out of the loop, the bit
      still set.  `Off`: the bit is clear. */
  datatype Pc = Off | Look(tries: nat) | Busy | Leaving

  datatype State = State(size: nat, workers: seq<Pc>, launched: bool)

  datatype Act =
    | Launch | PopOk | PopEmpty | Push | EndDir | Exit | Stutter

  predicate Can(s: State, i: nat, a: Act) {
    && i < |s.workers|
    && match a
       case Launch => s.workers[i] == Off
       case PopOk => s.workers[i].Look? && s.size > 0
       case PopEmpty => s.workers[i].Look? && s.size == 0
       case Push => s.workers[i] == Busy
       case EndDir => s.workers[i] == Busy
       case Exit => s.workers[i] == Leaving
       case Stutter => true
  }

  function Do(s: State, i: nat, a: Act): State
    requires Can(s, i, a)
  {
    match a
    case Launch => s.(workers := s.workers[i := Look(0)], launched := true)
    case PopOk => s.(workers := s.workers[i := Busy], size := s.size - 1)
    case PopEmpty =>
      var t := s.workers[i].tries + 1;
      s.(workers := s.workers[i := if t < 3 then Look(t) else Leaving])
    case Push => s.(size := s.size + 1)
    case EndDir => s.(workers := s.workers[i := Look(0)])
    case Exit => s.(workers := s.workers[i := Off])
    case Stutter => s
  }

  predicate WillPop(pc: Pc) { pc.Look? || pc == Busy }

  /** Queued work is always in front of a worker that has not yet decided to leave. */
  predicate Attended(s: State) {
    s.launched && s.size > 0 ==> exists j :: 0 <= j < |s.workers| && WillPop(s.workers[j])
  }

  predicate AllOff(s: State) { forall j :: 0 <= j < |s.workers| ==> s.workers[j] == Off }

  lemma AttendedStep(s: State, i: nat, a: Act)
    requires Attended(s) && Can(s, i, a)
    ensures Attended(Do(s, i, a))
  {
    var s' := Do(s, i, a);
    if s'.launched && s'.size > 0 {
      if WillPop(s'.workers[i]) {
      } else {
        var j :| 0 <= j < |s.workers| && WillPop(s.workers[j]);
        assert WillPop(s'.workers[j]);
      }
    }
  }

  /** running_mark == 0 after the launch means that no directory is left in the queue. */
  lemma QuiescentIsEmpty(s: State)
    requires Attended(s) && s.launched && AllOff(s)
    ensures s.size == 0
  {
  }
}
