/** The runner's status file: a pipeline thread and a heartbeat thread publish one mutex-protected status through
    the same temporary file. Every interleaving of their steps, with writes that may fail, is a run here. */
module JobStatus {
  import opened Basics
  import opened RouteJob

  datatype JobState = Starting | Running | Completed | StoppedOnRequest | StoppedAtTimeLimit | NotAvailable | RunFailed

  function StateOf(kind: StopKind): JobState {
    match kind
    case StageUnavailable => NotAvailable
    case StageFailed => RunFailed
    case InputError => RunFailed
    case StopRequested => StoppedOnRequest
    case TimeLimit => StoppedAtTimeLimit
  }

  /** The state a run that returned r ends in. */
  function EndState(r: Result): JobState {
    match r
    case Failed => RunFailed
    case Ended(report) => if report.stop.Some? then StateOf(report.stop.value) else Completed
  }

  /** What a terminal state tells of the run that returned r. */
  predicate Tells(state: JobState, r: Result) {
    && (state == StoppedOnRequest <==> r.Ended? && r.report.stop == Some(StopRequested))
    && (state == StoppedAtTimeLimit <==> r.Ended? && r.report.stop == Some(TimeLimit))
    && (state == NotAvailable <==> r.Ended? && r.report.stop == Some(StageUnavailable))
    && (state == Completed <==> r.Ended? && r.report.stop == None)
    && (state == RunFailed <==>
          r.Failed? || r.report.stop == Some(StageFailed) || r.report.stop == Some(InputError))
  }

  datatype Status = Status(state: JobState, finished: bool, stage: Option<nat>, beat: nat)

  /** What a file holds: a whole serialised status, or part of one. */
  datatype Content = Torn | Whole(status: Status)

  datatype Who = Pipeline | Heart

  /** Where a thread is inside `write_status`. */
  datatype Writing =
    | Waiting
    | Serialised(bytes: Status)
    | Truncated(bytes: Status)
    | Filled(bytes: Status)
    | Closing(ok: bool)

  datatype Main =
    | Booting(w: Writing)
    | Working
    | Announcing(w: Writing)
    | Returned(result: Result)
    | Joining(result: Result)
    | Settling(result: Result)
    | Finishing(result: Result, attempt: nat, w: Writing)
    | Over(result: Result, landed: bool)

  datatype Beat = NotSpawned | Checking | Sleeping | Beating(w: Writing) | Ceased

  const FINAL_ATTEMPTS: nat := 50

  datatype State = State(
    main: Main, heart: Beat, lock: Option<Who>, mem: Status, beating: bool,
    tmp: Option<Content>, published: seq<Content>)

  datatype Action =
    | Lock(who: Who, clock: nat)
    | Truncate(who: Who)
    | Fill(who: Who)
    | Rename(who: Who)
    | Fail(who: Who)
    | Unlock(who: Who)
    | Event(stage: nat)
    | Return(result: Result)
    | StopBeating
    | Join
    | Finish
    | Look(seen: bool)
    | Wake

  function WritingOf(s: State, t: Who): Option<Writing> {
    match t
    case Pipeline =>
      (match s.main
       case Booting(w) => Some(w)
       case Announcing(w) => Some(w)
       case Finishing(_, _, w) => Some(w)
       case _ => None)
    case Heart => if s.heart.Beating? then Some(s.heart.w) else None
  }

  function WithWriting(s: State, t: Who, w: Writing): State
    requires WritingOf(s, t).Some?
  {
    match t
    case Pipeline =>
      (match s.main
       case Booting(_) => s.(main := Booting(w))
       case Announcing(_) => s.(main := Announcing(w))
       case Finishing(r, n, _) => s.(main := Finishing(r, n, w)))
    case Heart => s.(heart := Beating(w))
  }

  /** After `write_status` returned ok. */
  function Onward(s: State, t: Who, ok: bool): State
    requires WritingOf(s, t).Some?
  {
    match t
    case Pipeline =>
      (match s.main
       case Booting(_) => s.(main := Working, heart := Checking)
       case Announcing(_) => s.(main := Working)
       case Finishing(r, n, _) =>
         if ok then s.(main := Over(r, true))
         else if n + 1 >= FINAL_ATTEMPTS then s.(main := Over(r, false))
         else s.(main := Finishing(r, n + 1, Waiting)))
    case Heart => s.(heart := Checking)
  }

  predicate Enabled(s: State, a: Action) {
    match a
    case Lock(t, _) => WritingOf(s, t) == Some(Waiting) && s.lock == None
    case Truncate(t) => WritingOf(s, t).Some? && WritingOf(s, t).value.Serialised?
    case Fill(t) => WritingOf(s, t).Some? && WritingOf(s, t).value.Truncated?
    case Rename(t) => WritingOf(s, t).Some? && WritingOf(s, t).value.Filled? && s.tmp.Some?
    case Fail(t) => WritingOf(s, t).Some? && !WritingOf(s, t).value.Waiting? && !WritingOf(s, t).value.Closing?
    case Unlock(t) => WritingOf(s, t).Some? && WritingOf(s, t).value.Closing?
    case Event(_) => s.main.Working? && s.lock == None
    case Return(_) => s.main.Working?
    case StopBeating => s.main.Returned?
    case Join => s.main.Joining? && s.heart.Ceased?
    case Finish => s.main.Settling? && s.lock == None
    // A relaxed load may still see the old value.
    case Look(seen) => s.heart.Checking? && (seen || !s.beating)
    case Wake => s.heart.Sleeping?
  }

  function Apply(s: State, a: Action): State
    requires Enabled(s, a)
  {
    match a
    case Lock(t, clock) =>
      var mem := s.mem.(beat := clock);
      WithWriting(s.(lock := Some(t), mem := mem), t, Serialised(mem))
    case Truncate(t) => WithWriting(s.(tmp := Some(Torn)), t, Truncated(WritingOf(s, t).value.bytes))
    case Fill(t) =>
      var bytes := WritingOf(s, t).value.bytes;
      WithWriting(s.(tmp := Some(Whole(bytes))), t, Filled(bytes))
    // The rename takes whatever the temporary file holds.
    case Rename(t) => WithWriting(s.(tmp := None, published := s.published + [s.tmp.value]), t, Closing(true))
    case Fail(t) => WithWriting(s, t, Closing(false))
    case Unlock(t) => Onward(s.(lock := None), t, WritingOf(s, t).value.ok)
    case Event(stage) => s.(mem := s.mem.(state := Running, stage := Some(stage)), main := Announcing(Waiting))
    case Return(r) => s.(main := Returned(r))
    case StopBeating => s.(beating := false, main := Joining(s.main.result))
    case Join => s.(main := Settling(s.main.result))
    case Finish =>
      s.(mem := s.mem.(finished := true, state := EndState(s.main.result)),
         main := Finishing(s.main.result, 0, Waiting))
    case Look(seen) => s.(heart := if seen then Sleeping else Ceased)
    case Wake => s.(heart := Beating(Waiting))
  }

  /** A temporary file left by an earlier runner may be there, whole or torn. */
  predicate Init(s: State) {
    && s.main == Booting(Waiting) && s.heart == NotSpawned && s.lock == None && s.beating
    && s.mem.state == Starting && !s.mem.finished && s.mem.stage == None && s.published == []
  }

  // ----- What every step keeps

  predicate Held(w: Writing) {
    !w.Waiting?
  }

  /** t holds the mutex exactly while it is writing; its bytes are then the current status, and a temporary file
      it has filled is its own. */
  predicate LockFor(s: State, t: Who) {
    var w := WritingOf(s, t);
    && (s.lock == Some(t) <==> w.Some? && Held(w.value))
    && (w.Some? ==>
          match w.value
          case Serialised(b) => b == s.mem
          case Truncated(b) => b == s.mem && s.tmp == Some(Torn)
          case Filled(b) => b == s.mem && s.tmp == Some(Whole(b))
          case _ => true)
  }

  predicate LockInv(s: State) {
    LockFor(s, Pipeline) && LockFor(s, Heart)
  }

  predicate Ending(m: Main) {
    m.Finishing? || m.Over?
  }

  predicate PhaseInv(s: State) {
    && (s.mem.finished <==> Ending(s.main))
    && (Ending(s.main) ==> s.mem.state == EndState(s.main.result))
    && (!Ending(s.main) ==> s.mem.state == Starting || s.mem.state == Running)
    && (Ending(s.main) || s.main.Settling? ==> s.heart.Ceased?)
    && (s.main.Booting? ==> s.heart.NotSpawned?)
  }

  function SameButBeat(a: Status, b: Status): bool {
    a.(beat := 0) == b.(beat := 0)
  }

  predicate Final(c: Content) {
    c.Whole? && c.status.finished
  }

  predicate NoneFinal(s: State) {
    forall i :: 0 <= i < |s.published| ==> !Final(s.published[i])
  }

  /** Every published status is whole; a finished one is the final status of this run. */
  predicate FileInv(s: State) {
    && (forall i :: 0 <= i < |s.published| ==> Sane(s, s.published[i]))
    && (forall i, j :: 0 <= i < j < |s.published| && Final(s.published[i]) ==> Final(s.published[j]))
  }

  predicate Sane(s: State, c: Content) {
    && c.Whole?
    && if c.status.finished then s.mem.finished && SameButBeat(c.status, s.mem)
       else c.status.state == Starting || c.status.state == Running
  }

  /** The final status is in the file exactly when its write succeeded. */
  predicate LandedInv(s: State) {
    match s.main
    case Over(_, landed) => if landed then Last(s) == Some(Whole(s.mem)) else NoneFinal(s)
    case Finishing(_, n, w) =>
      n < FINAL_ATTEMPTS && if w == Closing(true) then Last(s) == Some(Whole(s.mem)) else NoneFinal(s)
    case _ => NoneFinal(s)
  }

  function Last(s: State): Option<Content> {
    if s.published == [] then None else Some(s.published[|s.published| - 1])
  }

  predicate Inv(s: State) {
    LockInv(s) && PhaseInv(s) && FileInv(s) && LandedInv(s)
  }

  lemma InitHolds(s: State)
    requires Init(s)
    ensures Inv(s)
  {
  }

  predicate WriteAction(a: Action) {
    a.Lock? || a.Truncate? || a.Fill? || a.Rename? || a.Fail? || a.Unlock?
  }

  lemma WriteLockOwn(s: State, a: Action)
    requires WriteAction(a) && LockFor(s, a.who) && Enabled(s, a)
    ensures LockFor(Apply(s, a), a.who)
  {
  }

  /** While one thread writes, the other is not inside the mutex. */
  lemma WriteLockOther(s: State, a: Action, t: Who)
    requires LockInv(s) && PhaseInv(s) && Enabled(s, a) && WriteAction(a) && t != a.who
    ensures LockFor(Apply(s, a), t)
  {
  }

  lemma OtherLock(s: State, a: Action, t: Who)
    requires LockInv(s) && PhaseInv(s) && Enabled(s, a) && !WriteAction(a)
    ensures LockFor(Apply(s, a), t)
  {
  }

  lemma StepLockFor(s: State, a: Action, t: Who)
    requires LockInv(s) && PhaseInv(s) && Enabled(s, a)
    ensures LockFor(Apply(s, a), t)
  {
    hide LockFor, PhaseInv, Apply, Enabled;
    if !WriteAction(a) {
      OtherLock(s, a, t);
    } else if t == a.who {
      WriteLockOwn(s, a);
    } else {
      WriteLockOther(s, a, t);
    }
  }

  lemma StepLock(s: State, a: Action)
    requires LockInv(s) && PhaseInv(s) && Enabled(s, a)
    ensures LockInv(Apply(s, a))
  {
    StepLockFor(s, a, Pipeline);
    StepLockFor(s, a, Heart);
    hide LockFor, Apply, PhaseInv, Enabled;
  }

  lemma StepPhase(s: State, a: Action)
    requires PhaseInv(s) && Enabled(s, a)
    ensures PhaseInv(Apply(s, a))
  {
  }

  /** A step that publishes, publishes the status as it is; no other step touches what is published. */
  lemma StepPublishes(s: State, a: Action)
    requires LockInv(s) && Enabled(s, a)
    ensures Apply(s, a).published == if a.Rename? then s.published + [Whole(s.mem)] else s.published
    ensures a.Rename? ==> Apply(s, a).mem == s.mem
  {
  }

  lemma StepMemory(s: State, a: Action)
    requires PhaseInv(s) && Enabled(s, a)
    ensures s.mem.finished ==> SameButBeat(Apply(s, a).mem, s.mem)
  {
  }

  lemma StepFile(s: State, a: Action)
    requires Inv(s) && Enabled(s, a)
    ensures FileInv(Apply(s, a))
  {
    StepPublishes(s, a);
    StepMemory(s, a);
    StepPhase(s, a);
    var t := Apply(s, a);
    hide LockInv, Enabled, Apply;
    forall i | 0 <= i < |t.published| ensures Sane(t, t.published[i]) {
      if i < |s.published| {
        assert Sane(s, s.published[i]);
      }
    }
  }

  lemma StepLanded(s: State, a: Action)
    requires Inv(s) && Enabled(s, a)
    ensures LandedInv(Apply(s, a))
  {
    StepPublishes(s, a);
    hide FileInv;
    if a.Rename? {
      RenameLands(s, a);
    }
  }

  lemma RenameLands(s: State, a: Action)
    requires Inv(s) && Enabled(s, a) && a.Rename?
    ensures LandedInv(Apply(s, a))
  {
    StepPublishes(s, a);
    hide FileInv;
    var t := Apply(s, a);
    assert Last(t) == Some(Whole(s.mem));
  }

  lemma StepHolds(s: State, a: Action)
    requires Inv(s) && Enabled(s, a)
    ensures Inv(Apply(s, a))
  {
    StepLock(s, a);
    StepPhase(s, a);
    StepFile(s, a);
    StepLanded(s, a);
  }

  // ----- Whole runs

  ghost predicate IsRun(ss: seq<State>, acts: seq<Action>) {
    && |ss| == |acts| + 1 && Init(ss[0])
    && forall i :: 0 <= i < |acts| ==> Enabled(ss[i], acts[i]) && ss[i + 1] == Apply(ss[i], acts[i])
  }

  lemma {:induction false} RunHolds(ss: seq<State>, acts: seq<Action>, i: nat)
    requires IsRun(ss, acts) && i < |ss|
    ensures Inv(ss[i])
  {
    hide Inv, Enabled, Apply;
    if i == 0 {
      InitHolds(ss[0]);
    } else {
      RunHolds(ss, acts, i - 1);
      assert Enabled(ss[i - 1], acts[i - 1]);
      StepHolds(ss[i - 1], acts[i - 1]);
    }
  }

  lemma OneMore(s: State, a: Action)
    requires Inv(s) && Enabled(s, a)
    ensures s.published <= Apply(s, a).published
  {
    hide Apply, Enabled;
    StepPublishes(s, a);
  }

  lemma {:induction false} PublishedGrows(ss: seq<State>, acts: seq<Action>, i: nat, j: nat)
    requires IsRun(ss, acts) && i <= j < |ss|
    ensures ss[i].published <= ss[j].published
  {
    hide Apply, Enabled, Inv, Init;
    if i < j {
      PublishedGrows(ss, acts, i, j - 1);
      RunHolds(ss, acts, j - 1);
      OneMore(ss[j - 1], acts[j - 1]);
    }
  }

  /** In every interleaving: the status file always holds one whole snapshot; a snapshot says finished only with
      the state that tells how this run returned; and once the file says so, no later write changes that. */
  lemma FileNeverMisleads(ss: seq<State>, acts: seq<Action>, i: nat, j: nat)
    requires IsRun(ss, acts) && i <= j < |ss| && Last(ss[i]).Some?
    ensures Last(ss[i]).value.Whole?
    ensures Final(Last(ss[i]).value) ==>
              && Ending(ss[i].main) && Last(ss[i]).value.status.state == EndState(ss[i].main.result)
              && Last(ss[j]).Some? && Final(Last(ss[j]).value)
              && Last(ss[j]).value.status.state == EndState(ss[i].main.result)
              && Tells(Last(ss[i]).value.status.state, ss[i].main.result)
              && Tells(Last(ss[j]).value.status.state, ss[i].main.result)
  {
    RunHolds(ss, acts, i);
    RunHolds(ss, acts, j);
    PublishedGrows(ss, acts, i, j);
    hide IsRun, LockInv, LandedInv;
    var p, q := ss[i].published, ss[j].published;
    assert p[|p| - 1] == q[|p| - 1];
    assert Sane(ss[i], p[|p| - 1]) && Sane(ss[j], q[|p| - 1]) && Sane(ss[j], q[|q| - 1]);
    if Final(p[|p| - 1]) {
      assert |p| - 1 < |q| - 1 ==> Final(q[|q| - 1]);
    }
  }

  /** The stage that was last announced, if any was. */
  function Announced(acts: seq<Action>): Option<nat> {
    if acts == [] then None
    else if acts[|acts| - 1].Event? then Some(acts[|acts| - 1].stage)
    else Announced(acts[..|acts| - 1])
  }

  /** The status tells of these announcements. */
  predicate StageTold(m: Status, acts: seq<Action>) {
    && m.stage == Announced(acts)
    && (!m.finished ==> (m.state == Running <==> Announced(acts).Some?))
    && (!m.finished ==> (m.state == Starting <==> Announced(acts) == None))
  }

  lemma StageStep(s: State, a: Action, acts: seq<Action>)
    requires StageTold(s.mem, acts) && Enabled(s, a)
    ensures StageTold(Apply(s, a).mem, acts + [a])
  {
    assert (acts + [a])[..|acts|] == acts;
  }

  /** In every interleaving the status tells the stage announced last, and until the run has returned it is running
      exactly when some stage was announced. */
  lemma {:induction false} StageIsNewest(ss: seq<State>, acts: seq<Action>, i: nat)
    requires IsRun(ss, acts) && i <= |acts|
    ensures StageTold(ss[i].mem, acts[..i])
  {
    if i > 0 {
      var k := i - 1;
      StageIsNewest(ss, acts, k);
      assert acts[..i] == acts[..k] + [acts[k]];
      hide Apply, Enabled, StageTold, Init;
      assert Enabled(ss[k], acts[k]);
      StageStep(ss[k], acts[k], acts[..k]);
    }
  }

  /** The final writes that have failed by step i. */
  ghost function FailedFinals(ss: seq<State>, acts: seq<Action>, i: nat): set<nat>
    requires i <= |ss| && i <= |acts|
  {
    set k: nat | k < i && acts[k] == Unlock(Pipeline) && ss[k].main.Finishing? && ss[k].main.w == Closing(false)
  }

  /** The runner gives up after exactly fifty failed final writes, and not before. */
  predicate Tried(m: Main, failed: nat) {
    match m
    case Finishing(_, n, _) => failed == n && n < 50
    case Over(_, landed) => if landed then failed < 50 else failed == 50
    case _ => failed == 0
  }

  lemma TriedStep(s: State, a: Action, failed: nat)
    requires Tried(s.main, failed) && Enabled(s, a)
    ensures var more := if a == Unlock(Pipeline) && s.main.Finishing? && s.main.w == Closing(false) then 1 else 0;
            Tried(Apply(s, a).main, failed + more)
  {
  }

  lemma {:induction false} FiftyTries(ss: seq<State>, acts: seq<Action>, i: nat)
    requires IsRun(ss, acts) && i <= |acts|
    ensures Tried(ss[i].main, |FailedFinals(ss, acts, i)|)
  {
    if i == 0 {
      assert FailedFinals(ss, acts, 0) == {};
    } else {
      var k := i - 1;
      hide Apply, Enabled, Tried, Init;
      FiftyTries(ss, acts, k);
      assert Enabled(ss[k], acts[k]);
      FailedStep(ss, acts, k);
      hide FailedFinals;
      TriedStep(ss[k], acts[k], |FailedFinals(ss, acts, k)|);
    }
  }

  lemma FailedStep(ss: seq<State>, acts: seq<Action>, k: nat)
    requires k < |ss| && k < |acts|
    ensures |FailedFinals(ss, acts, k + 1)| == |FailedFinals(ss, acts, k)| +
            if acts[k] == Unlock(Pipeline) && ss[k].main.Finishing? && ss[k].main.w == Closing(false) then 1 else 0
  {
    var failed := acts[k] == Unlock(Pipeline) && ss[k].main.Finishing? && ss[k].main.w == Closing(false);
    var one := if failed then {k} else {};
    assert FailedFinals(ss, acts, k + 1) == FailedFinals(ss, acts, k) + one;
  }

  /** When the runner is over, the file shows the final status, exactly, if a final write succeeded, and an
      unfinished one otherwise. */
  lemma FinalStatusLands(ss: seq<State>, acts: seq<Action>, i: nat)
    requires IsRun(ss, acts) && i < |ss| && ss[i].main.Over?
    ensures ss[i].main.landed ==> Last(ss[i]) == Some(Whole(ss[i].mem))
    ensures ss[i].main.landed <==> Last(ss[i]).Some? && Final(Last(ss[i]).value)
    ensures ss[i].mem.finished && ss[i].mem.state == EndState(ss[i].main.result) && ss[i].heart.Ceased?
    ensures Tells(ss[i].mem.state, ss[i].main.result)
    ensures ss[i].main.landed ==> Tells(Last(ss[i]).value.status.state, ss[i].main.result)
  {
    RunHolds(ss, acts, i);
    hide IsRun, LockInv;
  }
}
