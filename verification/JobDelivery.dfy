/** When a routing job delivers, and what a run cut off between its two plan files leaves for the next. */
module JobDelivery {
  import opened Basics
  import opened RouteJob

  /** The run came to its end: no failure, no stop. */
  predicate Delivers(o: Outcome) {
    o.result.Ended? && o.result.report.stop == None
  }

  /** The work as the check and the plan see it. */
  function Cleaned(st: Stages, spec: Spec, board: Board, work: Copper): Copper {
    if Clears(spec) then st.clearFindings(board, work).0 else work
  }

  /** The copper of the main plan. */
  function MainCopper(spec: Spec, fanout: Copper, work: Copper): Copper {
    if Separate(spec) then work else Together(fanout, work)
  }

  /** A fanout plan of its own is to be written. */
  predicate OwnFanout(spec: Spec, fanout: Copper) {
    Separate(spec) && !Bare(fanout)
  }

  /** Each plan to be written can be lowered, and its file does not exist yet. */
  predicate PlansOpen(st: Stages, spec: Spec, board: Board, work: Copper, fanout: Copper, files: map<Path, Plan>) {
    var main := MainCopper(spec, fanout, work);
    && (OwnFanout(spec, fanout) ==> st.lower(board, fanout).Some? && spec.fanoutPlan.value !in files)
    && (!Bare(main) ==>
          && st.lower(board, main).Some? && spec.outputPlan !in files
          && (OwnFanout(spec, fanout) ==> spec.outputPlan != spec.fanoutPlan.value))
  }

  /** The files with the plans that are to be written. */
  function WithPlans(st: Stages, spec: Spec, board: Board, work: Copper, fanout: Copper, files: map<Path, Plan>)
    : map<Path, Plan>
    requires PlansOpen(st, spec, board, work, fanout, files)
  {
    var main := MainCopper(spec, fanout, work);
    var more := if OwnFanout(spec, fanout) then files[spec.fanoutPlan.value := st.lower(board, fanout).value]
                else files;
    if Bare(main) then more else more[spec.outputPlan := st.lower(board, main).value]
  }

  lemma PlanMainDelivers(st: Stages, spec: Spec, board: Board, copper: Copper, files: map<Path, Plan>, own: bool)
    ensures var p := PlanMain(st, spec, board, copper, files, own);
            && (p.ok <==> Bare(copper) || (st.lower(board, copper).Some? && spec.outputPlan !in files))
            && (p.ok ==> p.files == if Bare(copper) then files
                                    else files[spec.outputPlan := st.lower(board, copper).value])
  {
  }

  lemma PlanPassDelivers(st: Stages, spec: Spec, board: Board, work: Copper, fanout: Copper, files: map<Path, Plan>)
    ensures var p := PlanPass(st, spec, board, work, fanout, files);
            && (p.ok <==> PlansOpen(st, spec, board, work, fanout, files))
            && (p.ok ==> p.files == WithPlans(st, spec, board, work, fanout, files))
  {
    var main, own := MainCopper(spec, fanout, work), OwnFanout(spec, fanout);
    hide PlanMain, Bare, Together;
    if own && st.lower(board, fanout).Some? {
      PlanMainDelivers(st, spec, board, main, files[spec.fanoutPlan.value := st.lower(board, fanout).value], true);
    } else {
      PlanMainDelivers(st, spec, board, main, files, false);
    }
  }

  lemma AfterClearDelivers(st: Stages, spec: Spec, files: map<Path, Plan>, board: Board, fanout: Copper, work: Copper,
                           written: seq<Checkpoint>, held: Checkpoint, r: Report)
    requires r.stop == None
    ensures var o := AfterClear(st, spec, files, board, fanout, work, written, held, r);
            && (Delivers(o) <==> !CheckPass(st, board, work).broke && PlansOpen(st, spec, board, work, fanout, files))
            && (Delivers(o) ==> o.files == WithPlans(st, spec, board, work, fanout, files))
  {
    PlanPassDelivers(st, spec, board, work, fanout, files);
    hide PlanPass, PlansOpen, CheckPass, WithPlans;
  }

  lemma AfterOptimizeDelivers(st: Stages, spec: Spec, files: map<Path, Plan>, board: Board, fanout: Copper,
                              work: Copper,
                              written: seq<Checkpoint>, held: Checkpoint, r: Report)
    requires r.stop == None
    ensures var o, clean := AfterOptimize(st, spec, NO_STOPS, files, board, fanout, work, written, held, r),
                            Cleaned(st, spec, board, work);
            && (Delivers(o) <==> !CheckPass(st, board, clean).broke && PlansOpen(st, spec, board, clean, fanout, files))
            && (Delivers(o) ==> o.files == WithPlans(st, spec, board, clean, fanout, files))
  {
    hide AfterClear, PlansOpen, CheckPass, WithPlans;
    if Clears(spec) {
      var (clean, cleared) := st.clearFindings(board, work);
      AfterClearDelivers(st, spec, files, board, fanout, clean, written, held,
                         Noted(r.(cleared := cleared), Clear, if cleared.Some? then Finished else Faulted));
    } else {
      AfterClearDelivers(st, spec, files, board, fanout, work, written, held, r);
    }
  }

  /** The cleaned work a run started from given ends with. */
  function FinalWork(st: Stages, spec: Spec, given: Option<Checkpoint>, n: nat): Copper
    requires Ready(st, spec)
  {
    Cleaned(st, spec, BoardOf(st, spec), Passes(st, spec, Target(spec, given, n)).0)
  }

  /** What a run needs in order to deliver: a check that does not break, and open plans. */
  predicate CanDeliver(st: Stages, spec: Spec, given: Option<Checkpoint>, n: nat, files: map<Path, Plan>)
    requires Ready(st, spec)
  {
    && !CheckPass(st, BoardOf(st, spec), FinalWork(st, spec, given, n)).broke
    && PlansOpen(st, spec, BoardOf(st, spec), FinalWork(st, spec, given, n), Start(st, spec).fanout, files)
  }

  /** A run delivers exactly when its check does not break, every plan it has to write can be lowered and no file
      is in the way; it then leaves exactly those plans beside the files there were. */
  lemma DeliversExactly(st: Stages, spec: Spec, given: Option<Checkpoint>, n: nat, files: map<Path, Plan>)
    requires Sound(st, spec, given, n)
    ensures var o := Run(st, spec, given, NO_STOPS, files);
            && (Delivers(o) <==> CanDeliver(st, spec, given, n, files))
            && (Delivers(o) ==>
                  o.files == WithPlans(st, spec, BoardOf(st, spec), FinalWork(st, spec, given, n),
                                       Start(st, spec).fanout, files))
  {
    var written, held, r := Unfold(st, spec, given, n, NO_STOPS, files);
    hide Run, AfterOptimize, Ready, Passes, BoardOf, Holds, PlansOpen, CheckPass, Cleaned, WithPlans;
    AfterOptimizeDelivers(st, spec, files, BoardOf(st, spec), Start(st, spec).fanout,
                          Passes(st, spec, Target(spec, given, n)).0, written, held, r);
  }

  /** `prepare` starts no runner while one of the two plan files exists. */
  predicate Prepared(spec: Spec, files: map<Path, Plan>) {
    spec.outputPlan !in files && (spec.fanoutPlan.Some? ==> spec.fanoutPlan.value !in files)
  }

  /** The plans to be written can all be lowered. */
  predicate Lowers(st: Stages, spec: Spec, board: Board, work: Copper, fanout: Copper) {
    var main := MainCopper(spec, fanout, work);
    (OwnFanout(spec, fanout) ==> st.lower(board, fanout).Some?) && (!Bare(main) ==> st.lower(board, main).Some?)
  }

  /** A prepared job delivers exactly when its check does not break and its plans can be lowered. */
  lemma PreparedDelivers(st: Stages, spec: Spec, given: Option<Checkpoint>, n: nat, files: map<Path, Plan>)
    requires Sound(st, spec, given, n) && Prepared(spec, files)
    ensures Delivers(Run(st, spec, given, NO_STOPS, files)) <==>
            && !CheckPass(st, BoardOf(st, spec), FinalWork(st, spec, given, n)).broke
            && Lowers(st, spec, BoardOf(st, spec), FinalWork(st, spec, given, n), Start(st, spec).fanout)
  {
    DeliversExactly(st, spec, given, n, files);
    hide Run, Passes, BoardOf, CheckPass, Cleaned, Delivers, Make, Holds;
  }

  /** The file states a delivering run passes through. */
  function States(st: Stages, spec: Spec, given: Option<Checkpoint>, n: nat, files: map<Path, Plan>)
    : seq<map<Path, Plan>>
    requires Ready(st, spec)
  {
    PlanStates(st, spec, BoardOf(st, spec), FinalWork(st, spec, given, n), Start(st, spec).fanout, files)
  }

  lemma StatesOfOpen(st: Stages, spec: Spec, board: Board, work: Copper, fanout: Copper, files: map<Path, Plan>,
                     f: map<Path, Plan>)
    requires PlansOpen(st, spec, board, work, fanout, files) && f in PlanStates(st, spec, board, work, fanout, files)
    ensures PlansOpen(st, spec, board, work, fanout, f) <==> f == files
  {
    var main := MainCopper(spec, fanout, work);
    if OwnFanout(spec, fanout) {
      var mid := files[spec.fanoutPlan.value := st.lower(board, fanout).value];
      assert f == files || f == mid || (!Bare(main) && f == mid[spec.outputPlan := st.lower(board, main).value]);
    } else {
      assert f == files || (!Bare(main) && f == files[spec.outputPlan := st.lower(board, main).value]);
    }
  }

  /** Of the states a delivering run passes through, the same run delivers again only from the first. */
  lemma AgainOnlyFromStart(st: Stages, spec: Spec, given: Option<Checkpoint>, n: nat, files: map<Path, Plan>,
                           f: map<Path, Plan>)
    requires Sound(st, spec, given, n) && Delivers(Run(st, spec, given, NO_STOPS, files))
    requires f in States(st, spec, given, n, files)
    ensures Delivers(Run(st, spec, given, NO_STOPS, f)) <==> f == files
  {
    DeliversExactly(st, spec, given, n, files);
    DeliversExactly(st, spec, given, n, f);
    hide Run, Ready, Passes, BoardOf, Sound, PlansOpen, CheckPass, PlanStates, Delivers;
    StatesOfOpen(st, spec, BoardOf(st, spec), FinalWork(st, spec, given, n), Start(st, spec).fanout, files, f);
  }

  /** A run with a fanout plan of its own passes through the state in which only that plan is written, and from
      there no run, fresh or resumed from any checkpoint, ever delivers or writes a file. */
  lemma FanoutInTheWay(st: Stages, spec: Spec, given: Option<Checkpoint>, n: nat, files: map<Path, Plan>)
    returns (mid: map<Path, Plan>)
    requires Sound(st, spec, given, n) && Delivers(Run(st, spec, given, NO_STOPS, files))
    requires OwnFanout(spec, Start(st, spec).fanout)
    ensures mid in States(st, spec, given, n, files)
    ensures st.lower(BoardOf(st, spec), Start(st, spec).fanout).Some?
    ensures mid == files[spec.fanoutPlan.value := st.lower(BoardOf(st, spec), Start(st, spec).fanout).value]
    ensures forall later, k :: Sound(st, spec, later, k) ==> Stuck(st, spec, later, mid)
  {
    DeliversExactly(st, spec, given, n, files);
    mid := files[spec.fanoutPlan.value := st.lower(BoardOf(st, spec), Start(st, spec).fanout).value];
    hide Run, Ready, Passes, BoardOf, Sound, CheckPass, Delivers, FinalWork, Stuck;
    SecondState(st, spec, BoardOf(st, spec), FinalWork(st, spec, given, n), Start(st, spec).fanout, files);
    forall later, k | Sound(st, spec, later, k) ensures Stuck(st, spec, later, mid) {
      StuckWithFanout(st, spec, later, k, mid);
    }
  }

  /** The run neither delivers nor writes. */
  predicate Stuck(st: Stages, spec: Spec, given: Option<Checkpoint>, files: map<Path, Plan>) {
    !Delivers(Run(st, spec, given, NO_STOPS, files)) && Run(st, spec, given, NO_STOPS, files).files == files
  }

  lemma SecondState(st: Stages, spec: Spec, board: Board, work: Copper, fanout: Copper, files: map<Path, Plan>)
    requires PlansOpen(st, spec, board, work, fanout, files) && OwnFanout(spec, fanout)
    ensures files[spec.fanoutPlan.value := st.lower(board, fanout).value] in
              PlanStates(st, spec, board, work, fanout, files)
  {
    var mid := files[spec.fanoutPlan.value := st.lower(board, fanout).value];
    assert mid in MainStates(st, spec, board, work, mid);
  }

  /** With the file of the fanout plan there, a run that has a fanout to plan writes nothing. */
  lemma StuckWithFanout(st: Stages, spec: Spec, given: Option<Checkpoint>, n: nat, files: map<Path, Plan>)
    requires Sound(st, spec, given, n) && OwnFanout(spec, Start(st, spec).fanout) && spec.fanoutPlan.value in files
    ensures Stuck(st, spec, given, files)
  {
    var written, held, r := Unfold(st, spec, given, n, NO_STOPS, files);
    hide Run, AfterOptimize, Ready, Passes, BoardOf, Holds;
    var board, fanout, work := BoardOf(st, spec), Start(st, spec).fanout, Passes(st, spec, Target(spec, given, n)).0;
    AfterOptimizeStuck(st, spec, files, board, fanout, work, written, held, r);
  }

  lemma AfterOptimizeStuck(st: Stages, spec: Spec, files: map<Path, Plan>, board: Board, fanout: Copper, work: Copper,
                           written: seq<Checkpoint>, held: Checkpoint, r: Report)
    requires OwnFanout(spec, fanout) && spec.fanoutPlan.value in files
    ensures var o := AfterOptimize(st, spec, NO_STOPS, files, board, fanout, work, written, held, r);
            !Delivers(o) && o.files == files
  {
    hide AfterClear;
    if Clears(spec) {
      var (clean, cleared) := st.clearFindings(board, work);
      AfterClearStuck(st, spec, files, board, fanout, clean, written, held,
                      Noted(r.(cleared := cleared), Clear, if cleared.Some? then Finished else Faulted));
    } else {
      AfterClearStuck(st, spec, files, board, fanout, work, written, held, r);
    }
  }

  lemma AfterClearStuck(st: Stages, spec: Spec, files: map<Path, Plan>, board: Board, fanout: Copper, work: Copper,
                        written: seq<Checkpoint>, held: Checkpoint, r: Report)
    requires OwnFanout(spec, fanout) && spec.fanoutPlan.value in files
    ensures var o := AfterClear(st, spec, files, board, fanout, work, written, held, r);
            !Delivers(o) && o.files == files
  {
    PlanStuck(st, spec, board, work, fanout, files);
    hide PlanPass, CheckPass;
  }

  lemma PlanStuck(st: Stages, spec: Spec, board: Board, work: Copper, fanout: Copper, files: map<Path, Plan>)
    requires OwnFanout(spec, fanout) && spec.fanoutPlan.value in files
    ensures var p := PlanPass(st, spec, board, work, fanout, files); !p.ok && p.files == files
  {
  }

  // ----- A job that gets stuck

  /** Native routing that makes a fanout of one track and work of one track. */
  function FanoutStages(): Stages {
    Stages(true, Some(0), b => true, b => Some(0), 0, b => (Copper([], []), 0), b => Unreadable,
           (b, s) => Routed(Copper([1], []), Copper([2], []), 0), c => (c, Copper([], [])), (c: Copper, b: Board) => b,
           (b: Board, c: Copper) => (c, 0, 0), s => false,
           (b: Board, s: Settings, c: Copper, d: Copper) => (d, 0), (b: Board, c: Copper) => (c, None),
           (b, c) => Ran(0), (b, c) => 0, (b: Board, c: Copper) => if c.tracks == [1] then Some(10) else Some(20))
  }

  /** From no files, this job delivers a fanout plan and a main plan; cut off between the two, it is stuck. */
  lemma FanoutJobGetsStuck()
    ensures var st, spec := FanoutStages(), Spec(7, Native, true, false, None, Some(1), 0);
            && Sound(st, spec, None, 0) && Delivers(Run(st, spec, None, NO_STOPS, map[]))
            && Run(st, spec, None, NO_STOPS, map[]).files == map[1 := 10, 0 := 20]
            && map[1 := 10] in States(st, spec, None, 0, map[]) && Stuck(st, spec, None, map[1 := 10])
  {
    var st, spec := FanoutStages(), Spec(7, Native, true, false, None, Some(1), 0);
    assert Begin(st, spec) == Begun(0, 0);
    assert Start(st, spec) == Made(0, Copper([2], []), Copper([], []), Copper([1], []), 0);
    assert BoardOf(st, spec) == 0;
    assert Passes(st, spec, 0).0 == Copper([2], []);
    assert FinalWork(st, spec, None, 0) == Copper([2], []);
    assert CanDeliver(st, spec, None, 0, map[]);
    DeliversExactly(st, spec, None, 0, map[]);
    var mid := FanoutInTheWay(st, spec, None, 0, map[]);
    assert mid == map[1 := 10];
  }
}
