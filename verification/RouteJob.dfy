/** The checkpointed routing pipeline: stages with stop, resume and gating. The stages themselves are arbitrary
    deterministic functions of their inputs; values they only hand on are known by a number. */
module RouteJob {
  import opened Basics

  type Board = nat
  type Settings = nat
  type Plan = nat
  type Path = nat

  datatype Copper = Copper(tracks: seq<nat>, vias: seq<nat>)

  predicate Bare(c: Copper) {
    c.tracks == [] && c.vias == []
  }

  /** Fanout first, then the work. */
  function Together(fanout: Copper, work: Copper): Copper {
    Copper(fanout.tracks + work.tracks, fanout.vias + work.vias)
  }

  datatype StopKind = StageUnavailable | StageFailed | InputError | StopRequested | TimeLimit

  /** Why a stage did not produce copper: its panic, told apart, or an ordinary error. */
  datatype StageError = Unavailable | Panicked | Ordinary

  function KindOf(e: StageError): StopKind {
    match e
    case Unavailable => StageUnavailable
    case Panicked => StageFailed
    case Ordinary => InputError
  }

  datatype Source = BoardUnlocked | FromPlan | Native

  datatype Spec = Spec(
    hash: nat, source: Source, defaultAllowances: bool, optimize: bool, clear: Option<bool>,
    fanoutPlan: Option<Path>, outputPlan: Path)

  datatype Routed = Routed(fanout: Copper, routed: Copper, excluded: nat) | NotRouted(error: StageError)

  datatype PlanRead = Unreadable | Refused | Read(copper: Copper)

  datatype Summary = Summary(authoritative: bool, violations: nat, broke: bool)

  datatype Checked = Ran(violations: nat) | NotBuilt | Broke

  /** The job's inputs and stages. */
  datatype Stages = Stages(
    valid: bool,
    load: Option<Board>,
    scopeFound: Board -> bool,
    resolve: Board -> Option<Settings>,
    plainSettings: Settings,
    take: Board -> (Copper, Board),
    readPlan: Board -> PlanRead,
    routeNative: (Board, Settings) -> Routed,
    partition: Copper -> (Copper, Copper),
    freeze: (Copper, Board) -> Board,
    optimizeGuarded: (Board, Copper) -> (Copper, nat, nat),
    hasReference: Settings -> bool,
    enforceReference: (Board, Settings, Copper, Copper) -> (Copper, nat),
    clearFindings: (Board, Copper) -> (Copper, Option<nat>),
    checkRouted: (Board, Copper) -> Checked,
    interimCheck: (Board, Copper) -> nat,
    lower: (Board, Copper) -> Option<Plan>)

  datatype Stage = Ingest | Connectivity | Route | Optimize | Clear | Check | ToPlan

  datatype State = Finished | FromCheckpoint | Skipped | Faulted

  datatype Checkpoint = Checkpoint(
    specHash: nat, completed: seq<Stage>, copper: Copper, frozen: Copper, fanout: Copper,
    optimize: Option<nat>, check: Option<Summary>)

  datatype Counts = Counts(tracks: nat, vias: nat)

  function CountOf(c: Copper): Counts {
    Counts(|c.tracks|, |c.vias|)
  }

  /** What a report tells of the routing and the S6 the run itself made: the connections excluded by policy, the
      copper the run started from, the nets S6 put back and its check of the reference planes. */
  datatype Account = Account(excluded: nat, work: Counts, reverted: nat, reference: Option<nat>)

  const NO_ACCOUNT := Account(0, Counts(0, 0), 0, None)

  /** planned is the plan whose items and chunks are told. */
  datatype Report = Report(
    resumed: bool, stages: seq<(Stage, State)>, stop: Option<StopKind>, account: Account, fanout: Counts,
    optimize: Option<nat>, cleared: Option<nat>, check: Option<Summary>, fanoutPlanned: bool, planned: Option<Plan>)

  datatype Result = Failed | Ended(report: Report)

  /** What the stop check would answer at its two places. */
  datatype Stops = Stops(afterRoute: Option<StopKind>, afterOptimize: Option<StopKind>)

  const NO_STOPS := Stops(None, None)

  /** What a run leaves: its result, the checkpoints it wrote in order, and the plan files. */
  datatype Outcome = Outcome(result: Result, saved: seq<Checkpoint>, files: map<Path, Plan>)

  // ----- The run as a composition of stages

  datatype Begun = BeginFails | BeginStops(kind: StopKind) | Begun(board: Board, settings: Settings)

  /** `NativeJobSpec::validate`: the two plans are different files; its other conditions are one flag. */
  predicate Validates(st: Stages, spec: Spec) {
    st.valid && spec.fanoutPlan != Some(spec.outputPlan)
  }

  function Begin(st: Stages, spec: Spec): Begun {
    if !Validates(st, spec) || st.load.None? || !st.scopeFound(st.load.value) then BeginFails
    else
      var board := st.load.value;
      if spec.source != Native then
        if spec.defaultAllowances then Begun(board, st.plainSettings) else BeginStops(InputError)
      else if st.resolve(board).None? then BeginStops(InputError)
      else Begun(board, st.resolve(board).value)
  }

  datatype Made =
    | MakeFails
    | MakeStops(kind: StopKind)
    | Made(board: Board, work: Copper, frozen: Copper, fanout: Copper, excluded: nat)

  function Taken(st: Stages, board: Board, routed: Copper): Made {
    Made(board, st.partition(routed).0, st.partition(routed).1, Copper([], []), 0)
  }

  /** Routing, or taking existing copper, from nothing. */
  function Make(st: Stages, spec: Spec, board: Board, settings: Settings): Made {
    match spec.source
    case BoardUnlocked => Taken(st, st.take(board).1, st.take(board).0)
    case FromPlan =>
      (match st.readPlan(board)
       case Unreadable => MakeFails
       case Refused => MakeStops(InputError)
       case Read(copper) => Taken(st, board, copper))
    case Native =>
      match st.routeNative(board, settings)
      case NotRouted(e) => MakeStops(KindOf(e))
      case Routed(fanout, routed, excluded) =>
        Made(board, st.partition(routed).0, st.partition(routed).1, fanout, excluded)
  }

  /** The board a checkpoint's copper goes back on. */
  function Retaken(st: Stages, spec: Spec, board: Board): Board {
    if spec.source == BoardUnlocked then st.take(board).1 else board
  }

  function Remake(st: Stages, spec: Spec, board: Board, c: Checkpoint): Made {
    Made(Retaken(st, spec, board), c.copper, c.frozen, c.fanout, 0)
  }

  function Frozen(st: Stages, m: Made): Board
    requires m.Made?
  {
    st.freeze(m.fanout, st.freeze(m.frozen, m.board))
  }

  /** What one pass of S6 leaves and tells. */
  datatype Optimized = Optimized(work: Copper, did: nat, reverted: nat, reference: Option<nat>)

  /** One pass of S6: the guarded optimizer, then the reference planes. */
  function Pass(st: Stages, board: Board, settings: Settings, work: Copper): Optimized {
    var (moved, did, reverted) := st.optimizeGuarded(board, work);
    if st.hasReference(settings) then
      var (kept, told) := st.enforceReference(board, settings, work, moved);
      Optimized(kept, did, reverted, Some(told))
    else Optimized(moved, did, reverted, None)
  }

  predicate Clears(spec: Spec) {
    if spec.clear.Some? then spec.clear.value else spec.source == Native
  }

  function CheckPass(st: Stages, board: Board, work: Copper): Summary {
    match st.checkRouted(board, work)
    case Ran(n) => Summary(true, n, false)
    case NotBuilt => Summary(false, st.interimCheck(board, work), false)
    case Broke => Summary(false, st.interimCheck(board, work), true)
  }

  /** `write_new_atomic`: a file that must not exist yet. */
  function WriteNew(files: map<Path, Plan>, path: Path, plan: Plan): Option<map<Path, Plan>> {
    if path in files then None else Some(files[path := plan])
  }

  /** The files and what was planned; None when writing or lowering failed. */
  datatype Planned = Planned(ok: bool, files: map<Path, Plan>, fanoutPlanned: bool, planned: Option<Plan>)

  predicate Separate(spec: Spec) {
    spec.fanoutPlan.Some? && spec.source == Native
  }

  function WriteOne(st: Stages, board: Board, path: Path, copper: Copper, files: map<Path, Plan>)
    : Option<map<Path, Plan>>
  {
    if st.lower(board, copper).None? then None else WriteNew(files, path, st.lower(board, copper).value)
  }

  function PlanMain(st: Stages, spec: Spec, board: Board, copper: Copper, files: map<Path, Plan>, fanoutPlanned: bool)
    : Planned
  {
    if Bare(copper) then Planned(true, files, fanoutPlanned, None)
    else
      match WriteOne(st, board, spec.outputPlan, copper, files)
      case None => Planned(false, files, fanoutPlanned, None)
      case Some(more) => Planned(true, more, fanoutPlanned, st.lower(board, copper))
  }

  /** S8. */
  function PlanPass(st: Stages, spec: Spec, board: Board, work: Copper, fanout: Copper, files: map<Path, Plan>)
    : Planned
  {
    if !Separate(spec) then PlanMain(st, spec, board, Together(fanout, work), files, false)
    else if Bare(fanout) then PlanMain(st, spec, board, work, files, false)
    else
      match WriteOne(st, board, spec.fanoutPlan.value, fanout, files)
      case None => Planned(false, files, false, None)
      case Some(more) => PlanMain(st, spec, board, work, more, true)
  }

  /** The file states the main plan passes through. */
  function MainStates(st: Stages, spec: Spec, board: Board, copper: Copper, files: map<Path, Plan>)
    : seq<map<Path, Plan>>
  {
    if Bare(copper) then [files]
    else
      match WriteOne(st, board, spec.outputPlan, copper, files)
      case None => [files]
      case Some(more) => [files, more]
  }

  /** The file states S8 passes through, one write after another: a run cut off in S8 leaves one of them. */
  function PlanStates(st: Stages, spec: Spec, board: Board, work: Copper, fanout: Copper, files: map<Path, Plan>)
    : seq<map<Path, Plan>>
  {
    if !Separate(spec) then MainStates(st, spec, board, Together(fanout, work), files)
    else if Bare(fanout) then MainStates(st, spec, board, work, files)
    else
      match WriteOne(st, board, spec.fanoutPlan.value, fanout, files)
      case None => [files]
      case Some(more) => [files] + MainStates(st, spec, board, work, more)
  }

  predicate Done(resume: Option<Checkpoint>, stage: Stage) {
    resume.Some? && stage in resume.value.completed
  }

  function Matching(spec: Spec, resume: Option<Checkpoint>): Option<Checkpoint> {
    if resume.Some? && resume.value.specHash == spec.hash then resume else None
  }

  function Opening(resumed: bool): Report {
    Report(resumed, [(Ingest, Finished), (Connectivity, Finished)], None, NO_ACCOUNT, Counts(0, 0), None, None, None,
           false, None)
  }

  function Noted(r: Report, stage: Stage, state: State): Report {
    r.(stages := r.stages + [(stage, state)])
  }

  function Stopped(r: Report, kind: StopKind): Report {
    r.(stop := Some(kind))
  }

  /** The whole run. */
  function Run(st: Stages, spec: Spec, given: Option<Checkpoint>, stops: Stops, files: map<Path, Plan>): Outcome {
    var resume := Matching(spec, given);
    var r := Opening(resume.Some?);
    match Begin(st, spec)
    case BeginFails => Outcome(Failed, [], files)
    case BeginStops(kind) => Outcome(Ended(Stopped(r, kind)), [], files)
    case Begun(board, settings) =>
      var again := Done(resume, Route);
      match if again then Remake(st, spec, board, resume.value) else Make(st, spec, board, settings)
      case MakeFails => Outcome(Failed, [], files)
      case MakeStops(kind) => Outcome(Ended(Stopped(Noted(r, Route, Faulted), kind)), [], files)
      case Made(b, work, frozen, fanout, excluded) =>
        var m := Made(b, work, frozen, fanout, excluded);
        var told := r.(account := Account(excluded, CountOf(work), 0, None), fanout := CountOf(fanout));
        var routed := Noted(told, Route, if again then FromCheckpoint else Finished);
        AfterRoute(st, spec, resume, stops, files, Frozen(st, m), settings, m, routed)
  }

  function RouteCheckpoint(spec: Spec, m: Made): Checkpoint
    requires m.Made?
  {
    Checkpoint(spec.hash, [Route], m.work, m.frozen, m.fanout, None, None)
  }

  function AfterRoute(st: Stages, spec: Spec, resume: Option<Checkpoint>, stops: Stops, files: map<Path, Plan>,
                      board: Board, settings: Settings, m: Made, r: Report): Outcome
    requires m.Made?
  {
    var cp := RouteCheckpoint(spec, m);
    if stops.afterRoute.Some? then Outcome(Ended(Stopped(r, stops.afterRoute.value)), [cp], files)
    else if !spec.optimize then
      AfterOptimize(st, spec, stops, files, board, m.fanout, m.work, [cp], cp, Noted(r, Optimize, Skipped))
    else if Done(resume, Optimize) then
      // Held, not written: the file keeps the route checkpoint until the check.
      var kept := resume.value.optimize;
      AfterOptimize(st, spec, stops, files, board, m.fanout, m.work, [cp],
                    cp.(optimize := kept, completed := cp.completed + [Optimize]),
                    Noted(r.(optimize := kept), Optimize, FromCheckpoint))
    else
      var s := Pass(st, board, settings, m.work);
      var now := cp.(optimize := Some(s.did), copper := s.work, completed := cp.completed + [Optimize]);
      AfterOptimize(st, spec, stops, files, board, m.fanout, s.work, [cp, now], now,
                    Noted(WithPass(r, s), Optimize, Finished))
  }

  /** The report with what S6 told. */
  function WithPass(r: Report, s: Optimized): Report {
    r.(optimize := Some(s.did), account := r.account.(reverted := s.reverted, reference := s.reference))
  }

  /** Clear, check and plan; written are the checkpoints so far, held the one in memory. */
  function AfterOptimize(st: Stages, spec: Spec, stops: Stops, files: map<Path, Plan>, board: Board, fanout: Copper,
                         work: Copper, written: seq<Checkpoint>, held: Checkpoint, r: Report): Outcome
  {
    if stops.afterOptimize.Some? then Outcome(Ended(Stopped(r, stops.afterOptimize.value)), written, files)
    else if Clears(spec) then
      var (clean, cleared) := st.clearFindings(board, work);
      AfterClear(st, spec, files, board, fanout, clean, written, held,
                 Noted(r.(cleared := cleared), Clear, if cleared.Some? then Finished else Faulted))
    else AfterClear(st, spec, files, board, fanout, work, written, held, r)
  }

  function AfterClear(st: Stages, spec: Spec, files: map<Path, Plan>, board: Board, fanout: Copper, work: Copper,
                      written: seq<Checkpoint>, held: Checkpoint, r: Report): Outcome
  {
    var s := CheckPass(st, board, work);
    var k := Noted(r.(check := Some(s)), Check, if s.broke then Faulted else Finished);
    if s.broke then Outcome(Ended(Stopped(k, StageFailed)), written, files)
    else
      var saved := written + [held.(check := Some(s), completed := held.completed + [Check])];
      var p := PlanPass(st, spec, board, work, fanout, files);
      if !p.ok then Outcome(Failed, saved, p.files)
      else
        var planned := k.(fanoutPlanned := p.fanoutPlanned, planned := p.planned);
        Outcome(Ended(Noted(planned, ToPlan, if p.planned.Some? then Finished else Skipped)), saved, p.files)
  }

  // ----- What an uninterrupted run does, told from the stages

  const NO_COPPER := Copper([], [])

  /** The run ended with this stop and wrote no plan. */
  predicate EndsBy(stop: StopKind, files: map<Path, Plan>, r: Result, after: map<Path, Plan>) {
    r.Ended? && r.report.stop == Some(stop) && after == files
  }

  /** What becomes of routed copper on its board: set apart, frozen, optimized if asked, kept to its reference planes
      if there are any, cleared of findings if asked or if nothing is said of native copper, checked and planned. */
  predicate FromRouted(st: Stages, spec: Spec, files: map<Path, Plan>, settings: Settings, bare: Board, routed: Copper,
                       fanout: Copper, excluded: nat, r: Result, after: map<Path, Plan>)
  {
    var (work, frozen) := st.partition(routed);
    var board := st.freeze(fanout, st.freeze(frozen, bare));
    var (clean, told) := Worked(st, spec, settings, board, work, fanout, excluded);
    FromClean(st, spec, files, board, clean, fanout, told, r, after)
  }

  /** The copper to check, and the report so far. */
  function Worked(st: Stages, spec: Spec, settings: Settings, board: Board, work: Copper, fanout: Copper, excluded: nat)
    : (Copper, Report)
  {
    var (moved, did, reverted) := st.optimizeGuarded(board, work);
    var (kept, reference) := st.enforceReference(board, settings, work, moved);
    var planes := spec.optimize && st.hasReference(settings);
    var optimized := if !spec.optimize then work else if planes then kept else moved;
    var clears := spec.clear == Some(true) || (spec.clear == None && spec.source == Native);
    var (cleared, findings) := st.clearFindings(board, optimized);
    var stages := [(Ingest, Finished), (Connectivity, Finished), (Route, Finished),
                   (Optimize, if spec.optimize then Finished else Skipped)]
                  + if clears then [(Clear, if findings.Some? then Finished else Faulted)] else [];
    var account := Account(excluded, Counts(|work.tracks|, |work.vias|), if spec.optimize then reverted else 0,
                           if planes then Some(reference) else None);
    (if clears then cleared else optimized,
     Report(false, stages, None, account, Counts(|fanout.tracks|, |fanout.vias|),
            if spec.optimize then Some(did) else None, if clears then findings else None, None, false, None))
  }

  /** Copper that the built checker accepts or, if there is none, the interim one, is planned; a broken check stops. */
  predicate FromClean(st: Stages, spec: Spec, files: map<Path, Plan>, board: Board, clean: Copper, fanout: Copper,
                      told: Report, r: Result, after: map<Path, Plan>)
  {
    match st.checkRouted(board, clean)
    case Broke =>
      && EndsBy(StageFailed, files, r, after)
      && r.report.check == Some(Summary(false, st.interimCheck(board, clean), true))
    case NotBuilt =>
      Planning(st, spec, files, board, clean, fanout,
               told.(check := Some(Summary(false, st.interimCheck(board, clean), false))), r, after)
    case Ran(n) =>
      Planning(st, spec, files, board, clean, fanout, told.(check := Some(Summary(true, n, false))), r, after)
  }

  /** The fanout goes to a plan of its own if one is asked for, and to the main plan otherwise; empty copper is not
      planned; no file is replaced. */
  predicate Planning(st: Stages, spec: Spec, files: map<Path, Plan>, board: Board, clean: Copper, fanout: Copper,
                     told: Report, r: Result, after: map<Path, Plan>)
  {
    var apart := spec.source == Native && spec.fanoutPlan.Some?;
    var main := if apart then clean else Copper(fanout.tracks + clean.tracks, fanout.vias + clean.vias);
    var first := apart && fanout != NO_COPPER;
    var second := main != NO_COPPER;
    var firstOk := !first || (st.lower(board, fanout).Some? && spec.fanoutPlan.value !in files);
    var secondOk := !second || (st.lower(board, main).Some? && spec.outputPlan !in files);
    var between := if first && firstOk then files[spec.fanoutPlan.value := st.lower(board, fanout).value] else files;
    if firstOk && secondOk then
      && after == (if second then between[spec.outputPlan := st.lower(board, main).value] else between)
      && r == Ended(told.(stages := told.stages + [(Check, Finished), (ToPlan, if second then Finished else Skipped)],
                          fanoutPlanned := first, planned := if second then st.lower(board, main) else None))
    else r == Failed && after == between
  }

  /** A run from nothing that nobody stops. */
  predicate FreshRun(st: Stages, spec: Spec, files: map<Path, Plan>, r: Result, after: map<Path, Plan>) {
    if !st.valid || spec.fanoutPlan == Some(spec.outputPlan) || st.load.None? || !st.scopeFound(st.load.value) then
      r == Failed && after == files
    else
      var board := st.load.value;
      match spec.source
      case BoardUnlocked =>
        if !spec.defaultAllowances then EndsBy(InputError, files, r, after)
        else
          var (taken, bare) := st.take(board);
          FromRouted(st, spec, files, st.plainSettings, bare, taken, NO_COPPER, 0, r, after)
      case FromPlan =>
        if !spec.defaultAllowances then EndsBy(InputError, files, r, after)
        else (
          match st.readPlan(board)
          case Unreadable => r == Failed && after == files
          case Refused => EndsBy(InputError, files, r, after)
          case Read(copper) => FromRouted(st, spec, files, st.plainSettings, board, copper, NO_COPPER, 0, r, after))
      case Native =>
        if st.resolve(board).None? then EndsBy(InputError, files, r, after)
        else
          match st.routeNative(board, st.resolve(board).value)
          case NotRouted(Unavailable) => EndsBy(StageUnavailable, files, r, after)
          case NotRouted(Panicked) => EndsBy(StageFailed, files, r, after)
          case NotRouted(Ordinary) => EndsBy(InputError, files, r, after)
          case Routed(fanout, routed, excluded) =>
            FromRouted(st, spec, files, st.resolve(board).value, board, routed, fanout, excluded, r, after)
  }

  lemma PlanMainTold(st: Stages, spec: Spec, board: Board, copper: Copper, files: map<Path, Plan>, own: bool)
    ensures var p := PlanMain(st, spec, board, copper, files, own);
            var second := copper != NO_COPPER;
            && (p.ok <==> !second || (st.lower(board, copper).Some? && spec.outputPlan !in files))
            && (p.ok ==> p == Planned(true, if second then files[spec.outputPlan := st.lower(board, copper).value]
                 else files,
                                      own, if second then st.lower(board, copper) else None))
            && (!p.ok ==> p.files == files)
  {
    assert Bare(copper) <==> copper == NO_COPPER;
  }

  lemma PlanPassTold(st: Stages, spec: Spec, files: map<Path, Plan>, board: Board, clean: Copper, fanout: Copper,
                     told: Report)
    requires Validates(st, spec)
    ensures var p := PlanPass(st, spec, board, clean, fanout, files);
            var planned := Noted(told, Check, Finished).(fanoutPlanned := p.fanoutPlanned, planned := p.planned);
            var r := if !p.ok then Failed
                     else Ended(Noted(planned, ToPlan, if p.planned.Some? then Finished else Skipped));
            Planning(st, spec, files, board, clean, fanout, told, r, p.files)
  {
    var apart := Separate(spec);
    var main := if apart then clean else Together(fanout, clean);
    assert Bare(fanout) <==> fanout == NO_COPPER;
    var first := apart && fanout != NO_COPPER;
    hide PlanMain, Bare;
    if !first {
      PlanMainTold(st, spec, board, main, files, false);
    } else if st.lower(board, fanout).Some? && spec.fanoutPlan.value !in files {
      PlanMainTold(st, spec, board, main, files[spec.fanoutPlan.value := st.lower(board, fanout).value], true);
    }
  }

  lemma ClearTold(st: Stages, spec: Spec, files: map<Path, Plan>, board: Board, fanout: Copper, clean: Copper,
                  written: seq<Checkpoint>, held: Checkpoint, told: Report)
    requires Validates(st, spec) && told.stop == None && told.check == None
    ensures var o := AfterClear(st, spec, files, board, fanout, clean, written, held, told);
            FromClean(st, spec, files, board, clean, fanout, told, o.result, o.files)
  {
    var s := CheckPass(st, board, clean);
    PlanPassTold(st, spec, files, board, clean, fanout, told.(check := Some(s)));
    hide PlanPass, Planning, Validates;
  }

  /** S6 and the clear stage of an uninterrupted run, and what they tell. */
  lemma ToClear(st: Stages, spec: Spec, files: map<Path, Plan>, board: Board, settings: Settings, m: Made, r: Report)
    returns (clean: Copper, written: seq<Checkpoint>, held: Checkpoint, told: Report)
    requires m.Made?
    ensures AfterRoute(st, spec, None, NO_STOPS, files, board, settings, m, r)
            == AfterClear(st, spec, files, board, m.fanout, clean, written, held, told)
    ensures var s := Pass(st, board, settings, m.work);
            var work := if spec.optimize then s.work else m.work;
            var q := if spec.optimize then Noted(WithPass(r, s), Optimize, Finished) else Noted(r, Optimize, Skipped);
            var (cleared, findings) := st.clearFindings(board, work);
            && clean == (if Clears(spec) then cleared else work)
            && told == if Clears(spec) then
                         Noted(q.(cleared := findings), Clear, if findings.Some? then Finished else Faulted)
                       else q
  {
    hide AfterClear, Pass;
    var cp := RouteCheckpoint(spec, m);
    var s := Pass(st, board, settings, m.work);
    var now := cp.(optimize := Some(s.did), copper := s.work, completed := cp.completed + [Optimize]);
    var work := if spec.optimize then s.work else m.work;
    var q := if spec.optimize then Noted(WithPass(r, s), Optimize, Finished) else Noted(r, Optimize, Skipped);
    written, held := if spec.optimize then [cp, now] else [cp], if spec.optimize then now else cp;
    var (cleared, findings) := st.clearFindings(board, work);
    clean := if Clears(spec) then cleared else work;
    told :=
      if Clears(spec) then Noted(q.(cleared := findings), Clear, if findings.Some? then Finished else Faulted) else q;
  }

  /** The report of an uninterrupted run at the end of its routing. */
  function RoutedReport(excluded: nat, work: Copper, fanout: Copper): Report {
    Noted(Opening(false).(account := Account(excluded, CountOf(work), 0, None), fanout := CountOf(fanout)),
          Route, Finished)
  }

  lemma RouteTold(st: Stages, spec: Spec, files: map<Path, Plan>, settings: Settings, bare: Board, routed: Copper,
                  fanout: Copper, excluded: nat, m: Made, r: Report)
    requires Validates(st, spec)
    requires m == Made(bare, st.partition(routed).0, st.partition(routed).1, fanout, excluded)
    requires r == RoutedReport(excluded, m.work, fanout)
    ensures var o := AfterRoute(st, spec, None, NO_STOPS, files, Frozen(st, m), settings, m, r);
            FromRouted(st, spec, files, settings, bare, routed, fanout, excluded, o.result, o.files)
  {
    var clean, written, held, told := ToClear(st, spec, files, Frozen(st, m), settings, m, r);
    ClearTold(st, spec, files, Frozen(st, m), fanout, clean, written, held, told);
    WorkedTold(st, spec, settings, Frozen(st, m), m, r, clean, told);
    hide AfterRoute, AfterClear, FromClean, Validates, Worked, Pass;
  }

  lemma WorkedTold(st: Stages, spec: Spec, settings: Settings, board: Board, m: Made, r: Report, clean: Copper,
                   told: Report)
    requires m.Made?
    requires r == RoutedReport(m.excluded, m.work, m.fanout)
    requires var s := Pass(st, board, settings, m.work);
             var work := if spec.optimize then s.work else m.work;
             var q := if spec.optimize then Noted(WithPass(r, s), Optimize, Finished) else Noted(r, Optimize, Skipped);
             var (cleared, findings) := st.clearFindings(board, work);
             && clean == (if Clears(spec) then cleared else work)
             && told == if Clears(spec) then
                          Noted(q.(cleared := findings), Clear, if findings.Some? then Finished else Faulted)
                        else q
    ensures Worked(st, spec, settings, board, m.work, m.fanout, m.excluded) == (clean, told)
  {
    assert Clears(spec) <==> spec.clear == Some(true) || (spec.clear == None && spec.source == Native);
    var w := Worked(st, spec, settings, board, m.work, m.fanout, m.excluded);
    assert w.1.stages == told.stages;
  }

  /** What an uninterrupted run delivers, source by source. */
  lemma FreshRunTold(st: Stages, spec: Spec, files: map<Path, Plan>)
    ensures var o := Run(st, spec, None, NO_STOPS, files); FreshRun(st, spec, files, o.result, o.files)
  {
    hide AfterRoute, FromRouted;
    var begun := Begin(st, spec);
    if begun.Begun? {
      var m := Make(st, spec, begun.board, begun.settings);
      if m.Made? {
        var r := RoutedReport(m.excluded, m.work, m.fanout);
        match spec.source {
          case BoardUnlocked =>
            var (found, bare) := st.take(begun.board);
            RouteTold(st, spec, files, begun.settings, bare, found, NO_COPPER, 0, m, r);
          case FromPlan =>
            var planned := st.readPlan(begun.board).copper;
            RouteTold(st, spec, files, begun.settings, begun.board, planned, NO_COPPER, 0, m, r);
          case Native =>
            var n := st.routeNative(begun.board, begun.settings);
            RouteTold(st, spec, files, begun.settings, begun.board, n.routed, n.fanout, n.excluded, m, r);
        }
      }
    }
  }

  // ----- The run as it happens

  /** Routes, or takes the copper the source names, and sets apart what is out of scope. */
  method Acquire(st: Stages, spec: Spec, given: Board, settings: Settings) returns (m: Made)
    ensures m == Make(st, spec, given, settings)
  {
    var board, routed := given, NotRouted(Ordinary);
    match spec.source {
      case BoardUnlocked =>
        routed := Routed(Copper([], []), st.take(board).0, 0);
        board := st.take(board).1;
      case FromPlan =>
        match st.readPlan(board) {
          case Unreadable => return MakeFails;
          case Refused =>
          case Read(copper) => routed := Routed(Copper([], []), copper, 0);
        }
      case Native => routed := st.routeNative(board, settings);
    }
    match routed {
      case NotRouted(e) => m := MakeStops(KindOf(e));
      case Routed(fanout, copper, excluded) =>
        var (work, frozen) := st.partition(copper);
        m := Made(board, work, frozen, fanout, excluded);
    }
  }

  /** S7: the built checker, or the interim one beside or instead of it. */
  method CheckCopper(st: Stages, board: Board, work: Copper) returns (s: Summary)
    ensures s == CheckPass(st, board, work)
  {
    match st.checkRouted(board, work) {
      case Ran(n) => s := Summary(true, n, false);
      case NotBuilt => s := Summary(false, st.interimCheck(board, work), false);
      case Broke => s := Summary(false, st.interimCheck(board, work), true);
    }
  }

  /** The job directory and the plan files. */
  class Directory {
    /** Every checkpoint written, in order; the file holds the last. */
    var saved: seq<Checkpoint>
    var files: map<Path, Plan>

    method Save(c: Checkpoint)
      modifies this
      ensures saved == old(saved) + [c] && files == old(files)
    {
      saved := saved + [c];
    }

    method CreateNew(path: Path, plan: Plan) returns (ok: bool)
      modifies this
      ensures saved == old(saved) && ok == (path !in old(files))
      ensures files == if ok then old(files)[path := plan] else old(files)
    {
      ok := path !in files;
      if ok {
        files := files[path := plan];
      }
    }

    /** S8: the fanout in its own file when asked, then the work. */
    method WritePlans(st: Stages, spec: Spec, board: Board, work: Copper, fanout: Copper)
      returns (ok: bool, fanoutPlanned: bool, planned: Option<Plan>, ghost states: seq<map<Path, Plan>>)
      modifies this
      ensures saved == old(saved)
      ensures Planned(ok, files, fanoutPlanned, planned) == PlanPass(st, spec, board, work, fanout, old(files))
      ensures states == PlanStates(st, spec, board, work, fanout, old(files))
    {
      fanoutPlanned, planned, states := false, None, [files];
      var separate := spec.fanoutPlan.Some? && spec.source == Native;
      if separate && (fanout.tracks != [] || fanout.vias != []) {
        var plan := st.lower(board, fanout);
        if plan.None? {
          return false, false, None, states;
        }
        ok := CreateNew(spec.fanoutPlan.value, plan.value);
        if !ok {
          return;
        }
        states := states + [files];
        fanoutPlanned := true;
      }
      var copper := if separate then work else Copper(fanout.tracks + work.tracks, fanout.vias + work.vias);
      if copper.tracks == [] && copper.vias == [] {
        return true, fanoutPlanned, None, states;
      }
      var plan := st.lower(board, copper);
      if plan.None? {
        return false, fanoutPlanned, None, states;
      }
      ok := CreateNew(spec.outputPlan, plan.value);
      if ok {
        planned := plan;
        states := states + [files];
      }
    }

    /** `run_pipeline`: stage by stage, each early return leaving what ran so far. */
    method RunPipeline(st: Stages, spec: Spec, given: Option<Checkpoint>, stops: Stops) returns (r: Result)
      modifies this
      ensures old(saved) <= saved
      ensures Outcome(r, saved[|old(saved)|..], files) == Run(st, spec, given, stops, old(files))
      ensures given == None && stops == NO_STOPS ==> FreshRun(st, spec, old(files), r, files)
    {
      FreshRunTold(st, spec, files);
      hide Run, FreshRun;
      r := FromInputs(st, spec, given, stops);
    }

    /** The inputs, and the copper to work on. */
    method FromInputs(st: Stages, spec: Spec, given: Option<Checkpoint>, stops: Stops) returns (r: Result)
      modifies this
      ensures old(saved) <= saved
      ensures Outcome(r, saved[|old(saved)|..], files) == Run(st, spec, given, stops, old(files))
    {
      hide AfterRoute, Make;
      if !st.valid || spec.fanoutPlan == Some(spec.outputPlan) {
        return Failed;
      }
      var resume := if given.Some? && given.value.specHash == spec.hash then given else None;
      var report := Report(resume.Some?, [], None, NO_ACCOUNT, Counts(0, 0), None, None, None, false, None);
      if st.load.None? {
        return Failed;
      }
      var board := st.load.value;
      report := Noted(report, Ingest, Finished);
      report := Noted(report, Connectivity, Finished);
      assert report == Opening(resume.Some?);
      if !st.scopeFound(board) {
        return Failed;
      }
      var settings := st.plainSettings;
      if spec.source != Native && !spec.defaultAllowances {
        return Ended(Stopped(report, InputError));
      }
      if spec.source == Native {
        if st.resolve(board).None? {
          return Ended(Stopped(report, InputError));
        }
        settings := st.resolve(board).value;
      }
      var work, frozen, fanout;
      if resume.Some? && Route in resume.value.completed {
        if spec.source == BoardUnlocked {
          board := st.take(board).1;
        }
        report := Noted(report, Route, FromCheckpoint);
        work, frozen, fanout := resume.value.copper, resume.value.frozen, resume.value.fanout;
      } else {
        var made := Acquire(st, spec, board, settings);
        match made {
          case MakeFails => return Failed;
          case MakeStops(kind) =>
            report := Noted(report, Route, Faulted);
            return Ended(Stopped(report, kind));
          case Made(b, w, rest, f, excluded) =>
            report := report.(account := report.account.(excluded := excluded));
            report := Noted(report, Route, Finished);
            board, work, frozen, fanout := b, w, rest, f;
        }
      }
      ghost var m := Made(board, work, frozen, fanout, report.account.excluded);
      board := st.freeze(frozen, board);
      board := st.freeze(fanout, board);
      report := report.(account := report.account.(work := CountOf(work)), fanout := CountOf(fanout));
      r := RunStages(st, spec, resume, stops, board, settings, work, frozen, fanout, report, m);
    }

    /** The stages after routing. */
    method RunStages(st: Stages, spec: Spec, resume: Option<Checkpoint>, stops: Stops, board: Board, settings: Settings,
                     routed: Copper, frozen: Copper, fanout: Copper, given: Report, ghost m: Made) returns (r: Result)
      requires m.Made? && m.work == routed && m.frozen == frozen && m.fanout == fanout
      requires given.account.reference == None
      modifies this
      ensures old(saved) <= saved
      ensures Outcome(r, saved[|old(saved)|..], files) ==
              AfterRoute(st, spec, resume, stops, old(files), board, settings, m, given)
    {
      hide AfterOptimize;
      var report, work := given, routed;
      var checkpoint := Checkpoint(spec.hash, [Route], work, frozen, fanout, None, None);
      Save(checkpoint);
      ghost var first := checkpoint;
      assert saved[|old(saved)|..] == [first];
      if stops.afterRoute.Some? {
        return Ended(Stopped(report, stops.afterRoute.value));
      }
      if !spec.optimize {
        report := Noted(report, Optimize, Skipped);
      } else if resume.Some? && Optimize in resume.value.completed {
        report := report.(optimize := resume.value.optimize);
        checkpoint := checkpoint.(optimize := report.optimize);
        checkpoint := checkpoint.(completed := checkpoint.completed + [Optimize]);
        report := Noted(report, Optimize, FromCheckpoint);
      } else {
        var before := work;
        var did := st.optimizeGuarded(board, work);
        work := did.0;
        if st.hasReference(settings) {
          var enforced := st.enforceReference(board, settings, before, work);
          work := enforced.0;
          report := report.(account := report.account.(reference := Some(enforced.1)));
        }
        report := report.(account := report.account.(reverted := did.2));
        report := report.(optimize := Some(did.1));
        checkpoint := checkpoint.(optimize := Some(did.1), copper := work);
        checkpoint := checkpoint.(completed := checkpoint.completed + [Optimize]);
        Save(checkpoint);
        assert saved[|old(saved)|..] == [first, checkpoint];
        report := Noted(report, Optimize, Finished);
      }
      r := ClearAndCheck(st, spec, stops, board, fanout, work, checkpoint, report, |old(saved)|);
    }

    /** Clear, then check and plan. */
    method ClearAndCheck(st: Stages, spec: Spec, stops: Stops, board: Board, fanout: Copper, given: Copper,
                         held: Checkpoint,
                         told: Report, ghost start: nat) returns (r: Result)
      requires start <= |saved|
      modifies this
      ensures old(saved) <= saved
      ensures Outcome(r, saved[start..], files)
           == AfterOptimize(st, spec, stops, old(files), board, fanout, given, old(saved[start..]), held, told)
    {
      hide AfterClear;
      if stops.afterOptimize.Some? {
        return Ended(Stopped(told, stops.afterOptimize.value));
      }
      var work, report := given, told;
      var clears := if spec.clear.Some? then spec.clear.value else spec.source == Native;
      if clears {
        var cleared := st.clearFindings(board, work);
        work := cleared.0;
        report := report.(cleared := cleared.1);
        report := Noted(report, Clear, if cleared.1.Some? then Finished else Faulted);
      }
      r := CheckAndPlan(st, spec, board, fanout, work, held, report, start);
    }

    /** Check; a broken checker stops the run, otherwise the plans are written. */
    method CheckAndPlan(st: Stages, spec: Spec, board: Board, fanout: Copper, work: Copper, held: Checkpoint,
                        told: Report,
                        ghost start: nat) returns (r: Result)
      requires start <= |saved|
      modifies this
      ensures old(saved) <= saved
      ensures Outcome(r, saved[start..], files)
           == AfterClear(st, spec, old(files), board, fanout, work, old(saved[start..]), held, told)
    {
      hide PlanPass, CheckPass;
      var summary := CheckCopper(st, board, work);
      var report := told.(check := Some(summary));
      report := Noted(report, Check, if summary.broke then Faulted else Finished);
      if summary.broke {
        return Ended(Stopped(report, StageFailed));
      }
      var checkpoint := held.(check := Some(summary));
      checkpoint := checkpoint.(completed := checkpoint.completed + [Check]);
      Save(checkpoint);
      assert saved[start..] == old(saved[start..]) + [checkpoint];
      var ok, fanoutPlanned, planned, _ := WritePlans(st, spec, board, work, fanout);
      if !ok {
        return Failed;
      }
      report := report.(fanoutPlanned := fanoutPlanned, planned := planned);
      r := Ended(Noted(report, ToPlan, if planned.Some? then Finished else Skipped));
    }
  }

  // ----- Files and gating

  predicate Extends(more: map<Path, Plan>, files: map<Path, Plan>) {
    forall p :: p in files ==> p in more && more[p] == files[p]
  }

  /** Plan files are only ever added, and only after a check that did not break. */
  predicate Gated(o: Outcome, files: map<Path, Plan>) {
    && Extends(o.files, files)
    && (o.files != files ==>
          && |o.saved| > 0 && Check in o.saved[|o.saved| - 1].completed
          && (o.result.Ended? ==>
                var r := o.result.report; r.stop == None && r.check.Some? && !r.check.value.broke))
  }

  lemma PlanPassExtends(st: Stages, spec: Spec, board: Board, work: Copper, fanout: Copper, files: map<Path, Plan>)
    ensures Extends(PlanPass(st, spec, board, work, fanout, files).files, files)
  {
  }

  lemma ClearGated(st: Stages, spec: Spec, files: map<Path, Plan>, board: Board, fanout: Copper, work: Copper,
                   written: seq<Checkpoint>, held: Checkpoint, r: Report)
    requires r.stop == None
    ensures Gated(AfterClear(st, spec, files, board, fanout, work, written, held, r), files)
  {
    hide PlanPass, CheckPass;
    PlanPassExtends(st, spec, board, work, fanout, files);
  }

  lemma OptimizeGated(st: Stages, spec: Spec, stops: Stops, files: map<Path, Plan>, board: Board, fanout: Copper,
                      work: Copper, written: seq<Checkpoint>, held: Checkpoint, r: Report)
    requires r.stop == None
    ensures var o := AfterOptimize(st, spec, stops, files, board, fanout, work, written, held, r);
            Gated(o, files) && (o.files != files ==> stops.afterOptimize == None)
  {
    hide AfterClear;
    if Clears(spec) {
      var (clean, cleared) := st.clearFindings(board, work);
      ClearGated(st, spec, files, board, fanout, clean, written, held,
                 Noted(r.(cleared := cleared), Clear, if cleared.Some? then Finished else Faulted));
    } else {
      ClearGated(st, spec, files, board, fanout, work, written, held, r);
    }
  }

  lemma RouteGated(st: Stages, spec: Spec, resume: Option<Checkpoint>, stops: Stops, files: map<Path, Plan>,
                   board: Board, settings: Settings, m: Made, r: Report)
    requires m.Made? && r.stop == None
    ensures var o := AfterRoute(st, spec, resume, stops, files, board, settings, m, r);
            Gated(o, files) && (o.files != files ==> stops == NO_STOPS)
  {
    hide AfterOptimize, Pass;
    var cp := RouteCheckpoint(spec, m);
    if !spec.optimize {
      OptimizeGated(st, spec, stops, files, board, m.fanout, m.work, [cp], cp, Noted(r, Optimize, Skipped));
    } else if Done(resume, Optimize) {
      var kept := resume.value.optimize;
      OptimizeGated(st, spec, stops, files, board, m.fanout, m.work, [cp],
                    cp.(optimize := kept, completed := cp.completed + [Optimize]),
                    Noted(r.(optimize := kept), Optimize, FromCheckpoint));
    } else {
      var s := Pass(st, board, settings, m.work);
      var now := cp.(optimize := Some(s.did), copper := s.work, completed := cp.completed + [Optimize]);
      OptimizeGated(st, spec, stops, files, board, m.fanout, s.work, [cp, now], now,
                    Noted(WithPass(r, s), Optimize, Finished));
    }
  }

  /** In every run, plan files are only added, only with no stop, and only after a check that did not break. */
  lemma PlansAreGated(st: Stages, spec: Spec, given: Option<Checkpoint>, stops: Stops, files: map<Path, Plan>)
    ensures var o := Run(st, spec, given, stops, files);
            Gated(o, files) && (o.files != files ==> stops == NO_STOPS)
  {
    hide AfterRoute, Make;
    var resume := Matching(spec, given);
    var begun := Begin(st, spec);
    if begun.Begun? {
      var again := Done(resume, Route);
      var m := if again then Remake(st, spec, begun.board, resume.value)
               else Make(st, spec, begun.board, begun.settings);
      if m.Made? {
        var r := Opening(resume.Some?).(account := Account(m.excluded, CountOf(m.work), 0, None),
                                               fanout := CountOf(m.fanout));
        var routed := Noted(r, Route, if again then FromCheckpoint else Finished);
        RouteGated(st, spec, resume, stops, files, Frozen(st, m), begun.settings, m, routed);
      }
    }
  }

  // ----- One interruption

  /** The run gets as far as having copper to work on. */
  predicate Ready(st: Stages, spec: Spec) {
    Begin(st, spec).Begun? && Make(st, spec, Begin(st, spec).board, Begin(st, spec).settings).Made?
  }

  function Start(st: Stages, spec: Spec): (m: Made)
    requires Ready(st, spec)
    ensures m.Made?
  {
    Make(st, spec, Begin(st, spec).board, Begin(st, spec).settings)
  }

  function BoardOf(st: Stages, spec: Spec): Board
    requires Ready(st, spec)
  {
    Frozen(st, Start(st, spec))
  }

  /** The work after n passes of S6, and what the last pass reported. */
  function Passes(st: Stages, spec: Spec, n: nat): (Copper, Option<nat>)
    requires Ready(st, spec)
  {
    if n == 0 then (Start(st, spec).work, None)
    else
      var s := Pass(st, BoardOf(st, spec), Begin(st, spec).settings, Passes(st, spec, n - 1).0);
      (s.work, Some(s.did))
  }

  /** A checkpoint of this spec that holds the work after n passes. */
  predicate Holds(st: Stages, spec: Spec, c: Checkpoint, n: nat) {
    && Ready(st, spec) && c.specHash == spec.hash && Route in c.completed
    && c.frozen == Start(st, spec).frozen && c.fanout == Start(st, spec).fanout
    && c.copper == Passes(st, spec, n).0
    && (Optimize in c.completed ==> n > 0 && c.optimize == Passes(st, spec, n).1)
    && (n > 0 ==> spec.optimize)
  }

  /** What is left to do, given the work after n passes. */
  function Rest(st: Stages, spec: Spec, stops: Stops, files: map<Path, Plan>, n: nat, written: seq<Checkpoint>,
                held: Checkpoint, r: Report): Outcome
    requires Ready(st, spec)
  {
    AfterOptimize(st, spec, stops, files, BoardOf(st, spec), Start(st, spec).fanout, Passes(st, spec, n).0, written,
                  held, r)
  }

  lemma RestSaves(st: Stages, spec: Spec, stops: Stops, files: map<Path, Plan>, n: nat, written: seq<Checkpoint>,
                  held: Checkpoint, r: Report, c: Checkpoint)
    requires Ready(st, spec) && c in Rest(st, spec, stops, files, n, written, held, r).saved
    ensures c in written || (c.completed == held.completed + [Check] &&
                             c == held.(completed := c.completed, check := c.check))
  {
    hide CheckPass, PlanPass, Passes, BoardOf, Ready;
  }

  /** From a checkpoint holding n passes, the run goes on with n passes if S6 is recorded, and one more otherwise. */
  function PassesFrom(spec: Spec, given: Option<Checkpoint>, n: nat): nat {
    if spec.optimize && !Done(given, Optimize) then n + 1 else n
  }

  lemma Remade(st: Stages, spec: Spec, c: Checkpoint, n: nat)
    requires Holds(st, spec, c, n)
    ensures var m := Remake(st, spec, Begin(st, spec).board, c);
            && m.work == Passes(st, spec, n).0 && m.frozen == Start(st, spec).frozen
            && m.fanout == Start(st, spec).fanout
            && Frozen(st, m) == BoardOf(st, spec)
  {
    hide Passes;
  }

  lemma PassOn(st: Stages, spec: Spec, n: nat)
    requires Ready(st, spec)
    ensures var s := Pass(st, BoardOf(st, spec), Begin(st, spec).settings, Passes(st, spec, n).0);
            Passes(st, spec, n + 1) == (s.work, Some(s.did))
  {
  }

  // ----- Going on from a checkpoint

  /** The run starts from nothing, or from a checkpoint that holds n passes. */
  predicate Sound(st: Stages, spec: Spec, given: Option<Checkpoint>, n: nat) {
    Ready(st, spec) && match Matching(spec, given) case None => n == 0 case Some(c) => Holds(st, spec, c, n)
  }

  function Target(spec: Spec, given: Option<Checkpoint>, n: nat): nat {
    PassesFrom(spec, Matching(spec, given), n)
  }

  /** What of a report does not depend on where the run started. */
  function Lasting(r: Report): Report {
    r.(resumed := false, stages := [], account := NO_ACCOUNT)
  }

  function Plain(fanout: Copper, optimize: Option<nat>): Report {
    Report(false, [], None, NO_ACCOUNT, CountOf(fanout), optimize, None, None, false, None)
  }

  /** S6 on the work after n passes. */
  function PassFrom(st: Stages, spec: Spec, n: nat): Optimized
    requires Ready(st, spec)
  {
    Pass(st, BoardOf(st, spec), Begin(st, spec).settings, Passes(st, spec, n).0)
  }

  /** What a run from n passes accounts for: a resumed one tells no excluded connections, and one that takes over S6
      tells nothing of it. */
  function Accounted(st: Stages, spec: Spec, given: Option<Checkpoint>, n: nat): Account
    requires Ready(st, spec)
  {
    var resume := Matching(spec, given);
    var a := Account(if resume.Some? then 0 else Start(st, spec).excluded, CountOf(Passes(st, spec, n).0), 0, None);
    if spec.optimize && !Done(resume, Optimize) then
      a.(reverted := PassFrom(st, spec, n).reverted, reference := PassFrom(st, spec, n).reference)
    else a
  }

  lemma RunIsAfterRoute(st: Stages, spec: Spec, given: Option<Checkpoint>, n: nat, stops: Stops, files: map<Path, Plan>)
    returns (m: Made, r: Report)
    requires Sound(st, spec, given, n)
    ensures m.Made? && m.work == Passes(st, spec, n).0
    ensures m.frozen == Start(st, spec).frozen && m.fanout == Start(st, spec).fanout
    ensures Lasting(r) == Plain(Start(st, spec).fanout, None)
    ensures r.account ==
            Account(if Matching(spec, given).Some? then 0 else Start(st, spec).excluded, CountOf(m.work), 0, None)
    ensures Run(st, spec, given, stops, files) ==
            AfterRoute(st, spec, Matching(spec, given), stops, files, BoardOf(st, spec), Begin(st, spec).settings, m, r)
  {
    hide AfterRoute, Begin, Make, Retaken;
    var resume := Matching(spec, given);
    var begun := Begin(st, spec);
    if resume.Some? {
      Remade(st, spec, resume.value, n);
      m := Remake(st, spec, begun.board, resume.value);
    } else {
      m := Make(st, spec, begun.board, begun.settings);
    }
    r := Opening(resume.Some?).(account := Account(m.excluded, CountOf(m.work), 0, None), fanout := CountOf(m.fanout));
    r := Noted(r, Route, if resume.Some? then FromCheckpoint else Finished);
  }

  /** A run from n passes writes a checkpoint of them, makes or takes over the target passes, and goes on. */
  lemma Unfold(st: Stages, spec: Spec, given: Option<Checkpoint>, n: nat, stops: Stops, files: map<Path, Plan>)
    returns (written: seq<Checkpoint>, held: Checkpoint, r: Report)
    requires Sound(st, spec, given, n)
    ensures var k := Target(spec, given, n);
            var o := Run(st, spec, given, stops, files);
            && Holds(st, spec, held, k) && (Optimize in held.completed <==> spec.optimize)
            && |written| > 0 && Holds(st, spec, written[0], n) && written[0].completed == [Route]
            && (written == [written[0]] || (written == [written[0], held] && k == n + 1))
            && (k > n ==> held in written)
            && (stops.afterRoute.Some? ==> o.saved == [written[0]] && o.files == files)
            && (stops.afterRoute.None? ==> o == Rest(st, spec, stops, files, k, written, held, r))
            && Lasting(r) == Plain(Start(st, spec).fanout, if spec.optimize then Passes(st, spec, k).1 else None)
            && r.account == Accounted(st, spec, given, n)
  {
    var m, q := RunIsAfterRoute(st, spec, given, n, stops, files);
    hide Run, AfterOptimize, Begin, Make, Pass, Frozen, Ready;
    var resume := Matching(spec, given);
    var cp := RouteCheckpoint(spec, m);
    written, held := [cp], cp;
    if !spec.optimize {
      r := Noted(q, Optimize, Skipped);
    } else if Done(resume, Optimize) {
      held := cp.(optimize := resume.value.optimize, completed := cp.completed + [Optimize]);
      r := Noted(q.(optimize := resume.value.optimize), Optimize, FromCheckpoint);
    } else {
      PassOn(st, spec, n);
      var s := PassFrom(st, spec, n);
      held := cp.(optimize := Some(s.did), copper := s.work, completed := cp.completed + [Optimize]);
      written := [cp, held];
      r := Noted(WithPass(q, s), Optimize, Finished);
    }
  }

  function LastingResult(r: Result): Result {
    if r.Failed? then Failed else Ended(Lasting(r.report))
  }

  /** The same files, and the same report except for where the run started. */
  predicate SameEnd(a: Outcome, b: Outcome) {
    a.files == b.files && LastingResult(a.result) == LastingResult(b.result)
  }

  lemma ClearCongruent(st: Stages, spec: Spec, files: map<Path, Plan>, board: Board, fanout: Copper, work: Copper,
                       v: seq<Checkpoint>, g: Checkpoint, q: Report, w: seq<Checkpoint>, h: Checkpoint, r: Report)
    requires Lasting(q) == Lasting(r)
    ensures SameEnd(AfterClear(st, spec, files, board, fanout, work, v, g, q),
                    AfterClear(st, spec, files, board, fanout, work, w, h, r))
  {
    hide CheckPass, PlanPass;
  }

  lemma OptimizeCongruent(st: Stages, spec: Spec, stops: Stops, files: map<Path, Plan>, board: Board, fanout: Copper,
                          work: Copper,
                          v: seq<Checkpoint>, g: Checkpoint, q: Report, w: seq<Checkpoint>, h: Checkpoint, r: Report)
    requires Lasting(q) == Lasting(r)
    ensures SameEnd(AfterOptimize(st, spec, stops, files, board, fanout, work, v, g, q),
                    AfterOptimize(st, spec, stops, files, board, fanout, work, w, h, r))
  {
    hide AfterClear;
    if Clears(spec) {
      var (clean, cleared) := st.clearFindings(board, work);
      var state := if cleared.Some? then Finished else Faulted;
      ClearCongruent(st, spec, files, board, fanout, clean, v, g, Noted(q.(cleared := cleared), Clear, state),
                     w, h, Noted(r.(cleared := cleared), Clear, state));
    } else {
      ClearCongruent(st, spec, files, board, fanout, work, v, g, q, w, h, r);
    }
  }

  /** Every checkpoint a run writes holds the passes it started from, or the passes it aimed at. */
  lemma SavedHolds(st: Stages, spec: Spec, given: Option<Checkpoint>, n: nat, stops: Stops, files: map<Path, Plan>,
                   c: Checkpoint)
    requires Sound(st, spec, given, n) && c in Run(st, spec, given, stops, files).saved
    ensures (Holds(st, spec, c, n) && Optimize !in c.completed) ||
            (Holds(st, spec, c, Target(spec, given, n)) && Done(Some(c), Optimize) == spec.optimize)
  {
    var written, held, r := Unfold(st, spec, given, n, stops, files);
    hide Run, Rest, Ready, Passes;
    var k := Target(spec, given, n);
    if c != written[0] && c != held {
      RestSaves(st, spec, stops, files, k, written, held, r, c);
    }
  }

  /** Only a run that has copper to work on writes checkpoints. */
  lemma SavedReady(st: Stages, spec: Spec, stops: Stops, files: map<Path, Plan>)
    requires Run(st, spec, None, stops, files).saved != []
    ensures Ready(st, spec)
  {
    hide AfterRoute;
  }

  /** A run that is asked to stop after routing, or else after S6, ends with just that stop and writes no plan. */
  lemma StopsTold(st: Stages, spec: Spec, given: Option<Checkpoint>, n: nat, stops: Stops, files: map<Path, Plan>)
    requires Sound(st, spec, given, n) && stops != NO_STOPS
    ensures var o := Run(st, spec, given, stops, files);
            && o.result.Ended? && o.files == files
            && o.result.report.stop == if stops.afterRoute.Some? then stops.afterRoute else stops.afterOptimize
  {
    var m, q := RunIsAfterRoute(st, spec, given, n, stops, files);
    hide Run, Ready, Passes, BoardOf, Holds, Pass, CheckPass, PlanPass;
  }

  /** Two runs that aim at the same number of passes end alike. */
  lemma SameTarget(st: Stages, spec: Spec, a: Option<Checkpoint>, i: nat, b: Option<Checkpoint>, j: nat,
                   files: map<Path, Plan>)
    requires Sound(st, spec, a, i) && Sound(st, spec, b, j) && Target(spec, a, i) == Target(spec, b, j)
    ensures SameEnd(Run(st, spec, a, NO_STOPS, files), Run(st, spec, b, NO_STOPS, files))
  {
    var v, g, q := Unfold(st, spec, a, i, NO_STOPS, files);
    var w, h, r := Unfold(st, spec, b, j, NO_STOPS, files);
    hide Run, AfterOptimize, Ready, Passes, BoardOf, Holds, SameEnd;
    OptimizeCongruent(st, spec, NO_STOPS, files, BoardOf(st, spec), Start(st, spec).fanout,
                      Passes(st, spec, Target(spec, a, i)).0, v, g, q, w, h, r);
  }

  /** Resume equivalence: a run from nothing, interrupted by any stop or cut off after any checkpoint, and resumed,
      leaves the plan files and the result of a run that was never interrupted. */
  lemma ResumeEquivalence(st: Stages, spec: Spec, stops: Stops, files: map<Path, Plan>, c: Checkpoint)
    requires c in Run(st, spec, None, stops, files).saved
    ensures SameEnd(Run(st, spec, Some(c), NO_STOPS, files), Run(st, spec, None, NO_STOPS, files))
  {
    SavedReady(st, spec, stops, files);
    SavedHolds(st, spec, None, 0, stops, files, c);
    hide Run, Ready, Passes, SameEnd;
    if Holds(st, spec, c, 0) && Optimize !in c.completed {
      SameTarget(st, spec, Some(c), 0, None, 0, files);
    } else {
      SameTarget(st, spec, Some(c), Target(spec, None, 0), None, 0, files);
    }
  }

  /** The later report keeps what the earlier one told of where the run started. */
  predicate Continues(later: Report, r: Report) {
    later.account == r.account && later.resumed == r.resumed && r.stages <= later.stages
  }

  lemma ClearContinues(st: Stages, spec: Spec, files: map<Path, Plan>, board: Board, fanout: Copper, work: Copper,
                       v: seq<Checkpoint>, g: Checkpoint, r: Report)
    ensures var o := AfterClear(st, spec, files, board, fanout, work, v, g, r);
            o.result.Ended? ==> Continues(o.result.report, r)
  {
    hide CheckPass, PlanPass;
  }

  lemma WorkContinues(st: Stages, spec: Spec, stops: Stops, files: map<Path, Plan>, board: Board, fanout: Copper,
                      work: Copper, v: seq<Checkpoint>, g: Checkpoint, r: Report)
    ensures var o := AfterOptimize(st, spec, stops, files, board, fanout, work, v, g, r);
            o.result.Ended? ==> Continues(o.result.report, r)
  {
    hide AfterClear;
    if Clears(spec) {
      var (clean, cleared) := st.clearFindings(board, work);
      ClearContinues(st, spec, files, board, fanout, clean, v, g,
                     Noted(r.(cleared := cleared), Clear, if cleared.Some? then Finished else Faulted));
    } else {
      ClearContinues(st, spec, files, board, fanout, work, v, g, r);
    }
  }

  /** The account a run's report gives, wherever it started. */
  lemma RunAccounts(st: Stages, spec: Spec, given: Option<Checkpoint>, n: nat, files: map<Path, Plan>)
    requires Sound(st, spec, given, n)
    ensures var o := Run(st, spec, given, NO_STOPS, files);
            o.result.Ended? ==> o.result.report.account == Accounted(st, spec, given, n)
  {
    var v, g, r := Unfold(st, spec, given, n, NO_STOPS, files);
    hide Run, AfterOptimize, Ready, Passes, BoardOf, Holds, Accounted;
    WorkContinues(st, spec, NO_STOPS, files, BoardOf(st, spec), Start(st, spec).fanout,
                  Passes(st, spec, Target(spec, given, n)).0, v, g, r);
  }

  lemma OptimizeContinues(st: Stages, spec: Spec, resume: Option<Checkpoint>, files: map<Path, Plan>, board: Board,
                          settings: Settings, m: Made, r: Report)
    requires m.Made?
    ensures var o := AfterRoute(st, spec, resume, NO_STOPS, files, board, settings, m, r);
            var did := if !spec.optimize then Skipped else if Done(resume, Optimize) then FromCheckpoint else Finished;
            o.result.Ended? ==>
              o.result.report.resumed == r.resumed && r.stages + [(Optimize, did)] <= o.result.report.stages
  {
    hide AfterOptimize, Pass;
    var cp := RouteCheckpoint(spec, m);
    if !spec.optimize {
      WorkContinues(st, spec, NO_STOPS, files, board, m.fanout, m.work, [cp], cp, Noted(r, Optimize, Skipped));
    } else if Done(resume, Optimize) {
      var kept := resume.value.optimize;
      WorkContinues(st, spec, NO_STOPS, files, board, m.fanout, m.work, [cp],
                    cp.(optimize := kept, completed := cp.completed + [Optimize]),
                    Noted(r.(optimize := kept), Optimize, FromCheckpoint));
    } else {
      var s := Pass(st, board, settings, m.work);
      var now := cp.(optimize := Some(s.did), copper := s.work, completed := cp.completed + [Optimize]);
      WorkContinues(st, spec, NO_STOPS, files, board, m.fanout, s.work, [cp, now], now,
                    Noted(WithPass(r, s), Optimize, Finished));
    }
  }

  /** Which stages a run that got to its check reports, whatever checkpoint it was given: routing and S6 are taken over
      exactly when the checkpoint is of this spec and has them. */
  lemma StagesTold(st: Stages, spec: Spec, given: Option<Checkpoint>, files: map<Path, Plan>)
    ensures var o := Run(st, spec, given, NO_STOPS, files);
            var own := given.Some? && given.value.specHash == spec.hash;
            o.result.Ended? && o.result.report.check.Some? ==>
              && o.result.report.resumed == own
              && [(Ingest, Finished), (Connectivity, Finished),
                  (Route, if own && Route in given.value.completed then FromCheckpoint else Finished),
                  (Optimize, if !spec.optimize then Skipped
                             else if own && Optimize in given.value.completed then FromCheckpoint
                             else Finished)] <= o.result.report.stages
  {
    hide AfterRoute, Begin, Make, Remake, Frozen;
    var begun := Begin(st, spec);
    if begun.Begun? {
      var own := Matching(spec, given);
      var again := Done(own, Route);
      var m := if again then Remake(st, spec, begun.board, own.value) else Make(st, spec, begun.board, begun.settings);
      if m.Made? {
        var r := Opening(own.Some?).(account := Account(m.excluded, CountOf(m.work), 0, None),
                                     fanout := CountOf(m.fanout));
        OptimizeContinues(st, spec, own, files, Frozen(st, m), begun.settings, m,
                          Noted(r, Route, if again then FromCheckpoint else Finished));
      }
    }
  }

  /** A report apart from whether it was resumed and which stages came from the checkpoint. */
  function Told(r: Report): Report {
    r.(resumed := false, stages := [])
  }

  /** S6 kept the numbers of tracks and vias, put no net back and had no reference planes to check. */
  predicate QuietPass(st: Stages, spec: Spec)
    requires Ready(st, spec)
  {
    var s := PassFrom(st, spec, 0);
    CountOf(s.work) == CountOf(Start(st, spec).work) && s.reverted == 0 && s.reference == None
  }

  lemma AccountsAgree(st: Stages, spec: Spec, c: Checkpoint, n: nat)
    requires Sound(st, spec, Some(c), n) && Matching(spec, Some(c)).Some? && (Optimize in c.completed ==> spec.optimize)
    requires n == if Optimize in c.completed then 1 else 0
    ensures Accounted(st, spec, Some(c), n) == Accounted(st, spec, None, 0) <==>
            Start(st, spec).excluded == 0 && (Optimize in c.completed ==> QuietPass(st, spec))
  {
    hide Ready, Pass, BoardOf, Holds, Begin, Make;
    PassOn(st, spec, 0);
  }

  lemma ToldIsBoth(q: Report, r: Report)
    ensures Told(q) == Told(r) <==> Lasting(q) == Lasting(r) && q.account == r.account
  {
  }

  /** After one interruption the resumed run tells all that the uninterrupted one does exactly when routing had
      excluded nothing and, if S6 was taken over from the checkpoint, S6 had nothing to tell but its own summary:
      the checkpoint keeps neither the excluded connections nor the account of S6, and the work is counted anew. */
  lemma ResumeTellsAll(st: Stages, spec: Spec, stops: Stops, files: map<Path, Plan>, c: Checkpoint)
    requires c in Run(st, spec, None, stops, files).saved
    ensures var resumed, whole := Run(st, spec, Some(c), NO_STOPS, files).result,
                                  Run(st, spec, None, NO_STOPS, files).result;
            && Ready(st, spec) && (resumed.Ended? <==> whole.Ended?)
            && (whole.Ended? ==>
                  (Told(resumed.report) == Told(whole.report) <==>
                   Start(st, spec).excluded == 0 && (Optimize in c.completed ==> QuietPass(st, spec))))
  {
    ResumeEquivalence(st, spec, stops, files, c);
    SavedReady(st, spec, stops, files);
    SavedHolds(st, spec, None, 0, stops, files, c);
    hide Run, Ready, Passes, Accounted, Lasting, Told, QuietPass;
    var n := if Optimize in c.completed then 1 else 0;
    RunAccounts(st, spec, Some(c), n, files);
    RunAccounts(st, spec, None, 0, files);
    AccountsAgree(st, spec, c, n);
    var resumed, whole := Run(st, spec, Some(c), NO_STOPS, files).result, Run(st, spec, None, NO_STOPS, files).result;
    if whole.Ended? {
      ToldIsBoth(resumed.report, whole.report);
    }
  }

  /** A job on the board's own two tracks, whose optimizer drops the second. */
  function ThinningStages(): Stages {
    Stages(true, Some(0), b => true, b => Some(0), 0, b => (Copper([1, 2], []), 0), b => Unreadable,
           (b, s) => NotRouted(Ordinary), c => (c, Copper([], [])), (c: Copper, b: Board) => b,
           (b: Board, c: Copper) => (Copper([1], []), 0, 0), s => false,
           (b: Board, s: Settings, c: Copper, d: Copper) => (d, 0), (b: Board, c: Copper) => (c, None),
           (b, c) => Ran(0), (b, c) => 0, (b: Board, c: Copper) => Some(|c.tracks|))
  }

  const TAKING_SPEC := Spec(7, BoardUnlocked, true, true, None, None, 0)

  /** Nothing is excluded; cut off after S6, the resumed run delivers the same plan but reports other work. */
  lemma ThinningTellsLess() returns (c: Checkpoint)
    ensures var st, spec := ThinningStages(), TAKING_SPEC;
            && Ready(st, spec) && Start(st, spec).excluded == 0 && c in Run(st, spec, None, NO_STOPS, map[]).saved
            && var resumed, whole := Run(st, spec, Some(c), NO_STOPS, map[]), Run(st, spec, None, NO_STOPS, map[]);
            && resumed.files == whole.files && whole.result.Ended? && resumed.result.Ended?
            && Told(resumed.result.report) != Told(whole.result.report)
  {
    var st, spec := ThinningStages(), TAKING_SPEC;
    assert Begin(st, spec) == Begun(0, 0);
    assert Start(st, spec) == Made(0, Copper([1, 2], []), Copper([], []), Copper([], []), 0);
    assert BoardOf(st, spec) == 0;
    assert Pass(st, 0, 0, Copper([1, 2], [])) == Optimized(Copper([1], []), 0, 0, None);
    assert !QuietPass(st, spec);
    var w, h, r := Unfold(st, spec, None, 0, NO_STOPS, map[]);
    WrittenIsSaved(st, spec, map[], 1, w, h, r);
    c := h;
    ThinningEnds(w, h, r);
    hide Run, Rest, Ready, QuietPass, Told;
    ResumeEquivalence(st, spec, NO_STOPS, map[], c);
    ResumeTellsAll(st, spec, NO_STOPS, map[], c);
  }

  lemma ThinningEnds(w: seq<Checkpoint>, h: Checkpoint, r: Report)
    requires Ready(ThinningStages(), TAKING_SPEC)
    ensures Rest(ThinningStages(), TAKING_SPEC, NO_STOPS, map[], 1, w, h, r).result.Ended?
  {
  }

  /** A checkpoint of another spec is as good as none. */
  lemma OtherSpecIgnored(st: Stages, spec: Spec, c: Checkpoint, stops: Stops, files: map<Path, Plan>)
    requires c.specHash != spec.hash
    ensures Run(st, spec, Some(c), stops, files) == Run(st, spec, None, stops, files)
  {
    hide AfterRoute, Begin, Make;
  }

  // ----- Chains of interruptions

  /** Started from given, some run writes c. */
  ghost predicate Writes(st: Stages, spec: Spec, files: map<Path, Plan>, given: Option<Checkpoint>, c: Checkpoint) {
    exists stops :: c in Run(st, spec, given, stops, files).saved
  }

  /** Each checkpoint was written by a run resumed from the one before, the first by a run from nothing. */
  ghost predicate Chain(st: Stages, spec: Spec, files: map<Path, Plan>, cs: seq<Checkpoint>) {
    && |cs| > 0 && Writes(st, spec, files, None, cs[0])
    && forall i :: 0 < i < |cs| ==> Writes(st, spec, files, Some(cs[i - 1]), cs[i])
  }

  /** What a run delivers: files, check and stop, but not what the optimizer said of its last pass. */
  function Delivered(o: Outcome): (map<Path, Plan>, Result) {
    (o.files, if o.result.Failed? then Failed else Ended(Lasting(o.result.report).(optimize := None)))
  }

  /** The delivery from the work after n passes. */
  function Delivery(st: Stages, spec: Spec, files: map<Path, Plan>, n: nat): (map<Path, Plan>, Result)
    requires Ready(st, spec)
  {
    Delivered(Rest(st, spec, NO_STOPS, files, n, [], RouteCheckpoint(spec, Start(st, spec)),
                   Plain(Start(st, spec).fanout, None)))
  }

  lemma ClearDelivers(st: Stages, spec: Spec, files: map<Path, Plan>, board: Board, fanout: Copper, work: Copper,
                      v: seq<Checkpoint>, g: Checkpoint, q: Report, optimize: Option<nat>)
    ensures Delivered(AfterClear(st, spec, files, board, fanout, work, v, g, q.(optimize := optimize)))
         == Delivered(AfterClear(st, spec, files, board, fanout, work, v, g, q))
  {
    hide CheckPass, PlanPass;
  }

  lemma OptimizeDelivers(st: Stages, spec: Spec, stops: Stops, files: map<Path, Plan>, board: Board, fanout: Copper,
                         work: Copper,
                         v: seq<Checkpoint>, g: Checkpoint, q: Report, optimize: Option<nat>)
    ensures Delivered(AfterOptimize(st, spec, stops, files, board, fanout, work, v, g, q.(optimize := optimize)))
         == Delivered(AfterOptimize(st, spec, stops, files, board, fanout, work, v, g, q))
  {
    hide AfterClear;
    if stops.afterOptimize.Some? {
      return;
    }
    hide Delivered;
    if Clears(spec) {
      var (clean, cleared) := st.clearFindings(board, work);
      var r := Noted(q.(cleared := cleared), Clear, if cleared.Some? then Finished else Faulted);
      ClearDelivers(st, spec, files, board, fanout, clean, v, g, r, optimize);
    } else {
      ClearDelivers(st, spec, files, board, fanout, work, v, g, q, optimize);
    }
  }

  lemma SameEndDelivers(a: Outcome, b: Outcome)
    requires SameEnd(a, b)
    ensures Delivered(a) == Delivered(b)
  {
  }

  lemma RunDelivers(st: Stages, spec: Spec, given: Option<Checkpoint>, n: nat, files: map<Path, Plan>)
    requires Sound(st, spec, given, n)
    ensures Delivered(Run(st, spec, given, NO_STOPS, files)) == Delivery(st, spec, files, Target(spec, given, n))
  {
    var v, g, q := Unfold(st, spec, given, n, NO_STOPS, files);
    hide Run, AfterOptimize, Ready, Passes, BoardOf, Holds, SameEnd, Delivered;
    var cp := RouteCheckpoint(spec, Start(st, spec));
    var board, fanout, work := BoardOf(st, spec), Start(st, spec).fanout, Passes(st, spec, Target(spec, given, n)).0;
    var none := q.(optimize := None);
    OptimizeDelivers(st, spec, NO_STOPS, files, board, fanout, work, v, g, q, None);
    OptimizeCongruent(st, spec, NO_STOPS, files, board, fanout, work, v, g, none, [], cp, Plain(fanout, None));
    SameEndDelivers(AfterOptimize(st, spec, NO_STOPS, files, board, fanout, work, v, g, none),
                    AfterOptimize(st, spec, NO_STOPS, files, board, fanout, work, [], cp, Plain(fanout, None)));
  }

  /** Further passes change nothing that is delivered. */
  ghost predicate Settled(st: Stages, spec: Spec, files: map<Path, Plan>)
    requires Ready(st, spec)
  {
    spec.optimize ==> forall n: nat :: n > 0 ==> Delivery(st, spec, files, n) == Delivery(st, spec, files, 1)
  }

  /** However often it is interrupted, the job delivers what an uninterrupted run does. */
  ghost predicate ChainSafe(st: Stages, spec: Spec, files: map<Path, Plan>) {
    forall cs :: Chain(st, spec, files, cs) ==>
      Delivered(Run(st, spec, Some(cs[|cs| - 1]), NO_STOPS, files)) == Delivered(Run(st, spec, None, NO_STOPS, files))
  }

  lemma {:induction false} ChainHolds(st: Stages, spec: Spec, files: map<Path, Plan>, cs: seq<Checkpoint>)
    returns (n: nat)
    requires Ready(st, spec) && Chain(st, spec, files, cs)
    ensures Holds(st, spec, cs[|cs| - 1], n)
  {
    hide Run, Ready, Passes;
    var last := |cs| - 1;
    if last == 0 {
      var stops :| cs[0] in Run(st, spec, None, stops, files).saved;
      SavedHolds(st, spec, None, 0, stops, files, cs[0]);
      n := if Holds(st, spec, cs[0], 0) then 0 else Target(spec, None, 0);
    } else {
      var m := ChainHolds(st, spec, files, cs[..last]);
      var given := Some(cs[last - 1]);
      assert Writes(st, spec, files, Some(cs[last - 1]), cs[last]);
      var stops :| cs[last] in Run(st, spec, given, stops, files).saved;
      SavedHolds(st, spec, given, m, stops, files, cs[last]);
      n := if Holds(st, spec, cs[last], m) then m else Target(spec, given, m);
    }
  }

  lemma WrittenIsSaved(st: Stages, spec: Spec, files: map<Path, Plan>, n: nat, written: seq<Checkpoint>,
                       held: Checkpoint, r: Report)
    requires Ready(st, spec)
    ensures written <= Rest(st, spec, NO_STOPS, files, n, written, held, r).saved
  {
    hide CheckPass, PlanPass, Passes, BoardOf, Ready;
  }

  /** From a checkpoint of n passes, the next two interruptions can leave one of n + 1. */
  lemma {:induction false} ReachPasses(st: Stages, spec: Spec, files: map<Path, Plan>, n: nat)
    returns (cs: seq<Checkpoint>)
    requires Ready(st, spec) && spec.optimize && n > 0
    ensures Chain(st, spec, files, cs) && Holds(st, spec, cs[|cs| - 1], n) && Optimize in cs[|cs| - 1].completed
    decreases n
  {
    hide Run, Rest, Ready, Passes;
    if n == 1 {
      var w, h, r := Unfold(st, spec, None, 0, NO_STOPS, files);
      WrittenIsSaved(st, spec, files, 1, w, h, r);
      assert h in Run(st, spec, None, NO_STOPS, files).saved;
      cs := [h];
    } else {
      var before := ReachPasses(st, spec, files, n - 1);
      var c := before[|before| - 1];
      var w, h, r := Unfold(st, spec, Some(c), n - 1, NO_STOPS, files);
      WrittenIsSaved(st, spec, files, n - 1, w, h, r);
      assert w[0] in Run(st, spec, Some(c), NO_STOPS, files).saved;
      var v, g, q := Unfold(st, spec, Some(w[0]), n - 1, NO_STOPS, files);
      WrittenIsSaved(st, spec, files, n, v, g, q);
      assert g in Run(st, spec, Some(w[0]), NO_STOPS, files).saved;
      cs := before + [w[0], g];
      ChainGrows(st, spec, files, before, w[0], g);
    }
  }

  lemma ChainGrows(st: Stages, spec: Spec, files: map<Path, Plan>, cs: seq<Checkpoint>, c: Checkpoint, d: Checkpoint)
    requires Chain(st, spec, files, cs)
    requires Writes(st, spec, files, Some(cs[|cs| - 1]), c) && Writes(st, spec, files, Some(c), d)
    ensures Chain(st, spec, files, cs + [c, d])
  {
    hide Writes;
    var more := cs + [c, d];
    forall i | 0 < i < |more| ensures Writes(st, spec, files, Some(more[i - 1]), more[i]) {
      if i < |cs| {
        assert Writes(st, spec, files, Some(cs[i - 1]), cs[i]);
      }
    }
  }

  /** A job survives every chain of interruptions exactly when further optimizer passes change nothing delivered. */
  lemma ChainExact(st: Stages, spec: Spec, files: map<Path, Plan>)
    requires Ready(st, spec)
    ensures ChainSafe(st, spec, files) <==> Settled(st, spec, files)
  {
    hide Run, Ready, Passes, Delivered, Delivery, Writes, Holds;
    RunDelivers(st, spec, None, 0, files);
    if Settled(st, spec, files) {
      forall cs | Chain(st, spec, files, cs)
        ensures Delivered(Run(st, spec, Some(cs[|cs| - 1]), NO_STOPS, files)) ==
                Delivered(Run(st, spec, None, NO_STOPS, files))
      {
        SettledChain(st, spec, files, cs);
      }
    }
    if ChainSafe(st, spec, files) && spec.optimize {
      forall n: nat | n > 0 ensures Delivery(st, spec, files, n) == Delivery(st, spec, files, 1) {
        var cs := ReachPasses(st, spec, files, n);
        var c := cs[|cs| - 1];
        HoldsSpec(st, spec, c, n);
        RunDelivers(st, spec, Some(c), n, files);
      }
    }
  }

  lemma HoldsSpec(st: Stages, spec: Spec, c: Checkpoint, n: nat)
    requires Holds(st, spec, c, n)
    ensures Matching(spec, Some(c)) == Some(c) && Sound(st, spec, Some(c), n)
    ensures !spec.optimize ==> n == 0
    ensures spec.optimize ==> Target(spec, Some(c), n) > 0
  {
  }

  lemma SettledChain(st: Stages, spec: Spec, files: map<Path, Plan>, cs: seq<Checkpoint>)
    requires Ready(st, spec) && Settled(st, spec, files) && Chain(st, spec, files, cs)
    ensures |cs| > 0
    ensures Delivered(Run(st, spec, Some(cs[|cs| - 1]), NO_STOPS, files)) ==
            Delivered(Run(st, spec, None, NO_STOPS, files))
  {
    hide Run, Ready, Passes, Delivered, Delivery, Holds;
    var n := ChainHolds(st, spec, files, cs);
    var c := cs[|cs| - 1];
    HoldsSpec(st, spec, c, n);
    RunDelivers(st, spec, Some(c), n, files);
    RunDelivers(st, spec, None, 0, files);
  }

  /** An optimizer whose second pass leaves its own result alone is enough. */
  lemma IdempotentSettles(st: Stages, spec: Spec, files: map<Path, Plan>)
    requires Ready(st, spec) && Passes(st, spec, 2).0 == Passes(st, spec, 1).0
    ensures ChainSafe(st, spec, files)
  {
    hide Ready;
    forall n: nat | n > 0 ensures Delivery(st, spec, files, n) == Delivery(st, spec, files, 1) {
      PassesStay(st, spec, n);
      hide Passes, AfterOptimize, Delivered;
    }
    ChainExact(st, spec, files);
  }

  lemma {:induction false} PassesStay(st: Stages, spec: Spec, n: nat)
    requires Ready(st, spec) && Passes(st, spec, 2).0 == Passes(st, spec, 1).0 && n > 0
    ensures Passes(st, spec, n).0 == Passes(st, spec, 1).0
  {
    hide Ready, Pass;
    if n > 1 {
      PassesStay(st, spec, n - 1);
      PassOn(st, spec, n - 1);
      PassOn(st, spec, 1);
    }
  }

  /** An optimizer that moves copper on every pass: each pass adds a track. */
  function RestlessStages(): Stages {
    Stages(true, Some(0), b => true, b => Some(0), 0, b => (Copper([1], []), 0), b => Unreadable,
           (b, s) => NotRouted(Ordinary), c => (c, Copper([], [])), (c: Copper, b: Board) => b,
           (b: Board, c: Copper) => (Copper(c.tracks + [2], c.vias), 0, 0), s => false,
           (b: Board, s: Settings, c: Copper, d: Copper) => (d, 0), (b: Board, c: Copper) => (c, None),
           (b, c) => Ran(0), (b, c) => 0, (b: Board, c: Copper) => Some(|c.tracks|))
  }

  /** Without that condition two interruptions are enough to deliver another plan. */
  lemma RestlessDiffers()
    ensures var spec := TAKING_SPEC;
            Ready(RestlessStages(), spec) && !ChainSafe(RestlessStages(), spec, map[])
  {
    var spec := TAKING_SPEC;
    var st := RestlessStages();
    assert Begin(st, spec) == Begun(0, 0);
    assert Start(st, spec) == Made(0, Copper([1], []), Copper([], []), Copper([], []), 0);
    assert BoardOf(st, spec) == 0;
    assert Passes(st, spec, 0).0 == Copper([1], []);
    assert Passes(st, spec, 1).0 == Copper([1, 2], []);
    assert Passes(st, spec, 2).0 == Copper([1, 2, 2], []);
    RestlessPlans(1, Copper([1, 2], []));
    RestlessPlans(2, Copper([1, 2, 2], []));
    ChainExact(st, spec, map[]);
  }

  lemma RestlessPlans(n: nat, work: Copper)
    requires var spec := TAKING_SPEC;
             Ready(RestlessStages(), spec) && Passes(RestlessStages(), spec, n).0 == work && work.tracks != []
    ensures Delivery(RestlessStages(), TAKING_SPEC, map[], n).0 ==
            map[0 := |work.tracks|]
  {
    hide Passes;
    var spec := TAKING_SPEC;
    var st := RestlessStages();
    assert Start(st, spec).fanout == Copper([], []);
    assert Together(Copper([], []), work) == work;
    assert PlanPass(st, spec, BoardOf(st, spec), work, Copper([], []), map[]).files == map[0 := |work.tracks|];
  }
}
