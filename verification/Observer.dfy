/** The call observer: atomic counters, a per-tool table and a ring of recent calls, updated one after another by
    any number of concurrent `record` calls while snapshots are taken. Runs are interleavings of atomic steps. */
module Observer {
  import opened Basics

  const MAX_RECENT: nat := 100

  datatype CallStatus = Ok | Partial | Uncertain | Error | NotFound

  datatype Record = Record(tool: string, status: CallStatus, duration: nat, errorKind: Option<string>)

  datatype ToolStats = ToolStats(
    total: nat, errors: nat, partials: nat, uncertains: nat, duration: nat,
    lastStatus: Option<CallStatus>, lastError: Option<string>)

  const FRESH := ToolStats(0, 0, 0, 0, 0, None, None)

  /** Totals, errors, partials and uncertains. */
  datatype Counts = Counts(total: nat, errors: nat, partials: nat, uncertains: nat)

  function Nothing(): Counts {
    Counts(0, 0, 0, 0)
  }

  function Plus(a: Counts, b: Counts): Counts {
    Counts(a.total + b.total, a.errors + b.errors, a.partials + b.partials, a.uncertains + b.uncertains)
  }

  predicate AtMost(a: Counts, b: Counts) {
    a.total <= b.total && a.errors <= b.errors && a.partials <= b.partials && a.uncertains <= b.uncertains
  }

  predicate CountsAsError(c: CallStatus) {
    c == Error || c == Uncertain
  }

  function One(b: bool): nat {
    if b then 1 else 0
  }

  // ----- Sums over a map

  ghost function Sum<K, V(!new)>(m: map<K, V>, f: V -> Counts): Counts
    decreases |m|
  {
    if m == map[] then Nothing()
    else
      var k :| k in m;
      Plus(f(m[k]), Sum(m - {k}, f))
  }

  lemma PlusSwap(a: Counts, b: Counts, c: Counts)
    ensures Plus(a, Plus(b, c)) == Plus(b, Plus(a, c))
  {
  }

  lemma PlusZero(a: Counts, b: Counts)
    requires a == b == Nothing()
    ensures Plus(a, b) == Nothing()
  {
  }

  lemma SumEmpty<K, V(!new)>(m: map<K, V>, f: V -> Counts)
    requires |m| == 0
    ensures Sum(m, f) == Nothing()
  {
  }

  /** The sum does not depend on the order in which keys are taken. */
  lemma {:induction false} SumSplit<K, V(!new)>(m: map<K, V>, f: V -> Counts, k: K)
    requires k in m
    ensures Sum(m, f) == Plus(f(m[k]), Sum(m - {k}, f))
    decreases |m|
  {
    var j :| j in m && Sum(m, f) == Plus(f(m[j]), Sum(m - {j}, f));
    hide Sum;
    if j != k {
      var both := m - {j} - {k};
      assert m - {k} - {j} == both;
      SumSplit(m - {j}, f, k);
      SumSplit(m - {k}, f, j);
      PlusSwap(f(m[j]), f(m[k]), Sum(both, f));
    }
  }

  lemma SumUpdate<K, V(!new)>(m: map<K, V>, f: V -> Counts, k: K, v: V)
    ensures k in m ==> Plus(Sum(m[k := v], f), f(m[k])) == Plus(Sum(m, f), f(v))
    ensures k !in m ==> Sum(m[k := v], f) == Plus(Sum(m, f), f(v))
  {
    hide Sum;
    var n := m[k := v];
    SumSplit(n, f, k);
    assert n - {k} == m - {k};
    if k in m {
      SumSplit(m, f, k);
    } else {
      assert m - {k} == m;
    }
  }

  // ----- The machine

  /** Where a `record` call is: the step it does next. */
  datatype Step = AddTotal | AddError | AddPartial | AddUncertain | AddTool | Push | Done

  datatype Call = Call(rec: Record, next: Step)

  /** Where a snapshot is, with what it has read; floor and open are the counters and the unfinished counts at the
      moment the table was copied. */
  datatype Snapshot = Snapshot(
    perTool: map<string, ToolStats>, loaded: nat, read: Counts, floor: Counts, open: Counts)

  datatype State = State(
    counters: Counts, perTool: map<string, ToolStats>, ring: seq<Record>, calls: map<nat, Call>,
    snaps: map<nat, Snapshot>, applied: seq<Record>, pushed: seq<Record>)

  datatype Action = Begin(call: nat, rec: Record) | Advance(call: nat) | Copy(snap: nat) | Load(snap: nat)

  const INITIAL := State(Nothing(), map[], [], map[], map[], [], [])

  /** What the table entry becomes. */
  function Applied(e: ToolStats, r: Record): ToolStats {
    var failed := CountsAsError(r.status);
    ToolStats(e.total + 1, e.errors + One(failed), e.partials + One(r.status == Partial),
              e.uncertains + One(r.status == Uncertain), e.duration + r.duration, Some(r.status),
              if failed then r.errorKind else e.lastError)
  }

  function Entry(t: map<string, ToolStats>, tool: string): ToolStats {
    if tool in t then t[tool] else FRESH
  }

  function WithRecord(t: map<string, ToolStats>, r: Record): map<string, ToolStats> {
    t[r.tool := Applied(Entry(t, r.tool), r)]
  }

  function Pushed(ring: seq<Record>, r: Record): seq<Record> {
    (if |ring| >= MAX_RECENT then ring[1..] else ring) + [r]
  }

  predicate Enabled(s: State, a: Action) {
    match a
    case Begin(c, _) => c !in s.calls
    case Advance(c) => c in s.calls && s.calls[c].next != Done
    case Copy(n) => n !in s.snaps
    case Load(n) => n in s.snaps && s.snaps[n].loaded < 4
  }

  function Advanced(s: State, c: nat): State
    requires c in s.calls && s.calls[c].next != Done
  {
    var r := s.calls[c].rec;
    var at := (next: Step) => s.(calls := s.calls[c := Call(r, next)]);
    match s.calls[c].next
    case AddTotal => at(AddError).(counters := s.counters.(total := s.counters.total + 1))
    case AddError =>
      at(AddPartial).(counters := s.counters.(errors := s.counters.errors + One(CountsAsError(r.status))))
    case AddPartial =>
      at(AddUncertain).(counters := s.counters.(partials := s.counters.partials + One(r.status == Partial)))
    case AddUncertain =>
      at(AddTool).(counters := s.counters.(uncertains := s.counters.uncertains + One(r.status == Uncertain)))
    case AddTool => at(Push).(perTool := WithRecord(s.perTool, r), applied := s.applied + [r])
    case Push => at(Done).(ring := Pushed(s.ring, r), pushed := s.pushed + [r])
  }

  function Loaded(n: Snapshot, c: Counts): Snapshot {
    match n.loaded
    case 0 => n.(loaded := 1, read := n.read.(total := c.total))
    case 1 => n.(loaded := 2, read := n.read.(errors := c.errors))
    case 2 => n.(loaded := 3, read := n.read.(partials := c.partials))
    case _ => n.(loaded := 4, read := n.read.(uncertains := c.uncertains))
  }

  ghost function Copied(s: State): Snapshot {
    Snapshot(s.perTool, 0, Nothing(), s.counters, InFlight(s))
  }

  ghost function Apply(s: State, a: Action): State
    requires Enabled(s, a)
  {
    match a
    case Begin(c, r) => s.(calls := s.calls[c := Call(r, AddTotal)])
    case Advance(c) => Advanced(s, c)
    case Copy(n) => s.(snaps := s.snaps[n := Copied(s)])
    case Load(n) => s.(snaps := s.snaps[n := Loaded(s.snaps[n], s.counters)])
  }

  // ----- Conservation

  function StatCounts(e: ToolStats): Counts {
    Counts(e.total, e.errors, e.partials, e.uncertains)
  }

  function RecordCounts(r: Record): Counts {
    Counts(1, One(CountsAsError(r.status)), One(r.status == Partial), One(r.status == Uncertain))
  }

  /** What a call has added to the counters and not yet to the table. */
  function Unfinished(c: Call): Counts {
    var w := RecordCounts(c.rec);
    match c.next
    case AddTotal => Nothing()
    case AddError => Counts(1, 0, 0, 0)
    case AddPartial => Counts(1, w.errors, 0, 0)
    case AddUncertain => Counts(1, w.errors, w.partials, 0)
    case AddTool => w
    case _ => Nothing()
  }

  ghost function TableSum(t: map<string, ToolStats>): Counts {
    Sum(t, StatCounts)
  }

  ghost function InFlight(s: State): Counts {
    Sum(s.calls, Unfinished)
  }

  /** The counters are the table plus what is in flight. */
  ghost predicate Conserved(s: State) {
    s.counters == Plus(TableSum(s.perTool), InFlight(s))
  }

  /** The table is the record-by-record tally of what was applied. */
  function Tally(rs: seq<Record>): map<string, ToolStats> {
    if rs == [] then map[] else WithRecord(Tally(rs[..|rs| - 1]), rs[|rs| - 1])
  }

  function Newest(rs: seq<Record>): seq<Record> {
    if |rs| <= MAX_RECENT then rs else rs[|rs| - MAX_RECENT..]
  }

  /** What a snapshot has read lies between the counters at its copy and now. */
  ghost predicate SnapInv(s: State, n: Snapshot) {
    && n.floor == Plus(TableSum(n.perTool), n.open) && AtMost(n.floor, s.counters) && n.loaded <= 4
    && (n.loaded > 0 ==> n.floor.total <= n.read.total <= s.counters.total)
    && (n.loaded > 1 ==> n.floor.errors <= n.read.errors <= s.counters.errors)
    && (n.loaded > 2 ==> n.floor.partials <= n.read.partials <= s.counters.partials)
    && (n.loaded > 3 ==> n.floor.uncertains <= n.read.uncertains <= s.counters.uncertains)
  }

  ghost predicate Inv(s: State) {
    && Conserved(s) && s.perTool == Tally(s.applied) && s.ring == Newest(s.pushed)
    && forall n :: n in s.snaps ==> SnapInv(s, s.snaps[n])
  }

  lemma BeginConserves(s: State, a: Action)
    requires Conserved(s) && Enabled(s, a) && !a.Advance?
    ensures Conserved(Apply(s, a))
  {
    hide Sum;
    if a.Begin? {
      SumUpdate(s.calls, Unfinished, a.call, Call(a.rec, AddTotal));
    }
  }

  lemma TableAdds(t: map<string, ToolStats>, r: Record)
    ensures TableSum(WithRecord(t, r)) == Plus(TableSum(t), RecordCounts(r))
  {
    hide Sum;
    SumUpdate(t, StatCounts, r.tool, Applied(Entry(t, r.tool), r));
  }

  lemma AdvanceConserves(s: State, c: nat)
    requires Conserved(s) && c in s.calls && s.calls[c].next != Done
    ensures Conserved(Advanced(s, c))
  {
    hide Sum, WithRecord, Pushed, TableSum;
    var t := Advanced(s, c);
    SumUpdate(s.calls, Unfinished, c, t.calls[c]);
    TableAdds(s.perTool, s.calls[c].rec);
    assert t.calls == s.calls[c := t.calls[c]];
  }

  lemma RingStep(rs: seq<Record>, r: Record)
    ensures Pushed(Newest(rs), r) == Newest(rs + [r])
  {
  }

  lemma TallyStep(rs: seq<Record>, r: Record)
    ensures Tally(rs + [r]) == WithRecord(Tally(rs), r)
  {
    assert (rs + [r])[..|rs|] == rs;
  }

  lemma CountersGrow(s: State, a: Action)
    requires Enabled(s, a)
    ensures AtMost(s.counters, Apply(s, a).counters)
    ensures a.Copy? || a.Load? ==> Apply(s, a).counters == s.counters
    ensures !a.Copy? && !a.Load? ==> Apply(s, a).snaps == s.snaps
    ensures a.Copy? ==> Apply(s, a).snaps == s.snaps[a.snap := Copied(s)]
    ensures a.Load? ==> Apply(s, a).snaps == s.snaps[a.snap := Loaded(s.snaps[a.snap], s.counters)]
  {
    hide WithRecord, Pushed, InFlight;
  }

  lemma SnapKept(s: State, t: State, n: Snapshot)
    requires SnapInv(s, n) && AtMost(s.counters, t.counters)
    ensures SnapInv(t, n)
  {
    hide TableSum, Plus;
  }

  lemma SnapReads(s: State, t: State, n: Snapshot)
    requires SnapInv(s, n) && n.loaded < 4 && t.counters == s.counters
    ensures SnapInv(t, Loaded(n, s.counters))
  {
    hide TableSum, Plus;
  }

  lemma SnapCopies(s: State, t: State)
    requires Conserved(s) && t.counters == s.counters
    ensures SnapInv(t, Copied(s))
  {
    hide TableSum, Plus, InFlight;
  }

  /** A copy adds one snapshot and leaves the others. */
  lemma CopyStep(s: State, t: State, k: nat, n: nat)
    requires Conserved(s) && t.counters == s.counters && t.snaps == s.snaps[k := Copied(s)] && n in t.snaps
    requires n in s.snaps ==> SnapInv(s, s.snaps[n])
    ensures SnapInv(t, t.snaps[n])
  {
    hide SnapInv, Conserved, Copied;
    if n == k {
      SnapCopies(s, t);
    } else {
      SnapKept(s, t, s.snaps[n]);
    }
  }

  /** A load changes one snapshot and leaves the others. */
  lemma LoadStep(s: State, t: State, k: nat, n: nat)
    requires k in s.snaps && s.snaps[k].loaded < 4 && t.counters == s.counters && n in t.snaps
    requires t.snaps == s.snaps[k := Loaded(s.snaps[k], s.counters)] && (n in s.snaps ==> SnapInv(s, s.snaps[n]))
    ensures SnapInv(t, t.snaps[n])
  {
    hide SnapInv, Loaded;
    if n == k {
      SnapReads(s, t, s.snaps[n]);
    } else {
      SnapKept(s, t, s.snaps[n]);
    }
  }

  lemma SnapStep(s: State, a: Action, n: nat)
    requires Conserved(s) && (n in s.snaps ==> SnapInv(s, s.snaps[n])) && Enabled(s, a) && n in Apply(s, a).snaps
    ensures SnapInv(Apply(s, a), Apply(s, a).snaps[n])
  {
    CountersGrow(s, a);
    hide SnapInv, Conserved, Apply, Copied, Loaded, AtMost;
    if a.Copy? {
      CopyStep(s, Apply(s, a), a.snap, n);
    } else if a.Load? {
      LoadStep(s, Apply(s, a), a.snap, n);
    } else {
      SnapKept(s, Apply(s, a), s.snaps[n]);
    }
  }

  lemma RestStep(s: State, a: Action)
    requires s.perTool == Tally(s.applied) && s.ring == Newest(s.pushed) && Enabled(s, a)
    ensures var t := Apply(s, a); t.perTool == Tally(t.applied) && t.ring == Newest(t.pushed)
  {
    hide Tally, Newest, WithRecord, Pushed, InFlight;
    if a.Advance? {
      var r := s.calls[a.call].rec;
      RingStep(s.pushed, r);
      TallyStep(s.applied, r);
    }
  }

  lemma StepHolds(s: State, a: Action)
    requires Inv(s) && Enabled(s, a)
    ensures Inv(Apply(s, a))
  {
    RestStep(s, a);
    if a.Advance? {
      AdvanceConserves(s, a.call);
    } else {
      BeginConserves(s, a);
    }
    var t := Apply(s, a);
    hide Conserved, Tally, Newest, SnapInv, Advanced, Enabled, Apply;
    forall n | n in t.snaps ensures SnapInv(t, t.snaps[n]) {
      SnapStep(s, a, n);
    }
  }

  lemma InitialHolds()
    ensures Inv(INITIAL)
  {
    hide Sum, Plus, Unfinished, StatCounts;
    SumEmpty(INITIAL.perTool, StatCounts);
    SumEmpty(INITIAL.calls, Unfinished);
    PlusZero(TableSum(INITIAL.perTool), InFlight(INITIAL));
  }

  // ----- Whole runs

  ghost predicate IsRun(ss: seq<State>, acts: seq<Action>) {
    && |ss| == |acts| + 1 && ss[0] == INITIAL
    && forall i :: 0 <= i < |acts| ==> Enabled(ss[i], acts[i]) && ss[i + 1] == Apply(ss[i], acts[i])
  }

  lemma {:induction false} RunHolds(ss: seq<State>, acts: seq<Action>, i: nat)
    requires IsRun(ss, acts) && i < |ss|
    ensures Inv(ss[i])
  {
    hide Inv, Apply, Enabled;
    if i == 0 {
      InitialHolds();
    } else {
      RunHolds(ss, acts, i - 1);
      assert Enabled(ss[i - 1], acts[i - 1]);
      StepHolds(ss[i - 1], acts[i - 1]);
    }
  }

  /** In every interleaving, a finished snapshot's per-tool counts sum to at most the counters it read, each of the
      four, and to exactly them when nothing was in flight at the copy and the counters stood still. */
  lemma SnapshotConsistent(ss: seq<State>, acts: seq<Action>, i: nat, n: nat)
    requires IsRun(ss, acts) && i < |ss| && n in ss[i].snaps && ss[i].snaps[n].loaded == 4
    ensures AtMost(TableSum(ss[i].snaps[n].perTool), ss[i].snaps[n].read)
    ensures ss[i].snaps[n].open == Nothing() && ss[i].counters == ss[i].snaps[n].floor ==>
              TableSum(ss[i].snaps[n].perTool) == ss[i].snaps[n].read
  {
    RunHolds(ss, acts, i);
    hide TableSum;
    assert SnapInv(ss[i], ss[i].snaps[n]);
  }

  lemma QuietCall(c: Call)
    requires c.next in {AddTotal, Push, Done}
    ensures Unfinished(c) == Nothing()
  {
  }

  /** With no call between its first count and its table entry, nothing is in flight. */
  lemma {:induction false} QuietMeansZero(calls: map<nat, Call>)
    requires forall c :: c in calls ==> calls[c].next in {AddTotal, Push, Done}
    ensures Sum(calls, Unfinished) == Nothing()
    decreases |calls|
  {
    hide *;
    if |calls| == 0 {
      SumEmpty(calls, Unfinished);
    } else {
      var c :| c in calls;
      SumSplit(calls, Unfinished, c);
      QuietMeansZero(calls - {c});
      QuietCall(calls[c]);
      PlusZero(Unfinished(calls[c]), Sum(calls - {c}, Unfinished));
    }
  }

  /** Whenever no call is in flight, the table sums to the counters. */
  lemma QuietAgrees(ss: seq<State>, acts: seq<Action>, i: nat)
    requires IsRun(ss, acts) && i < |ss|
    requires forall c :: c in ss[i].calls ==> ss[i].calls[c].next in {AddTotal, Push, Done}
    ensures TableSum(ss[i].perTool) == ss[i].counters
  {
    hide Sum, IsRun;
    RunHolds(ss, acts, i);
    QuietMeansZero(ss[i].calls);
  }

  // ----- The table, told by the records

  /** The records of one tool, in order. */
  function RecordsOf(rs: seq<Record>, tool: string): (r: seq<Record>)
    ensures forall k :: 0 <= k < |r| ==> r[k].tool == tool
  {
    if rs == [] then []
    else
      var n := |rs| - 1;
      RecordsOf(rs[..n], tool) + if rs[n].tool == tool then [rs[n]] else []
  }

  function Durations(rs: seq<Record>): nat {
    if rs == [] then 0 else Durations(rs[..|rs| - 1]) + rs[|rs| - 1].duration
  }

  /** A record that ended in one of these states. */
  function In(states: set<CallStatus>): Record -> bool {
    (r: Record) => r.status in states
  }

  /** The error kind of the newest record that failed; None if none has. */
  predicate NewestError(rs: seq<Record>, told: Option<string>) {
    if Places(rs, In({Error, Uncertain})) == {} then told == None
    else exists k :: k in Places(rs, In({Error, Uncertain})) && told == rs[k].errorKind
                     && forall j :: j in Places(rs, In({Error, Uncertain})) ==> j <= k
  }

  /** An entry tells of these records: how many, how they ended, how long they took, and how the newest fared. */
  predicate EntryTells(e: ToolStats, rs: seq<Record>) {
    |rs| > 0 && CountsTell(e, rs) && e.lastStatus == Some(rs[|rs| - 1].status) && NewestError(rs, e.lastError)
  }

  predicate CountsTell(e: ToolStats, rs: seq<Record>) {
    && e.total == |rs| && e.duration == Durations(rs)
    && e.errors == |Places(rs, In({Error, Uncertain}))| && e.partials == |Places(rs, In({Partial}))|
    && e.uncertains == |Places(rs, In({Uncertain}))|
  }

  lemma PlacesMore(rs: seq<Record>, r: Record, states: set<CallStatus>)
    ensures Places(rs + [r], In(states)) == Places(rs, In(states)) + (if r.status in states then {|rs|} else {})
    ensures |Places(rs + [r], In(states))| == |Places(rs, In(states))| + One(r.status in states)
  {
    assert (rs + [r])[..|rs|] == rs;
    PlacesStep(rs + [r], In(states), |rs|);
  }

  lemma ErrorMore(rs: seq<Record>, r: Record, told: Option<string>)
    requires NewestError(rs, told)
    ensures NewestError(rs + [r], if r.status in {Error, Uncertain} then r.errorKind else told)
  {
    PlacesMore(rs, r, {Error, Uncertain});
    var failed, more := Places(rs, In({Error, Uncertain})), rs + [r];
    if r.status in {Error, Uncertain} {
      assert more[|rs|] == r;
      assert |rs| in Places(more, In({Error, Uncertain}));
    } else if failed != {} {
      var k :| k in failed && told == rs[k].errorKind && forall j :: j in failed ==> j <= k;
      assert more[k] == rs[k];
      assert k in Places(more, In({Error, Uncertain}));
    }
  }

  lemma FreshTells()
    ensures CountsTell(FRESH, []) && NewestError([], FRESH.lastError)
  {
    assert forall states :: Places([], In(states)) == {};
  }

  lemma CountsMore(e: ToolStats, rs: seq<Record>, r: Record)
    requires CountsTell(e, rs)
    ensures CountsTell(Applied(e, r), rs + [r])
  {
    hide Places, In;
    var more := rs + [r];
    assert more[..|rs|] == rs && more[|more| - 1] == r;
    PlacesMore(rs, r, {Error, Uncertain});
    PlacesMore(rs, r, {Partial});
    PlacesMore(rs, r, {Uncertain});
  }

  lemma EntryMore(e: ToolStats, rs: seq<Record>, r: Record)
    requires if rs == [] then e == FRESH else EntryTells(e, rs)
    ensures EntryTells(Applied(e, r), rs + [r])
  {
    FreshTells();
    hide NewestError, CountsTell;
    CountsMore(e, rs, r);
    ErrorMore(rs, r, e.lastError);
  }

  lemma {:induction false} TallyTells(rs: seq<Record>, tool: string)
    ensures tool in Tally(rs) <==> exists k :: 0 <= k < |rs| && rs[k].tool == tool
    ensures tool in Tally(rs) ==> EntryTells(Tally(rs)[tool], RecordsOf(rs, tool))
    ensures tool !in Tally(rs) ==> RecordsOf(rs, tool) == []
  {
    if rs != [] {
      var n := |rs| - 1;
      var front := rs[..n];
      TallyTells(front, tool);
      hide EntryTells, Applied;
      assert Tally(rs) == WithRecord(Tally(front), rs[n]);
      if rs[n].tool == tool {
        assert RecordsOf(rs, tool) == RecordsOf(front, tool) + [rs[n]];
        EntryMore(Entry(Tally(front), tool), RecordsOf(front, tool), rs[n]);
      } else {
        assert RecordsOf(rs, tool) == RecordsOf(front, tool);
      }
    }
  }

  /** In every interleaving and for every tool: it has an entry exactly when a record of it was applied, and the
      entry tells of just those records. */
  lemma TableTells(ss: seq<State>, acts: seq<Action>, i: nat, tool: string)
    requires IsRun(ss, acts) && i < |ss|
    ensures tool in ss[i].perTool <==> exists k :: 0 <= k < |ss[i].applied| && ss[i].applied[k].tool == tool
    ensures tool in ss[i].perTool ==> EntryTells(ss[i].perTool[tool], RecordsOf(ss[i].applied, tool))
  {
    RunHolds(ss, acts, i);
    hide IsRun, Conserved, Tally, EntryTells;
    TallyTells(ss[i].applied, tool);
  }

  // ----- The counters, told by the calls

  function Where(calls: map<nat, Call>, p: Call -> bool): set<nat> {
    set c | c in calls && p(calls[c])
  }

  lemma WhereWithout(calls: map<nat, Call>, k: nat, v: Call, p: Call -> bool)
    ensures Where(calls, p) - {k} == Where(calls[k := v], p) - {k}
    ensures k in Where(calls, p) <==> k in calls && p(calls[k])
    ensures k in Where(calls[k := v], p) <==> p(v)
  {
  }

  lemma WhereStep(calls: map<nat, Call>, k: nat, v: Call, p: Call -> bool)
    ensures |Where(calls[k := v], p)| + One(k in calls && p(calls[k])) == |Where(calls, p)| + One(p(v))
  {
    WhereWithout(calls, k, v, p);
    WithoutOne(Where(calls, p), k);
    WithoutOne(Where(calls[k := v], p), k);
    hide Where;
  }

  lemma WithoutOne(s: set<nat>, k: nat)
    ensures |s| == |s - {k}| + One(k in s)
  {
    assert k in s ==> s == (s - {k}) + {k};
    assert k !in s ==> s == s - {k};
  }

  /** A call that is past the steps still open, of a record with one of these states. */
  function Past(open: set<Step>, states: set<CallStatus>): Call -> bool {
    (c: Call) => c.next !in open && c.rec.status in states
  }

  /** A call with record r that is at one of these steps. */
  function With(r: Record, steps: set<Step>): Call -> bool {
    (c: Call) => c.rec == r && c.next in steps
  }

  const ALL_STATES := {Ok, Partial, Uncertain, Error, NotFound}

  /** Each counter is the number of calls that have passed its step, of the states it counts. */
  predicate CountersTell(s: State) {
    && s.counters.total == |Where(s.calls, Past({AddTotal}, ALL_STATES))|
    && s.counters.errors == |Where(s.calls, Past({AddTotal, AddError}, {Error, Uncertain}))|
    && s.counters.partials == |Where(s.calls, Past({AddTotal, AddError, AddPartial}, {Partial}))|
    && s.counters.uncertains == |Where(s.calls, Past({AddTotal, AddError, AddPartial, AddUncertain}, {Uncertain}))|
  }

  /** Each record was applied, and pushed, as often as calls with it have passed that step. */
  ghost predicate RecordsTell(s: State) {
    forall r ::
      && multiset(s.applied)[r] == |Where(s.calls, With(r, {Push, Done}))|
      && multiset(s.pushed)[r] == |Where(s.calls, With(r, {Done}))|
  }

  function After(step: Step): Step {
    match step
    case AddTotal => AddError
    case AddError => AddPartial
    case AddPartial => AddUncertain
    case AddUncertain => AddTool
    case AddTool => Push
    case _ => Done
  }

  /** The call a step is about, and what becomes of it. */
  lemma OneCall(s: State, a: Action) returns (k: nat, v: Call)
    requires Enabled(s, a) && (a.Begin? || a.Advance?)
    ensures Apply(s, a).calls == s.calls[k := v]
    ensures a.Begin? ==> k !in s.calls && v.next == AddTotal
    ensures a.Advance? ==> k == a.call && v.rec == s.calls[k].rec && v.next == After(s.calls[k].next)
  {
    hide WithRecord, Pushed;
    k := a.call;
    v := Apply(s, a).calls[k];
  }

  lemma PastStep(calls: map<nat, Call>, k: nat, v: Call, open: set<Step>, states: set<CallStatus>)
    requires AddTotal in open && if k in calls then v.rec == calls[k].rec else v.next == AddTotal
    ensures |Where(calls[k := v], Past(open, states))| ==
            |Where(calls, Past(open, states))| +
            One(k in calls && v.next !in open && v.rec.status in states) -
            One(k in calls && calls[k].next !in open && v.rec.status in states)
  {
    hide Where;
    WhereStep(calls, k, v, Past(open, states));
  }

  lemma CountersStep(s: State, a: Action)
    requires CountersTell(s) && Enabled(s, a)
    ensures CountersTell(Apply(s, a))
  {
    hide Where, WithRecord, Pushed, Copied, Loaded, Past;
    if a.Begin? || a.Advance? {
      var k, v := OneCall(s, a);
      PastStep(s.calls, k, v, {AddTotal}, ALL_STATES);
      PastStep(s.calls, k, v, {AddTotal, AddError}, {Error, Uncertain});
      PastStep(s.calls, k, v, {AddTotal, AddError, AddPartial}, {Partial});
      PastStep(s.calls, k, v, {AddTotal, AddError, AddPartial, AddUncertain}, {Uncertain});
      AnyState(v.rec.status);
    }
  }

  lemma AnyState(c: CallStatus)
    ensures c in ALL_STATES
  {
    match c case Ok => case Partial => case Uncertain => case Error => case NotFound =>
  }

  lemma WithStep(calls: map<nat, Call>, k: nat, v: Call, r: Record, steps: set<Step>)
    requires AddTotal !in steps && if k in calls then v.rec == calls[k].rec else v.next == AddTotal
    ensures |Where(calls[k := v], With(r, steps))| ==
            |Where(calls, With(r, steps))| +
            One(k in calls && v.rec == r && v.next in steps) - One(k in calls && v.rec == r && calls[k].next in steps)
  {
    hide Where;
    WhereStep(calls, k, v, With(r, steps));
  }

  lemma HistoryStep(s: State, a: Action)
    requires Enabled(s, a)
    ensures Apply(s, a).applied ==
            if a.Advance? && s.calls[a.call].next == AddTool then s.applied + [s.calls[a.call].rec] else s.applied
    ensures Apply(s, a).pushed ==
            if a.Advance? && s.calls[a.call].next == Push then s.pushed + [s.calls[a.call].rec] else s.pushed
    ensures a.Copy? || a.Load? ==> Apply(s, a).calls == s.calls
  {
    hide WithRecord, Pushed, Copied, Loaded;
  }

  /** One call moves on: a history that grows at one step keeps its count of r. */
  lemma CountKept(calls: map<nat, Call>, k: nat, v: Call, r: Record, at: Step, steps: set<Step>, had: seq<Record>,
                  has: seq<Record>)
    requires (at == AddTool && steps == {Push, Done}) || (at == Push && steps == {Done})
    requires multiset(had)[r] == |Where(calls, With(r, steps))|
    requires if k in calls then v == Call(calls[k].rec, After(calls[k].next)) && calls[k].next != Done
             else v.next == AddTotal
    requires has == if k in calls && calls[k].next == at then had + [v.rec] else had
    ensures multiset(has)[r] == |Where(calls[k := v], With(r, steps))|
  {
    WithStep(calls, k, v, r, steps);
    hide Where, With;
  }

  lemma RecordsStep(s: State, a: Action)
    requires RecordsTell(s) && Enabled(s, a)
    ensures RecordsTell(Apply(s, a))
  {
    HistoryStep(s, a);
    var t := Apply(s, a);
    if a.Begin? || a.Advance? {
      var k, v := OneCall(s, a);
      hide Where, Apply, With, After;
      forall r
        ensures multiset(t.applied)[r] == |Where(t.calls, With(r, {Push, Done}))|
        ensures multiset(t.pushed)[r] == |Where(t.calls, With(r, {Done}))|
      {
        CountKept(s.calls, k, v, r, AddTool, {Push, Done}, s.applied, t.applied);
        CountKept(s.calls, k, v, r, Push, {Done}, s.pushed, t.pushed);
      }
    }
  }

  /** In every interleaving: the counters count the calls past their steps, and every record was applied and pushed
      once for each call past those. */
  lemma {:induction false} HistoryTells(ss: seq<State>, acts: seq<Action>, i: nat)
    requires IsRun(ss, acts) && i < |ss|
    ensures CountersTell(ss[i]) && RecordsTell(ss[i])
  {
    if i > 0 {
      HistoryTells(ss, acts, i - 1);
      assert Enabled(ss[i - 1], acts[i - 1]);
      hide Apply, Enabled, CountersTell, RecordsTell;
      CountersStep(ss[i - 1], acts[i - 1]);
      RecordsStep(ss[i - 1], acts[i - 1]);
    }
  }

  /** `recent`: up to limit calls, newest first; 0 asks for all there are. */
  function Recent(ring: seq<Record>, limit: nat): (r: seq<Record>)
    ensures |r| == if limit == 0 || limit > |ring| then |ring| else limit
  {
    var n := if limit == 0 || limit > |ring| then |ring| else limit;
    seq(n, k requires 0 <= k < n => ring[|ring| - 1 - k])
  }

  /** In every interleaving the ring holds the newest pushes in order, at most a hundred, and `recent` lists them
      from the newest back. */
  lemma RecentIsNewest(ss: seq<State>, acts: seq<Action>, i: nat, limit: nat, k: nat)
    requires IsRun(ss, acts) && i < |ss| && k < |Recent(ss[i].ring, limit)|
    ensures |ss[i].ring| == if |ss[i].pushed| <= 100 then |ss[i].pushed| else 100
    ensures k < |ss[i].pushed| && Recent(ss[i].ring, limit)[k] == ss[i].pushed[|ss[i].pushed| - 1 - k]
  {
    RunHolds(ss, acts, i);
    hide IsRun, Conserved;
  }

  // ----- The observer as one caller sees it

  class CallObserver {
    var counters: Counts
    var perTool: map<string, ToolStats>
    var ring: seq<Record>

    constructor ()
      ensures counters == Nothing() && perTool == map[] && ring == []
    {
      counters, perTool, ring := Counts(0, 0, 0, 0), map[], [];
    }

    /** `record`, with no other call in between: every counter, the tool's entry and the ring. */
    method Add(rec: Record)
      modifies this
      ensures counters == Plus(old(counters), RecordCounts(rec))
      ensures perTool == WithRecord(old(perTool), rec)
      ensures ring == Pushed(old(ring), rec)
    {
      counters := counters.(total := counters.total + 1);
      if rec.status == Error || rec.status == Uncertain {
        counters := counters.(errors := counters.errors + 1);
      }
      if rec.status == Partial {
        counters := counters.(partials := counters.partials + 1);
      }
      if rec.status == Uncertain {
        counters := counters.(uncertains := counters.uncertains + 1);
      }
      var entry := if rec.tool in perTool then perTool[rec.tool] else FRESH;
      entry := entry.(total := entry.total + 1, duration := entry.duration + rec.duration,
                      lastStatus := Some(rec.status));
      if rec.status == Error || rec.status == Uncertain {
        entry := entry.(errors := entry.errors + 1, lastError := rec.errorKind);
      }
      if rec.status == Partial {
        entry := entry.(partials := entry.partials + 1);
      }
      if rec.status == Uncertain {
        entry := entry.(uncertains := entry.uncertains + 1);
      }
      perTool := perTool[rec.tool := entry];
      if |ring| >= MAX_RECENT {
        ring := ring[1..];
      }
      ring := ring + [rec];
    }

    /** `recent`. */
    method RecentCalls(limit: nat) returns (out: seq<Record>)
      ensures out == Recent(ring, limit)
    {
      var n := if limit == 0 then |ring| else if limit < |ring| then limit else |ring|;
      out := [];
      for k := 0 to n
        invariant |out| == k && forall i :: 0 <= i < k ==> out[i] == ring[|ring| - 1 - i]
      {
        out := out + [ring[|ring| - 1 - k]];
      }
    }
  }

  /** A call that runs alone from its beginning does to the shared state what `Add` does. */
  lemma AloneIsAdd(s: State, c: nat, r: Record)
    requires c !in s.calls
    ensures var t := SixSteps(Apply(s, Begin(c, r)), c);
            && t.counters == Plus(s.counters, RecordCounts(r)) && t.perTool == WithRecord(s.perTool, r)
            && t.ring == Pushed(s.ring, r)
  {
  }

  function SixSteps(s: State, c: nat): State
    requires c in s.calls && s.calls[c].next == AddTotal
  {
    Advanced(Advanced(Advanced(Advanced(Advanced(Advanced(s, c), c), c), c), c), c)
  }
}
