/**
 The progression invariant (`scripts/autopilot/progression.ts`): a gate may be
 recorded only when every mandatory source is GREEN and cites evidence.
 */
module Progression {
  import opened Flow
  import opened Sorting
  import opened Tallies

  datatype SourceName = Nodes | Gates | DefinitionOfDone | Artifacts | FailureEvidence | Validation

  datatype Colour = GREEN | RED | UNKNOWN

  datatype Source = Source(verdict: Colour, evidence: seq<string>)

  datatype Blocker = Blocker(source: SourceName, verdict: Colour)

  const PHASE_SOURCES: seq<SourceName> := [Nodes, Gates, DefinitionOfDone, Artifacts, FailureEvidence]
  const WAVE_SOURCES: seq<SourceName> := [Nodes, Gates, Validation, FailureEvidence]

  function SourcesOf(kind: GateKind): seq<SourceName> {
    if kind == Phase then PHASE_SOURCES else WAVE_SOURCES
  }

  predicate Passes(sources: map<SourceName, Source>, name: SourceName) {
    name in sources && sources[name].verdict == GREEN && sources[name].evidence != []
  }

  function Named(blockers: seq<Blocker>): set<SourceName> { set b | b in blockers :: b.source }

  function Failing(required: seq<SourceName>, sources: map<SourceName, Source>): set<SourceName> {
    set name | name in required && !Passes(sources, name)
  }

  lemma NamedAppends(blockers: seq<Blocker>, b: Blocker)
    ensures Named(blockers + [b]) == Named(blockers) + {b.source}
  {
    var all := blockers + [b];
    assert forall x | x in all :: x in blockers || x == b;
    assert b == all[|blockers|] && b in all;
  }

  /** Some required source that passes cites `e`. */
  ghost predicate Cited(required: seq<SourceName>, sources: map<SourceName, Source>, e: string) {
    exists name :: name in required && Passes(sources, name) && e in sources[name].evidence
  }

  function ColourOf(sources: map<SourceName, Source>, name: SourceName): Colour {
    if name in sources then sources[name].verdict else UNKNOWN
  }

  ghost predicate Judged(required: seq<SourceName>, sources: map<SourceName, Source>, blockers: seq<Blocker>, evidence: seq<string>) {
    && Named(blockers) == Failing(required, sources)
    && (forall b | b in blockers :: b.verdict == ColourOf(sources, b.source))
    && forall e :: e in evidence <==> Cited(required, sources, e)
  }

  lemma CitedAppends(required: seq<SourceName>, sources: map<SourceName, Source>, name: SourceName, e: string)
    ensures Cited(required + [name], sources, e) <==>
            Cited(required, sources, e) || (Passes(sources, name) && e in sources[name].evidence)
  {
    var all := required + [name];
    assert forall n :: n in all <==> n in required || n == name;
  }

  lemma FailingAppends(required: seq<SourceName>, sources: map<SourceName, Source>, name: SourceName)
    ensures Failing(required + [name], sources) == Failing(required, sources) + if Passes(sources, name) then {} else {name}
  {
    assert forall n :: n in required + [name] <==> n in required || n == name;
  }

  lemma JudgedBlocks(required: seq<SourceName>, sources: map<SourceName, Source>, blockers: seq<Blocker>,
                     evidence: seq<string>, name: SourceName)
    requires Judged(required, sources, blockers, evidence) && !Passes(sources, name)
    ensures Judged(required + [name], sources, blockers + [Blocker(name, ColourOf(sources, name))], evidence)
  {
    NamedAppends(blockers, Blocker(name, ColourOf(sources, name)));
    FailingAppends(required, sources, name);
    forall e ensures e in evidence <==> Cited(required + [name], sources, e) { CitedAppends(required, sources, name, e); }
  }

  lemma JudgedPasses(required: seq<SourceName>, sources: map<SourceName, Source>, blockers: seq<Blocker>,
                     evidence: seq<string>, name: SourceName)
    requires Judged(required, sources, blockers, evidence) && Passes(sources, name)
    ensures Judged(required + [name], sources, blockers, evidence + sources[name].evidence)
  {
    FailingAppends(required, sources, name);
    forall e ensures e in evidence + sources[name].evidence <==> Cited(required + [name], sources, e) {
      CitedAppends(required, sources, name, e);
    }
  }

  /**
   Green exactly when every required source passes. Exactly the sources that do not are
   blamed, each with its own verdict; exactly what those that do cite is the evidence,
   each path once.
   */
  method Judge(required: seq<SourceName>, sources: map<SourceName, Source>)
      returns (green: bool, blockers: seq<Blocker>, evidence: seq<string>)
    ensures green <==> forall name | name in required :: Passes(sources, name)
    ensures Judged(required, sources, blockers, evidence) && Distinct(evidence)
  {
    blockers, evidence := [], [];
    for i := 0 to |required|
      invariant Judged(required[..i], sources, blockers, evidence)
    {
      var name := required[i];
      assert required[..i + 1] == required[..i] + [name];
      if name !in sources {
        JudgedBlocks(required[..i], sources, blockers, evidence, name);
        blockers := blockers + [Blocker(name, UNKNOWN)];
      } else if sources[name].verdict == GREEN && sources[name].evidence != [] {
        JudgedPasses(required[..i], sources, blockers, evidence, name);
        evidence := evidence + sources[name].evidence;
      } else {
        JudgedBlocks(required[..i], sources, blockers, evidence, name);
        blockers := blockers + [Blocker(name, sources[name].verdict)];
      }
    }
    assert required[..|required|] == required;
    evidence := FirstSeen(evidence);
    green := blockers == [];
    NoneBlamed(required, sources, blockers);
  }

  lemma NoneBlamed(required: seq<SourceName>, sources: map<SourceName, Source>, blockers: seq<Blocker>)
    requires Named(blockers) == Failing(required, sources)
    ensures blockers == [] <==> forall name | name in required :: Passes(sources, name)
  {
    if blockers == [] {
      forall name | name in required ensures Passes(sources, name) { assert name !in Failing(required, sources); }
    } else {
      assert blockers[0].source in Named(blockers);
    }
  }
}

/**
 The supervisor (`scripts/autopilot/supervise.ts`, `scripts/autopilot/state.ts`):
 the loop that derives an action, carries it out through commands and workers, and
 keeps its own counters, failures and escalation on disk. Everything outside it is
 an arbitrary environment that answers one question after another.
 */
module Supervise {
  import opened Graph
  import opened Flow
  import opened Sorting
  import opened Lists
  import opened Numbers
  import opened Progression

  // ---- durable state ----

  datatype FailureKind = GateHeld | WorkerFailed | NoProgress

  datatype Failure = Failure(kind: FailureKind, segment: Option<string>, node: Option<string>, resolved: bool)

  datatype NodeStatus = Ready | Running | Repairing | Stopped

  datatype NodeRecord = NodeRecord(status: NodeStatus, launches: nat)

  datatype Escalation = Escalation(trigger: int, resolved: bool)

  datatype State = State(revision: nat, segment: Option<string>, nodes: map<string, NodeRecord>,
                         repairAttempts: map<string, nat>, failures: seq<Failure>,
                         escalation: Option<Escalation>, lastGreen: int, stopRequested: bool)

  /** A revision-checked write: refused when the disk has moved on. */
  function WriteState(disk: State, next: State): (r: Option<State>)
    ensures r.Some? <==> disk.revision == next.revision
  {
    if disk.revision != next.revision then None else Some(next.(revision := next.revision + 1))
  }

  /** Those of several attempted writes that are accepted, in order. */
  function Accepted(disk: State, writes: seq<State>): seq<State>
    decreases |writes|
  {
    if writes == [] then []
    else
      match WriteState(disk, writes[0])
      case None => Accepted(disk, writes[1..])
      case Some(next) => [writes[0]] + Accepted(next, writes[1..])
  }

  /**
   Whoever writes, however the attempts interleave: the accepted writes form one line.
   Each was made on the revision the one before it left, so none overwrites a change
   its writer had not read.
   */
  lemma {:induction false} WritesFormALine(disk: State, writes: seq<State>, k: nat)
    requires k < |Accepted(disk, writes)|
    ensures Accepted(disk, writes)[k].revision == disk.revision + k
    decreases |writes|
  {
    match WriteState(disk, writes[0])
    case None => WritesFormALine(disk, writes[1..], k);
    case Some(next) => if k > 0 { WritesFormALine(next, writes[1..], k - 1); }
  }

  /** The bucket a repair attempt is charged to. */
  function RepairKey(segment: Option<string>, bucket: string): string {
    (if segment.Some? then segment.value else "-") + "::" + bucket
  }

  predicate Blank(s: string) {
    forall i | 0 <= i < |s| :: s[i] == ' ' || s[i] == '\t' || s[i] == '\n' || s[i] == '\r'
  }

  /** What tells one gate of a segment from another: the phase gate, or the packets a wave gate covers. */
  function GateBucket(kind: GateKind, packets: seq<string>): string {
    if kind == Phase then "gate:phase"
    else
      var named := Sort(Keep(packets, p => !Blank(p)), StrLe);
      if named == [] then "gate:wave" else "gate:wave:" + Join(named, "+")
  }

  function WaveBucket(named: seq<string>): string {
    if named == [] then "gate:wave" else "gate:wave:" + Join(named, "+")
  }

  lemma BucketOf(packets: seq<string>)
    requires forall p | p in packets :: !Blank(p)
    ensures GateBucket(Wave, packets) == WaveBucket(Sort(packets, StrLe)) && GateBucket(Phase, packets) == "gate:phase"
  {
    KeepAllOrNone(packets, p => !Blank(p), true);
  }

  ghost predicate Namable(packets: seq<string>) { forall p | p in packets :: !Blank(p) && '+' !in p }

  /** A gate has its own bucket: the phase gate is no wave gate, and wave gates share one exactly if they cover the same packets. */
  lemma GatesHaveBuckets(a: seq<string>, b: seq<string>)
    requires Namable(a) && Namable(b)
    ensures GateBucket(Phase, a) != GateBucket(Wave, b)
    ensures GateBucket(Wave, a) == GateBucket(Wave, b) <==> multiset(a) == multiset(b)
  {
    BucketOf(a);
    BucketOf(b);
    assert WaveBucket(Sort(b, StrLe))[5] == 'w' && "gate:phase"[5] == 'p';
    if multiset(a) == multiset(b) {
      StrOrder(a);
      SortIgnoresOrder(a, b, StrLe);
    }
    if WaveBucket(Sort(a, StrLe)) == WaveBucket(Sort(b, StrLe)) {
      SortMembers(a, StrLe);
      SortMembers(b, StrLe);
      SameBucket(Sort(a, StrLe), Sort(b, StrLe));
      SortPermutes(a, StrLe);
      SortPermutes(b, StrLe);
    }
  }

  lemma SameBucket(x: seq<string>, y: seq<string>)
    requires Namable(x) && Namable(y) && WaveBucket(x) == WaveBucket(y)
    ensures x == y
  {
    if x != [] && y != [] {
      assert Join(x, "+") == ("gate:wave:" + Join(x, "+"))[10..] && Join(y, "+") == ("gate:wave:" + Join(y, "+"))[10..];
      assert "+" == ['+'];
      JoinIsInjective(x, y, '+');
    }
  }

  function Count(s: State, key: string): nat {
    if key in s.repairAttempts then s.repairAttempts[key] else 0
  }

  /** The unresolved failures that bear on a gate: all but this segment's own earlier holds. */
  predicate BlocksGate(f: Failure, segment: Option<string>) {
    !f.resolved && !(f.kind == GateHeld && f.segment == segment)
  }

  predicate GateBlocked(s: State, segment: Option<string>) {
    exists f | f in s.failures :: BlocksGate(f, segment)
  }

  /** Blocked exactly by what is unresolved and is no hold of this segment's own gates. */
  lemma GateBlockedExactly(s: State, segment: Option<string>)
    ensures GateBlocked(s, segment) <==>
            exists i :: 0 <= i < |s.failures| && s.failures[i].resolved == false
                        && (s.failures[i].kind == WorkerFailed || s.failures[i].kind == NoProgress || s.failures[i].segment != segment)
  {
    if i :| 0 <= i < |s.failures| && !s.failures[i].resolved
            && (s.failures[i].kind == WorkerFailed || s.failures[i].kind == NoProgress || s.failures[i].segment != segment) {
      assert s.failures[i] in s.failures && BlocksGate(s.failures[i], segment);
    }
  }

  predicate Frozen(s: State) {
    s.escalation.Some? && !s.escalation.value.resolved
  }

  // ---- what is observable from outside ----

  datatype Outcome = DoneOutcome | Rotate | RepairRequired | Failed | BlockedOutcome

  datatype Task = DispatchTask | RepairTask | ReconcileTask | IntegrateTask | GateTask(kind: GateKind)

  datatype Command = GateCommand(kind: GateKind) | Probe | Record(kind: GateKind, segment: Option<string>) | GitHead

  datatype Event =
    | Ran(command: Command, code: int, at: State)
    | Launched(task: Task, node: Option<string>, outcome: Outcome)
    | DodChecked(ok: bool)
    | EvidenceChecked(ok: bool)
    | LeaseAsked(node: Option<string>, ok: bool)

  predicate IsRecord(e: Event) { e.Ran? && e.command.Record? }

  /**
   Why a record command was issued: straight before it, the gate command and the
   probe exited 0, the gate worker reported DONE, a phase gate's Definition of Done
   and evidence were checked, and no unresolved failure bears on the gate.
   */
  ghost predicate Justified(trace: seq<Event>, k: nat)
    requires k < |trace|
  {
    IsRecord(trace[k]) ==>
      var kind, segment := trace[k].command.kind, trace[k].command.segment;
      var n := if kind == Phase then 5 else 3;
      && k >= n
      && trace[k - n].Ran? && trace[k - n].command == GateCommand(kind) && trace[k - n].code == 0
      && trace[k - n + 1].Ran? && trace[k - n + 1].command == Probe && trace[k - n + 1].code == 0
      && trace[k - n + 2] == Launched(GateTask(kind), None, DoneOutcome)
      && (kind == Phase ==> trace[k - 2] == DodChecked(true) && trace[k - 1] == EvidenceChecked(true))
      && !GateBlocked(trace[k].at, segment)
  }

  ghost predicate AllJustified(trace: seq<Event>) {
    forall k | 0 <= k < |trace| :: Justified(trace, k)
  }

  ghost predicate NoRecordSince(t0: seq<Event>, t1: seq<Event>) {
    t0 <= t1 && forall k | |t0| <= k < |t1| :: !IsRecord(t1[k])
  }

  // ---- who is launched ----

  /** What happened from `t0` to `t1`. */
  function Since(t0: seq<Event>, t1: seq<Event>): seq<Event>
    requires t0 <= t1
  {
    t1[|t0|..]
  }

  function Times(events: seq<Event>, p: Event -> bool): nat {
    if events == [] then 0 else Times(events[..|events| - 1], p) + if p(events[|events| - 1]) then 1 else 0
  }

  /** A lease was asked for `node`; it was granted; a worker was launched for `node`. */
  function AsksFor(node: string): Event -> bool { (e: Event) => e.LeaseAsked? && e.node == Some(node) }

  function GrantsFor(node: string): Event -> bool { (e: Event) => e.LeaseAsked? && e.node == Some(node) && e.ok }

  function LaunchesFor(node: string): Event -> bool { (e: Event) => e.Launched? && e.node == Some(node) }

  function ReportsOf(node: string, outcome: Outcome): Event -> bool {
    (e: Event) => e.Launched? && e.node == Some(node) && e.outcome == outcome
  }

  /** How many of the batch's results are of `node` and have this outcome. */
  function Answers(batch: seq<string>, results: seq<Option<WorkerAnswer>>, node: string, outcome: Outcome): nat
    requires |results| == |batch|
  {
    if batch == [] then 0
    else (if batch[0] == node && results[0].Some? && results[0].value.outcome == outcome then 1 else 0) + Answers(batch[1..], results[1..], node, outcome)
  }

  lemma {:induction false} AnswerAdded(batch: seq<string>, results: seq<Option<WorkerAnswer>>, i: nat, a: WorkerAnswer, node: string, outcome: Outcome)
    requires |results| == |batch| && i < |batch| && results[i].None?
    ensures Answers(batch, results[i := Some(a)], node, outcome) ==
            Answers(batch, results, node, outcome) + if batch[i] == node && a.outcome == outcome then 1 else 0
  {
    if i == 0 {
      assert results[0 := Some(a)][1..] == results[1..];
    } else {
      AnswerAdded(batch[1..], results[1..], i - 1, a, node, outcome);
      assert results[i := Some(a)][1..] == results[1..][i - 1 := Some(a)];
    }
  }

  lemma {:induction false} NoAnswers(batch: seq<string>, results: seq<Option<WorkerAnswer>>, node: string, outcome: Outcome)
    requires |results| == |batch| && forall i | 0 <= i < |results| :: results[i].None?
    ensures Answers(batch, results, node, outcome) == 0
  {
    if batch != [] { NoAnswers(batch[1..], results[1..], node, outcome); }
  }

  /** The results are what the launched workers reported. */
  ghost predicate Reported(t0: seq<Event>, t1: seq<Event>, batch: seq<string>, results: seq<Option<WorkerAnswer>>) {
    |results| == |batch| && forall node, outcome :: ReportedFor(t0, t1, batch, results, node, outcome)
  }

  ghost predicate ReportedFor(t0: seq<Event>, t1: seq<Event>, batch: seq<string>, results: seq<Option<WorkerAnswer>>, node: string, outcome: Outcome)
    requires |results| == |batch|
  {
    Times(t1, ReportsOf(node, outcome)) == Times(t0, ReportsOf(node, outcome)) + Answers(batch, results, node, outcome)
  }

  function Occurs(xs: seq<string>, x: string): nat {
    if xs == [] then 0 else (if xs[0] == x then 1 else 0) + Occurs(xs[1..], x)
  }

  lemma TimesAppends(t: seq<Event>, e: Event, p: Event -> bool)
    ensures Times(t + [e], p) == Times(t, p) + if p(e) then 1 else 0
  {
    assert (t + [e])[..|t|] == t;
  }

  lemma {:induction false} TimesSplits(t0: seq<Event>, t1: seq<Event>, p: Event -> bool)
    requires t0 <= t1
    ensures Times(t1, p) == Times(t0, p) + Times(Since(t0, t1), p)
    decreases |t1|
  {
    if t1 == t0 {
      assert Since(t0, t1) == [];
    } else {
      var n := |t1| - 1;
      TimesSplits(t0, t1[..n], p);
      assert Since(t0, t1)[..n - |t0|] == Since(t0, t1[..n]);
    }
  }

  lemma {:induction false} OccursWithout(xs: seq<string>, k: nat, x: string)
    requires k < |xs|
    ensures Occurs(xs, x) == Occurs(xs[..k] + xs[k + 1..], x) + if xs[k] == x then 1 else 0
  {
    if k == 0 {
      assert xs[..0] + xs[1..] == xs[1..];
    } else {
      OccursWithout(xs[1..], k - 1, x);
      assert (xs[..k] + xs[k + 1..])[1..] == xs[1..][..k - 1] + xs[1..][k..];
    }
  }

  /** A lease was asked for, and exactly if it was granted one worker was launched on `task`. */
  ghost predicate Leased(t0: seq<Event>, t1: seq<Event>, task: Task) {
    t1 == t0 + [LeaseAsked(None, false)] || exists outcome :: t1 == t0 + [LeaseAsked(None, true)] + [Launched(task, None, outcome)]
  }

  /** A lease was asked for `node` as often as it is in `batch`, and it was launched as often as the lease was granted. */
  ghost predicate LaunchedFor(events: seq<Event>, batch: seq<string>, node: string) {
    Times(events, AsksFor(node)) == Occurs(batch, node) && Times(events, LaunchesFor(node)) == Times(events, GrantsFor(node))
  }

  ghost predicate LaunchedExactly(t0: seq<Event>, t1: seq<Event>, batch: seq<string>) {
    t0 <= t1 && forall node :: LaunchedFor(Since(t0, t1), batch, node)
  }

  // ---- what no step undoes ----

  /** A failure keeps what it is about, and a no-progress failure is never resolved. */
  ghost predicate FailureKept(f: Failure, g: Failure) {
    && f.kind == g.kind && f.segment == g.segment && f.node == g.node
    && (f.kind == NoProgress && f.node.None? ==> g.resolved == f.resolved)
  }

  ghost predicate Later(a: State, b: State) {
    && a.revision <= b.revision
    && |a.failures| <= |b.failures|
    && (forall i | 0 <= i < |a.failures| :: FailureKept(a.failures[i], b.failures[i]))
    && forall key :: Count(a, key) <= Count(b, key)
  }

  ghost predicate HasNoProgress(s: State) {
    exists f | f in s.failures :: f.kind == NoProgress && f.node.None? && !f.resolved
  }

  lemma NoProgressStays(a: State, b: State)
    requires Later(a, b) && HasNoProgress(a)
    ensures HasNoProgress(b)
  {
    var f :| f in a.failures && f.kind == NoProgress && f.node.None? && !f.resolved;
    var i :| 0 <= i < |a.failures| && a.failures[i] == f;
    assert FailureKept(a.failures[i], b.failures[i]) && b.failures[i] in b.failures;
  }

  /** A no-progress failure holds every gate of every segment. */
  lemma NoProgressBlocksGates(s: State, segment: Option<string>)
    requires HasNoProgress(s)
    ensures GateBlocked(s, segment)
  {
    var f :| f in s.failures && f.kind == NoProgress && f.node.None? && !f.resolved;
    assert BlocksGate(f, segment);
  }

  lemma LaterTransitive(a: State, b: State, c: State)
    requires Later(a, b) && Later(b, c)
    ensures Later(a, c)
  {
    forall i | 0 <= i < |a.failures| ensures FailureKept(a.failures[i], c.failures[i]) {
      assert FailureKept(a.failures[i], b.failures[i]) && FailureKept(b.failures[i], c.failures[i]);
    }
    forall key ensures Count(a, key) <= Count(c, key) {
      assert Count(a, key) <= Count(b, key) <= Count(c, key);
    }
  }

  /** From `s0` to `s`, a counter goes to the bound and by `slack` past it, or past where it was if that was more. */
  ghost predicate Capped(s0: State, s: State, bound: nat, slack: nat) {
    forall key :: Count(s, key) <= Max(bound, Count(s0, key)) + slack
  }

  /** A state that may be on disk in the middle of what starts in `s0`. */
  ghost predicate OnTheWay(s0: State, s: State, bound: nat) { Later(s0, s) && Capped(s0, s, bound, 1) }

  /** All states saved after `l0` are. */
  ghost predicate LogOk(s0: State, l0: seq<State>, l1: seq<State>, bound: nat) {
    l0 <= l1 && forall i | |l0| <= i < |l1| :: OnTheWay(s0, l1[i], bound)
  }

  lemma LogAppends(s0: State, l0: seq<State>, l1: seq<State>, s: State, bound: nat)
    requires LogOk(s0, l0, l1, bound) && OnTheWay(s0, s, bound)
    ensures LogOk(s0, l0, l1 + [s], bound)
  {
  }

  lemma CappedJoins(s0: State, s1: State, s2: State, bound: nat, slack: nat)
    requires Capped(s0, s1, bound, 0) && Capped(s1, s2, bound, slack)
    ensures Capped(s0, s2, bound, slack)
  {
    forall key ensures Count(s2, key) <= Max(bound, Count(s0, key)) + slack {
      assert Count(s1, key) <= Max(bound, Count(s0, key)) && Count(s2, key) <= Max(bound, Count(s1, key)) + slack;
    }
  }

  lemma LogJoins(s0: State, l0: seq<State>, s1: State, l1: seq<State>, l2: seq<State>, bound: nat)
    requires LogOk(s0, l0, l1, bound) && LogOk(s1, l1, l2, bound) && Later(s0, s1) && Capped(s0, s1, bound, 0)
    ensures LogOk(s0, l0, l2, bound)
  {
    forall i | |l0| <= i < |l2| ensures OnTheWay(s0, l2[i], bound) {
      if i < |l1| {
        assert l2[i] == l1[i];
      } else {
        assert OnTheWay(s1, l2[i], bound);
        LaterTransitive(s0, s1, l2[i]);
        CappedJoins(s0, s1, l2[i], bound, 1);
      }
    }
  }

  lemma SameCounts(s0: State, s1: State, s2: State, bound: nat, slack: nat)
    requires Capped(s0, s1, bound, slack) && s2.repairAttempts == s1.repairAttempts
    ensures Capped(s0, s2, bound, slack)
  {
    forall key ensures Count(s2, key) <= Max(bound, Count(s0, key)) + slack { assert Count(s2, key) == Count(s1, key); }
  }

  lemma OneUp(s0: State, s1: State, key: string, bound: nat)
    requires Count(s1, key) == Count(s0, key) + 1 && forall k | k != key :: Count(s1, k) == Count(s0, k)
    ensures Capped(s0, s1, bound, 1) && (Count(s1, key) <= bound ==> Capped(s0, s1, bound, 0))
  {
  }

  // ---- options and environment ----

  datatype Options = Options(bound: nat, maxRotations: nat, concurrency: nat, noProgressLimit: nat,
                             dryRun: bool, maxIterations: nat)

  datatype WorkerAnswer = WorkerAnswer(outcome: Outcome, hasReport: bool, trigger: Option<int>)

  /** Every answer the outside may give, by the number of the question. */
  datatype Environment = Environment(stop: nat -> bool, action: nat -> Action, code: nat -> int,
                                     worker: nat -> WorkerAnswer, lease: nat -> bool,
                                     check: nat -> bool, turn: nat -> nat)

  datatype Status = COMPLETE | ESCALATED | STOPPED | ITERATION_LIMIT | DRY_RUN

  /** What becomes of a node: failed work is under repair, a blocked node is stopped, all else is ready again; rotating too often is failing. */
  function SettledAs(outcome: Outcome, launches: nat, maxRotations: nat): NodeRecord {
    match outcome
    case DoneOutcome => NodeRecord(Ready, launches)
    case Rotate => if launches < maxRotations then NodeRecord(Ready, launches) else NodeRecord(Repairing, 0)
    case BlockedOutcome => NodeRecord(Stopped, launches)
    case RepairRequired => NodeRecord(Repairing, launches)
    case Failed => NodeRecord(Repairing, launches)
  }

  /** The packets of a dispatch that are worked on: the first alone, or as many as may run at once. */
  function Taken(a: Action, concurrency: nat): seq<string>
    requires a.Dispatch?
  {
    match a.mode
    case Sequential => if a.packets == [] then [] else [a.packets[0]]
    case Parallel => if |a.packets| <= concurrency then a.packets else a.packets[..concurrency]
  }

  function SegmentOf(a: Action): Option<string> {
    match a
    case Integrate(s, _, _) => Some(s)
    case WaveGate(s, _, _) => Some(s)
    case Dispatch(s, _, _, _) => Some(s)
    case Blocked(s, _) => Some(s)
    case PhaseGate(s, _) => Some(s)
    case _ => None
  }

  function PacketsOf(a: Action): seq<string> {
    if a.Integrate? || a.WaveGate? || a.Dispatch? then a.packets else []
  }

  function NameOf(a: Action): string {
    match a
    case Error => "ERROR"
    case Repair => "REPAIR"
    case Integrate(_, _, _) => "INTEGRATE"
    case WaveGate(_, _, _) => "WAVE_GATE"
    case Dispatch(_, _, _, _) => "DISPATCH"
    case Blocked(_, _) => "BLOCKED"
    case PhaseGate(_, _) => "PHASE_GATE"
    case AdvancePhase(_, _) => "ADVANCE_PHASE"
    case Complete => "COMPLETE"
    case CompleteForTotality => "COMPLETE"
  }

  function Signature(a: Action): (r: string)
    ensures r != ""
  {
    NameOf(a) + "|" + (if SegmentOf(a).Some? then SegmentOf(a).value else "") + "|" + Join(PacketsOf(a), ",")
  }

  /** All that a gate measures is good, in the answers from question `t` on. */
  predicate AllGreen(env: Environment, t: nat, kind: GateKind) {
    && env.code(t) == 0 && env.code(t + 1) == 0 && env.worker(t + 2).outcome == DoneOutcome
    && (kind == Phase ==> env.check(t + 3) && env.check(t + 4))
  }

  lemma NamesHaveNoBar(a: Action)
    ensures '|' !in NameOf(a)
  {
  }

  function Initial(a: Action): char {
    match a
    case Error => 'E'
    case Repair => 'R'
    case Integrate(_, _, _) => 'I'
    case WaveGate(_, _, _) => 'W'
    case Dispatch(_, _, _, _) => 'D'
    case Blocked(_, _) => 'B'
    case PhaseGate(_, _) => 'P'
    case AdvancePhase(_, _) => 'A'
    case Complete => 'C'
    case CompleteForTotality => 'C'
  }

  /** The nine kinds of action have nine names. */
  lemma NamesTellKinds(a: Action, b: Action)
    ensures NameOf(a) == NameOf(b) <==> Initial(a) == Initial(b)
  {
    assert NameOf(a)[0] == Initial(a) && NameOf(b)[0] == Initial(b);
  }

  function SegmentText(a: Action): string { if SegmentOf(a).Some? then SegmentOf(a).value else "" }

  lemma SignatureSplits(a: Action, b: Action)
    requires Signature(a) == Signature(b) && '|' !in SegmentText(a) && '|' !in SegmentText(b)
    ensures NameOf(a) == NameOf(b) && SegmentText(a) == SegmentText(b) && Join(PacketsOf(a), ",") == Join(PacketsOf(b), ",")
  {
    NamesHaveNoBar(a);
    NamesHaveNoBar(b);
    ThreeFields(NameOf(a), SegmentText(a), Join(PacketsOf(a), ","), NameOf(b), SegmentText(b), Join(PacketsOf(b), ","));
  }

  lemma ThreeFields(n: string, s: string, x: string, m: string, t: string, y: string)
    requires '|' !in n && '|' !in m && '|' !in s && '|' !in t && n + "|" + s + "|" + x == m + "|" + t + "|" + y
    ensures n == m && s == t && x == y
  {
    assert n + "|" + s + "|" + x == n + ['|'] + (s + ['|'] + x) && m + "|" + t + "|" + y == m + ['|'] + (t + ['|'] + y);
    SplitAtFirst(n, s + ['|'] + x, m, t + ['|'] + y, '|');
    SplitAtFirst(s, x, t, y, '|');
  }

  /** Actions of one signature are of one kind, about one segment and over the same packets. */
  lemma SignatureTells(a: Action, b: Action)
    requires Signature(a) == Signature(b) && Separable(PacketsOf(a), ',') && Separable(PacketsOf(b), ',')
    requires SegmentOf(a) != Some("") && '|' !in SegmentText(a) && SegmentOf(b) != Some("") && '|' !in SegmentText(b)
    ensures Initial(a) == Initial(b) && SegmentOf(a) == SegmentOf(b) && PacketsOf(a) == PacketsOf(b)
  {
    SignatureSplits(a, b);
    NamesTellKinds(a, b);
    SamePackets(PacketsOf(a), PacketsOf(b));
  }

  lemma SamePackets(a: seq<string>, b: seq<string>)
    requires Separable(a, ',') && Separable(b, ',') && Join(a, ",") == Join(b, ",")
    ensures a == b
  {
    assert "," == [','];
    JoinIsInjective(a, b, ',');
  }

  /** What is done from `t0` to `t1`: every record is justified, and there is none if `held`. */
  ghost predicate TraceOk(held: bool, t0: seq<Event>, t1: seq<Event>) {
    t0 <= t1 && (AllJustified(t0) ==> AllJustified(t1)) && (held ==> NoRecordSince(t0, t1))
  }

  lemma TraceOkJoins(held: bool, t0: seq<Event>, t1: seq<Event>, t2: seq<Event>)
    requires TraceOk(held, t0, t1) && TraceOk(held, t1, t2)
    ensures TraceOk(held, t0, t2)
  {
  }

  /** The positions `waiting` of the batch have these names. */
  ghost predicate NamesOf(waiting: seq<nat>, names: seq<string>, batch: seq<string>) {
    |names| == |waiting| && forall j | 0 <= j < |waiting| :: waiting[j] < |batch| && names[j] == batch[waiting[j]]
  }

  lemma NamedWithout(waiting: seq<nat>, names: seq<string>, batch: seq<string>, k: nat)
    requires NamesOf(waiting, names, batch) && k < |waiting|
    ensures waiting[k] < |batch| && batch[waiting[k]] in batch && names[k] == batch[waiting[k]]
    ensures NamesOf(waiting[..k] + waiting[k + 1..], names[..k] + names[k + 1..], batch)
  {
  }

  /** Who waits has no result yet, and waits once. */
  ghost predicate Unanswered(waiting: seq<nat>, results: seq<Option<WorkerAnswer>>) {
    Distinct(waiting) && forall j | 0 <= j < |waiting| :: waiting[j] < |results| && results[waiting[j]].None?
  }

  lemma UnansweredWithout(waiting: seq<nat>, results: seq<Option<WorkerAnswer>>, k: nat, answer: Option<WorkerAnswer>)
    requires Unanswered(waiting, results) && k < |waiting|
    ensures waiting[k] < |results| && results[waiting[k]].None?
    ensures Unanswered(waiting[..k] + waiting[k + 1..], if answer.Some? then results[waiting[k] := answer] else results)
  {
    var left := waiting[..k] + waiting[k + 1..];
    assert forall j | 0 <= j < |left| :: left[j] == waiting[if j < k then j else j + 1];
  }

  /** From `t0` to `t1` the batch has been asked leases for but for `left`, and `due` launches are still to follow. */
  ghost predicate LaunchingFor(t0: seq<Event>, t1: seq<Event>, left: seq<string>, batch: seq<string>, node: string, due: nat) {
    && Times(t1, AsksFor(node)) + Occurs(left, node) == Times(t0, AsksFor(node)) + Occurs(batch, node)
    && Times(t1, LaunchesFor(node)) + due + Times(t0, GrantsFor(node)) == Times(t1, GrantsFor(node)) + Times(t0, LaunchesFor(node))
  }

  ghost predicate LaunchingExactly(t0: seq<Event>, t1: seq<Event>, left: seq<string>, batch: seq<string>) {
    forall node :: LaunchingFor(t0, t1, left, batch, node, 0)
  }

  lemma AskedNext(t0: seq<Event>, t: seq<Event>, names: seq<string>, k: nat, batch: seq<string>, got: bool, node: string)
    requires k < |names| && LaunchingFor(t0, t, names, batch, node, 0)
    ensures LaunchingFor(t0, t + [LeaseAsked(Some(names[k]), got)], names[..k] + names[k + 1..], batch, node,
                         if got && node == names[k] then 1 else 0)
  {
    OccursWithout(names, k, node);
    TimesAppends(t, LeaseAsked(Some(names[k]), got), AsksFor(node));
    TimesAppends(t, LeaseAsked(Some(names[k]), got), GrantsFor(node));
    TimesAppends(t, LeaseAsked(Some(names[k]), got), LaunchesFor(node));
  }

  lemma LaunchedNext(t0: seq<Event>, t: seq<Event>, left: seq<string>, batch: seq<string>, e: Event, node: string)
    requires e.Launched? && e.node.Some? && LaunchingFor(t0, t, left, batch, node, if e.node == Some(node) then 1 else 0)
    ensures LaunchingFor(t0, t + [e], left, batch, node, 0)
  {
    TimesAppends(t, e, AsksFor(node));
    TimesAppends(t, e, GrantsFor(node));
    TimesAppends(t, e, LaunchesFor(node));
  }

  lemma AllLaunched(t0: seq<Event>, t1: seq<Event>, batch: seq<string>)
    requires t0 <= t1 && LaunchingExactly(t0, t1, [], batch)
    ensures LaunchedExactly(t0, t1, batch)
  {
    forall node ensures LaunchedFor(Since(t0, t1), batch, node) {
      assert LaunchingFor(t0, t1, [], batch, node, 0);
      TimesSplits(t0, t1, AsksFor(node));
      TimesSplits(t0, t1, GrantsFor(node));
      TimesSplits(t0, t1, LaunchesFor(node));
    }
  }

  /** What records nothing changes nothing about what was recorded. */
  lemma QuietKeeps(held: bool, t0: seq<Event>, t1: seq<Event>, t2: seq<Event>)
    requires TraceOk(held, t0, t1) && NoRecordSince(t1, t2)
    ensures TraceOk(held, t0, t2)
  {
    if AllJustified(t1) {
      forall k | 0 <= k < |t2| ensures Justified(t2, k) {
        if k < |t1| { assert Justified(t1, k); }
      }
    }
  }

  lemma LeasedIsQuiet(held: bool, t0: seq<Event>, t1: seq<Event>, t2: seq<Event>, task: Task)
    requires TraceOk(held, t0, t1) && Leased(t1, t2, task)
    ensures TraceOk(held, t0, t2)
  {
    QuietKeeps(held, t0, t1, t2);
  }

  /** Only the revision and nodes of `batch` have changed. */
  ghost predicate OnlyNodes(s0: State, s: State, batch: seq<string>) {
    && s == s0.(revision := s.revision, nodes := s.nodes) && s0.revision <= s.revision
    && (forall n | n !in batch :: n in s.nodes <==> n in s0.nodes)
    && forall n | n !in batch && n in s.nodes :: s.nodes[n] == s0.nodes[n]
  }

  /** Only they have, in every state saved on the way. */
  ghost predicate NodesTouched(s0: State, l0: seq<State>, s: State, l: seq<State>, batch: seq<string>, bound: nat) {
    OnlyNodes(s0, s, batch) && LogOk(s0, l0, l, bound)
  }

  /** One save, of one node's record. */
  ghost predicate NodeSaved(s: State, s': State, l: seq<State>, l': seq<State>, node: string) {
    node in s'.nodes && s' == s.(revision := s.revision + 1, nodes := s.nodes[node := s'.nodes[node]]) && l' == l + [s']
  }

  /** One node asked for its lease, and if it got one a worker was launched for it. */
  ghost predicate StartEvents(t: seq<Event>, t': seq<Event>, node: string, answer: Option<WorkerAnswer>) {
    match answer
    case None => t' == t + [LeaseAsked(Some(node), false)]
    case Some(a) =>
      |t'| == |t| + 2 && t'[|t| + 1].Launched? && t'[|t| + 1].node == Some(node) && t'[|t| + 1].outcome == a.outcome
      && t' == t + [LeaseAsked(Some(node), true)] + [t'[|t| + 1]]
  }

  lemma Started(s0: State, s: State, s': State, l0: seq<State>, l: seq<State>, l': seq<State>, batch: seq<string>, node: string, bound: nat)
    requires NodesTouched(s0, l0, s, l, batch, bound) && node in batch
    requires (s' == s && l' == l) || NodeSaved(s, s', l, l', node)
    ensures NodesTouched(s0, l0, s', l', batch, bound)
  {
    if l' != l { SavedOnTheWay(s0, l0, l, s', bound); }
  }

  lemma StartedTrace(t0: seq<Event>, t: seq<Event>, t': seq<Event>, names: seq<string>, k: nat, batch: seq<string>, answer: Option<WorkerAnswer>)
    requires k < |names| && LaunchingExactly(t0, t, names, batch) && StartEvents(t, t', names[k], answer)
    ensures LaunchingExactly(t0, t', names[..k] + names[k + 1..], batch)
  {
    var left := names[..k] + names[k + 1..];
    forall node ensures LaunchingFor(t0, t', left, batch, node, 0) {
      assert LaunchingFor(t0, t, names, batch, node, 0);
      AskedNext(t0, t, names, k, batch, answer.Some?, node);
      if answer.Some? { LaunchedNext(t0, t + [LeaseAsked(Some(names[k]), true)], left, batch, t'[|t| + 1], node); }
    }
  }

  lemma StartIsQuiet(t0: seq<Event>, t: seq<Event>, t': seq<Event>, node: string, answer: Option<WorkerAnswer>)
    requires NoRecordSince(t0, t) && StartEvents(t, t', node, answer)
    ensures NoRecordSince(t0, t')
  {
  }

  lemma StartedReport(t0: seq<Event>, t: seq<Event>, t': seq<Event>, batch: seq<string>, results: seq<Option<WorkerAnswer>>, i: nat, answer: Option<WorkerAnswer>)
    requires Reported(t0, t, batch, results) && i < |batch| && results[i].None? && StartEvents(t, t', batch[i], answer)
    ensures Reported(t0, t', batch, if answer.Some? then results[i := answer] else results)
  {
    var results' := if answer.Some? then results[i := answer] else results;
    forall node, outcome ensures ReportedFor(t0, t', batch, results', node, outcome) {
      assert ReportedFor(t0, t, batch, results, node, outcome);
      TimesAppends(t, LeaseAsked(Some(batch[i]), answer.Some?), ReportsOf(node, outcome));
      if answer.Some? {
        TimesAppends(t + [LeaseAsked(Some(batch[i]), true)], t'[|t| + 1], ReportsOf(node, outcome));
        AnswerAdded(batch, results, i, answer.value, node, outcome);
      }
    }
  }

  /** How far the launches of a batch have got. */
  ghost predicate Starting(t0: seq<Event>, t: seq<Event>, waiting: seq<nat>, names: seq<string>, batch: seq<string>, results: seq<Option<WorkerAnswer>>) {
    && NamesOf(waiting, names, batch) && Unanswered(waiting, results) && LaunchingExactly(t0, t, names, batch)
    && Reported(t0, t, batch, results) && NoRecordSince(t0, t)
  }

  lemma NothingStarted(t: seq<Event>, batch: seq<string>, results: seq<Option<WorkerAnswer>>)
    requires |results| == |batch| && forall i | 0 <= i < |results| :: results[i].None?
    ensures Starting(t, t, seq(|batch|, i => i), batch, batch, results)
  {
    forall node, outcome ensures ReportedFor(t, t, batch, results, node, outcome) { NoAnswers(batch, results, node, outcome); }
  }

  lemma StartsOf(t0: seq<Event>, t: seq<Event>, waiting: seq<nat>, names: seq<string>, batch: seq<string>, results: seq<Option<WorkerAnswer>>, k: nat)
    requires Starting(t0, t, waiting, names, batch, results) && k < |waiting|
    ensures waiting[k] < |batch| && batch[waiting[k]] in batch && |names| == |waiting| && names[k] == batch[waiting[k]]
  {
  }

  lemma StartTurn(t0: seq<Event>, t: seq<Event>, t': seq<Event>, waiting: seq<nat>, names: seq<string>, batch: seq<string>,
                  results: seq<Option<WorkerAnswer>>, k: nat, answer: Option<WorkerAnswer>)
    requires Starting(t0, t, waiting, names, batch, results) && k < |waiting| == |names| && |results| == |batch| && waiting[k] < |batch|
    requires names[k] == batch[waiting[k]] && StartEvents(t, t', names[k], answer)
    ensures Starting(t0, t', waiting[..k] + waiting[k + 1..], names[..k] + names[k + 1..], batch,
                     if answer.Some? then results[waiting[k] := answer] else results)
  {
    NamedWithout(waiting, names, batch, k);
    UnansweredWithout(waiting, results, k, answer);
    StartedTrace(t0, t, t', names, k, batch, answer);
    StartIsQuiet(t0, t, t', names[k], answer);
    StartedReport(t0, t, t', batch, results, waiting[k], answer);
  }

  lemma AllStarted(t0: seq<Event>, t: seq<Event>, waiting: seq<nat>, names: seq<string>, batch: seq<string>, results: seq<Option<WorkerAnswer>>)
    requires Starting(t0, t, waiting, names, batch, results) && waiting == []
    ensures LaunchedExactly(t0, t, batch) && Reported(t0, t, batch, results) && NoRecordSince(t0, t)
  {
    assert names == [];
    AllLaunched(t0, t, batch);
  }

  lemma QuietEvent(held: bool, t0: seq<Event>, t1: seq<Event>, e: Event)
    requires TraceOk(held, t0, t1) && !IsRecord(e)
    ensures TraceOk(held, t0, t1 + [e])
  {
    if AllJustified(t1) { JustifiedExtends(t1, e); }
  }

  /** How a handler may end: escalated means frozen, anything else leaves the escalation alone; counters keep the bound. */
  ghost predicate EndsOk(s0: State, s1: State, terminal: Option<Status>, bound: nat) {
    && Later(s0, s1) && s1.stopRequested == s0.stopRequested
    && (terminal == Some(ESCALATED) ==> Frozen(s1))
    && (terminal != Some(ESCALATED) ==> s1.escalation == s0.escalation)
    && Capped(s0, s1, bound, if terminal == Some(ESCALATED) then 1 else 0)
  }

  /** What ended well after something that left the escalation alone has ended well as a whole. */
  lemma EndsJoin(s0: State, l0: seq<State>, s1: State, l1: seq<State>, s2: State, l2: seq<State>, terminal: Option<Status>, bound: nat)
    requires EndsOk(s0, s1, None, bound) && LogOk(s0, l0, l1, bound)
    requires EndsOk(s1, s2, terminal, bound) && LogOk(s1, l1, l2, bound)
    ensures EndsOk(s0, s2, terminal, bound) && LogOk(s0, l0, l2, bound)
  {
    LaterTransitive(s0, s1, s2);
    CappedJoins(s0, s1, s2, bound, if terminal == Some(ESCALATED) then 1 else 0);
    LogJoins(s0, l0, s1, l1, l2, bound);
  }

  lemma RunJoins(s0: State, l0: seq<State>, s1: State, l1: seq<State>, s2: State, l2: seq<State>, bound: nat, slack: nat)
    requires Later(s0, s1) && Capped(s0, s1, bound, 0) && LogOk(s0, l0, l1, bound)
    requires Later(s1, s2) && Capped(s1, s2, bound, slack) && LogOk(s1, l1, l2, bound)
    ensures Later(s0, s2) && Capped(s0, s2, bound, slack) && LogOk(s0, l0, l2, bound)
  {
    LaterTransitive(s0, s1, s2);
    CappedJoins(s0, s1, s2, bound, slack);
    LogJoins(s0, l0, s1, l1, l2, bound);
  }

  ghost predicate FrozenSince(l0: seq<State>, l1: seq<State>) {
    l0 <= l1 && forall i | |l0| <= i < |l1| :: Frozen(l1[i])
  }

  /** No counter rises by more than one. */
  ghost predicate OneMore(s0: State, s1: State) {
    forall key :: Count(s1, key) <= Count(s0, key) + 1
  }

  // ---- facts about single saves ----

  lemma SavedAfter(s0: State, l0: seq<State>, l1: seq<State>, s1: State, s2: State, bound: nat)
    requires LogOk(s0, l0, l1, bound) && OnTheWay(s0, s1, bound) && Later(s1, s2) && s2.repairAttempts == s1.repairAttempts
    ensures OnTheWay(s0, s2, bound) && LogOk(s0, l0, l1 + [s2], bound)
  {
    LaterTransitive(s0, s1, s2);
    SameCounts(s0, s1, s2, bound, 1);
    LogAppends(s0, l0, l1, s2, bound);
  }

  lemma SavedOnTheWay(s0: State, l0: seq<State>, l1: seq<State>, s1: State, bound: nat)
    requires LogOk(s0, l0, l1, bound) && s0.revision <= s1.revision && s1.failures == s0.failures && s1.repairAttempts == s0.repairAttempts
    ensures OnTheWay(s0, s1, bound) && LogOk(s0, l0, l1 + [s1], bound)
  {
    SameCountsLater(s0, s1);
    LogAppends(s0, l0, l1, s1, bound);
  }

  lemma BumpIsLater(s: State, key: string)
    ensures var s' := s.(revision := s.revision + 1, repairAttempts := s.repairAttempts[key := Count(s, key) + 1]);
            Later(s, s') && Count(s', key) == Count(s, key) + 1 && forall k | k != key :: Count(s', k) == Count(s, k)
  {
  }

  lemma SameCountsLater(s: State, s': State)
    requires s.revision <= s'.revision && s'.failures == s.failures && s'.repairAttempts == s.repairAttempts
    ensures Later(s, s')
  {
  }

  lemma RecordIsLater(s: State, s': State, f: Failure)
    requires s.revision <= s'.revision && s'.failures == s.failures + [f] && s'.repairAttempts == s.repairAttempts
    ensures Later(s, s') && f in s'.failures
  {
    assert s'.failures[|s.failures|] == f;
  }

  lemma JustifiedExtends(trace: seq<Event>, e: Event)
    requires AllJustified(trace) && !IsRecord(e)
    ensures AllJustified(trace + [e])
  {
    var t := trace + [e];
    forall k | 0 <= k < |t| ensures Justified(t, k) {
      if k < |trace| { assert Justified(trace, k); }
    }
  }

  function Resolving(fs: seq<Failure>, p: Failure -> bool): (r: seq<Failure>)
    ensures |r| == |fs|
  {
    seq(|fs|, i requires 0 <= i < |fs| => if !fs[i].resolved && p(fs[i]) then fs[i].(resolved := true) else fs[i])
  }

  /** The running supervisor: its state, the state on disk, all states that have been there, and what it has done so far. */
  class Supervisor {
    const options: Options
    const env: Environment
    var state: State
    var disk: State
    var log: seq<State>
    var tick: nat
    var trace: seq<Event>

    /** What is in memory is what is on disk. */
    ghost predicate Valid()
      reads this
    {
      disk == state
    }

    constructor (options: Options, env: Environment, disk: State)
      ensures Valid() && state == disk && log == [disk] && trace == [] && this.options == options && this.env == env
    {
      this.options, this.env := options, env;
      state, this.disk, log, tick, trace := disk, disk, [disk], 0, [];
    }

    // ---- saves ----

    /** Every save applies to the latest revision: the write is never refused. */
    method Save(next: State)
      requires Valid() && next.revision == state.revision
      modifies this`state, this`disk, this`log
      ensures Valid() && state == next.(revision := next.revision + 1) && log == old(log) + [state]
    {
      var written := WriteState(disk, next);
      match written
      case Some(s) => disk, state, log := s, s, log + [s];
      case None => assert false;
    }

    method RecordFailure(f: Failure)
      requires Valid() && !f.resolved
      modifies this`state, this`disk, this`log
      ensures Valid() && Later(old(state), state) && f in state.failures && log == old(log) + [state]
      ensures state == old(state).(revision := old(state).revision + 1, failures := old(state).failures + [f])
    {
      Save(state.(failures := state.failures + [f]));
      RecordIsLater(old(state), state, f);
    }

    method ResolveFailures(p: Failure -> bool)
      requires Valid()
      modifies this`state, this`disk, this`log
      ensures Valid() && log == old(log) + [state]
      ensures (forall f: Failure | f.kind == NoProgress && f.node.None? :: !p(f)) ==> Later(old(state), state)
      ensures state == old(state).(revision := old(state).revision + 1, failures := Resolving(old(state).failures, p))
    {
      Save(state.(failures := Resolving(state.failures, p)));
    }

    method Escalate(trigger: int)
      requires Valid()
      modifies this`state, this`disk, this`log
      ensures Valid() && Later(old(state), state) && Frozen(state) && log == old(log) + [state]
      ensures state == old(state).(revision := old(state).revision + 1, escalation := Some(Escalation(trigger, false)))
    {
      Save(state.(escalation := Some(Escalation(trigger, false))));
      SameCountsLater(old(state), state);
    }

    method SetNode(node: string, status: NodeStatus, launches: nat)
      requires Valid()
      modifies this`state, this`disk, this`log
      ensures Valid() && Later(old(state), state) && log == old(log) + [state]
      ensures state == old(state).(revision := old(state).revision + 1,
                                   nodes := old(state).nodes[node := NodeRecord(status, launches)])
    {
      Save(state.(nodes := state.nodes[node := NodeRecord(status, launches)]));
      SameCountsLater(old(state), state);
    }

    method BumpRepair(key: string) returns (next: nat)
      requires Valid()
      modifies this`state, this`disk, this`log
      ensures log == old(log) + [state]
      ensures Valid() && Later(old(state), state) && next == Count(state, key) == Count(old(state), key) + 1
      ensures forall k | k != key :: Count(state, k) == Count(old(state), k)
      ensures state == old(state).(revision := old(state).revision + 1,
                                   repairAttempts := old(state).repairAttempts[key := next])
    {
      next := Count(state, key) + 1;
      BumpIsLater(state, key);
      Save(state.(repairAttempts := state.repairAttempts[key := next]));
    }

    function Launches(node: string): nat
      reads this
    {
      if node in state.nodes then state.nodes[node].launches else 0
    }

    // ---- questions to the outside ----

    method Run(command: Command) returns (code: int)
      modifies this`tick, this`trace
      ensures trace == old(trace) + [Ran(command, code, state)] && code == env.code(old(tick)) && tick == old(tick) + 1
    {
      code := env.code(tick);
      tick := tick + 1;
      trace := trace + [Ran(command, code, state)];
    }

    method Launch(task: Task, node: Option<string>) returns (answer: WorkerAnswer)
      modifies this`tick, this`trace
      ensures trace == old(trace) + [Launched(task, node, answer.outcome)] && answer == env.worker(old(tick)) && tick == old(tick) + 1
    {
      answer := env.worker(tick);
      tick := tick + 1;
      trace := trace + [Launched(task, node, answer.outcome)];
    }

    method Check(dod: bool) returns (ok: bool)
      modifies this`tick, this`trace
      ensures trace == old(trace) + [if dod then DodChecked(ok) else EvidenceChecked(ok)] && ok == env.check(old(tick)) && tick == old(tick) + 1
    {
      ok := env.check(tick);
      tick := tick + 1;
      trace := trace + [if dod then DodChecked(ok) else EvidenceChecked(ok)];
    }

    method AcquireLease(node: Option<string>) returns (got: bool)
      modifies this`tick, this`trace
      ensures trace == old(trace) + [LeaseAsked(node, got)] && got == env.lease(old(tick)) && tick == old(tick) + 1
    {
      got := env.lease(tick);
      tick := tick + 1;
      trace := trace + [LeaseAsked(node, got)];
    }

    // ---- gates ----

    /** The gate worker's outcome, and for a phase gate the two checks of what it left behind. */
    method AskGateWorker(kind: GateKind) returns (outcome: Outcome, dod: bool, present: bool)
      modifies this`tick, this`trace
      ensures trace == old(trace) + GateMiddle(kind, outcome, dod, present)
      ensures kind != Phase ==> dod && present
      ensures outcome == env.worker(old(tick)).outcome
      ensures kind == Phase ==> dod == env.check(old(tick) + 1) && present == env.check(old(tick) + 2)
    {
      var worker := Launch(GateTask(kind), None);
      outcome, dod, present := worker.outcome, true, true;
      if kind == Phase {
        dod := Check(true);
        present := Check(false);
      }
    }

    /**
     One gate, end to end. It touches no state. The record command is issued only with
     the justification above, and never while a no-progress failure stands.
     */
    method RunGate(segment: Option<string>, kind: GateKind) returns (recorded: bool)
      modifies this`tick, this`trace
      ensures old(trace) <= trace
      ensures AllJustified(old(trace)) ==> AllJustified(trace)
      ensures HasNoProgress(state) ==> NoRecordSince(old(trace), trace)
      ensures recorded <==> |trace| > |old(trace)| && trace[|trace| - 1] == Ran(Record(kind, segment), 0, state)
      ensures AllGreen(env, old(tick), kind) && !GateBlocked(state, segment) <==>
              |trace| > |old(trace)| && exists code :: trace[|trace| - 1] == Ran(Record(kind, segment), code, state)
    {
      ghost var t0 := trace;
      var code := Run(GateCommand(kind));
      var probe := Run(Probe);
      ghost var t2 := trace;
      var blocked := GateBlocked(state, segment);
      GateStarts(t0, t2, kind, code, probe, state);
      if code != 0 {
        return false;
      }
      var outcome, dod, present := AskGateWorker(kind);
      MiddleKeeps(t2, kind, outcome, dod, present);
      var green := GateVerdict(kind, code, probe, blocked, outcome == DoneOutcome, dod, present);
      if !green {
        return false;
      }
      if HasNoProgress(state) {
        NoProgressBlocksGates(state, segment);
      }
      var rec := Run(Record(kind, segment));
      RecordJustified(t0, state, kind, segment, rec);
      assert trace == t0 + GateRun(state, kind, segment, rec);
      recorded := rec == 0;
    }

    function SegmentFor(a: Action): Option<string>
      reads this
    {
      if SegmentOf(a).Some? then SegmentOf(a) else state.segment
    }

    /** A recorded gate clears its own holds; a held one adds a hold and costs a repair attempt. */
    method HandleGate(a: Action, kind: GateKind) returns (terminal: Option<Status>, recorded: bool)
      requires Valid()
      modifies this`state, this`disk, this`log, this`tick, this`trace
      ensures Valid() && TraceOk(HasNoProgress(old(state)), old(trace), trace)
      ensures EndsOk(old(state), state, terminal, options.bound) && OneMore(old(state), state)
      ensures LogOk(old(state), old(log), log, options.bound)
      ensures terminal.Some? ==> terminal == Some(ESCALATED)
      ensures recorded ==> terminal == None && state.repairAttempts == old(state).repairAttempts
                           && forall f | f in state.failures && f.kind == GateHeld && f.segment == old(SegmentFor(a)) :: f.resolved
      ensures !recorded ==> Failure(GateHeld, old(SegmentFor(a)), None, false) in state.failures
                            && var key := RepairKey(old(SegmentFor(a)), GateBucket(kind, PacketsOf(a)));
                               Count(state, key) == Count(old(state), key) + 1
                               && (Count(state, key) > options.bound ==> terminal == Some(ESCALATED))
                               && (Count(state, key) <= options.bound ==> exists t :: old(trace) <= t && Leased(t, trace, RepairTask))
    {
      ghost var held := HasNoProgress(state);
      var segment := SegmentFor(a);
      recorded := RunGate(segment, kind);
      ghost var t := trace;
      if recorded {
        ClearHolds(segment);
        QuietEvent(held, old(trace), t, trace[|t|]);
        return None, true;
      }
      terminal := HoldGate(segment, RepairKey(segment, GateBucket(kind, PacketsOf(a))));
      if terminal == None {
        ghost var s1, l1 := state, log;
        terminal := LeasedWorker(RepairTask, 5);
        LeasedIsQuiet(held, old(trace), t, trace, RepairTask);
        SameCounts(old(state), s1, state, options.bound, 0);
        if terminal.Some? { LogAppends(old(state), old(log), l1, state, options.bound); }
      }
    }

    method ClearHolds(segment: Option<string>)
      requires Valid()
      modifies this`state, this`disk, this`log, this`tick, this`trace
      ensures exists e :: !IsRecord(e) && trace == old(trace) + [e]
      ensures Valid() && Later(old(state), state) && LogOk(old(state), old(log), log, options.bound)
      ensures state.escalation == old(state).escalation && state.repairAttempts == old(state).repairAttempts
      ensures state.stopRequested == old(state).stopRequested
      ensures state.lastGreen == if env.code(old(tick)) == 0 then old(tick) + 1 else old(state).lastGreen
      ensures forall f | f in state.failures && f.kind == GateHeld && f.segment == segment :: f.resolved
    {
      ResolveFailures((f: Failure) => f.segment == segment && f.kind == GateHeld);
      ghost var s1 := state;
      var head := Run(GitHead);
      Save(state.(lastGreen := if head == 0 then tick else state.lastGreen));
      SameCountsLater(s1, state);
      LaterTransitive(old(state), s1, state);
      LogAppends(old(state), old(log), old(log), s1, options.bound);
      LogAppends(old(state), old(log), old(log) + [s1], state, options.bound);
    }

    /** Between its second and its last save the attempt is counted and nothing is escalated yet. */
    method HoldGate(segment: Option<string>, key: string) returns (terminal: Option<Status>)
      requires Valid()
      modifies this`state, this`disk, this`log
      ensures Valid() && EndsOk(old(state), state, terminal, options.bound) && OneMore(old(state), state)
      ensures LogOk(old(state), old(log), log, options.bound)
      ensures |old(log)| + 1 < |log| && var cut := log[|old(log)| + 1];
              Count(cut, key) == Count(old(state), key) + 1 && cut.escalation == old(state).escalation
      ensures Failure(GateHeld, segment, None, false) in state.failures
      ensures Count(state, key) == Count(old(state), key) + 1
      ensures if Count(state, key) > options.bound then terminal == Some(ESCALATED) else terminal == None
    {
      RecordFailure(Failure(GateHeld, segment, None, false));
      ghost var s1 := state;
      LogAppends(old(state), old(log), old(log), s1, options.bound);
      var spent := BumpRepair(key);
      LaterTransitive(old(state), s1, state);
      OneUp(old(state), state, key, options.bound);
      LogAppends(old(state), old(log), old(log) + [s1], state, options.bound);
      terminal := Exhausted(spent, old(state), old(log));
    }

    /** Take a lease and run one worker under it; a worker that says it is blocked escalates. */
    method LeasedWorker(task: Task, trigger: int) returns (terminal: Option<Status>)
      requires Valid()
      modifies this`state, this`disk, this`log, this`tick, this`trace
      ensures Valid() && Leased(old(trace), trace, task)
      ensures forall s0 | Later(s0, old(state)) :: Later(s0, state)
      ensures state.repairAttempts == old(state).repairAttempts && state.failures == old(state).failures
      ensures state.stopRequested == old(state).stopRequested
      ensures if terminal == None then state == old(state) && log == old(log)
              else terminal == Some(ESCALATED) && Frozen(state) && log == old(log) + [state]
    {
      var got := AcquireLease(None);
      if !got {
        return None;
      }
      var answer := Launch(task, None);
      if answer.outcome == BlockedOutcome && answer.hasReport {
        Escalate(if answer.trigger.Some? then answer.trigger.value else trigger);
        forall s0 | Later(s0, old(state)) ensures Later(s0, state) {
          LaterTransitive(s0, old(state), state);
        }
        return Some(ESCALATED);
      }
      return None;
    }

    // ---- parallel workers ----

    /**
     The workers of a batch, interleaved as the environment pleases: whose turn it is
     starts or finishes. A lease is asked for once a node, and exactly those that get one
     are launched. Only the batch's node records change, and nothing is recorded.
     */
    method RunWorkers(batch: seq<string>) returns (results: seq<Option<WorkerAnswer>>)
      requires Valid()
      modifies this`state, this`disk, this`log, this`tick, this`trace
      ensures Valid() && |results| == |batch|
      ensures LaunchedExactly(old(trace), trace, batch) && Reported(old(trace), trace, batch, results) && NoRecordSince(old(trace), trace)
      ensures NodesTouched(old(state), old(log), state, log, batch, options.bound)
    {
      results := seq(|batch|, _ => None);
      var waiting: seq<nat> := seq(|batch|, i => i);
      var running: seq<nat> := [];
      ghost var names := batch;
      NothingStarted(trace, batch, results);
      while |waiting| + |running| > 0
        invariant Valid() && |results| == |batch| && forall j | 0 <= j < |running| :: running[j] < |batch|
        invariant Starting(old(trace), trace, waiting, names, batch, results)
        invariant NodesTouched(old(state), old(log), state, log, batch, options.bound)
        decreases 2 * |waiting| + |running|
      {
        var k := env.turn(tick) % (|waiting| + |running|);
        tick := tick + 1;
        ghost var s1, l1, t1 := state, log, trace;
        if k < |waiting| {
          StartsOf(old(trace), trace, waiting, names, batch, results, k);
          var i := waiting[k];
          var answer := StartIfLeased(batch[i]);
          StartTurn(old(trace), t1, trace, waiting, names, batch, results, k, answer);
          Started(old(state), s1, state, old(log), l1, log, batch, batch[i], options.bound);
          waiting, names := waiting[..k] + waiting[k + 1..], names[..k] + names[k + 1..];
          if answer.Some? {
            results := results[i := answer];
            running := running + [i];
          }
        } else {
          var i := running[k - |waiting|];
          running := running[..k - |waiting|] + running[k - |waiting| + 1..];
          FinishWorker(batch[i]);
          Started(old(state), s1, state, old(log), l1, log, batch, batch[i], options.bound);
        }
      }
      AllStarted(old(trace), trace, waiting, names, batch, results);
    }

    /** A worker that is back counts as a launch. */
    method FinishWorker(node: string)
      requires Valid()
      modifies this`state, this`disk, this`log
      ensures Valid() && NodeSaved(old(state), state, old(log), log, node)
      ensures state.nodes[node] == NodeRecord(if node in old(state).nodes then old(state).nodes[node].status else Ready, old(Launches(node)) + 1)
    {
      SetNode(node, if node in state.nodes then state.nodes[node].status else Ready, Launches(node) + 1);
    }

    /** One node's turn to start: it asks for its lease, and if it gets one its worker is launched. */
    method StartIfLeased(node: string) returns (answer: Option<WorkerAnswer>)
      requires Valid()
      modifies this`state, this`disk, this`log, this`tick, this`trace
      ensures Valid() && StartEvents(old(trace), trace, node, answer)
      ensures if answer.None? then state == old(state) && log == old(log) else NodeSaved(old(state), state, old(log), log, node)
    {
      var got := AcquireLease(Some(node));
      if !got {
        return None;
      }
      var launched := StartWorker(node);
      return Some(launched);
    }

    /** A node under repair is given a repair worker, any other a worker for the packet. */
    method StartWorker(node: string) returns (answer: WorkerAnswer)
      requires Valid()
      modifies this`state, this`disk, this`log, this`tick, this`trace
      ensures Valid() && log == old(log) + [state]
      ensures var task := if node in old(state).nodes && old(state).nodes[node].status == Repairing then RepairTask else DispatchTask;
              trace == old(trace) + [Launched(task, Some(node), answer.outcome)]
      ensures state == old(state).(revision := old(state).revision + 1,
                                   nodes := old(state).nodes[node := NodeRecord(Running, old(Launches(node)))])
    {
      var task := if node in state.nodes && state.nodes[node].status == Repairing then RepairTask else DispatchTask;
      SetNode(node, Running, Launches(node));
      answer := Launch(task, Some(node));
    }

    /** What a worker's answer does to the state, once all workers of the batch are back. */
    method Settle(segment: Option<string>, node: string, answer: WorkerAnswer) returns (terminal: Option<Status>)
      requires Valid()
      modifies this`state, this`disk, this`log
      ensures Valid() && EndsOk(old(state), state, terminal, options.bound) && LogOk(old(state), old(log), log, options.bound)
      ensures terminal.Some? ==> terminal == Some(ESCALATED)
      ensures forall k | k != RepairKey(segment, node) :: Count(state, k) == Count(old(state), k)
      ensures OneMore(old(state), state)
      ensures answer.outcome == DoneOutcome ==>
                terminal == None && forall f | f in state.failures && f.node == Some(node) :: f.resolved
      ensures answer.outcome == BlockedOutcome ==> terminal == Some(ESCALATED)
      ensures answer.outcome == RepairRequired || answer.outcome == Failed ==>
                && Failure(WorkerFailed, segment, Some(node), false) in state.failures
                && Count(state, RepairKey(segment, node)) == Count(old(state), RepairKey(segment, node)) + 1
                && (terminal.Some? <==> Count(state, RepairKey(segment, node)) > options.bound)
      ensures answer.outcome == Rotate ==>
                && (old(Launches(node)) >= options.maxRotations <==>
                    Count(state, RepairKey(segment, node)) == Count(old(state), RepairKey(segment, node)) + 1)
                && (terminal.Some? <==> old(Launches(node)) >= options.maxRotations && Count(state, RepairKey(segment, node)) > options.bound)
      ensures state.nodes == old(state).nodes[node := SettledAs(answer.outcome, old(Launches(node)), options.maxRotations)]
      ensures answer.outcome == BlockedOutcome ==>
                state.escalation == Some(Escalation(if answer.trigger.Some? then answer.trigger.value else 3, false))
      ensures terminal.Some? && answer.outcome != BlockedOutcome ==> state.escalation == Some(Escalation(5, false))
    {
      match answer.outcome
      case DoneOutcome => terminal := SettleDone(node);
      case Rotate => terminal := SettleRotation(segment, node);
      case BlockedOutcome =>
        SetNode(node, Stopped, Launches(node));
        ghost var s1 := state;
        SavedOnTheWay(old(state), old(log), old(log), s1, options.bound);
        Escalate(if answer.trigger.Some? then answer.trigger.value else 3);
        SavedOnTheWay(old(state), old(log), old(log) + [s1], state, options.bound);
        return Some(ESCALATED);
      case RepairRequired => terminal := SettleFailure(segment, node);
      case Failed => terminal := SettleFailure(segment, node);
    }

    method SettleDone(node: string) returns (terminal: Option<Status>)
      requires Valid()
      modifies this`state, this`disk, this`log
      ensures Valid() && EndsOk(old(state), state, terminal, options.bound) && terminal == None
      ensures LogOk(old(state), old(log), log, options.bound)
      ensures state.repairAttempts == old(state).repairAttempts
      ensures state.nodes == old(state).nodes[node := NodeRecord(Ready, old(Launches(node)))]
      ensures forall f | f in state.failures && f.node == Some(node) :: f.resolved
    {
      SetNode(node, Ready, Launches(node));
      ghost var s1 := state;
      SavedOnTheWay(old(state), old(log), old(log), s1, options.bound);
      ResolveFailures((f: Failure) => f.node == Some(node));
      LaterTransitive(old(state), s1, state);
      LogAppends(old(state), old(log), old(log) + [s1], state, options.bound);
      return None;
    }

    /** Rotations are free until they exhaust their number; then they cost a repair attempt. */
    method SettleRotation(segment: Option<string>, node: string) returns (terminal: Option<Status>)
      requires Valid()
      modifies this`state, this`disk, this`log
      ensures Valid() && EndsOk(old(state), state, terminal, options.bound) && LogOk(old(state), old(log), log, options.bound)
      ensures terminal.Some? ==> terminal == Some(ESCALATED)
      ensures forall k | k != RepairKey(segment, node) :: Count(state, k) == Count(old(state), k)
      ensures OneMore(old(state), state)
      ensures old(Launches(node)) >= options.maxRotations <==>
              Count(state, RepairKey(segment, node)) == Count(old(state), RepairKey(segment, node)) + 1
      ensures terminal.Some? <==> old(Launches(node)) >= options.maxRotations && Count(state, RepairKey(segment, node)) > options.bound
      ensures state.nodes == old(state).nodes[node := SettledAs(Rotate, old(Launches(node)), options.maxRotations)]
      ensures terminal.Some? ==> state.escalation == Some(Escalation(5, false))
    {
      ghost var s0, l0 := state, log;
      var launches := Launches(node);
      SetNode(node, Ready, launches);
      ghost var s1, l1 := state, log;
      SavedOnTheWay(s0, l0, l0, s1, options.bound);
      if launches < options.maxRotations {
        return None;
      }
      var spent := BumpRepair(RepairKey(segment, node));
      LaterTransitive(s0, s1, state);
      OneUp(s0, state, RepairKey(segment, node), options.bound);
      LogAppends(s0, l0, l1, state, options.bound);
      ghost var s2, l2 := state, log;
      SetNode(node, Repairing, 0);
      SavedAfter(s0, l0, l2, s2, state, options.bound);
      terminal := Exhausted(spent, s0, l0);
    }

    method SettleFailure(segment: Option<string>, node: string) returns (terminal: Option<Status>)
      requires Valid()
      modifies this`state, this`disk, this`log
      ensures Valid() && EndsOk(old(state), state, terminal, options.bound) && LogOk(old(state), old(log), log, options.bound)
      ensures terminal.Some? ==> terminal == Some(ESCALATED)
      ensures forall k | k != RepairKey(segment, node) :: Count(state, k) == Count(old(state), k)
      ensures OneMore(old(state), state)
      ensures Failure(WorkerFailed, segment, Some(node), false) in state.failures
      ensures Count(state, RepairKey(segment, node)) == Count(old(state), RepairKey(segment, node)) + 1
      ensures terminal.Some? <==> Count(state, RepairKey(segment, node)) > options.bound
      ensures state.nodes == old(state).nodes[node := NodeRecord(Repairing, old(Launches(node)))]
      ensures terminal.Some? ==> state.escalation == Some(Escalation(5, false))
    {
      ghost var s0, l0 := state, log;
      var spent := BumpRepair(RepairKey(segment, node));
      ghost var s1, l1 := state, log;
      OneUp(s0, s1, RepairKey(segment, node), options.bound);
      LogAppends(s0, l0, l0, s1, options.bound);
      SetNode(node, Repairing, Launches(node));
      ghost var s2, l2 := state, log;
      SavedAfter(s0, l0, l1, s1, s2, options.bound);
      RecordFailure(Failure(WorkerFailed, segment, Some(node), false));
      SavedAfter(s0, l0, l2, s2, state, options.bound);
      terminal := Exhausted(spent, s0, l0);
    }

    /** Past the bound the run ends escalated, whatever else was going on. */
    method Exhausted(spent: nat, ghost s0: State, ghost l0: seq<State>) returns (terminal: Option<Status>)
      requires Valid() && OnTheWay(s0, state, options.bound) && LogOk(s0, l0, log, options.bound)
      modifies this`state, this`disk, this`log
      ensures Valid() && Later(s0, state) && LogOk(s0, l0, log, options.bound) && old(log) <= log
      ensures state.repairAttempts == old(state).repairAttempts && state.failures == old(state).failures && state.nodes == old(state).nodes
      ensures state.stopRequested == old(state).stopRequested
      ensures if spent > options.bound then terminal == Some(ESCALATED) && state.escalation == Some(Escalation(5, false))
              else terminal == None && state == old(state)
    {
      if spent > options.bound {
        Escalate(5);
        SavedAfter(s0, l0, old(log), old(state), state, options.bound);
        return Some(ESCALATED);
      }
      return None;
    }

    method HandleDispatch(a: Action) returns (terminal: Option<Status>)
      requires Valid() && a.Dispatch?
      modifies this`state, this`disk, this`log, this`tick, this`trace
      ensures Valid() && TraceOk(HasNoProgress(old(state)), old(trace), trace)
      ensures EndsOk(old(state), state, terminal, options.bound) && LogOk(old(state), old(log), log, options.bound)
      ensures LaunchedExactly(old(trace), trace, Taken(a, options.concurrency))
      ensures Distinct(a.packets) ==> OneMore(old(state), state)
      ensures OthersSame(old(state), state, old(SegmentFor(a)), Taken(a, options.concurrency))
      ensures terminal.Some? ==> terminal == Some(ESCALATED)
    {
      var segment := SegmentFor(a);
      var n := if a.mode == Parallel then options.concurrency else 1;
      var batch := a.packets[..if n < |a.packets| then n else |a.packets|];
      assert batch == Taken(a, options.concurrency);
      var results := RunWorkers(batch);
      QuietKeeps(HasNoProgress(old(state)), old(trace), old(trace), trace);
      ghost var s1, l1 := state, log;
      SameCountsLater(old(state), s1);
      terminal := SettleAll(segment, batch, results);
      EndsJoin(old(state), old(log), s1, l1, state, log, terminal, options.bound);
    }

    /** The answers of the workers that were launched, in the order of the batch, up to one that ends the run. */
    method SettleAll(segment: Option<string>, batch: seq<string>, results: seq<Option<WorkerAnswer>>) returns (terminal: Option<Status>)
      requires Valid() && |results| == |batch|
      modifies this`state, this`disk, this`log
      ensures Valid() && EndsOk(old(state), state, terminal, options.bound) && LogOk(old(state), old(log), log, options.bound)
      ensures Distinct(batch) ==> OneMore(old(state), state)
      ensures OthersSame(old(state), state, segment, batch)
      ensures terminal.Some? ==> terminal == Some(ESCALATED)
      ensures terminal.None? ==> Charged(old(state), state, segment, batch, results, |batch|)
                                 && forall i | 0 <= i < |results| && results[i].Some? :: results[i].value.outcome != BlockedOutcome
    {
      ghost var s0, l0 := state, log;
      for i := 0 to |results|
        invariant Valid() && EndsOk(s0, state, None, options.bound) && LogOk(s0, l0, log, options.bound)
        invariant OthersSame(s0, state, segment, batch) && Charged(s0, state, segment, batch, results, i)
        invariant forall j | 0 <= j < i && results[j].Some? :: results[j].value.outcome != BlockedOutcome
      {
        if results[i].Some? {
          ghost var s1, l1 := state, log;
          terminal := Settle(segment, batch[i], results[i].value);
          EndsJoin(s0, l0, s1, l1, state, log, terminal, options.bound);
          ChargedNext(s0, s1, state, segment, batch, results, i);
          if terminal.Some? {
            return;
          }
        }
      }
      return None;
    }

    // ---- one step ----

    method Step(a: Action) returns (terminal: Option<Status>)
      requires Valid()
      modifies this`state, this`disk, this`log, this`tick, this`trace
      ensures Valid() && TraceOk(HasNoProgress(old(state)), old(trace), trace)
      ensures EndsOk(old(state), state, terminal, options.bound) && LogOk(old(state), old(log), log, options.bound)
      ensures Distinct(PacketsOf(a)) ==> OneMore(old(state), state)
      ensures terminal != Some(STOPPED) && terminal != Some(ITERATION_LIMIT) && terminal != Some(DRY_RUN)
      ensures terminal == Some(COMPLETE) <==> a == Complete || a == CompleteForTotality
      ensures a.Error? || a.Blocked? ==> terminal == Some(ESCALATED)
      ensures a.AdvancePhase? ==> terminal == None && trace == old(trace) && state.segment == Some(a.to)
      ensures a.Error? ==> trace == old(trace) && state.escalation == Some(Escalation(2, false))
      ensures a.Blocked? ==> trace == old(trace) && state.escalation == Some(Escalation(3, false))
      ensures a.Repair? ==> Leased(old(trace), trace, ReconcileTask)
      ensures a.Integrate? ==> Leased(old(trace), trace, IntegrateTask)
      ensures a.Dispatch? ==> LaunchedExactly(old(trace), trace, Taken(a, options.concurrency))
    {
      match a
      case Complete => return Some(COMPLETE);
      case CompleteForTotality => return Some(COMPLETE);
      case Error =>
        Escalate(2);
        return Some(ESCALATED);
      case Blocked(_, _) =>
        Escalate(3);
        return Some(ESCALATED);
      case AdvancePhase(_, to) =>
        Save(state.(segment := Some(to)));
        SameCountsLater(old(state), state);
        return None;
      case Repair =>
        terminal := LeasedWorker(ReconcileTask, 3);
        LeasedIsQuiet(HasNoProgress(old(state)), old(trace), old(trace), trace, ReconcileTask);
      case Integrate(_, _, _) =>
        terminal := LeasedWorker(IntegrateTask, 3);
        LeasedIsQuiet(HasNoProgress(old(state)), old(trace), old(trace), trace, IntegrateTask);
      case Dispatch(_, _, _, _) => terminal := HandleDispatch(a);
      case WaveGate(_, _, _) => var recorded; terminal, recorded := HandleGate(a, Wave);
      case PhaseGate(_, _) => var recorded; terminal, recorded := HandleGate(a, Phase);
    }

    // ---- the loop ----

    /** The no-progress guard: past the limit, a failure nothing resolves, and an escalation. */
    method GiveUp(segment: Option<string>)
      requires Valid()
      modifies this`state, this`disk, this`log
      ensures Valid() && Later(old(state), state) && Frozen(state) && HasNoProgress(state)
      ensures state.stopRequested == old(state).stopRequested
      ensures state.escalation == Some(Escalation(5, false)) && state.failures == old(state).failures + [Failure(NoProgress, segment, None, false)]
      ensures state.repairAttempts == old(state).repairAttempts && LogOk(old(state), old(log), log, options.bound)
    {
      var f := Failure(NoProgress, segment, None, false);
      RecordFailure(f);
      ghost var s1 := state;
      LogAppends(old(state), old(log), old(log), s1, options.bound);
      Escalate(5);
      SavedAfter(old(state), old(log), old(log) + [s1], s1, state, options.bound);
      assert f in state.failures;
    }

    method Derive() returns (action: Action)
      requires Valid()
      modifies this`state, this`disk, this`log, this`tick
      ensures Valid() && Later(old(state), state) && log == old(log) + [state]
      ensures state == old(state).(revision := state.revision, segment := state.segment)
      ensures exists k: nat :: action == env.action(k)
      ensures state.segment == if SegmentOf(action).Some? then SegmentOf(action)
                               else if action.AdvancePhase? then Some(action.to) else old(state).segment
    {
      action := env.action(tick);
      tick := tick + 1;
      Save(state.(segment := if SegmentOf(action).Some? then SegmentOf(action)
                             else if action.AdvancePhase? then Some(action.to) else state.segment));
      SameCountsLater(old(state), state);
    }

    /** One iteration: how it ended, if it did, and whether it reached a step. */
    method Iterate(signature: string, repeats: nat)
        returns (ended: Option<Status>, stepped: bool, stuck: bool, sig: string, again: nat)
      requires Valid()
      modifies this`state, this`disk, this`log, this`tick, this`trace
      ensures Valid() && Later(old(state), state)
      ensures TraceOk(HasNoProgress(old(state)), old(trace), trace)
      ensures Frozen(old(state)) ==> Frozen(state) && trace == old(trace) && !stepped && (log == old(log) || log == old(log) + [state])
      ensures ended == Some(ESCALATED) ==> Frozen(state)
      ensures Capped(old(state), state, options.bound, if ended == Some(ESCALATED) then 1 else 0)
      ensures LogOk(old(state), old(log), log, options.bound)
      ensures !stepped ==> ended.Some?
      ensures env.stop(old(tick)) ==> ended == Some(STOPPED) && !stepped && trace == old(trace) && state.stopRequested
      ensures !env.stop(old(tick)) ==> ended != Some(STOPPED) && state.stopRequested == old(state).stopRequested
      ensures !env.stop(old(tick)) && Frozen(old(state)) ==> ended == Some(ESCALATED) && state == old(state)
      ensures options.dryRun ==> !stepped && trace == old(trace) && ended != Some(COMPLETE)
      ensures stuck <==> ended == Some(ESCALATED) && !stepped && !Frozen(old(state))
      ensures stuck ==> HasNoProgress(state) && again >= options.noProgressLimit && trace == old(trace)
      ensures (forall k: nat :: Distinct(PacketsOf(env.action(k)))) ==> OneMore(old(state), state)
      ensures stepped ==> sig != "" && again == (if sig == signature then repeats + 1 else 0) && again < options.noProgressLimit
    {
      ghost var s0, l0 := state, log;
      sig, again, stepped, stuck := signature, repeats, false, false;
      if env.stop(tick) {
        Save(state.(stopRequested := true));
        SavedOnTheWay(s0, l0, l0, state, options.bound);
        return Some(STOPPED), false, false, sig, again;
      }
      if Frozen(state) {
        return Some(ESCALATED), false, false, sig, again;
      }
      ended, stepped, stuck, sig, again := Act(signature, repeats);
    }

    /** The action that is derived is given up, reported, or carried out. */
    method Act(signature: string, repeats: nat)
        returns (ended: Option<Status>, stepped: bool, stuck: bool, sig: string, again: nat)
      requires Valid()
      modifies this`state, this`disk, this`log, this`tick, this`trace
      ensures Valid() && TraceOk(HasNoProgress(old(state)), old(trace), trace)
      ensures EndsOk(old(state), state, ended, options.bound) && LogOk(old(state), old(log), log, options.bound)
      ensures ended != Some(STOPPED) && (!stepped ==> ended.Some?)
      ensures options.dryRun ==> !stepped && trace == old(trace) && ended != Some(COMPLETE)
      ensures stuck <==> ended == Some(ESCALATED) && !stepped
      ensures stuck ==> HasNoProgress(state) && again >= options.noProgressLimit && trace == old(trace)
      ensures (forall k: nat :: Distinct(PacketsOf(env.action(k)))) ==> OneMore(old(state), state)
      ensures stepped ==> sig != "" && again == (if sig == signature then repeats + 1 else 0) && again < options.noProgressLimit
    {
      ghost var s0, l0 := state, log;
      stepped, stuck := false, false;
      var action := Derive();
      ghost var s1, l1 := state, log;
      SavedOnTheWay(s0, l0, l0, s1, options.bound);
      sig := Signature(action);
      again := if sig == signature then repeats + 1 else 0;
      if again >= options.noProgressLimit {
        GiveUp(SegmentOf(action));
        EndsJoin(s0, l0, s1, l1, state, log, Some(ESCALATED), options.bound);
        return Some(ESCALATED), false, true, sig, again;
      }
      if options.dryRun {
        return Some(DRY_RUN), false, false, sig, again;
      }
      if HasNoProgress(s0) { NoProgressStays(s0, s1); }
      ended := Step(action);
      EndsJoin(s0, l0, s1, l1, state, log, ended, options.bound);
      stepped := true;
    }

    /**
     One run. Nothing is launched or run while an escalation is unresolved; an
     escalated run leaves one behind; no signature reaches a step more than
     `noProgressLimit` times in a row; the repair bound holds to the end, and in every
     state saved on the way up to the attempt that escalates; and a run that the
     no-progress guard ends leaves its failure behind.
     */
    method Supervise() returns (status: Status, stepped: seq<string>, stuck: bool)
      requires Valid()
      modifies this`state, this`disk, this`log, this`tick, this`trace
      ensures Valid() && Later(old(state), state)
      ensures TraceOk(HasNoProgress(old(state)), old(trace), trace)
      ensures Frozen(old(state)) ==> Frozen(state) && trace == old(trace) && stepped == []
      ensures status == ESCALATED ==> Frozen(state)
      ensures Capped(old(state), state, options.bound, if status == ESCALATED then 1 else 0)
      ensures LogOk(old(state), old(log), log, options.bound) && (Frozen(old(state)) ==> FrozenSince(old(log), log))
      ensures NeverStuck(stepped, options.noProgressLimit)
      ensures options.dryRun ==> trace == old(trace) && stepped == [] && status != COMPLETE
      ensures state.stopRequested <==> status == STOPPED
      ensures options.maxIterations > 0 && env.stop(old(tick)) ==> status == STOPPED && trace == old(trace) && stepped == []
      ensures stuck ==> status == ESCALATED && HasNoProgress(state)
    {
      ghost var s0, l0, t0, held := state, log, trace, HasNoProgress(state);
      stepped := [];
      Save(state.(stopRequested := false));
      SavedOnTheWay(s0, l0, l0, state, options.bound);
      var signature, repeats := "", 0;
      for i := 0 to options.maxIterations
        invariant Valid() && Later(s0, state) && TraceOk(held, t0, trace)
        invariant Frozen(s0) ==> Frozen(state) && trace == t0 && stepped == []
        invariant Capped(s0, state, options.bound, 0) && LogOk(s0, l0, log, options.bound)
        invariant Frozen(s0) ==> FrozenSince(l0, log)
        invariant (options.dryRun ==> trace == t0 && stepped == []) && !state.stopRequested
        invariant i == 0 ==> tick == old(tick) && trace == t0 && stepped == []
        invariant i > 0 ==> !env.stop(old(tick))
        invariant Trailing(stepped, signature, repeats) && NeverStuck(stepped, options.noProgressLimit)
      {
        ghost var s1, l1, t1 := state, log, trace;
        if held { NoProgressStays(s0, s1); }
        var ended, reached, sig, again;
        ended, reached, stuck, sig, again := Iterate(signature, repeats);
        TraceOkJoins(held, t0, t1, trace);
        RunJoins(s0, l0, s1, l1, state, log, options.bound, if ended == Some(ESCALATED) then 1 else 0);
        if reached {
          TrailingGrows(stepped, signature, repeats, sig, again, options.noProgressLimit);
          stepped := stepped + [sig];
        }
        if ended.Some? {
          return ended.value, stepped, stuck;
        }
        signature, repeats := sig, again;
      }
      return ITERATION_LIMIT, stepped, false;
    }
  }

  /** The sources a gate measures, judged: green exactly when every one of them is good. */
  method GateVerdict(kind: GateKind, code: int, probe: int, blocked: bool, done: bool, dod: bool, present: bool)
      returns (green: bool)
    requires kind == Wave ==> dod && present
    ensures green <==> code == 0 && probe == 0 && !blocked && done && dod && present
  {
    var sources: map<SourceName, Source> :=
      map[Nodes := Source(if probe == 0 then GREEN else RED, ["gate-nodes.log"]),
          Gates := Source(if code == 0 then GREEN else RED, ["gate-command.log"]),
          FailureEvidence := Source(if blocked then RED else GREEN, ["gate-command.log"])];
    if kind == Wave {
      sources := sources[Validation := Source(if done then GREEN else RED, ["worker-report.json"])];
    } else {
      sources := sources[DefinitionOfDone := Source(if done && dod then GREEN else RED, ["definition-of-done.md"])];
      sources := sources[Artifacts := Source(if present then GREEN else RED, ["gate-command.log"])];
    }
    var blockers, evidence;
    green, blockers, evidence := Judge(SourcesOf(kind), sources);
    var r := SourcesOf(kind);
    assert r[0] == Nodes && r[1] == Gates && r[|r| - 1] == FailureEvidence;
    assert if kind == Wave then r[2] == Validation else r[2] == DefinitionOfDone && r[3] == Artifacts;
    assert Nodes in r && Gates in r && FailureEvidence in r && r[2] in r && r[|r| - 2] in r;
  }

  predicate HasFailed(a: WorkerAnswer) { a.outcome == Failed || a.outcome == RepairRequired }

  /** A worker failure of the node is on record, resolved or not. */
  ghost predicate FailureOf(s: State, segment: Option<string>, node: string) {
    exists f | f in s.failures :: f.kind == WorkerFailed && f.segment == segment && f.node == Some(node)
  }

  lemma FailuresStay(a: State, b: State, segment: Option<string>)
    requires Later(a, b)
    ensures forall node | FailureOf(a, segment, node) :: FailureOf(b, segment, node)
  {
    forall node | FailureOf(a, segment, node) ensures FailureOf(b, segment, node) {
      var f :| f in a.failures && f.kind == WorkerFailed && f.segment == segment && f.node == Some(node);
      var i :| 0 <= i < |a.failures| && a.failures[i] == f;
      assert FailureKept(a.failures[i], b.failures[i]) && b.failures[i] in b.failures;
    }
  }

  /** Only counters of the batch have changed. */
  ghost predicate OthersSame(s0: State, s: State, segment: Option<string>, batch: seq<string>) {
    forall k | (forall node | node in batch :: k != RepairKey(segment, node)) :: Count(s, k) == Count(s0, k)
  }

  /** The first `i` results have been settled: failures are on record and charged once, and nothing else is charged. */
  ghost predicate Charged(s0: State, s: State, segment: Option<string>, batch: seq<string>, results: seq<Option<WorkerAnswer>>, i: nat)
    requires i <= |batch| == |results|
  {
    && (forall j | 0 <= j < i && results[j].Some? && HasFailed(results[j].value) :: FailureOf(s, segment, batch[j]))
    && (Distinct(batch) ==> OneMore(s0, s))
    && (Distinct(batch) ==> forall j | i <= j < |batch| :: Count(s, RepairKey(segment, batch[j])) == Count(s0, RepairKey(segment, batch[j])))
    && (Distinct(batch) ==> forall j | 0 <= j < i && results[j].Some? && HasFailed(results[j].value) ::
          Count(s, RepairKey(segment, batch[j])) == Count(s0, RepairKey(segment, batch[j])) + 1)
  }

  lemma ChargedNext(s0: State, s1: State, s2: State, segment: Option<string>, batch: seq<string>, results: seq<Option<WorkerAnswer>>, i: nat)
    requires i < |batch| == |results| && Charged(s0, s1, segment, batch, results, i) && OthersSame(s0, s1, segment, batch)
    requires Later(s1, s2) && OneMore(s1, s2) && forall k | k != RepairKey(segment, batch[i]) :: Count(s2, k) == Count(s1, k)
    requires results[i].Some?
    requires HasFailed(results[i].value) ==>
               FailureOf(s2, segment, batch[i]) && Count(s2, RepairKey(segment, batch[i])) == Count(s1, RepairKey(segment, batch[i])) + 1
    ensures Charged(s0, s2, segment, batch, results, i + 1) && OthersSame(s0, s2, segment, batch)
  {
    FailuresStay(s1, s2, segment);
    if Distinct(batch) {
      KeysDiffer(segment, batch, i);
      OneMoreJoins(s0, s1, s2, RepairKey(segment, batch[i]));
    }
  }

  /** Different nodes of a batch are charged to different buckets. */
  lemma KeysDiffer(segment: Option<string>, batch: seq<string>, i: nat)
    requires Distinct(batch) && i < |batch|
    ensures forall j | 0 <= j < |batch| && j != i :: RepairKey(segment, batch[j]) != RepairKey(segment, batch[i])
  {
    var prefix := (if segment.Some? then segment.value else "-") + "::";
    forall j | 0 <= j < |batch| && j != i ensures RepairKey(segment, batch[j]) != RepairKey(segment, batch[i]) {
      assert batch[i] != batch[j];
      assert (prefix + batch[j])[|prefix|..] == batch[j] && (prefix + batch[i])[|prefix|..] == batch[i];
    }
  }

  lemma OneMoreJoins(s0: State, s1: State, s2: State, key: string)
    requires OneMore(s0, s1) && OneMore(s1, s2)
    requires Count(s1, key) == Count(s0, key) && forall k | k != key :: Count(s2, k) == Count(s1, k)
    ensures OneMore(s0, s2)
  {
    forall k ensures Count(s2, k) <= Count(s0, k) + 1 {
      assert Count(s1, k) <= Count(s0, k) + 1 && Count(s2, k) <= Count(s1, k) + 1;
    }
  }

  // ---- the stall guard ----

  /** No signature is stepped more than `limit` times in a row. */
  ghost predicate NeverStuck(stepped: seq<string>, limit: nat) {
    forall j | 0 <= j && j + limit < |stepped| :: exists k | j < k <= j + limit :: stepped[k] != stepped[j]
  }

  /** The last `repeats + 1` signatures are `signature`, and the one before is not. */
  ghost predicate Trailing(stepped: seq<string>, signature: string, repeats: nat) {
    if stepped == [] then signature == "" && repeats == 0
    else
      && repeats < |stepped|
      && (forall k | |stepped| - 1 - repeats <= k < |stepped| :: stepped[k] == signature)
      && (|stepped| - 1 - repeats > 0 ==> stepped[|stepped| - 2 - repeats] != signature)
  }

  lemma TrailingGrows(stepped: seq<string>, signature: string, repeats: nat, sig: string, again: nat, limit: nat)
    requires Trailing(stepped, signature, repeats) && NeverStuck(stepped, limit) && sig != ""
    requires again == (if sig == signature then repeats + 1 else 0) && again < limit
    ensures Trailing(stepped + [sig], sig, again) && NeverStuck(stepped + [sig], limit)
  {
    var t := stepped + [sig];
    forall j | 0 <= j && j + limit < |t| ensures exists k | j < k <= j + limit :: t[k] != t[j] {
      if j + limit < |stepped| {
        var k :| j < k <= j + limit && stepped[k] != stepped[j];
        assert t[k] != t[j];
      } else {
        assert j < |t| - 1 - again;
        assert t[|t| - 2 - again] != sig;
        if t[j] == sig {
          assert t[|t| - 2 - again] != t[j];
        } else {
          assert t[|t| - 1] != t[j];
        }
      }
    }
  }

  ghost function GateMiddle(kind: GateKind, outcome: Outcome, dod: bool, present: bool): seq<Event> {
    if kind == Wave then [Launched(GateTask(kind), None, outcome)]
    else [Launched(GateTask(kind), None, outcome), DodChecked(dod), EvidenceChecked(present)]
  }

  /** The events of a gate that reaches its record command. */
  ghost function GateRun(s: State, kind: GateKind, segment: Option<string>, code: int): seq<Event> {
    [Ran(GateCommand(kind), 0, s), Ran(Probe, 0, s)] + GateMiddle(kind, DoneOutcome, true, true)
    + [Ran(Record(kind, segment), code, s)]
  }

  lemma GateStarts(t0: seq<Event>, t2: seq<Event>, kind: GateKind, code: int, probe: int, s: State)
    requires t2 == t0 + [Ran(GateCommand(kind), code, s)] + [Ran(Probe, probe, s)]
    ensures NoRecordSince(t0, t2) && (AllJustified(t0) ==> AllJustified(t2))
  {
    if AllJustified(t0) {
      JustifiedExtends(t0, Ran(GateCommand(kind), code, s));
      JustifiedExtends(t0 + [Ran(GateCommand(kind), code, s)], Ran(Probe, probe, s));
    }
  }

  lemma MiddleKeeps(t2: seq<Event>, kind: GateKind, outcome: Outcome, dod: bool, present: bool)
    ensures var t := t2 + GateMiddle(kind, outcome, dod, present);
            NoRecordSince(t2, t) && (AllJustified(t2) ==> AllJustified(t))
  {
    if AllJustified(t2) {
      var l := Launched(GateTask(kind), None, outcome);
      JustifiedExtends(t2, l);
      if kind == Phase {
        JustifiedExtends(t2 + [l], DodChecked(dod));
        JustifiedExtends(t2 + [l] + [DodChecked(dod)], EvidenceChecked(present));
        assert t2 + GateMiddle(kind, outcome, dod, present) == t2 + [l] + [DodChecked(dod)] + [EvidenceChecked(present)];
      }
    }
  }

  lemma RecordJustified(t0: seq<Event>, s: State, kind: GateKind, segment: Option<string>, code: int)
    requires !GateBlocked(s, segment)
    ensures AllJustified(t0) ==> AllJustified(t0 + GateRun(s, kind, segment, code))
  {
    var run := GateRun(s, kind, segment, code);
    var t := t0 + run;
    if AllJustified(t0) {
      forall k | 0 <= k < |t| ensures Justified(t, k) {
        if k < |t0| {
          assert Justified(t0, k);
        } else {
          assert t[k] == run[k - |t0|];
          assert forall j | |t0| <= j < |t| :: t[j] == run[j - |t0|];
        }
      }
    }
  }

  // ---- runs and resumes, one after another ----

  /** A run may be cut off after any number of its saves and of its events. */
  datatype Crash = Crash(saves: nat, events: nat)

  datatype Session = Session(resume: bool, options: Options, env: Environment, crash: Option<Crash>)

  /** `pnpm autopilot resume` with a note resolves the escalation and nothing else. */
  function Resume(s: State): State {
    if Frozen(s) then s.(revision := s.revision + 1, escalation := Some(s.escalation.value.(resolved := true))) else s
  }

  /** It lifts the freeze, and touches neither failures, nor counters, nor nodes. */
  lemma ResumeLifts(s: State)
    ensures !Frozen(Resume(s)) && (!Frozen(s) ==> Resume(s) == s)
    ensures var r := Resume(s);
            r.failures == s.failures && r.repairAttempts == s.repairAttempts && r.nodes == s.nodes && r.segment == s.segment
    ensures Frozen(s) ==> Resume(s).escalation == Some(Escalation(s.escalation.value.trigger, true)) && Resume(s).revision == s.revision + 1
  {
  }

  function StartOf(resume: bool, disk: State): State { if resume then Resume(disk) else disk }

  ghost predicate NoRecord(trace: seq<Event>) {
    forall k | 0 <= k < |trace| :: !IsRecord(trace[k])
  }

  /** What a run did and left on disk; it has no status if it was cut off. */
  datatype Entry = Entry(resume: bool, bound: nat, start: State, trace: seq<Event>, status: Option<Status>, stuck: bool, end: State)

  /** A run in which a counter may have gone past the bound. */
  predicate Overran(e: Entry) { e.status.None? || e.status == Some(ESCALATED) }

  /** One run of the supervisor from what is on disk, after the resume if it is one. */
  ghost predicate IsSession(e: Entry, disk: State) {
    && e.start == StartOf(e.resume, disk)
    && Later(disk, e.start) && Later(e.start, e.end) && AllJustified(e.trace)
    && (HasNoProgress(e.start) ==> NoRecord(e.trace))
    && (Frozen(e.start) ==> Frozen(e.end) && e.trace == [])
    && (e.status == Some(ESCALATED) ==> Frozen(e.end))
    && (e.stuck ==> e.status == Some(ESCALATED) && HasNoProgress(e.end))
    && Capped(e.start, e.end, e.bound, if Overran(e) then 1 else 0)
  }

  ghost predicate IsOf(e: Entry, s: Session) {
    e.resume == s.resume && e.bound == s.options.bound && (e.status.None? <==> s.crash.Some?)
  }

  lemma PrefixJustified(trace: seq<Event>, n: nat)
    requires AllJustified(trace) && n <= |trace|
    ensures AllJustified(trace[..n])
  {
    forall k | 0 <= k < n ensures Justified(trace[..n], k) { assert Justified(trace, k); }
  }

  method OneSession(s: Session, disk: State) returns (e: Entry)
    ensures IsSession(e, disk) && IsOf(e, s)
  {
    var here := StartOf(s.resume, disk);
    SameCountsLater(disk, here);
    var run := new Supervisor(s.options, s.env, here);
    var status, stepped, stuck := run.Supervise();
    match s.crash
    case None => e := Entry(s.resume, s.options.bound, here, run.trace, Some(status), stuck, run.disk);
    case Some(at) =>
      var n := if at.events < |run.trace| then at.events else |run.trace|;
      PrefixJustified(run.trace, n);
      SavedOnTheWay(here, [here], [here], here, s.options.bound);
      var end := if at.saves < |run.log| then run.log[at.saves] else run.disk;
      e := Entry(s.resume, s.options.bound, here, run.trace[..n], None, false, end);
  }

  /**
   What the runs so far add up to, whether they came to an end or were cut off. Every
   record ever issued is justified. A run ended by the no-progress guard leaves its
   failure behind. From a run that starts with such a failure on, and in every run after
   one that left it on disk, no gate is recorded. While an escalation stands no worker is
   launched and no command run; a run that ends escalated leaves one standing, and then
   the next run starts frozen unless it is a resume.
   */
  ghost predicate SoundHistory(h: seq<Entry>) {
    && (forall j | 0 <= j < |h| :: SoundEntry(h[j]))
    && (forall i, j | 0 <= i < j < |h| :: SoundPair(h[i], h[j]))
    && forall j | 0 < j < |h| :: Follows(h[j - 1], h[j])
  }

  ghost predicate SoundEntry(e: Entry) {
    && AllJustified(e.trace) && (Frozen(e.start) ==> e.trace == []) && (HasNoProgress(e.start) ==> NoRecord(e.trace))
    && (e.stuck ==> HasNoProgress(e.end)) && (e.status == Some(ESCALATED) ==> Frozen(e.end))
  }

  ghost predicate SoundPair(e: Entry, later: Entry) {
    HasNoProgress(e.start) || HasNoProgress(e.end) ==> NoRecord(later.trace)
  }

  ghost predicate Follows(e: Entry, next: Entry) {
    Frozen(e.end) && !next.resume ==> Frozen(next.start)
  }

  /** Each run starts from what the one before left, and its counters are capped. */
  ghost predicate Linked(h: seq<Entry>) {
    && (forall j | 0 < j < |h| :: h[j].start == StartOf(h[j].resume, h[j - 1].end))
    && forall j | 0 <= j < |h| :: Capped(h[j].start, h[j].end, h[j].bound, if Overran(h[j]) then 1 else 0)
  }

  ghost predicate LeadsTo(h: seq<Entry>, disk: State) {
    && (forall i | 0 <= i < |h| :: Later(h[i].start, disk) && Later(h[i].end, disk))
    && (h != [] ==> disk == h[|h| - 1].end)
  }

  lemma HistoryGrows(h: seq<Entry>, disk: State, e: Entry)
    requires SoundHistory(h) && LeadsTo(h, disk) && IsSession(e, disk)
    ensures SoundHistory(h + [e]) && LeadsTo(h + [e], e.end)
  {
    LeadsOn(h, disk, e);
    forall i | 0 <= i < |h| ensures SoundPair(h[i], e) {
      LaterReaches(h[i].start, disk, e.start, e.end);
      LaterReaches(h[i].end, disk, e.start, e.end);
    }
    SoundWith(h, e);
  }

  lemma LeadsOn(h: seq<Entry>, disk: State, e: Entry)
    requires LeadsTo(h, disk) && IsSession(e, disk)
    ensures LeadsTo(h + [e], e.end)
  {
    LaterReflexive(e.end);
    var g := h + [e];
    forall i | 0 <= i < |g| ensures Later(g[i].start, e.end) && Later(g[i].end, e.end) {
      if i < |h| {
        LaterReaches(h[i].start, disk, e.start, e.end);
        LaterReaches(h[i].end, disk, e.start, e.end);
      }
    }
  }

  lemma SoundWith(h: seq<Entry>, e: Entry)
    requires SoundHistory(h) && SoundEntry(e) && (forall i | 0 <= i < |h| :: SoundPair(h[i], e)) && (h != [] ==> Follows(h[|h| - 1], e))
    ensures SoundHistory(h + [e])
  {
  }

  lemma LaterReflexive(s: State)
    ensures Later(s, s)
  {
  }

  lemma LinkGrows(h: seq<Entry>, disk: State, e: Entry)
    requires Linked(h) && LeadsTo(h, disk) && IsSession(e, disk)
    ensures Linked(h + [e])
  {
  }

  method Enter(h: seq<Entry>, disk: State, e: Entry) returns (g: seq<Entry>)
    requires SoundHistory(h) && Linked(h) && LeadsTo(h, disk) && IsSession(e, disk)
    ensures g == h + [e] && SoundHistory(g) && Linked(g) && LeadsTo(g, e.end) && e.start == StartOf(e.resume, disk)
  {
    HistoryGrows(h, disk, e);
    LinkGrows(h, disk, e);
    g := h + [e];
  }

  /** Any number of runs from the same directory, each optionally a resume and each possibly cut off. */
  method Sessions(start: State, sessions: seq<Session>) returns (h: seq<Entry>)
    ensures |h| == |sessions| && SoundHistory(h) && Linked(h)
    ensures forall j | 0 <= j < |h| :: IsOf(h[j], sessions[j])
    ensures h != [] ==> h[0].start == StartOf(h[0].resume, start)
  {
    var disk := start;
    h := [];
    for n := 0 to |sessions|
      invariant |h| == n && SoundHistory(h) && Linked(h) && LeadsTo(h, disk)
      invariant forall j | 0 <= j < n :: IsOf(h[j], sessions[j])
      invariant if n == 0 then disk == start else h[0].start == StartOf(h[0].resume, start)
    {
      var e := OneSession(sessions[n], disk);
      h := Enter(h, disk, e);
      disk := e.end;
    }
  }

  lemma LaterReaches(a: State, b: State, c: State, d: State)
    requires Later(a, b) && Later(b, c) && Later(c, d)
    ensures Later(a, d) && (HasNoProgress(a) ==> HasNoProgress(c))
  {
    LaterTransitive(a, b, c);
    LaterTransitive(a, c, d);
    if HasNoProgress(a) { NoProgressStays(a, c); }
  }

  /** How many of the first `n` runs ended escalated or were cut off. */
  function Overruns(h: seq<Entry>, n: nat): nat
    requires n <= |h|
  {
    if n == 0 then 0 else Overruns(h, n - 1) + if Overran(h[n - 1]) then 1 else 0
  }

  /**
   The repair bound over all runs: a counter is past the bound, or past where it was at
   the start, by no more than the number of runs that ended escalated or were cut off.
   */
  lemma {:induction false} RepairBoundOverRuns(h: seq<Entry>, bound: nat, j: nat, key: string)
    requires Linked(h) && j < |h| && forall i | 0 <= i <= j :: h[i].bound <= bound
    ensures Count(h[j].end, key) <= Max(bound, Count(h[0].start, key)) + Overruns(h, j + 1)
  {
    assert Capped(h[j].start, h[j].end, h[j].bound, if Overran(h[j]) then 1 else 0);
    assert Count(h[j].end, key) <= Max(h[j].bound, Count(h[j].start, key)) + if Overran(h[j]) then 1 else 0;
    if j > 0 {
      RepairBoundOverRuns(h, bound, j - 1, key);
      assert Count(h[j].start, key) == Count(h[j - 1].end, key);
    }
  }
}
