/**
 Node leases (`scripts/autopilot/lease.ts`): one file a node, created exclusively,
 stolen only when it has expired and its process is gone. First the operations as
 the code runs them on the lease directory, then every interleaving of whole
 operations.
 */
module Leases {
  import opened Graph

  datatype Lease = Lease(node: string, workerId: string, pid: int, expiresAt: int)

  /** What is in a lease file: a lease, or something that does not parse, such as nothing yet. */
  datatype Content = Readable(lease: Lease) | Unreadable

  predicate PlainChar(c: char) {
    'A' <= c <= 'Z' || 'a' <= c <= 'z' || '0' <= c <= '9' || c == '.' || c == '_' || c == '-'
  }

  /** The file of a node: every other character is folded to an underscore, so two keys may share one. */
  function FileOf(node: string): string {
    seq(|node|, i requires 0 <= i < |node| => if PlainChar(node[i]) then node[i] else '_')
  }

  /** Keys of plain characters have files of their own. */
  lemma PlainKeysHaveFiles(a: string, b: string)
    requires forall c | c in a + b :: PlainChar(c)
    ensures FileOf(a) == a && (FileOf(a) == FileOf(b) <==> a == b)
  {
    assert forall i | 0 <= i < |a| :: a[i] in a + b;
    assert forall i | 0 <= i < |b| :: b[i] in a + b;
    assert FileOf(a) == a && FileOf(b) == b;
  }

  /** What may be in a file name: letters, digits, dot, underscore and dash; the colons of a gate's key are folded. */
  lemma FoldedCharacters()
    ensures PlainChar('a') && PlainChar('Z') && PlainChar('0') && PlainChar('.') && PlainChar('_') && PlainChar('-')
    ensures !PlainChar(':') && !PlainChar('/') && FileOf("5a::gate") == "5a__gate"
  {
  }

  /** How a file reads: an unreadable one belongs to no process and expired long ago. */
  function AsRead(c: Content, node: string): Lease {
    match c
    case Readable(l) => l
    case Unreadable => Lease(node, "unreadable", -1, 0)
  }

  predicate IsAlive(alive: set<int>, pid: int) { pid > 0 && pid in alive }

  predicate Stealable(l: Lease, now: int, alive: set<int>) {
    l.expiresAt <= now && !IsAlive(alive, l.pid)
  }

  // ---- the operations on the directory ----

  datatype Acquired = Got(lease: Lease, stole: Option<Lease>) | Held(holder: Lease)

  function Acquire(files: map<string, Content>, l: Lease, now: int, alive: set<int>): (r: Acquired) {
    var f := FileOf(l.node);
    if f !in files then Got(l, None)
    else
      var held := AsRead(files[f], l.node);
      if Stealable(held, now, alive) then Got(l, Some(held)) else Held(held)
  }

  predicate Releases(files: map<string, Content>, node: string, workerId: string) {
    FileOf(node) in files && AsRead(files[FileOf(node)], node).workerId == workerId
  }

  function Abandoned(files: map<string, Content>, now: int, alive: set<int>): set<Lease> {
    set f | f in files && files[f].Readable? && Stealable(files[f].lease, now, alive) :: files[f].lease
  }

  function FilesOf(ls: set<Lease>): set<string> { set l | l in ls :: FileOf(l.node) }

  /** The lease directory, with the operations that change it. */
  class LeaseDir {
    var files: map<string, Content>

    constructor ()
      ensures files == map[]
    {
      files := map[];
    }

    method AcquireLease(l: Lease, now: int, alive: set<int>) returns (r: Acquired)
      modifies this
      ensures r == Acquire(old(files), l, now, alive)
      ensures files == if r.Got? then old(files)[FileOf(l.node) := Readable(l)] else old(files)
    {
      var f := FileOf(l.node);
      if f !in files {
        files := files[f := Readable(l)];
        return Got(l, None);
      }
      var held := AsRead(files[f], l.node);
      if held.expiresAt > now {
        return Held(held);
      }
      if IsAlive(alive, held.pid) {
        return Held(held);
      }
      files := files - {f};
      files := files[f := Readable(l)];
      assert files == old(files)[f := Readable(l)];
      return Got(l, Some(held));
    }

    method ReleaseLease(node: string, workerId: string) returns (ok: bool)
      modifies this
      ensures ok == Releases(old(files), node, workerId)
      ensures files == if ok then old(files) - {FileOf(node)} else old(files)
    {
      if FileOf(node) !in files {
        return false;
      }
      if AsRead(files[FileOf(node)], node).workerId != workerId {
        return false;
      }
      files := files - {FileOf(node)};
      return true;
    }

    method RenewLease(node: string, workerId: string, expiresAt: int) returns (r: Option<Lease>)
      modifies this
      ensures r.Some? == Releases(old(files), node, workerId)
      ensures files == if r.Some? then old(files)[FileOf(node) := Readable(r.value)] else old(files)
      ensures r.Some? ==> r.value == AsRead(old(files)[FileOf(node)], node).(expiresAt := expiresAt)
    {
      if FileOf(node) !in files {
        return None;
      }
      var held := AsRead(files[FileOf(node)], node);
      if held.workerId != workerId {
        return None;
      }
      r := Some(held.(expiresAt := expiresAt));
      files := files[FileOf(node) := Unreadable];
      files := files[FileOf(node) := Readable(r.value)];
    }

    /** Removes the file of every lease whose holder is provably gone, and nothing else. */
    method ReapExpired(now: int, alive: set<int>) returns (reaped: set<Lease>)
      modifies this
      ensures reaped == Abandoned(old(files), now, alive)
      ensures files == old(files) - FilesOf(reaped)
    {
      var listed := set f | f in files && files[f].Readable? :: files[f].lease;
      reaped := {};
      var todo := listed;
      assert FilesOf(reaped) == {};
      while todo != {}
        invariant todo <= listed
        invariant reaped == set l | l in listed - todo && Stealable(l, now, alive)
        invariant files == old(files) - FilesOf(reaped)
        decreases todo
      {
        var l :| l in todo;
        todo := todo - {l};
        if Stealable(l, now, alive) {
          ghost var gone := FilesOf(reaped);
          reaped := reaped + {l};
          assert FilesOf(reaped) == gone + {FileOf(l.node)};
          files := files - {FileOf(l.node)};
        }
      }
    }
  }

  // ---- interleaved whole operations ----

  /** A process that acquired `node` and has not released it. */
  datatype Claim = Claim(pid: int, workerId: string, node: string)

  datatype World = World(files: map<string, Content>, alive: set<int>, claims: set<Claim>)

  datatype Step =
    | AcquireStep(l: Lease, now: int)
    | ReleaseStep(pid: int, workerId: string, node: string)
    | RenewStep(pid: int, workerId: string, node: string, expiresAt: int)
    | ReapStep(now: int)
    | CrashStep(pid: int)
    | SpawnStep(pid: int)

  function Unclaimed(claims: set<Claim>, workerId: string, node: string): set<Claim> {
    set c | c in claims && !(c.workerId == workerId && FileOf(c.node) == FileOf(node))
  }

  /** A live process acts; a process uses no other process's worker id. `now` is any reading of the clock. */
  ghost predicate Enabled(w: World, e: Step) {
    match e
    case AcquireStep(l, _) => IsAlive(w.alive, l.pid)
    case ReleaseStep(pid, workerId, _) => forall c | c in w.claims && c.workerId == workerId :: c.pid == pid
    case RenewStep(pid, workerId, node, _) => Claim(pid, workerId, node) in w.claims
    case _ => true
  }

  ghost function After(w: World, e: Step): World {
    match e
    case AcquireStep(l, now) =>
      if Acquire(w.files, l, now, w.alive).Got? then
        World(w.files[FileOf(l.node) := Readable(l)], w.alive, w.claims + {Claim(l.pid, l.workerId, l.node)})
      else w
    case ReleaseStep(_, workerId, node) =>
      if Releases(w.files, node, workerId) then
        World(w.files - {FileOf(node)}, w.alive, Unclaimed(w.claims, workerId, node))
      else w
    case RenewStep(_, workerId, node, expiresAt) =>
      if Releases(w.files, node, workerId) then
        w.(files := w.files[FileOf(node) := Readable(AsRead(w.files[FileOf(node)], node).(expiresAt := expiresAt))])
      else w
    case ReapStep(now) => w.(files := w.files - FilesOf(Abandoned(w.files, now, w.alive)))
    case CrashStep(pid) => w.(alive := w.alive - {pid}, claims := set c | c in w.claims && c.pid != pid)
    case SpawnStep(pid) => w.(alive := w.alive + {pid})
  }

  /** A live process is the holder on file of everything it has acquired and not released. */
  ghost predicate HoldsOnFile(files: map<string, Content>, alive: set<int>, c: Claim) {
    && IsAlive(alive, c.pid) && FileOf(c.node) in files && files[FileOf(c.node)].Readable?
    && var l := files[FileOf(c.node)].lease;
       l.pid == c.pid && l.workerId == c.workerId && l.node == c.node
  }

  ghost predicate FiledRight(files: map<string, Content>) {
    forall f | f in files && files[f].Readable? :: FileOf(files[f].lease.node) == f
  }

  ghost predicate Safe(files: map<string, Content>, alive: set<int>, claims: set<Claim>) {
    && (forall c | c in claims :: HoldsOnFile(files, alive, c))
    && forall c, d | c in claims && d in claims && FileOf(c.node) == FileOf(d.node) :: c == d
  }

  lemma StepIsSafe(w: World, e: Step)
    requires Safe(w.files, w.alive, w.claims) && FiledRight(w.files) && Enabled(w, e)
    ensures var w' := After(w, e); Safe(w'.files, w'.alive, w'.claims) && FiledRight(w'.files)
  {
    var w' := After(w, e);
    match e
    case AcquireStep(l, now) =>
      if Acquire(w.files, l, now, w.alive).Got? {
        forall c | c in w.claims ensures FileOf(c.node) != FileOf(l.node) {
          assert HoldsOnFile(w.files, w.alive, c);
        }
      }
    case ReapStep(now) =>
      forall c | c in w.claims ensures HoldsOnFile(w'.files, w'.alive, c) {
        assert HoldsOnFile(w.files, w.alive, c);
        forall l | l in Abandoned(w.files, now, w.alive) ensures FileOf(l.node) != FileOf(c.node) {
        }
      }
    case _ =>
      forall c | c in w'.claims ensures HoldsOnFile(w'.files, w'.alive, c) {
        assert c in w.claims && HoldsOnFile(w.files, w.alive, c);
      }
  }

  ghost function Played(w: World, es: seq<Step>): World {
    if es == [] then w else After(Played(w, es[..|es| - 1]), es[|es| - 1])
  }

  ghost predicate Playable(w: World, es: seq<Step>) {
    forall i | 0 <= i < |es| :: Enabled(Played(w, es[..i]), es[i])
  }

  /**
   Over every interleaving of whole operations by any number of processes, crashes
   and reused process ids included, from any leftover directory: a live claimant is
   the holder on file, and no file has two.
   */
  lemma {:induction false} LeasesAreSafe(w: World, es: seq<Step>)
    requires w.claims == {} && FiledRight(w.files) && Playable(w, es)
    ensures var w' := Played(w, es); Safe(w'.files, w'.alive, w'.claims) && FiledRight(w'.files)
    decreases |es|
  {
    if es != [] {
      var n := |es| - 1;
      assert forall i | 0 <= i < n :: es[..n][..i] == es[..i];
      LeasesAreSafe(w, es[..n]);
      assert Enabled(Played(w, es[..n]), es[n]);
      StepIsSafe(Played(w, es[..n]), es[n]);
    }
  }

  // ---- what expiry protects ----

  ghost predicate Filed(files: map<string, Content>, f: string, l: Lease) {
    f in files && files[f] == Readable(l)
  }

  /** A step that may take the lease `l` from its file: by its own worker, or after its time and its process have ended. */
  ghost predicate MayTake(w: World, e: Step, l: Lease) {
    match e
    case AcquireStep(_, now) => l.expiresAt <= now && !(l.pid > 0 && l.pid in w.alive)
    case ReleaseStep(_, workerId, _) => workerId == l.workerId
    case RenewStep(_, workerId, _, _) => workerId == l.workerId
    case ReapStep(now) => l.expiresAt <= now && !(l.pid > 0 && l.pid in w.alive)
    case _ => false
  }

  /** Nothing else changes what is on file. */
  lemma OnlyTheseTake(w: World, e: Step, f: string, l: Lease)
    requires FiledRight(w.files) && Filed(w.files, f, l) && !MayTake(w, e, l)
    ensures Filed(After(w, e).files, f, l)
  {
    match e
    case AcquireStep(_, _) =>
    case ReleaseStep(_, workerId, node) => assert Releases(w.files, node, workerId) ==> FileOf(node) != f;
    case RenewStep(_, workerId, node, _) => assert Releases(w.files, node, workerId) ==> FileOf(node) != f;
    case ReapStep(now) =>
      forall q | q in Abandoned(w.files, now, w.alive) ensures FileOf(q.node) != f {
        var g :| g in w.files && w.files[g].Readable? && w.files[g].lease == q;
        assert FileOf(q.node) == g;
      }
    case _ =>
  }

  lemma StepFilesRight(w: World, e: Step)
    requires FiledRight(w.files)
    ensures FiledRight(After(w, e).files)
  {
    match e
    case RenewStep(_, workerId, node, _) =>
      if Releases(w.files, node, workerId) && w.files[FileOf(node)].Readable? {
        assert FileOf(w.files[FileOf(node)].lease.node) == FileOf(node);
      }
    case _ =>
  }

  ghost predicate TakesAt(w: World, es: seq<Step>, i: nat, l: Lease)
    requires i < |es|
  {
    MayTake(Played(w, es[..i]), es[i], l)
  }

  /**
   Over any run: a lease stays on file until its own worker releases or renews it, or
   somebody acquires or reaps after it has expired and its process is gone.
   */
  lemma {:induction false} LeaseLasts(w: World, es: seq<Step>, f: string, l: Lease)
    requires FiledRight(w.files) && Filed(w.files, f, l) && forall i | 0 <= i < |es| :: !TakesAt(w, es, i, l)
    ensures FiledRight(Played(w, es).files) && Filed(Played(w, es).files, f, l)
    decreases |es|
  {
    if es != [] {
      var n := |es| - 1;
      forall i | 0 <= i < n ensures !TakesAt(w, es[..n], i, l) {
        assert !TakesAt(w, es, i, l) && es[..n][..i] == es[..i];
      }
      LeaseLasts(w, es[..n], f, l);
      assert !TakesAt(w, es, n, l);
      OnlyTheseTake(Played(w, es[..n]), es[n], f, l);
      StepFilesRight(Played(w, es[..n]), es[n]);
    }
  }

  /** In particular no acquire and no reaping before the expiry takes it, whatever has become of its process. */
  lemma UnexpiredIsHeld(w: World, es: seq<Step>, f: string, l: Lease)
    requires FiledRight(w.files) && Filed(w.files, f, l)
    requires forall i | 0 <= i < |es| ::
               match es[i]
               case AcquireStep(_, now) => now < l.expiresAt
               case ReapStep(now) => now < l.expiresAt
               case ReleaseStep(_, workerId, _) => workerId != l.workerId
               case RenewStep(_, workerId, _, _) => workerId != l.workerId
               case _ => true
    ensures Filed(Played(w, es).files, f, l)
  {
    forall i | 0 <= i < |es| ensures !TakesAt(w, es, i, l) {}
    LeaseLasts(w, es, f, l);
  }

  /** The next acquire takes a node exactly if its file is absent, unreadable, or of a lease whose time and process have ended. */
  lemma TakenExactly(w: World, l: Lease, now: int)
    ensures var f := FileOf(l.node);
            var free := f !in w.files || (if w.files[f].Unreadable? then now >= 0
                        else w.files[f].lease.expiresAt <= now && !(w.files[f].lease.pid > 0 && w.files[f].lease.pid in w.alive));
            var w' := After(w, AcquireStep(l, now));
            if free then Filed(w'.files, f, l) && Claim(l.pid, l.workerId, l.node) in w'.claims else w' == w
    ensures match Acquire(w.files, l, now, w.alive)
            case Got(got, stole) => got == l && (stole.None? <==> FileOf(l.node) !in w.files)
                                    && (stole.Some? ==> stole.value == AsRead(w.files[FileOf(l.node)], l.node))
            case Held(holder) => FileOf(l.node) in w.files && holder == AsRead(w.files[FileOf(l.node)], l.node)
  {
  }

  /** And the next reaping removes exactly the leases whose time and process have ended. */
  lemma ReapedExactly(w: World, f: string, now: int)
    requires FiledRight(w.files) && f in w.files
    ensures f !in After(w, ReapStep(now)).files <==>
            && w.files[f].Readable? && w.files[f].lease.expiresAt <= now
            && !(w.files[f].lease.pid > 0 && w.files[f].lease.pid in w.alive)
  {
    if w.files[f].Readable? { assert FileOf(w.files[f].lease.node) == f; }
    if f in FilesOf(Abandoned(w.files, now, w.alive)) {
      var q :| q in Abandoned(w.files, now, w.alive) && FileOf(q.node) == f;
      var g :| g in w.files && w.files[g].Readable? && w.files[g].lease == q;
      assert FileOf(q.node) == g;
    }
    if w.files[f].Readable? && Stealable(w.files[f].lease, now, w.alive) {
      assert w.files[f].lease in Abandoned(w.files, now, w.alive);
    }
  }
}
