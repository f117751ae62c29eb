/**
 The lease operations one file operation at a time: looking whether a file is there,
 reading it, creating it, writing it, truncating it, deleting it. Between any two of
 them any other process may run.

 At this grain the protocol is safe as long as every deletion meets two conditions:
 the file it deletes is the file its process had read under that name, and a file that
 its process could not read is nobody's, neither being written nor written since. Runs
 that break either of them end with two owners. Nothing is asked of a process that
 reads and then does not delete.
 */
module LeaseFiles {
  import opened Graph
  import opened Leases

  /** Which file it is, and what is in it. A process that has a file open writes to that file, whatever its name has become. */
  datatype File = File(ino: nat, content: Content)

  /** What a process found under a name. */
  datatype View = Nothing | View(ino: nat, content: Content)

  /** A lease the reaper read, and from which file. */
  datatype Found = Found(lease: Lease, ino: nat)

  datatype Purpose =
    | Steal(l: Lease)
    | Release(workerId: string, node: string)
    | Renew(workerId: string, node: string, expiresAt: int)

  /** Where a process is. Everything it does is synchronous, so it is in one place. */
  datatype Place =
    | Idle
    | Opened(l: Lease, ino: nat)            // file created, content not yet written
    | Missed(l: Lease)                      // exclusive create found a file
    | Looking(why: Purpose)                 // a file was there; about to read it
    | Seen(l: Lease, view: View)            // read the holder
    | Doomed(l: Lease, view: View)          // judged it expired and gone
    | Retrying(l: Lease)                    // about to create once more
    | Releasing(workerId: string, node: string, view: View)
    | Renewing(renewed: Lease)              // about to truncate
    | Rewriting(renewed: Lease, ino: nat)   // truncated, content not yet written
    | Reaping(names: set<string>, found: set<Found>, doomed: Option<Found>)

  datatype Sys = Sys(files: map<string, File>, next: nat, at: map<int, Place>, claims: set<Claim>)

  datatype Event =
    | Create(p: int, wanted: Lease)
    | Write(p: int)
    | Look(p: int)
    | Read(p: int)
    | Judge(p: int, now: int)
    | Delete(p: int)
    | Retry(p: int)
    | BeginRelease(p: int, workerId: string, node: string)
    | ReleaseDelete(p: int)
    | BeginRenew(p: int, workerId: string, node: string, expiresAt: int)
    | Truncate(p: int)
    | Rewrite(p: int)
    | ReapList(p: int)
    | ReapRead(p: int, f: string)
    | ReapJudge(p: int, one: Found, now: int)
    | ReapDelete(p: int)
    | ReapDone(p: int)
    | Crash(p: int)
    | Spawn(p: int)

  // ---- files and their writers ----

  datatype Target = Target(f: string, ino: nat)

  /** The file a process has open for writing. */
  function TargetOf(here: Place): Option<Target> {
    match here
    case Opened(l, ino) => Some(Target(FileOf(l.node), ino))
    case Rewriting(l, ino) => Some(Target(FileOf(l.node), ino))
    case _ => None
  }

  ghost predicate BeingWritten(s: Sys, f: string, ino: nat) {
    exists q | q in s.at :: TargetOf(s.at[q]) == Some(Target(f, ino))
  }

  function ViewOf(s: Sys, f: string): View {
    if f !in s.files then Nothing else View(s.files[f].ino, s.files[f].content)
  }

  /** A file that vanished after it was looked for reads like one that does not parse. */
  function ReadAs(view: View, node: string): Lease {
    AsRead(if view.Nothing? then Unreadable else view.content, node)
  }

  predicate Same(s: Sys, f: string, ino: nat) { f in s.files && s.files[f].ino == ino }

  // ---- the operations ----

  function PathOf(why: Purpose): string { FileOf(if why.Steal? then why.l.node else why.node) }

  /** A process uses no other process's worker id. */
  ghost predicate OwnId(s: Sys, p: int, workerId: string) {
    forall c | c in s.claims && c.workerId == workerId :: c.pid == p
  }

  function Moved(s: Sys, p: int, to: Place): Sys { s.(at := s.at[p := to]) }

  function Removed(s: Sys, f: string): Sys { s.(files := s.files - {f}) }

  /** What is written shows under the name only if the name still is that file's. */
  function Filled(s: Sys, f: string, ino: nat, c: Content): Sys {
    if Same(s, f, ino) then s.(files := s.files[f := File(ino, c)]) else s
  }

  function CreateAt(s: Sys, p: int, l: Lease, otherwise: Place): Sys {
    if FileOf(l.node) in s.files then Moved(s, p, otherwise)
    else Moved(s.(files := s.files[FileOf(l.node) := File(s.next, Unreadable)], next := s.next + 1), p, Opened(l, s.next))
  }

  /** Opening for a rewrite truncates what is there, or makes a file. */
  function TruncateAt(s: Sys, p: int, l: Lease): Sys {
    var f := FileOf(l.node);
    if f in s.files then Moved(Filled(s, f, s.files[f].ino, Unreadable), p, Rewriting(l, s.files[f].ino))
    else Moved(s.(files := s.files[f := File(s.next, Unreadable)], next := s.next + 1), p, Rewriting(l, s.next))
  }

  /** After reading, and comparing the worker on file with one's own. */
  function AfterRead(s: Sys, p: int, why: Purpose): Place {
    var view := ViewOf(s, PathOf(why));
    match why
    case Steal(l) => Seen(l, view)
    case Release(workerId, node) => if ReadAs(view, node).workerId == workerId then Releasing(workerId, node, view) else Idle
    case Renew(workerId, node, expiresAt) =>
      if ReadAs(view, node).workerId == workerId then Renewing(ReadAs(view, node).(expiresAt := expiresAt)) else Idle
  }

  function AfterReapRead(s: Sys, here: Place, f: string): Place
    requires here.Reaping?
  {
    var found := if f in s.files && s.files[f].content.Readable? then {Found(s.files[f].content.lease, s.files[f].ino)} else {};
    Reaping(here.names - {f}, here.found + found, None)
  }

  ghost predicate Enabled(s: Sys, e: Event) {
    if e.Spawn? then e.p > 0 && e.p !in s.at
    else
      e.p in s.at
      && var here := s.at[e.p];
         match e
         case Create(p, l) => here == Idle && l.pid == p
         case Write(_) => here.Opened?
         case Look(_) => here.Missed?
         case Read(p) => here.Looking? && (here.why.Release? ==> OwnId(s, p, here.why.workerId))
         case Judge(_, _) => here.Seen?
         case Delete(_) => here.Doomed?
         case Retry(_) => here.Retrying?
         case BeginRelease(_, _, _) => here == Idle
         case ReleaseDelete(_) => here.Releasing?
         case BeginRenew(p, workerId, node, _) => here == Idle && Claim(p, workerId, node) in s.claims
         case Truncate(_) => here.Renewing?
         case Rewrite(_) => here.Rewriting?
         case ReapList(_) => here == Idle
         case ReapRead(_, f) => here.Reaping? && f in here.names
         case ReapJudge(_, one, _) => here.Reaping? && here.names == {} && here.doomed.None? && one in here.found
         case ReapDelete(_) => here.Reaping? && here.doomed.Some?
         case ReapDone(_) => here.Reaping? && here.doomed.None?
         case Crash(_) => true
         case Spawn(_) => true
  }

  ghost function Do(s: Sys, e: Event): Sys
    requires Enabled(s, e)
  {
    if e.Spawn? then Moved(s, e.p, Idle)
    else
      var p := e.p;
      var here := s.at[p];
      match e
      case Create(_, l) => CreateAt(s, p, l, Missed(l))
      case Write(_) =>
        Moved(Filled(s, FileOf(here.l.node), here.ino, Readable(here.l)), p, Idle)
          .(claims := s.claims + {Claim(p, here.l.workerId, here.l.node)})
      case Look(_) => Moved(s, p, if FileOf(here.l.node) in s.files then Looking(Steal(here.l)) else Retrying(here.l))
      case Read(_) => Moved(s, p, AfterRead(s, p, here.why))
      case Judge(_, now) =>
        Moved(s, p, if Stealable(ReadAs(here.view, here.l.node), now, s.at.Keys) then Doomed(here.l, here.view) else Idle)
      case Delete(_) => Moved(Removed(s, FileOf(here.l.node)), p, Retrying(here.l))
      case Retry(_) => CreateAt(s, p, here.l, Idle)
      case BeginRelease(_, workerId, node) => Moved(s, p, if FileOf(node) in s.files then Looking(Release(workerId, node)) else Idle)
      case ReleaseDelete(_) =>
        Moved(Removed(s, FileOf(here.node)), p, Idle).(claims := Unclaimed(s.claims, here.workerId, here.node))
      case BeginRenew(_, workerId, node, expiresAt) =>
        Moved(s, p, if FileOf(node) in s.files then Looking(Renew(workerId, node, expiresAt)) else Idle)
      case Truncate(_) => TruncateAt(s, p, here.renewed)
      case Rewrite(_) => Moved(Filled(s, FileOf(here.renewed.node), here.ino, Readable(here.renewed)), p, Idle)
      case ReapList(_) => Moved(s, p, Reaping(s.files.Keys, {}, None))
      case ReapRead(_, f) => Moved(s, p, AfterReapRead(s, here, f))
      case ReapJudge(_, one, now) =>
        Moved(s, p, if Stealable(one.lease, now, s.at.Keys) then here.(doomed := Some(one)) else here.(found := here.found - {one}))
      case ReapDelete(_) =>
        Moved(Removed(s, FileOf(here.doomed.value.lease.node)), p, here.(found := here.found - {here.doomed.value}, doomed := None))
      case ReapDone(_) => Moved(s, p, Idle)
      case Crash(_) => s.(at := s.at - {p}, claims := set c | c in s.claims && c.pid != p)
  }

  /** The time of a lease is up and its process is gone. */
  predicate Over(l: Lease, now: int, running: set<int>) { l.expiresAt <= now && !(l.pid > 0 && l.pid in running) }

  /** A judgement dooms what was read exactly if its time is up and its process gone; only then can a deletion follow. */
  lemma JudgedExactly(s: Sys, e: Event)
    requires Enabled(s, e)
    ensures e.Judge? ==> var here := s.at[e.p];
              Do(s, e).files == s.files
              && Do(s, e).at[e.p] == if Over(ReadAs(here.view, here.l.node), e.now, s.at.Keys) then Doomed(here.l, here.view) else Idle
    ensures e.ReapJudge? ==>
              Do(s, e).files == s.files
              && (Enabled(Do(s, e), ReapDelete(e.p)) <==> Over(e.one.lease, e.now, s.at.Keys))
    ensures !e.Judge? && e.p in s.at && !s.at[e.p].Doomed? && e.p in Do(s, e).at ==> !Do(s, e).at[e.p].Doomed?
  {
  }

  // ---- the two conditions ----

  datatype Deletion = Deletion(f: string, view: View)

  /** What an event deletes, and what its process had read of it. */
  ghost function Deleting(s: Sys, e: Event): Option<Deletion> {
    if !Enabled(s, e) then None
    else
      match e
      case Delete(p) => Some(Deletion(FileOf(s.at[p].l.node), s.at[p].view))
      case ReleaseDelete(p) => Some(Deletion(FileOf(s.at[p].node), s.at[p].view))
      case ReapDelete(p) =>
        var x := s.at[p].doomed.value;
        Some(Deletion(FileOf(x.lease.node), View(x.ino, Readable(x.lease))))
      case _ => None
  }

  /** What is deleted, if anything is there, is the file that was read. */
  ghost predicate SameFile(s: Sys, e: Event) {
    match Deleting(s, e)
    case None => true
    case Some(d) => d.f in s.files ==> d.view.View? && d.view.ino == s.files[d.f].ino
  }

  /** And if it could not be read, it still cannot, and nobody is writing it. */
  ghost predicate Unattended(s: Sys, e: Event) {
    match Deleting(s, e)
    case None => true
    case Some(d) =>
      d.f in s.files && d.view.View? && d.view.content.Unreadable? ==>
        s.files[d.f].content.Unreadable? && !BeingWritten(s, d.f, s.files[d.f].ino)
  }

  // ---- the invariant ----

  ghost predicate NoClaimOn(s: Sys, f: string) {
    forall c | c in s.claims :: FileOf(c.node) != f
  }

  /** The holder on file; while a holder renews, it is the one writing the file. */
  ghost predicate Holds(s: Sys, c: Claim) {
    && IsAlive(s.at.Keys, c.pid) && FileOf(c.node) in s.files
    && match s.files[FileOf(c.node)].content
       case Readable(l) => l.pid == c.pid && l.workerId == c.workerId && l.node == c.node
       case Unreadable =>
         var here := s.at[c.pid];
         here.Rewriting? && here.ino == s.files[FileOf(c.node)].ino
         && here.renewed.workerId == c.workerId && here.renewed.node == c.node
  }

  /** Every live process is the holder of what it has acquired and not released, and no file has two holders. */
  ghost predicate Owned(s: Sys) {
    && (forall c | c in s.claims :: Holds(s, c))
    && forall c, d | c in s.claims && d in s.claims && FileOf(c.node) == FileOf(d.node) :: c == d
  }

  /** As long as the name is that file's, the file is what it was when `l` was read from it, renewals apart. */
  ghost predicate Still(s: Sys, f: string, ino: nat, l: Lease) {
    Same(s, f, ino) ==>
      match s.files[f].content
      case Readable(m) => m.pid == l.pid && m.workerId == l.workerId
      case Unreadable => forall q | q in s.at && TargetOf(s.at[q]) == Some(Target(f, ino)) :: RewritesAs(s.at[q], q, l)
  }

  ghost predicate RewritesAs(here: Place, q: int, l: Lease) {
    here.Rewriting? && here.renewed.pid == l.pid == q && here.renewed.workerId == l.workerId
  }

  ghost predicate ViewOk(s: Sys, f: string, view: View) {
    view.View? ==> view.ino < s.next && (view.content.Readable? ==> Still(s, f, view.ino, view.content.lease))
  }

  /** A lease was read, and the name still is its file's. */
  ghost predicate Current(s: Sys, f: string, view: View) {
    view.View? && view.content.Readable? && Same(s, f, view.ino)
  }

  ghost predicate ReapOk(s: Sys, x: Found) {
    x.ino < s.next && Still(s, FileOf(x.lease.node), x.ino, x.lease)
  }

  ghost predicate DoomOk(s: Sys, x: Found) {
    Same(s, FileOf(x.lease.node), x.ino) ==> NoClaimOn(s, FileOf(x.lease.node))
  }

  ghost predicate PlaceOk(s: Sys, p: int)
    requires p in s.at
  {
    match s.at[p]
    case Idle => true
    case Opened(l, ino) =>
      l.pid == p && ino < s.next && Same(s, FileOf(l.node), ino) && s.files[FileOf(l.node)].content.Unreadable?
    case Missed(l) => l.pid == p
    case Looking(why) => (why.Steal? ==> why.l.pid == p) && (why.Renew? ==> Claim(p, why.workerId, why.node) in s.claims)
    case Seen(l, view) => l.pid == p && ViewOk(s, FileOf(l.node), view)
    case Doomed(l, view) =>
      l.pid == p && ViewOk(s, FileOf(l.node), view) && (Current(s, FileOf(l.node), view) ==> NoClaimOn(s, FileOf(l.node)))
    case Retrying(l) => l.pid == p
    case Releasing(workerId, node, view) =>
      && ViewOk(s, FileOf(node), view)
      && (Current(s, FileOf(node), view) ==>
            forall c | c in s.claims && FileOf(c.node) == FileOf(node) :: c.pid == p && c.workerId == workerId)
    case Renewing(l) => l.pid == p && Claim(p, l.workerId, l.node) in s.claims
    case Rewriting(l, ino) =>
      && l.pid == p && Claim(p, l.workerId, l.node) in s.claims && ino < s.next
      && Same(s, FileOf(l.node), ino) && s.files[FileOf(l.node)].content.Unreadable?
    case Reaping(_, found, doomed) =>
      && (forall x | x in found :: ReapOk(s, x))
      && (doomed.Some? ==> doomed.value in found && DoomOk(s, doomed.value))
  }

  /** No two processes have the same file open. */
  ghost predicate OneWriter(s: Sys) {
    forall p, q | p in s.at && q in s.at && p != q && TargetOf(s.at[p]).Some? :: TargetOf(s.at[p]) != TargetOf(s.at[q])
  }

  ghost predicate FilesOk(s: Sys) {
    forall f | f in s.files ::
      s.files[f].ino < s.next && (s.files[f].content.Readable? ==> FileOf(s.files[f].content.lease.node) == f)
  }

  ghost predicate Inv(s: Sys) {
    && (forall p | p in s.at :: p > 0 && PlaceOk(s, p))
    && Owned(s) && FilesOk(s) && OneWriter(s)
  }

  // ---- preservation, one kind of event at a time ----

  lemma UnreadableUnclaimed(s: Sys, f: string)
    requires Owned(s) && f in s.files && s.files[f].content.Unreadable? && !BeingWritten(s, f, s.files[f].ino)
    ensures NoClaimOn(s, f)
  {
    forall c | c in s.claims ensures FileOf(c.node) != f { assert Holds(s, c); }
  }

  lemma AbsentUnclaimed(s: Sys, f: string)
    requires Owned(s) && f !in s.files
    ensures NoClaimOn(s, f)
  {
    forall c | c in s.claims ensures FileOf(c.node) != f { assert Holds(s, c); }
  }

  /** A file whose holder is not running is nobody's claim. */
  lemma DeadUnclaimed(s: Sys, f: string, ino: nat, l: Lease)
    requires Owned(s) && Still(s, f, ino, l) && !IsAlive(s.at.Keys, l.pid)
    ensures Same(s, f, ino) ==> NoClaimOn(s, f)
  {
    if Same(s, f, ino) {
      forall c | c in s.claims ensures FileOf(c.node) != f { assert Holds(s, c); }
    }
  }

  /** A file is a reader's business through its name, its content and its writers alone. */
  lemma StillStays(s: Sys, s': Sys, f: string, ino: nat, l: Lease)
    requires Still(s, f, ino, l)
    requires Same(s', f, ino) ==> f in s.files && s'.files[f] == s.files[f]
    requires forall q | q in s'.at && TargetOf(s'.at[q]) == Some(Target(f, ino)) :: q in s.at && s.at[q] == s'.at[q]
    ensures Still(s', f, ino, l)
  {
  }

  /** What readers rely on is kept. */
  ghost predicate StillsKept(s: Sys, s': Sys) {
    s.next <= s'.next && forall f, ino: nat, l | ino < s.next && Still(s, f, ino, l) :: Still(s', f, ino, l)
  }

  /** No file that somebody has read and that still has its name gets a new claim. */
  ghost predicate ClaimsKept(s: Sys, s': Sys) {
    forall f, ino: nat, l | ino < s.next && Still(s, f, ino, l) && Same(s', f, ino) ::
      Same(s, f, ino) && forall c | c in s'.claims && FileOf(c.node) == f :: c in s.claims
  }

  /** A file that is open for writing is not touched. */
  ghost predicate TargetKept(s: Sys, s': Sys, here: Place) {
    TargetOf(here).Some? ==>
      var f := TargetOf(here).value.f;
      f in s.files && f in s'.files && s'.files[f] == s.files[f]
  }

  /** A process that does nothing stays where it suits. */
  lemma PlaceStays(s: Sys, s': Sys, q: int)
    requires q in s.at && q in s'.at && s'.at[q] == s.at[q] && PlaceOk(s, q)
    requires StillsKept(s, s') && ClaimsKept(s, s') && TargetKept(s, s', s.at[q])
    requires forall c | c in s.claims && c.pid == q :: c in s'.claims
    ensures PlaceOk(s', q)
  {
  }

  lemma FilesSameKept(s: Sys, s': Sys)
    requires s'.files == s.files && s'.next == s.next && s'.claims <= s.claims
    requires forall q | q in s'.at && TargetOf(s'.at[q]).Some? :: q in s.at && s.at[q] == s'.at[q]
    ensures StillsKept(s, s') && ClaimsKept(s, s')
  {
    forall f, ino: nat, l | Still(s, f, ino, l) ensures Still(s', f, ino, l) { StillStays(s, s', f, ino, l); }
  }

  /** Moving one process that has nothing open, to a place that suits it. */
  lemma MoveKeeps(s: Sys, p: int, to: Place)
    requires Inv(s) && p in s.at && TargetOf(s.at[p]).None? && TargetOf(to).None?
    requires PlaceOk(Moved(s, p, to), p)
    ensures Inv(Moved(s, p, to))
  {
    var s' := Moved(s, p, to);
    assert s'.at.Keys == s.at.Keys;
    FilesSameKept(s, s');
    forall q | q in s'.at ensures q > 0 && PlaceOk(s', q) {
      if q != p {
        assert PlaceOk(s, q);
        PlaceStays(s, s', q);
      }
    }
    forall c | c in s'.claims ensures Holds(s', c) { assert Holds(s, c); }
  }

  lemma CreateKeeps(s: Sys, p: int, l: Lease, otherwise: Place)
    requires Inv(s) && p in s.at && l.pid == p && TargetOf(s.at[p]).None?
    requires otherwise == Idle || otherwise == Missed(l)
    ensures Inv(CreateAt(s, p, l, otherwise))
  {
    var f := FileOf(l.node);
    if f in s.files {
      MoveKeeps(s, p, otherwise);
    } else {
      var s' := CreateAt(s, p, l, otherwise);
      assert s'.at.Keys == s.at.Keys;
      AbsentUnclaimed(s, f);
      forall g, ino: nat, m | Still(s, g, ino, m) && ino < s.next ensures Still(s', g, ino, m) { StillStays(s, s', g, ino, m); }
      forall q | q in s'.at ensures q > 0 && PlaceOk(s', q) {
        if q != p {
          assert PlaceOk(s, q);
          PlaceStays(s, s', q);
        }
      }
      forall c | c in s'.claims ensures Holds(s', c) { assert Holds(s, c); }
      forall q | q in s.at && q != p ensures TargetOf(s.at[q]) != Some(Target(f, s.next)) { assert PlaceOk(s, q); }
    }
  }

  /** Whoever has a file open that it created: nobody has read a lease from that file. */
  lemma OpenedUnread(s: Sys, p: int, ino: nat, l: Lease)
    requires p in s.at && s.at[p].Opened? && PlaceOk(s, p)
    ensures Still(s, FileOf(s.at[p].l.node), ino, l) ==> ino != s.at[p].ino
  {
    assert TargetOf(s.at[p]) == Some(Target(FileOf(s.at[p].l.node), s.at[p].ino));
  }

  lemma OpenedUnclaimed(s: Sys, p: int)
    requires Inv(s) && p in s.at && s.at[p].Opened?
    ensures NoClaimOn(s, FileOf(s.at[p].l.node))
  {
    assert PlaceOk(s, p);
    forall c | c in s.claims ensures FileOf(c.node) != FileOf(s.at[p].l.node) {
      assert Holds(s, c);
      assert c.pid != p ==> TargetOf(s.at[p]) != TargetOf(s.at[c.pid]);
    }
  }

  lemma WriteKeeps(s: Sys, p: int)
    requires Inv(s) && p in s.at && s.at[p].Opened?
    ensures Inv(Do(s, Write(p)))
  {
    var l, ino := s.at[p].l, s.at[p].ino;
    var f := FileOf(l.node);
    assert PlaceOk(s, p);
    OpenedUnclaimed(s, p);
    var s' := Do(s, Write(p));
    assert s'.at.Keys == s.at.Keys;
    assert s'.files == s.files[f := File(ino, Readable(l))];
    forall g, i: nat, m | i < s.next && Still(s, g, i, m) ensures !(g == f && i == ino) && Still(s', g, i, m) {
      if g == f { OpenedUnread(s, p, i, m); }
      StillStays(s, s', g, i, m);
    }
    forall q | q in s'.at ensures q > 0 && PlaceOk(s', q) {
      if q != p {
        assert PlaceOk(s, q);
        assert TargetOf(s.at[p]) != TargetOf(s.at[q]);
        PlaceStays(s, s', q);
      }
    }
    forall c | c in s'.claims ensures Holds(s', c) {
      if c in s.claims { assert Holds(s, c); }
    }
  }

  /** What it means to have a file open: the name is the file's, nothing is in it, and a rewriter has its claim. */
  lemma WriterFacts(s: Sys, q: int)
    requires Inv(s) && q in s.at && TargetOf(s.at[q]).Some?
    ensures var t := TargetOf(s.at[q]).value;
            && t.f in s.files && s.files[t.f] == File(t.ino, Unreadable)
            && (s.at[q].Rewriting? ==> !NoClaimOn(s, t.f))
  {
    assert PlaceOk(s, q);
  }

  lemma TruncateKeeps(s: Sys, p: int)
    requires Inv(s) && p in s.at && s.at[p].Renewing?
    ensures Inv(Do(s, Truncate(p)))
  {
    var l := s.at[p].renewed;
    var f, mine := FileOf(l.node), Claim(p, l.workerId, l.node);
    assert PlaceOk(s, p) && Holds(s, mine);
    var ino := s.files[f].ino;
    var s' := Do(s, Truncate(p));
    assert s'.at.Keys == s.at.Keys;
    assert s'.files == s.files[f := File(ino, Unreadable)];
    forall q | q in s.at && TargetOf(s.at[q]).Some? ensures TargetOf(s.at[q]).value.f != f { WriterFacts(s, q); }
    forall g, i: nat, m | i < s.next && Still(s, g, i, m) ensures Still(s', g, i, m) {
      if !(g == f && i == ino) { StillStays(s, s', g, i, m); }
    }
    forall q | q in s'.at ensures q > 0 && PlaceOk(s', q) {
      if q != p {
        assert PlaceOk(s, q);
        PlaceStays(s, s', q);
      }
    }
    forall c | c in s'.claims ensures Holds(s', c) { assert Holds(s, c); }
  }

  lemma RewriteKeeps(s: Sys, p: int)
    requires Inv(s) && p in s.at && s.at[p].Rewriting?
    ensures Inv(Do(s, Rewrite(p)))
  {
    var l, ino := s.at[p].renewed, s.at[p].ino;
    var f := FileOf(l.node);
    assert PlaceOk(s, p);
    var s' := Do(s, Rewrite(p));
    assert s'.at.Keys == s.at.Keys;
    assert s'.files == s.files[f := File(ino, Readable(l))];
    forall g, i: nat, m | i < s.next && Still(s, g, i, m) ensures Still(s', g, i, m) {
      if g == f && i == ino {
        assert RewritesAs(s.at[p], p, m);
      } else {
        StillStays(s, s', g, i, m);
      }
    }
    forall q | q in s'.at ensures q > 0 && PlaceOk(s', q) {
      if q != p {
        assert PlaceOk(s, q);
        assert TargetOf(s.at[p]) != TargetOf(s.at[q]);
        PlaceStays(s, s', q);
      }
    }
    forall c | c in s'.claims ensures Holds(s', c) { assert Holds(s, c); }
  }

  /** Deleting a file that is nobody's claim and that nobody is writing. */
  lemma RemoveKeeps(s: Sys, p: int, f: string, to: Place)
    requires Inv(s) && p in s.at && TargetOf(s.at[p]).None? && TargetOf(to).None?
    requires NoClaimOn(s, f) && (f in s.files ==> !BeingWritten(s, f, s.files[f].ino))
    requires PlaceOk(Moved(Removed(s, f), p, to), p)
    ensures Inv(Moved(Removed(s, f), p, to))
  {
    var s' := Moved(Removed(s, f), p, to);
    assert s'.at.Keys == s.at.Keys;
    forall g, i: nat, m | i < s.next && Still(s, g, i, m) ensures Still(s', g, i, m) { StillStays(s, s', g, i, m); }
    forall q | q in s'.at ensures q > 0 && PlaceOk(s', q) {
      if q != p {
        assert PlaceOk(s, q);
        if TargetOf(s.at[q]).Some? { WriterFacts(s, q); }
        PlaceStays(s, s', q);
      }
    }
    forall c | c in s'.claims ensures Holds(s', c) { assert Holds(s, c); }
  }

  /** Nobody is writing a file from which a lease was read, unless the lease's holder renews it. */
  lemma ReadUnwritten(s: Sys, f: string, ino: nat, l: Lease)
    requires Inv(s) && Same(s, f, ino) && Still(s, f, ino, l) && NoClaimOn(s, f)
    ensures !BeingWritten(s, f, ino)
  {
    forall q | q in s.at ensures TargetOf(s.at[q]) != Some(Target(f, ino)) {
      if TargetOf(s.at[q]).Some? { WriterFacts(s, q); }
    }
  }

  /** Under both conditions a deletion hits a file that nobody writes, and nobody's claim but a releaser's own. */
  lemma CleanDeletion(s: Sys, f: string, view: View)
    requires Inv(s) && ViewOk(s, f, view) && f in s.files && view.View? && view.ino == s.files[f].ino
    requires view.content.Unreadable? ==> s.files[f].content.Unreadable? && !BeingWritten(s, f, view.ino)
    requires view.content.Readable? ==> NoClaimOn(s, f)
    ensures NoClaimOn(s, f) && !BeingWritten(s, f, s.files[f].ino)
  {
    if view.content.Readable? {
      ReadUnwritten(s, f, view.ino, view.content.lease);
    } else {
      UnreadableUnclaimed(s, f);
    }
  }

  lemma DeleteKeeps(s: Sys, p: int)
    requires Inv(s) && p in s.at && s.at[p].Doomed? && SameFile(s, Delete(p)) && Unattended(s, Delete(p))
    ensures Inv(Do(s, Delete(p)))
  {
    var l, view := s.at[p].l, s.at[p].view;
    var f := FileOf(l.node);
    assert PlaceOk(s, p);
    if f in s.files { CleanDeletion(s, f, view); } else { AbsentUnclaimed(s, f); }
    RemoveKeeps(s, p, f, Retrying(l));
  }

  lemma ReapDeleteKeeps(s: Sys, p: int)
    requires Inv(s) && p in s.at && s.at[p].Reaping? && s.at[p].doomed.Some? && SameFile(s, ReapDelete(p))
    ensures Inv(Do(s, ReapDelete(p)))
  {
    var here := s.at[p];
    var x := here.doomed.value;
    var f := FileOf(x.lease.node);
    assert PlaceOk(s, p) && ReapOk(s, x) && DoomOk(s, x);
    if f in s.files { ReadUnwritten(s, f, x.ino, x.lease); } else { AbsentUnclaimed(s, f); }
    var to := here.(found := here.found - {x}, doomed := None);
    var s' := Moved(Removed(s, f), p, to);
    forall y | y in to.found ensures ReapOk(s', y) {
      assert ReapOk(s, y);
      StillStays(s, s', FileOf(y.lease.node), y.ino, y.lease);
    }
    RemoveKeeps(s, p, f, to);
  }

  /** A process in the middle of a release gives up claims of its own. */
  lemma DropClaimsKeeps(s: Sys, p: int, claims: set<Claim>)
    requires Inv(s) && p in s.at && s.at[p].Releasing? && claims <= s.claims
    requires forall c | c in s.claims && c !in claims :: c.pid == p
    ensures Inv(s.(claims := claims))
  {
    var s' := s.(claims := claims);
    FilesSameKept(s, s');
    forall q | q in s'.at ensures q > 0 && PlaceOk(s', q) {
      assert PlaceOk(s, q);
      if q != p { PlaceStays(s, s', q); }
    }
    forall c | c in s'.claims ensures Holds(s', c) { assert Holds(s, c); }
  }

  /** Under both conditions what a release gives up is its own, and nobody else's claim is on the file. */
  lemma ReleaseClaims(s: Sys, p: int)
    requires Inv(s) && p in s.at && s.at[p].Releasing? && SameFile(s, ReleaseDelete(p)) && Unattended(s, ReleaseDelete(p))
    ensures forall c | c in s.claims && FileOf(c.node) == FileOf(s.at[p].node) :: c.pid == p && c.workerId == s.at[p].workerId
  {
    var f, view := FileOf(s.at[p].node), s.at[p].view;
    assert PlaceOk(s, p);
    if f !in s.files {
      AbsentUnclaimed(s, f);
    } else if view.content.Unreadable? {
      UnreadableUnclaimed(s, f);
    }
  }

  lemma ReleaseKeeps(s: Sys, p: int)
    requires Inv(s) && p in s.at && s.at[p].Releasing? && SameFile(s, ReleaseDelete(p)) && Unattended(s, ReleaseDelete(p))
    ensures Inv(Do(s, ReleaseDelete(p)))
  {
    var here := s.at[p];
    var f := FileOf(here.node);
    var claims := Unclaimed(s.claims, here.workerId, here.node);
    ReleaseClaims(s, p);
    DropClaimsKeeps(s, p, claims);
    var t := s.(claims := claims);
    assert NoClaimOn(t, f);
    assert PlaceOk(t, p);
    if f in t.files { CleanDeletion(t, f, here.view); }
    RemoveKeeps(t, p, f, Idle);
    assert Do(s, ReleaseDelete(p)) == Moved(Removed(t, f), p, Idle);
  }

  lemma CrashKeeps(s: Sys, p: int)
    requires Inv(s) && p in s.at
    ensures Inv(Do(s, Crash(p)))
  {
    var s' := Do(s, Crash(p));
    FilesSameKept(s, s');
    forall q | q in s'.at ensures q > 0 && PlaceOk(s', q) {
      assert PlaceOk(s, q);
      PlaceStays(s, s', q);
    }
    forall c | c in s'.claims ensures Holds(s', c) { assert Holds(s, c); }
  }

  lemma SpawnKeeps(s: Sys, p: int)
    requires Inv(s) && p > 0 && p !in s.at
    ensures Inv(Do(s, Spawn(p)))
  {
    var s' := Do(s, Spawn(p));
    FilesSameKept(s, s');
    forall q | q in s'.at ensures q > 0 && PlaceOk(s', q) {
      if q != p {
        assert PlaceOk(s, q);
        PlaceStays(s, s', q);
      }
    }
    forall c | c in s'.claims ensures Holds(s', c) { assert Holds(s, c); }
  }

  lemma ReleaseReadKeeps(s: Sys, p: int, workerId: string, node: string)
    requires Inv(s) && p in s.at && s.at[p] == Looking(Release(workerId, node)) && OwnId(s, p, workerId)
    ensures Inv(Moved(s, p, AfterRead(s, p, s.at[p].why)))
  {
    var f := FileOf(node);
    forall c | c in s.claims && FileOf(c.node) == f && s.files[f].content.Readable?
               && s.files[f].content.lease.workerId == workerId
      ensures c.pid == p && c.workerId == workerId
    {
      assert Holds(s, c);
    }
    MoveKeeps(s, p, AfterRead(s, p, s.at[p].why));
  }

  lemma RenewReadKeeps(s: Sys, p: int, workerId: string, node: string, expiresAt: int)
    requires Inv(s) && p in s.at && s.at[p] == Looking(Renew(workerId, node, expiresAt))
    ensures Inv(Moved(s, p, AfterRead(s, p, s.at[p].why)))
  {
    assert PlaceOk(s, p) && Holds(s, Claim(p, workerId, node));
    MoveKeeps(s, p, AfterRead(s, p, s.at[p].why));
  }

  lemma ReadKeeps(s: Sys, p: int)
    requires Inv(s) && Enabled(s, Read(p))
    ensures Inv(Do(s, Read(p)))
  {
    assert PlaceOk(s, p);
    match s.at[p].why
    case Steal(_) => MoveKeeps(s, p, AfterRead(s, p, s.at[p].why));
    case Release(workerId, node) => ReleaseReadKeeps(s, p, workerId, node);
    case Renew(workerId, node, expiresAt) => RenewReadKeeps(s, p, workerId, node, expiresAt);
  }

  lemma JudgeKeeps(s: Sys, p: int, now: int)
    requires Inv(s) && p in s.at && s.at[p].Seen?
    ensures Inv(Do(s, Judge(p, now)))
  {
    var l, view := s.at[p].l, s.at[p].view;
    assert PlaceOk(s, p);
    if Stealable(ReadAs(view, l.node), now, s.at.Keys) {
      if view.View? && view.content.Readable? { DeadUnclaimed(s, FileOf(l.node), view.ino, view.content.lease); }
      PlaceMoves(s, p, Doomed(l, view));
      MoveKeeps(s, p, Doomed(l, view));
    } else {
      MoveKeeps(s, p, Idle);
    }
  }

  /** What was read stays good when only its reader moves. */
  lemma PlaceMoves(s: Sys, p: int, to: Place)
    requires p in s.at && TargetOf(s.at[p]).None? && TargetOf(to).None?
    ensures forall f, ino: nat, l | Still(s, f, ino, l) :: Still(Moved(s, p, to), f, ino, l)
  {
    var s' := Moved(s, p, to);
    forall f, ino: nat, l | Still(s, f, ino, l) ensures Still(s', f, ino, l) { StillStays(s, s', f, ino, l); }
  }

  lemma ReapReadKeeps(s: Sys, p: int, f: string)
    requires Inv(s) && Enabled(s, ReapRead(p, f))
    ensures Inv(Do(s, ReapRead(p, f)))
  {
    var to := AfterReapRead(s, s.at[p], f);
    assert PlaceOk(s, p);
    PlaceMoves(s, p, to);
    forall x | x in to.found ensures ReapOk(Moved(s, p, to), x) {
      if x in s.at[p].found { assert ReapOk(s, x); }
    }
    MoveKeeps(s, p, to);
  }

  lemma ReapJudgeKeeps(s: Sys, p: int, x: Found, now: int)
    requires Inv(s) && Enabled(s, ReapJudge(p, x, now))
    ensures Inv(Do(s, ReapJudge(p, x, now)))
  {
    var here := s.at[p];
    assert PlaceOk(s, p) && ReapOk(s, x);
    var to := if Stealable(x.lease, now, s.at.Keys) then here.(doomed := Some(x)) else here.(found := here.found - {x});
    if Stealable(x.lease, now, s.at.Keys) { DeadUnclaimed(s, FileOf(x.lease.node), x.ino, x.lease); }
    PlaceMoves(s, p, to);
    forall y | y in to.found ensures ReapOk(Moved(s, p, to), y) { assert ReapOk(s, y); }
    MoveKeeps(s, p, to);
  }

  /** Every event keeps the invariant; only deletions have conditions. */
  lemma EventKeeps(s: Sys, e: Event)
    requires Inv(s) && Enabled(s, e) && SameFile(s, e) && Unattended(s, e)
    ensures Inv(Do(s, e))
  {
    if e.Spawn? {
      SpawnKeeps(s, e.p);
    } else {
      var here := s.at[e.p];
      assert PlaceOk(s, e.p);
      match e
      case Create(p, l) => CreateKeeps(s, p, l, Missed(l));
      case Write(p) => WriteKeeps(s, p);
      case Look(p) => MoveKeeps(s, p, if FileOf(here.l.node) in s.files then Looking(Steal(here.l)) else Retrying(here.l));
      case Read(p) => ReadKeeps(s, p);
      case Judge(p, now) => JudgeKeeps(s, p, now);
      case Delete(p) => DeleteKeeps(s, p);
      case Retry(p) => CreateKeeps(s, p, here.l, Idle);
      case BeginRelease(p, workerId, node) =>
        MoveKeeps(s, p, if FileOf(node) in s.files then Looking(Release(workerId, node)) else Idle);
      case ReleaseDelete(p) => ReleaseKeeps(s, p);
      case BeginRenew(p, workerId, node, expiresAt) =>
        MoveKeeps(s, p, if FileOf(node) in s.files then Looking(Renew(workerId, node, expiresAt)) else Idle);
      case Truncate(p) => TruncateKeeps(s, p);
      case Rewrite(p) => RewriteKeeps(s, p);
      case ReapList(p) => MoveKeeps(s, p, Reaping(s.files.Keys, {}, None));
      case ReapRead(p, f) => ReapReadKeeps(s, p, f);
      case ReapJudge(p, x, now) => ReapJudgeKeeps(s, p, x, now);
      case ReapDelete(p) => ReapDeleteKeeps(s, p);
      case ReapDone(p) => MoveKeeps(s, p, Idle);
      case Crash(p) => CrashKeeps(s, p);
    }
  }

  // ---- whole runs ----

  /** A run: each event is possible where it happens, and `ok` there. */
  ghost predicate IsRun(s: Sys, es: seq<Event>, ok: (Sys, Event) -> bool)
    decreases |es|
  {
    es == [] || (Enabled(s, es[0]) && ok(s, es[0]) && IsRun(Do(s, es[0]), es[1..], ok))
  }

  ghost function After(s: Sys, es: seq<Event>): Sys
    decreases |es|
  {
    if es == [] then s else After(if Enabled(s, es[0]) then Do(s, es[0]) else s, es[1..])
  }

  /** Everyone idle, nothing claimed, any leftover lease files. */
  ghost predicate Start(s: Sys) {
    s.claims == {} && FilesOk(s) && forall p | p in s.at :: p > 0 && s.at[p] == Idle
  }

  ghost predicate TwoOwners(s: Sys) {
    exists c, d | c in s.claims && d in s.claims ::
      c.pid in s.at && d.pid in s.at && c.pid != d.pid && FileOf(c.node) == FileOf(d.node)
  }

  lemma {:induction false} RunKeeps(s: Sys, es: seq<Event>)
    requires Inv(s) && IsRun(s, es, SameFile) && IsRun(s, es, Unattended)
    ensures Inv(After(s, es))
    decreases |es|
  {
    if es != [] {
      EventKeeps(s, es[0]);
      RunKeeps(Do(s, es[0]), es[1..]);
    }
  }

  /**
   Over every interleaving of single file operations in which every deletion hits the
   file that was read and no file that was unreadable because somebody writes it, every
   live process is the holder of what it has acquired, and no file has two owners.
   */
  lemma FileOperationsAreSafe(s: Sys, es: seq<Event>)
    requires Start(s) && IsRun(s, es, SameFile) && IsRun(s, es, Unattended)
    ensures Owned(After(s, es)) && !TwoOwners(After(s, es))
  {
    RunKeeps(s, es);
  }

  // ---- neither condition can be dropped ----

  /** From here some run, `ok` all along, ends with two owners. */
  ghost predicate CanBreak(s: Sys, ok: (Sys, Event) -> bool) {
    exists es :: IsRun(s, es, ok) && TwoOwners(After(s, es))
  }

  /** Only deletions have conditions. */
  ghost predicate AsksDeletionsOnly(ok: (Sys, Event) -> bool) {
    forall t, e | Deleting(t, e).None? :: ok(t, e)
  }

  lemma BreaksAfter(s: Sys, e: Event, ok: (Sys, Event) -> bool)
    requires Enabled(s, e) && ok(s, e) && CanBreak(Do(s, e), ok)
    ensures CanBreak(s, ok)
  {
    var es :| IsRun(Do(s, e), es, ok) && TwoOwners(After(Do(s, e), es));
    assert ([e] + es)[0] == e && ([e] + es)[1..] == es;
    assert IsRun(s, [e] + es, ok) && TwoOwners(After(s, [e] + es));
  }

  lemma BreaksNow(s: Sys, c: Claim, d: Claim, ok: (Sys, Event) -> bool)
    requires c in s.claims && d in s.claims && c.pid in s.at && d.pid in s.at && c.pid != d.pid && c.node == d.node
    ensures CanBreak(s, ok)
  {
    assert IsRun(s, [], ok) && TwoOwners(After(s, []));
  }

  function ClaimOf(l: Lease): Claim { Claim(l.pid, l.workerId, l.node) }

  /** The process has made the lease its own. */
  ghost function Taken(s: Sys, l: Lease): Sys {
    Sys(s.files[FileOf(l.node) := File(s.next, Readable(l))], s.next + 1, s.at[l.pid := Idle], s.claims + {ClaimOf(l)})
  }

  /** Creating and writing, when there is no file. */
  lemma Acquires(s: Sys, l: Lease, ok: (Sys, Event) -> bool)
    requires AsksDeletionsOnly(ok) && l.pid in s.at && FileOf(l.node) !in s.files
    requires s.at[l.pid] == Idle || s.at[l.pid] == Retrying(l)
    requires CanBreak(Taken(s, l), ok)
    ensures CanBreak(s, ok)
  {
    var e := if s.at[l.pid] == Idle then Create(l.pid, l) else Retry(l.pid);
    var s1 := Do(s, e);
    assert s1.at == s.at[l.pid := Opened(l, s.next)];
    var s2 := Do(s1, Write(l.pid));
    assert s2.at == s.at[l.pid := Idle] && s2.files == Taken(s, l).files;
    assert s2 == Taken(s, l);
    BreaksAfter(s1, Write(l.pid), ok);
    BreaksAfter(s, e, ok);
  }

  /** Deleting what is there and taking the name over. */
  lemma Steals(s: Sys, p: int, l: Lease, view: View, ok: (Sys, Event) -> bool)
    requires AsksDeletionsOnly(ok) && p in s.at && s.at[p] == Doomed(l, view) && l.pid == p && ok(s, Delete(p))
    requires CanBreak(Taken(s, l), ok)
    ensures CanBreak(s, ok)
  {
    var s1 := Do(s, Delete(p));
    assert Taken(s1, l).files == Taken(s, l).files && Taken(s1, l).at == Taken(s, l).at;
    Acquires(s1, l, ok);
    BreaksAfter(s, Delete(p), ok);
  }

  /** A doomed name that another process owns: two owners. */
  lemma DoomedBreaks(s: Sys, p: int, l: Lease, view: View, c: Claim, ok: (Sys, Event) -> bool)
    requires AsksDeletionsOnly(ok) && p in s.at && s.at[p] == Doomed(l, view) && l.pid == p && ok(s, Delete(p))
    requires c in s.claims && c.pid in s.at && c.pid != p && c.node == l.node
    ensures CanBreak(s, ok)
  {
    BreaksNow(Taken(s, l), c, ClaimOf(l), ok);
    Steals(s, p, l, view, ok);
  }

  /** Failing to create, looking, reading. */
  lemma Reads(s: Sys, l: Lease, ok: (Sys, Event) -> bool)
    requires AsksDeletionsOnly(ok) && l.pid in s.at && s.at[l.pid] == Idle && FileOf(l.node) in s.files
    requires CanBreak(Moved(s, l.pid, Seen(l, ViewOf(s, FileOf(l.node)))), ok)
    ensures CanBreak(s, ok)
  {
    var s1 := Do(s, Create(l.pid, l));
    var s2 := Do(s1, Look(l.pid));
    var s3 := Do(s2, Read(l.pid));
    assert s3 == Moved(s, l.pid, Seen(l, ViewOf(s, FileOf(l.node))));
    BreaksAfter(s2, Read(l.pid), ok);
    BreaksAfter(s1, Look(l.pid), ok);
    BreaksAfter(s, Create(l.pid, l), ok);
  }

  /** Judging what was read expired and gone. */
  lemma Judges(s: Sys, p: int, l: Lease, view: View, ok: (Sys, Event) -> bool)
    requires AsksDeletionsOnly(ok) && p in s.at && s.at[p] == Seen(l, view) && Stealable(ReadAs(view, l.node), 0, s.at.Keys)
    requires CanBreak(Moved(s, p, Doomed(l, view)), ok)
    ensures CanBreak(s, ok)
  {
    BreaksAfter(s, Judge(p, 0), ok);
  }

  lemma BothAskDeletionsOnly()
    ensures AsksDeletionsOnly(SameFile) && AsksDeletionsOnly(Unattended)
  {
  }

  /** Processes 1 and 2 want the same node. */
  ghost predicate Rivals(l1: Lease, l2: Lease) {
    l1.node == l2.node && l1.pid == 1 && l2.pid == 2
  }

  ghost function Fresh(): Sys { Sys(map[], 0, map[1 := Idle, 2 := Idle], {}) }

  /** Reading a file before its content is written, and taking it over after: the file is the same all along. */
  lemma Misreads(s: Sys, l: Lease, e: Event, c: Claim)
    requires l.pid in s.at && s.at[l.pid] == Idle && FileOf(l.node) in s.files && s.files[FileOf(l.node)].content.Unreadable?
    requires var s' := Moved(s, l.pid, Doomed(l, ViewOf(s, FileOf(l.node))));
             && Enabled(s', e) && Deleting(s', e).None?
             && var t := Do(s', e);
                && l.pid in t.at && t.at[l.pid] == s'.at[l.pid] && Same(t, FileOf(l.node), s.files[FileOf(l.node)].ino)
                && c in t.claims && c.pid in t.at && c.pid != l.pid && c.node == l.node
    ensures CanBreak(s, SameFile)
  {
    BothAskDeletionsOnly();
    var view := ViewOf(s, FileOf(l.node));
    var s1 := Moved(s, l.pid, Seen(l, view));
    var s2 := Moved(s1, l.pid, Doomed(l, view));
    assert s2 == Moved(s, l.pid, Doomed(l, view));
    DoomedBreaks(Do(s2, e), l.pid, l, view, c, SameFile);
    BreaksAfter(s2, e, SameFile);
    Judges(s1, l.pid, l, view, SameFile);
    Reads(s, l, SameFile);
  }

  /**
   A file read while it is being created: process 2 takes it for an abandoned lease;
   process 1 finishes, and 2 deletes the very file it read and makes its own.
   */
  lemma TornCreationBreaks(l1: Lease, l2: Lease)
    requires Rivals(l1, l2)
    ensures Start(Fresh()) && CanBreak(Fresh(), SameFile)
  {
    var s1 := Do(Fresh(), Create(1, l1));
    Misreads(s1, l2, Write(1), ClaimOf(l1));
    BreaksAfter(Fresh(), Create(1, l1), SameFile);
  }

  /** The same, of a file read while its holder renews it. */
  lemma TornRenewalBreaks(l1: Lease, l2: Lease)
    requires Rivals(l1, l2)
    ensures CanBreak(Fresh(), SameFile)
  {
    BothAskDeletionsOnly();
    var s := Taken(Fresh(), l1);
    RenewalBreaks(s, l1, l2);
    Acquires(Fresh(), l1, SameFile);
  }

  lemma RenewalBreaks(s: Sys, l1: Lease, l2: Lease)
    requires Rivals(l1, l2) && 1 in s.at && 2 in s.at && s.at[1] == Idle && s.at[2] == Idle && ClaimOf(l1) in s.claims
    requires FileOf(l1.node) in s.files && s.files[FileOf(l1.node)].content == Readable(l1)
    ensures CanBreak(s, SameFile)
  {
    var e := BeginRenew(1, l1.workerId, l1.node, 1);
    var s1 := Do(s, e);
    var s2 := Do(s1, Read(1));
    var s3 := Do(s2, Truncate(1));
    assert s3.at[2] == Idle;
    Misreads(s3, l2, Rewrite(1), ClaimOf(l1));
    BreaksAfter(s2, Truncate(1), SameFile);
    BreaksAfter(s1, Read(1), SameFile);
    BreaksAfter(s, e, SameFile);
  }

  /** A lease whose holder is gone and whose time is over. */
  ghost function Leftover(l0: Lease): Sys { Sys(map[FileOf(l0.node) := File(0, Readable(l0))], 1, Fresh().at, {}) }

  /**
   Two processes read the same abandoned lease; 1 takes the node over, then 2 deletes
   what is by now 1's lease and takes it over too.
   */
  lemma OverlapBreaks(l0: Lease, l1: Lease, l2: Lease)
    requires Rivals(l1, l2) && l0.node == l1.node && l0.pid == 9 && l0.expiresAt == 0
    ensures Start(Leftover(l0)) && CanBreak(Leftover(l0), Unattended)
  {
    BothAskDeletionsOnly();
    var s, view := Leftover(l0), View(0, Readable(l0));
    var s1 := Moved(s, 1, Seen(l1, view));
    var s2 := Moved(s1, 2, Seen(l2, view));
    DoomedTwiceBreaks(s2, l0, l1, l2, view);
    Reads(s1, l2, Unattended);
    Reads(s, l1, Unattended);
  }

  lemma DoomedTwiceBreaks(s: Sys, l0: Lease, l1: Lease, l2: Lease, view: View)
    requires Rivals(l1, l2) && view.View? && view.content == Readable(l0) && l0.expiresAt == 0
    requires s.at == map[1 := Seen(l1, view), 2 := Seen(l2, view)] && !IsAlive(s.at.Keys, l0.pid)
    ensures CanBreak(s, Unattended)
  {
    BothAskDeletionsOnly();
    var s1 := Moved(s, 1, Doomed(l1, view));
    var s2 := Moved(s1, 2, Doomed(l2, view));
    DoomedBreaks(Taken(s2, l1), 2, l2, view, ClaimOf(l1), Unattended);
    Steals(s2, 1, l1, view, Unattended);
    Judges(s1, 2, l2, view, Unattended);
    Judges(s, 1, l1, view, Unattended);
  }

  /** Its holder gives a lease back: looking, reading, deleting. */
  lemma Returns(s: Sys, l: Lease)
    requires l.pid in s.at && s.at[l.pid] == Idle && s.claims == {ClaimOf(l)}
    requires FileOf(l.node) in s.files && s.files[FileOf(l.node)].content == Readable(l)
    requires CanBreak(s.(files := s.files - {FileOf(l.node)}, claims := {}), Unattended)
    ensures CanBreak(s, Unattended)
  {
    var e := BeginRelease(l.pid, l.workerId, l.node);
    var s1 := Do(s, e);
    var s2 := Do(s1, Read(l.pid));
    var s3 := Do(s2, ReleaseDelete(l.pid));
    assert s3.at == s.at && s3.claims == {};
    assert s3 == s.(files := s.files - {FileOf(l.node)}, claims := {});
    BreaksAfter(s2, ReleaseDelete(l.pid), Unattended);
    BreaksAfter(s1, Read(l.pid), Unattended);
    BreaksAfter(s, e, Unattended);
  }

  /**
   A lease that was live when it was read: its holder 3 gives it back and ends, process
   2 acquires the node, and 1, judging only now what it read, deletes 2's lease.
   */
  lemma StaleReadBreaks(l1: Lease, l2: Lease, l3: Lease)
    requires Rivals(l1, l2) && l3.node == l1.node && l3.pid == 3 && l3.expiresAt == 0
    ensures var s := Sys(map[], 0, map[1 := Idle, 2 := Idle, 3 := Idle], {}); Start(s) && CanBreak(s, Unattended)
  {
    BothAskDeletionsOnly();
    var s := Sys(map[], 0, map[1 := Idle, 2 := Idle, 3 := Idle], {});
    var s1 := Taken(s, l3);
    var s2 := Moved(s1, 1, Seen(l1, View(0, Readable(l3))));
    HolderLeaves(s2, l1, l2, l3);
    Reads(s1, l1, Unattended);
    Acquires(s, l3, Unattended);
  }

  lemma HolderLeaves(s: Sys, l1: Lease, l2: Lease, l3: Lease)
    requires Rivals(l1, l2) && l3.node == l1.node && l3.pid == 3 && l3.expiresAt == 0
    requires 1 in s.at && 2 in s.at && 3 in s.at && s.at[2] == Idle && s.at[3] == Idle && s.claims == {ClaimOf(l3)}
    requires s.at[1] == Seen(l1, View(0, Readable(l3))) && FileOf(l3.node) in s.files && s.files[FileOf(l3.node)].content == Readable(l3)
    ensures CanBreak(s, Unattended)
  {
    BothAskDeletionsOnly();
    var view := View(0, Readable(l3));
    var s1 := s.(files := s.files - {FileOf(l3.node)}, claims := {});
    var s2 := Do(s1, Crash(3));
    var s3 := Taken(s2, l2);
    DoomedBreaks(Moved(s3, 1, Doomed(l1, view)), 1, l1, view, ClaimOf(l2), Unattended);
    Judges(s3, 1, l1, view, Unattended);
    Acquires(s2, l2, Unattended);
    BreaksAfter(s1, Crash(3), Unattended);
    Returns(s, l3);
  }

  /**
   A file that vanishes between being looked for and being read reads as an unreadable
   one: process 2 gives its lease back just then and takes the node again, and 1
   deletes the new lease.
   */
  lemma VanishedReadBreaks(l1: Lease, l2: Lease)
    requires Rivals(l1, l2)
    ensures CanBreak(Fresh(), Unattended)
  {
    BothAskDeletionsOnly();
    var s1 := Taken(Fresh(), l2);
    var s2 := Do(s1, Create(1, l1));
    var s3 := Do(s2, Look(1));
    assert s3 == Moved(s1, 1, Looking(Steal(l1)));
    HolderReturns(s3, l1, l2);
    BreaksAfter(s2, Look(1), Unattended);
    BreaksAfter(s1, Create(1, l1), Unattended);
    Acquires(Fresh(), l2, Unattended);
  }

  lemma HolderReturns(s: Sys, l1: Lease, l2: Lease)
    requires Rivals(l1, l2) && 1 in s.at && 2 in s.at && s.at[1] == Looking(Steal(l1)) && s.at[2] == Idle
    requires s.claims == {ClaimOf(l2)} && FileOf(l2.node) in s.files && s.files[FileOf(l2.node)].content == Readable(l2)
    ensures CanBreak(s, Unattended)
  {
    BothAskDeletionsOnly();
    var s1 := s.(files := s.files - {FileOf(l2.node)}, claims := {});
    var s2 := Do(s1, Read(1));
    var s3 := Taken(s2, l2);
    DoomedBreaks(Moved(s3, 1, Doomed(l1, Nothing)), 1, l1, Nothing, ClaimOf(l2), Unattended);
    Judges(s3, 1, l1, Nothing, Unattended);
    Acquires(s2, l2, Unattended);
    BreaksAfter(s1, Read(1), Unattended);
    Returns(s, l2);
  }
}
