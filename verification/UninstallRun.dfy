/**
 Running an uninstall from its journal, with a crash possible before every durable step and a
 failing capability cleanup that is put off (install/bootstrap/transaction.py:1846-1910, 1945-2105).
 */
module UninstallRun {
  import opened BootstrapAssets
  import opened Durable
  import opened UninstallActions
  import opened UninstallJournal
  import opened Wrappers

  type Disk = UninstallJournal.Disk

  type Result = UninstallJournal.Result

  /** At most `cost` durable steps are taken, and a crash comes only before that many. */
  predicate Spends(r: Result, before: nat, after: nat, cost: nat) {
    (r.Crashed? ==> before < cost) && (!r.Crashed? ==> after + cost >= before)
  }

  // ---------------------------------------------------------------------------------------------
  // The actions, file by file

  function Touched(a: Action, t: FileTree): (s: set<Path>)
    ensures forall p :: p in s <==> p in t && a.Touches(p)
  {
    set p | p in t && a.Touches(p)
  }

  lemma Fewer(some: set<Path>, t: FileTree)
    requires some <= t.Keys
    ensures |some| <= |t|
  {
    FewerThan(some, t.Keys);
  }

  lemma WithoutFile(t: FileTree, p: Path)
    ensures forall q: Path :: Lookup(t - {p}, q) == if q == p then None else Lookup(t, q)
  {
  }

  lemma WithFile(t: FileTree, p: Path, s: Stored)
    ensures forall q: Path :: Lookup(t[p := s], q) == if q == p then Some(s) else Lookup(t, q)
  {
    var u := t[p := s];
    assert u[p] == s;
    forall q: Path ensures Lookup(u, q) == if q == p then Some(s) else Lookup(t, q) {
      assert q in u <==> q == p || q in t;
    }
  }

  /** The files are what the action makes of them. */
  lemma Finished(a: Action, before: FileTree, now: FileTree)
    requires forall p: Path :: Lookup(now, p) == a.After(before, p)
    ensures now == a.Apply(before)
  {
    forall p: Path ensures Lookup(now, p) == Lookup(a.Apply(before), p) {
      assert Lookup(a.Apply(before), p) == a.After(before, p);
    }
    SameTree(now, a.Apply(before));
  }

  /** Releases are removed file by file, in no particular order. */
  method RemoveTouched(disk: Disk, a: Action) returns (r: Result)
    requires a.RemoveRelease? || a.RemoveFile?
    modifies disk
    ensures !r.Refused? && disk.files == old(disk.files).(tree := disk.files.tree)
    ensures Partial(a, old(disk.files.tree), disk.files.tree)
    ensures r.Ok? ==> disk.files.tree == a.Apply(old(disk.files.tree))
    ensures Spends(r, old(disk.life), disk.life, |old(disk.files.tree)| + 2)
  {
    ghost var before := disk.files.tree;
    var remaining := Touched(a, disk.files.tree);
    ghost var all := remaining;
    Fewer(all, before);
    while remaining != {}
      invariant disk.files == old(disk.files).(tree := disk.files.tree)
      invariant forall p: Path ::
        Lookup(disk.files.tree, p) == if a.Touches(p) && p !in remaining then None else Lookup(before, p)
      invariant forall p | p in remaining :: p in disk.files.tree && a.Touches(p)
      invariant disk.life + |all| == old(disk.life) + |remaining|
      decreases |remaining|
    {
      var p :| p in remaining;
      WithoutFile(disk.files.tree, p);
      :- disk.Write(disk.files.(tree := disk.files.tree - {p}));
      remaining := remaining - {p};
    }
    Finished(a, before, disk.files.tree);
    r := Ok;
  }

  /** A displaced file goes back to its place: the installed file first makes room for it. */
  method RestoreDisplaced(disk: Disk, a: Action) returns (r: Result)
    requires a.RestoreLegacy?
    modifies disk
    ensures !r.Refused? && disk.files == old(disk.files).(tree := disk.files.tree)
    ensures Partial(a, old(disk.files.tree), disk.files.tree)
    ensures r.Ok? ==> disk.files.tree == a.Apply(old(disk.files.tree))
    ensures Spends(r, old(disk.life), disk.life, |old(disk.files.tree)| + 2)
  {
    ghost var before := disk.files.tree;
    var source, target := BackupFile(a.asset), AssetFile(a.asset);
    if source in disk.files.tree {
      if target in disk.files.tree {
        :- disk.Write(disk.files.(tree := disk.files.tree - {target}));
      } else {
        assert disk.files.tree - {target} == disk.files.tree;
      }
      ghost var middle := disk.files.tree;
      var moved := disk.files.tree[target := disk.files.tree[source]] - {source};
      WithoutFile(before, target);
      WithFile(middle, target, middle[source]);
      WithoutFile(middle[target := middle[source]], source);
      Finished(a, before, moved);
      r := disk.Write(disk.files.(tree := moved));
    } else {
      Finished(a, before, before);
      r := Ok;
    }
  }

  /** A capability is copied next to the log, file by file. */
  method StageFiles(disk: Disk, a: Action) returns (r: Result)
    requires a.StageCapability?
    modifies disk
    ensures !r.Refused? && disk.files == old(disk.files).(tree := disk.files.tree)
    ensures Partial(a, old(disk.files.tree), disk.files.tree)
    ensures r.Ok? ==> disk.files.tree == a.Apply(old(disk.files.tree))
    ensures Spends(r, old(disk.life), disk.life, |old(disk.files.tree)| + 2)
  {
    ghost var before := disk.files.tree;
    var remaining := set p | p in disk.files.tree && Recorded(a, p);
    ghost var all := remaining;
    Fewer(all, before);
    ghost var done: set<Path> := {};
    while remaining != {}
      invariant disk.files == old(disk.files).(tree := disk.files.tree)
      invariant forall p: Path ::
        Lookup(disk.files.tree, p) == if p in done then a.After(before, p) else Lookup(before, p)
      invariant forall p | p in done :: a.Touches(p)
      invariant forall p: Path | Recorded(a, p) && p in before :: p in remaining || StagedFile(a.cap, p.entry.name) in done
      invariant forall p | p in remaining :: Recorded(a, p) && p in before
      invariant disk.life + |all| == old(disk.life) + |remaining|
      decreases |remaining|
    {
      var p :| p in remaining;
      var staged := StagedFile(a.cap, p.entry.name);
      assert Lookup(disk.files.tree, p) == Lookup(before, p);
      assert p == ReleaseFile(a.commit, Shipped(a.cap, staged.name));
      assert a.After(before, staged) == Lookup(before, p);
      WithFile(disk.files.tree, staged, disk.files.tree[p]);
      :- disk.Write(disk.files.(tree := disk.files.tree[staged := disk.files.tree[p]]));
      remaining, done := remaining - {p}, done + {staged};
    }
    forall p: Path ensures Lookup(disk.files.tree, p) == a.After(before, p) {
      if a.Touches(p) && p !in done {
        assert !Recorded(a, SourceOf(a, p)) || SourceOf(a, p) !in before;
      }
    }
    Finished(a, before, disk.files.tree);
    r := Ok;
  }

  /** Installed copies go unless they were modified; a failing file system puts the rest off. */
  method CleanUpFiles(disk: Disk, a: Action, faulty: bool) returns (r: Result)
    requires a.CleanupCapability?
    modifies disk
    ensures r.Refused? ==> r == Refused(CleanupDeferred) && faulty
    ensures disk.files == old(disk.files).(tree := disk.files.tree)
    ensures Partial(a, old(disk.files.tree), disk.files.tree)
    ensures r.Ok? ==> disk.files.tree == a.Apply(old(disk.files.tree))
    ensures Spends(r, old(disk.life), disk.life, |old(disk.files.tree)| + 2)
  {
    ghost var before := disk.files.tree;
    var remaining := set p | p in disk.files.tree && p.StagedFile? && p.cap == a.cap;
    ghost var all := remaining;
    Fewer(all, before);
    ghost var done: set<Path> := {};
    while remaining != {}
      invariant disk.files == old(disk.files).(tree := disk.files.tree)
      invariant forall p: Path ::
        Lookup(disk.files.tree, p) == if p in done then a.After(before, p) else Lookup(before, p)
      invariant forall p | p in done :: a.Touches(p)
      invariant forall p | p in before && p.StagedFile? && p.cap == a.cap ::
        p in remaining || InstalledCapability(a.cap, p.name) in done
      invariant forall p | p in remaining :: p in before && p.StagedFile? && p.cap == a.cap
      invariant disk.life + |all| >= old(disk.life) + |remaining|
      decreases |remaining|
    {
      var fails: bool := *;
      if faulty && fails {
        return Refused(CleanupDeferred);
      }
      var p :| p in remaining;
      var target := InstalledCapability(a.cap, p.name);
      assert Lookup(disk.files.tree, p) == Lookup(before, p);
      assert StagedFile(a.cap, target.name) == p;
      if target in disk.files.tree && disk.files.tree[p] == disk.files.tree[target] {
        WithoutFile(disk.files.tree, target);
        :- disk.Write(disk.files.(tree := disk.files.tree - {target}));
      }
      remaining, done := remaining - {p}, done + {target};
    }
    forall p: Path ensures Lookup(disk.files.tree, p) == a.After(before, p) {
      if a.Touches(p) && p !in done {
        assert StagedFile(a.cap, p.name) !in before;
      }
    }
    Finished(a, before, disk.files.tree);
    r := Ok;
  }

  // ---------------------------------------------------------------------------------------------
  // The proof that a release's `.git` directory is the owned one

  function ReleasePresent(c: CommitId, t: FileTree): bool {
    exists p | p in t :: RemoveRelease(c).Touches(p)
  }

  predicate GitSurvives(current: map<string, Stored>, entries: map<string, Stored>) {
    forall e | e in current :: e in entries && entries[e] == current[e]
  }

  /** The entries that may be deleted, if what is left of the release still proves them owned. */
  function GitRemovalProof(f: Files, c: CommitId, state: State): (proof: Option<map<string, Stored>>)
    ensures proof.Some? ==> Lookup(f.tree, ReceiptFile(c)) == Some(Receipt(proof.value))
    ensures proof.Some? && c !in f.proofs ==> proof.value == GitEntries(f.tree, c)
  {
    var receipt := Lookup(f.tree, ReceiptFile(c));
    var current := GitEntries(f.tree, c);
    if receipt.None? || !receipt.value.Receipt? then None
    else if c in f.proofs then
      if && f.proofs[c] == receipt.value.git && GitSurvives(current, f.proofs[c])
         && (state.Pending? ==> current == f.proofs[c])
      then Some(f.proofs[c]) else None
    else if current == receipt.value.git then Some(current)
    else None
  }

  /** What is left of a release may be deleted: its proof is durable and covers it. */
  predicate Proven(f: Files, a: Action) {
    a.RemoveRelease? && ReleasePresent(a.commit, f.tree) ==>
      a.commit in f.proofs && GitRemovalProof(f, a.commit, Begun).Some?
  }

  method Execute(disk: Disk, a: Action, faulty: bool) returns (r: Result)
    modifies disk
    ensures r.Refused? ==> if Proven(old(disk.files), a) then r == Refused(CleanupDeferred) && faulty else r == Refused(ProofMissing)
    ensures !Proven(old(disk.files), a) ==> r.Refused? && disk.files == old(disk.files)
    ensures disk.files == old(disk.files).(tree := disk.files.tree)
    ensures Partial(a, old(disk.files.tree), disk.files.tree)
    ensures r.Ok? ==> disk.files.tree == a.Apply(old(disk.files.tree))
    ensures Spends(r, old(disk.life), disk.life, |old(disk.files.tree)| + 2)
  {
    match a {
      case RemoveRelease(c) =>
        if ReleasePresent(c, disk.files.tree)
           && (GitRemovalProof(disk.files, c, Begun).None? || c !in disk.files.proofs) {
          return Refused(ProofMissing);
        }
        r := RemoveTouched(disk, a);
      case RemoveFile(_) =>
        r := RemoveTouched(disk, a);
      case RestoreLegacy(_) =>
        r := RestoreDisplaced(disk, a);
      case StageCapability(_, _) =>
        r := StageFiles(disk, a);
      case CleanupCapability(_, _) =>
        r := CleanUpFiles(disk, a, faulty);
    }
  }

  // ---------------------------------------------------------------------------------------------
  // The steps of a run, one lemma each

  function AtState(f: Files, k: nat, state: State): Files
    requires f.journal.Some? && k < |f.journal.value.states|
  {
    var j := f.journal.value;
    f.(journal := Some(j.(states := j.states[k := state])))
  }

  lemma ProofStep(start: FileTree, layout: Layout, actions: seq<Action>, f: Files, k: nat)
    requires Running(start, layout, actions, f, k) && k < |actions| && actions[k].RemoveRelease?
    requires f.journal.value.states[k].Pending?
    ensures var c := actions[k].commit;
            && GitRemovalProof(f, c, Pending) == Some(GitEntries(start, c))
            && Running(start, layout, actions, f.(proofs := f.proofs[c := GitEntries(start, c)]), k)
  {
    var c := actions[k].commit;
    OriginalGit(start, layout, actions, f, k);
    assert actions[k] in actions && Sound(actions[k], start, layout);
    var g := f.(proofs := f.proofs[c := GitEntries(start, c)]);
    assert OnRecord(start, layout, actions, g);
  }

  /** Before its removal begins, a release has its original `.git` directory and its receipt. */
  lemma OriginalGit(start: FileTree, layout: Layout, actions: seq<Action>, f: Files, k: nat)
    requires Running(start, layout, actions, f, k) && k < |actions| && actions[k].RemoveRelease?
    requires f.journal.value.states[k].Pending?
    ensures GitEntries(f.tree, actions[k].commit) == GitEntries(start, actions[k].commit)
    ensures Lookup(f.tree, ReceiptFile(actions[k].commit)) == Lookup(start, ReceiptFile(actions[k].commit))
  {
    hide Sound, ProofsKept, TreeAt, Inventory;
    var c, states := actions[k].commit, f.journal.value.states;
    forall p: Path | actions[k].Watches(p) ensures Lookup(f.tree, p) == Lookup(start, p) {
      Undisturbed(start, actions, states, k, f.tree, k, p);
    }
    SameGit(f.tree, start, c);
  }

  lemma SameGit(t: FileTree, u: FileTree, c: CommitId)
    requires forall p: Path | RemoveRelease(c).Touches(p) :: Lookup(t, p) == Lookup(u, p)
    ensures GitEntries(t, c) == GitEntries(u, c)
  {
    forall name: string
      ensures name in GitEntries(t, c) <==> name in GitEntries(u, c)
      ensures name in GitEntries(t, c) ==> GitEntries(t, c)[name] == GitEntries(u, c)[name]
    {
      var p := ReleaseFile(c, GitEntry(name));
      assert RemoveRelease(c).Touches(p);
      assert Lookup(t, p) == Lookup(u, p);
    }
  }

  /** While a release is being removed, what is left of it is still covered by its proof. */
  lemma BegunGit(start: FileTree, layout: Layout, actions: seq<Action>, f: Files, k: nat)
    requires Running(start, layout, actions, f, k) && k < |actions| && actions[k].RemoveRelease?
    requires f.journal.value.states[k].Begun? && ReleasePresent(actions[k].commit, f.tree)
    ensures actions[k].commit in f.proofs && GitRemovalProof(f, actions[k].commit, Begun).Some?
  {
    hide OnRecord;
    var a, c, before := actions[k], actions[k].commit, Prefix(start, actions, k);
    forall p: Path | a.Watches(p) ensures Lookup(before, p) == Lookup(start, p) {
      UntilItsTurn(start, actions, k, k, p);
    }
    forall p: Path | a.Touches(p) ensures Lookup(f.tree, p).None? || Lookup(f.tree, p) == Lookup(start, p) {
      assert Lookup(f.tree, p) == Lookup(before, p) || Lookup(f.tree, p) == a.After(before, p);
    }
    UntouchedByPartial(a, before, f.tree, ReceiptFile(c));
    assert Lookup(f.tree, ReceiptFile(c)) == Lookup(start, ReceiptFile(c)) by {
      assert a.Watches(ReceiptFile(c));
    }
    assert Sound(a, start, layout);
    ProofOnRecord(start, layout, actions, f, c);
    GitSurvivors(f.tree, start, c);
  }

  lemma ProofOnRecord(start: FileTree, layout: Layout, actions: seq<Action>, f: Files, c: CommitId)
    requires OnRecord(start, layout, actions, f) && c in f.proofs
    ensures f.proofs[c] == GitEntries(start, c)
  {
  }

  lemma GitSurvivors(t: FileTree, start: FileTree, c: CommitId)
    requires forall p: Path | RemoveRelease(c).Touches(p) :: Lookup(t, p).None? || Lookup(t, p) == Lookup(start, p)
    ensures GitSurvives(GitEntries(t, c), GitEntries(start, c))
  {
    forall name | name in GitEntries(t, c)
      ensures name in GitEntries(start, c) && GitEntries(start, c)[name] == GitEntries(t, c)[name]
    {
      var p := ReleaseFile(c, GitEntry(name));
      assert RemoveRelease(c).Touches(p);
    }
  }

  lemma BeginStep(start: FileTree, layout: Layout, actions: seq<Action>, f: Files, k: nat)
    requires Running(start, layout, actions, f, k) && k < |actions|
    requires actions[k].RemoveRelease? && ReleasePresent(actions[k].commit, f.tree) ==> actions[k].commit in f.proofs
    ensures Running(start, layout, actions, AtState(f, k, Begun), k)
  {
    hide Preflight, Prefix, Inventory;
    var g := AtState(f, k, Begun);
    assert Partial(actions[k], Prefix(start, actions, k), g.tree);
    assert OnRecord(start, layout, actions, g);
  }

  lemma TreeStep(start: FileTree, layout: Layout, actions: seq<Action>, f: Files, k: nat, t: FileTree)
    requires Running(start, layout, actions, f, k) && k < |actions| && f.journal.value.states[k].Begun?
    requires Partial(actions[k], f.tree, t)
    ensures Running(start, layout, actions, f.(tree := t), k)
  {
    hide Preflight, Prefix, Inventory;
    PartialTransitive(actions[k], Prefix(start, actions, k), f.tree, t);
    var g := f.(tree := t);
    if actions[k].RemoveRelease? {
      forall p | p in t && actions[k].Touches(p) ensures p in f.tree {
        assert Lookup(t, p) == Lookup(f.tree, p) || Lookup(t, p) == actions[k].After(f.tree, p);
      }
    }
    assert OnRecord(start, layout, actions, g);
  }

  lemma DoneStep(start: FileTree, layout: Layout, actions: seq<Action>, f: Files, k: nat, from: FileTree)
    requires Running(start, layout, actions, f.(tree := from), k) && k < |actions| && f.journal.value.states[k].Begun?
    requires f.tree == actions[k].Apply(from)
    ensures Running(start, layout, actions, AtState(f, k, Done), k + 1)
  {
    hide Preflight, Inventory, Partial;
    RedoingCompletes(actions[k], Prefix(start, actions, k), from);
    var g := AtState(f, k, Done);
    assert Prefix(start, actions, k + 1) == g.tree;
    assert OnRecord(start, layout, actions, g);
  }

  /** The action whose turn it is passes its own content check. */
  lemma TurnIsValid(start: FileTree, layout: Layout, actions: seq<Action>, f: Files, k: nat)
    requires Running(start, layout, actions, f, k) && k < |actions|
    ensures WellFormed(f) && |f.journal.value.actions| == |actions|
    ensures ContentValid(
              actions[k], f.journal.value.states[k], f.evidence.value.records[k], f.evidence.value.layout, f.tree)
  {
    hide ContentValid, Partial, MayPrecede, Sound, TreeAt, ProofsKept, Inventory;
    if actions[k].CleanupCapability? {
      CleanupIsAccepted(start, layout, actions, f, k, k);
    } else if f.journal.value.states[k].Pending? {
      PendingIsAccepted(start, layout, actions, f, k, k);
    } else {
      BegunIsAccepted(start, layout, actions, f, k);
    }
  }

  /** The most durable steps that one action takes. */
  function ActionCost(start: FileTree): nat {
    |Universe(start)| + 5
  }

  function Budget(start: FileTree, n: nat): nat {
    if n == 0 then 0 else Budget(start, n - 1) + ActionCost(start)
  }

  lemma TreeIsSmall(start: FileTree, layout: Layout, actions: seq<Action>, f: Files, k: nat)
    requires Running(start, layout, actions, f, k)
    ensures |f.tree| <= |Universe(start)|
  {
    hide Preflight, OnRecord, ProofsKept, Partial, Universe, Prefix, Created;
    Shape(start, layout, actions, f, k);
    PrefixNext(start, actions, k);
    PrefixStaysInside(start, actions, k);
    if k < |actions| && f.journal.value.states[k].Begun? {
      PrefixStaysInside(start, actions, k + 1);
      PartialStaysInside(actions[k], Prefix(start, actions, k), f.tree);
    }
    FewerThan(f.tree.Keys, Universe(start));
  }

  lemma PrefixNext(start: FileTree, actions: seq<Action>, k: nat)
    ensures k < |actions| ==> Prefix(start, actions, k + 1) == actions[k].Apply(Prefix(start, actions, k))
  {
  }

  lemma FewerThan(some: set<Path>, all: set<Path>)
    requires some <= all
    ensures |some| <= |all|
  {
    var rest := all - some;
    assert some + rest == all;
  }

  /** A release that still has files is removed only with its proof on disk. */
  method SecureProof(
    disk: Disk, k: nat, ghost start: FileTree, ghost layout: Layout, ghost actions: seq<Action>) returns (r: Result)
    requires WellFormed(disk.files) && k < |disk.files.journal.value.actions|
    modifies disk
    ensures disk.files == old(disk.files).(proofs := disk.files.proofs) && Spends(r, old(disk.life), disk.life, 1)
    ensures r.Refused? <==> Unprovable(old(disk.files), k)
    ensures r.Refused? ==> r == Refused(ProofMissing) && disk.files == old(disk.files)
    ensures r.Ok? ==> Proven(disk.files, disk.files.journal.value.actions[k])
    ensures Running(start, layout, actions, old(disk.files), k) ==>
      Running(start, layout, actions, disk.files, k) && !r.Refused?
  {
    hide Running, GitSurvives;
    var a, state := disk.files.journal.value.actions[k], disk.files.journal.value.states[k];
    if a.RemoveRelease? && ReleasePresent(a.commit, disk.files.tree) {
      if Running(start, layout, actions, disk.files, k) {
        Shape(start, layout, actions, disk.files, k);
        if state.Pending? {
          ProofStep(start, layout, actions, disk.files, k);
        } else {
          BegunGit(start, layout, actions, disk.files, k);
        }
      }
      var proof := GitRemovalProof(disk.files, a.commit, state);
      if proof.None? {
        return Refused(ProofMissing);
      }
      ProofLasts(disk.files, a.commit, state);
      if a.commit !in disk.files.proofs {
        r := disk.Write(disk.files.(proofs := disk.files.proofs[a.commit := proof.value]));
        return;
      }
    }
    r := Ok;
  }

  /** What is left of the release that is to be removed does not prove its `.git` directory the owned one. */
  predicate Unprovable(f: Files, k: nat)
    requires WellFormed(f) && k < |f.journal.value.actions|
  {
    var a := f.journal.value.actions[k];
    a.RemoveRelease? && ReleasePresent(a.commit, f.tree) && GitRemovalProof(f, a.commit, f.journal.value.states[k]).None?
  }

  /** A proof serves when the removal has begun as well. */
  lemma ProofLasts(f: Files, c: CommitId, state: State)
    requires GitRemovalProof(f, c, state).Some?
    ensures c in f.proofs ==> GitRemovalProof(f, c, Begun).Some?
    ensures GitRemovalProof(f.(proofs := f.proofs[c := GitRemovalProof(f, c, state).value]), c, Begun).Some?
  {
  }

  lemma Shape(start: FileTree, layout: Layout, actions: seq<Action>, f: Files, k: nat)
    requires Running(start, layout, actions, f, k)
    ensures WellFormed(f) && f.journal.value.actions == actions && k <= |actions|
    ensures k < |actions| ==> !f.journal.value.states[k].Done?
    ensures forall m | 0 <= m < k :: f.journal.value.states[m].Done?
  {
  }

  /** The action whose turn it is finds its files as recorded, and its proof. */
  predicate MayRun(f: Files, k: nat)
    requires WellFormed(f) && k < |f.journal.value.actions|
  {
    var (j, evidence) := (f.journal.value, f.evidence.value);
    && ContentValid(j.actions[k], j.states[k], evidence.records[k], evidence.layout, f.tree)
    && !Unprovable(f, k)
  }

  /** The records, the plan and all other checkpoints are as they were. */
  predicate OnlyRan(f: Files, g: Files, k: nat)
    requires WellFormed(f) && k < |f.journal.value.actions|
  {
    && WellFormed(g) && g.evidence == f.evidence
    && g.journal.value == f.journal.value.(states := g.journal.value.states)
    && forall m | 0 <= m < |f.journal.value.states| && m != k :: g.journal.value.states[m] == f.journal.value.states[m]
  }

  /**
   One action, on any files: refused with nothing touched unless its content is as recorded and a release
   proves its `.git` directory; done and logged as done otherwise.
   */
  method RunAction(
    disk: Disk, k: nat, faulty: bool, ghost start: FileTree, ghost layout: Layout, ghost actions: seq<Action>)
    returns (r: Result)
    requires WellFormed(disk.files) && k < |disk.files.journal.value.actions| && !disk.files.journal.value.states[k].Done?
    modifies disk
    ensures !MayRun(old(disk.files), k) ==>
      r.Refused? && r != Refused(CleanupDeferred) && disk.files == old(disk.files)
    ensures r.Refused? && MayRun(old(disk.files), k) ==> r == Refused(CleanupDeferred) && faulty
    ensures OnlyRan(old(disk.files), disk.files, k)
    ensures Partial(old(disk.files).journal.value.actions[k], old(disk.files.tree), disk.files.tree)
    ensures r.Ok? ==>
      && disk.files.journal.value.states[k].Done?
      && disk.files.tree == old(disk.files).journal.value.actions[k].Apply(old(disk.files.tree))
    ensures Running(start, layout, actions, old(disk.files), k) ==>
      && MayRun(old(disk.files), k)
      && Running(start, layout, actions, disk.files, if r.Ok? then k + 1 else k)
      && Spends(r, old(disk.life), disk.life, ActionCost(start))
  {
    hide Running, ContentValid, Partial, Universe, Unprovable, Proven;
    var evidence := disk.files.evidence.value;
    var a := disk.files.journal.value.actions[k];
    NothingTaken(a, disk.files.tree);
    if Running(start, layout, actions, disk.files, k) {
      Shape(start, layout, actions, disk.files, k);
      TurnIsValid(start, layout, actions, disk.files, k);
    }
    if !ContentValid(a, disk.files.journal.value.states[k], evidence.records[k], evidence.layout, disk.files.tree) {
      return Refused(ContentChanged);
    }
    ContentStaysValid(
      a, disk.files.journal.value.states[k], evidence.records[k], evidence.layout, disk.files.tree);
    :- SecureProof(disk, k, start, layout, actions);
    if Running(start, layout, actions, disk.files, k) {
      Shape(start, layout, actions, disk.files, k);
      ProvenIsOnRecord(disk.files, a);
      BeginStep(start, layout, actions, disk.files, k);
    }
    ProvenStays(disk.files, AtState(disk.files, k, Begun), a);
    :- disk.Write(AtState(disk.files, k, Begun));
    if !ContentValid(a, Begun, evidence.records[k], evidence.layout, disk.files.tree) {
      return Refused(ContentChanged);
    }
    r := CompleteAction(disk, k, faulty, start, layout, actions);
  }

  lemma ProvenIsOnRecord(f: Files, a: Action)
    requires Proven(f, a)
    ensures a.RemoveRelease? && ReleasePresent(a.commit, f.tree) ==> a.commit in f.proofs
  {
  }

  lemma ProvenStays(f: Files, g: Files, a: Action)
    requires Proven(f, a) && g.tree == f.tree && g.proofs == f.proofs
    ensures Proven(g, a)
  {
  }

  lemma NothingTaken(a: Action, t: FileTree)
    ensures Partial(a, t, t)
  {
  }

  /** What is as recorded before an action begins is accepted when it has begun. */
  lemma ContentStaysValid(a: Action, state: State, record: FileTree, layout: Layout, t: FileTree)
    requires ContentValid(a, state, record, layout, t) && !state.Done?
    ensures ContentValid(a, Begun, record, layout, t)
  {
  }

  /** A begun action is executed and then logged as done. */
  method CompleteAction(
    disk: Disk, k: nat, faulty: bool, ghost start: FileTree, ghost layout: Layout, ghost actions: seq<Action>)
    returns (r: Result)
    requires WellFormed(disk.files) && k < |disk.files.journal.value.actions| && disk.files.journal.value.states[k].Begun?
    requires Proven(disk.files, disk.files.journal.value.actions[k])
    modifies disk
    ensures r.Refused? ==> r == Refused(CleanupDeferred) && faulty
    ensures OnlyRan(old(disk.files), disk.files, k)
    ensures Partial(old(disk.files).journal.value.actions[k], old(disk.files.tree), disk.files.tree)
    ensures r.Ok? ==>
      && disk.files.journal.value.states[k].Done?
      && disk.files.tree == old(disk.files).journal.value.actions[k].Apply(old(disk.files.tree))
    ensures Running(start, layout, actions, old(disk.files), k) ==>
      && Running(start, layout, actions, disk.files, if r.Ok? then k + 1 else k)
      && Spends(r, old(disk.life), disk.life, |Universe(start)| + 3)
  {
    hide Running, Partial, Universe, Proven;
    var a := disk.files.journal.value.actions[k];
    ghost var before := disk.files;
    ghost var running := Running(start, layout, actions, before, k);
    if running {
      TreeIsSmall(start, layout, actions, before, k);
      Shape(start, layout, actions, before, k);
    }
    r := Execute(disk, a, faulty);
    if running {
      TreeStep(start, layout, actions, before, k, disk.files.tree);
    }
    if r != Ok {
      return;
    }
    assert disk.files.(tree := before.tree) == before;
    if running {
      DoneStep(start, layout, actions, disk.files, k, before.tree);
    }
    r := disk.Write(AtState(disk.files, k, Done));
  }

  /**
   Copying one file is a single step of `StageFiles`. Should a crash inside it leave something else
   at the copy's place, then resuming is refused, and only then: the log never gets past this state.
   */
  lemma TornCopyIsAcceptedIff(
    start: FileTree, layout: Layout, actions: seq<Action>, f: Files, k: nat, p: Path, torn: Stored)
    requires Running(start, layout, actions, f, k) && k < |actions| && f.journal.value.states[k].Begun?
    requires actions[k].StageCapability? && actions[k].Touches(p) && SourceOf(actions[k], p) in start
    ensures var g := f.(tree := f.tree[p := torn]);
            WellFormed(g) && (JournalAccepted(g) <==> torn == start[SourceOf(actions[k], p)])
  {
    hide Preflight, ContentValid, Sound, ProofsKept, MayPrecede, Inventory, StagedInventory;
    var a, g, source := actions[k], f.(tree := f.tree[p := torn]), SourceOf(actions[k], p);
    var before := Prefix(start, actions, k);
    if torn == start[source] {
      assert a.Watches(source) && !a.Touches(source);
      StagedFromStart(start, layout, actions, f, k, source);
      WithFile(f.tree, p, torn);
      TreeStep(start, layout, actions, f, k, g.tree);
      EveryInterruptionIsAccepted(start, layout, actions, g, k);
    }
    if JournalAccepted(g) {
      assert ActionAccepted(g, k) && !CleanupNotDue(g.journal.value, k);
      StagedMatches(a, start, g.evidence.value.layout, g.tree, p);
    }
  }

  lemma StagedFromStart(start: FileTree, layout: Layout, actions: seq<Action>, f: Files, k: nat, source: Path)
    requires Running(start, layout, actions, f, k) && k < |actions| && f.journal.value.states[k].Begun?
    requires actions[k].StageCapability? && actions[k].Watches(source) && !actions[k].Touches(source)
    ensures Lookup(f.tree, source) == Lookup(start, source)
  {
    hide Sound, OnRecord, ProofsKept;
    UntilItsTurn(start, actions, k, k, source);
    UntouchedByPartial(actions[k], Prefix(start, actions, k), f.tree, source);
  }

  lemma StagedMatches(a: Action, start: FileTree, layout: Layout, t: FileTree, p: Path)
    requires a.StageCapability? && a.Touches(p) && p in t && SourceOf(a, p) in start
    requires ContentValid(a, Begun, Inventory(a, start), layout, t)
    ensures t[p] == start[SourceOf(a, p)]
  {
    assert SourceOf(a, p) in StagedInventory(a, t);
  }

  // ---------------------------------------------------------------------------------------------
  // Whole runs

  predicate StagingValid(f: Files)
    requires WellFormed(f)
  {
    var j := f.journal.value;
    && (forall k | 0 <= k < |j.actions| && j.actions[k].StageCapability? ::
          StagedInventory(j.actions[k], f.tree) == f.evidence.value.records[k])
    && (forall c | c in f.proofs :: RemoveRelease(c) in j.actions)
    && (forall p | p in f.tree && p.StagedFile? ::
          exists k :: 0 <= k < |j.actions| && j.actions[k].StageCapability? && j.actions[k].cap == p.cap)
  }

  function WithoutStaging(t: FileTree): FileTree {
    map p | p in t && !p.StagedFile? :: t[p]
  }

  /** The end of an uninstall: its own directory is gone as well. */
  function Cleared(start: FileTree, actions: seq<Action>): Files {
    Files(WithoutStaging(Uninstalled(start, actions)), None, None, map[])
  }

  /**
   One run of the uninstaller, from wherever the journal says the last one stopped. A journal that does not
   fit the files is refused with nothing touched; one that an interruption left goes on to the end.
   */
  method Uninstall(
    disk: Disk, faulty: bool, ghost start: FileTree, ghost layout: Layout, ghost actions: seq<Action>, ghost reached: nat)
    returns (r: Result, ghost n: nat, ghost last: Files)
    requires WellFormed(disk.files)
    modifies disk
    ensures !JournalAccepted(old(disk.files)) ==>
      r.Refused? && r != Refused(CleanupDeferred) && disk.files == old(disk.files)
    ensures r.Ok? ==>
      && WellFormed(last) && AllDone(last.journal.value.states) && StagingValid(last)
      && disk.files == Files(WithoutStaging(last.tree), None, None, map[])
    ensures Running(start, layout, actions, old(disk.files), reached) ==>
      && (r.Refused? ==> r == Refused(CleanupDeferred) && faulty)
      && (r.Ok? ==> disk.files == Cleared(start, actions))
      && (!r.Ok? ==> Running(start, layout, actions, disk.files, n) && reached <= n)
      && (r.Crashed? ==> old(disk.life) < Budget(start, |actions|) + 2)
  {
    hide Running, StagingValid, ActionCost, JournalAccepted, MayRun, OnlyRan, Partial;
    n, last := reached, disk.files;
    ghost var running := Running(start, layout, actions, disk.files, n);
    if running {
      EveryInterruptionIsAccepted(start, layout, actions, disk.files, n);
      Shape(start, layout, actions, disk.files, n);
    }
    r := ReadUninstallJournal(disk.files);
    if r != Ok {
      return;
    }
    var count := |disk.files.journal.value.actions|;
    for k := 0 to count
      invariant WellFormed(disk.files) && |disk.files.journal.value.states| == count
      invariant forall m | 0 <= m < k :: disk.files.journal.value.states[m].Done?
      invariant running ==>
        && Running(start, layout, actions, disk.files, n) && reached <= n && k <= n
        && disk.life + Budget(start, k) >= old(disk.life) && count == |actions|
    {
      if running {
        Shape(start, layout, actions, disk.files, n);
        BudgetGrows(start, k + 1, |actions|);
      }
      if !disk.files.journal.value.states[k].Done? {
        ghost var f := disk.files;
        r := RunAction(disk, k, faulty, start, layout, actions);
        OnlyRanShape(f, disk.files, k);
        if r != Ok {
          return;
        }
        n := n + 1;
        if running {
          Shape(start, layout, actions, disk.files, n);
        }
      }
    }
    if running {
      Shape(start, layout, actions, disk.files, n);
      CommitStep(start, layout, actions, disk.files);
    }
    :- disk.Write(disk.files.(journal := Some(disk.files.journal.value.(committed := true))));
    if running {
      Shape(start, layout, actions, disk.files, n);
      StagingIsValid(start, layout, actions, disk.files);
      ClearedStep(start, layout, actions, disk.files);
    }
    last := disk.files;
    if !StagingValid(disk.files) {
      return Refused(ContentChanged), n, last;
    }
    r := disk.Write(Files(WithoutStaging(disk.files.tree), None, None, map[]));
  }

  lemma OnlyRanShape(f: Files, g: Files, k: nat)
    requires WellFormed(f) && k < |f.journal.value.actions| && OnlyRan(f, g, k)
    ensures WellFormed(g) && g.journal.value.actions == f.journal.value.actions
    ensures forall m | 0 <= m < |f.journal.value.states| && m != k :: g.journal.value.states[m] == f.journal.value.states[m]
  {
  }

  lemma {:induction false} BudgetGrows(start: FileTree, k: nat, n: nat)
    requires k <= n
    ensures Budget(start, k) <= Budget(start, n)
  {
    hide ActionCost;
    if k < n {
      BudgetGrows(start, k, n - 1);
    }
  }

  lemma CommitStep(start: FileTree, layout: Layout, actions: seq<Action>, f: Files)
    requires Running(start, layout, actions, f, |actions|)
    ensures Running(start, layout, actions, f.(journal := Some(f.journal.value.(committed := true))), |actions|)
  {
    hide Preflight, Prefix, Inventory;
  }

  lemma ClearedStep(start: FileTree, layout: Layout, actions: seq<Action>, f: Files)
    requires Running(start, layout, actions, f, |actions|)
    ensures WithoutStaging(f.tree) == WithoutStaging(Uninstalled(start, actions))
  {
    hide Preflight, Prefix, Inventory, OnRecord;
  }

  lemma StagingIsValid(start: FileTree, layout: Layout, actions: seq<Action>, f: Files)
    requires Running(start, layout, actions, f, |actions|)
    ensures WellFormed(f) && StagingValid(f)
  {
    hide Prefix, Sound, MayPrecede, Inventory, StagedInventory, Recorded, Partial;
    var t := f.tree;
    forall k | 0 <= k < |actions| && actions[k].StageCapability?
      ensures StagedInventory(actions[k], t) == f.evidence.value.records[k]
    {
      StagedThroughout(start, actions, f.journal.value.states, |actions|, t, k);
      StagedCopies(actions[k], start, t);
    }
    forall p | p in t && p.StagedFile?
      ensures exists k :: 0 <= k < |actions| && actions[k].StageCapability? && actions[k].cap == p.cap
    {
      StagedByAction(start, actions, |actions|, p);
    }
  }

  lemma StagedCopies(a: Action, start: FileTree, t: FileTree)
    requires a.StageCapability?
    requires forall p: Path | Recorded(a, p) :: Lookup(t, StagedFile(a.cap, p.entry.name)) == Lookup(start, p)
    ensures StagedInventory(a, t) == Inventory(a, start)
  {
    var cleanup := CleanupCapability(a.cap, a.commit);
    StagedIsRecorded(cleanup, start, t);
    assert StagedInventory(a, t) == StagedInventory(cleanup, t);
    assert Inventory(a, start) == Inventory(cleanup, start);
  }

  lemma {:induction false} StagedByAction(start: FileTree, actions: seq<Action>, n: nat, p: Path)
    requires n <= |actions| && p.StagedFile? && (forall q | q in start :: !q.StagedFile?)
    requires p in Prefix(start, actions, n)
    ensures exists k :: 0 <= k < |actions| && actions[k].StageCapability? && actions[k].cap == p.cap
  {
    hide Prefix;
    if n == 0 {
      NothingDone(start, actions);
    } else {
      PrefixStep(start, actions, n, p);
      if !(actions[n - 1].StageCapability? && actions[n - 1].cap == p.cap) {
        StagedByAction(start, actions, n - 1, p);
      }
    }
  }

  /** The evidence first, then the journal: until the journal is there nothing else has changed. */
  method StartUninstall(disk: Disk, layout: Layout, actions: seq<Action>) returns (r: Result)
    requires Preflight(disk.files.tree, layout, actions) && disk.files.journal.None? && disk.files.proofs == map[]
    modifies disk
    ensures !r.Refused? && (r.Crashed? ==> old(disk.life) < 2)
    ensures r.Ok? ==> Running(old(disk.files.tree), layout, actions, disk.files, 0) && disk.files.tree == old(disk.files.tree)
    ensures !r.Ok? ==> disk.files == old(disk.files).(evidence := disk.files.evidence)
  {
    var start := disk.files.tree;
    var records := seq(|actions|, k requires 0 <= k < |actions| => Inventory(actions[k], start));
    :- disk.Write(disk.files.(evidence := Some(Evidence(layout, records))));
    var states := seq(|actions|, _ => Pending);
    r := disk.Write(disk.files.(journal := Some(Journal(actions, states, false, start[LayoutFile]))));
  }

  /**
   An uninstall interrupted any number of times, anywhere, and resumed: it is never refused, and a
   last run that is neither interrupted nor put off leaves the files as if nothing had happened
   before it.
   */
  method UninstallThroughInterruptions(
    disk: Disk, layout: Layout, actions: seq<Action>, runs: seq<(nat, bool)>) returns (started: bool)
    requires Preflight(disk.files.tree, layout, actions) && disk.files.journal.None? && disk.files.proofs == map[]
    modifies disk
    ensures started ==> disk.files == Cleared(old(disk.files.tree), actions)
    ensures !started ==> old(disk.life) < 2 && disk.files == old(disk.files).(evidence := disk.files.evidence)
  {
    hide Running, Preflight;
    ghost var start := disk.files.tree;
    var r := StartUninstall(disk, layout, actions);
    started := r.Ok?;
    if !started {
      return;
    }
    ghost var n := 0;
    r := Crashed;
    Shape(start, layout, actions, disk.files, n);
    var all := runs + [(RunBudget(disk.files.tree, |actions|), false)];
    for i := 0 to |all|
      invariant if r.Ok? then disk.files == Cleared(start, actions) else Running(start, layout, actions, disk.files, n)
      invariant i == |all| ==> r.Ok?
    {
      if r != Ok {
        disk.life := all[i].0;
        Shape(start, layout, actions, disk.files, n);
        ghost var last: Files;
        r, n, last := Uninstall(disk, all[i].1, start, layout, actions, n);
      }
    }
  }

  /** Enough durable steps for a whole run. */
  function RunBudget(start: FileTree, n: nat): nat {
    Budget(start, n) + 2
  }
}
