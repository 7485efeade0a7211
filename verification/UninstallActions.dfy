/**
 What the actions of an uninstall do to the files, and why their order matters
 (install/bootstrap/transaction.py:1381-1444, 1945-1991).
 */
module UninstallActions {
  import opened BootstrapAssets
  import opened Wrappers

  type CommitId = string

  datatype Capability = Skills | Agents

  /** The files of a release: its `.git` directory, the capabilities it ships, and the rest. */
  datatype Entry =
    | GitEntry(name: string)
    | Shipped(cap: Capability, name: string)
    | OtherEntry(name: string)

  datatype Path =
    | ReleaseFile(commit: CommitId, entry: Entry)
    | ManifestFile(commit: CommitId)
    | ReceiptFile(commit: CommitId)
    | CurrentFile
    | PreviousFile
    | AssetFile(asset: Asset)
    | BackupFile(asset: Asset)
    | LayoutFile
    | JournalFile
    | OwnershipFile(tx: string)
    | PendingFile
    | StagedFile(cap: Capability, name: string)
    | InstalledCapability(cap: Capability, name: string)
    | Foreign(name: string)

  /** A file's content; a receipt's content is the `.git` directory it vouches for. */
  datatype Stored = Plain(content: Content) | Receipt(git: map<string, Stored>)

  type FileTree = map<Path, Stored>

  function Lookup(t: FileTree, p: Path): Option<Stored> {
    if p in t then Some(t[p]) else None
  }

  lemma SameTree(t: FileTree, u: FileTree)
    requires forall p: Path :: Lookup(t, p) == Lookup(u, p)
    ensures t == u
  {
    forall p: Path ensures p in t <==> p in u {
      assert Lookup(t, p) == Lookup(u, p);
    }
    forall p: Path | p in t ensures t[p] == u[p] {
      assert Lookup(t, p) == Lookup(u, p);
    }
  }

  datatype Action =
    | StageCapability(cap: Capability, commit: CommitId)
    | RemoveRelease(commit: CommitId)
    | RemoveFile(path: Path)
    | RestoreLegacy(asset: Asset)
    | CleanupCapability(cap: Capability, commit: CommitId)
  {
    /** The files the action may write or remove. */
    predicate Touches(p: Path) {
      match this
      case StageCapability(cap, _) => p.StagedFile? && p.cap == cap
      case RemoveRelease(c) => p.ReleaseFile? && p.commit == c
      case RemoveFile(path) => p == path
      case RestoreLegacy(a) => p == AssetFile(a) || p == BackupFile(a)
      case CleanupCapability(cap, _) => p.InstalledCapability? && p.cap == cap
    }

    /** The files the action depends on. */
    predicate Watches(p: Path) {
      || Touches(p)
      || (StageCapability? && p.ReleaseFile? && p.commit == commit && p.entry.Shipped? && p.entry.cap == cap)
      || (RemoveRelease? && p == ReceiptFile(commit))
      || (CleanupCapability? && p.StagedFile? && p.cap == cap)
    }

    /** The file at `p` once the action is done. */
    function After(t: FileTree, p: Path): Option<Stored> {
      if !Touches(p) then Lookup(t, p) else
      match this
      case StageCapability(cap, c) =>
        var source := Lookup(t, ReleaseFile(c, Shipped(cap, p.name)));
        if source.Some? then source else Lookup(t, p)
      case RemoveRelease(_) => None
      case RemoveFile(_) => None
      case RestoreLegacy(a) =>
        if BackupFile(a) !in t then Lookup(t, p)
        else if p.AssetFile? then Lookup(t, BackupFile(a))
        else None
      case CleanupCapability(cap, _) =>
        if Lookup(t, p) == Lookup(t, StagedFile(cap, p.name)) then None else Lookup(t, p)
    }

    function Apply(t: FileTree): (r: FileTree)
      ensures forall p: Path :: Lookup(r, p) == After(t, p)
    {
      map p | p in t.Keys + Created(t) && After(t, p).Some? :: After(t, p).value
    }
  }

  /** Paths that do not exist yet and that an action may create. */
  function Created(t: FileTree): set<Path> {
    (set p | p in t && p.ReleaseFile? && p.entry.Shipped? :: StagedFile(p.entry.cap, p.entry.name))
    + (set p | p in t && p.BackupFile? :: AssetFile(p.asset))
  }

  /** The files after the first `n` actions. */
  function Prefix(t: FileTree, actions: seq<Action>, n: nat): FileTree
    requires n <= |actions|
  {
    if n == 0 then t else actions[n - 1].Apply(Prefix(t, actions, n - 1))
  }

  /** The files after an uninstall that nothing interrupts. */
  function Uninstalled(t: FileTree, actions: seq<Action>): FileTree {
    Prefix(t, actions, |actions|)
  }

  // ---------------------------------------------------------------------------------------------
  // Order

  /** `a` may run before `b`: it leaves what `b` depends on alone, unless `b` cleans up what it staged. */
  ghost predicate MayPrecede(a: Action, b: Action) {
    forall p: Path :: a.Touches(p) && b.Watches(p) ==> a.StageCapability? && b.CleanupCapability?
  }

  ghost predicate WellOrdered(actions: seq<Action>) {
    && (forall k, m | 0 <= k < m < |actions| :: MayPrecede(actions[k], actions[m]))
    && (forall m | 0 <= m < |actions| && actions[m].CleanupCapability? ::
          exists k :: 0 <= k < m && actions[k] == StageCapability(actions[m].cap, actions[m].commit))
  }

  /** Until its turn comes, everything an action depends on is as it was at the start. */
  lemma {:induction false} UntilItsTurn(t: FileTree, actions: seq<Action>, n: nat, k: nat, p: Path)
    requires WellOrdered(actions) && n <= k < |actions| && actions[k].Watches(p)
    requires !(actions[k].CleanupCapability? && p.StagedFile?)
    ensures Lookup(Prefix(t, actions, n), p) == Lookup(t, p)
  {
    hide Prefix, Action.After;
    if n > 0 {
      UntilItsTurn(t, actions, n - 1, k, p);
      assert MayPrecede(actions[n - 1], actions[k]);
      assert !actions[n - 1].Touches(p);
      PrefixStep(t, actions, n, p);
    } else {
      NothingDone(t, actions);
    }
  }

  lemma NothingDone(t: FileTree, actions: seq<Action>)
    ensures Prefix(t, actions, 0) == t
  {
  }

  lemma PrefixStep(t: FileTree, actions: seq<Action>, n: nat, p: Path)
    requires 0 < n <= |actions|
    ensures Lookup(Prefix(t, actions, n), p) == actions[n - 1].After(Prefix(t, actions, n - 1), p)
    ensures !actions[n - 1].Touches(p) ==> Lookup(Prefix(t, actions, n), p) == Lookup(Prefix(t, actions, n - 1), p)
  {
  }

  /** No file is touched twice. */
  lemma TouchesOnce(a: Action, b: Action, p: Path)
    requires MayPrecede(a, b) && a.Touches(p)
    ensures !b.Touches(p)
  {
    assert b.Watches(p) ==> a.StageCapability? && b.CleanupCapability?;
  }

  /** Once staged, a capability's copy stays what its release shipped. */
  lemma {:induction false} StaysStaged(t: FileTree, actions: seq<Action>, k: nat, n: nat, name: string)
    requires WellOrdered(actions) && k < n <= |actions| && actions[k].StageCapability?
    requires forall p | p in t :: !p.StagedFile?
    ensures var cap := actions[k].cap;
            Lookup(Prefix(t, actions, n), StagedFile(cap, name))
              == Lookup(t, ReleaseFile(actions[k].commit, Shipped(cap, name)))
  {
    hide Prefix, Action.Watches;
    var staged := StagedFile(actions[k].cap, name);
    PrefixStep(t, actions, n, staged);
    if n == k + 1 {
      StagingSources(t, actions, k, name);
    } else {
      StaysStaged(t, actions, k, n - 1, name);
      TouchesOnce(actions[k], actions[n - 1], staged);
    }
  }

  /** When a capability is staged, nothing is staged yet and its release is as it was. */
  lemma StagingSources(t: FileTree, actions: seq<Action>, k: nat, name: string)
    requires WellOrdered(actions) && k < |actions| && actions[k].StageCapability?
    requires forall p | p in t :: !p.StagedFile?
    ensures Lookup(Prefix(t, actions, k), StagedFile(actions[k].cap, name)).None?
    ensures var source := ReleaseFile(actions[k].commit, Shipped(actions[k].cap, name));
            Lookup(Prefix(t, actions, k), source) == Lookup(t, source)
  {
    hide Prefix;
    UntilItsTurn(t, actions, k, k, StagedFile(actions[k].cap, name));
    UntilItsTurn(t, actions, k, k, ReleaseFile(actions[k].commit, Shipped(actions[k].cap, name)));
  }

  /** The one action that touches a file decides what becomes of it. */
  lemma {:induction false} DecidedBy(t: FileTree, actions: seq<Action>, k: nat, n: nat, p: Path)
    requires WellOrdered(actions) && k < n <= |actions| && actions[k].Touches(p)
    ensures Lookup(Prefix(t, actions, n), p) == actions[k].After(Prefix(t, actions, k), p)
  {
    hide Prefix, Action.After, Action.Touches, Action.Watches;
    PrefixStep(t, actions, n, p);
    if n > k + 1 {
      DecidedBy(t, actions, k, n - 1, p);
      TouchesOnce(actions[k], actions[n - 1], p);
    }
  }

  lemma {:induction false} LeftAlone(t: FileTree, actions: seq<Action>, n: nat, p: Path)
    requires n <= |actions| && forall a | a in actions :: !a.Touches(p)
    ensures Lookup(Prefix(t, actions, n), p) == Lookup(t, p)
  {
    hide Prefix, Action.Touches, Action.After;
    if n > 0 {
      LeftAlone(t, actions, n - 1, p);
      assert actions[n - 1] in actions;
      PrefixStep(t, actions, n, p);
    } else {
      NothingDone(t, actions);
    }
  }

  /** Every file that ever exists during an uninstall. */
  function Universe(start: FileTree): set<Path> {
    start.Keys + Created(start)
  }

  lemma ApplyStaysInside(a: Action, t: FileTree, p: Path)
    requires p in a.Apply(t)
    ensures p in t || p in Created(t)
    ensures p.ReleaseFile? || p.BackupFile? ==> p in t
  {
    assert Lookup(a.Apply(t), p) == a.After(t, p);
    if p !in t {
      match a
      case StageCapability(cap, c) => assert ReleaseFile(c, Shipped(cap, p.name)) in t;
      case RestoreLegacy(x) => assert BackupFile(x) in t;
      case _ =>
    }
  }

  lemma CreatedByFewer(t: FileTree, start: FileTree)
    requires forall p | p in t && (p.ReleaseFile? || p.BackupFile?) :: p in start
    ensures Created(t) <= Created(start)
  {
  }

  lemma {:induction false} PrefixStaysInside(t: FileTree, actions: seq<Action>, n: nat)
    requires n <= |actions|
    ensures Prefix(t, actions, n).Keys <= Universe(t)
    ensures forall p | p in Prefix(t, actions, n) && (p.ReleaseFile? || p.BackupFile?) :: p in t
  {
    hide Action.Apply, Action.After, Created;
    if n > 0 {
      PrefixStaysInside(t, actions, n - 1);
      var before := Prefix(t, actions, n - 1);
      CreatedByFewer(before, t);
      forall p | p in Prefix(t, actions, n)
        ensures p in Universe(t) && (p.ReleaseFile? || p.BackupFile? ==> p in t)
      {
        ApplyStaysInside(actions[n - 1], before, p);
      }
    }
  }

  /** An interrupted action leaves nothing that neither the state before nor the state after has. */
  lemma PartialStaysInside(a: Action, before: FileTree, now: FileTree)
    requires Partial(a, before, now)
    ensures now.Keys <= before.Keys + a.Apply(before).Keys
  {
    forall p | p in now ensures p in before || p in a.Apply(before) {
      assert Lookup(a.Apply(before), p) == a.After(before, p);
      assert Lookup(now, p) == Some(now[p]);
    }
  }

  // ---------------------------------------------------------------------------------------------
  // Interrupted actions

  /** What an interrupted action may leave: each file as before or as after it, or a target removed
      whose backup has not replaced it yet. */
  ghost predicate Partial(a: Action, before: FileTree, now: FileTree) {
    if a.RestoreLegacy? then
      || now == before
      || (BackupFile(a.asset) in before && now == before - {AssetFile(a.asset)})
      || now == a.Apply(before)
    else
      forall p: Path :: Lookup(now, p) == Lookup(before, p) || Lookup(now, p) == a.After(before, p)
  }

  /** Doing a partly done action again ends where doing it once would have. */
  lemma RedoingCompletes(a: Action, before: FileTree, now: FileTree)
    requires Partial(a, before, now)
    ensures a.Apply(now) == a.Apply(before)
  {
    forall p: Path ensures a.After(now, p) == a.After(before, p) {
      if a.RestoreLegacy? {
        assert Lookup(a.Apply(before), BackupFile(a.asset)) == a.After(before, BackupFile(a.asset));
        assert Lookup(a.Apply(before), p) == a.After(before, p);
      } else if a.Touches(p) && a.StageCapability? {
        assert Lookup(now, ReleaseFile(a.commit, Shipped(a.cap, p.name)))
            == Lookup(before, ReleaseFile(a.commit, Shipped(a.cap, p.name)));
      } else if a.Touches(p) && a.CleanupCapability? {
        assert Lookup(now, StagedFile(a.cap, p.name)) == Lookup(before, StagedFile(a.cap, p.name));
      }
    }
    forall p: Path ensures Lookup(a.Apply(now), p) == Lookup(a.Apply(before), p) {
      assert a.After(now, p) == a.After(before, p);
    }
    SameTree(a.Apply(now), a.Apply(before));
  }

  /** An interruption of the repetition is again only an interruption of the action. */
  lemma PartialTransitive(a: Action, before: FileTree, middle: FileTree, now: FileTree)
    requires Partial(a, before, middle) && Partial(a, middle, now)
    ensures Partial(a, before, now)
  {
    RedoingCompletes(a, before, middle);
    if !a.RestoreLegacy? {
      forall p: Path ensures Lookup(now, p) == Lookup(before, p) || Lookup(now, p) == a.After(before, p) {
        assert Lookup(a.Apply(middle), p) == a.After(middle, p);
        assert Lookup(a.Apply(before), p) == a.After(before, p);
        assert Lookup(middle, p) == Lookup(before, p) || Lookup(middle, p) == a.After(before, p);
      }
    }
  }
}
