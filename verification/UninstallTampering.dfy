/**
 What resuming an uninstall accepts of files that were changed meanwhile, in terms of the files as
 they were at the start (install/bootstrap/transaction.py:1562-1567, 1632-1666, 1786-1910).
 */
module UninstallTampering {
  import opened BootstrapAssets
  import opened UninstallActions
  import opened UninstallJournal
  import opened UninstallRun
  import opened Wrappers

  predicate Unchanged(start: FileTree, t: FileTree, p: Path) {
    Lookup(t, p) == Lookup(start, p)
  }

  /** A file that is being removed: gone already, or as it was. */
  predicate GoneOrUnchanged(start: FileTree, t: FileTree, p: Path) {
    p !in t || Unchanged(start, t, p)
  }

  /** The staged files of a capability, and no others, are what the release shipped at the start. */
  ghost predicate StagedInFull(start: FileTree, t: FileTree, cap: Capability, c: CommitId) {
    forall name: string :: Lookup(t, StagedFile(cap, name)) == Lookup(start, ReleaseFile(c, Shipped(cap, name)))
  }

  ghost predicate NoneStaged(t: FileTree, cap: Capability) {
    forall name: string :: StagedFile(cap, name) !in t
  }

  /** Every staged file is what the release shipped at the start. */
  ghost predicate StagedInPart(start: FileTree, t: FileTree, cap: Capability, c: CommitId) {
    forall name: string | StagedFile(cap, name) in t ::
      Lookup(t, StagedFile(cap, name)) == Lookup(start, ReleaseFile(c, Shipped(cap, name)))
  }

  /** The displaced file is where it was; once the restore has begun, the installed one may be gone or replaced. */
  predicate RestorableAsItWas(x: Asset, begun: bool, start: FileTree, t: FileTree) {
    || (Unchanged(start, t, BackupFile(x)) && Unchanged(start, t, AssetFile(x)))
    || (begun && Unchanged(start, t, BackupFile(x)) && AssetFile(x) !in t)
    || (begun && BackupFile(x) !in t && Lookup(t, AssetFile(x)) == Lookup(start, BackupFile(x)))
  }

  /** What an unfinished action finds is what it found at the start, or what it may have made of it. */
  ghost predicate AsItWas(a: Action, begun: bool, start: FileTree, t: FileTree) {
    match a
    case RemoveRelease(c) =>
      forall entry: Entry ::
        if begun then GoneOrUnchanged(start, t, ReleaseFile(c, entry)) else Unchanged(start, t, ReleaseFile(c, entry))
    case RemoveFile(p) => if begun then GoneOrUnchanged(start, t, p) else Unchanged(start, t, p)
    case RestoreLegacy(x) => RestorableAsItWas(x, begun, start, t)
    case StageCapability(cap, c) =>
      && (forall name: string :: Unchanged(start, t, ReleaseFile(c, Shipped(cap, name))))
      && if begun then StagedInPart(start, t, cap, c) else NoneStaged(t, cap) || StagedInFull(start, t, cap, c)
    case CleanupCapability(cap, c) => StagedInFull(start, t, cap, c)
  }

  /** A cleanup is looked at only once its capability is staged. */
  predicate IsDue(j: Journal, k: nat)
    requires |j.states| == |j.actions| && k < |j.actions|
  {
    !j.states[k].Done?
    && (j.actions[k].CleanupCapability? ==>
          forall m | 0 <= m < |j.actions| ::
            j.actions[m].StageCapability? && j.actions[m].cap == j.actions[k].cap ==> j.states[m].Done?)
  }

  /** The log is in order, and whatever is left to do finds its files as they were. */
  ghost predicate Resumable(start: FileTree, f: Files)
    requires WellFormed(f)
  {
    var j := f.journal.value;
    && (forall k, m | 0 <= k < m < |j.states| :: j.states[m] != Pending ==> j.states[k] == Done)
    && (j.committed ==> forall k | 0 <= k < |j.states| :: j.states[k] == Done)
    && GoneOrUnchanged(start, f.tree, LayoutFile)
    && forall k | 0 <= k < |j.actions| && IsDue(j, k) :: AsItWas(j.actions[k], j.states[k] == Begun, start, f.tree)
  }

  lemma InventoryAt(a: Action, t: FileTree, p: Path)
    ensures Lookup(Inventory(a, t), p) == if Recorded(a, p) then Lookup(t, p) else None
  {
  }

  lemma StagedAt(a: Action, t: FileTree, p: Path)
    requires a.StageCapability? || a.CleanupCapability?
    ensures Lookup(StagedInventory(a, t), p)
         == if p.ReleaseFile? && p.commit == a.commit && p.entry.Shipped? && p.entry.cap == a.cap
            then Lookup(t, StagedFile(a.cap, p.entry.name)) else None
  {
    if p.ReleaseFile? && p.commit == a.commit && p.entry.Shipped? && p.entry.cap == a.cap {
      assert SourceOf(a, StagedFile(a.cap, p.entry.name)) == p;
    }
  }

  lemma EqualTrees(t: FileTree, u: FileTree)
    ensures t == u <==> forall p: Path :: Lookup(t, p) == Lookup(u, p)
  {
    if forall p: Path :: Lookup(t, p) == Lookup(u, p) {
      SameTree(t, u);
    }
  }

  lemma SurvivesAt(t: FileTree, u: FileTree)
    ensures Survives(t, u) <==> forall p: Path :: Lookup(t, p).None? || Lookup(t, p) == Lookup(u, p)
  {
    if forall p: Path :: Lookup(t, p).None? || Lookup(t, p) == Lookup(u, p) {
      forall p | p in t ensures p in u && u[p] == t[p] {
        assert Lookup(t, p) == Lookup(u, p);
      }
    }
  }

  /** The recorded inventory against the one found, file by file. */
  lemma InventoryMeans(a: Action, start: FileTree, t: FileTree)
    ensures Inventory(a, t) == Inventory(a, start) <==> forall p: Path | Recorded(a, p) :: Unchanged(start, t, p)
    ensures Survives(Inventory(a, t), Inventory(a, start))
       <==> forall p: Path | Recorded(a, p) :: GoneOrUnchanged(start, t, p)
  {
    hide Recorded, Inventory, Survives;
    var found, recorded := Inventory(a, t), Inventory(a, start);
    forall p: Path
      ensures Lookup(found, p) == if Recorded(a, p) then Lookup(t, p) else None
      ensures Lookup(recorded, p) == if Recorded(a, p) then Lookup(start, p) else None
    {
      InventoryAt(a, t, p);
      InventoryAt(a, start, p);
    }
    EqualTrees(found, recorded);
    SurvivesAt(found, recorded);
    if forall p: Path :: Lookup(found, p) == Lookup(recorded, p) {
      forall p: Path | Recorded(a, p) ensures Unchanged(start, t, p) {
        assert Lookup(found, p) == Lookup(recorded, p);
      }
    }
    if forall p: Path :: Lookup(found, p).None? || Lookup(found, p) == Lookup(recorded, p) {
      forall p: Path | Recorded(a, p) ensures GoneOrUnchanged(start, t, p) {
        assert Lookup(found, p).None? || Lookup(found, p) == Lookup(recorded, p);
      }
    }
  }

  /** The staged inventory against the recorded one, name by name. */
  lemma StagedMeans(a: Action, start: FileTree, t: FileTree)
    requires a.StageCapability? || a.CleanupCapability?
    ensures StagedInventory(a, t) == Inventory(a, start) <==> StagedInFull(start, t, a.cap, a.commit)
    ensures Survives(StagedInventory(a, t), Inventory(a, start)) <==> StagedInPart(start, t, a.cap, a.commit)
    ensures StagedInventory(a, t) == map[] <==> NoneStaged(t, a.cap)
  {
    hide Recorded, Inventory, StagedInventory, Survives;
    var found, recorded := StagedInventory(a, t), Inventory(a, start);
    forall p: Path
      ensures if p.ReleaseFile? && p.commit == a.commit && p.entry.Shipped? && p.entry.cap == a.cap
        then Lookup(found, p) == Lookup(t, StagedFile(a.cap, p.entry.name)) && Lookup(recorded, p) == Lookup(start, p)
        else Lookup(found, p) == Lookup(recorded, p) == None
    {
      StagedAt(a, t, p);
      InventoryAt(a, start, p);
      RecordedSources(a, p);
    }
    EqualTrees(found, recorded);
    SurvivesAt(found, recorded);
    forall name: string
      ensures var p := ReleaseFile(a.commit, Shipped(a.cap, name));
        Lookup(found, p) == Lookup(t, StagedFile(a.cap, name)) && Lookup(recorded, p) == Lookup(start, p)
    {
      assert ReleaseFile(a.commit, Shipped(a.cap, name)).entry.name == name;
    }
    StagedNames(a, start, t, found, recorded);
  }

  lemma RecordedSources(a: Action, p: Path)
    requires a.StageCapability? || a.CleanupCapability?
    ensures Recorded(a, p) <==> p.ReleaseFile? && p.commit == a.commit && p.entry.Shipped? && p.entry.cap == a.cap
  {
  }

  lemma StagedNames(a: Action, start: FileTree, t: FileTree, found: FileTree, recorded: FileTree)
    requires a.StageCapability? || a.CleanupCapability?
    requires forall p: Path ::
      if p.ReleaseFile? && p.commit == a.commit && p.entry.Shipped? && p.entry.cap == a.cap
      then Lookup(found, p) == Lookup(t, StagedFile(a.cap, p.entry.name)) && Lookup(recorded, p) == Lookup(start, p)
      else Lookup(found, p) == Lookup(recorded, p) == None
    ensures (forall p: Path :: Lookup(found, p) == Lookup(recorded, p)) <==> StagedInFull(start, t, a.cap, a.commit)
    ensures (forall p: Path :: Lookup(found, p).None? || Lookup(found, p) == Lookup(recorded, p))
       <==> StagedInPart(start, t, a.cap, a.commit)
    ensures found == map[] <==> NoneStaged(t, a.cap)
  {
    forall name: string
      ensures var p := ReleaseFile(a.commit, Shipped(a.cap, name));
        Lookup(found, p) == Lookup(t, StagedFile(a.cap, name)) && Lookup(recorded, p) == Lookup(start, p)
    {
      assert ReleaseFile(a.commit, Shipped(a.cap, name)).entry.name == name;
    }
    EqualTrees(found, map[]);
    if NoneStaged(t, a.cap) {
      forall p: Path ensures Lookup(found, p) == Lookup(map[], p) {
        if p.ReleaseFile? && p.commit == a.commit && p.entry.Shipped? && p.entry.cap == a.cap {
          assert StagedFile(a.cap, p.entry.name) !in t;
        }
      }
    }
  }

  /** The check of one action, in terms of the files at the start. */
  lemma ContentMeans(a: Action, state: State, start: FileTree, layout: Layout, t: FileTree)
    requires Sound(a, start, layout) && !state.Done?
    ensures ContentValid(a, state, Inventory(a, start), layout, t) <==> AsItWas(a, state.Begun?, start, t)
  {
    match a {
      case RemoveRelease(c) => ReleaseMeans(a, state, start, layout, t);
      case RemoveFile(p) => FileMeans(a, state, start, layout, t);
      case RestoreLegacy(x) => RestoreMeans(a, state, start, layout, t);
      case StageCapability(cap, c) => StageMeans(a, state, start, layout, t);
      case CleanupCapability(cap, c) => StagedMeans(a, start, t);
    }
  }

  lemma ReleaseMeans(a: Action, state: State, start: FileTree, layout: Layout, t: FileTree)
    requires a.RemoveRelease? && !state.Done?
    ensures ContentValid(a, state, Inventory(a, start), layout, t) <==> AsItWas(a, state.Begun?, start, t)
  {
    hide Inventory, Survives;
    InventoryMeans(a, start, t);
    forall p: Path ensures Recorded(a, p) <==> p.ReleaseFile? && p == ReleaseFile(a.commit, p.entry) {
    }
    assert forall entry: Entry :: Recorded(a, ReleaseFile(a.commit, entry));
  }

  lemma FileMeans(a: Action, state: State, start: FileTree, layout: Layout, t: FileTree)
    requires a.RemoveFile? && Sound(a, start, layout) && !state.Done?
    ensures ContentValid(a, state, Inventory(a, start), layout, t) <==> AsItWas(a, state.Begun?, start, t)
  {
    hide Survives;
    InventoryMeans(a, start, t);
    assert forall p: Path :: Recorded(a, p) <==> p == a.path;
    assert Inventory(a, start) == map[a.path := start[a.path]];
    hide Inventory;
  }

  lemma RestoreMeans(a: Action, state: State, start: FileTree, layout: Layout, t: FileTree)
    requires a.RestoreLegacy? && Sound(a, start, layout) && !state.Done?
    ensures ContentValid(a, state, Inventory(a, start), layout, t) <==> AsItWas(a, state.Begun?, start, t)
  {
    hide Inventory;
    RestoreRecord(a, start, layout);
    var x := a.asset;
    var original, installed := Plain(layout.legacyBackups[x]), Plain(layout.assets[x]);
    assert Lookup(start, BackupFile(x)) == Some(original) && Lookup(start, AssetFile(x)) == Some(installed);
  }

  lemma RestoreRecord(a: Action, start: FileTree, layout: Layout)
    requires a.RestoreLegacy? && Sound(a, start, layout)
    ensures Inventory(a, start) == map[
      BackupFile(a.asset) := Plain(layout.legacyBackups[a.asset]), AssetFile(a.asset) := Plain(layout.assets[a.asset])]
  {
    assert Recorded(a, BackupFile(a.asset)) && Recorded(a, AssetFile(a.asset));
  }

  lemma StageMeans(a: Action, state: State, start: FileTree, layout: Layout, t: FileTree)
    requires a.StageCapability? && !state.Done?
    ensures ContentValid(a, state, Inventory(a, start), layout, t) <==> AsItWas(a, state.Begun?, start, t)
  {
    hide Inventory, StagedInventory, Survives, StagedInFull, Recorded;
    InventoryMeans(a, start, t);
    StagedMeans(a, start, t);
    forall p: Path
      ensures Recorded(a, p) <==>
        p.ReleaseFile? && p.entry.Shipped? && p == ReleaseFile(a.commit, Shipped(a.cap, p.entry.name))
    {
      RecordedSources(a, p);
    }
    assert forall name: string :: Recorded(a, ReleaseFile(a.commit, Shipped(a.cap, name)));
  }

  /** The journal was published for this start: its evidence is that of the start. */
  ghost predicate Published(start: FileTree, layout: Layout, f: Files) {
    && WellFormed(f) && Preflight(start, layout, f.journal.value.actions)
    && Lookup(start, LayoutFile) == Some(f.journal.value.layoutContent) && f.evidence.value.layout == layout
    && forall k | 0 <= k < |f.journal.value.actions| ::
         f.evidence.value.records[k] == Inventory(f.journal.value.actions[k], start)
  }

  /**
   Whatever has become of the files and of the log since the start: resuming is accepted if and only if
   the log is in order and what is left to do finds its files as they were, or as it may have left them.
   */
  lemma AcceptedIffResumable(start: FileTree, layout: Layout, f: Files)
    requires Published(start, layout, f)
    ensures JournalAccepted(f) <==> Resumable(start, f)
  {
    hide ContentValid, AsItWas, Inventory, WellOrdered;
    var j := f.journal.value;
    forall k | 0 <= k < |j.actions|
      ensures ActionAccepted(f, k) <==> (IsDue(j, k) ==> AsItWas(j.actions[k], j.states[k] == Begun, start, f.tree))
    {
      DueMeans(j, k);
      if j.states[k].Done? {
        DoneIsAccepted(f, k);
      } else {
        ContentMeans(j.actions[k], j.states[k], start, layout, f.tree);
      }
    }
    OrderMeans(j.states);
  }

  lemma DueMeans(j: Journal, k: nat)
    requires |j.states| == |j.actions| && k < |j.actions|
    ensures IsDue(j, k) <==> !j.states[k].Done? && !CleanupNotDue(j, k)
  {
  }

  lemma OrderMeans(states: seq<State>)
    ensures InOrder(states) <==> forall k, m | 0 <= k < m < |states| :: states[m] != Pending ==> states[k] == Done
    ensures AllDone(states) <==> forall k | 0 <= k < |states| :: states[k] == Done
  {
  }

  /** The states of a run are published for its start. */
  lemma RunningIsPublished(start: FileTree, layout: Layout, actions: seq<Action>, f: Files, n: nat, t: FileTree)
    requires Running(start, layout, actions, f, n)
    ensures Published(start, layout, f.(tree := t)) && WellFormed(f.(tree := t)) && WellFormed(f)
    ensures f.journal.value.actions == actions
  {
    hide Preflight, Inventory;
  }

  /** `other` is put in the place of `p`, or `p` is removed. */
  function Tampered(t: FileTree, p: Path, other: Option<Stored>): FileTree {
    match other
    case None => t - {p}
    case Some(s) => t[p := s]
  }

  lemma TamperedAt(t: FileTree, p: Path, other: Option<Stored>, q: Path)
    ensures Lookup(Tampered(t, p, other), q) == if q == p then other else Lookup(t, q)
  {
  }

  /** A file that an unfinished removal is about, or one that an unfinished restore has not touched yet. */
  predicate Awaits(a: Action, p: Path) {
    match a
    case RemoveRelease(c) => p.ReleaseFile? && p.commit == c
    case RemoveFile(q) => p == q
    case RestoreLegacy(x) => p == AssetFile(x) || p == BackupFile(x)
    case _ => false
  }

  /**
   One changed file in a run: while its action is pending, resuming is accepted if and only if the file
   is what it was at the start; once its removal has begun, it may also be gone.
   */
  lemma TamperingIsAcceptedIff(
    start: FileTree, layout: Layout, actions: seq<Action>, f: Files, n: nat, k: nat, p: Path, other: Option<Stored>)
    requires Running(start, layout, actions, f, n) && n <= k < |actions| && Awaits(actions[k], p)
    requires f.journal.value.states[k].Begun? ==> !actions[k].RestoreLegacy?
    ensures var g := f.(tree := Tampered(f.tree, p, other));
      && WellFormed(g)
      && (f.journal.value.states[k].Pending? ==> (JournalAccepted(g) <==> other == Lookup(start, p)))
      && (f.journal.value.states[k].Begun? ==> (JournalAccepted(g) <==> other == None || other == Lookup(start, p)))
  {
    hide JournalAccepted, Running, Published, AsItWas, Preflight, Resumable;
    var g := f.(tree := Tampered(f.tree, p, other));
    RunningIsPublished(start, layout, actions, f, n, g.tree);
    RunningIsPublished(start, layout, actions, f, n, f.tree);
    assert f.(tree := f.tree) == f;
    EveryInterruptionIsAccepted(start, layout, actions, f, n);
    AcceptedIffResumable(start, layout, f);
    AcceptedIffResumable(start, layout, g);
    TamperedFileDecides(start, layout, actions, f, n, k, p, other);
  }

  lemma TamperedFileDecides(
    start: FileTree, layout: Layout, actions: seq<Action>, f: Files, n: nat, k: nat, p: Path, other: Option<Stored>)
    requires Running(start, layout, actions, f, n) && n <= k < |actions| && Awaits(actions[k], p)
    requires f.journal.value.states[k].Begun? ==> !actions[k].RestoreLegacy?
    requires WellFormed(f) && Resumable(start, f)
    ensures var g := f.(tree := Tampered(f.tree, p, other));
      Resumable(start, g) <==>
        other == Lookup(start, p) || (f.journal.value.states[k].Begun? && other == None)
  {
    hide Preflight, Inventory, TreeAt, ProofsKept, AsItWas, Tampered;
    var g, j := f.(tree := Tampered(f.tree, p, other)), f.journal.value;
    TamperedAt(f.tree, p, other, p);
    assert IsDue(j, k) && !j.states[k].Done?;
    if Resumable(start, g) {
      AwaitedAsItWas(actions[k], j.states[k].Begun?, start, g.tree, p);
    }
    if other == Lookup(start, p) || (j.states[k].Begun? && other == None) {
      HarmlessIsResumable(start, layout, actions, f, n, k, p, other);
    }
  }

  lemma HarmlessIsResumable(
    start: FileTree, layout: Layout, actions: seq<Action>, f: Files, n: nat, k: nat, p: Path, other: Option<Stored>)
    requires Running(start, layout, actions, f, n) && n <= k < |actions| && Awaits(actions[k], p)
    requires f.journal.value.states[k].Begun? ==> !actions[k].RestoreLegacy?
    requires WellFormed(f) && Resumable(start, f)
    requires other == Lookup(start, p) || (f.journal.value.states[k].Begun? && other == None)
    ensures Resumable(start, f.(tree := Tampered(f.tree, p, other)))
  {
    hide Running, AsItWas, Tampered;
    RunningIsPublished(start, layout, actions, f, n, f.tree);
    var g, j := f.(tree := Tampered(f.tree, p, other)), f.journal.value;
    TamperedAt(f.tree, p, other, LayoutFile);
    assert GoneOrUnchanged(start, g.tree, LayoutFile);
    forall m | 0 <= m < |actions| && IsDue(j, m) ensures AsItWas(actions[m], j.states[m] == Begun, start, g.tree) {
      DueStaysAsItWas(start, layout, actions, f, n, k, p, other, m);
    }
    forall m | 0 <= m < |g.journal.value.actions| && IsDue(g.journal.value, m)
      ensures AsItWas(g.journal.value.actions[m], g.journal.value.states[m] == Begun, start, g.tree)
    {
      assert IsDue(j, m);
    }
  }

  lemma DueStaysAsItWas(
    start: FileTree, layout: Layout, actions: seq<Action>, f: Files, n: nat, k: nat, p: Path, other: Option<Stored>, m: nat)
    requires Running(start, layout, actions, f, n) && n <= k < |actions| && Awaits(actions[k], p)
    requires f.journal.value.states[k].Begun? ==> !actions[k].RestoreLegacy?
    requires WellFormed(f) && Resumable(start, f) && m < |actions| && IsDue(f.journal.value, m)
    requires other == Lookup(start, p) || (f.journal.value.states[k].Begun? && other == None)
    ensures AsItWas(actions[m], f.journal.value.states[m] == Begun, start, Tampered(f.tree, p, other))
  {
    hide Preflight, Inventory, TreeAt, ProofsKept, AsItWas, Tampered;
    var u, states := Tampered(f.tree, p, other), f.journal.value.states;
    forall q: Path ensures Lookup(u, q) == if q == p then other else Lookup(f.tree, q) {
      TamperedAt(f.tree, p, other, q);
    }
    assert IsDue(f.journal.value, k);
    AwaitedAsItWas(actions[k], states[k].Begun?, start, f.tree, p);
    if states[k].Pending? {
      SameTree(u, f.tree);
    } else if m == k {
      AwaitedMayGo(actions[k], start, f.tree, u, p);
    } else {
      LaterActionsDoNotMind(start, layout, actions, f, n, m, p);
      OthersAsTheyWere(actions[m], states[m] == Begun, start, f.tree, u, p);
    }
  }

  /** An awaited file of an action that finds everything as it was is as it was. */
  lemma AwaitedAsItWas(a: Action, begun: bool, start: FileTree, t: FileTree, p: Path)
    requires Awaits(a, p) && AsItWas(a, begun, start, t) && (begun ==> !a.RestoreLegacy?)
    ensures if begun then GoneOrUnchanged(start, t, p) else Unchanged(start, t, p)
  {
  }

  /** A begun removal finds everything as it may be, also when one of its files is gone or back. */
  lemma AwaitedMayGo(a: Action, start: FileTree, t: FileTree, u: FileTree, p: Path)
    requires Awaits(a, p) && AsItWas(a, true, start, t) && !a.RestoreLegacy? && GoneOrUnchanged(start, u, p)
    requires forall q: Path | q != p :: Lookup(u, q) == Lookup(t, q)
    ensures AsItWas(a, true, start, u)
  {
    if a.RemoveRelease? {
      forall entry: Entry ensures GoneOrUnchanged(start, u, ReleaseFile(a.commit, entry)) {
        var q := ReleaseFile(a.commit, entry);
        assert GoneOrUnchanged(start, t, q);
        assert q != p ==> Lookup(u, q) == Lookup(t, q);
      }
    }
  }

  /** What an action does not depend on does not matter to it. */
  lemma OthersAsTheyWere(a: Action, begun: bool, start: FileTree, t: FileTree, u: FileTree, p: Path)
    requires AsItWas(a, begun, start, t) && !a.Watches(p)
    requires forall q: Path | q != p :: Lookup(u, q) == Lookup(t, q)
    ensures AsItWas(a, begun, start, u)
  {
    forall q: Path | a.Watches(q)
      ensures Lookup(u, q) == Lookup(t, q) && (q in u <==> q in t)
    {
      assert q != p;
      assert Lookup(u, q) == Lookup(t, q);
    }
    match a {
      case RemoveRelease(c) => assert forall entry: Entry :: a.Watches(ReleaseFile(c, entry));
      case RemoveFile(q) => assert a.Watches(q);
      case RestoreLegacy(x) => assert a.Watches(AssetFile(x)) && a.Watches(BackupFile(x));
      case StageCapability(cap, c) =>
        assert forall name: string :: a.Watches(StagedFile(cap, name)) && a.Watches(ReleaseFile(c, Shipped(cap, name)));
        StagedElsewhere(a, start, t, u);
      case CleanupCapability(cap, c) =>
        assert forall name: string :: a.Watches(StagedFile(cap, name));
        StagedElsewhere(a, start, t, u);
    }
  }

  lemma StagedElsewhere(a: Action, start: FileTree, t: FileTree, u: FileTree)
    requires a.StageCapability? || a.CleanupCapability?
    requires forall name: string :: Lookup(u, StagedFile(a.cap, name)) == Lookup(t, StagedFile(a.cap, name))
    ensures StagedInFull(start, u, a.cap, a.commit) == StagedInFull(start, t, a.cap, a.commit)
    ensures StagedInPart(start, u, a.cap, a.commit) == StagedInPart(start, t, a.cap, a.commit)
    ensures NoneStaged(u, a.cap) == NoneStaged(t, a.cap)
  {
    assert forall name: string :: StagedFile(a.cap, name) in u <==> StagedFile(a.cap, name) in t by {
      forall name: string ensures StagedFile(a.cap, name) in u <==> StagedFile(a.cap, name) in t {
        assert Lookup(u, StagedFile(a.cap, name)) == Lookup(t, StagedFile(a.cap, name));
      }
    }
  }

  /** The actions left after a begun one do not depend on the files it is about. */
  lemma LaterActionsDoNotMind(
    start: FileTree, layout: Layout, actions: seq<Action>, f: Files, n: nat, m: nat, p: Path)
    requires Running(start, layout, actions, f, n) && n < |actions| && Awaits(actions[n], p)
    requires m < |actions| && m != n && !f.journal.value.states[m].Done?
    ensures !actions[m].Watches(p)
  {
    assert m > n && MayPrecede(actions[n], actions[m]) && actions[n].Touches(p);
  }

  // ---------------------------------------------------------------------------------------------
  // Changed evidence

  /** The record is of this one file, with this content. */
  ghost predicate RecordsOnly(record: FileTree, p: Path, content: Content) {
    forall q: Path :: Lookup(record, q) == if q == p then Some(Plain(content)) else None
  }

  /**
   Whatever the evidence of a command file's removal says: it is accepted exactly if it is what the layout
   says, and the file is that, or gone once the removal has begun.
   */
  lemma AssetEvidenceMeans(x: Asset, state: State, record: FileTree, layout: Layout, t: FileTree)
    requires !state.Done?
    ensures ContentValid(RemoveFile(AssetFile(x)), state, record, layout, t) <==>
      && x in layout.assets && RecordsOnly(record, AssetFile(x), layout.assets[x])
      && (if AssetFile(x) in t then t[AssetFile(x)] == Plain(layout.assets[x]) else state.Begun?)
  {
    hide *;
    var p := AssetFile(x);
    AssetCheck(x, state, record, layout, t);
    FoundAsset(x, t);
    if x in layout.assets {
      SingleRecord(record, p, layout.assets[x]);
    }
  }

  lemma AssetCheck(x: Asset, state: State, record: FileTree, layout: Layout, t: FileTree)
    requires !state.Done?
    ensures ContentValid(RemoveFile(AssetFile(x)), state, record, layout, t) <==>
      && x in layout.assets && record == map[AssetFile(x) := Plain(layout.assets[x])]
      && (Inventory(RemoveFile(AssetFile(x)), t) == record
          || (state.Begun? && Inventory(RemoveFile(AssetFile(x)), t) == map[]))
  {
    FoundAsset(x, t);
    hide Inventory;
  }

  lemma FoundAsset(x: Asset, t: FileTree)
    ensures Inventory(RemoveFile(AssetFile(x)), t) == if AssetFile(x) in t then map[AssetFile(x) := t[AssetFile(x)]] else map[]
  {
  }

  lemma SingleRecord(record: FileTree, p: Path, content: Content)
    ensures record == map[p := Plain(content)] <==> RecordsOnly(record, p, content)
    ensures map[p := Plain(content)] != map[]
  {
    assert p in map[p := Plain(content)];
    if RecordsOnly(record, p, content) {
      SameTree(record, map[p := Plain(content)]);
    }
  }

  /**
   Whatever the evidence of a restoration says: it is accepted exactly if it is what the layout says of both
   files, and these are as they were or, once it has begun, as far as it can have come.
   */
  lemma RestoreEvidenceMeans(x: Asset, state: State, record: FileTree, layout: Layout, t: FileTree)
    requires !state.Done?
    ensures ContentValid(RestoreLegacy(x), state, record, layout, t) <==>
      && x in layout.assets && x in layout.legacyBackups
      && var (original, installed) := (Plain(layout.legacyBackups[x]), Plain(layout.assets[x]));
      && (forall q: Path :: Lookup(record, q) ==
            if q == BackupFile(x) then Some(original) else if q == AssetFile(x) then Some(installed) else None)
      && (|| (Lookup(t, BackupFile(x)) == Some(original) && Lookup(t, AssetFile(x)) == Some(installed))
          || (state.Begun? && Lookup(t, BackupFile(x)) == Some(original) && AssetFile(x) !in t)
          || (state.Begun? && BackupFile(x) !in t && Lookup(t, AssetFile(x)) == Some(original)))
  {
    if x in layout.assets && x in layout.legacyBackups {
      var original, installed := Plain(layout.legacyBackups[x]), Plain(layout.assets[x]);
      DoubleRecord(record, BackupFile(x), original, AssetFile(x), installed);
    }
  }

  lemma DoubleRecord(record: FileTree, p: Path, s: Stored, q: Path, u: Stored)
    requires p != q
    ensures record == map[p := s, q := u] <==>
              forall r: Path :: Lookup(record, r) == if r == p then Some(s) else if r == q then Some(u) else None
  {
    if forall r: Path :: Lookup(record, r) == if r == p then Some(s) else if r == q then Some(u) else None {
      SameTree(record, map[p := s, q := u]);
    }
  }

  // ---------------------------------------------------------------------------------------------
  // The proof of a release, and the last look at what was staged

  function GitFile(t: FileTree, c: CommitId, name: string): Option<Stored> {
    Lookup(t, ReleaseFile(c, GitEntry(name)))
  }

  function Vouched(proof: map<string, Stored>, name: string): Option<Stored> {
    if name in proof then Some(proof[name]) else None
  }

  lemma GitEntryAt(t: FileTree, c: CommitId, name: string)
    ensures Vouched(GitEntries(t, c), name) == GitFile(t, c, name)
  {
    assert ReleaseFile(c, GitEntry(name)).entry.name == name;
    if ReleaseFile(c, GitEntry(name)) in t {
      assert name in GitEntries(t, c);
    }
  }

  /**
   A release may be removed on this proof if and only if its receipt vouches for exactly this, no other
   proof was made durable, and its `.git` files are those vouched for: all of them while nothing of it
   has been removed on a durable proof, and no others after that.
   */
  lemma ProofIff(f: Files, c: CommitId, state: State, proof: map<string, Stored>)
    ensures GitRemovalProof(f, c, state) == Some(proof) <==>
      && Lookup(f.tree, ReceiptFile(c)) == Some(Receipt(proof))
      && (c in f.proofs ==> f.proofs[c] == proof)
      && (forall name: string :: GitFile(f.tree, c, name).None? || GitFile(f.tree, c, name) == Vouched(proof, name))
      && (c !in f.proofs || state == Pending ==>
            forall name: string :: GitFile(f.tree, c, name) == Vouched(proof, name))
  {
    hide GitEntries;
    var current := GitEntries(f.tree, c);
    forall name: string ensures Vouched(current, name) == GitFile(f.tree, c, name) {
      GitEntryAt(f.tree, c, name);
    }
    SameEntries(current, proof);
    SurvivingEntries(current, proof);
  }

  lemma SameEntries(current: map<string, Stored>, proof: map<string, Stored>)
    ensures current == proof <==> forall name: string :: Vouched(current, name) == Vouched(proof, name)
  {
    if forall name: string :: Vouched(current, name) == Vouched(proof, name) {
      forall name: string ensures name in current <==> name in proof {
        assert Vouched(current, name) == Vouched(proof, name);
      }
      forall name: string | name in current ensures current[name] == proof[name] {
        assert Vouched(current, name) == Vouched(proof, name);
      }
    }
  }

  lemma SurvivingEntries(current: map<string, Stored>, proof: map<string, Stored>)
    ensures GitSurvives(current, proof) <==>
      forall name: string :: Vouched(current, name).None? || Vouched(current, name) == Vouched(proof, name)
  {
    if forall name: string :: Vouched(current, name).None? || Vouched(current, name) == Vouched(proof, name) {
      forall name | name in current ensures name in proof && proof[name] == current[name] {
        assert Vouched(current, name) == Vouched(proof, name);
      }
    }
  }

  /** The end of a run accepts the staging directory exactly if it holds what was shipped and nothing else. */
  lemma StagingAcceptedIff(start: FileTree, layout: Layout, f: Files)
    requires Published(start, layout, f)
    ensures var actions := f.journal.value.actions;
      StagingValid(f) <==>
        && (forall k | 0 <= k < |actions| && actions[k].StageCapability? ::
              StagedInFull(start, f.tree, actions[k].cap, actions[k].commit))
        && (forall c | c in f.proofs :: RemoveRelease(c) in actions)
        && (forall cap: Capability, name: string | StagedFile(cap, name) in f.tree ::
              exists k :: 0 <= k < |actions| && actions[k].StageCapability? && actions[k].cap == cap)
  {
    hide Preflight, Inventory, StagedInventory, StagedInFull;
    var actions := f.journal.value.actions;
    forall k | 0 <= k < |actions| && actions[k].StageCapability?
      ensures StagedInventory(actions[k], f.tree) == f.evidence.value.records[k]
         <==> StagedInFull(start, f.tree, actions[k].cap, actions[k].commit)
    {
      StagedMeans(actions[k], start, f.tree);
    }
    assert forall cap: Capability, name: string :: StagedFile(cap, name).cap == cap;
  }
}
