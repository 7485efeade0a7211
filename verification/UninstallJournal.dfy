/**
 The uninstall journal: every action is logged before and after it runs, and an interrupted run is
 resumed from the log (install/bootstrap/transaction.py:1632-1666, 1796-1992, 2031-2105).
 */
module UninstallJournal {
  import opened BootstrapAssets
  import opened Durable
  import opened UninstallActions
  import opened Wrappers

  /** The log's `pending`, `before` and `after`. */
  datatype State = Pending | Begun | Done

  datatype Layout = Layout(assets: Tree, legacyBackups: Tree)

  /** The original contents, recorded before the first action. */
  datatype Evidence = Evidence(layout: Layout, records: seq<FileTree>)

  datatype Journal = Journal(actions: seq<Action>, states: seq<State>, committed: bool, layoutContent: Stored)

  datatype Files = Files(
    tree: FileTree,
    evidence: Option<Evidence>,
    journal: Option<Journal>,
    proofs: map<CommitId, map<string, Stored>>)

  datatype Refusal =
    | OutOfOrder | UnfinishedCommit | LayoutChanged | ContentChanged | ProofMissing | CleanupDeferred

  type Disk = Durable.Disk<Files>

  type Result = Outcome<Refusal>

  // ---------------------------------------------------------------------------------------------
  // What resuming checks

  /** The file in a release that a staged file was copied from. */
  function SourceOf(a: Action, p: Path): Path
    requires (a.StageCapability? || a.CleanupCapability?) && (p.StagedFile? || p.InstalledCapability?)
  {
    ReleaseFile(a.commit, Shipped(a.cap, p.name))
  }

  /** The files whose original content is recorded for an action. */
  predicate Recorded(a: Action, p: Path) {
    if a.StageCapability? || a.CleanupCapability? then
      p.ReleaseFile? && p.commit == a.commit && p.entry.Shipped? && p.entry.cap == a.cap
    else
      a.Touches(p)
  }

  function Inventory(a: Action, t: FileTree): FileTree {
    map p | p in t && Recorded(a, p) :: t[p]
  }

  /** The staged copies, under the names of what they were copied from. */
  function StagedInventory(a: Action, t: FileTree): FileTree
    requires a.StageCapability? || a.CleanupCapability?
  {
    map p | p in t && p.StagedFile? && p.cap == a.cap :: SourceOf(a, p) := t[p]
  }

  function GitEntries(t: FileTree, c: CommitId): map<string, Stored> {
    map p | p in t && p.ReleaseFile? && p.commit == c && p.entry.GitEntry? :: p.entry.name := t[p]
  }

  predicate Survives(actual: FileTree, expected: FileTree) {
    forall p | p in actual :: p in expected && expected[p] == actual[p]
  }

  predicate InventoryMatches(actual: FileTree, expected: FileTree, partial: bool) {
    if partial then Survives(actual, expected) else actual == expected
  }

  /** Whether an action can still be done, given what was recorded for it. */
  predicate ContentValid(a: Action, state: State, record: FileTree, layout: Layout, t: FileTree) {
    state.Done? ||
    match a
    case RemoveRelease(_) => InventoryMatches(Inventory(a, t), record, state.Begun?)
    case RemoveFile(p) =>
      && (p.AssetFile? ==> p.asset in layout.assets && record == map[p := Plain(layout.assets[p.asset])])
      && InventoryMatches(Inventory(a, t), record, state.Begun?)
    case RestoreLegacy(x) =>
      && x in layout.assets && x in layout.legacyBackups
      && var original, installed := Plain(layout.legacyBackups[x]), Plain(layout.assets[x]);
      && record == map[BackupFile(x) := original, AssetFile(x) := installed]
      && if BackupFile(x) in t then
           && t[BackupFile(x)] == original
           && (if AssetFile(x) in t then t[AssetFile(x)] == installed else state.Begun?)
         else
           state.Begun? && Lookup(t, AssetFile(x)) == Some(original)
    case StageCapability(_, _) =>
      && Inventory(a, t) == record
      && (StagedInventory(a, t) != map[] ==> InventoryMatches(StagedInventory(a, t), record, state.Begun?))
    case CleanupCapability(_, _) => StagedInventory(a, t) == record
  }

  /** The log reads: done actions, then at most one begun, then pending ones. */
  predicate InOrder(states: seq<State>) {
    forall k, m | 0 <= k < m < |states| :: states[m].Pending? || states[k].Done?
  }

  /** Whether a cleanup is skipped because its capability is not staged yet. */
  predicate CleanupNotDue(j: Journal, k: nat)
    requires |j.states| == |j.actions| && k < |j.actions|
  {
    && j.actions[k].CleanupCapability?
    && exists m | 0 <= m < |j.actions| ::
         j.actions[m].StageCapability? && j.actions[m].cap == j.actions[k].cap && !j.states[m].Done?
  }

  predicate WellFormed(f: Files) {
    && f.journal.Some? && f.evidence.Some?
    && |f.journal.value.states| == |f.journal.value.actions| == |f.evidence.value.records|
  }

  predicate ActionAccepted(f: Files, k: nat)
    requires WellFormed(f) && k < |f.journal.value.actions|
  {
    var j := f.journal.value;
    CleanupNotDue(j, k)
    || ContentValid(j.actions[k], j.states[k], f.evidence.value.records[k], f.evidence.value.layout, f.tree)
  }

  predicate AllDone(states: seq<State>) {
    forall k | 0 <= k < |states| :: states[k].Done?
  }

  predicate JournalAccepted(f: Files)
    requires WellFormed(f)
  {
    var j := f.journal.value;
    && InOrder(j.states)
    && (j.committed ==> AllDone(j.states))
    && (LayoutFile in f.tree ==> f.tree[LayoutFile] == j.layoutContent)
    && forall k | 0 <= k < |j.actions| :: ActionAccepted(f, k)
  }

  /** The checkpoints are scanned once, with the two flags of the source. */
  method CheckOrder(states: seq<State>) returns (ordered: bool, unfinished: bool)
    ensures ordered <==> InOrder(states)
    ensures ordered ==> (unfinished <==> !AllDone(states))
  {
    unfinished := false;
    var started := false;
    for i := 0 to |states|
      invariant InOrder(states[..i])
      invariant unfinished <==> !AllDone(states[..i])
      invariant started <==> exists k :: 0 <= k < i && states[k].Begun?
    {
      assert states[..i + 1] == states[..i] + [states[i]];
      if states[i].Done? {
        if unfinished {
          ghost var k :| 0 <= k < i && !states[k].Done?;
          return false, true;
        }
      } else {
        if states[i].Begun? && (unfinished || started) {
          ghost var k :| 0 <= k < i && !states[k].Done?;
          return false, true;
        }
        unfinished := true;
        started := started || states[i].Begun?;
      }
    }
    assert states[..|states|] == states;
    ordered := true;
  }

  method ReadUninstallJournal(f: Files) returns (r: Result)
    requires WellFormed(f)
    ensures r.Ok? <==> JournalAccepted(f)
    ensures !r.Crashed? && r != Refused(CleanupDeferred)
  {
    hide ContentValid, CleanupNotDue;
    var j := f.journal.value;
    var ordered, unfinished := CheckOrder(j.states);
    if !ordered {
      return Refused(OutOfOrder);
    }
    if j.committed && unfinished {
      return Refused(UnfinishedCommit);
    }
    if LayoutFile in f.tree && f.tree[LayoutFile] != j.layoutContent {
      return Refused(LayoutChanged);
    }
    for k := 0 to |j.actions|
      invariant forall m | 0 <= m < k :: ActionAccepted(f, m)
    {
      if !ActionAccepted(f, k) {
        return Refused(ContentChanged);
      }
    }
    return Ok;
  }

  // ---------------------------------------------------------------------------------------------
  // What every state between two steps satisfies

  /** What the preflight established about one action. */
  ghost predicate Sound(a: Action, start: FileTree, layout: Layout) {
    match a
    case RemoveRelease(c) => Lookup(start, ReceiptFile(c)) == Some(Receipt(GitEntries(start, c)))
    case RemoveFile(p) =>
      p in start && (p.AssetFile? ==> p.asset in layout.assets && start[p] == Plain(layout.assets[p.asset]))
    case RestoreLegacy(x) =>
      && x in layout.assets && Lookup(start, AssetFile(x)) == Some(Plain(layout.assets[x]))
      && x in layout.legacyBackups && Lookup(start, BackupFile(x)) == Some(Plain(layout.legacyBackups[x]))
    case _ => true
  }

  ghost predicate Preflight(start: FileTree, layout: Layout, actions: seq<Action>) {
    && WellOrdered(actions)
    && (forall p | p in start :: !p.StagedFile?)
    && (forall k | 0 <= k < |actions| :: Sound(actions[k], start, layout))
    && LayoutFile in start
  }

  /** The original contents are on record, and a deleted release has its durable proof. */
  ghost predicate OnRecord(start: FileTree, layout: Layout, actions: seq<Action>, f: Files) {
    && WellFormed(f) && f.journal.value.actions == actions
    && Lookup(start, LayoutFile) == Some(f.journal.value.layoutContent) && f.evidence.value.layout == layout
    && (forall k | 0 <= k < |actions| :: f.evidence.value.records[k] == Inventory(actions[k], start))
    && (forall c | c in f.proofs :: RemoveRelease(c) in actions && f.proofs[c] == GitEntries(start, c))
  }

  /** The first `n` actions are done, the next one may have begun. */
  ghost predicate Progressed(states: seq<State>, n: nat) {
    && n <= |states|
    && (forall k | 0 <= k < n :: states[k].Done?)
    && (n < |states| ==> !states[n].Done?)
    && (forall k | n < k < |states| :: states[k].Pending?)
  }

  ghost predicate TreeAt(start: FileTree, actions: seq<Action>, states: seq<State>, n: nat, t: FileTree)
    requires n <= |actions| == |states|
  {
    if n < |actions| && states[n].Begun? then Partial(actions[n], Prefix(start, actions, n), t)
    else t == Prefix(start, actions, n)
  }

  /** A release that may have lost files has its proof. */
  ghost predicate ProofsKept(actions: seq<Action>, states: seq<State>, proofs: map<CommitId, map<string, Stored>>, t: FileTree)
    requires |states| == |actions|
  {
    forall k | 0 <= k < |actions| && actions[k].RemoveRelease? && states[k].Begun? ::
      actions[k].commit in proofs || forall p | p in t :: !actions[k].Touches(p)
  }

  ghost predicate Running(start: FileTree, layout: Layout, actions: seq<Action>, f: Files, n: nat) {
    && Preflight(start, layout, actions) && OnRecord(start, layout, actions, f)
    && Progressed(f.journal.value.states, n)
    && TreeAt(start, actions, f.journal.value.states, n, f.tree)
    && ProofsKept(actions, f.journal.value.states, f.proofs, f.tree)
    && (f.journal.value.committed ==> n == |actions|)
  }

  // ---------------------------------------------------------------------------------------------
  // Every such state is accepted

  /** What an action that has not begun depends on is as it was at the start. */
  lemma Undisturbed(start: FileTree, actions: seq<Action>, states: seq<State>, n: nat, t: FileTree, k: nat, p: Path)
    requires WellOrdered(actions) && |states| == |actions| && Progressed(states, n) && TreeAt(start, actions, states, n, t)
    requires n <= k < |actions| && states[k].Pending?
    requires actions[k].Watches(p) && !(actions[k].CleanupCapability? && p.StagedFile?)
    ensures Lookup(t, p) == Lookup(start, p)
  {
    hide Prefix, Partial;
    UntilItsTurn(start, actions, n, k, p);
    if states[n].Begun? {
      OutsidePartial(actions[n], actions[k], Prefix(start, actions, n), t, p);
    }
  }

  /** An interrupted action leaves alone what the later ones depend on. */
  lemma OutsidePartial(a: Action, b: Action, before: FileTree, now: FileTree, p: Path)
    requires Partial(a, before, now) && MayPrecede(a, b) && b.Watches(p) && !(b.CleanupCapability? && p.StagedFile?)
    ensures Lookup(now, p) == Lookup(before, p)
  {
    assert a.Touches(p) ==> !b.Watches(p) || a.StageCapability?;
    assert !a.Touches(p);
    UntouchedByPartial(a, before, now, p);
  }

  lemma UntouchedByPartial(a: Action, before: FileTree, now: FileTree, p: Path)
    requires Partial(a, before, now) && !a.Touches(p)
    ensures Lookup(now, p) == Lookup(before, p)
  {
    assert Lookup(a.Apply(before), p) == a.After(before, p);
  }

  lemma SameInventory(a: Action, t: FileTree, start: FileTree)
    requires forall p: Path :: Recorded(a, p) ==> Lookup(t, p) == Lookup(start, p)
    ensures Inventory(a, t) == Inventory(a, start)
  {
    forall p: Path ensures Lookup(Inventory(a, t), p) == Lookup(Inventory(a, start), p) {
      assert Recorded(a, p) ==> Lookup(t, p) == Lookup(start, p);
    }
    SameTree(Inventory(a, t), Inventory(a, start));
  }

  lemma RecordedIsWatched(a: Action, p: Path)
    requires Recorded(a, p) && !a.CleanupCapability?
    ensures a.Watches(p)
  {
  }

  lemma NothingStaged(a: Action, t: FileTree)
    requires a.StageCapability? && forall p: Path :: a.Touches(p) ==> p !in t
    ensures StagedInventory(a, t) == map[]
  {
    forall p | p in t && p.StagedFile? && p.cap == a.cap ensures false {
      assert a.Touches(p);
    }
  }

  /** A pending action finds everything as recorded. */
  lemma PendingIsAccepted(start: FileTree, layout: Layout, actions: seq<Action>, f: Files, n: nat, k: nat)
    requires Running(start, layout, actions, f, n) && n <= k < |actions| && f.journal.value.states[k].Pending?
    requires !actions[k].CleanupCapability?
    ensures ActionAccepted(f, k)
  {
    var a, t, states := actions[k], f.tree, f.journal.value.states;
    forall p: Path | Recorded(a, p) ensures Lookup(t, p) == Lookup(start, p) {
      RecordedIsWatched(a, p);
      Undisturbed(start, actions, states, n, t, k, p);
    }
    PendingContent(a, start, layout, t) by {
      assert Sound(a, start, layout);
      if a.StageCapability? {
        forall p: Path | a.Touches(p) ensures p !in t {
          Undisturbed(start, actions, states, n, t, k, p);
        }
      }
    }
  }

  lemma PendingContent(a: Action, start: FileTree, layout: Layout, t: FileTree)
    requires Sound(a, start, layout) && !a.CleanupCapability?
    requires forall p: Path | Recorded(a, p) :: Lookup(t, p) == Lookup(start, p)
    requires a.StageCapability? ==> forall p: Path :: a.Touches(p) ==> p !in t
    ensures ContentValid(a, Pending, Inventory(a, start), layout, t)
  {
    SameInventory(a, t, start);
    if a.StageCapability? {
      NothingStaged(a, t);
    } else if a.RestoreLegacy? {
      assert Recorded(a, BackupFile(a.asset)) && Recorded(a, AssetFile(a.asset));
      assert Inventory(a, start) == map[
        BackupFile(a.asset) := Plain(layout.legacyBackups[a.asset]), AssetFile(a.asset) := Plain(layout.assets[a.asset])];
    }
  }

  /** An interrupted action is accepted wherever it stopped. */
  lemma BegunContent(a: Action, start: FileTree, layout: Layout, before: FileTree, t: FileTree)
    requires Sound(a, start, layout) && Partial(a, before, t) && !a.CleanupCapability?
    requires forall p: Path | Recorded(a, p) :: Lookup(before, p) == Lookup(start, p)
    requires a.StageCapability? ==> forall p: Path :: a.Touches(p) ==> p !in before
    ensures ContentValid(a, Begun, Inventory(a, start), layout, t)
  {
    var record := Inventory(a, start);
    SameInventory(a, before, start);
    if a.StageCapability? {
      forall p: Path | Recorded(a, p) ensures Lookup(t, p) == Lookup(start, p) {
        UntouchedByPartial(a, before, t, p);
      }
      SameInventory(a, t, start);
      forall p | p in t && p.StagedFile? && p.cap == a.cap
        ensures SourceOf(a, p) in record && record[SourceOf(a, p)] == t[p]
      {
        assert a.Touches(p);
        assert Lookup(t, p) == a.After(before, p);
        assert Recorded(a, SourceOf(a, p));
      }
      assert Survives(StagedInventory(a, t), record);
    } else if a.RestoreLegacy? {
      RestoreContent(a, start, layout, before, t);
    } else {
      forall p | p in Inventory(a, t) ensures p in record && record[p] == t[p] {
        assert Lookup(t, p) == Lookup(before, p) || Lookup(t, p) == a.After(before, p);
      }
    }
  }

  lemma RestoreContent(a: Action, start: FileTree, layout: Layout, before: FileTree, t: FileTree)
    requires Sound(a, start, layout) && Partial(a, before, t) && a.RestoreLegacy?
    requires forall p: Path | Recorded(a, p) :: Lookup(before, p) == Lookup(start, p)
    ensures ContentValid(a, Begun, Inventory(a, start), layout, t)
  {
    var backup, target := BackupFile(a.asset), AssetFile(a.asset);
    assert Recorded(a, backup) && Recorded(a, target);
    assert Inventory(a, start) == map[
      backup := Plain(layout.legacyBackups[a.asset]), target := Plain(layout.assets[a.asset])];
    assert Lookup(a.Apply(before), backup) == a.After(before, backup);
    assert Lookup(a.Apply(before), target) == a.After(before, target);
  }

  lemma BegunIsAccepted(start: FileTree, layout: Layout, actions: seq<Action>, f: Files, n: nat)
    requires Running(start, layout, actions, f, n) && n < |actions| && f.journal.value.states[n].Begun?
    requires !actions[n].CleanupCapability?
    ensures ActionAccepted(f, n)
  {
    var a, before := actions[n], Prefix(start, actions, n);
    forall p: Path | Recorded(a, p) ensures Lookup(before, p) == Lookup(start, p) {
      RecordedIsWatched(a, p);
      UntilItsTurn(start, actions, n, n, p);
    }
    if a.StageCapability? {
      forall p: Path | a.Touches(p) ensures p !in before {
        UntilItsTurn(start, actions, n, n, p);
      }
    }
    assert Sound(a, start, layout);
    BegunContent(a, start, layout, before, f.tree);
  }

  /** A cleanup that is due finds its capability fully staged. */
  lemma CleanupIsAccepted(start: FileTree, layout: Layout, actions: seq<Action>, f: Files, n: nat, k: nat)
    requires Running(start, layout, actions, f, n) && n <= k < |actions| && actions[k].CleanupCapability?
    ensures ActionAccepted(f, k)
    ensures k == n ==> !CleanupNotDue(f.journal.value, k)
  {
    hide ContentValid, Partial, MayPrecede, Sound, TreeAt, ProofsKept, Inventory, StagedInventory, Recorded;
    var a, t, states := actions[k], f.tree, f.journal.value.states;
    var m :| 0 <= m < k && actions[m] == StageCapability(a.cap, a.commit);
    OnlyOneStage(actions, m, a.cap);
    if m < n {
      StagedThroughout(start, actions, states, n, t, m);
      StagedIsRecorded(a, start, t);
      StagedIsValid(a, states[k], layout, t, Inventory(a, start));
    }
  }

  lemma StagedIsValid(a: Action, state: State, layout: Layout, t: FileTree, record: FileTree)
    requires a.CleanupCapability? && StagedInventory(a, t) == record
    ensures ContentValid(a, state, record, layout, t)
  {
  }

  /** What an interrupted uninstall staged stays staged. */
  lemma StagedThroughout(start: FileTree, actions: seq<Action>, states: seq<State>, n: nat, t: FileTree, m: nat)
    requires WellOrdered(actions) && |states| == |actions| && Progressed(states, n) && TreeAt(start, actions, states, n, t)
    requires m < n && actions[m].StageCapability? && (forall p | p in start :: !p.StagedFile?)
    ensures forall p: Path | Recorded(actions[m], p) ::
              Lookup(t, StagedFile(actions[m].cap, p.entry.name)) == Lookup(start, p)
  {
    hide Prefix, Partial, MayPrecede;
    forall p: Path | Recorded(actions[m], p)
      ensures Lookup(t, StagedFile(actions[m].cap, p.entry.name)) == Lookup(start, p)
    {
      var staged := StagedFile(actions[m].cap, p.entry.name);
      StaysStaged(start, actions, m, n, p.entry.name);
      if n < |actions| && states[n].Begun? {
        InOrderOfActions(actions, m, n);
        TouchesOnce(actions[m], actions[n], staged);
        UntouchedByPartial(actions[n], Prefix(start, actions, n), t, staged);
      }
    }
  }

  lemma InOrderOfActions(actions: seq<Action>, k: nat, m: nat)
    requires WellOrdered(actions) && k < m < |actions|
    ensures MayPrecede(actions[k], actions[m])
  {
  }

  lemma OnlyOneStage(actions: seq<Action>, m: nat, cap: Capability)
    requires WellOrdered(actions) && m < |actions| && actions[m].StageCapability? && actions[m].cap == cap
    ensures forall k | 0 <= k < |actions| && actions[k].StageCapability? && actions[k].cap == cap :: k == m
  {
    forall k | 0 <= k < |actions| && actions[k].StageCapability? && actions[k].cap == cap && k != m ensures false {
      if k < m {
        TouchesOnce(actions[k], actions[m], StagedFile(cap, ""));
      } else {
        TouchesOnce(actions[m], actions[k], StagedFile(cap, ""));
      }
    }
  }

  lemma StagedIsRecorded(a: Action, start: FileTree, t: FileTree)
    requires a.CleanupCapability?
    requires forall p: Path | Recorded(StageCapability(a.cap, a.commit), p) ::
               Lookup(t, StagedFile(a.cap, p.entry.name)) == Lookup(start, p)
    ensures StagedInventory(a, t) == Inventory(a, start)
  {
    forall p: Path ensures Lookup(StagedInventory(a, t), p) == Lookup(Inventory(a, start), p) {
      if Recorded(a, p) {
        var staged := StagedFile(a.cap, p.entry.name);
        assert SourceOf(a, staged) == p;
        assert Lookup(t, staged) == Lookup(start, p);
      }
    }
    SameTree(StagedInventory(a, t), Inventory(a, start));
  }

  /** Every state that an interrupted uninstall can leave is accepted when it is resumed. */
  lemma EveryInterruptionIsAccepted(start: FileTree, layout: Layout, actions: seq<Action>, f: Files, n: nat)
    requires Running(start, layout, actions, f, n)
    ensures JournalAccepted(f)
  {
    hide ContentValid, Partial, MayPrecede, Sound;
    var states := f.journal.value.states;
    forall k | 0 <= k < |actions| ensures ActionAccepted(f, k) {
      if k < n {
        assert states[k].Done?;
        DoneIsAccepted(f, k);
      } else if actions[k].CleanupCapability? {
        CleanupIsAccepted(start, layout, actions, f, n, k);
      } else if states[k].Pending? {
        PendingIsAccepted(start, layout, actions, f, n, k);
      } else {
        BegunIsAccepted(start, layout, actions, f, n);
      }
    }
    LayoutNeverRewritten(start, actions, states, n, f.tree);
  }

  lemma DoneIsAccepted(f: Files, k: nat)
    requires WellFormed(f) && k < |f.journal.value.states| && f.journal.value.states[k].Done?
    ensures ActionAccepted(f, k)
  {
  }

  lemma LayoutNeverRewritten(start: FileTree, actions: seq<Action>, states: seq<State>, n: nat, t: FileTree)
    requires n <= |actions| == |states| && TreeAt(start, actions, states, n, t)
    ensures LayoutFile in t ==> Lookup(t, LayoutFile) == Lookup(start, LayoutFile)
  {
    PrefixKeepsLayout(start, actions, n);
    if n < |actions| && states[n].Begun? && LayoutFile in t {
      var before := Prefix(start, actions, n);
      assert Lookup(actions[n].Apply(before), LayoutFile) == actions[n].After(before, LayoutFile);
      assert actions[n].After(before, LayoutFile) in {None, Lookup(before, LayoutFile)};
    }
  }

  lemma {:induction false} PrefixKeepsLayout(start: FileTree, actions: seq<Action>, n: nat)
    requires n <= |actions|
    ensures Lookup(Prefix(start, actions, n), LayoutFile) in {None, Lookup(start, LayoutFile)}
  {
    hide Prefix, Action.Apply;
    if n > 0 {
      PrefixKeepsLayout(start, actions, n - 1);
      PrefixStep(start, actions, n, LayoutFile);
    } else {
      NothingDone(start, actions);
    }
  }
}
