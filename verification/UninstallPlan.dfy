/**
 Planning an uninstall, and the round trip with publication
 (install/bootstrap/transaction.py:1287-1366, 1381-1450, 1669-1730).
 */
module UninstallPlan {
  import opened BootstrapAssets
  import BootstrapPublication
  import InstallJournal
  import opened UninstallActions
  import opened UninstallJournal
  import UninstallRun
  import opened Wrappers

  /** Files that resuming needs: they go last, after everything else is done. */
  const RETAINED_UNTIL_COMMIT :=
    {DispatchPs1, DispatchSh, TransactionPy, InstallUninstallPs1, InstallUninstallSh}

  /** Copied next to the log before anything is removed. */
  const RECOVERY_SOURCES := {TransactionPy, VerifyPy, InstallUninstallPs1, InstallUninstallSh}

  datatype Plan = Plan(
    capabilities: seq<Capability>,
    current: CommitId,
    releases: seq<CommitId>,
    pointers: seq<Path>,
    remove: set<Asset>,
    restore: set<Asset>,
    metadata: seq<Path>)

  // ---------------------------------------------------------------------------------------------
  // The list of actions

  function Each<T>(xs: seq<T>, f: T -> Action): (r: seq<Action>)
    ensures |r| == |xs| && forall i | 0 <= i < |xs| :: r[i] == f(xs[i])
  {
    seq(|xs|, i requires 0 <= i < |xs| => f(xs[i]))
  }

  /** The assets of a set, in the order in which they are listed. */
  function Listed(s: set<Asset>, n: nat): (r: seq<Asset>)
    requires n <= |ASSETS|
    ensures forall a | a in r :: a in s && a in ASSETS[..n]
    ensures forall i | 0 <= i < n && ASSETS[i] in s :: ASSETS[i] in r
  {
    if n == 0 then [] else Listed(s, n - 1) + if ASSETS[n - 1] in s then [ASSETS[n - 1]] else []
  }

  function Removals(s: set<Asset>): seq<Action> {
    Each(Listed(s, |ASSETS|), (a: Asset) => RemoveFile(AssetFile(a)))
  }

  function Restores(s: set<Asset>): seq<Action> {
    Each(Listed(s, |ASSETS|), (a: Asset) => RestoreLegacy(a))
  }

  function EvidenceRemovals(releases: seq<CommitId>): (r: seq<Action>)
    ensures |r| == 2 * |releases|
    ensures forall i | 0 <= i < |releases| ::
              r[2 * i] == RemoveFile(ManifestFile(releases[i])) && r[2 * i + 1] == RemoveFile(ReceiptFile(releases[i]))
  {
    seq(2 * |releases|, i requires 0 <= i < 2 * |releases| =>
      if i % 2 == 0 then RemoveFile(ManifestFile(releases[i / 2])) else RemoveFile(ReceiptFile(releases[i / 2])))
  }

  /** The part of the list that an action belongs to. */
  function Section(a: Action): nat {
    match a
    case StageCapability(_, _) => 0
    case RemoveRelease(_) => 1
    case RemoveFile(p) =>
      if p.ManifestFile? || p.ReceiptFile? then 2
      else if p.CurrentFile? || p.PreviousFile? then 3
      else if p.AssetFile? then (if p.asset in RETAINED_UNTIL_COMMIT then 8 else 4)
      else 6
    case RestoreLegacy(x) => if x in RETAINED_UNTIL_COMMIT then 9 else 5
    case CleanupCapability(_, _) => 7
  }

  function SectionActions(plan: Plan, section: nat): seq<Action> {
    match section
    case 0 => Each(plan.capabilities, (cap: Capability) => StageCapability(cap, plan.current))
    case 1 => Each(plan.releases, (c: CommitId) => RemoveRelease(c))
    case 2 => EvidenceRemovals(plan.releases)
    case 3 => Each(plan.pointers, (p: Path) => RemoveFile(p))
    case 4 => Removals(plan.remove - RETAINED_UNTIL_COMMIT)
    case 5 => Restores(plan.restore - RETAINED_UNTIL_COMMIT)
    case 6 => Each(plan.metadata, (p: Path) => RemoveFile(p))
    case 7 => Each(plan.capabilities, (cap: Capability) => CleanupCapability(cap, plan.current))
    case 8 => Removals(plan.remove * RETAINED_UNTIL_COMMIT)
    case 9 => Restores(plan.restore * RETAINED_UNTIL_COMMIT)
    case _ => []
  }

  function ActionsUpTo(plan: Plan, section: nat): seq<Action> {
    if section == 0 then [] else ActionsUpTo(plan, section - 1) + SectionActions(plan, section - 1)
  }

  function PlannedActions(plan: Plan): seq<Action> {
    ActionsUpTo(plan, 10)
  }

  // ---------------------------------------------------------------------------------------------
  // The list is well ordered and complete

  predicate NoDuplicates<T(==)>(xs: seq<T>) {
    forall i, j | 0 <= i < j < |xs| :: xs[i] != xs[j]
  }

  predicate ValidPlan(plan: Plan) {
    && NoDuplicates(plan.capabilities) && NoDuplicates(plan.releases)
    && NoDuplicates(plan.pointers) && NoDuplicates(plan.metadata)
    && (forall p | p in plan.pointers :: p.CurrentFile? || p.PreviousFile?)
    && (forall p | p in plan.metadata :: p.LayoutFile? || p.JournalFile? || p.PendingFile?)
    && plan.remove !! plan.restore
  }

  /** Which actions a plan calls for. */
  predicate Planned(plan: Plan, a: Action) {
    match a
    case StageCapability(cap, c) => cap in plan.capabilities && c == plan.current
    case CleanupCapability(cap, c) => cap in plan.capabilities && c == plan.current
    case RemoveRelease(c) => c in plan.releases
    case RestoreLegacy(x) => x in plan.restore
    case RemoveFile(p) =>
      if p.ManifestFile? || p.ReceiptFile? then p.commit in plan.releases
      else if p.AssetFile? then p.asset in plan.remove
      else p in plan.pointers || p in plan.metadata
  }

  lemma {:induction false} ListedNoDuplicates(s: set<Asset>, n: nat)
    requires n <= |ASSETS|
    ensures NoDuplicates(Listed(s, n))
  {
    if n > 0 {
      ListedNoDuplicates(s, n - 1);
      if ASSETS[n - 1] in Listed(s, n - 1) {
        var i :| 0 <= i < n - 1 && ASSETS[i] == ASSETS[n - 1];
        ListedOnce(ASSETS[n - 1], i);
        ListedOnce(ASSETS[n - 1], n - 1);
      }
    }
  }

  lemma ListedAll(s: set<Asset>, a: Asset)
    ensures a in Listed(s, |ASSETS|) <==> a in s
  {
    ListedOnce(a, 0);
  }

  lemma SectionMember(plan: Plan, section: nat, i: nat)
    requires ValidPlan(plan) && section < 10 && i < |SectionActions(plan, section)|
    ensures Planned(plan, SectionActions(plan, section)[i]) && Section(SectionActions(plan, section)[i]) == section
  {
    match section
    case 2 =>
      assert i == 2 * (i / 2) || i == 2 * (i / 2) + 1;
    case 3 => assert plan.pointers[i] in plan.pointers;
    case 4 => assert Listed(plan.remove - RETAINED_UNTIL_COMMIT, |ASSETS|)[i] in plan.remove - RETAINED_UNTIL_COMMIT;
    case 5 => assert Listed(plan.restore - RETAINED_UNTIL_COMMIT, |ASSETS|)[i] in plan.restore - RETAINED_UNTIL_COMMIT;
    case 6 => assert plan.metadata[i] in plan.metadata;
    case 8 => assert Listed(plan.remove * RETAINED_UNTIL_COMMIT, |ASSETS|)[i] in plan.remove * RETAINED_UNTIL_COMMIT;
    case 9 => assert Listed(plan.restore * RETAINED_UNTIL_COMMIT, |ASSETS|)[i] in plan.restore * RETAINED_UNTIL_COMMIT;
    case _ =>
  }

  lemma SectionNoDuplicates(plan: Plan, section: nat)
    requires ValidPlan(plan) && section < 10
    ensures NoDuplicates(SectionActions(plan, section))
  {
    match section
    case 2 =>
      forall i, j | 0 <= i < j < 2 * |plan.releases|
        ensures EvidenceRemovals(plan.releases)[i] != EvidenceRemovals(plan.releases)[j]
      {
        assert i == 2 * (i / 2) || i == 2 * (i / 2) + 1;
        assert j == 2 * (j / 2) || j == 2 * (j / 2) + 1;
      }
    case 4 => ListedNoDuplicates(plan.remove - RETAINED_UNTIL_COMMIT, |ASSETS|);
    case 5 => ListedNoDuplicates(plan.restore - RETAINED_UNTIL_COMMIT, |ASSETS|);
    case 8 => ListedNoDuplicates(plan.remove * RETAINED_UNTIL_COMMIT, |ASSETS|);
    case 9 => ListedNoDuplicates(plan.restore * RETAINED_UNTIL_COMMIT, |ASSETS|);
    case _ =>
  }

  lemma ListedAt(s: set<Asset>, a: Asset) returns (i: nat)
    requires a in s
    ensures i < |Listed(s, |ASSETS|)| && Listed(s, |ASSETS|)[i] == a
  {
    ListedAll(s, a);
    i :| 0 <= i < |Listed(s, |ASSETS|)| && Listed(s, |ASSETS|)[i] == a;
  }

  lemma PlannedIsInSection(plan: Plan, a: Action)
    requires ValidPlan(plan) && Planned(plan, a)
    ensures Section(a) < 10 && a in SectionActions(plan, Section(a))
  {
    hide ValidPlan, Listed;
    var xs := SectionActions(plan, Section(a));
    match a
    case StageCapability(cap, _) =>
      var i :| 0 <= i < |plan.capabilities| && plan.capabilities[i] == cap;
      assert xs[i] == a;
    case CleanupCapability(cap, _) =>
      var i :| 0 <= i < |plan.capabilities| && plan.capabilities[i] == cap;
      assert xs[i] == a;
    case RemoveRelease(c) =>
      var i :| 0 <= i < |plan.releases| && plan.releases[i] == c;
      assert xs[i] == a;
    case RestoreLegacy(x) =>
      var i := ListedAt(if x in RETAINED_UNTIL_COMMIT then plan.restore * RETAINED_UNTIL_COMMIT
                        else plan.restore - RETAINED_UNTIL_COMMIT, x);
      assert xs[i] == a;
    case RemoveFile(p) =>
      RemovalIsInSection(plan, p);
  }

  lemma RemovalIsInSection(plan: Plan, p: Path)
    requires ValidPlan(plan) && Planned(plan, RemoveFile(p))
    ensures RemoveFile(p) in SectionActions(plan, Section(RemoveFile(p)))
  {
    hide Listed, NoDuplicates;
    var xs := SectionActions(plan, Section(RemoveFile(p)));
    if p.ManifestFile? || p.ReceiptFile? {
      var i :| 0 <= i < |plan.releases| && plan.releases[i] == p.commit;
      assert xs[2 * i] == RemoveFile(ManifestFile(p.commit)) && xs[2 * i + 1] == RemoveFile(ReceiptFile(p.commit));
    } else if p.AssetFile? {
      var i := ListedAt(if p.asset in RETAINED_UNTIL_COMMIT then plan.remove * RETAINED_UNTIL_COMMIT
                        else plan.remove - RETAINED_UNTIL_COMMIT, p.asset);
      assert xs[i] == RemoveFile(p);
    } else if p in plan.pointers {
      var i :| 0 <= i < |plan.pointers| && plan.pointers[i] == p;
      assert xs[i] == RemoveFile(p);
    } else {
      var i :| 0 <= i < |plan.metadata| && plan.metadata[i] == p;
      assert xs[i] == RemoveFile(p);
    }
  }

  /** The sections follow each other, and every planned action is listed exactly once. */
  lemma {:induction false} UpToSection(plan: Plan, section: nat)
    requires ValidPlan(plan) && section <= 10
    ensures var xs := ActionsUpTo(plan, section);
            && NoDuplicates(xs)
            && (forall i | 0 <= i < |xs| :: Planned(plan, xs[i]) && Section(xs[i]) < section)
            && (forall i, j | 0 <= i < j < |xs| :: Section(xs[i]) <= Section(xs[j]))
    ensures forall a: Action | Planned(plan, a) && Section(a) < section :: a in ActionsUpTo(plan, section)
  {
    hide Planned, Section, SectionActions, ValidPlan;
    if section > 0 {
      UpToSection(plan, section - 1);
      var before, last := ActionsUpTo(plan, section - 1), SectionActions(plan, section - 1);
      SectionNoDuplicates(plan, section - 1);
      forall i | 0 <= i < |last| ensures Planned(plan, last[i]) && Section(last[i]) == section - 1 {
        SectionMember(plan, section - 1, i);
      }
      forall a: Action | Planned(plan, a) && Section(a) < section ensures a in before + last {
        PlannedIsInSection(plan, a);
      }
    }
  }

  /** Planned actions in this order never disturb one another. */
  lemma PlannedMayPrecede(plan: Plan, a: Action, b: Action)
    requires ValidPlan(plan) && Planned(plan, a) && Planned(plan, b)
    requires a != b && Section(a) <= Section(b)
    ensures MayPrecede(a, b)
  {
  }

  lemma PlanIsWellOrdered(plan: Plan)
    requires ValidPlan(plan)
    ensures WellOrdered(PlannedActions(plan))
    ensures forall a: Action :: a in PlannedActions(plan) <==> Planned(plan, a)
  {
    hide MayPrecede, Planned, ActionsUpTo, ValidPlan;
    var xs := PlannedActions(plan);
    UpToSection(plan, 10);
    SectionsAreFew();
    forall k, m | 0 <= k < m < |xs| ensures MayPrecede(xs[k], xs[m]) {
      PlannedMayPrecede(plan, xs[k], xs[m]);
    }
    forall m | 0 <= m < |xs| && xs[m].CleanupCapability?
      ensures exists k :: 0 <= k < m && xs[k] == StageCapability(xs[m].cap, xs[m].commit)
    {
      var stage := StageCapability(xs[m].cap, xs[m].commit);
      StagedFirst(plan, xs[m]);
      var k :| 0 <= k < |xs| && xs[k] == stage;
    }
  }

  lemma SectionsAreFew()
    ensures forall a: Action :: Section(a) < 10
  {
  }

  lemma StagedFirst(plan: Plan, a: Action)
    requires Planned(plan, a) && a.CleanupCapability?
    ensures Planned(plan, StageCapability(a.cap, a.commit)) && Section(StageCapability(a.cap, a.commit)) < Section(a)
  {
  }

  /** No owned file is handled twice; in particular no target is both removed and restored. */
  lemma EachFileOnce(plan: Plan, k: nat, m: nat, p: Path)
    requires ValidPlan(plan) && k < m < |PlannedActions(plan)| && PlannedActions(plan)[k].Touches(p)
    ensures !PlannedActions(plan)[m].Touches(p)
  {
    PlanIsWellOrdered(plan);
    TouchesOnce(PlannedActions(plan)[k], PlannedActions(plan)[m], p);
  }

  /** The files that dispatch commands, resume an uninstall or start one. */
  predicate IsNeededToResume(a: Asset) {
    a.DispatchPs1? || a.DispatchSh? || a.TransactionPy? || a.InstallUninstallPs1? || a.InstallUninstallSh?
  }

  predicate TakesWhatResumingNeeds(a: Action) {
    match a
    case RemoveFile(p) => p.AssetFile? && IsNeededToResume(p.asset)
    case RestoreLegacy(x) => IsNeededToResume(x)
    case _ => false
  }

  /**
   Capabilities are copied before anything is removed, and what resuming needs goes after everything else;
   in between every release goes before its evidence, and that before the pointers, the other command files
   and the layout.
   */
  lemma PlannedInOrder(plan: Plan, k: nat, m: nat)
    requires ValidPlan(plan) && k < m < |PlannedActions(plan)|
    ensures var (earlier, later) := (PlannedActions(plan)[k], PlannedActions(plan)[m]);
            && (TakesWhatResumingNeeds(earlier) ==> TakesWhatResumingNeeds(later))
            && (later.StageCapability? ==> earlier.StageCapability?)
            && (later.RemoveRelease? ==> earlier.StageCapability? || earlier.RemoveRelease?)
            && (later.RemoveFile? && (later.path.ManifestFile? || later.path.ReceiptFile?) ==>
                  && !earlier.RestoreLegacy? && !earlier.CleanupCapability?
                  && (earlier.RemoveFile? ==> earlier.path.ManifestFile? || earlier.path.ReceiptFile?))
            && (earlier.RemoveFile? && earlier.path.LayoutFile? ==>
                  && later != RemoveFile(CurrentFile) && later != RemoveFile(PreviousFile)
                  && (later.RestoreLegacy? || (later.RemoveFile? && later.path.AssetFile?) ==> TakesWhatResumingNeeds(later)))
  {
    hide Planned, ActionsUpTo, ValidPlan;
    UpToSection(plan, 10);
  }

  // ---------------------------------------------------------------------------------------------
  // The preflight

  datatype Obstacle = VerifierChanged | PointerInvalid | ReleaseUnowned | BackupChanged | PrerequisiteChanged

  predicate Unmodified(t: FileTree, layout: Layout, a: Asset) {
    a in layout.assets && Lookup(t, AssetFile(a)) == Some(Plain(layout.assets[a]))
  }

  predicate ReleaseOwned(t: FileTree, c: CommitId) {
    Lookup(t, ReceiptFile(c)) == Some(Receipt(GitEntries(t, c))) && ManifestFile(c) in t
  }

  predicate BackupIntact(t: FileTree, layout: Layout, a: Asset) {
    a in layout.legacyBackups ==> Lookup(t, BackupFile(a)) == Some(Plain(layout.legacyBackups[a]))
  }

  /** When the uninstall starts at all: otherwise nothing is removed. */
  predicate Uninstallable(t: FileTree, layout: Layout, listing: seq<CommitId>) {
    && CurrentFile in t
    && (forall c | c in listing :: ReleaseOwned(t, c))
    && (forall p | p in t && p.ManifestFile? :: p.commit in listing)
    && (forall a: Asset :: BackupIntact(t, layout, a))
    && (forall a | a in RECOVERY_SOURCES :: Unmodified(t, layout, a))
  }

  predicate Holds(t: FileTree, p: Path, content: Content) {
    p in t && t[p] == Plain(content)
  }

  /** The receipt vouches for exactly the `.git` files that are there. */
  ghost predicate Vouches(t: FileTree, receipt: Stored, c: CommitId) {
    && receipt.Receipt?
    && forall name: string ::
         if ReleaseFile(c, GitEntry(name)) in t then
           name in receipt.git && receipt.git[name] == t[ReleaseFile(c, GitEntry(name))]
         else name !in receipt.git
  }

  /**
   Nothing is removed unless the pointer is there, exactly the listed releases have their evidence, every
   backup still holds what was displaced, and what a recovery would run is unmodified.
   */
  lemma UninstallableMeans(t: FileTree, layout: Layout, listing: seq<CommitId>)
    requires Total(layout.assets)
    ensures Uninstallable(t, layout, listing) <==>
      && CurrentFile in t
      && (forall c :: ManifestFile(c) in t <==> c in listing)
      && (forall c | c in listing :: ReceiptFile(c) in t && Vouches(t, t[ReceiptFile(c)], c))
      && (forall a | a in layout.legacyBackups :: Holds(t, BackupFile(a), layout.legacyBackups[a]))
      && (forall a: Asset | a.TransactionPy? || a.VerifyPy? || a.InstallUninstallPs1? || a.InstallUninstallSh? ::
            Holds(t, AssetFile(a), layout.assets[a]))
  {
    hide GitEntries, Vouches;
    forall c ensures ReleaseOwned(t, c) <==> ReceiptFile(c) in t && Vouches(t, t[ReceiptFile(c)], c) && ManifestFile(c) in t {
      if ReceiptFile(c) in t {
        VouchesMeans(t, t[ReceiptFile(c)], c);
      }
    }
    forall a: Asset
      ensures BackupIntact(t, layout, a) <==>
                (a in layout.legacyBackups ==> Holds(t, BackupFile(a), layout.legacyBackups[a]))
      ensures Unmodified(t, layout, a) <==> Holds(t, AssetFile(a), layout.assets[a])
    {
    }
    if Uninstallable(t, layout, listing) {
      forall c ensures ManifestFile(c) in t <==> c in listing {
        assert c in listing ==> ReleaseOwned(t, c);
      }
    }
  }

  lemma VouchesMeans(t: FileTree, receipt: Stored, c: CommitId)
    ensures Vouches(t, receipt, c) <==> receipt == Receipt(GitEntries(t, c))
  {
    var entries := GitEntries(t, c);
    forall name: string
      ensures if ReleaseFile(c, GitEntry(name)) in t then name in entries && entries[name] == t[ReleaseFile(c, GitEntry(name))]
              else name !in entries
    {
    }
    if Vouches(t, receipt, c) {
      assert receipt.git == entries;
    }
  }

  /**
   The pointers and the listed releases pass the verification of the installer, and nothing else is
   in their directory (install/bootstrap/verify.py:262-350).
   */
  predicate ReleasesVerified(installed: InstallJournal.Files, listing: seq<CommitId>, unmanaged: bool) {
    && InstallJournal.Current(installed).Some? && InstallJournal.PointersVerified(installed) && !unmanaged
    && forall c | c in listing :: InstallJournal.ReleaseVerified(installed, c)
  }

  function UnmodifiedAssets(t: FileTree, layout: Layout): set<Asset> {
    set a | a in layout.assets && Unmodified(t, layout, a)
  }

  function Existing(t: FileTree, paths: seq<Path>): (r: seq<Path>)
    ensures forall p | p in r :: p in t && p in paths
    ensures forall p | p in paths && p in t :: p in r
    ensures NoDuplicates(paths) ==> NoDuplicates(r)
  {
    if paths == [] then []
    else
      var rest := Existing(t, paths[1..]);
      assert forall p | p in paths :: p == paths[0] || p in paths[1..];
      if paths[0] in t then [paths[0]] + rest else rest
  }

  function PlanOf(
    t: FileTree, layout: Layout, listing: seq<CommitId>, capabilities: seq<Capability>, current: CommitId): Plan
  {
    var unmodified := UnmodifiedAssets(t, layout);
    Plan(
      capabilities, current, listing,
      Existing(t, [CurrentFile, PreviousFile]),
      unmodified - layout.legacyBackups.Keys,
      unmodified * layout.legacyBackups.Keys,
      Existing(t, [LayoutFile, JournalFile, PendingFile]))
  }

  method PlanUninstall(
    t: FileTree, layout: Layout, installed: InstallJournal.Files, listing: seq<CommitId>, unmanaged: bool,
    capabilities: seq<Capability>)
    returns (r: Wrappers.Result<Plan, Obstacle>)
    requires Total(layout.assets)
    ensures r.Success? <==> ReleasesVerified(installed, listing, unmanaged) && Uninstallable(t, layout, listing)
    ensures r.Success? ==>
      && InstallJournal.Current(installed).Some?
      && r.value == PlanOf(t, layout, listing, capabilities, InstallJournal.Current(installed).value.commit)
  {
    hide GitEntries, Existing, Unmodified, BackupIntact, ReleaseOwned;
    hide InstallJournal.PointersVerified, InstallJournal.ReleaseVerified;
    if !Unmodified(t, layout, VerifyPy) {
      return Failure(VerifierChanged);
    }
    if CurrentFile !in t || InstallJournal.Current(installed).None? || !InstallJournal.PointersVerified(installed) {
      return Failure(PointerInvalid);
    }
    if unmanaged || exists c | c in listing :: !InstallJournal.ReleaseVerified(installed, c) || !ReleaseOwned(t, c) {
      return Failure(ReleaseUnowned);
    }
    if exists p | p in t && p.ManifestFile? :: p.commit !in listing {
      return Failure(ReleaseUnowned);
    }
    var unmodified := SurveyAssets(t, layout);
    var intact, restore := SurveyBackups(t, layout, unmodified);
    if !intact {
      return Failure(BackupChanged);
    }
    if exists a | a in RECOVERY_SOURCES :: !Unmodified(t, layout, a) {
      return Failure(PrerequisiteChanged);
    }
    assert unmodified - restore == unmodified - layout.legacyBackups.Keys;
    return Success(Plan(
      capabilities, InstallJournal.Current(installed).value.commit, listing, Existing(t, [CurrentFile, PreviousFile]),
      unmodified - restore, restore, Existing(t, [LayoutFile, JournalFile, PendingFile])));
  }

  method SurveyAssets(t: FileTree, layout: Layout) returns (unmodified: set<Asset>)
    requires Total(layout.assets)
    ensures unmodified == UnmodifiedAssets(t, layout)
  {
    hide Unmodified;
    unmodified := {};
    for i := 0 to |ASSETS|
      invariant forall a :: a in unmodified <==> a in ASSETS[..i] && Unmodified(t, layout, a)
    {
      if Unmodified(t, layout, ASSETS[i]) {
        unmodified := unmodified + {ASSETS[i]};
      }
    }
    forall a: Asset ensures a in ASSETS[..|ASSETS|] { EveryAssetIsListed(a); }
  }

  method SurveyBackups(t: FileTree, layout: Layout, unmodified: set<Asset>)
    returns (intact: bool, restore: set<Asset>)
    ensures intact <==> forall a: Asset :: BackupIntact(t, layout, a)
    ensures intact ==> restore == unmodified * layout.legacyBackups.Keys
  {
    restore := {};
    for i := 0 to |ASSETS|
      invariant forall a | a in ASSETS[..i] :: BackupIntact(t, layout, a)
      invariant forall a :: a in restore <==> a in ASSETS[..i] && a in layout.legacyBackups && a in unmodified
    {
      if ASSETS[i] in layout.legacyBackups {
        if !BackupIntact(t, layout, ASSETS[i]) {
          return false, restore;
        }
        if ASSETS[i] in unmodified {
          restore := restore + {ASSETS[i]};
        }
      }
    }
    forall a: Asset ensures a in ASSETS[..|ASSETS|] { EveryAssetIsListed(a); }
    intact := true;
  }

  /** What the preflight checks is what the journaled run needs. */
  lemma PlanIsSound(
    t: FileTree, layout: Layout, listing: seq<CommitId>, capabilities: seq<Capability>, current: CommitId)
    requires Total(layout.assets) && LayoutFile in t && (forall p | p in t :: !p.StagedFile?)
    requires NoDuplicates(listing) && NoDuplicates(capabilities) && Uninstallable(t, layout, listing)
    ensures var plan := PlanOf(t, layout, listing, capabilities, current);
            ValidPlan(plan) && Preflight(t, layout, PlannedActions(plan))
  {
    hide MayPrecede, GitEntries, PlannedActions, Sound, Planned, Uninstallable, WellOrdered, Existing;
    var plan := PlanOf(t, layout, listing, capabilities, current);
    assert NoDuplicates(plan.pointers) && NoDuplicates(plan.metadata);
    PlanIsWellOrdered(plan);
    var xs := PlannedActions(plan);
    forall k | 0 <= k < |xs| ensures Sound(xs[k], t, layout) {
      assert xs[k] in xs;
      PlannedIsSound(t, layout, listing, capabilities, current, xs[k]);
    }
  }

  lemma PlannedIsSound(
    t: FileTree, layout: Layout, listing: seq<CommitId>, capabilities: seq<Capability>, current: CommitId, a: Action)
    requires Uninstallable(t, layout, listing)
    requires Planned(PlanOf(t, layout, listing, capabilities, current), a)
    ensures Sound(a, t, layout)
  {
    hide GitEntries;
    match a
    case RemoveRelease(c) => assert ReleaseOwned(t, c);
    case RestoreLegacy(x) => assert BackupIntact(t, layout, x);
    case RemoveFile(p) =>
      if p.ManifestFile? || p.ReceiptFile? {
        assert ReleaseOwned(t, p.commit);
      }
    case _ =>
  }

  // ---------------------------------------------------------------------------------------------
  // What an uninstall leaves

  /**
   Every unmodified asset that displaced a file gives it back, every other unmodified asset is gone,
   and an asset the user modified or removed is as the user left it, backup included.
   */
  lemma AssetsAfterUninstall(
    t: FileTree, layout: Layout, listing: seq<CommitId>, capabilities: seq<Capability>, current: CommitId, a: Asset)
    requires Total(layout.assets) && NoDuplicates(listing) && NoDuplicates(capabilities)
    requires Uninstallable(t, layout, listing)
    ensures var final := Uninstalled(t, PlannedActions(PlanOf(t, layout, listing, capabilities, current)));
            if !Holds(t, AssetFile(a), layout.assets[a]) then
              && Lookup(final, AssetFile(a)) == Lookup(t, AssetFile(a))
              && Lookup(final, BackupFile(a)) == Lookup(t, BackupFile(a))
            else if a in layout.legacyBackups then
              && Lookup(final, AssetFile(a)) == Some(Plain(layout.legacyBackups[a]))
              && BackupFile(a) !in final
            else
              && AssetFile(a) !in final
              && Lookup(final, BackupFile(a)) == Lookup(t, BackupFile(a))
  {
    hide Planned, PlannedActions, Prefix, Action.After, Action.Touches, Uninstallable, ReleaseOwned, ValidPlan, Existing;
    PlanOfIsValid(t, layout, listing, capabilities, current);
    var plan := PlanOf(t, layout, listing, capabilities, current);
    if !Unmodified(t, layout, a) {
      AssetNotPlanned(plan, t, a);
    } else if a in layout.legacyBackups {
      assert BackupIntact(t, layout, a) by { BackupsChecked(t, layout, listing, a); }
      AssetRestored(plan, t, a);
    } else {
      AssetRemoved(plan, t, a);
    }
  }

  lemma BackupsChecked(t: FileTree, layout: Layout, listing: seq<CommitId>, a: Asset)
    requires Uninstallable(t, layout, listing)
    ensures BackupIntact(t, layout, a)
  {
  }

  lemma AssetNotPlanned(plan: Plan, t: FileTree, a: Asset)
    requires ValidPlan(plan) && a !in plan.remove && a !in plan.restore
    ensures Lookup(Uninstalled(t, PlannedActions(plan)), AssetFile(a)) == Lookup(t, AssetFile(a))
    ensures Lookup(Uninstalled(t, PlannedActions(plan)), BackupFile(a)) == Lookup(t, BackupFile(a))
  {
    hide PlannedActions, Prefix, WellOrdered;
    var xs := PlannedActions(plan);
    PlanIsWellOrdered(plan);
    forall b | b in xs ensures !b.Touches(AssetFile(a)) && !b.Touches(BackupFile(a)) {
      assert Planned(plan, b);
    }
    LeftAlone(t, xs, |xs|, AssetFile(a));
    LeftAlone(t, xs, |xs|, BackupFile(a));
  }

  lemma AssetRestored(plan: Plan, t: FileTree, a: Asset)
    requires ValidPlan(plan) && a in plan.restore && BackupFile(a) in t
    ensures Lookup(Uninstalled(t, PlannedActions(plan)), AssetFile(a)) == Some(t[BackupFile(a)])
    ensures BackupFile(a) !in Uninstalled(t, PlannedActions(plan))
  {
    hide PlannedActions, Prefix, WellOrdered;
    var xs := PlannedActions(plan);
    PlanIsWellOrdered(plan);
    assert Planned(plan, RestoreLegacy(a));
    var k :| 0 <= k < |xs| && xs[k] == RestoreLegacy(a);
    UntilItsTurn(t, xs, k, k, BackupFile(a));
    DecidedBy(t, xs, k, |xs|, AssetFile(a));
    DecidedBy(t, xs, k, |xs|, BackupFile(a));
  }

  lemma AssetRemoved(plan: Plan, t: FileTree, a: Asset)
    requires ValidPlan(plan) && a in plan.remove
    ensures AssetFile(a) !in Uninstalled(t, PlannedActions(plan))
    ensures Lookup(Uninstalled(t, PlannedActions(plan)), BackupFile(a)) == Lookup(t, BackupFile(a))
  {
    hide PlannedActions, Prefix, WellOrdered;
    var xs := PlannedActions(plan);
    PlanIsWellOrdered(plan);
    assert Planned(plan, RemoveFile(AssetFile(a)));
    var k :| 0 <= k < |xs| && xs[k] == RemoveFile(AssetFile(a));
    DecidedBy(t, xs, k, |xs|, AssetFile(a));
    forall b | b in xs ensures !b.Touches(BackupFile(a)) {
      assert Planned(plan, b);
    }
    LeftAlone(t, xs, |xs|, BackupFile(a));
  }

  /**
   What becomes of everything but the command files and their backups: the owned files go, except
   ownership files of candidates and receipts without a release; what is not owned stays.
   */
  lemma RestAfterUninstall(
    t: FileTree, layout: Layout, listing: seq<CommitId>, capabilities: seq<Capability>, current: CommitId, p: Path)
    requires NoDuplicates(listing) && NoDuplicates(capabilities) && Uninstallable(t, layout, listing)
    requires forall q | q in t && q.ReleaseFile? :: q.commit in listing
    requires forall q | q in t :: !q.StagedFile?
    requires !p.AssetFile? && !p.BackupFile? && !p.StagedFile?
    ensures var final := Uninstalled(t, PlannedActions(PlanOf(t, layout, listing, capabilities, current)));
            match p {
              case Foreign(_) => Lookup(final, p) == Lookup(t, p)
              case InstalledCapability(cap, name) =>
                Lookup(final, p) ==
                  (if cap in capabilities && Lookup(t, p) == Lookup(t, ReleaseFile(current, Shipped(cap, name))) then None
                   else Lookup(t, p))
              case OwnershipFile(_) => Lookup(final, p) == Lookup(t, p)
              case ReceiptFile(c) => Lookup(final, p) == (if c in listing then None else Lookup(t, p))
              case _ => p !in final
            }
  {
    hide *;
    PlanOfIsValid(t, layout, listing, capabilities, current);
    OwnedIsPlanned(t, layout, listing, capabilities, current, p);
    var plan := PlanOf(t, layout, listing, capabilities, current);
    if p.InstalledCapability? && p.cap in capabilities {
      CapabilityAfterUninstall(t, plan, p);
    } else {
      OwnedOrForeign(t, plan, p);
    }
    LookupTells(Uninstalled(t, PlannedActions(plan)), p);
    LookupTells(t, p);
  }

  lemma LookupTells(t: FileTree, p: Path)
    ensures Lookup(t, p).None? <==> p !in t
  {
  }

  lemma OwnedIsPlanned(
    t: FileTree, layout: Layout, listing: seq<CommitId>, capabilities: seq<Capability>, current: CommitId, p: Path)
    requires Uninstallable(t, layout, listing)
    requires forall q | q in t && q.ReleaseFile? :: q.commit in listing
    requires !p.AssetFile? && !p.BackupFile? && !p.StagedFile?
    ensures var plan := PlanOf(t, layout, listing, capabilities, current);
            var planned := Planned(plan, if p.ReleaseFile? then RemoveRelease(p.commit) else RemoveFile(p));
            && plan.capabilities == capabilities && plan.current == current
            && if p.Foreign? || p.InstalledCapability? || p.OwnershipFile? then !planned
               else if p.ReceiptFile? then planned <==> p.commit in listing
               else planned || p !in t
  {
    hide ReleaseOwned, BackupIntact, Unmodified, GitEntries;
  }

  lemma PlanOfIsValid(
    t: FileTree, layout: Layout, listing: seq<CommitId>, capabilities: seq<Capability>, current: CommitId)
    requires NoDuplicates(listing) && NoDuplicates(capabilities)
    ensures ValidPlan(PlanOf(t, layout, listing, capabilities, current))
  {
  }

  /** The installer's own bookkeeping and payload; a command file that is left is the user's. */
  predicate Owned(p: Path) {
    !p.Foreign? && !p.InstalledCapability? && !p.StagedFile? && !p.AssetFile?
  }

  /** Owned files that no plan lists. */
  predicate Survives(t: FileTree, layout: Layout, listing: seq<CommitId>, p: Path)
    requires Total(layout.assets)
  {
    && p in t
    && match p {
         case OwnershipFile(_) => true
         case ReceiptFile(c) => c !in listing
         case BackupFile(a) => !Holds(t, AssetFile(a), layout.assets[a]) || a !in layout.legacyBackups
         case _ => false
       }
  }

  /**
   Exactly these owned files survive an uninstall: the ownership file of a candidate, a receipt
   without a release, and the backup of a command file that was edited or removed.
   */
  lemma OwnedSurvivors(
    t: FileTree, layout: Layout, listing: seq<CommitId>, capabilities: seq<Capability>, current: CommitId, p: Path)
    requires Total(layout.assets) && NoDuplicates(listing) && NoDuplicates(capabilities)
    requires Uninstallable(t, layout, listing)
    requires forall q | q in t && q.ReleaseFile? :: q.commit in listing
    requires forall q | q in t :: !q.StagedFile?
    requires Owned(p)
    ensures p in Uninstalled(t, PlannedActions(PlanOf(t, layout, listing, capabilities, current)))
            <==> Survives(t, layout, listing, p)
  {
    hide Uninstallable, PlannedActions, PlanOf, Unmodified;
    if p.BackupFile? {
      AssetsAfterUninstall(t, layout, listing, capabilities, current, p.asset);
    } else {
      RestAfterUninstall(t, layout, listing, capabilities, current, p);
    }
  }

  /** Nothing owned is left if and only if none of those is there at the start. */
  lemma NothingOwnedIsLeftIff(
    t: FileTree, layout: Layout, listing: seq<CommitId>, capabilities: seq<Capability>, current: CommitId)
    requires Total(layout.assets) && NoDuplicates(listing) && NoDuplicates(capabilities)
    requires Uninstallable(t, layout, listing)
    requires forall q | q in t && q.ReleaseFile? :: q.commit in listing
    requires forall q | q in t :: !q.StagedFile?
    ensures (forall p | p in Uninstalled(t, PlannedActions(PlanOf(t, layout, listing, capabilities, current))) :: !Owned(p))
            <==> (forall p | p in t :: !Survives(t, layout, listing, p))
  {
    hide *;
    var final := Uninstalled(t, PlannedActions(PlanOf(t, layout, listing, capabilities, current)));
    forall p | Owned(p) ensures p in final <==> Survives(t, layout, listing, p) {
      OwnedSurvivors(t, layout, listing, capabilities, current, p);
    }
    forall p: Path ensures Survives(t, layout, listing, p) ==> Owned(p) && p in t {
      SurvivorsAreOwned(t, layout, listing, p);
    }
  }

  lemma SurvivorsAreOwned(t: FileTree, layout: Layout, listing: seq<CommitId>, p: Path)
    requires Total(layout.assets)
    ensures Survives(t, layout, listing, p) ==> Owned(p) && p in t
  {
  }

  lemma OwnedOrForeign(t: FileTree, plan: Plan, p: Path)
    requires ValidPlan(plan) && !p.AssetFile? && !p.BackupFile? && !p.StagedFile?
    requires p.InstalledCapability? ==> p.cap !in plan.capabilities
    ensures Lookup(Uninstalled(t, PlannedActions(plan)), p) ==
            if Planned(plan, if p.ReleaseFile? then RemoveRelease(p.commit) else RemoveFile(p)) then None else Lookup(t, p)
  {
    hide PlannedActions, Prefix, WellOrdered;
    var xs := PlannedActions(plan);
    PlanIsWellOrdered(plan);
    var a := if p.ReleaseFile? then RemoveRelease(p.commit) else RemoveFile(p);
    if Planned(plan, a) {
      var k :| 0 <= k < |xs| && xs[k] == a;
      DecidedBy(t, xs, k, |xs|, p);
    } else {
      forall b | b in xs ensures !b.Touches(p) {
        assert Planned(plan, b);
      }
      LeftAlone(t, xs, |xs|, p);
    }
  }

  /** An installed capability goes exactly when it is still what the current release shipped. */
  lemma CapabilityAfterUninstall(t: FileTree, plan: Plan, p: Path)
    requires ValidPlan(plan) && p.InstalledCapability? && p.cap in plan.capabilities
    requires forall q | q in t :: !q.StagedFile?
    ensures Lookup(Uninstalled(t, PlannedActions(plan)), p) ==
            if Lookup(t, p) == Lookup(t, ReleaseFile(plan.current, Shipped(p.cap, p.name))) then None else Lookup(t, p)
  {
    hide MayPrecede, Prefix, PlannedActions;
    var xs := PlannedActions(plan);
    PlanIsWellOrdered(plan);
    var stage, cleanup := StageCapability(p.cap, plan.current), CleanupCapability(p.cap, plan.current);
    assert Planned(plan, cleanup);
    var m :| 0 <= m < |xs| && xs[m] == cleanup;
    var k :| 0 <= k < m && xs[k] == stage;
    DecidedBy(t, xs, m, |xs|, p);
    UntilItsTurn(t, xs, m, m, p);
    StaysStaged(t, xs, k, m, p.name);
  }

  // ---------------------------------------------------------------------------------------------
  // Publishing and uninstalling

  /** The installation's files after a publication, whatever else the user changed since. */
  predicate Publishes(f: BootstrapPublication.Files, layout: Layout, edited: set<Asset>, t: FileTree)
    requires Total(layout.assets)
  {
    && f.layout == Some(BootstrapPublication.CommittedLayout(layout.assets, layout.legacyBackups))
    && (forall a | a in layout.legacyBackups ::
          Lookup(t, BackupFile(a)) == if a in f.backups then Some(Plain(f.backups[a])) else None)
    && (forall a: Asset ::
          if a in edited then !Holds(t, AssetFile(a), layout.assets[a])
          else Lookup(t, AssetFile(a)) == if a in f.targets then Some(Plain(f.targets[a])) else None)
  }

  /**
   The round trip: after a fresh publication and an uninstall, every command file the user did not
   edit is what it was before the publication - the original file, or none.
   */
  lemma UninstallUndoesPublication(
    originals: Tree, desired: Tree, f: BootstrapPublication.Files, layout: Layout, edited: set<Asset>, t: FileTree,
    listing: seq<CommitId>, capabilities: seq<Capability>, current: CommitId, a: Asset)
    requires Total(desired) && BootstrapPublication.Committed(BootstrapPublication.Fresh(originals), desired, f)
    requires Total(layout.assets) && Publishes(f, layout, edited, t)
    requires NoDuplicates(listing) && NoDuplicates(capabilities) && Uninstallable(t, layout, listing)
    ensures var final := Uninstalled(t, PlannedActions(PlanOf(t, layout, listing, capabilities, current)));
            Lookup(final, AssetFile(a)) ==
              if a in edited then Lookup(t, AssetFile(a))
              else if a in originals then Some(Plain(originals[a]))
              else None
  {
    hide Uninstallable, PlannedActions, PlanOf;
    AssetsAfterUninstall(t, layout, listing, capabilities, current, a);
  }

  /** What a later installation finds of the command files. */
  predicate Finds(t: FileTree, f: BootstrapPublication.Files) {
    && f.layout.None? && f.pending.None?
    && (forall a: Asset :: Lookup(t, AssetFile(a)) == if a in f.targets then Some(Plain(f.targets[a])) else None)
    && (forall a: Asset :: Lookup(t, BackupFile(a)) == if a in f.backups then Some(Plain(f.backups[a])) else None)
  }

  /**
   Installing again after an uninstall is obstructed if and only if a command file was edited in
   place over a backup with other contents: the uninstall leaves both of them.
   */
  lemma ReinstallationIsObstructedIff(
    t: FileTree, layout: Layout, listing: seq<CommitId>, capabilities: seq<Capability>, current: CommitId,
    f: BootstrapPublication.Files)
    requires Total(layout.assets) && NoDuplicates(listing) && NoDuplicates(capabilities)
    requires Uninstallable(t, layout, listing)
    requires Finds(Uninstalled(t, PlannedActions(PlanOf(t, layout, listing, capabilities, current))), f)
    ensures BootstrapPublication.Obstructed(BootstrapPublication.Fresh(f.targets), f)
            <==> exists a: Asset :: EditedOverBackup(t, layout, a)
  {
    hide Uninstallable, PlannedActions, PlanOf, Unmodified;
    var final := Uninstalled(t, PlannedActions(PlanOf(t, layout, listing, capabilities, current)));
    forall a: Asset
      ensures EditedOverBackup(t, layout, a)
              <==> a in f.targets && a in f.backups && f.backups[a] != f.targets[a]
    {
      AssetsAfterUninstall(t, layout, listing, capabilities, current, a);
      assert Lookup(final, AssetFile(a)) == if a in f.targets then Some(Plain(f.targets[a])) else None;
      assert Lookup(final, BackupFile(a)) == if a in f.backups then Some(Plain(f.backups[a])) else None;
    }
  }

  predicate EditedOverBackup(t: FileTree, layout: Layout, a: Asset)
    requires Total(layout.assets)
  {
    && !Holds(t, AssetFile(a), layout.assets[a])
    && AssetFile(a) in t && BackupFile(a) in t && t[AssetFile(a)] != t[BackupFile(a)]
  }

  /**
   The whole command, planned once and run as often as it is interrupted: an obstacle found by the
   plan leaves everything in place, and in the end what the plan promised is there.
   */
  method UninstallInstallation(
    disk: UninstallRun.Disk, layout: Layout, installed: InstallJournal.Files, listing: seq<CommitId>, unmanaged: bool,
    capabilities: seq<Capability>, runs: seq<(nat, bool)>) returns (planned: bool, started: bool)
    requires Total(layout.assets) && LayoutFile in disk.files.tree && (forall p | p in disk.files.tree :: !p.StagedFile?)
    requires NoDuplicates(listing) && NoDuplicates(capabilities)
    requires disk.files.journal.None? && disk.files.proofs == map[]
    modifies disk
    ensures planned <==>
      ReleasesVerified(installed, listing, unmanaged) && Uninstallable(old(disk.files.tree), layout, listing)
    ensures !planned ==> disk.files == old(disk.files) && !started
    ensures planned && old(disk.life) >= 2 ==> started
    ensures started ==>
      && InstallJournal.Current(installed).Some?
      && var plan := PlanOf(
           old(disk.files.tree), layout, listing, capabilities, InstallJournal.Current(installed).value.commit);
         disk.files == UninstallRun.Cleared(old(disk.files.tree), PlannedActions(plan))
  {
    hide Preflight, Uninstallable, PlannedActions, PlanOf, ValidPlan;
    started := false;
    var plan := PlanUninstall(disk.files.tree, layout, installed, listing, unmanaged, capabilities);
    planned := plan.Success?;
    if planned {
      PlanIsSound(
        disk.files.tree, layout, listing, capabilities, InstallJournal.Current(installed).value.commit);
      started := UninstallRun.UninstallThroughInterruptions(disk, layout, PlannedActions(plan.value), runs);
    }
  }
}
