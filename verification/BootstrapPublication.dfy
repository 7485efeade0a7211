/**
 Publishing the stable bootstrap assets over whatever was installed before, with a crash possible
 before every durable step (install/bootstrap/transaction.py:667-923).
 */
module BootstrapPublication {
  import opened BootstrapAssets
  import opened Durable
  import opened Wrappers

  datatype Layout =
    | LegacyLayout(assets: Tree, backups: set<Asset>)
    | CommittedLayout(assets: Tree, legacyBackups: Tree)

  datatype PendingLayout = PendingLayout(
    assets: Tree,
    legacyBackups: Tree,
    backupsReady: set<Asset>,
    published: set<Asset>,
    backupStaging: map<Asset, nat>)

  /** The durable files. A staging file is named by its asset and a unique number. */
  datatype Files = Files(
    targets: Tree,
    backups: Tree,
    staged: map<(Asset, nat), Content>,
    layout: Option<Layout>,
    pending: Option<PendingLayout>,
    journal: bool)

  datatype Refusal =
    | CandidateChanged | LegacyTransactionPending | PublicationModified | BackupModified | AssetModified
    | OriginalUnavailable | LayoutMismatch

  type Disk = Durable.Disk<Files>

  type Result = Outcome<Refusal>

  // ---------------------------------------------------------------------------------------------
  // What a publication starts from, and what it must keep

  /** Command files found in place, or an installation with the layout of the first version. */
  datatype Baseline =
    | Fresh(originals: Tree)
    | Migrated(assets: Tree, kept: Tree)
  {
    /** The targets at the start. */
    function Starting(): Tree {
      if Fresh? then originals else assets
    }

    /** The displaced legacy files, which must never be lost. */
    function Legacy(): Tree {
      if Fresh? then originals else kept
    }

    function LayoutAtStart(): Option<Layout> {
      if Fresh? then None else Some(LegacyLayout(assets, kept.Keys))
    }
  }

  /** The targets while some of them are published: each still original, or already as desired. */
  ghost predicate TargetsInTransit(b: Baseline, p: PendingLayout, targets: Tree)
    requires Total(p.assets)
  {
    forall a: Asset ::
      && (a in targets ==> targets[a] == p.assets[a] || (a in b.Starting() && targets[a] == b.Starting()[a]))
      && (a in b.Starting() ==> a in targets)
      && (a in p.published ==> a in targets && targets[a] == p.assets[a])
  }

  /** Every legacy file has its backup, or is still in place and not yet marked as backed up. */
  ghost predicate BackupsInTransit(b: Baseline, p: PendingLayout, targets: Tree, backups: Tree) {
    forall a | a in b.Legacy() ::
      if a in backups then backups[a] == b.Legacy()[a]
      else b.Fresh? && a !in p.backupsReady && a in targets && targets[a] == b.Legacy()[a]
  }

  ghost predicate InTransit(b: Baseline, p: PendingLayout, f: Files) {
    && Total(p.assets) && p.legacyBackups == b.Legacy()
    && p.backupsReady <= b.Legacy().Keys && p.backupStaging.Keys <= b.Legacy().Keys
    && TargetsInTransit(b, p, f.targets)
    && BackupsInTransit(b, p, f.targets, f.backups)
  }

  ghost predicate BackedUp(b: Baseline, backups: Tree) {
    forall a | a in b.Legacy() :: a in backups && backups[a] == b.Legacy()[a]
  }

  /** Nothing durable has happened yet; backups of an earlier installation may be there. */
  ghost predicate NotStarted(b: Baseline, f: Files) {
    && f.pending.None? && f.layout == b.LayoutAtStart() && f.targets == b.Starting()
    && (b.Migrated? ==> BackedUp(b, f.backups))
  }

  /** Another file than the displaced one is in the place of its backup. */
  ghost predicate Blocked(b: Baseline, f: Files) {
    exists a :: a in b.Legacy() && a in f.backups && f.backups[a] != b.Legacy()[a]
  }

  /** A publication that cannot begin, or one that began in vain. */
  ghost predicate Obstructed(b: Baseline, f: Files) {
    f.layout == b.LayoutAtStart() && Blocked(b, f)
  }

  /** The pending record is written, and no run can get past its validation. */
  ghost predicate Stuck(b: Baseline, desired: Tree, f: Files) {
    && b.Fresh? && f.pending == Some(PendingLayout(desired, b.Legacy(), {}, {}, map[]))
    && f.layout == b.LayoutAtStart() && f.targets == b.Starting() && Blocked(b, f)
  }

  ghost predicate Underway(b: Baseline, desired: Tree, f: Files) {
    && f.pending.Some? && f.pending.value.assets == desired
    && InTransit(b, f.pending.value, f) && f.layout == b.LayoutAtStart()
  }

  ghost predicate Committed(b: Baseline, desired: Tree, f: Files) {
    && f.layout == Some(CommittedLayout(desired, b.Legacy()))
    && f.targets == desired && BackedUp(b, f.backups)
  }

  ghost predicate LeftoverComplete(b: Baseline, desired: Tree, f: Files) {
    f.pending.Some? ==>
      && f.pending.value.assets == desired && f.pending.value.legacyBackups == b.Legacy()
      && f.pending.value.backupsReady == b.Legacy().Keys && f.pending.value.backupStaging.Keys <= b.Legacy().Keys
      && forall a: Asset :: a in f.pending.value.published
  }

  /** Every state that publishing `desired` over `b` passes through, crashes included. */
  ghost predicate Publishing(b: Baseline, desired: Tree, f: Files) {
    && Total(desired) && (b.Migrated? ==> Total(b.assets))
    && (|| NotStarted(b, f)
        || Stuck(b, desired, f)
        || Underway(b, desired, f)
        || (Committed(b, desired, f) && LeftoverComplete(b, desired, f)))
  }

  /** Nothing is lost: at every step each legacy file is at its target or at its backup. */
  lemma LegacyIsNeverLost(b: Baseline, desired: Tree, f: Files, a: Asset)
    requires Publishing(b, desired, f) && a in b.Legacy()
    ensures (a in f.targets && f.targets[a] == b.Legacy()[a]) || (a in f.backups && f.backups[a] == b.Legacy()[a])
  {
    hide Stuck, Committed, LeftoverComplete, Blocked;
    if Stuck(b, desired, f) {
      StuckTargets(b, desired, f);
    } else if Committed(b, desired, f) {
      CommittedBackups(b, desired, f);
    } else if Underway(b, desired, f) {
      assert BackupsInTransit(b, f.pending.value, f.targets, f.backups);
    }
  }

  lemma StuckTargets(b: Baseline, desired: Tree, f: Files)
    requires Stuck(b, desired, f)
    ensures f.targets == b.Legacy()
  {
  }

  lemma CommittedBackups(b: Baseline, desired: Tree, f: Files)
    requires Committed(b, desired, f)
    ensures BackedUp(b, f.backups)
  {
  }

  // ---------------------------------------------------------------------------------------------
  // Validation of a pending publication

  /** The checks on one target. */
  predicate TargetAllowed(p: PendingLayout, originals: Tree, targets: Tree, a: Asset)
    requires Total(p.assets)
  {
    if a !in targets then a !in originals && a !in p.published
    else
      || targets[a] == p.assets[a]
      || (a !in p.published && a in originals && targets[a] == originals[a])
  }

  /** The checks on one displaced file. */
  predicate BackupAllowed(p: PendingLayout, legacy: bool, f: Files, a: Asset)
    requires a in p.legacyBackups
  {
    if a in f.backups then f.backups[a] == p.legacyBackups[a]
    else !legacy && a !in p.backupsReady && a in f.targets && f.targets[a] == p.legacyBackups[a]
  }

  predicate PendingAccepted(p: PendingLayout, legacy: Option<Layout>, f: Files)
    requires Total(p.assets) && (legacy.Some? ==> legacy.value.LegacyLayout?)
  {
    var originals := if legacy.Some? then legacy.value.assets else p.legacyBackups;
    && (legacy.Some? ==> p.legacyBackups.Keys == legacy.value.backups)
    && (forall a: Asset :: TargetAllowed(p, originals, f.targets, a))
    && (forall a | a in p.legacyBackups :: BackupAllowed(p, legacy.Some?, f, a))
  }

  method ValidatePendingPublication(p: PendingLayout, legacy: Option<Layout>, f: Files) returns (r: Result)
    requires Total(p.assets) && (legacy.Some? ==> legacy.value.LegacyLayout?)
    ensures r.Ok? <==> PendingAccepted(p, legacy, f)
    ensures !r.Crashed?
  {
    var originals := if legacy.Some? then legacy.value.assets else p.legacyBackups;
    if legacy.Some? && p.legacyBackups.Keys != legacy.value.backups {
      return Refused(LayoutMismatch);
    }
    for i := 0 to |ASSETS|
      invariant forall j | 0 <= j < i :: TargetAllowed(p, originals, f.targets, ASSETS[j])
    {
      if !TargetAllowed(p, originals, f.targets, ASSETS[i]) {
        return Refused(PublicationModified);
      }
    }
    for i := 0 to |ASSETS|
      invariant forall j | 0 <= j < i && ASSETS[j] in p.legacyBackups :: BackupAllowed(p, legacy.Some?, f, ASSETS[j])
    {
      if ASSETS[i] in p.legacyBackups && !BackupAllowed(p, legacy.Some?, f, ASSETS[i]) {
        return Refused(BackupModified);
      }
    }
    forall a: Asset
      ensures TargetAllowed(p, originals, f.targets, a)
      ensures a in p.legacyBackups ==> BackupAllowed(p, legacy.Some?, f, a)
    {
      EveryAssetIsListed(a);
    }
    return Ok;
  }

  /** The validation accepts exactly the states a publication over this baseline can be in. */
  lemma AcceptedIffInTransit(b: Baseline, p: PendingLayout, f: Files)
    requires Total(p.assets) && p.legacyBackups == b.Legacy()
    requires p.backupsReady <= b.Legacy().Keys && p.backupStaging.Keys <= b.Legacy().Keys
    ensures PendingAccepted(p, b.LayoutAtStart(), f) <==> InTransit(b, p, f)
  {
    var originals := if b.LayoutAtStart().Some? then b.LayoutAtStart().value.assets else p.legacyBackups;
    assert originals == b.Starting();
    if InTransit(b, p, f) {
      forall a: Asset ensures TargetAllowed(p, originals, f.targets, a) {
      }
    }
    if PendingAccepted(p, b.LayoutAtStart(), f) {
      forall a: Asset ensures TargetAllowed(p, originals, f.targets, a) {
      }
      forall a | a in b.Legacy() ensures BackupAllowed(p, b.Migrated?, f, a) {
      }
    }
  }

  // ---------------------------------------------------------------------------------------------
  // The durable steps, one lemma each

  lemma StagingIsFree(b: Baseline, desired: Tree, f: Files, staged: map<(Asset, nat), Content>)
    requires Underway(b, desired, f)
    ensures Underway(b, desired, f.(staged := staged))
  {
  }

  lemma BackupSource(b: Baseline, desired: Tree, f: Files, a: Asset)
    requires Underway(b, desired, f) && a in b.Legacy()
    ensures a in f.backups ==> f.backups[a] == b.Legacy()[a]
    ensures a !in f.backups ==> a in f.targets && f.targets[a] == b.Legacy()[a]
  {
  }

  lemma ReservationStep(b: Baseline, desired: Tree, f: Files, a: Asset, number: nat)
    requires Underway(b, desired, f) && a in b.Legacy()
    ensures var p := f.pending.value;
            Underway(b, desired, f.(pending := Some(p.(backupStaging := p.backupStaging[a := number]))))
  {
  }

  lemma BackupStep(b: Baseline, desired: Tree, f: Files, a: Asset)
    requires Underway(b, desired, f) && a in b.Legacy()
    ensures Underway(b, desired, f.(backups := f.backups[a := b.Legacy()[a]]))
  {
  }

  lemma ReadyStep(b: Baseline, desired: Tree, f: Files, a: Asset)
    requires Underway(b, desired, f) && a in b.Legacy() && a in f.backups
    ensures var p := f.pending.value;
            Underway(b, desired, f.(pending := Some(p.(backupsReady := p.backupsReady + {a}))))
  {
  }

  /** A target is replaced only once every legacy file has its backup. */
  lemma TargetStep(b: Baseline, desired: Tree, f: Files, a: Asset)
    requires Underway(b, desired, f) && f.pending.value.backupsReady == b.Legacy().Keys && a in desired
    ensures Underway(b, desired, f.(targets := f.targets[a := desired[a]]))
  {
  }

  lemma PublishedStep(b: Baseline, desired: Tree, f: Files, a: Asset)
    requires Underway(b, desired, f) && a in f.targets && a in desired && f.targets[a] == desired[a]
    ensures var p := f.pending.value;
            Underway(b, desired, f.(pending := Some(p.(published := p.published + {a}))))
  {
  }

  lemma LayoutStep(b: Baseline, desired: Tree, f: Files)
    requires Underway(b, desired, f) && f.pending.value.backupsReady == b.Legacy().Keys
    requires forall a: Asset :: a in f.pending.value.published
    ensures var after := f.(layout := Some(CommittedLayout(desired, b.Legacy())));
            Committed(b, desired, after) && LeftoverComplete(b, desired, after)
  {
    assert f.targets == desired;
  }

  // ---------------------------------------------------------------------------------------------
  // The publication

  /** A bound on the durable steps of one uninterrupted publication. */
  const STEPS := 100

  /** A number whose staging file does not exist: reserving never reuses an unowned file. */
  method FreshNumber(staged: map<(Asset, nat), Content>, a: Asset) returns (n: nat)
    ensures (a, n) !in staged
  {
    n := 0;
    ghost var rest := staged.Keys;
    while (a, n) in staged
      invariant rest <= staged.Keys
      invariant forall m: nat | (a, m) in staged && m >= n :: (a, m) in rest
      decreases |rest|
    {
      rest := rest - {(a, n)};
      n := n + 1;
    }
  }

  method PublishLegacyBackup(disk: Disk, a: Asset, expected: Content, pending: PendingLayout, ghost b: Baseline)
    returns (r: Result, p: PendingLayout)
    requires Underway(b, pending.assets, disk.files) && disk.files.pending == Some(pending)
    requires a in b.Legacy() && b.Legacy()[a] == expected
    modifies disk
    ensures !r.Refused? && (r.Crashed? ==> old(disk.life) < 5) && (r.Ok? ==> disk.life + 5 >= old(disk.life))
    ensures Underway(b, pending.assets, disk.files)
    ensures disk.files.targets == old(disk.files).targets && disk.files.journal == old(disk.files).journal
    ensures r.Ok? ==>
      && a in disk.files.backups
      && disk.files.pending == Some(p) && p == pending.(backupStaging := p.backupStaging)
  {
    hide Underway;
    p := pending;
    BackupSource(b, p.assets, disk.files, a);
    if a in disk.files.backups {
      if disk.files.backups[a] != expected {
        return Refused(BackupModified), p;
      }
      if a in p.backupStaging && (a, p.backupStaging[a]) in disk.files.staged {
        var name := (a, p.backupStaging[a]);
        StagingIsFree(b, p.assets, disk.files, disk.files.staged - {name});
        :- disk.Write(disk.files.(staged := disk.files.staged - {name}));
      }
      return Ok, p;
    }
    if a !in disk.files.targets || disk.files.targets[a] != expected {
      return Refused(OriginalUnavailable), p;
    }
    if a !in p.backupStaging {
      var number: nat := FreshNumber(disk.files.staged, a);
      StagingIsFree(b, p.assets, disk.files, disk.files.staged[(a, number) := ""]);
      :- disk.Write(disk.files.(staged := disk.files.staged[(a, number) := ""]));
      ReservationStep(b, p.assets, disk.files, a, number);
      p := p.(backupStaging := p.backupStaging[a := number]);
      :- disk.Write(disk.files.(pending := Some(p)));
    }
    r := FillAndLinkBackup(disk, a, (a, p.backupStaging[a]), b, p.assets);
  }

  /** The staging file is filled, linked to its backup and removed. */
  method FillAndLinkBackup(disk: Disk, a: Asset, temporary: (Asset, nat), ghost b: Baseline, ghost desired: Tree)
    returns (r: Result)
    requires Underway(b, desired, disk.files)
    requires a in b.Legacy() && a in disk.files.targets && disk.files.targets[a] == b.Legacy()[a]
    modifies disk
    ensures !r.Refused? && (r.Crashed? ==> old(disk.life) < 3) && (r.Ok? ==> disk.life + 3 == old(disk.life))
    ensures Underway(b, desired, disk.files)
    ensures disk.files == old(disk.files).(backups := disk.files.backups, staged := disk.files.staged)
    ensures r.Ok? ==> a in disk.files.backups && temporary !in disk.files.staged
  {
    hide Underway;
    ghost var before := disk.files;
    var torn: Content := *;
    StagingIsFree(b, desired, before, before.staged[temporary := torn]);
    StagingIsFree(b, desired, before, before.staged[temporary := before.targets[a]]);
    :- disk.WriteInPieces(
      disk.files.(staged := disk.files.staged[temporary := disk.files.targets[a]]),
      disk.files.(staged := disk.files.staged[temporary := torn]));
    BackupStep(b, desired, disk.files, a);
    :- disk.Write(disk.files.(backups := disk.files.backups[a := disk.files.staged[temporary]]));
    StagingIsFree(b, desired, disk.files, disk.files.staged - {temporary});
    r := disk.Write(disk.files.(staged := disk.files.staged - {temporary}));
  }

  method PublishLegacyBackups(disk: Disk, pending: PendingLayout, ghost b: Baseline)
    returns (r: Result, p: PendingLayout)
    requires Underway(b, pending.assets, disk.files) && disk.files.pending == Some(pending)
    modifies disk
    ensures !r.Refused? && (r.Crashed? ==> old(disk.life) < 72) && (r.Ok? ==> disk.life + 72 >= old(disk.life))
    ensures Underway(b, pending.assets, disk.files) && disk.files.journal == old(disk.files).journal
    ensures r.Ok? ==> disk.files.pending == Some(p) && p.assets == pending.assets
    ensures r.Ok? ==> p.backupsReady == b.Legacy().Keys
  {
    hide Underway;
    p := pending;
    PendingShape(b, p.assets, disk.files);
    for i := 0 to |ASSETS|
      invariant Underway(b, pending.assets, disk.files)
      invariant disk.files.pending == Some(p) && p.assets == pending.assets && p.legacyBackups == b.Legacy()
      invariant p.backupsReady <= b.Legacy().Keys
      invariant forall j | 0 <= j < i && ASSETS[j] in b.Legacy() :: ASSETS[j] in p.backupsReady
      invariant disk.files.journal == old(disk.files).journal && disk.life + 6 * i >= old(disk.life)
    {
      var a := ASSETS[i];
      if a in p.legacyBackups && a !in p.backupsReady {
        r, p := PublishLegacyBackup(disk, a, p.legacyBackups[a], p, b);
        if r != Ok {
          return;
        }
        ReadyStep(b, p.assets, disk.files, a);
        p := p.(backupsReady := p.backupsReady + {a});
        :- disk.Write(disk.files.(pending := Some(p)));
      }
    }
    forall a | a in b.Legacy() ensures a in p.backupsReady {
      EveryAssetIsListed(a);
    }
    r := Ok;
  }

  lemma PendingShape(b: Baseline, desired: Tree, f: Files)
    requires Underway(b, desired, f)
    ensures var p := f.pending.value;
            && p.legacyBackups == b.Legacy() && p.backupsReady <= b.Legacy().Keys && Total(p.assets)
            && p.backupStaging.Keys <= b.Legacy().Keys
            && forall a | a in p.published :: a in f.targets && f.targets[a] == desired[a]
  {
  }

  method PublishAssets(disk: Disk, pending: PendingLayout, ghost b: Baseline) returns (r: Result, p: PendingLayout)
    requires Underway(b, pending.assets, disk.files) && disk.files.pending == Some(pending)
    requires pending.backupsReady == b.Legacy().Keys
    modifies disk
    ensures !r.Refused? && (r.Crashed? ==> old(disk.life) < 24) && (r.Ok? ==> disk.life + 24 >= old(disk.life))
    ensures Underway(b, pending.assets, disk.files) && disk.files.journal == old(disk.files).journal
    ensures r.Ok? ==> disk.files.pending == Some(p) && p == pending.(published := p.published)
    ensures r.Ok? ==> forall a: Asset :: a in p.published
  {
    hide Underway;
    p := pending;
    for i := 0 to |ASSETS|
      invariant Underway(b, pending.assets, disk.files)
      invariant disk.files.pending == Some(p) && p == pending.(published := p.published)
      invariant forall j | 0 <= j < i :: ASSETS[j] in p.published
      invariant disk.files.journal == old(disk.files).journal && disk.life + 2 * i >= old(disk.life)
    {
      var a := ASSETS[i];
      PendingShape(b, p.assets, disk.files);
      if a in p.published {
        if a !in disk.files.targets || disk.files.targets[a] != p.assets[a] {
          return Refused(PublicationModified), p;
        }
      } else {
        if a !in disk.files.targets || disk.files.targets[a] != p.assets[a] {
          TargetStep(b, p.assets, disk.files, a);
          :- disk.Write(disk.files.(targets := disk.files.targets[a := p.assets[a]]));
        }
        PublishedStep(b, p.assets, disk.files, a);
        p := p.(published := p.published + {a});
        :- disk.Write(disk.files.(pending := Some(p)));
      }
    }
    forall a: Asset ensures a in p.published {
      EveryAssetIsListed(a);
    }
    r := Ok;
  }

  // ---------------------------------------------------------------------------------------------
  // The commands, on any files

  /** The schema of the two records: every command file is listed, and progress is made on displaced files only. */
  predicate WellFormed(f: Files) {
    && (f.layout.Some? ==> Total(f.layout.value.assets))
    && (f.pending.Some? ==>
          && Total(f.pending.value.assets)
          && f.pending.value.backupsReady <= f.pending.value.legacyBackups.Keys
          && f.pending.value.backupStaging.Keys <= f.pending.value.legacyBackups.Keys)
  }

  /** What the files say a publication starts from, or has started from. */
  function BaselineAt(f: Files): Baseline
    requires f.layout.Some? ==> f.layout.value.LegacyLayout?
  {
    if f.layout.None? then Fresh(if f.pending.Some? then f.pending.value.legacyBackups else f.targets)
    else
      Migrated(f.layout.value.assets,
        if f.pending.Some? then f.pending.value.legacyBackups
        else map a | a in f.backups && a in f.layout.value.backups :: f.backups[a])
  }

  /** The pending record describes the files around it. */
  ghost predicate PendingFits(f: Files)
    requires WellFormed(f) && f.pending.Some? && (f.layout.Some? ==> f.layout.value.LegacyLayout?)
  {
    && (f.layout.Some? ==> f.pending.value.legacyBackups.Keys == f.layout.value.backups)
    && InTransit(BaselineAt(f), f.pending.value, f)
  }

  /** The pending record is that of the committed layout, complete. */
  ghost predicate PendingIsLeftover(f: Files)
    requires f.pending.Some? && f.layout.Some? && f.layout.value.CommittedLayout?
  {
    var (p, layout) := (f.pending.value, f.layout.value);
    && p.assets == layout.assets && p.legacyBackups == layout.legacyBackups
    && (forall a: Asset :: a in p.published) && (forall a | a in layout.legacyBackups :: a in p.backupsReady)
  }

  /** Why a surviving pending record is refused: it does not belong to what is there. */
  ghost predicate ReconciliationRefuses(f: Files)
    requires WellFormed(f)
  {
    f.layout.Some? && f.pending.Some? &&
    if f.layout.value.LegacyLayout? then !PendingFits(f)
    else !PendingIsLeftover(f) || exists a: Asset :: a !in f.targets || f.targets[a] != f.layout.value.assets[a]
  }

  /** A surviving pending record of a committed publication is removed; others are left alone. */
  method ReconcileCommittedPendingLayout(disk: Disk) returns (r: Result)
    requires WellFormed(disk.files)
    modifies disk
    ensures r.Refused? <==> ReconciliationRefuses(old(disk.files))
    ensures r.Crashed? ==> old(disk.life) == 0
    ensures !r.Ok? ==> disk.files == old(disk.files)
    ensures r.Ok? ==>
      disk.files == if disk.files.layout.Some? && disk.files.layout.value.CommittedLayout?
                    then old(disk.files).(pending := None) else old(disk.files)
    ensures disk.life <= old(disk.life) <= disk.life + 1
  {
    var f := disk.files;
    if f.layout.None? || f.pending.None? {
      assert f.pending.None? ==> f == f.(pending := None);
      return Ok;
    }
    var p := f.pending.value;
    if f.layout.value.LegacyLayout? {
      AcceptedIffFits(f);
      r := ValidatePendingPublication(p, f.layout, f);
      return;
    }
    var layout := f.layout.value;
    if CommittedLayout(p.assets, p.legacyBackups) != layout
       || (exists i :: 0 <= i < |ASSETS| && ASSETS[i] !in p.published)
       || p.backupsReady != layout.legacyBackups.Keys {
      NotALeftover(f);
      return Refused(LayoutMismatch);
    }
    IsALeftover(f);
    if f.targets != layout.assets {
      return Refused(AssetModified);
    }
    r := disk.Write(f.(pending := None));
  }

  lemma NotALeftover(f: Files)
    requires WellFormed(f) && f.pending.Some? && f.layout.Some? && f.layout.value.CommittedLayout?
    requires var (p, layout) := (f.pending.value, f.layout.value);
             CommittedLayout(p.assets, p.legacyBackups) != layout
             || (exists i :: 0 <= i < |ASSETS| && ASSETS[i] !in p.published) || p.backupsReady != layout.legacyBackups.Keys
    ensures !PendingIsLeftover(f)
  {
  }

  lemma IsALeftover(f: Files)
    requires WellFormed(f) && f.pending.Some? && f.layout.Some? && f.layout.value.CommittedLayout?
    requires var (p, layout) := (f.pending.value, f.layout.value);
             && CommittedLayout(p.assets, p.legacyBackups) == layout && p.backupsReady == layout.legacyBackups.Keys
             && forall i | 0 <= i < |ASSETS| :: ASSETS[i] in p.published
    ensures PendingIsLeftover(f)
    ensures f.targets == f.layout.value.assets <==>
              forall a: Asset :: a in f.targets && f.targets[a] == f.layout.value.assets[a]
  {
    forall a: Asset ensures a in f.pending.value.published {
      EveryAssetIsListed(a);
    }
  }

  lemma AcceptedIffFits(f: Files)
    requires WellFormed(f) && f.pending.Some? && (f.layout.Some? ==> f.layout.value.LegacyLayout?)
    ensures PendingAccepted(f.pending.value, f.layout, f) <==> PendingFits(f)
    ensures PendingFits(f) ==> BaselineAt(f).LayoutAtStart() == f.layout
  {
    if f.layout.Some? ==> f.pending.value.legacyBackups.Keys == f.layout.value.backups {
      AcceptedIffInTransit(BaselineAt(f), f.pending.value, f);
    }
  }

  /** The displaced files recorded when a publication starts. */
  method DisplacedFiles(f: Files) returns (displaced: Tree)
    requires f.pending.None? && (f.layout.Some? ==> f.layout.value.LegacyLayout?)
    ensures displaced == BaselineAt(f).Legacy()
  {
    if f.layout.Some? {
      displaced := map a | a in f.layout.value.backups && a in f.backups :: f.backups[a];
    } else {
      displaced := f.targets;
    }
  }

  /** Why the candidate is not published, before anything is written. */
  ghost predicate Refuses(f: Files, candidate: Tree)
    requires WellFormed(f)
  {
    || (f.pending.Some? && f.pending.value.assets != candidate)
    || match f.layout
       case None => f.pending.Some? && !PendingFits(f)
       case Some(CommittedLayout(assets, _)) =>
         || (exists a: Asset :: a !in f.targets || f.targets[a] != assets[a])
         || (f.pending.Some? && !PendingIsLeftover(f))
       case Some(LegacyLayout(assets, backups)) =>
         || f.journal
         || (if f.pending.Some? then !PendingFits(f)
             else
               || (exists a: Asset :: a !in f.targets || f.targets[a] != assets[a])
               || exists a :: a in backups && a !in f.backups)
  }

  /** A file would be displaced whose backup would replace a backup of something else. */
  ghost predicate CannotDisplace(f: Files) {
    f.layout.None? && f.pending.None? && exists a :: a in f.targets && a in f.backups && f.backups[a] != f.targets[a]
  }

  /**
   Publishing the command files of a candidate, whatever is installed. A layout of this version keeps its
   files. Otherwise they are published over what the files say is the baseline, and the publication stays
   on its course wherever it stops.
   */
  method InitializeBootstrap(disk: Disk, candidate: Tree) returns (r: Result)
    requires WellFormed(disk.files) && Total(candidate)
    modifies disk
    ensures r.Refused? <==>
      Refuses(old(disk.files), candidate) || (CannotDisplace(old(disk.files)) && old(disk.life) > 0)
    ensures r.Refused? ==>
      disk.files == if Refuses(old(disk.files), candidate) then old(disk.files)
                    else old(disk.files).(pending := Some(PendingLayout(candidate, old(disk.files).targets, {}, {}, map[])))
    ensures r.Crashed? ==> old(disk.life) < STEPS
    ensures r.Crashed? && CannotDisplace(old(disk.files)) ==> disk.files == old(disk.files)
    ensures disk.files.journal == old(disk.files).journal
    ensures !r.Refused? ==>
      if old(disk.files).layout.Some? && old(disk.files).layout.value.CommittedLayout? then
        disk.files == if r.Ok? then old(disk.files).(pending := None) else old(disk.files)
      else
        && Publishing(BaselineAt(old(disk.files)), candidate, disk.files)
        && (Obstructed(BaselineAt(old(disk.files)), disk.files) <==> CannotDisplace(old(disk.files)))
        && (r.Ok? ==> Committed(BaselineAt(old(disk.files)), candidate, disk.files) && disk.files.pending.None?)
  {
    var f := disk.files;
    if f.pending.Some? && f.pending.value.assets != candidate {
      return Refused(CandidateChanged);
    }
    if f.layout.Some? {
      if f.layout.value.LegacyLayout? {
        if f.pending.None? {
          if f.targets != f.layout.value.assets {
            Differing(f.targets, f.layout.value.assets);
            return Refused(AssetModified);
          }
          if !(f.layout.value.backups <= f.backups.Keys) {
            return Refused(BackupModified);
          }
          assert BaselineAt(f).kept.Keys == f.layout.value.backups;
        }
        if f.journal {
          return Refused(LegacyTransactionPending);
        }
      } else {
        Differing(f.targets, f.layout.value.assets);
        if f.targets != f.layout.value.assets {
          return Refused(AssetModified);
        }
        r := ReconcileCommittedPendingLayout(disk);
        return;
      }
    }
    r := PublishOverBaseline(disk, candidate);
  }

  lemma Differing(t: Tree, u: Tree)
    requires Total(u)
    ensures t != u <==> exists a: Asset :: a !in t || t[a] != u[a]
  {
    if forall a: Asset :: a in t && t[a] == u[a] {
      assert t == u;
    }
  }

  method PublishOverBaseline(disk: Disk, candidate: Tree) returns (r: Result)
    requires WellFormed(disk.files) && Total(candidate)
    requires disk.files.layout.Some? ==> disk.files.layout.value.LegacyLayout?
    requires if disk.files.pending.Some? then disk.files.pending.value.assets == candidate
             else NotStarted(BaselineAt(disk.files), disk.files)
    modifies disk
    ensures r.Refused? <==>
      if old(disk.files).pending.Some? then !PendingFits(old(disk.files))
      else CannotDisplace(old(disk.files)) && old(disk.life) > 0
    ensures r.Refused? ==>
      disk.files == if old(disk.files).pending.Some? then old(disk.files)
                    else old(disk.files).(pending := Some(PendingLayout(candidate, old(disk.files).targets, {}, {}, map[])))
    ensures r.Crashed? ==> old(disk.life) < STEPS
    ensures r.Crashed? && CannotDisplace(old(disk.files)) ==> disk.files == old(disk.files)
    ensures disk.files.journal == old(disk.files).journal
    ensures !r.Refused? ==>
      && Publishing(BaselineAt(old(disk.files)), candidate, disk.files)
      && (Obstructed(BaselineAt(old(disk.files)), disk.files) <==> CannotDisplace(old(disk.files)))
    ensures r.Ok? ==> Committed(BaselineAt(old(disk.files)), candidate, disk.files) && disk.files.pending.None?
  {
    ghost var b := BaselineAt(disk.files);
    var pending: PendingLayout;
    if disk.files.pending.Some? {
      pending := disk.files.pending.value;
    } else {
      var displaced := DisplacedFiles(disk.files);
      pending := PendingLayout(candidate, displaced, {}, {}, map[]);
      FreshRecord(candidate, disk.files);
      :- disk.Write(disk.files.(pending := Some(pending)));
    }
    AcceptedIffFits(disk.files);
    r := ValidatePendingPublication(pending, disk.files.layout, disk.files);
    if r != Ok {
      return;
    }
    r := CompletePublication(disk, pending, b);
  }

  /** A first record fits exactly when no backup is in the way. */
  lemma FreshRecord(desired: Tree, f: Files)
    requires WellFormed(f) && Total(desired) && (f.layout.Some? ==> f.layout.value.LegacyLayout?)
    requires f.pending.None? && NotStarted(BaselineAt(f), f)
    ensures var b := BaselineAt(f);
            var g := f.(pending := Some(PendingLayout(desired, b.Legacy(), {}, {}, map[])));
            && Publishing(b, desired, f) && WellFormed(g)
            && BaselineAt(g) == b && (PendingFits(g) <==> !CannotDisplace(f))
  {
  }

  /** A record over an obstacle is never accepted, and no other record of a publication is refused. */
  lemma ObstructedIsRefused(b: Baseline, p: PendingLayout, f: Files)
    requires Total(p.assets) && p.legacyBackups == b.Legacy() && f.pending == Some(p)
    requires Publishing(b, p.assets, f) && f.layout == b.LayoutAtStart()
    ensures Stuck(b, p.assets, f) <==> Obstructed(b, f)
    ensures Underway(b, p.assets, f) <==> !Obstructed(b, f)
    ensures Obstructed(b, f) <==> !PendingAccepted(p, b.LayoutAtStart(), f)
  {
    if Stuck(b, p.assets, f) {
      AcceptedIffInTransit(b, p, f);
    } else {
      PendingShape(b, p.assets, f);
      AcceptedIffInTransit(b, p, f);
      UnderwayIsFree(b, p.assets, f);
    }
  }

  method CompletePublication(disk: Disk, pending: PendingLayout, ghost b: Baseline) returns (r: Result)
    requires Publishing(b, pending.assets, disk.files)
    requires Underway(b, pending.assets, disk.files) && disk.files.pending == Some(pending)
    modifies disk
    ensures Publishing(b, pending.assets, disk.files) && disk.files.journal == old(disk.files).journal
    ensures !Obstructed(b, disk.files)
    ensures !r.Refused? && (r.Crashed? ==> old(disk.life) < 98)
    ensures r.Ok? ==> Committed(b, pending.assets, disk.files) && disk.files.pending.None?
  {
    hide Underway, Committed, LeftoverComplete, Obstructed;
    var p;
    r, p := PublishLegacyBackups(disk, pending, b);
    UnderwayIsFree(b, pending.assets, disk.files);
    if r != Ok {
      return;
    }
    r, p := PublishAssets(disk, p, b);
    UnderwayIsFree(b, pending.assets, disk.files);
    if r != Ok {
      return;
    }
    PendingShape(b, p.assets, disk.files);
    LayoutStep(b, p.assets, disk.files);
    :- disk.Write(disk.files.(layout := Some(CommittedLayout(p.assets, p.legacyBackups))));
    CommittedIsFree(b, p.assets, disk.files);
    UnlinkStep(b, p.assets, disk.files);
    r := disk.Write(disk.files.(pending := None));
    CommittedIsFree(b, p.assets, disk.files);
  }

  lemma UnderwayIsFree(b: Baseline, desired: Tree, f: Files)
    requires Underway(b, desired, f)
    ensures !Obstructed(b, f)
  {
    forall a | a in b.Legacy() && a in f.backups ensures f.backups[a] == b.Legacy()[a] {
      BackupSource(b, desired, f, a);
    }
  }

  lemma CommittedIsFree(b: Baseline, desired: Tree, f: Files)
    requires Committed(b, desired, f)
    ensures !Obstructed(b, f)
  {
  }

  lemma UnlinkStep(b: Baseline, desired: Tree, f: Files)
    requires Committed(b, desired, f)
    ensures Committed(b, desired, f.(pending := None)) && LeftoverComplete(b, desired, f.(pending := None))
  {
  }

  /**
   Any number of runs, each cut short after an arbitrary number of durable steps, and then one that
   is not. Unless the backup of a displaced file holds something else from the start, everything is
   published and every displaced file has its backup; otherwise the pending record stays behind and
   nothing else has changed. Each run begins with the reconciliation that comes with taking the
   install lock.
   */
  method PublishThroughCrashes(disk: Disk, desired: Tree, lives: seq<nat>, ghost b: Baseline)
    requires Publishing(b, desired, disk.files) && (b.Migrated? ==> !disk.files.journal)
    modifies disk
    ensures !Obstructed(b, old(disk.files)) ==> Committed(b, desired, disk.files) && disk.files.pending.None?
    ensures Obstructed(b, old(disk.files)) ==>
      Stuck(b, desired, disk.files) && disk.files == old(disk.files).(pending := disk.files.pending)
  {
    hide Committed, LeftoverComplete, Underway, NotStarted, Obstructed, Stuck;
    var runs := lives + [STEPS + 1];
    var r := Crashed;
    for i := 0 to |runs|
      invariant Publishing(b, desired, disk.files) && disk.files.journal == old(disk.files).journal
      invariant Obstructed(b, disk.files) <==> Obstructed(b, old(disk.files))
      invariant !Obstructed(b, disk.files) && i == |runs| ==> r.Ok?
      invariant r.Ok? ==> Committed(b, desired, disk.files) && disk.files.pending.None?
      invariant Obstructed(b, disk.files) ==>
        && !r.Ok? && disk.files == old(disk.files).(pending := disk.files.pending)
        && (i == |runs| ==> Stuck(b, desired, disk.files))
    {
      disk.life := runs[i];
      WhatARunMeets(b, desired, disk.files);
      r := ReconcileCommittedPendingLayout(disk);
      if r.Ok? {
        WhatARunMeets(b, desired, disk.files);
        ObstacleStays(b, desired, disk.files);
        r := InitializeBootstrap(disk, desired);
      }
      WhatARunMeets(b, desired, disk.files);
    }
  }

  /** A run refuses nothing that a publication leaves, but for the obstacle that was there from the start. */
  lemma WhatARunMeets(b: Baseline, desired: Tree, f: Files)
    requires Publishing(b, desired, f) && (b.Migrated? ==> !f.journal)
    ensures WellFormed(f) && !ReconciliationRefuses(f)
    ensures f.layout.Some? && f.layout.value.CommittedLayout? ==>
      && !Refuses(f, desired) && !CannotDisplace(f) && !Obstructed(b, f) && Committed(b, desired, f)
      && Publishing(b, desired, f.(pending := None)) && Committed(b, desired, f.(pending := None))
      && !Obstructed(b, f.(pending := None))
    ensures !(f.layout.Some? && f.layout.value.CommittedLayout?) ==>
      && BaselineAt(f) == b
      && (Refuses(f, desired) <==> f.pending.Some? && Obstructed(b, f))
      && (CannotDisplace(f) <==> f.pending.None? && Obstructed(b, f))
      && (f.pending.Some? && Obstructed(b, f) ==> Stuck(b, desired, f))
  {
    hide NotStarted, Stuck, Underway, Committed;
    if NotStarted(b, f) {
      BeforeTheStart(b, desired, f);
    } else if Stuck(b, desired, f) {
      OverAnObstacle(b, desired, f);
    } else if Underway(b, desired, f) {
      OnItsWay(b, desired, f);
    } else {
      AtItsEnd(b, desired, f);
    }
  }

  lemma BeforeTheStart(b: Baseline, desired: Tree, f: Files)
    requires NotStarted(b, f) && Total(desired) && (b.Migrated? ==> Total(b.assets) && !f.journal)
    ensures WellFormed(f) && f.layout == b.LayoutAtStart() && f.pending.None?
    ensures BaselineAt(f) == b && !Refuses(f, desired)
    ensures CannotDisplace(f) <==> Obstructed(b, f)
  {
    if b.Migrated? {
      assert BaselineAt(f).kept == b.kept;
    }
  }

  /** A first record over an obstacle stays, and is all that changes. */
  lemma ObstacleStays(b: Baseline, desired: Tree, f: Files)
    requires Publishing(b, desired, f)
    ensures CannotDisplace(f) ==>
      var g := f.(pending := Some(PendingLayout(desired, f.targets, {}, {}, map[])));
      Publishing(b, desired, g) && Obstructed(b, f) && Obstructed(b, g)
  {
  }

  lemma OverAnObstacle(b: Baseline, desired: Tree, f: Files)
    requires Stuck(b, desired, f) && Total(desired)
    ensures WellFormed(f) && f.layout.None? && f.pending.Some?
    ensures BaselineAt(f) == b && Refuses(f, desired) && Obstructed(b, f)
  {
    if Underway(b, desired, f) {
      UnderwayIsFree(b, desired, f);
    }
  }

  lemma OnItsWay(b: Baseline, desired: Tree, f: Files)
    requires Underway(b, desired, f) && (b.Migrated? ==> Total(b.assets) && !f.journal)
    ensures WellFormed(f) && f.layout == b.LayoutAtStart() && f.pending.Some?
    ensures BaselineAt(f) == b && PendingFits(f) && !Refuses(f, desired) && !Obstructed(b, f)
  {
    hide InTransit;
    PendingShape(b, desired, f);
    UnderwayIsFree(b, desired, f);
  }

  lemma AtItsEnd(b: Baseline, desired: Tree, f: Files)
    requires Committed(b, desired, f) && LeftoverComplete(b, desired, f) && Total(desired) && (b.Migrated? ==> Total(b.assets))
    ensures WellFormed(f) && f.layout.Some? && f.layout.value.CommittedLayout?
    ensures !ReconciliationRefuses(f) && !Refuses(f, desired) && !Obstructed(b, f)
    ensures var g := f.(pending := None);
            Publishing(b, desired, g) && Committed(b, desired, g) && !Obstructed(b, g)
  {
    hide NotStarted, Stuck, Underway;
    UnlinkStep(b, desired, f);
  }
}
