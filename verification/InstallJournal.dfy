/**
 The install journal: preparing, recovering, committing and rolling back a release, with a crash
 possible before every durable step (install/bootstrap/transaction.py:1024-1284) and the pointer
 checks of install/bootstrap/verify.py:262-350.
 */
module InstallJournal {
  import opened Durable
  import opened Wrappers

  type Digest = string
  type CommitId = string
  type TxId = string

  /** The identity of a release's content: what pointers, manifests and journals record. */
  datatype Pointer = Pointer(commit: CommitId, tracked: Digest, runtime: Digest)

  /** A checkout: its content, its `.git` directory, and whether this bootstrap supports it. */
  datatype Tree = Tree(content: Pointer, git: Digest, compatible: bool)

  datatype Manifest = Manifest(content: Pointer, compatible: bool)

  datatype Phase = Journaled | Owned | Manifested | Prepared | ReleaseReady | Adopted | Switched | Committed

  datatype Journal = Journal(
    tx: TxId, content: Pointer, phase: Phase,
    previous: Option<Pointer>, previousPrevious: Option<Pointer>)

  /** `current.json`: the first version keeps the previous release in a file of its own. */
  datatype PointerFile =
    | FirstVersion(current: Pointer)
    | PointerState(current: Pointer, previous: Option<Pointer>)

  /** The durable files of an installation, and the candidates beside it. */
  datatype Files = Files(
    journal: Option<Journal>,
    ownership: map<TxId, CommitId>,
    candidates: map<TxId, Tree>,
    releases: map<CommitId, Tree>,
    manifests: map<CommitId, Manifest>,
    receipts: map<CommitId, Digest>,
    layout: bool,
    pointer: Option<PointerFile>,
    previousFile: Option<Pointer>)

  datatype Refusal =
    | CandidateInvalid | RecoveryRequired | ReleaseInvalid | OwnershipMismatch | WrongTransaction
    | BootstrapUnpublished | PublicationRefused | JournalMissing | PointerChanged | NoPrevious | OwnershipMissing

  type Disk = Durable.Disk<Files>

  type Result = Outcome<Refusal>

  // ---------------------------------------------------------------------------------------------
  // What the code checks

  /** The authoritative pointer: nothing before the first installation. */
  function Current(f: Files): Option<Pointer> {
    if f.pointer.None? then None else Some(f.pointer.value.current)
  }

  function Previous(f: Files): Option<Pointer> {
    if f.pointer.None? then None
    else if f.pointer.value.FirstVersion? then f.previousFile
    else f.pointer.value.previous
  }

  predicate GitOwned(f: Files, c: CommitId, t: Tree) {
    c in f.receipts ==> f.receipts[c] == t.git
  }

  /** The release exists under its own commit, matches its manifest and is supported. */
  predicate ReleaseVerified(f: Files, c: CommitId) {
    && c in f.releases && c in f.manifests && f.releases[c].content.commit == c
    && f.manifests[c] == Manifest(f.releases[c].content, true)
    && GitOwned(f, c, f.releases[c])
  }

  predicate PointerVerified(f: Files, p: Pointer) {
    ReleaseVerified(f, p.commit) && f.manifests[p.commit].content == p
  }

  predicate PointersVerified(f: Files) {
    && (Current(f).Some? ==> PointerVerified(f, Current(f).value))
    && (Previous(f).Some? ==> PointerVerified(f, Previous(f).value))
  }

  // ---------------------------------------------------------------------------------------------
  // What every state between two steps satisfies

  /** Before the release is in place: the candidate is what the journal says, and owned. */
  predicate CandidateInPlace(f: Files, j: Journal) {
    && j.content.commit !in f.releases
    && j.tx in f.candidates && f.candidates[j.tx].content == j.content
    && j.content.commit in f.receipts && f.receipts[j.content.commit] == f.candidates[j.tx].git
    && (j.phase.Manifested? || j.phase.Prepared? ==>
          && j.content.commit in f.manifests
          && f.manifests[j.content.commit] == Manifest(j.content, f.candidates[j.tx].compatible))
  }

  predicate ReleaseInPlace(f: Files, j: Journal) {
    && j.tx !in f.candidates
    && j.content.commit in f.releases && f.releases[j.content.commit].content == j.content
    && j.content.commit in f.receipts && f.receipts[j.content.commit] == f.releases[j.content.commit].git
    && j.content.commit in f.manifests && f.manifests[j.content.commit].content == j.content
  }

  predicate PointerBaseline(f: Files, j: Journal) {
    Current(f) == j.previous && Previous(f) == j.previousPrevious
  }

  predicate PointerSwapped(f: Files, j: Journal) {
    f.pointer == Some(PointerState(j.content, j.previous))
  }

  /** A journal past its first phase has its ownership file. */
  predicate JournalOwned(f: Files) {
    f.journal.Some? && f.journal.value.phase != Journaled ==>
      f.journal.value.tx in f.ownership && f.ownership[f.journal.value.tx] == f.journal.value.content.commit
  }

  predicate JournalSound(f: Files, j: Journal) {
    && (j.previous.None? ==> j.previousPrevious.None?)
    && (j.phase != Journaled ==> j.tx in f.ownership && f.ownership[j.tx] == j.content.commit)
    && match j.phase
       case Journaled | Owned | Manifested => CandidateInPlace(f, j) && PointerBaseline(f, j)
       case Prepared =>
         || (CandidateInPlace(f, j) && PointerBaseline(f, j))
         || (ReleaseInPlace(f, j) && (PointerBaseline(f, j) || PointerSwapped(f, j)))
       case ReleaseReady | Adopted => ReleaseInPlace(f, j) && (PointerBaseline(f, j) || PointerSwapped(f, j))
       case Switched | Committed => ReleaseInPlace(f, j) && PointerSwapped(f, j) && f.previousFile.None?
  }

  predicate Sound(f: Files) {
    PointersVerified(f) && (f.journal.Some? ==> JournalSound(f, f.journal.value))
  }

  /** The tree the journaled transaction installs. */
  function Payload(f: Files): Tree
    requires f.journal.Some? && JournalSound(f, f.journal.value)
  {
    var j := f.journal.value;
    if j.content.commit in f.releases then f.releases[j.content.commit] else f.candidates[j.tx]
  }

  /** Whether this bootstrap can run the release that the journaled transaction installs. */
  predicate Supported(f: Files)
    requires f.journal.Some? && JournalSound(f, f.journal.value)
  {
    var c := f.journal.value.content.commit;
    if c in f.releases then f.manifests[c].compatible else Payload(f).compatible
  }

  /** The files once the journaled transaction is finished. */
  function Completed(f: Files): Files
    requires f.journal.Some? && JournalSound(f, f.journal.value)
  {
    var j := f.journal.value;
    f.(journal := None,
       ownership := f.ownership - {j.tx},
       candidates := f.candidates - {j.tx},
       releases := f.releases[j.content.commit := Payload(f)],
       manifests := if j.content.commit in f.releases then f.manifests
                    else f.manifests[j.content.commit := Manifest(j.content, Payload(f).compatible)],
       pointer := Some(PointerState(j.content, j.previous)),
       previousFile := None)
  }

  /** The files a transaction ends in when nothing interrupts it, from the state it starts in. */
  function Installed(f: Files, tx: TxId, c: CommitId): Files
    requires c in f.releases || tx in f.candidates
  {
    var tree := if c in f.releases then f.releases[c] else f.candidates[tx];
    f.(ownership := f.ownership - {tx},
       candidates := f.candidates - {tx},
       releases := f.releases[c := tree],
       manifests := if c in f.releases then f.manifests else f.manifests[c := Manifest(tree.content, tree.compatible)],
       receipts := f.receipts[c := tree.git],
       pointer := Some(PointerState(tree.content, Current(f))),
       previousFile := None)
  }

  /** The journal that is now durable completes to what an uninterrupted run from `before` ends in. */
  predicate Installs(f: Files, before: Files, tx: TxId, c: CommitId) {
    && f.journal.Some? && f.journal.value.tx == tx && JournalSound(f, f.journal.value)
    && (c in before.releases || tx in before.candidates)
    && Completed(f) == Installed(before, tx, c)
    && (Supported(f) <==> c in before.releases || before.candidates[tx].compatible)
  }

  // ---------------------------------------------------------------------------------------------
  // The steps of a journaled transaction, one lemma each

  /** A step of the same transaction that does not change what it will complete to. */
  predicate Advances(f: Files, g: Files) {
    && Sound(f) && Sound(g) && f.journal.Some? && g.journal.Some?
    && g.journal.value == f.journal.value.(phase := g.journal.value.phase)
    && Completed(g) == Completed(f) && (Supported(g) <==> Supported(f))
  }

  function AtPhase(f: Files, phase: Phase): Files
    requires f.journal.Some?
  {
    f.(journal := Some(f.journal.value.(phase := phase)))
  }

  lemma PhaseStep(f: Files, phase: Phase)
    requires Sound(f) && f.journal.Some? && JournalSound(f, f.journal.value.(phase := phase))
    ensures Advances(f, AtPhase(f, phase))
  {
  }

  function Owning(f: Files): Files
    requires f.journal.Some?
  {
    f.(ownership := f.ownership[f.journal.value.tx := f.journal.value.content.commit])
  }

  lemma OwnershipStep(f: Files)
    requires Sound(f) && f.journal.Some? && f.journal.value.phase.Journaled?
    ensures Advances(f, Owning(f)) && Advances(f, AtPhase(Owning(f), Owned))
  {
    assert Owning(f).ownership - {f.journal.value.tx} == f.ownership - {f.journal.value.tx};
    PhaseStep(Owning(f), Owned);
  }

  function WithManifest(f: Files): Files
    requires f.journal.Some? && f.journal.value.tx in f.candidates
  {
    var candidate := f.candidates[f.journal.value.tx];
    f.(manifests := f.manifests[f.journal.value.content.commit := Manifest(candidate.content, candidate.compatible)])
  }

  lemma ManifestStep(f: Files)
    requires Sound(f) && f.journal.Some? && f.journal.value.phase.Owned?
    ensures f.journal.value.tx in f.candidates
    ensures Advances(f, WithManifest(f)) && Advances(f, AtPhase(WithManifest(f), Manifested))
    ensures Advances(f, AtPhase(AtPhase(WithManifest(f), Manifested), Prepared))
  {
    PhaseStep(WithManifest(f), Manifested);
    PhaseStep(AtPhase(WithManifest(f), Manifested), Prepared);
  }

  /** The candidate directory is renamed to its release. */
  function Renamed(f: Files): Files
    requires f.journal.Some? && f.journal.value.tx in f.candidates
  {
    var j := f.journal.value;
    f.(candidates := f.candidates - {j.tx}, releases := f.releases[j.content.commit := f.candidates[j.tx]])
  }

  lemma RenameStep(f: Files)
    requires Sound(f) && f.journal.Some? && f.journal.value.phase.Prepared? && CandidateInPlace(f, f.journal.value)
    ensures Advances(f, Renamed(f)) && ReleaseInPlace(Renamed(f), f.journal.value)
    ensures Advances(f, AtPhase(Renamed(f), ReleaseReady))
  {
    var g := Renamed(f);
    assert g.candidates - {f.journal.value.tx} == f.candidates - {f.journal.value.tx};
    assert g.releases[f.journal.value.content.commit := Payload(f)] == f.releases[f.journal.value.content.commit := Payload(f)];
    PhaseStep(g, ReleaseReady);
  }

  lemma PointerStep(f: Files)
    requires Sound(f) && f.journal.Some? && ReleaseInPlace(f, f.journal.value) && Supported(f)
    ensures var j := f.journal.value;
            var g := f.(pointer := Some(PointerState(j.content, j.previous)));
            Advances(f, g) && Advances(f, g.(previousFile := None))
  {
    var j := f.journal.value;
    var g := f.(pointer := Some(PointerState(j.content, j.previous)));
    assert PointerVerified(g, j.content);
    assert j.previous.Some? ==> PointerVerified(g, j.previous.value);
  }

  lemma FinalPhasesStep(f: Files)
    requires Sound(f) && f.journal.Some? && ReleaseInPlace(f, f.journal.value)
    requires !f.journal.value.phase.Journaled?
    requires PointerSwapped(f, f.journal.value) && f.previousFile.None?
    ensures Advances(f, AtPhase(f, Switched)) && Advances(f, AtPhase(AtPhase(f, Switched), Committed))
  {
    PhaseStep(f, Switched);
    PhaseStep(AtPhase(f, Switched), Committed);
  }

  // ---------------------------------------------------------------------------------------------
  // Prepare

  /**
   When a candidate can be prepared: otherwise the command changes none of these files. `published`
   says whether the publication of the command files that comes with it was accepted.
   */
  predicate Preparable(f: Files, tx: TxId, c: CommitId, published: bool) {
    && tx in f.candidates && f.candidates[tx].content.commit == c
    && f.layout && published
    && f.journal.None?
    && (if c in f.releases then
          && ReleaseVerified(f, c) && c in f.receipts
          && f.releases[c].content.tracked == f.candidates[tx].content.tracked
        else
          GitOwned(f, c, f.candidates[tx]))
  }

  /** Nothing but unreferenced evidence has changed before the first journal write. */
  predicate NotYetJournaled(before: Files, after: Files, tx: TxId, c: CommitId) {
    && after == before.(candidates := after.candidates, receipts := after.receipts, ownership := after.ownership)
    && after.candidates - {tx} == before.candidates - {tx}
    && (c in before.releases ==> after.receipts == before.receipts)
    && after.receipts - {c} == before.receipts - {c}
    && after.ownership - {tx} == before.ownership - {tx}
  }

  lemma EarlyStepKeepsSound(before: Files, after: Files, tx: TxId, c: CommitId)
    requires Sound(before) && before.journal.None? && NotYetJournaled(before, after, tx, c)
    ensures Sound(after) && Current(after) == Current(before) && Previous(after) == Previous(before)
  {
    forall p: Pointer | PointerVerified(before, p) ensures PointerVerified(after, p) {
      assert p.commit != c ==> (p.commit in after.receipts - {c} <==> p.commit in after.receipts);
      assert p.commit != c ==> (p.commit in before.receipts - {c} <==> p.commit in before.receipts);
      if p.commit != c && p.commit in after.receipts {
        assert after.receipts[p.commit] == (after.receipts - {c})[p.commit];
      }
    }
  }

  method Prepare(disk: Disk, tx: TxId, c: CommitId, published: bool) returns (r: Result)
    modifies disk
    ensures r.Refused? <==> !Preparable(old(disk.files), tx, c, published) || !PointersVerified(old(disk.files))
    ensures !r.Refused? ==> Sound(old(disk.files)) && Sound(disk.files)
    ensures r.Refused? ==> disk.files == old(disk.files)
    ensures r.Ok? ==> disk.files.journal.Some? && disk.files.journal.value.phase == ReleaseReady
    ensures r.Crashed? ==> old(disk.life) < 9
    ensures disk.files.pointer == old(disk.files).pointer && disk.files.previousFile == old(disk.files).previousFile
    ensures !r.Refused? ==>
      if disk.files.journal.Some? then
        Installs(disk.files, old(disk.files), tx, c)
      else
        NotYetJournaled(old(disk.files), disk.files, tx, c)
  {
    var f := disk.files;
    if tx !in f.candidates || f.candidates[tx].content.commit != c {
      return Refused(CandidateInvalid);
    }
    if !f.layout {
      return Refused(BootstrapUnpublished);
    }
    if !published {
      return Refused(PublicationRefused);
    }
    if f.journal.Some? {
      return Refused(RecoveryRequired);
    }
    if !PointersVerified(f) {
      return Refused(ReleaseInvalid);
    }
    if c in f.releases {
      r := PrepareRetained(disk, tx, c);
    } else {
      r := PrepareCandidate(disk, tx, c);
    }
  }

  /** The release is already there: the candidate is discarded before anything is journaled. */
  method PrepareRetained(disk: Disk, tx: TxId, c: CommitId) returns (r: Result)
    requires Sound(disk.files) && disk.files.journal.None? && c in disk.files.releases
    requires tx in disk.files.candidates && disk.files.candidates[tx].content.commit == c && disk.files.layout
    modifies disk
    ensures Sound(disk.files)
    ensures r.Refused? <==> !Preparable(old(disk.files), tx, c, true)
    ensures r.Refused? ==> disk.files == old(disk.files)
    ensures r.Ok? ==> disk.files.journal.Some? && disk.files.journal.value.phase == ReleaseReady
    ensures r.Crashed? ==> old(disk.life) < 3
    ensures disk.files.pointer == old(disk.files).pointer && disk.files.previousFile == old(disk.files).previousFile
    ensures !r.Refused? ==>
      if disk.files.journal.Some? then
        Installs(disk.files, old(disk.files), tx, c)
      else
        NotYetJournaled(old(disk.files), disk.files, tx, c)
  {
    var f := disk.files;
    if !ReleaseVerified(f, c) || c !in f.receipts {
      return Refused(ReleaseInvalid);
    }
    if f.releases[c].content.tracked != f.candidates[tx].content.tracked {
      return Refused(CandidateInvalid);
    }
    var torn: Tree := *;
    EarlyStepKeepsSound(f, f.(candidates := f.candidates[tx := torn]), tx, c);
    EarlyStepKeepsSound(f, f.(candidates := f.candidates - {tx}), tx, c);
    :- disk.WriteInPieces(f.(candidates := f.candidates - {tx}), f.(candidates := f.candidates[tx := torn]));
    EarlyStepKeepsSound(f, disk.files.(ownership := f.ownership[tx := c]), tx, c);
    :- disk.Write(disk.files.(ownership := f.ownership[tx := c]));
    var journal := Journal(tx, f.releases[c].content, ReleaseReady, Current(f), Previous(f));
    var ready := disk.files.(journal := Some(journal));
    assert ReleaseInPlace(ready, journal);
    assert Installs(ready, f, tx, c);
    r := disk.Write(ready);
  }

  /** The candidate is journaled, owned, described by a manifest and moved into place. */
  method PrepareCandidate(disk: Disk, tx: TxId, c: CommitId) returns (r: Result)
    requires Sound(disk.files) && disk.files.journal.None? && c !in disk.files.releases
    requires tx in disk.files.candidates && disk.files.candidates[tx].content.commit == c && disk.files.layout
    modifies disk
    ensures Sound(disk.files)
    ensures r.Refused? <==> !Preparable(old(disk.files), tx, c, true)
    ensures r.Refused? ==> disk.files == old(disk.files)
    ensures r.Ok? ==> disk.files.journal.Some? && disk.files.journal.value.phase == ReleaseReady
    ensures r.Crashed? ==> old(disk.life) < 9
    ensures disk.files.pointer == old(disk.files).pointer && disk.files.previousFile == old(disk.files).previousFile
    ensures !r.Refused? ==>
      if disk.files.journal.Some? then
        Installs(disk.files, old(disk.files), tx, c)
      else
        NotYetJournaled(old(disk.files), disk.files, tx, c)
  {
    var f := disk.files;
    var candidate := f.candidates[tx];
    if c in f.receipts {
      if f.receipts[c] != candidate.git {
        return Refused(OwnershipMismatch);
      }
    } else {
      EarlyStepKeepsSound(f, f.(receipts := f.receipts[c := candidate.git]), tx, c);
      :- disk.Write(f.(receipts := f.receipts[c := candidate.git]));
    }
    var journal := Journal(tx, candidate.content, Journaled, Current(f), Previous(f));
    JournalStep(f, disk.files, tx, c, journal);
    :- disk.Write(disk.files.(journal := Some(journal)));
    r := AdvanceCandidate(disk);
  }

  lemma JournalStep(before: Files, f: Files, tx: TxId, c: CommitId, journal: Journal)
    requires Sound(before) && before.journal.None? && c !in before.releases && tx in before.candidates
    requires before.candidates[tx].content.commit == c
    requires f == before.(receipts := before.receipts[c := before.candidates[tx].git]) && GitOwned(before, c, before.candidates[tx])
    requires journal == Journal(tx, before.candidates[tx].content, Journaled, Current(before), Previous(before))
    ensures var after := f.(journal := Some(journal));
            Sound(after) && Installs(after, before, tx, c)
  {
    EarlyStepKeepsSound(before, f, tx, c);
  }

  method AdvanceCandidate(disk: Disk) returns (r: Result)
    requires Sound(disk.files) && disk.files.journal.Some? && disk.files.journal.value.phase.Journaled?
    modifies disk
    ensures Advances(old(disk.files), disk.files) && !r.Refused?
    ensures r.Ok? ==> disk.files.journal.value.phase == ReleaseReady
    ensures r.Crashed? ==> old(disk.life) < 7
    ensures disk.files.pointer == old(disk.files).pointer && disk.files.previousFile == old(disk.files).previousFile
  {
    hide Sound, Advances, Completed, Supported;
    ghost var f := disk.files;
    Unmoved(f);
    OwnershipStep(f);
    :- disk.Write(Owning(disk.files));
    :- disk.Write(AtPhase(disk.files, Owned));
    ghost var g := disk.files;
    AdvanceFacts(f, g);
    r := MoveOwned(disk);
    AdvancesTransitive(f, g, disk.files);
  }

  method MoveOwned(disk: Disk) returns (r: Result)
    requires Sound(disk.files) && disk.files.journal.Some? && disk.files.journal.value.phase.Owned?
    modifies disk
    ensures Advances(old(disk.files), disk.files) && !r.Refused?
    ensures r.Ok? ==> disk.files.journal.value.phase == ReleaseReady
    ensures r.Crashed? ==> old(disk.life) < 5
    ensures disk.files.pointer == old(disk.files).pointer && disk.files.previousFile == old(disk.files).previousFile
  {
    ManifestStep(disk.files);
    :- disk.Write(WithManifest(disk.files));
    :- disk.Write(AtPhase(disk.files, Manifested));
    :- disk.Write(AtPhase(disk.files, Prepared));
    RenameStep(disk.files);
    :- disk.Write(Renamed(disk.files));
    r := disk.Write(AtPhase(disk.files, ReleaseReady));
  }

  // ---------------------------------------------------------------------------------------------
  // Recover and commit

  predicate JournalReleaseValid(f: Files, j: Journal) {
    ReleaseVerified(f, j.content.commit) && f.releases[j.content.commit].content == j.content
  }

  lemma InPlaceIffValid(f: Files)
    requires Sound(f) && f.journal.Some?
    ensures JournalReleaseValid(f, f.journal.value) <==> ReleaseInPlace(f, f.journal.value) && Supported(f)
    ensures f.journal.value.phase in {ReleaseReady, Adopted, Switched, Committed} ==> ReleaseInPlace(f, f.journal.value)
    ensures f.journal.value.phase in {Switched, Committed} ==> Supported(f)
    ensures f.journal.value.phase.Journaled? ==> !ReleaseInPlace(f, f.journal.value)
  {
  }

  /** The files a crash between the two unlinks of `FinishTransaction` leaves. */
  function WithOrphan(f: Files): Files
    requires f.journal.Some? && JournalSound(f, f.journal.value)
  {
    var j := f.journal.value;
    Completed(f).(ownership := Completed(f).ownership[j.tx := j.content.commit])
  }

  predicate Finished(before: Files, after: Files)
    requires before.journal.Some? && JournalSound(before, before.journal.value)
  {
    after == Completed(before) || after == WithOrphan(before)
  }

  /** Only the journal and its ownership file remain to be removed. */
  method FinishTransaction(disk: Disk) returns (r: Result)
    requires disk.files.journal.Some?
    modifies disk
    ensures !r.Refused? && (r.Crashed? ==> old(disk.life) < 2) && disk.life + 2 >= old(disk.life)
    ensures old(disk.life) == 0 ==> r.Crashed?
    ensures disk.files ==
      if old(disk.life) == 0 then old(disk.files)
      else if r.Crashed? then old(disk.files).(journal := None)
      else old(disk.files).(journal := None, ownership := old(disk.files).ownership - {old(disk.files).journal.value.tx})
  {
    var tx := disk.files.journal.value.tx;
    :- disk.Write(disk.files.(journal := None));
    if tx in disk.files.ownership {
      r := disk.Write(disk.files.(ownership := disk.files.ownership - {tx}));
    } else {
      assert disk.files.ownership - {tx} == disk.files.ownership;
      r := Ok;
    }
  }

  /** After the pointer has switched, that finishes a transaction. */
  lemma FinishStep(f: Files)
    requires Sound(f) && f.journal.Some? && f.journal.value.phase in {Switched, Committed}
    ensures var g := f.(journal := None, ownership := f.ownership - {f.journal.value.tx});
            g == Completed(f) && Sound(g)
    ensures var g := f.(journal := None);
            g == WithOrphan(f) && Sound(g)
  {
    var tx := f.journal.value.tx;
    assert f.candidates - {tx} == f.candidates;
    assert f.releases[f.journal.value.content.commit := Payload(f)] == f.releases;
    assert f.ownership == (f.ownership - {tx})[tx := f.journal.value.content.commit];
  }

  datatype Action = NothingToRecover | NeedsAdoption | ReadyToSwitch | Complete

  /**
   What is left to do for a transaction found in this phase: the user's state is adopted exactly when the
   journal does not say that it has been, and nothing is left once the pointer has switched.
   */
  predicate ActionIsFor(action: Action, phase: Phase) {
    match phase
    case Journaled | Owned | Manifested | Prepared | ReleaseReady => action == NeedsAdoption
    case Adopted => action == ReadyToSwitch
    case Switched | Committed => action == Complete
  }

  /** What a command of the transaction may have done, wherever it stopped. */
  predicate StaysOnCourse(before: Files, after: Files)
    requires before.journal.Some? && JournalSound(before, before.journal.value)
  {
    if after.journal.Some? then Advances(before, after) else Finished(before, after)
  }

  /** Which candidate or release a transaction that is not ready yet can go on with. */
  predicate CanBePlaced(f: Files, j: Journal) {
    var c := j.content.commit;
    && (j.tx in f.candidates || c in f.releases)
    && (j.tx in f.candidates ==> f.candidates[j.tx].content == j.content)
    && (c in f.releases ==> f.releases[c].content == j.content)
    && (j.tx in f.candidates && c in f.releases ==> c in f.receipts)
  }

  /** Whether a transaction is recovered, on any files. */
  predicate MayRecover(f: Files, tx: TxId)
    requires f.journal.Some?
  {
    var j := f.journal.value;
    var c := j.content.commit;
    && j.tx == tx && (j.phase.Journaled? || (tx in f.ownership && f.ownership[tx] == c))
    && (tx in f.candidates && c in f.receipts ==> f.receipts[c] == f.candidates[tx].git)
    && (c in f.releases && c in f.receipts ==> f.receipts[c] == f.releases[c].git)
    && match j.phase
       case Journaled | Owned => tx in f.candidates && f.candidates[tx].compatible && CanBePlaced(f, j)
       case Manifested | Prepared => c in f.manifests && f.manifests[c] == Manifest(j.content, true) && CanBePlaced(f, j)
       case ReleaseReady | Adopted => JournalReleaseValid(f, j)
       case Switched | Committed =>
         Current(f) == Some(j.content) && Previous(f) == j.previous && PointerVerified(f, j.content)
  }

  /**
   Recovery of an interrupted transaction, on any files: it asks for a commit only over an intact release,
   and the states that a transaction leaves stay on its course.
   */
  method Recover(disk: Disk, tx: TxId) returns (r: Result, action: Action)
    modifies disk
    ensures old(disk.files).journal.None? ==>
      r.Ok? && action.NothingToRecover? && disk.files == old(disk.files)
    ensures old(disk.files).journal.Some? && old(disk.files).journal.value.tx != tx ==>
      r.Refused? && disk.files == old(disk.files)
    ensures old(disk.files).journal.Some? && !r.Crashed? ==> (r.Refused? <==> !MayRecover(old(disk.files), tx))
    ensures old(disk.files).journal.Some? && r.Ok? ==>
      && ActionIsFor(action, old(disk.files).journal.value.phase)
      && (action.NeedsAdoption? ==>
            disk.files.journal == Some(old(disk.files).journal.value.(phase := ReleaseReady)))
      && (action.ReadyToSwitch? ==> disk.files == old(disk.files))
      && (!action.Complete? ==> JournalReleaseValid(disk.files, old(disk.files).journal.value))
      && (action.Complete? ==>
            disk.files == old(disk.files).(journal := None, ownership := old(disk.files).ownership - {tx}))
    ensures r.Crashed? ==> old(disk.life) < 9
    ensures r.Ok? ==> disk.life + 9 >= old(disk.life)
    ensures disk.files.pointer == old(disk.files).pointer && disk.files.previousFile == old(disk.files).previousFile
    ensures Sound(old(disk.files)) ==> Sound(disk.files)
    ensures Sound(old(disk.files)) && old(disk.files).journal.Some? && old(disk.files).journal.value.tx == tx ==>
      && StaysOnCourse(old(disk.files), disk.files)
      && (MayRecover(old(disk.files), tx) <==> Supported(old(disk.files)))
      && (r.Ok? ==>
            if action.Complete? then disk.files == Completed(old(disk.files))
            else disk.files.journal.Some? && ReleaseInPlace(disk.files, disk.files.journal.value))
  {
    hide Sound, Advances, Completed, Supported, JournalSound, JournalReleaseValid, CanBePlaced;
    action := NothingToRecover;
    ghost var f := disk.files;
    if disk.files.journal.None? {
      return Ok, action;
    }
    var j := disk.files.journal.value;
    RecoveryOnCourse(f, tx);
    if !JournalOwned(disk.files) {
      return Refused(OwnershipMissing), action;
    }
    if j.tx != tx {
      return Refused(WrongTransaction), action;
    }
    if j.tx in disk.files.candidates && !GitOwned(disk.files, j.content.commit, disk.files.candidates[j.tx]) {
      return Refused(OwnershipMismatch), action;
    }
    if j.content.commit in disk.files.releases && !GitOwned(disk.files, j.content.commit, disk.files.releases[j.content.commit]) {
      return Refused(OwnershipMismatch), action;
    }
    EarlyRecovery(f, tx);
    r := RecoverToReleaseReady(disk);
    RecoveredOnCourse(f, disk.files);
    if r != Ok {
      return;
    }
    if disk.files.journal.value.phase in {ReleaseReady, Adopted} {
      if !JournalReleaseValid(disk.files, disk.files.journal.value) {
        return Refused(ReleaseInvalid), action;
      }
      return Ok, if disk.files.journal.value.phase.ReleaseReady? then NeedsAdoption else ReadyToSwitch;
    }
    if Current(disk.files) != Some(j.content) || Previous(disk.files) != j.previous {
      return Refused(PointerChanged), action;
    }
    if !PointerVerified(disk.files, Current(disk.files).value) {
      return Refused(ReleaseInvalid), action;
    }
    FinishOnCourse(f);
    r := FinishTransaction(disk);
    action := Complete;
  }

  /** The files a transaction leaves are recovered exactly when its release is supported. */
  lemma RecoveryOnCourse(f: Files, tx: TxId)
    requires f.journal.Some?
    ensures Sound(f) ==>
      && JournalOwned(f) && JournalSound(f, f.journal.value) && Advances(f, f)
      && (f.journal.value.tx == tx ==> (MayRecover(f, tx) <==> Supported(f)))
  {
    if Sound(f) {
      InPlaceIffValid(f);
    }
  }

  lemma RecoveredOnCourse(f: Files, g: Files)
    requires f.journal.Some? && g.journal.Some? && g.journal.value == f.journal.value.(phase := g.journal.value.phase)
    ensures Sound(f) && Advances(f, g) ==>
      && Sound(g) && StaysOnCourse(f, g)
      && (JournalReleaseValid(g, g.journal.value) ==> ReleaseInPlace(g, g.journal.value))
    ensures JournalReleaseValid(g, g.journal.value) <==> JournalReleaseValid(g, f.journal.value)
  {
    if Sound(f) && Advances(f, g) {
      InPlaceIffValid(g);
    }
  }

  lemma FinishOnCourse(f: Files)
    requires f.journal.Some? && f.journal.value.phase in {Switched, Committed}
    ensures Sound(f) ==>
      && JournalSound(f, f.journal.value)
      && var (g, h) := (f.(journal := None, ownership := f.ownership - {f.journal.value.tx}), f.(journal := None));
         Sound(g) && Sound(h) && StaysOnCourse(f, f) && StaysOnCourse(f, g) && StaysOnCourse(f, h) && g == Completed(f)
  {
    if Sound(f) {
      FinishStep(f);
    }
  }

  predicate Early(phase: Phase) {
    phase in {Journaled, Owned, Manifested, Prepared}
  }

  /** What catching up on the phases before `release_ready` meets. */
  predicate MayPlace(f: Files, j: Journal) {
    var c := j.content.commit;
    && CanBePlaced(f, j)
    && (c in f.releases ==> GitOwned(f, c, f.releases[c]))
    && (c !in f.releases ==> GitOwned(f, c, f.candidates[j.tx]))
    && if j.phase in {Journaled, Owned} then j.tx in f.candidates && f.candidates[j.tx].compatible
       else c in f.manifests && f.manifests[c] == Manifest(j.content, true)
  }

  lemma EarlyRecovery(f: Files, tx: TxId)
    requires f.journal.Some? && JournalOwned(f) && f.journal.value.tx == tx
    requires var c := f.journal.value.content.commit;
             && (tx in f.candidates ==> GitOwned(f, c, f.candidates[tx]))
             && (c in f.releases ==> GitOwned(f, c, f.releases[c]))
    ensures Early(f.journal.value.phase) ==> (MayRecover(f, tx) <==> MayPlace(f, f.journal.value))
  {
  }

  /** The phases before `release_ready` are caught up on; later ones are left alone. */
  method RecoverToReleaseReady(disk: Disk) returns (r: Result)
    requires disk.files.journal.Some?
    modifies disk
    ensures disk.files.journal.Some?
    ensures disk.files.journal.value == old(disk.files).journal.value.(phase := disk.files.journal.value.phase)
    ensures !r.Crashed? && Early(old(disk.files).journal.value.phase) ==>
      (r.Refused? <==> !MayPlace(old(disk.files), old(disk.files).journal.value))
    ensures !Early(old(disk.files).journal.value.phase) ==> r.Ok? && disk.files == old(disk.files)
    ensures r.Ok? && Early(old(disk.files).journal.value.phase) ==>
      disk.files.journal.value.phase.ReleaseReady? && JournalReleaseValid(disk.files, disk.files.journal.value)
    ensures r.Crashed? ==> old(disk.life) < 7
    ensures r.Ok? ==> disk.life + 7 >= old(disk.life)
    ensures disk.files.pointer == old(disk.files).pointer && disk.files.previousFile == old(disk.files).previousFile
    ensures Sound(old(disk.files)) ==> Advances(old(disk.files), disk.files)
  {
    hide Sound, Advances, JournalSound, JournalReleaseValid;
    ghost var f := disk.files;
    if Sound(f) {
      Unmoved(f);
    }
    if !Early(disk.files.journal.value.phase) {
      return Ok;
    }
    r := CatchUpCandidate(disk);
    ghost var g := disk.files;
    if r != Ok {
      return;
    }
    r := CheckPlaced(disk);
    CatchesUpTransitive(f, g, disk.files);
  }

  /** The prepared candidate is placed, and its release checked before the journal says that it is ready. */
  method CheckPlaced(disk: Disk) returns (r: Result)
    requires disk.files.journal.Some? && disk.files.journal.value.phase.Prepared?
    modifies disk
    ensures disk.files.journal.Some?
    ensures disk.files.journal.value == old(disk.files).journal.value.(phase := disk.files.journal.value.phase)
    ensures !r.Crashed? ==> (r.Refused? <==> !MayPlace(old(disk.files), old(disk.files).journal.value))
    ensures r.Crashed? ==> old(disk.life) < 2
    ensures r.Ok? ==> disk.files.journal.value.phase.ReleaseReady? && disk.life + 2 >= old(disk.life)
    ensures r.Ok? ==> JournalReleaseValid(disk.files, disk.files.journal.value)
    ensures disk.files.pointer == old(disk.files).pointer && disk.files.previousFile == old(disk.files).previousFile
    ensures Sound(old(disk.files)) ==> Advances(old(disk.files), disk.files)
  {
    hide Sound, Advances, JournalSound;
    ghost var f := disk.files;
    r := PlaceRelease(disk);
    if r != Ok {
      return;
    }
    if !JournalReleaseValid(disk.files, disk.files.journal.value) {
      return Refused(ReleaseInvalid);
    }
    if Sound(f) {
      PlacedIsReady(f, disk.files);
    }
    r := disk.Write(AtPhase(disk.files, ReleaseReady));
  }

  lemma PlacedIsReady(f: Files, g: Files)
    requires Advances(f, g) && g.journal.value.phase.Prepared? && JournalReleaseValid(g, g.journal.value)
    ensures Advances(f, AtPhase(g, ReleaseReady))
  {
    InPlaceIffValid(g);
    PhaseStep(g, ReleaseReady);
    AdvancesTransitive(f, g, AtPhase(g, ReleaseReady));
  }

  lemma AdvancesTransitive(f: Files, g: Files, h: Files)
    requires Advances(f, g) && Advances(g, h)
    ensures Advances(f, h)
  {
  }

  lemma AdvanceFacts(f: Files, g: Files)
    requires Advances(f, g)
    ensures Sound(g) && g.journal.Some? && g.journal.value == f.journal.value.(phase := g.journal.value.phase)
  {
  }

  lemma Unmoved(f: Files)
    requires Sound(f) && f.journal.Some?
    ensures Advances(f, f)
  {
  }

  /** What is done so far keeps the journal, the pointer and what can be placed. */
  predicate CatchesUp(f: Files, g: Files) {
    && f.journal.Some? && g.journal.Some? && g.journal.value == f.journal.value.(phase := g.journal.value.phase)
    && g.pointer == f.pointer && g.previousFile == f.previousFile
    && (Sound(f) ==> Advances(f, g))
  }

  lemma CatchesUpTransitive(f: Files, g: Files, h: Files)
    requires CatchesUp(f, g) && CatchesUp(g, h)
    ensures CatchesUp(f, h)
  {
    if Sound(f) {
      AdvanceFacts(f, g);
      AdvancesTransitive(f, g, h);
    }
  }

  /** Ownership, the manifest and the phases up to `prepared`, from wherever the crash left them. */
  method CatchUpCandidate(disk: Disk) returns (r: Result)
    requires disk.files.journal.Some? && Early(disk.files.journal.value.phase)
    modifies disk
    ensures CatchesUp(old(disk.files), disk.files)
    ensures r.Refused? ==> !MayPlace(old(disk.files), old(disk.files).journal.value)
    ensures r.Ok? ==>
      && disk.files.journal.value.phase.Prepared?
      && (MayPlace(disk.files, disk.files.journal.value) <==> MayPlace(old(disk.files), old(disk.files).journal.value))
    ensures r.Crashed? ==> old(disk.life) < 5
    ensures r.Ok? ==> disk.life + 5 >= old(disk.life)
  {
    hide MayPlace, CandidateMatches, CatchesUp, Owning;
    ghost var f := disk.files;
    NothingDone(f);
    if disk.files.journal.value.phase == Journaled {
      OwningKeepsPlace(f);
      r := OwnCandidate(disk);
      if r != Ok {
        return;
      }
    }
    ghost var g := disk.files;
    r := CatchUpOwned(disk);
    CatchesUpTransitive(f, g, disk.files);
  }

  method CatchUpOwned(disk: Disk) returns (r: Result)
    requires disk.files.journal.Some? && disk.files.journal.value.phase in {Owned, Manifested, Prepared}
    modifies disk
    ensures CatchesUp(old(disk.files), disk.files)
    ensures r.Refused? ==> !MayPlace(old(disk.files), old(disk.files).journal.value)
    ensures r.Ok? ==>
      && disk.files.journal.value.phase.Prepared?
      && (MayPlace(disk.files, disk.files.journal.value) <==> MayPlace(old(disk.files), old(disk.files).journal.value))
    ensures r.Crashed? ==> old(disk.life) < 3
    ensures r.Ok? ==> disk.life + 3 >= old(disk.life)
  {
    hide MayPlace, CatchesUp, WithManifest;
    ghost var f := disk.files;
    NothingDone(f);
    if disk.files.journal.value.phase == Owned {
      DescribingKeepsPlace(f);
      r := DescribeCandidate(disk);
      if r != Ok {
        return;
      }
    }
    ghost var g := disk.files;
    if disk.files.journal.value.phase == Manifested {
      MarkingKeepsPlace(g);
      r := MarkPrepared(disk);
      CatchesUpTransitive(f, g, disk.files);
      return;
    }
    r := Ok;
  }

  lemma NothingDone(f: Files)
    requires f.journal.Some?
    ensures CatchesUp(f, f)
  {
    if Sound(f) {
      Unmoved(f);
    }
  }

  /** What can be placed is decided before the phases are caught up on. */
  lemma OwningKeepsPlace(f: Files)
    requires f.journal.Some? && f.journal.value.phase.Journaled?
    ensures MayPlace(f, f.journal.value) ==> CandidateMatches(f, f.journal.value)
    ensures var g := AtPhase(Owning(f), Owned);
            MayPlace(g, g.journal.value) <==> MayPlace(f, f.journal.value)
  {
  }

  lemma DescribingKeepsPlace(f: Files)
    requires f.journal.Some? && f.journal.value.phase.Owned?
    ensures var j := f.journal.value;
            && (MayPlace(f, j) ==> j.tx in f.candidates && f.candidates[j.tx].content.commit == j.content.commit)
            && (j.tx in f.candidates ==>
                  var g := AtPhase(WithManifest(f), Manifested);
                  MayPlace(g, g.journal.value) <==> MayPlace(f, j))
  {
  }

  lemma MarkingKeepsPlace(f: Files)
    requires f.journal.Some? && f.journal.value.phase.Manifested?
    ensures var g := AtPhase(f, Prepared);
            MayPlace(g, g.journal.value) <==> MayPlace(f, f.journal.value)
  {
  }

  method MarkPrepared(disk: Disk) returns (r: Result)
    requires disk.files.journal.Some? && disk.files.journal.value.phase.Manifested?
    modifies disk
    ensures !r.Refused? && disk.files == if r.Ok? then AtPhase(old(disk.files), Prepared) else old(disk.files)
    ensures r.Crashed? ==> old(disk.life) < 1
    ensures r.Ok? ==> disk.life + 1 == old(disk.life)
    ensures CatchesUp(old(disk.files), disk.files)
  {
    hide Advances, Sound;
    if Sound(disk.files) {
      Unmoved(disk.files);
      ManifestedIsPrepared(disk.files);
    }
    r := disk.Write(AtPhase(disk.files, Prepared));
  }

  /** The candidate is still what the journal says it is. */
  predicate CandidateMatches(f: Files, j: Journal) {
    j.tx in f.candidates && f.candidates[j.tx].content == j.content
  }

  method OwnCandidate(disk: Disk) returns (r: Result)
    requires disk.files.journal.Some? && disk.files.journal.value.phase.Journaled?
    modifies disk
    ensures r.Refused? <==> !CandidateMatches(old(disk.files), old(disk.files).journal.value)
    ensures r.Refused? ==> disk.files == old(disk.files)
    ensures r.Ok? ==> disk.files == AtPhase(Owning(old(disk.files)), Owned)
    ensures r.Crashed? ==> old(disk.life) < 2 && (disk.files == old(disk.files) || disk.files == Owning(old(disk.files)))
    ensures r.Ok? ==> disk.life + 2 == old(disk.life)
    ensures CatchesUp(old(disk.files), disk.files)
  {
    hide Advances, Sound;
    var j := disk.files.journal.value;
    if Sound(disk.files) {
      Unmoved(disk.files);
      CandidateAvailable(disk.files);
      OwnershipStep(disk.files);
    }
    if j.tx !in disk.files.candidates || disk.files.candidates[j.tx].content != j.content {
      return Refused(CandidateInvalid);
    }
    :- disk.Write(Owning(disk.files));
    r := disk.Write(AtPhase(disk.files, Owned));
  }

  method DescribeCandidate(disk: Disk) returns (r: Result)
    requires disk.files.journal.Some? && disk.files.journal.value.phase.Owned?
    modifies disk
    ensures var (f, j) := (old(disk.files), old(disk.files).journal.value);
            && (r.Refused? <==> j.tx !in f.candidates || f.candidates[j.tx].content.commit != j.content.commit)
            && (r.Refused? ==> disk.files == f)
            && (r.Ok? ==> disk.files == AtPhase(WithManifest(f), Manifested))
            && (r.Crashed? ==> old(disk.life) < 2 && (disk.files == f || disk.files == WithManifest(f)))
    ensures r.Ok? ==> disk.life + 2 == old(disk.life)
    ensures CatchesUp(old(disk.files), disk.files)
  {
    hide Advances, Sound;
    var j := disk.files.journal.value;
    if Sound(disk.files) {
      Unmoved(disk.files);
      ManifestStep(disk.files);
    }
    if j.tx !in disk.files.candidates || disk.files.candidates[j.tx].content.commit != j.content.commit {
      return Refused(CandidateInvalid);
    }
    :- disk.Write(WithManifest(disk.files));
    r := disk.Write(AtPhase(disk.files, Manifested));
  }

  lemma CandidateAvailable(f: Files)
    requires Sound(f) && f.journal.Some? && f.journal.value.phase.Journaled?
    ensures CandidateMatches(f, f.journal.value)
  {
  }

  lemma ManifestedIsPrepared(f: Files)
    requires Sound(f) && f.journal.Some? && f.journal.value.phase.Manifested?
    ensures Advances(f, AtPhase(f, Prepared))
  {
    PhaseStep(f, Prepared);
  }

  /** The candidate of a prepared transaction is moved into place unless it is there already. */
  method PlaceRelease(disk: Disk) returns (r: Result)
    requires disk.files.journal.Some? && disk.files.journal.value.phase.Prepared?
    modifies disk
    ensures r.Refused? <==> !CanBePlaced(old(disk.files), old(disk.files).journal.value)
    ensures r.Refused? ==> disk.files == old(disk.files)
    ensures disk.files == old(disk.files).(candidates := disk.files.candidates, releases := disk.files.releases)
    ensures r.Ok? ==>
      var (f, j) := (old(disk.files), old(disk.files).journal.value);
      && disk.files.candidates == f.candidates - {j.tx}
      && disk.files.releases == if j.content.commit in f.releases then f.releases
                                else f.releases[j.content.commit := f.candidates[j.tx]]
    ensures r.Crashed? ==> old(disk.life) < 1
    ensures r.Ok? ==> disk.life + 1 >= old(disk.life)
    ensures Sound(old(disk.files)) ==> Advances(old(disk.files), disk.files)
  {
    var f := disk.files;
    var j := f.journal.value;
    if j.tx !in f.candidates && j.content.commit !in f.releases {
      return Refused(CandidateInvalid);
    }
    if j.tx in f.candidates && f.candidates[j.tx].content != j.content {
      return Refused(CandidateInvalid);
    }
    if j.content.commit in f.releases && f.releases[j.content.commit].content != j.content {
      return Refused(ReleaseInvalid);
    }
    if j.tx in f.candidates && j.content.commit in f.releases && j.content.commit !in f.receipts {
      return Refused(OwnershipMismatch);
    }
    r := MoveIntoPlace(disk, j.tx, j.content.commit);
    if Sound(f) {
      PlacedOnCourse(f, disk.files);
    }
  }

  /** On the course of a transaction its candidate and its release are never both there. */
  lemma PlacedOnCourse(f: Files, g: Files)
    requires Sound(f) && f.journal.Some? && f.journal.value.phase.Prepared?
    requires g == f || (f.journal.value.tx in f.candidates && g == Renamed(f))
    ensures Advances(f, g)
    ensures f.journal.value.tx !in f.candidates || f.journal.value.content.commit !in f.releases
  {
    hide Sound, Advances, JournalSound, PointersVerified;
    Unmoved(f);
    PreparedIsOneOf(f);
    if f.journal.value.tx in f.candidates {
      RenameStep(f);
    }
  }

  lemma PreparedIsOneOf(f: Files)
    requires Sound(f) && f.journal.Some? && f.journal.value.phase.Prepared?
    ensures if f.journal.value.tx in f.candidates then CandidateInPlace(f, f.journal.value) else ReleaseInPlace(f, f.journal.value)
  {
  }

  /** A candidate is renamed to its release, or discarded when the release is already there. */
  method MoveIntoPlace(disk: Disk, tx: TxId, c: CommitId) returns (r: Result)
    modifies disk
    ensures !r.Refused? && (r.Crashed? ==> old(disk.life) < 1) && (r.Ok? ==> disk.life + 1 >= old(disk.life))
    ensures disk.files == old(disk.files).(candidates := disk.files.candidates, releases := disk.files.releases)
    ensures disk.files.candidates - {tx} == old(disk.files).candidates - {tx}
    ensures c in old(disk.files).releases || tx !in old(disk.files).candidates || r.Crashed? ==>
      disk.files.releases == old(disk.files).releases
    ensures c !in old(disk.files).releases && r.Crashed? ==> disk.files == old(disk.files)
    ensures tx in old(disk.files).candidates && c !in old(disk.files).releases && r.Ok? ==>
      disk.files.releases == old(disk.files).releases[c := old(disk.files).candidates[tx]]
    ensures r.Ok? ==> disk.files.candidates == old(disk.files).candidates - {tx}
    ensures tx !in old(disk.files).candidates ==> disk.files == old(disk.files)
  {
    var f := disk.files;
    if tx !in f.candidates {
      assert f.candidates - {tx} == f.candidates;
      r := Ok;
    } else if c !in f.releases {
      r := disk.Write(
        f.(candidates := f.candidates - {tx}, releases := f.releases[c := f.candidates[tx]]));
    } else {
      var torn: Tree := *;
      r := disk.WriteInPieces(f.(candidates := f.candidates - {tx}), f.(candidates := f.candidates[tx := torn]));
    }
  }

  /** What the journal expects of the authoritative pointer before, or just after, it is swapped. */
  predicate BaselineAccepted(f: Files, j: Journal) {
    if j.previous.None? && j.previousPrevious.Some? then false
    else if j.previous.None? && f.pointer.None? then true
    else
      && f.pointer.Some?
      && (|| (Current(f) == Some(j.content) && Previous(f) == j.previous)
          || (Current(f) == j.previous && Previous(f) == j.previousPrevious))
  }

  predicate Committable(f: Files, tx: TxId)
    requires Sound(f)
  {
    && f.journal.Some? && f.journal.value.tx == tx
    && ReleaseInPlace(f, f.journal.value) && Supported(f)
  }

  /** What a commit asks of the files, whatever they are. */
  predicate MayCommit(f: Files, tx: TxId) {
    && f.journal.Some? && f.journal.value.tx == tx && JournalOwned(f)
    && JournalReleaseValid(f, f.journal.value) && BaselineAccepted(f, f.journal.value)
  }

  /** The files once the journaled release is current and the journal is gone. */
  function CommittedFiles(f: Files): Files
    requires f.journal.Some?
  {
    var j := f.journal.value;
    f.(journal := None, ownership := f.ownership - {j.tx}, pointer := Some(PointerState(j.content, j.previous)),
       previousFile := None)
  }

  /**
   On any files: the pointer moves to an intact release and from what it was when the transaction was
   prepared, or not at all. A transaction on its course commits exactly when its release is in place and
   this bootstrap supports it.
   */
  method Commit(disk: Disk, tx: TxId) returns (r: Result)
    modifies disk
    ensures !r.Crashed? ==> (r.Refused? <==> !MayCommit(old(disk.files), tx))
    ensures r.Refused? ==>
      && disk.files.pointer == old(disk.files).pointer && disk.files.previousFile == old(disk.files).previousFile
      && (disk.files == old(disk.files)
          || (old(disk.files).journal.Some? && disk.files == AtPhase(old(disk.files), Adopted)
              && !BaselineAccepted(old(disk.files), old(disk.files).journal.value)))
    ensures r.Ok? ==> disk.files == CommittedFiles(old(disk.files))
    ensures r.Crashed? ==> old(disk.life) < 7 && old(disk.files).journal.Some?
    ensures (disk.files.pointer == old(disk.files).pointer && disk.files.previousFile == old(disk.files).previousFile)
            || (MayCommit(old(disk.files), tx) && PointerSwapped(disk.files, old(disk.files).journal.value)
                && PointerVerified(disk.files, old(disk.files).journal.value.content))
    ensures Sound(old(disk.files)) ==>
      && Sound(disk.files)
      && (MayCommit(old(disk.files), tx) <==> Committable(old(disk.files), tx))
      && (r.Refused? ==> disk.files == old(disk.files))
      && (r.Ok? ==> disk.files == Completed(old(disk.files)))
      && (r.Crashed? ==> StaysOnCourse(old(disk.files), disk.files))
      && (PointersUnmoved(old(disk.files), disk.files) || PointersUpdated(old(disk.files), disk.files))
  {
    hide Sound, Committable, BaselineAccepted;
    ghost var f := disk.files;
    CommitOnCourse(f, tx);
    if disk.files.journal.None? {
      return Refused(JournalMissing);
    }
    var j := disk.files.journal.value;
    if !JournalOwned(disk.files) {
      return Refused(OwnershipMissing);
    }
    if j.tx != tx {
      return Refused(WrongTransaction);
    }
    if !JournalReleaseValid(disk.files, j) {
      return Refused(ReleaseInvalid);
    }
    r := CommitRelease(disk);
    if Sound(f) {
      CommittableKeepsPointers(f);
    }
  }

  lemma CommitOnCourse(f: Files, tx: TxId)
    ensures Sound(f) ==>
      && (f.journal.Some? ==> JournalSound(f, f.journal.value) && BaselineAccepted(f, f.journal.value) && Advances(f, f))
      && (MayCommit(f, tx) <==> Committable(f, tx))
  {
    if Sound(f) && f.journal.Some? {
      InPlaceIffValid(f);
    }
  }

  predicate PointersUnmoved(f: Files, g: Files) {
    Current(g) == Current(f) && Previous(g) == Previous(f)
  }

  /** An update moves the pointer from (old, its previous) to (the journal's release, old). */
  predicate PointersUpdated(f: Files, g: Files) {
    f.journal.Some? && Current(g) == Some(f.journal.value.content) && Previous(g) == Current(f)
  }

  /** A rollback swaps the two entries. */
  predicate PointersRolledBack(f: Files, g: Files) {
    f.journal.None? && Previous(f).Some? && Current(g) == Previous(f) && Previous(g) == Current(f)
  }

  lemma CommittableKeepsPointers(f: Files)
    requires Sound(f) && f.journal.Some?
    ensures forall g: Files | CommitStates(f, g) :: PointersUnmoved(f, g) || PointersUpdated(f, g)
    ensures BaselineAccepted(f, f.journal.value)
  {
  }

  /** The pointer file is untouched, or it has been swapped. */
  predicate CommitStates(f: Files, g: Files)
    requires f.journal.Some?
  {
    || (g.pointer == f.pointer && g.previousFile == f.previousFile)
    || PointerSwapped(g, f.journal.value)
  }

  method CommitRelease(disk: Disk) returns (r: Result)
    requires disk.files.journal.Some? && JournalReleaseValid(disk.files, disk.files.journal.value)
    modifies disk
    ensures !r.Crashed? ==> (r.Refused? <==> !BaselineAccepted(old(disk.files), old(disk.files).journal.value))
    ensures r.Refused? ==> disk.files == old(disk.files) || disk.files == AtPhase(old(disk.files), Adopted)
    ensures r.Ok? ==> disk.files == CommittedFiles(old(disk.files))
    ensures r.Crashed? ==> old(disk.life) < 7
    ensures MovesPointer(old(disk.files), disk.files)
    ensures PointersOf(disk.files) != PointersOf(old(disk.files)) ==>
      BaselineAccepted(old(disk.files), old(disk.files).journal.value)
    ensures Sound(old(disk.files)) ==> !r.Refused? && OnCourse(old(disk.files), disk.files)
  {
    hide Sound, BaselineAccepted, JournalReleaseValid, JournalSound, StaysOnCourse, SwitchStates, OnCourse, PointerVerified;
    ghost var f := disk.files;
    AdoptionOnCourse(f);
    if disk.files.journal.value.phase == ReleaseReady {
      :- disk.Write(AtPhase(disk.files, Adopted));
    }
    ghost var g := disk.files;
    if !BaselineAccepted(disk.files, disk.files.journal.value) {
      return Refused(PointerChanged);
    }
    if !JournalReleaseValid(disk.files, disk.files.journal.value) {
      return Refused(ReleaseInvalid);
    }
    r := SwitchRelease(disk);
    if Sound(f) {
      SwitchOnCourse(f, g, disk.files);
    }
  }

  function PointersOf(f: Files): (Option<PointerFile>, Option<Pointer>) {
    (f.pointer, f.previousFile)
  }

  /** The pointer is untouched, or names the journaled release, which is intact, and what was current before. */
  predicate MovesPointer(f: Files, g: Files)
    requires f.journal.Some?
  {
    PointersOf(g) == PointersOf(f) || (PointerSwapped(g, f.journal.value) && PointerVerified(g, f.journal.value.content))
  }

  /** The journaled release becomes current, and the journal ends. */
  method SwitchRelease(disk: Disk) returns (r: Result)
    requires disk.files.journal.Some? && JournalReleaseValid(disk.files, disk.files.journal.value)
    modifies disk
    ensures !r.Refused? && (r.Crashed? ==> old(disk.life) < 6)
    ensures r.Ok? ==> disk.files == CommittedFiles(old(disk.files))
    ensures SwitchStates(old(disk.files), disk.files) && MovesPointer(old(disk.files), disk.files)
  {
    hide JournalReleaseValid, PointerVerified, SwitchStates, MovesPointer;
    SwitchedIsVerified(disk.files);
    SwitchStatesAre(disk.files);
    SwitchMovesPointer(disk.files);
    r := SwapPointer(disk);
    if r != Ok {
      return;
    }
    :- disk.Write(AtPhase(disk.files, Switched));
    :- disk.Write(AtPhase(disk.files, Committed));
    if !PointerVerified(disk.files, Current(disk.files).value) {
      return Refused(ReleaseInvalid);
    }
    r := FinishTransaction(disk);
  }

  /** The two files of the pointer, swapped. */
  function SwappedFiles(f: Files): Files
    requires f.journal.Some?
  {
    var j := f.journal.value;
    f.(pointer := Some(PointerState(j.content, j.previous)), previousFile := None)
  }

  /** The states between the steps that make a release current. */
  predicate SwitchStates(f: Files, g: Files)
    requires f.journal.Some?
  {
    || g == f || g == f.(pointer := SwappedFiles(f).pointer) || g == SwappedFiles(f)
    || g == AtPhase(SwappedFiles(f), Switched) || g == AtPhase(SwappedFiles(f), Committed)
    || g == CommittedFiles(f).(ownership := f.ownership) || g == CommittedFiles(f)
  }

  lemma SwitchStatesAre(f: Files)
    requires f.journal.Some?
    ensures SwitchStates(f, f) && SwitchStates(f, f.(pointer := SwappedFiles(f).pointer)) && SwitchStates(f, SwappedFiles(f))
    ensures var last := AtPhase(AtPhase(SwappedFiles(f), Switched), Committed);
            && SwitchStates(f, AtPhase(SwappedFiles(f), Switched)) && SwitchStates(f, last)
            && SwitchStates(f, last.(journal := None))
            && SwitchStates(f, last.(journal := None, ownership := last.ownership - {f.journal.value.tx}))
  {
  }

  lemma SwitchedIsVerified(f: Files)
    requires f.journal.Some? && JournalReleaseValid(f, f.journal.value)
    ensures PointerVerified(AtPhase(SwappedFiles(f), Committed), f.journal.value.content)
  {
  }

  /** In each of these states the pointer is untouched, or it names the journaled release. */
  lemma SwitchMovesPointer(f: Files)
    requires f.journal.Some? && JournalReleaseValid(f, f.journal.value)
    ensures MovesPointer(f, f) && MovesPointer(f, f.(pointer := SwappedFiles(f).pointer)) && MovesPointer(f, SwappedFiles(f))
    ensures var last := AtPhase(AtPhase(SwappedFiles(f), Switched), Committed);
            && MovesPointer(f, AtPhase(SwappedFiles(f), Switched)) && MovesPointer(f, last)
            && MovesPointer(f, last.(journal := None))
            && MovesPointer(f, last.(journal := None, ownership := last.ownership - {f.journal.value.tx}))
  {
    hide MovesPointer, JournalReleaseValid, PointerVerified;
    var swapped := SwappedFiles(f);
    var last := AtPhase(AtPhase(swapped, Switched), Committed);
    UnmovedPointer(f, f);
    SwappedIsMoved(f, f.(pointer := swapped.pointer));
    SwappedIsMoved(f, swapped);
    SwappedIsMoved(f, AtPhase(swapped, Switched));
    SwappedIsMoved(f, last);
    SwappedIsMoved(f, last.(journal := None));
    SwappedIsMoved(f, last.(journal := None, ownership := last.ownership - {f.journal.value.tx}));
  }

  lemma IntactElsewhere(f: Files, g: Files)
    requires f.journal.Some? && JournalReleaseValid(f, f.journal.value)
    requires g.releases == f.releases && g.manifests == f.manifests && g.receipts == f.receipts
    ensures PointerVerified(g, f.journal.value.content)
  {
  }

  lemma SwappedIsMoved(f: Files, g: Files)
    requires f.journal.Some? && PointerSwapped(g, f.journal.value) && JournalReleaseValid(f, f.journal.value)
    requires g.releases == f.releases && g.manifests == f.manifests && g.receipts == f.receipts
    ensures MovesPointer(f, g)
  {
    hide PointerVerified, JournalReleaseValid;
    IntactElsewhere(f, g);
  }

  lemma UnmovedPointer(f: Files, g: Files)
    requires f.journal.Some? && PointersOf(g) == PointersOf(f)
    ensures MovesPointer(f, g)
  {
    hide PointerVerified;
  }

  lemma AdoptionOnCourse(f: Files)
    requires f.journal.Some? && JournalReleaseValid(f, f.journal.value)
    ensures var g := AtPhase(f, Adopted);
            && (BaselineAccepted(g, g.journal.value) <==> BaselineAccepted(f, f.journal.value))
            && JournalReleaseValid(g, g.journal.value)
    ensures Sound(f) ==>
      && JournalSound(f, f.journal.value) && BaselineAccepted(f, f.journal.value) && OnCourse(f, f)
      && (f.journal.value.phase.ReleaseReady? ==> OnCourse(f, AtPhase(f, Adopted)))
  {
    if Sound(f) {
      CommitOnCourse(f, f.journal.value.tx);
      InPlaceIffValid(f);
      AdoptedStep(f);
    }
  }

  /** On the course of a transaction every step of its commit stays on it. */
  lemma SwitchOnCourse(f: Files, g: Files, h: Files)
    requires Sound(f) && f.journal.Some? && JournalReleaseValid(f, f.journal.value)
    requires g == if f.journal.value.phase.ReleaseReady? then AtPhase(f, Adopted) else f
    requires SwitchStates(g, h)
    ensures JournalSound(f, f.journal.value) && OnCourse(f, h)
  {
    hide Sound, JournalReleaseValid, Advances, JournalSound, OnCourse, JournalOwned;
    CommitOnCourse(f, f.journal.value.tx);
    SwapOnCourse(f, g);
    var last := AtPhase(SwappedFiles(g), Committed);
    EndOnCourse(f, last);
    if h.journal.Some? {
      AdvancedIsOnCourse(f, h);
    }
  }

  lemma SwapOnCourse(f: Files, g: Files)
    requires Sound(f) && f.journal.Some? && JournalReleaseValid(f, f.journal.value)
    requires g == if f.journal.value.phase.ReleaseReady? then AtPhase(f, Adopted) else f
    ensures var swapped := SwappedFiles(g);
            && Advances(f, g) && Advances(f, g.(pointer := swapped.pointer)) && Advances(f, swapped)
            && Advances(f, AtPhase(swapped, Switched)) && Advances(f, AtPhase(swapped, Committed))
  {
    hide Sound, BaselineAccepted, JournalReleaseValid, Advances, JournalSound, PointersVerified, JournalOwned;
    CommitOnCourse(f, f.journal.value.tx);
    InPlaceIffValid(f);
    Unmoved(f);
    AdoptedStep(f);
    AdvanceFacts(f, g);
    AdoptionOnCourse(f);
    InPlaceIffValid(g);
    PointerStep(g);
    var swapped := SwappedFiles(g);
    AdvancesTransitive(f, g, swapped);
    AdvancesTransitive(f, g, g.(pointer := swapped.pointer));
    AdvanceFacts(f, swapped);
    FinalPhasesStep(swapped);
    AdvancesTransitive(f, swapped, AtPhase(swapped, Switched));
    AdvancesTransitive(f, swapped, AtPhase(AtPhase(swapped, Switched), Committed));
  }

  lemma EndOnCourse(f: Files, last: Files)
    requires Advances(f, last) && last.journal.value.phase.Committed?
    ensures var orphaned := last.(journal := None);
            OnCourse(f, orphaned) && OnCourse(f, orphaned.(ownership := last.ownership - {f.journal.value.tx}))
  {
    hide Sound, Advances, JournalSound, Completed, WithOrphan;
    AdvanceFacts(f, last);
    FinishStep(last);
    FinishedOnCourse(f, last);
    SoundJournal(f, last);
  }

  lemma SoundJournal(f: Files, g: Files)
    requires Advances(f, g)
    ensures Sound(f) && JournalSound(f, f.journal.value)
  {
  }

  lemma AdvancedIsOnCourse(f: Files, g: Files)
    requires Advances(f, g)
    ensures JournalSound(f, f.journal.value) && OnCourse(f, g)
  {
  }

  predicate OnCourse(f: Files, g: Files)
    requires f.journal.Some? && JournalSound(f, f.journal.value)
  {
    Sound(g) && StaysOnCourse(f, g)
  }

  lemma AdoptedStep(f: Files)
    requires Sound(f) && f.journal.Some? && Committable(f, f.journal.value.tx)
    ensures f.journal.value.phase.ReleaseReady? ==> Advances(f, AtPhase(f, Adopted))
    ensures !f.journal.value.phase.Journaled?
  {
    if f.journal.value.phase.ReleaseReady? {
      PhaseStep(f, Adopted);
    }
  }

  lemma FinishedOnCourse(f: Files, g: Files)
    requires Advances(f, g)
    ensures Completed(f) == Completed(g) && WithOrphan(f) == WithOrphan(g)
    ensures Completed(f).journal.None? && WithOrphan(f).journal.None?
    ensures PointerSwapped(Completed(g), f.journal.value) && PointerSwapped(WithOrphan(g), f.journal.value)
  {
  }

  /** The one step that makes the new release current, then the end of the first-version file. */
  method SwapPointer(disk: Disk) returns (r: Result)
    requires disk.files.journal.Some?
    modifies disk
    ensures !r.Refused? && (r.Crashed? ==> old(disk.life) < 2) && disk.life + 2 >= old(disk.life)
    ensures if r.Ok? then disk.files == SwappedFiles(old(disk.files))
            else disk.files == old(disk.files)
                 || disk.files == old(disk.files).(pointer := SwappedFiles(old(disk.files)).pointer)
  {
    var j := disk.files.journal.value;
    :- disk.Write(disk.files.(pointer := Some(PointerState(j.content, j.previous))));
    if disk.files.previousFile.Some? {
      r := disk.Write(disk.files.(previousFile := None));
    } else {
      r := Ok;
    }
  }

  // ---------------------------------------------------------------------------------------------
  // Rollback

  predicate CanRollBack(f: Files) {
    f.journal.None? && f.pointer.Some? && Previous(f).Some?
  }

  /** The files once the previous release is current again. */
  function RolledBack(f: Files): Files
    requires CanRollBack(f)
  {
    f.(pointer := Some(PointerState(Previous(f).value, Current(f))), previousFile := None)
  }

  /** Refused, on any files, during an update, without a previous release, and unless both releases are intact. */
  method Rollback(disk: Disk) returns (r: Result)
    modifies disk
    ensures r.Refused? <==> !CanRollBack(old(disk.files)) || !PointersVerified(old(disk.files))
    ensures !r.Refused? ==> PointersVerified(disk.files)
    ensures Sound(old(disk.files)) ==> Sound(disk.files)
    ensures r.Refused? ==> disk.files == old(disk.files)
    ensures r.Ok? ==> disk.files == RolledBack(old(disk.files))
    ensures r.Crashed? ==>
      || disk.files == old(disk.files)
      || disk.files == RolledBack(old(disk.files)).(previousFile := old(disk.files).previousFile)
    ensures PointersUnmoved(old(disk.files), disk.files) || PointersRolledBack(old(disk.files), disk.files)
  {
    var f := disk.files;
    if f.journal.Some? {
      return Refused(RecoveryRequired);
    }
    if f.pointer.None? {
      return Refused(ReleaseInvalid);
    }
    if Previous(f).None? {
      return Refused(NoPrevious);
    }
    if !PointersVerified(f) {
      return Refused(ReleaseInvalid);
    }
    :- disk.Write(f.(pointer := Some(PointerState(Previous(f).value, Current(f)))));
    if disk.files.previousFile.Some? {
      r := disk.Write(disk.files.(previousFile := None));
    } else {
      r := Ok;
    }
  }

  /** Rolling back twice, and rolling back an update, bring the same release back. */
  lemma RollbackUndoes(f: Files)
    requires Sound(f)
    ensures CanRollBack(f) ==>
      && CanRollBack(RolledBack(f))
      && Current(RolledBack(RolledBack(f))) == Current(f) && Previous(RolledBack(RolledBack(f))) == Previous(f)
    ensures f.journal.Some? && f.journal.value.previous.Some? ==>
      && CanRollBack(Completed(f))
      && Current(RolledBack(Completed(f))) == f.journal.value.previous
      && Previous(RolledBack(Completed(f))) == Some(f.journal.value.content)
  {
  }

  // ---------------------------------------------------------------------------------------------
  // Runs

  datatype Command =
    | Build(tx: TxId, candidate: Tree)
    | PrepareCommand(tx: TxId, commit: CommitId, published: bool)
    | RecoverCommand(tx: TxId)
    | CommitCommand(tx: TxId)
    | RollbackCommand

  /** Only a commit updates the pointer and only a rollback swaps it. */
  predicate MovesAs(command: Command, f: Files, g: Files) {
    || PointersUnmoved(f, g)
    || (command.CommitCommand? && PointersUpdated(f, g))
    || (command.RollbackCommand? && PointersRolledBack(f, g))
  }

  method Execute(disk: Disk, command: Command) returns (r: Result)
    requires Sound(disk.files)
    modifies disk
    ensures Sound(disk.files) && MovesAs(command, old(disk.files), disk.files)
  {
    r := Ok;
    match command {
      case Build(tx, candidate) =>
        // A candidate is only built once no transaction is left to recover.
        if disk.files.journal.None? {
          r := disk.Write(disk.files.(candidates := disk.files.candidates[tx := candidate]));
        }
      case PrepareCommand(tx, c, published) =>
        r := Prepare(disk, tx, c, published);
      case RecoverCommand(tx) =>
        var action;
        r, action := Recover(disk, tx);
      case CommitCommand(tx) =>
        r := Commit(disk, tx);
      case RollbackCommand =>
        r := Rollback(disk);
    }
  }

  /**
   Any commands in any order, each crashing after its own number of durable steps: after every one
   of them the pointer is absent or names verified releases; a commit alone makes its journal's
   release current, with the former one as previous, and a rollback alone swaps the two.
   */
  method RunCommands(disk: Disk, commands: seq<(Command, nat)>) returns (ghost history: seq<Files>)
    requires Sound(disk.files)
    modifies disk
    ensures |history| == |commands| + 1 && history[0] == old(disk.files) && history[|commands|] == disk.files
    ensures forall i | 0 <= i <= |commands| :: PointersVerified(history[i]) && JournalOwned(history[i])
    ensures forall i | 0 <= i < |commands| :: MovesAs(commands[i].0, history[i], history[i + 1])
  {
    history := [disk.files];
    for i := 0 to |commands|
      invariant |history| == i + 1 && history[0] == old(disk.files) && history[i] == disk.files
      invariant Sound(disk.files)
      invariant forall k | 0 <= k <= i :: PointersVerified(history[k]) && JournalOwned(history[k])
      invariant forall k | 0 <= k < i :: MovesAs(commands[k].0, history[k], history[k + 1])
    {
      disk.life := commands[i].1;
      var r := Execute(disk, commands[i].0);
      history := history + [disk.files];
    }
  }

  /** One attempt to finish a journaled transaction: recover, adopt and commit. */
  method Resume(disk: Disk, tx: TxId) returns (r: Result)
    requires Sound(disk.files) && disk.files.journal.Some? && disk.files.journal.value.tx == tx
    modifies disk
    ensures Sound(disk.files) && StaysOnCourse(old(disk.files), disk.files)
    ensures r.Refused? <==> !Supported(old(disk.files)) && disk.files.journal.Some? && !r.Crashed?
    ensures r.Ok? ==> disk.files == Completed(old(disk.files))
    ensures r.Crashed? ==> old(disk.life) < 16
  {
    ghost var f := disk.files;
    var action;
    r, action := Recover(disk, tx);
    if r.Ok? && !action.Complete? {
      r := Commit(disk, tx);
    }
  }

  /**
   Preparing and committing a release with any number of crashes in between: as soon as the journal
   is durable, the files end as the uninterrupted run leaves them, but for one ownership file when
   the last crash falls exactly between the two unlinks that end the transaction.
   */
  method InstallThroughCrashes(disk: Disk, tx: TxId, c: CommitId, lives: seq<nat>) returns (journaled: bool)
    requires Sound(disk.files) && Preparable(disk.files, tx, c, true)
    requires c in disk.files.releases || disk.files.candidates[tx].compatible
    modifies disk
    ensures Sound(disk.files)
    ensures old(disk.life) >= 9 ==> journaled
    ensures !journaled ==> NotYetJournaled(old(disk.files), disk.files, tx, c)
    ensures journaled ==>
      || disk.files == Installed(old(disk.files), tx, c)
      || disk.files == Installed(old(disk.files), tx, c).(ownership := old(disk.files).ownership[tx := c])
  {
    ghost var f := disk.files;
    var r := Prepare(disk, tx, c, true);
    journaled := disk.files.journal.Some?;
    if !journaled {
      return;
    }
    var runs := lives + [16];
    for i := 0 to |runs|
      invariant Sound(disk.files)
      invariant disk.files.journal.Some? ==> Installs(disk.files, f, tx, c)
      invariant disk.files.journal.None? ==>
        || disk.files == Installed(f, tx, c)
        || disk.files == Installed(f, tx, c).(ownership := f.ownership[tx := c])
      invariant i == |runs| ==> disk.files.journal.None?
    {
      disk.life := runs[i];
      if disk.files.journal.Some? {
        assert f.ownership[tx := c] == (f.ownership - {tx})[tx := c];
        r := Resume(disk, tx);
      }
    }
  }
}
