/**
 What the commands of the install journal check and leave behind, told by the files alone
 (install/bootstrap/transaction.py:1001-1284, install/bootstrap/verify.py:262-350).
 */
module InstallOutcomes {
  import opened InstallJournal
  import opened Wrappers

  // ---------------------------------------------------------------------------------------------
  // The two entries of the authoritative pointer

  predicate NamesCurrent(f: Files, p: Pointer) {
    match f.pointer
    case None => false
    case Some(FirstVersion(current)) => current == p
    case Some(PointerState(current, _)) => current == p
  }

  /** The first version keeps its previous release in a file of its own, which counts for it alone. */
  predicate NamesPrevious(f: Files, p: Pointer) {
    match f.pointer
    case None => false
    case Some(FirstVersion(_)) => f.previousFile == Some(p)
    case Some(PointerState(_, previous)) => previous == Some(p)
  }

  /** The release is there with this very content, as its manifest says, supported and with its own `.git`. */
  predicate IsUsable(f: Files, p: Pointer) {
    && p.commit in f.releases && f.releases[p.commit].content == p
    && p.commit in f.manifests && f.manifests[p.commit].content == p && f.manifests[p.commit].compatible
    && (p.commit !in f.receipts || f.receipts[p.commit] == f.releases[p.commit].git)
  }

  /** The pointers that every run keeps verified name usable releases, and nothing else is asked of them. */
  lemma VerifiedMeans(f: Files)
    ensures PointersVerified(f) <==> forall p | NamesCurrent(f, p) || NamesPrevious(f, p) :: IsUsable(f, p)
    ensures forall p :: NamesCurrent(f, p) <==> Current(f) == Some(p)
    ensures forall p :: NamesPrevious(f, p) <==> Previous(f) == Some(p)
  {
    forall p ensures PointerVerified(f, p) <==> IsUsable(f, p) {
    }
    if PointersVerified(f) {
      forall p | NamesCurrent(f, p) || NamesPrevious(f, p) ensures IsUsable(f, p) {
      }
    } else if Current(f).Some? && !PointerVerified(f, Current(f).value) {
      assert NamesCurrent(f, Current(f).value);
    } else {
      assert NamesPrevious(f, Previous(f).value);
    }
  }

  // ---------------------------------------------------------------------------------------------
  // What may be prepared

  /**
   A release that is there already is taken as it is: intact, supported, with its receipt and from the
   same sources as the candidate. A new one only must not contradict an earlier receipt.
   */
  predicate MayPrepare(f: Files, tx: TxId, c: CommitId, published: bool) {
    && tx in f.candidates && f.candidates[tx].content.commit == c
    && f.layout && published && f.journal.None?
    && if c in f.releases then
         && f.releases[c].content.commit == c && f.releases[c].content.tracked == f.candidates[tx].content.tracked
         && c in f.manifests && f.manifests[c].content == f.releases[c].content && f.manifests[c].compatible
         && c in f.receipts && f.receipts[c] == f.releases[c].git
       else c in f.receipts ==> f.receipts[c] == f.candidates[tx].git
  }

  lemma PreparableMeans(f: Files, tx: TxId, c: CommitId, published: bool)
    ensures Preparable(f, tx, c, published) <==> MayPrepare(f, tx, c, published)
  {
  }

  // ---------------------------------------------------------------------------------------------
  // What is left behind

  ghost predicate SameAt<K, V>(m: map<K, V>, n: map<K, V>, k: K) {
    if k in m then k in n && n[k] == m[k] else k !in n
  }

  ghost predicate SameBut<K(!new), V>(m: map<K, V>, n: map<K, V>, k: K) {
    forall other: K | (other in m || other in n) && other != k :: SameAt(m, n, other)
  }

  /**
   This tree is the release of commit `c` and current, what was current is previous, and nothing of the
   transaction remains. Other releases, candidates, manifests and receipts are as they were.
   */
  ghost predicate IsSwitched(before: Files, after: Files, tx: TxId, c: CommitId, tree: Tree, manifest: Manifest) {
    && after.journal.None? && after.layout == before.layout
    && after.pointer.Some? && after.pointer.value.PointerState? && after.previousFile.None?
    && NamesCurrent(after, tree.content)
    && c in after.releases && after.releases[c] == tree && SameBut(before.releases, after.releases, c)
    && c in after.manifests && after.manifests[c] == manifest && SameBut(before.manifests, after.manifests, c)
    && c in after.receipts && after.receipts[c] == tree.git && SameBut(before.receipts, after.receipts, c)
    && tx !in after.candidates && SameBut(before.candidates, after.candidates, tx)
    && tx !in after.ownership && SameBut(before.ownership, after.ownership, tx)
  }

  /** What preparing and committing a release ends in, when nothing or anything interrupts it. */
  lemma InstalledMeans(before: Files, after: Files, tx: TxId, c: CommitId)
    requires MayPrepare(before, tx, c, true)
    ensures after == Installed(before, tx, c) <==>
      && (forall p :: NamesPrevious(after, p) <==> NamesCurrent(before, p))
      && (if c in before.releases then IsSwitched(before, after, tx, c, before.releases[c], before.manifests[c])
          else
            var candidate := before.candidates[tx];
            IsSwitched(before, after, tx, c, candidate, Manifest(candidate.content, candidate.compatible)))
  {
    var installed := Installed(before, tx, c);
    InstalledIsSwitched(before, tx, c);
    hide *;
    if
      && (forall p :: NamesPrevious(after, p) <==> NamesCurrent(before, p))
      && IsSwitched(before, after, tx, c, installed.releases[c], installed.manifests[c])
    {
      SwitchedOnce(before, installed, after, tx, c, installed.releases[c], installed.manifests[c]);
    }
  }

  lemma InstalledIsSwitched(before: Files, tx: TxId, c: CommitId)
    requires MayPrepare(before, tx, c, true)
    ensures var installed := Installed(before, tx, c);
            && c in installed.releases && c in installed.manifests
            && IsSwitched(before, installed, tx, c, installed.releases[c], installed.manifests[c])
            && (forall p :: NamesPrevious(installed, p) <==> NamesCurrent(before, p))
            && installed.releases[c] == (if c in before.releases then before.releases[c] else before.candidates[tx])
            && installed.manifests[c] ==
                 (if c in before.releases then before.manifests[c]
                  else Manifest(before.candidates[tx].content, before.candidates[tx].compatible))
  {
    var installed := Installed(before, tx, c);
    forall p ensures NamesPrevious(installed, p) <==> NamesCurrent(before, p) {
    }
  }

  /** There is one such state only. */
  lemma SwitchedOnce(before: Files, f: Files, g: Files, tx: TxId, c: CommitId, tree: Tree, manifest: Manifest)
    requires IsSwitched(before, f, tx, c, tree, manifest) && IsSwitched(before, g, tx, c, tree, manifest)
    requires forall p :: NamesPrevious(f, p) <==> NamesPrevious(g, p)
    ensures f == g
  {
    SamePrevious(f, g);
    assert NamesCurrent(f, tree.content) && NamesCurrent(g, tree.content);
    hide SameBut;
    SameMaps(before.releases, f.releases, g.releases, c);
    SameMaps(before.manifests, f.manifests, g.manifests, c);
    SameMaps(before.receipts, f.receipts, g.receipts, c);
    SameMaps(before.candidates, f.candidates, g.candidates, tx);
    SameMaps(before.ownership, f.ownership, g.ownership, tx);
  }

  lemma SamePrevious(f: Files, g: Files)
    requires forall p :: NamesPrevious(f, p) <==> NamesPrevious(g, p)
    requires f.pointer.Some? && f.pointer.value.PointerState? && g.pointer.Some? && g.pointer.value.PointerState?
    ensures f.pointer.value.previous == g.pointer.value.previous
  {
    if f.pointer.value.previous.Some? {
      assert NamesPrevious(f, f.pointer.value.previous.value);
    }
    if g.pointer.value.previous.Some? {
      assert NamesPrevious(g, g.pointer.value.previous.value);
    }
  }

  lemma SameMaps<K(!new), V>(before: map<K, V>, m: map<K, V>, n: map<K, V>, k: K)
    requires SameBut(before, m, k) && SameBut(before, n, k) && SameAt(m, n, k)
    ensures m == n
  {
    forall other: K ensures SameAt(m, n, other) {
      if other != k {
        assert other in before || other in m ==> SameAt(before, m, other);
        assert other in before || other in n ==> SameAt(before, n, other);
      }
    }
    forall other: K ensures other in m <==> other in n {
      assert SameAt(m, n, other);
    }
    forall other: K | other in m ensures m[other] == n[other] {
      assert SameAt(m, n, other);
    }
  }

  /** From every state of a journaled transaction its commands lead here. */
  lemma CompletedMeans(f: Files, after: Files)
    requires f.journal.Some? && JournalSound(f, f.journal.value)
    ensures var j := f.journal.value;
            var tree := if j.content.commit in f.releases then f.releases[j.content.commit] else f.candidates[j.tx];
            var manifest :=
              if j.content.commit in f.releases then f.manifests[j.content.commit] else Manifest(j.content, tree.compatible);
            after == Completed(f) <==>
              && (forall p :: NamesPrevious(after, p) <==> j.previous == Some(p))
              && IsSwitched(f, after, j.tx, j.content.commit, tree, manifest)
  {
    var completed := Completed(f);
    CompletedIsSwitched(f);
    hide *;
    var j := f.journal.value;
    var c := j.content.commit;
    if
      && (forall p :: NamesPrevious(after, p) <==> j.previous == Some(p))
      && IsSwitched(f, after, j.tx, c, completed.releases[c], completed.manifests[c])
    {
      SwitchedOnce(f, completed, after, j.tx, c, completed.releases[c], completed.manifests[c]);
    }
  }

  lemma CompletedIsSwitched(f: Files)
    requires f.journal.Some? && JournalSound(f, f.journal.value)
    ensures var (j, completed) := (f.journal.value, Completed(f));
            var c := j.content.commit;
            && (c in f.releases ==> c in f.manifests) && (c !in f.releases ==> j.tx in f.candidates)
            && c in completed.releases && c in completed.manifests
            && IsSwitched(f, completed, j.tx, c, completed.releases[c], completed.manifests[c])
            && (forall p :: NamesPrevious(completed, p) <==> j.previous == Some(p))
            && completed.releases[c] == (if c in f.releases then f.releases[c] else f.candidates[j.tx])
            && completed.manifests[c] ==
                 (if c in f.releases then f.manifests[c] else Manifest(j.content, f.candidates[j.tx].compatible))
  {
    var (j, completed) := (f.journal.value, Completed(f));
    forall p ensures NamesPrevious(completed, p) <==> j.previous == Some(p) {
    }
  }

  /** A rollback swaps the two entries, and nothing else changes but the format. */
  lemma RolledBackMeans(f: Files, after: Files)
    requires CanRollBack(f)
    ensures after == RolledBack(f) <==> Swaps(f, after)
  {
    var back := RolledBack(f);
    RolledBackSwaps(f);
    if Swaps(f, after) {
      assert NamesCurrent(after, back.pointer.value.current);
      SamePrevious(back, after);
    }
  }

  /** The current entry is the previous one, and the other way round. */
  ghost predicate Swaps(f: Files, after: Files) {
    && (forall p :: NamesCurrent(after, p) <==> NamesPrevious(f, p))
    && (forall p :: NamesPrevious(after, p) <==> NamesCurrent(f, p))
    && after.pointer.Some? && after.pointer.value.PointerState? && after.previousFile.None?
    && after == f.(pointer := after.pointer, previousFile := after.previousFile)
  }

  lemma RolledBackSwaps(f: Files)
    requires CanRollBack(f)
    ensures Swaps(f, RolledBack(f)) && NamesCurrent(RolledBack(f), RolledBack(f).pointer.value.current)
  {
  }

  /** A rollback is refused exactly during an update, before the first installation and after only one. */
  lemma CanRollBackMeans(f: Files)
    ensures CanRollBack(f) <==> f.journal.None? && exists p :: NamesPrevious(f, p)
  {
    if CanRollBack(f) {
      assert NamesPrevious(f, Previous(f).value);
    }
  }

  // ---------------------------------------------------------------------------------------------
  // What a commit checks

  /**
   The pointer still is what it was when the transaction was prepared, or is already what the transaction
   makes it: its release current and the former one previous.
   */
  predicate IsBaseline(f: Files, j: Journal) {
    if f.pointer.None? then j.previous.None? && j.previousPrevious.None?
    else
      && (j.previous.None? ==> j.previousPrevious.None?)
      && (|| (NamesCurrent(f, j.content) && Is(f, j.previous))
          || (j.previous.Some? && NamesCurrent(f, j.previous.value) && Is(f, j.previousPrevious)))
  }

  /** The previous entry is this one, or absent. */
  predicate Is(f: Files, previous: Option<Pointer>) {
    match previous
    case Some(p) => NamesPrevious(f, p)
    case None =>
      match f.pointer
      case None => true
      case Some(FirstVersion(_)) => f.previousFile.None?
      case Some(PointerState(_, entry)) => entry.None?
  }

  lemma BaselineMeans(f: Files, j: Journal)
    ensures BaselineAccepted(f, j) <==> IsBaseline(f, j)
  {
  }

  /** The journaled release is intact: at every check during recovery and commit. */
  lemma JournalReleaseMeans(f: Files, j: Journal)
    ensures JournalReleaseValid(f, j) <==> IsUsable(f, j.content)
  {
  }
}
