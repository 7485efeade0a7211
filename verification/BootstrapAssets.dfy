/** The stable command files of an installation (install/bootstrap/transaction.py:50-64). */
module BootstrapAssets {

  /** The installed command files, in the order in which they are published. */
  datatype Asset =
    | DispatchPs1 | DispatchSh | VerifyPy | TransactionPy
    | BinDevloopPs1 | BinDevloopPlanPs1 | BinDevloopSh | BinDevloopPlanSh
    | InstallDevloopPs1 | InstallUninstallPs1 | InstallDevloopSh | InstallUninstallSh

  const ASSETS := [
    DispatchPs1, DispatchSh, VerifyPy, TransactionPy,
    BinDevloopPs1, BinDevloopPlanPs1, BinDevloopSh, BinDevloopPlanSh,
    InstallDevloopPs1, InstallUninstallPs1, InstallDevloopSh, InstallUninstallSh]

  /** File contents; equal digests are equal contents. */
  type Content = string

  type Tree = map<Asset, Content>

  predicate Total(t: Tree) {
    forall a: Asset :: a in t
  }

  function Position(a: Asset): nat {
    match a
    case DispatchPs1 => 0
    case DispatchSh => 1
    case VerifyPy => 2
    case TransactionPy => 3
    case BinDevloopPs1 => 4
    case BinDevloopPlanPs1 => 5
    case BinDevloopSh => 6
    case BinDevloopPlanSh => 7
    case InstallDevloopPs1 => 8
    case InstallUninstallPs1 => 9
    case InstallDevloopSh => 10
    case InstallUninstallSh => 11
  }

  /** Every asset is listed exactly once. */
  lemma ListedOnce(a: Asset, i: nat)
    requires i < |ASSETS|
    ensures Position(a) < |ASSETS| && ASSETS[Position(a)] == a
    ensures ASSETS[i] == a ==> i == Position(a)
  {
    assert Position(ASSETS[i]) == i by {
      assert i == 0 || i == 1 || i == 2 || i == 3 || i == 4 || i == 5
             || i == 6 || i == 7 || i == 8 || i == 9 || i == 10 || i == 11;
    }
  }

  lemma EveryAssetIsListed(a: Asset)
    ensures a in ASSETS
  {
    ListedOnce(a, 0);
  }
}
