/**
 The scheduler's projection: which issues are ready, which wait, and which attempt comes next
 (src/devloop/issue_scheduler.py:119-226).
 */
module IssueScheduler {
  import opened Wrappers
  import opened IssueGraph

  datatype SchedulingPhase = NormalScheduling | BlockerResolution | Complete | Exhausted | RunPaused

  /** The arguments of `project`, with the scheduler's own selection and pass budget. */
  datatype Inputs = Inputs(
    selected: set<Number>,
    completed: set<Number>,
    attempted: set<Number>,
    additional: map<Number, nat>,
    nonRetryable: set<Number>,
    allowBlockerResolution: bool,
    passes: nat)

  /** Nodes are given by their index among the issues. */
  datatype Projection = Projection(
    phase: SchedulingPhase,
    nextNormal: Option<nat>,
    nextBlocker: Option<nat>,
    blockerRound: Option<nat>,
    ready: seq<nat>,
    waiting: map<Number, seq<Number>>,
    exhausted: seq<nat>)

  function Passes(additional: map<Number, nat>, n: Number): nat {
    if n in additional then additional[n] else 0
  }

  function Incomplete(dependencies: seq<Number>, completed: set<Number>): (r: seq<Number>)
    ensures forall d :: d in r <==> d in dependencies && d !in completed
  {
    if dependencies == [] then []
    else
      var init, last := dependencies[..|dependencies| - 1], dependencies[|dependencies| - 1];
      Incomplete(init, completed) + if last in completed then [] else [last]
  }

  /** These are the places of what is incomplete, from the first to the last. */
  predicate ArePlaces(places: seq<nat>, dependencies: seq<Number>, completed: set<Number>) {
    && (forall i, j | 0 <= i < j < |places| :: places[i] < places[j])
    && (forall i | 0 <= i < |places| :: places[i] < |dependencies| && dependencies[places[i]] !in completed)
    && (forall k: nat | k < |dependencies| && dependencies[k] !in completed :: k in places)
  }

  predicate IsAt(listed: seq<Number>, dependencies: seq<Number>, places: seq<nat>) {
    && |places| == |listed|
    && forall i | 0 <= i < |places| :: places[i] < |dependencies| && listed[i] == dependencies[places[i]]
  }

  /** What is incomplete is listed in the order of the dependencies, each as often as it is there. */
  lemma {:induction false} IncompleteMeans(dependencies: seq<Number>, completed: set<Number>) returns (places: seq<nat>)
    ensures ArePlaces(places, dependencies, completed)
    ensures IsAt(Incomplete(dependencies, completed), dependencies, places)
  {
    hide ArePlaces, IsAt;
    if dependencies == [] {
      places := [];
      NoPlaces(completed);
    } else {
      var init, last := dependencies[..|dependencies| - 1], dependencies[|dependencies| - 1];
      var before := IncompleteMeans(init, completed);
      assert dependencies == init + [last];
      MorePlaces(before, Incomplete(init, completed), init, last, completed);
      places := before + if last in completed then [] else [|init|];
    }
  }

  lemma NoPlaces(completed: set<Number>)
    ensures ArePlaces([], [], completed) && IsAt([], [], [])
  {
  }

  lemma MorePlaces(places: seq<nat>, listed: seq<Number>, init: seq<Number>, last: Number, completed: set<Number>)
    requires ArePlaces(places, init, completed) && IsAt(listed, init, places)
    ensures IsAt(listed + if last in completed then [] else [last], init + [last],
                 places + if last in completed then [] else [|init|])
    ensures ArePlaces(places + if last in completed then [] else [|init|], init + [last], completed)
  {
    var all := places + if last in completed then [] else [|init|];
    forall k: nat | k < |init + [last]| && (init + [last])[k] !in completed ensures k in all {
      if k < |init| {
        assert k in places;
      } else {
        assert all[|places|] == k;
      }
    }
  }

  predicate Unfinished(input: Inputs, issue: Issue) {
    issue.number in input.selected && issue.number !in input.completed
  }

  predicate Ready(input: Inputs, issue: Issue) {
    Unfinished(input, issue) && forall d | d in issue.dependencies :: d in input.completed
  }

  predicate Waiting(input: Inputs, issue: Issue) {
    Unfinished(input, issue) && exists d :: d in issue.dependencies && d !in input.completed
  }

  /** Still has its one normal attempt. */
  predicate Fresh(input: Inputs, n: Number) {
    n !in input.attempted && n !in input.nonRetryable
  }

  /** May be given another Blocker Resolution pass. */
  predicate Eligible(input: Inputs, n: Number) {
    && n in input.attempted && n !in input.nonRetryable
    && input.allowBlockerResolution && Passes(input.additional, n) < input.passes
  }

  predicate Spent(input: Inputs, n: Number) {
    n in input.attempted && Passes(input.additional, n) >= input.passes
  }

  // ---------------------------------------------------------------------------------------------
  // What a projection means

  ghost predicate ReadyIsExact(pack: Pack, input: Inputs, ready: seq<nat>, upTo: nat)
    requires upTo <= |pack|
  {
    && (forall i, j | 0 <= i < j < |ready| :: ready[i] < ready[j])
    && (forall i | 0 <= i < |ready| :: ready[i] < upTo && Ready(input, pack[ready[i]]))
    && (forall k: nat | k < upTo && Ready(input, pack[k]) :: k in ready)
  }

  ghost predicate WaitingIsExact(pack: Pack, input: Inputs, waiting: map<Number, seq<Number>>, upTo: nat)
    requires upTo <= |pack|
  {
    && (forall k | 0 <= k < upTo && Waiting(input, pack[k]) ::
          pack[k].number in waiting
          && waiting[pack[k].number] == Incomplete(pack[k].dependencies, input.completed))
    && (forall n | n in waiting :: exists k :: 0 <= k < upTo && pack[k].number == n && Waiting(input, pack[k]))
  }

  /** The first ready issue that still has its normal attempt. */
  ghost predicate IsNextNormal(pack: Pack, input: Inputs, next: Option<nat>) {
    match next
    case None => forall k | 0 <= k < |pack| :: Ready(input, pack[k]) ==> !Fresh(input, pack[k].number)
    case Some(n) =>
      && n < |pack| && Ready(input, pack[n]) && Fresh(input, pack[n].number)
      && forall k | 0 <= k < n :: Ready(input, pack[k]) ==> !Fresh(input, pack[k].number)
  }

  /** An eligible ready issue with the fewest passes; among those, the first of the index. */
  ghost predicate IsNextBlocker(pack: Pack, input: Inputs, next: Option<nat>) {
    match next
    case None => forall k | 0 <= k < |pack| :: Ready(input, pack[k]) ==> !Eligible(input, pack[k].number)
    case Some(n) =>
      && n < |pack| && Ready(input, pack[n]) && Eligible(input, pack[n].number)
      && forall k | 0 <= k < |pack| && Ready(input, pack[k]) && Eligible(input, pack[k].number) ::
           var mine, other := Passes(input.additional, pack[n].number), Passes(input.additional, pack[k].number);
           mine < other || (mine == other && n <= k)
  }

  ghost predicate IsProjection(pack: Pack, input: Inputs, p: Projection) {
    && ReadyIsExact(pack, input, p.ready, |pack|)
    && WaitingIsExact(pack, input, p.waiting, |pack|)
    && IsNextNormal(pack, input, p.nextNormal)
    && IsNextBlocker(pack, input, p.nextBlocker)
    && p.blockerRound == (match p.nextBlocker
                          case None => None
                          case Some(n) => Some(Passes(input.additional, pack[n].number) + 1))
    && (forall i, j | 0 <= i < j < |p.exhausted| :: p.exhausted[i] < p.exhausted[j])
    && (forall k: nat :: k in p.exhausted <==> k < |pack| && Ready(input, pack[k]) && Spent(input, pack[k].number))
    && p.phase == (if p.nextNormal.Some? then NormalScheduling
                   else if p.nextBlocker.Some? then BlockerResolution
                   else if p.ready == [] && p.waiting == map[] then Complete
                   else Exhausted)
  }

  method Partition(pack: Pack, input: Inputs) returns (ready: seq<nat>, waiting: map<Number, seq<Number>>)
    requires UniqueNumbers(pack)
    ensures ReadyIsExact(pack, input, ready, |pack|)
    ensures WaitingIsExact(pack, input, waiting, |pack|)
  {
    hide ReadyIsExact, WaitingIsExact, Ready, Waiting, UniqueNumbers;
    ready, waiting := [], map[];
    PartitionStarts(pack, input);
    for k := 0 to |pack|
      invariant ReadyIsExact(pack, input, ready, k)
      invariant WaitingIsExact(pack, input, waiting, k)
    {
      var issue := pack[k];
      ReadyStep(pack, input, ready, k);
      WaitingStep(pack, input, waiting, k);
      if issue.number !in input.selected || issue.number in input.completed {
        continue;
      }
      var incomplete := Incomplete(issue.dependencies, input.completed);
      if incomplete != [] {
        waiting := waiting[issue.number := incomplete];
      } else {
        ready := ready + [k];
      }
    }
  }

  lemma PartitionStarts(pack: Pack, input: Inputs)
    ensures ReadyIsExact(pack, input, [], 0) && WaitingIsExact(pack, input, map[], 0)
  {
  }

  /** The next issue is ready exactly when it is unfinished and nothing it needs is incomplete. */
  lemma ReadyStep(pack: Pack, input: Inputs, ready: seq<nat>, k: nat)
    requires k < |pack| && ReadyIsExact(pack, input, ready, k)
    ensures Unfinished(input, pack[k]) && Incomplete(pack[k].dependencies, input.completed) == []
            ==> ReadyIsExact(pack, input, ready + [k], k + 1)
    ensures !(Unfinished(input, pack[k]) && Incomplete(pack[k].dependencies, input.completed) == [])
            ==> ReadyIsExact(pack, input, ready, k + 1)
  {
    hide Incomplete;
    IncompleteDecides(input, pack[k]);
    if Ready(input, pack[k]) {
      assert (ready + [k])[|ready|] == k;
      forall m: nat | m < k + 1 && Ready(input, pack[m]) ensures m in ready + [k] {
      }
    }
  }

  lemma WaitingStep(pack: Pack, input: Inputs, waiting: map<Number, seq<Number>>, k: nat)
    requires UniqueNumbers(pack) && k < |pack| && WaitingIsExact(pack, input, waiting, k)
    ensures var incomplete := Incomplete(pack[k].dependencies, input.completed);
            && (Unfinished(input, pack[k]) && incomplete != []
                ==> WaitingIsExact(pack, input, waiting[pack[k].number := incomplete], k + 1))
            && (!(Unfinished(input, pack[k]) && incomplete != []) ==> WaitingIsExact(pack, input, waiting, k + 1))
  {
    hide Incomplete, Waiting;
    IncompleteDecides(input, pack[k]);
  }

  lemma IncompleteDecides(input: Inputs, issue: Issue)
    ensures Ready(input, issue)
            <==> Unfinished(input, issue) && Incomplete(issue.dependencies, input.completed) == []
    ensures Waiting(input, issue)
            <==> Unfinished(input, issue) && Incomplete(issue.dependencies, input.completed) != []
  {
    var incomplete := Incomplete(issue.dependencies, input.completed);
    if incomplete != [] {
      assert incomplete[0] in incomplete;
    }
  }

  method Project(pack: Pack, input: Inputs) returns (p: Projection)
    requires UniqueNumbers(pack)
    ensures IsProjection(pack, input, p)
  {
    var ready, waiting := Partition(pack, input);
    var nextNormal := SelectNormal(pack, input, ready);
    var nextBlocker := SelectBlocker(pack, input, ready);
    var exhausted := SelectExhausted(pack, input, ready);
    var phase :=
      if nextNormal.Some? then NormalScheduling
      else if nextBlocker.Some? then BlockerResolution
      else if ready == [] && waiting == map[] then Complete
      else Exhausted;
    var blockerRound :=
      match nextBlocker
      case None => None
      case Some(n) =>
        Some((if pack[n].number in input.additional then input.additional[pack[n].number] else 0) + 1);
    p := Projection(phase, nextNormal, nextBlocker, blockerRound, ready, waiting, exhausted);
  }

  method SelectNormal(pack: Pack, input: Inputs, ready: seq<nat>) returns (next: Option<nat>)
    requires ReadyIsExact(pack, input, ready, |pack|)
    ensures IsNextNormal(pack, input, next)
  {
    for i := 0 to |ready|
      invariant forall j | 0 <= j < i :: !Fresh(input, pack[ready[j]].number)
    {
      var n := pack[ready[i]].number;
      if n !in input.attempted && n !in input.nonRetryable {
        return Some(ready[i]);
      }
    }
    return None;
  }

  method SelectBlocker(pack: Pack, input: Inputs, ready: seq<nat>) returns (next: Option<nat>)
    requires ReadyIsExact(pack, input, ready, |pack|)
    ensures IsNextBlocker(pack, input, next)
  {
    next := None;
    var fewest := 0;
    for i := 0 to |ready|
      invariant next.Some? && next.value < |pack| ==> fewest == Passes(input.additional, pack[next.value].number)
      invariant next.None? ==> forall j | 0 <= j < i :: !Eligible(input, pack[ready[j]].number)
      invariant next.Some? ==>
        && (exists j :: 0 <= j < i && ready[j] == next.value) && next.value < |pack| && Eligible(input, pack[next.value].number)
        && forall j | 0 <= j < i && Eligible(input, pack[ready[j]].number) ::
             var mine := Passes(input.additional, pack[next.value].number);
             var other := Passes(input.additional, pack[ready[j]].number);
             mine < other || (mine == other && next.value <= ready[j])
    {
      var n := pack[ready[i]].number;
      var used := if n in input.additional then input.additional[n] else 0;
      if n in input.attempted && n !in input.nonRetryable && input.allowBlockerResolution && used < input.passes {
        if next.None? || used < fewest {
          next, fewest := Some(ready[i]), used;
        }
      }
    }
  }

  method SelectExhausted(pack: Pack, input: Inputs, ready: seq<nat>) returns (exhausted: seq<nat>)
    requires ReadyIsExact(pack, input, ready, |pack|)
    ensures forall i, j | 0 <= i < j < |exhausted| :: exhausted[i] < exhausted[j]
    ensures forall k: nat :: k in exhausted <==> k < |pack| && Ready(input, pack[k]) && Spent(input, pack[k].number)
  {
    exhausted := [];
    for i := 0 to |ready|
      invariant forall k, m | 0 <= k < m < |exhausted| :: exhausted[k] < exhausted[m]
      invariant forall m | 0 <= m < |exhausted| :: i > 0 && exhausted[m] <= ready[i - 1]
      invariant forall k | k in exhausted :: k < |pack| && Ready(input, pack[k]) && Spent(input, pack[k].number)
      invariant forall j | 0 <= j < i && Spent(input, pack[ready[j]].number) :: ready[j] in exhausted
    {
      var n := pack[ready[i]].number;
      if n in input.attempted && (if n in input.additional then input.additional[n] else 0) >= input.passes {
        exhausted := exhausted + [ready[i]];
      }
    }
  }

  // ---------------------------------------------------------------------------------------------
  // The unresolved cut

  /** `n` needs `root`, directly or through other issues. */
  ghost predicate DependsOn(pack: Pack, n: Number, root: Number) {
    exists path: seq<Number> :: |path| >= 2 && path[0] == n && path[|path| - 1] == root && IsPath(pack, path)
  }

  /** Nothing a selected unfinished issue needs lies outside the selection. */
  predicate ClosedInputs(pack: Pack, input: Inputs) {
    && input.selected <= Numbers(pack)
    && forall k | 0 <= k < |pack| && pack[k].number in input.selected ::
         forall d | d in pack[k].dependencies :: d in Numbers(pack) && (d in input.completed || d in input.selected)
  }

  ghost predicate IsReadyNumber(pack: Pack, input: Inputs, n: Number) {
    exists k :: 0 <= k < |pack| && pack[k].number == n && Ready(input, pack[k])
  }

  ghost predicate IsWaitingNumber(pack: Pack, input: Inputs, n: Number) {
    exists k :: 0 <= k < |pack| && pack[k].number == n && Waiting(input, pack[k])
  }

  lemma UnfinishedIsReadyOrWaiting(pack: Pack, input: Inputs, n: Number)
    requires n in Numbers(pack) && n in input.selected && n !in input.completed
    ensures IsReadyNumber(pack, input, n) || IsWaitingNumber(pack, input, n)
  {
    var k :| 0 <= k < |pack| && pack[k].number == n;
    assert Ready(input, pack[k]) || Waiting(input, pack[k]);
  }

  lemma DependsOnTrans(pack: Pack, n: Number, d: Number, root: Number)
    requires Needs(pack, n, d) && DependsOn(pack, d, root)
    ensures DependsOn(pack, n, root)
  {
    var path :| |path| >= 2 && path[0] == d && path[|path| - 1] == root && IsPath(pack, path);
    var longer := [n] + path;
    forall i | 0 <= i < |longer| - 1 ensures Needs(pack, longer[i], longer[i + 1]) {
      if i > 0 {
        assert Needs(pack, path[i - 1], path[i]);
      }
    }
    assert longer[0] == n && longer[|longer| - 1] == root;
  }

  /** Every waiting issue is held up by some ready one: the ready issues are the roots of the cut. */
  lemma {:induction false} WaitingHasReadyRoot(pack: Pack, input: Inputs, order: seq<Number>, n: Number)
    returns (root: Number)
    requires UniqueNumbers(pack) && ClosedInputs(pack, input)
    requires DependenciesFirst(pack, order) && n in order
    requires IsWaitingNumber(pack, input, n)
    ensures IsReadyNumber(pack, input, root) && DependsOn(pack, n, root)
    decreases Position(order, n)
  {
    var k :| 0 <= k < |pack| && pack[k].number == n && Waiting(input, pack[k]);
    NodeAt(pack, k);
    var d :| d in pack[k].dependencies && d !in input.completed;
    assert Needs(pack, n, d);
    UnfinishedIsReadyOrWaiting(pack, input, d);
    if IsReadyNumber(pack, input, d) {
      root := d;
      assert IsPath(pack, [n, d]) && [n, d][0] == n && [n, d][1] == d;
    } else {
      NeedsDescends(pack, order, n, d);
      root := WaitingHasReadyRoot(pack, input, order, d);
      DependsOnTrans(pack, n, d, root);
    }
  }

  // ---------------------------------------------------------------------------------------------
  // Fairness of one choice

  /** One scheduled attempt, as `project` would have it chosen. */
  datatype Attempt = Attempt(issue: Number, phase: SchedulingPhase, ordinal: nat)

  /** Of the issues that would do as well, the attempt's own is listed first. */
  ghost predicate ListedFirst(pack: Pack, input: Inputs, a: Attempt) {
    forall i, k | 0 <= i < k < |pack| && pack[k].number == a.issue && Ready(input, pack[i]) ::
      if a.phase == NormalScheduling then !Fresh(input, pack[i].number)
      else
        Eligible(input, pack[i].number) ==>
          Passes(input.additional, a.issue) < Passes(input.additional, pack[i].number)
  }

  /** The attempt that a projection of these inputs calls for, stated without the projection. */
  ghost predicate Chosen(pack: Pack, input: Inputs, a: Attempt) {
    && IsReadyNumber(pack, input, a.issue) && ListedFirst(pack, input, a)
    && match a.phase
       case NormalScheduling => a.ordinal == 1 && Fresh(input, a.issue)
       case BlockerResolution =>
         && a.ordinal == Passes(input.additional, a.issue) + 1
         && Eligible(input, a.issue)
         && forall n | IsReadyNumber(pack, input, n) ::
              && !Fresh(input, n)
              && (Eligible(input, n) ==> Passes(input.additional, a.issue) <= Passes(input.additional, n))
       case _ => false
  }

  /** The inputs leave no choice. */
  lemma ChosenIsUnique(pack: Pack, input: Inputs, a: Attempt, b: Attempt)
    requires Chosen(pack, input, a) && Chosen(pack, input, b)
    ensures a == b
  {
    var i :| 0 <= i < |pack| && pack[i].number == a.issue && Ready(input, pack[i]);
    var k :| 0 <= k < |pack| && pack[k].number == b.issue && Ready(input, pack[k]);
    assert IsReadyNumber(pack, input, a.issue) && IsReadyNumber(pack, input, b.issue);
    assert a.phase == b.phase;
    assert i == k;
  }

  lemma NextNormalIsChosen(pack: Pack, input: Inputs, p: Projection)
    requires UniqueNumbers(pack) && IsProjection(pack, input, p) && p.nextNormal.Some?
    ensures Chosen(pack, input, Attempt(pack[p.nextNormal.value].number, NormalScheduling, 1))
  {
  }

  lemma NextBlockerIsChosen(pack: Pack, input: Inputs, p: Projection)
    requires UniqueNumbers(pack) && IsProjection(pack, input, p) && p.nextNormal.None? && p.nextBlocker.Some?
    ensures p.blockerRound.Some?
    ensures Chosen(pack, input, Attempt(pack[p.nextBlocker.value].number, BlockerResolution, p.blockerRound.value))
  {
    var a := pack[p.nextBlocker.value].number;
    assert IsReadyNumber(pack, input, a);
  }
}
