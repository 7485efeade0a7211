/**
 The failed-gate loop: a workflow step waits while authorized test gates run, and a gate that failed
 has to be passed before the step can (src/devloop/operator_handoff.py:47-65, 106-243).
 */
module OperatorHandoff {
  import opened Wrappers

  type Fingerprint = string

  datatype Gate = Gate(kind: string, project: string, filter: string, expectedTests: int, reason: string)

  /** What makes two gates the same: everything but the reason given for them. */
  datatype Identity = Identity(kind: string, project: string, filter: string, expectedTests: int)

  function GateIdentity(g: Gate): Identity {
    Identity(g.kind, g.project, g.filter, g.expectedTests)
  }

  /** More tests demanded of an otherwise identical gate. */
  predicate StrengthensFailedGate(g: Gate, failed: Gate) {
    && g.expectedTests > failed.expectedTests
    && GateIdentity(g.(expectedTests := failed.expectedTests)) == GateIdentity(failed)
  }

  predicate SameCommand(g: Identity, h: Identity) {
    g.kind == h.kind && g.project == h.project && g.filter == h.filter
  }

  /** The only gates that may answer a failed one: the same again, or the same with more tests. */
  predicate MayAnswer(g: Gate, failed: Gate) {
    GateIdentity(g) == GateIdentity(failed) || StrengthensFailedGate(g, failed)
  }

  /** The same command, with no fewer tests. */
  predicate Answers(g: Identity, failed: Identity) {
    SameCommand(g, failed) && g.expectedTests >= failed.expectedTests
  }

  lemma AnswersIffNotWeaker(g: Gate, failed: Gate)
    ensures MayAnswer(g, failed) <==> Answers(GateIdentity(g), GateIdentity(failed))
  {
  }

  datatype Status = PASS | FAIL | BLOCKED

  datatype RoleResult = RoleResult(status: Status, gate: Option<Gate>, commands: seq<string>, fixes: seq<string>)

  /** A durable request; `source` identifies the checkout it was made for. */
  datatype Record = Record(gate: Gate, source: Fingerprint)

  /** How waiting for a gate ends; the run may have changed the checkout. */
  datatype Wait =
    | Verified(evidence: string, source: Fingerprint)
    | TestsFailed(evidence: string, source: Fingerprint)
    | NoReceipt(error: string)

  /** What one pass around the loop meets in its environment. */
  datatype Round = Round(
    relocated: bool,
    sourceBefore: Fingerprint,
    wait: Wait,
    result: RoleResult,
    sourceAfter: Fingerprint,
    creatable: bool)

  datatype Outcome = Returned(result: RoleResult) | Raised | StillRunning

  /** A gate that was run, whether it passed, and the checkout it left. */
  datatype Trial = Trial(gate: Identity, verified: bool, source: Fingerprint)

  // ---------------------------------------------------------------------------------------------
  // The loop, one round at a time

  datatype FailedGate = FailedGate(gate: Gate, source: Fingerprint, evidence: string)

  /** What the loop carries from one round to the next. */
  datatype Loop = Loop(
    record: Option<Record>,
    accepted: map<Identity, string>,
    acceptedSource: Fingerprint,
    failed: Option<FailedGate>,
    completion: Option<RoleResult>)

  datatype Turn = Again(loop: Loop) | Ends(outcome: Outcome, record: Option<Record>)

  function Start(record: Option<Record>): Loop {
    Loop(record, map[], "", None, None)
  }

  /** A request for the gate, with its reason redacted. */
  function Request(gate: Gate, source: Fingerprint, redact: string -> string): Record {
    Record(gate.(reason := redact(gate.reason)), source)
  }

  /** The request that is waited for: a new one when the checkout is another one by now. */
  function Current(l: Loop, r: Round, redact: string -> string): Option<Record>
    requires l.record.Some?
  {
    if r.relocated || l.record.value.source != r.sourceBefore then
      if r.creatable then Some(Request(l.record.value.gate, r.sourceBefore, redact)) else None
    else l.record
  }

  /** The wait for the pending request, and what it decides. */
  function AfterWait(l: Loop, r: Round, redact: string -> string): Turn {
    if l.record.None? then Again(l) else
    var current := Current(l, r, redact);
    if current.None? then Ends(Raised, l.record) else
    var gate := current.value.gate;
    var accepted := if l.acceptedSource != current.value.source then map[] else l.accepted;
    match r.wait
    case NoReceipt(error) => Ends(Returned(RoleResult(BLOCKED, None, [], [error])), current)
    case TestsFailed(evidence, source) =>
      Again(Loop(Some(Record(gate, source)), accepted, l.acceptedSource, Some(FailedGate(gate, source, evidence)), None))
    case Verified(evidence, source) =>
      if l.completion.Some? then
        Ends(Returned(l.completion.value.(commands := l.completion.value.commands + [evidence])), Some(Record(gate, source)))
      else
        Again(Loop(Some(Record(gate, source)), accepted[GateIdentity(gate) := evidence], source, None, None))
  }

  /** Whether a result may not go on with this failure outstanding. */
  predicate LeavesFailure(r: Round, failed: FailedGate) {
    && (r.result.status == PASS || r.result.gate.Some?)
    && !(r.result.gate.Some? && StrengthensFailedGate(r.result.gate.value, failed.gate))
    && (r.sourceAfter == failed.source
        || (r.result.gate.Some? && GateIdentity(r.result.gate.value) != GateIdentity(failed.gate)))
  }

  /** The worker's result, and what it decides. */
  function AfterResult(l: Loop, r: Round, redact: string -> string): Turn {
    if l.failed.Some? && LeavesFailure(r, l.failed.value) then
      Ends(Returned(r.result.(status := FAIL, gate := None, fixes := [l.failed.value.evidence])), l.record)
    else if l.failed.Some? && r.result.status == PASS then
      if r.creatable then
        Again(l.(record := Some(Request(l.failed.value.gate, r.sourceAfter, redact)), completion := Some(r.result)))
      else Ends(Raised, l.record)
    else if l.failed.Some? && r.result.gate.None? then
      Ends(Returned(r.result.(fixes := r.result.fixes + [l.failed.value.evidence])), l.record)
    else if r.result.status != BLOCKED || r.result.gate.None? then Ends(Returned(r.result), l.record)
    else
      var gate := r.result.gate.value;
      if (GateIdentity(gate) in l.accepted && l.record.Some? && l.record.value.source == r.sourceAfter) || !r.creatable
      then Ends(Returned(RoleResult(BLOCKED, None, [], [])), l.record)
      else Again(l.(record := Some(Request(gate, r.sourceAfter, redact))))
  }

  function OneRound(l: Loop, r: Round, redact: string -> string): Turn {
    var waited := AfterWait(l, r, redact);
    if waited.Ends? then waited else AfterResult(waited.loop, r, redact)
  }

  /** How the loop ends over these rounds, and the request it leaves. */
  function Played(l: Loop, rounds: seq<Round>, redact: string -> string): (Outcome, Option<Record>)
    decreases |rounds|
  {
    if rounds == [] then (StillRunning, l.record) else
    match OneRound(l, rounds[0], redact)
    case Ends(outcome, record) => (outcome, record)
    case Again(next) => Played(next, rounds[1..], redact)
  }

  /** The gate that is run in a round: the pending request's, unless no request could be made. */
  function TrialIn(l: Loop, r: Round, redact: string -> string): seq<Trial> {
    if l.record.None? || Current(l, r, redact).None? || r.wait.NoReceipt? then []
    else [Trial(GateIdentity(l.record.value.gate), r.wait.Verified?, r.wait.source)]
  }

  /** All gates that are run over these rounds. */
  function Trials(l: Loop, rounds: seq<Round>, redact: string -> string): seq<Trial>
    decreases |rounds|
  {
    if rounds == [] then []
    else
      TrialIn(l, rounds[0], redact)
      + match OneRound(l, rounds[0], redact)
        case Ends(_, _) => []
        case Again(next) => Trials(next, rounds[1..], redact)
  }

  // ---------------------------------------------------------------------------------------------
  // What the trials say

  /** The failed gate that no later verified run has discharged. */
  function Outstanding(trail: seq<Trial>): Option<Identity> {
    if trail == [] || trail[|trail| - 1].verified then None else Some(trail[|trail| - 1].gate)
  }

  /** After a failure only gates that answer it are tried. */
  predicate Disciplined(trail: seq<Trial>) {
    forall i | 0 <= i < |trail| - 1 && !trail[i].verified :: Answers(trail[i + 1].gate, trail[i].gate)
  }

  /**
   From a failure to its discharge every gate tried is the same command with no fewer tests: nothing
   but a verified run of such a gate ends the failure.
   */
  lemma {:induction false} NothingWeakerIsTried(trail: seq<Trial>, i: nat, j: nat)
    requires Disciplined(trail) && i < j < |trail|
    requires forall k | i <= k < j :: !trail[k].verified
    ensures Answers(trail[j].gate, trail[i].gate)
    decreases j - i
  {
    if j > i + 1 {
      NothingWeakerIsTried(trail, i, j - 1);
    }
    assert Answers(trail[j].gate, trail[j - 1].gate);
  }

  /** The trial that left the failure the loop carries, if it carries one. */
  function Carried(l: Loop): seq<Trial> {
    if l.failed.None? then [] else [Trial(GateIdentity(l.failed.value.gate), false, l.failed.value.source)]
  }

  /** The pending request answers the failure, and a completion waits only for that. */
  predicate Sound(l: Loop) {
    && (l.failed.Some? ==>
          l.record.Some? && Answers(GateIdentity(l.record.value.gate), GateIdentity(l.failed.value.gate)))
    && (l.completion.Some? ==> l.failed.Some? && l.completion.value.status == PASS)
  }

  /** What the trial of a round leaves: the failure that is carried on, or none. */
  predicate Leaves(trail: seq<Trial>, l: Loop) {
    if l.failed.None? then Outstanding(trail).None?
    else trail != [] && trail[|trail| - 1] == Carried(l)[0]
  }

  /** The wait keeps the discipline, and a completion ends the loop only when it is verified. */
  lemma WaitIsDisciplined(l: Loop, r: Round, redact: string -> string)
    requires Sound(l)
    ensures var trail := Carried(l) + TrialIn(l, r, redact);
            && Disciplined(trail)
            && match AfterWait(l, r, redact)
               case Ends(outcome, _) =>
                 outcome.Returned? && outcome.result.status == PASS ==> Outstanding(trail).None?
               case Again(next) =>
                 && Leaves(trail, next) && next.completion.None?
                 && (next.failed.Some? ==> next.record.Some? && next.record.value.gate == next.failed.value.gate)
  {
    hide StrengthensFailedGate;
  }

  /** The worker's result never passes over a failure, and a new request answers it. */
  lemma ResultIsDisciplined(l: Loop, r: Round, redact: string -> string)
    requires l.completion.None?
    requires l.failed.Some? ==> l.record.Some? && l.record.value.gate == l.failed.value.gate
    ensures match AfterResult(l, r, redact)
            case Ends(outcome, _) =>
              outcome.Returned? && outcome.result.status == PASS ==> l.failed.None?
            case Again(next) => Sound(next) && next.failed == l.failed
  {
    if l.failed.Some? && r.result.gate.Some? {
      AnswersIffNotWeaker(r.result.gate.value, l.failed.value.gate);
    }
  }

  /** A round keeps the discipline and either ends without a hidden failure or goes on soundly. */
  lemma RoundIsDisciplined(l: Loop, r: Round, redact: string -> string)
    requires Sound(l)
    ensures var trail := Carried(l) + TrialIn(l, r, redact);
            && Disciplined(trail)
            && match OneRound(l, r, redact)
               case Ends(outcome, _) =>
                 outcome.Returned? && outcome.result.status == PASS ==> Outstanding(trail).None?
               case Again(next) => Sound(next) && Leaves(trail, next)
  {
    hide AfterWait, AfterResult, TrialIn, Sound, Disciplined;
    WaitIsDisciplined(l, r, redact);
    var waited := AfterWait(l, r, redact);
    if waited.Again? {
      ResultIsDisciplined(waited.loop, r, redact);
    }
  }

  /** Gluing the trials of a round to those of the rest, which starts with what the round leaves. */
  lemma GlueTrials(first: seq<Trial>, carried: seq<Trial>, rest: seq<Trial>)
    requires Disciplined(first) && Disciplined(carried + rest)
    requires if carried == [] then Outstanding(first).None?
             else |carried| == 1 && first != [] && first[|first| - 1] == carried[0] && !carried[0].verified
    ensures Disciplined(first + rest)
    ensures Outstanding(first + rest) == Outstanding(carried + rest)
  {
    var trail := first + rest;
    forall i | 0 <= i < |trail| - 1 && !trail[i].verified ensures Answers(trail[i + 1].gate, trail[i].gate) {
      if i >= |first| {
        var k := |carried| + (i - |first|);
        assert (carried + rest)[k] == trail[i] && (carried + rest)[k + 1] == trail[i + 1];
      } else if i == |first| - 1 {
        assert carried != [];
        assert (carried + rest)[0] == trail[i] && (carried + rest)[1] == trail[i + 1];
      }
    }
  }

  /** Over any rounds: the discipline is kept, and PASS is returned only with nothing outstanding. */
  lemma {:induction false} PlayIsDisciplined(l: Loop, rounds: seq<Round>, redact: string -> string)
    requires Sound(l)
    ensures var (trail, outcome) := (Carried(l) + Trials(l, rounds, redact), Played(l, rounds, redact).0);
            && Disciplined(trail)
            && (outcome.Returned? && outcome.result.status == PASS ==> Outstanding(trail).None?)
    decreases |rounds|
  {
    hide OneRound, TrialIn, Sound, Answers;
    if rounds != [] {
      RoundIsDisciplined(l, rounds[0], redact);
      var first := Carried(l) + TrialIn(l, rounds[0], redact);
      match OneRound(l, rounds[0], redact) {
        case Ends(_, _) =>
          assert Carried(l) + (TrialIn(l, rounds[0], redact) + []) == first;
        case Again(next) =>
          PlayIsDisciplined(next, rounds[1..], redact);
          var rest := Trials(next, rounds[1..], redact);
          GlueTrials(first, Carried(next), rest);
          assert Carried(l) + (TrialIn(l, rounds[0], redact) + rest) == first + rest;
      }
    }
  }

  // ---------------------------------------------------------------------------------------------
  // What a round requests, and the one case in which it repeats a failure

  /** The worker claimed to be done and asked for more tests in the same breath. */
  predicate PassesWithStrongerGate(r: RoleResult, failed: Gate) {
    r.status == PASS && r.gate.Some? && StrengthensFailedGate(r.gate.value, failed)
  }

  /** The request would run the failed gate again on the very sources it failed on. */
  predicate RepeatsFailure(l: Loop) {
    && l.failed.Some? && l.record.Some?
    && GateIdentity(l.record.value.gate) == GateIdentity(l.failed.value.gate)
    && l.record.value.source == l.failed.value.source
  }

  /**
   A round that goes on requests the failed gate when the worker claims to be done and the worker's
   own gate otherwise. What it requests repeats the failure in one case only: a pass that came with a
   stronger gate, on unchanged sources.
   */
  lemma RequestIsFor(l: Loop, r: Round, redact: string -> string)
    requires OneRound(l, r, redact).Again?
    ensures var next := OneRound(l, r, redact).loop;
            && next.record.Some? && next.record.value.source == r.sourceAfter
            && (if next.failed.Some? && r.result.status == PASS then
                  GateIdentity(next.record.value.gate) == GateIdentity(next.failed.value.gate)
                else
                  r.result.gate.Some? && GateIdentity(next.record.value.gate) == GateIdentity(r.result.gate.value))
            && (RepeatsFailure(next) <==>
                  && next.failed.Some? && r.sourceAfter == next.failed.value.source
                  && PassesWithStrongerGate(r.result, next.failed.value.gate))
  {
    hide AfterWait;
  }

  // ---------------------------------------------------------------------------------------------
  // What a round does, told by its facts alone

  predicate SameGate(g: Gate, h: Gate) {
    g.kind == h.kind && g.project == h.project && g.filter == h.filter && g.expectedTests == h.expectedTests
  }

  /** The very same command, with more tests demanded of it. */
  predicate DemandsMore(g: Gate, failed: Gate) {
    g.kind == failed.kind && g.project == failed.project && g.filter == failed.filter && g.expectedTests > failed.expectedTests
  }

  /** The same command, with no fewer tests. */
  predicate NoWeaker(g: Gate, failed: Gate) {
    SameGate(g, failed) || DemandsMore(g, failed)
  }

  predicate IsRequest(record: Record, gate: Gate, source: Fingerprint, redact: string -> string) {
    SameGate(record.gate, gate) && record.gate.reason == redact(gate.reason) && record.source == source
  }

  /** What is waited for: the pending request, made anew in another checkout or on other sources. */
  predicate IsPending(pending: Record, record: Record, r: Round, redact: string -> string) {
    if !r.relocated && r.sourceBefore == record.source then pending == record
    else r.creatable && IsRequest(pending, record.gate, r.sourceBefore, redact)
  }

  /** The loop ends before the worker runs. */
  ghost predicate WaitEnds(l: Loop, r: Round, redact: string -> string, outcome: Outcome, record: Option<Record>)
    requires l.record.Some?
  {
    || ((r.relocated || r.sourceBefore != l.record.value.source) && !r.creatable && outcome == Raised && record == l.record)
    || exists pending ::
         && IsPending(pending, l.record.value, r, redact)
         && outcome.Returned?
         && match r.wait
            case NoReceipt(error) =>
              outcome.result == RoleResult(BLOCKED, None, [], [error]) && record == Some(pending)
            case TestsFailed(_, _) => false
            case Verified(evidence, source) =>
              && l.completion.Some?
              && outcome.result.status == l.completion.value.status && outcome.result.gate == l.completion.value.gate
              && outcome.result.commands == l.completion.value.commands + [evidence]
              && outcome.result.fixes == l.completion.value.fixes
              && record == Some(Record(pending.gate, source))
  }

  /** What the loop holds when the worker has been told of the pending gate. */
  ghost predicate WaitGoesOn(l: Loop, r: Round, redact: string -> string, next: Loop)
    requires l.record.Some?
  {
    exists pending ::
      && IsPending(pending, l.record.value, r, redact)
      && next.completion == None && next.record.Some? && next.record.value.gate == pending.gate
      && match r.wait
         case NoReceipt(_) => false
         case TestsFailed(evidence, source) =>
           && next.record.value.source == source && next.failed == Some(FailedGate(pending.gate, source, evidence))
           && next.acceptedSource == l.acceptedSource
           && forall g: Gate :: IsAccepted(next, g) <==> IsAccepted(l, g) && l.acceptedSource == pending.source
         case Verified(evidence, source) =>
           && l.completion == None && next.failed == None
           && next.record.value.source == source && next.acceptedSource == source
           && forall g: Gate :: IsAccepted(next, g) <==>
                SameGate(g, pending.gate) || (IsAccepted(l, g) && l.acceptedSource == pending.source)
  }

  predicate IsAccepted(l: Loop, g: Gate) {
    Identity(g.kind, g.project, g.filter, g.expectedTests) in l.accepted
  }

  /**
   The result would hide the failure: it claims to be done or asks for a gate, with the sources as they
   failed or with another gate, and the gate is not the failed one with more tests.
   */
  predicate Hides(r: Round, failed: FailedGate) {
    match r.result.gate
    case None => r.result.status == PASS && r.sourceAfter == failed.source
    case Some(gate) =>
      !DemandsMore(gate, failed.gate) && (r.sourceAfter == failed.source || !SameGate(gate, failed.gate))
  }

  /** The gate asked for was verified, and nothing has changed since. */
  predicate IsRedundant(l: Loop, r: Round, gate: Gate) {
    IsAccepted(l, gate) && l.record.Some? && l.record.value.source == r.sourceAfter
  }

  /** The worker's result ends the loop. */
  predicate ResultEnds(l: Loop, r: Round, outcome: Outcome) {
    var result := r.result;
    match l.failed
    case None => if result.gate.None? then outcome == Returned(result) else GateEnds(l, r, result.gate.value, outcome)
    case Some(failed) =>
      if Hides(r, failed) then outcome == Returned(RoleResult(FAIL, None, result.commands, [failed.evidence]))
      else if result.status == PASS then !r.creatable && outcome == Raised
      else
        match result.gate
        case None => outcome == Returned(RoleResult(result.status, None, result.commands, result.fixes + [failed.evidence]))
        case Some(gate) => GateEnds(l, r, gate, outcome)
  }

  /** A gate matters to a worker that is blocked alone, and one that cannot help leaves it blocked. */
  predicate GateEnds(l: Loop, r: Round, gate: Gate, outcome: Outcome) {
    if r.result.status == BLOCKED then
      (IsRedundant(l, r, gate) || !r.creatable) && outcome == Returned(RoleResult(BLOCKED, None, [], []))
    else outcome == Returned(r.result)
  }

  /** The worker's result leads to a request: of the failed gate for one that is done, else of its own. */
  predicate ResultGoesOn(l: Loop, r: Round, redact: string -> string, next: Loop) {
    && r.creatable && next.record.Some?
    && next.failed == l.failed && next.accepted == l.accepted && next.acceptedSource == l.acceptedSource
    && (l.failed.Some? ==> !Hides(r, l.failed.value))
    && if l.failed.Some? && r.result.status == PASS then
         IsRequest(next.record.value, l.failed.value.gate, r.sourceAfter, redact) && next.completion == Some(r.result)
       else
         && r.result.status == BLOCKED && r.result.gate.Some? && !IsRedundant(l, r, r.result.gate.value)
         && IsRequest(next.record.value, r.result.gate.value, r.sourceAfter, redact) && next.completion == l.completion
  }

  /** A round that ends the loop, with this outcome and this request left. */
  ghost predicate RoundEnds(l: Loop, r: Round, redact: string -> string, outcome: Outcome, record: Option<Record>) {
    if l.record.None? then ResultEnds(l, r, outcome) && record == None
    else
      || WaitEnds(l, r, redact, outcome, record)
      || exists waited :: WaitGoesOn(l, r, redact, waited) && ResultEnds(waited, r, outcome) && record == waited.record
  }

  /** A round after which the loop goes on. */
  ghost predicate RoundGoesOn(l: Loop, r: Round, redact: string -> string, next: Loop) {
    if l.record.None? then ResultGoesOn(l, r, redact, next)
    else exists waited :: WaitGoesOn(l, r, redact, waited) && ResultGoesOn(waited, r, redact, next)
  }

  lemma WaitMeans(l: Loop, r: Round, redact: string -> string)
    requires l.record.Some?
    ensures match AfterWait(l, r, redact)
            case Ends(outcome, record) => WaitEnds(l, r, redact, outcome, record)
            case Again(next) => WaitGoesOn(l, r, redact, next)
  {
    var current := Current(l, r, redact);
    if current.Some? {
      assert IsPending(current.value, l.record.value, r, redact);
    }
  }

  lemma ResultMeans(l: Loop, r: Round, redact: string -> string)
    ensures match AfterResult(l, r, redact)
            case Ends(outcome, record) => ResultEnds(l, r, outcome) && record == l.record
            case Again(next) => ResultGoesOn(l, r, redact, next)
  {
  }

  /** A round is what these facts say it is. */
  lemma RoundMeans(l: Loop, r: Round, redact: string -> string)
    ensures match OneRound(l, r, redact)
            case Ends(outcome, record) => RoundEnds(l, r, redact, outcome, record)
            case Again(next) => RoundGoesOn(l, r, redact, next)
  {
    hide AfterWait, AfterResult, WaitEnds, WaitGoesOn, ResultEnds, ResultGoesOn;
    var waited := AfterWait(l, r, redact);
    if l.record.Some? {
      WaitMeans(l, r, redact);
    } else {
      assert waited == Again(l) by {
        NothingToWaitFor(l, r, redact);
      }
    }
    if waited.Again? {
      ResultMeans(waited.loop, r, redact);
    }
  }

  lemma NothingToWaitFor(l: Loop, r: Round, redact: string -> string)
    requires l.record.None?
    ensures AfterWait(l, r, redact) == Again(l)
  {
  }

  /** The rounds take the loop through this course and end it so. */
  ghost predicate IsCourse(
    course: seq<Loop>, rounds: seq<Round>, redact: string -> string, outcome: Outcome, record: Option<Record>)
  {
    && 0 < |course| <= |rounds| + 1
    && (forall i | 0 <= i < |course| - 1 :: RoundGoesOn(course[i], rounds[i], redact, course[i + 1]))
    && if |course| == |rounds| + 1 then outcome == StillRunning && record == course[|rounds|].record
       else RoundEnds(course[|course| - 1], rounds[|course| - 1], redact, outcome, record)
  }

  /** The course that the loop takes. */
  function Course(l: Loop, rounds: seq<Round>, redact: string -> string): seq<Loop>
    decreases |rounds|
  {
    [l] + if rounds == [] || OneRound(l, rounds[0], redact).Ends? then []
          else Course(OneRound(l, rounds[0], redact).loop, rounds[1..], redact)
  }

  /** Whatever the rounds are, the loop runs as the facts of each round say. */
  lemma {:induction false} PlayMeans(l: Loop, rounds: seq<Round>, redact: string -> string)
    ensures var (outcome, record) := Played(l, rounds, redact);
            Course(l, rounds, redact)[0] == l && IsCourse(Course(l, rounds, redact), rounds, redact, outcome, record)
    decreases |rounds|
  {
    hide OneRound, RoundGoesOn, RoundEnds;
    if rounds != [] {
      RoundMeans(l, rounds[0], redact);
      var turn := OneRound(l, rounds[0], redact);
      if turn.Again? {
        PlayMeans(turn.loop, rounds[1..], redact);
        var rest := Course(turn.loop, rounds[1..], redact);
        var course := Course(l, rounds, redact);
        assert course == [l] + rest;
        forall i | 0 <= i < |course| - 1 ensures RoundGoesOn(course[i], rounds[i], redact, course[i + 1]) {
          if i > 0 {
            assert RoundGoesOn(rest[i - 1], rounds[1..][i - 1], redact, rest[i]);
          }
        }
      }
    }
  }

  /** The pending gate is run in this round: its request could be made, and a receipt came. */
  predicate IsTried(l: Loop, r: Round) {
    l.record.Some? && !r.wait.NoReceipt? && (r.creatable || (!r.relocated && r.sourceBefore == l.record.value.source))
  }

  predicate IsTrialOf(trial: Trial, l: Loop, r: Round) {
    && IsTried(l, r) && (trial.verified <==> r.wait.Verified?) && trial.source == r.wait.source
    && var gate := l.record.value.gate;
       trial.gate == Identity(gate.kind, gate.project, gate.filter, gate.expectedTests)
  }

  /** The trials are those of the pending gates along the course, in order, one a round. */
  predicate AreTrials(trials: seq<Trial>, course: seq<Loop>, rounds: seq<Round>)
    requires 0 < |course| <= |rounds| + 1
  {
    var idle := if course[0].record.None? then 1 else 0;
    && idle + |trials| <= |course|
    && (forall i | idle <= i < idle + |trials| :: i < |rounds| && IsTrialOf(trials[i - idle], course[i], rounds[i]))
    && (forall i | 0 <= i < |course| && i < |rounds| && IsTried(course[i], rounds[i]) :: idle <= i < idle + |trials|)
  }

  lemma {:induction false} TrialsMean(l: Loop, rounds: seq<Round>, redact: string -> string)
    ensures var course := Course(l, rounds, redact);
            |course| <= |rounds| + 1 && course[0] == l && AreTrials(Trials(l, rounds, redact), course, rounds)
    decreases |rounds|
  {
    hide OneRound, TrialIn, IsTrialOf, IsTried, AreTrials;
    if rounds == [] {
      NothingTried(l);
      assert rounds == [] && Trials(l, rounds, redact) == [] && Course(l, rounds, redact) == [l];
    } else {
      TrialInMeans(l, rounds[0], redact);
      var first, turn := TrialIn(l, rounds[0], redact), OneRound(l, rounds[0], redact);
      if turn.Again? {
        RequestIsFor(l, rounds[0], redact);
        TrialsMean(turn.loop, rounds[1..], redact);
        MoreTrials(first, Trials(turn.loop, rounds[1..], redact), l, Course(turn.loop, rounds[1..], redact), rounds);
      } else {
        LastTrial(first, l, rounds);
        assert Trials(l, rounds, redact) == first && Course(l, rounds, redact) == [l];
      }
    }
  }

  lemma NothingTried(l: Loop)
    ensures AreTrials([], [l], [])
  {
  }

  lemma LastTrial(first: seq<Trial>, l: Loop, rounds: seq<Round>)
    requires rounds != [] && |first| <= 1 && (l.record.None? ==> first == [])
    requires first != [] ==> IsTrialOf(first[0], l, rounds[0])
    requires first == [] ==> !IsTried(l, rounds[0])
    ensures AreTrials(first, [l], rounds)
  {
    hide IsTrialOf, IsTried;
  }

  /** The trial of the first round goes before those of the rest. */
  lemma MoreTrials(first: seq<Trial>, rest: seq<Trial>, l: Loop, course: seq<Loop>, rounds: seq<Round>)
    requires rounds != [] && 0 < |course| <= |rounds| && course[0].record.Some?
    requires AreTrials(rest, course, rounds[1..])
    requires |first| == (if l.record.None? then 0 else 1) && (first == [] ==> !IsTried(l, rounds[0]))
    requires first != [] ==> IsTrialOf(first[0], l, rounds[0])
    ensures AreTrials(first + rest, [l] + course, rounds)
  {
    hide IsTrialOf, IsTried;
    var trials, loops := first + rest, [l] + course;
    var idle := 1 - |first|;
    assert loops[0] == l && |trials| == |first| + |rest| && |loops| == |course| + 1;
    forall i | idle <= i < idle + |trials| ensures i < |rounds| && IsTrialOf(trials[i - idle], loops[i], rounds[i]) {
      if i > 0 {
        assert IsTrialOf(rest[i - 1], course[i - 1], rounds[1..][i - 1]);
      }
    }
    forall i | 0 <= i < |loops| && i < |rounds| && IsTried(loops[i], rounds[i]) ensures idle <= i < idle + |trials| {
      if i > 0 {
        assert IsTried(course[i - 1], rounds[1..][i - 1]);
      }
    }
  }

  /** A pending gate is tried, unless that ends the loop. */
  lemma TrialInMeans(l: Loop, r: Round, redact: string -> string)
    ensures var first := TrialIn(l, r, redact);
            && |first| <= 1 && (l.record.None? ==> first == [])
            && (if first == [] then !IsTried(l, r) else IsTrialOf(first[0], l, r))
            && (l.record.Some? && OneRound(l, r, redact).Again? ==> |first| == 1)
  {
    hide AfterResult;
  }

  class OperatorHandoff {
    /** The request kept in the workflow state for this step. */
    var record: Option<Record>

    constructor (record: Option<Record>)
      ensures this.record == record
    {
      this.record := record;
    }

    method CreateRequest(gate: Gate, source: Fingerprint, redact: string -> string, creatable: bool)
      returns (created: bool)
      modifies this
      ensures created == creatable
      ensures record == if created then Some(Request(gate, source, redact)) else old(record)
    {
      if creatable {
        record := Some(Record(gate.(reason := redact(gate.reason)), source));
      }
      return creatable;
    }

    /** Runs the step until it returns. Each element of `rounds` is what one pass around the loop meets. */
    method RunRole(rounds: seq<Round>, redact: string -> string) returns (outcome: Outcome)
      modifies this
      ensures (outcome, record) == Played(Start(old(record)), rounds, redact)
      ensures exists course ::
                && IsCourse(course, rounds, redact, outcome, record)
                && course[0] == Loop(old(record), map[], "", None, None)
                && AreTrials(Trials(Start(old(record)), rounds, redact), course, rounds)
      ensures Disciplined(Trials(Start(old(record)), rounds, redact))
      ensures outcome.Returned? && outcome.result.status == PASS ==>
        Outstanding(Trials(Start(old(record)), rounds, redact)).None?
    {
      hide OneRound, TrialIn, IsCourse, AreTrials, Course;
      ghost var start := Start(record);
      PlayMeans(start, rounds, redact);
      TrialsMean(start, rounds, redact);
      PlayIsDisciplined(start, rounds, redact);
      assert Carried(start) + Trials(start, rounds, redact) == Trials(start, rounds, redact);
      var accepted: map<Identity, string> := map[];
      var acceptedSource: Fingerprint := "";
      var failed: Option<FailedGate> := None;
      var completion: Option<RoleResult> := None;
      var i := 0;
      while i < |rounds|
        invariant i <= |rounds|
        invariant Played(start, rounds, redact)
               == Played(Loop(record, accepted, acceptedSource, failed, completion), rounds[i..], redact)
      {
        ghost var l := Loop(record, accepted, acceptedSource, failed, completion);
        PlayedStep(l, rounds, i, redact);
        var round := rounds[i];
        var ended;
        ended, outcome, accepted, acceptedSource, failed, completion :=
          WaitForPending(round, redact, accepted, acceptedSource, failed, completion);
        if ended {
          return;
        }
        ended, outcome, completion := RunWorker(round, redact, accepted, acceptedSource, failed, completion);
        if ended {
          return;
        }
        i := i + 1;
      }
      assert rounds[|rounds|..] == [];
      outcome := StillRunning;
    }

    /** The pending request, if there is one, is made current and waited for. */
    method WaitForPending(
      round: Round, redact: string -> string, accepted: map<Identity, string>, acceptedSource: Fingerprint,
      failed: Option<FailedGate>, completion: Option<RoleResult>)
      returns (ended: bool, outcome: Outcome, accepted': map<Identity, string>, acceptedSource': Fingerprint,
        failed': Option<FailedGate>, completion': Option<RoleResult>)
      modifies this
      ensures AfterWait(Loop(old(record), accepted, acceptedSource, failed, completion), round, redact)
           == if ended then Ends(outcome, record)
              else Again(Loop(record, accepted', acceptedSource', failed', completion'))
    {
      ended, outcome := false, StillRunning;
      accepted', acceptedSource', failed', completion' := accepted, acceptedSource, failed, completion;
      if record.None? {
        return;
      }
      var gate := record.value.gate;
      if round.relocated || record.value.source != round.sourceBefore {
        var created := CreateRequest(gate, round.sourceBefore, redact, round.creatable);
        if !created {
          ended, outcome := true, Raised;
          return;
        }
      }
      if acceptedSource != record.value.source {
        accepted' := map[];
      }
      gate := record.value.gate;
      match round.wait {
        case NoReceipt(error) =>
          ended, outcome := true, Returned(RoleResult(BLOCKED, None, [], [error]));
        case TestsFailed(evidence, source) =>
          record := Some(Record(gate, source));
          failed', completion' := Some(FailedGate(gate, source, evidence)), None;
        case Verified(evidence, source) =>
          record := Some(Record(gate, source));
          acceptedSource', failed' := source, None;
          accepted' := accepted'[GateIdentity(gate) := evidence];
          if completion.Some? {
            ended := true;
            outcome := Returned(completion.value.(commands := completion.value.commands + [evidence]));
          }
      }
    }

    /** The worker runs, and its result is returned or leads to the next request. */
    method RunWorker(
      round: Round, redact: string -> string, accepted: map<Identity, string>, acceptedSource: Fingerprint,
      failed: Option<FailedGate>, completion: Option<RoleResult>)
      returns (ended: bool, outcome: Outcome, completion': Option<RoleResult>)
      modifies this
      ensures AfterResult(Loop(old(record), accepted, acceptedSource, failed, completion), round, redact)
           == if ended then Ends(outcome, record)
              else Again(Loop(record, accepted, acceptedSource, failed, completion'))
    {
      ended, outcome, completion' := true, Raised, completion;
      var result := round.result;
      if failed.Some? {
        var needsVerification := result.status == PASS || result.gate.Some?;
        var corrects := result.gate.Some? && StrengthensFailedGate(result.gate.value, failed.value.gate);
        if needsVerification && !corrects
           && (round.sourceAfter == failed.value.source
               || (result.gate.Some? && GateIdentity(result.gate.value) != GateIdentity(failed.value.gate))) {
          outcome := Returned(result.(status := FAIL, gate := None, fixes := [failed.value.evidence]));
          return;
        }
        if result.status == PASS {
          var created := CreateRequest(failed.value.gate, round.sourceAfter, redact, round.creatable);
          if created {
            ended, completion' := false, Some(result);
          }
          return;
        }
        if result.gate.None? {
          outcome := Returned(result.(fixes := result.fixes + [failed.value.evidence]));
          return;
        }
      }
      if result.status != BLOCKED || result.gate.None? {
        outcome := Returned(result);
        return;
      }
      var gate := result.gate.value;
      outcome := Returned(RoleResult(BLOCKED, None, [], []));
      if GateIdentity(gate) in accepted && record.Some? && record.value.source == round.sourceAfter {
        return;
      }
      var created := CreateRequest(gate, round.sourceAfter, redact, round.creatable);
      ended := !created;
    }
  }

  lemma PlayedStep(l: Loop, rounds: seq<Round>, i: nat, redact: string -> string)
    requires i < |rounds|
    ensures Played(l, rounds[i..], redact) ==
      var waited := AfterWait(l, rounds[i], redact);
      if waited.Ends? then (waited.outcome, waited.record)
      else
        match AfterResult(waited.loop, rounds[i], redact)
        case Ends(outcome, record) => (outcome, record)
        case Again(next) => Played(next, rounds[i + 1..], redact)
  {
    hide AfterWait, AfterResult;
    assert rounds[i..][0] == rounds[i] && rounds[i..][1..] == rounds[i + 1..];
  }
}
