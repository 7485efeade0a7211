/**
 The blocking request bridge between a workflow thread and the application
 (src/devloop/portable_runtime.py:72-106, 129-150, 178-185, 243-256).

 Every method is one step of one thread: what it does under the lock, or one operation on a queue.
 Threads interleave between steps; a waiting thread can take its step only when its queue is not
 empty.
 */
module RuntimeBridge {
  import opened Wrappers

  type RequestId = nat

  datatype Message = Preview(value: string, to: RequestId) | Respond(value: string, to: RequestId) | Stop

  /** A choice shows previews and keeps waiting; a text request takes whatever comes. */
  datatype Kind = Choice | Text

  /** Where a requesting thread is. */
  datatype Request =
    | Waiting(kind: Kind)
    | Closing(kind: Kind, value: string)
    | Answered(kind: Kind, value: string)
    | Stopped

  /** Whether this message ends the wait. */
  predicate Ends(kind: Kind, m: Message) {
    kind.Text? || !m.Preview?
  }

  predicate HasEnd(kind: Kind, queue: seq<Message>) {
    exists i :: 0 <= i < |queue| && Ends(kind, queue[i])
  }

  /** The queue holds a message that wakes its request: an answer or the stop, or anything at all for a text. */
  predicate Wakes(kind: Kind, queue: seq<Message>) {
    exists i :: 0 <= i < |queue| && (queue[i].Respond? || queue[i].Stop? || kind.Text?)
  }

  /** The message in this place wakes the request: before it a choice has shown previews only. */
  predicate IsWoken(kind: Kind, queue: seq<Message>, i: nat) {
    && i < |queue|
    && (kind.Text? ==> i == 0)
    && (kind.Choice? ==> (queue[i].Respond? || queue[i].Stop?) && forall k | 0 <= k < i :: queue[k].Preview?)
  }

  /** Somebody answered this very request with this value. */
  predicate WasSent(sent: set<Message>, id: RequestId, kind: Kind, value: string) {
    Respond(value, id) in sent || (kind.Text? && Preview(value, id) in sent)
  }

  /** A waiting request is still registered, about to be stopped, or has what will wake it. */
  ghost predicate Wakeable(
    requests: map<RequestId, Request>, queues: map<RequestId, seq<Message>>, responses: set<RequestId>, stops: set<RequestId>)
    requires requests.Keys == queues.Keys
  {
    forall id | id in requests && requests[id].Waiting? ::
      id in responses || id in stops || HasEnd(requests[id].kind, queues[id])
  }

  ghost predicate Justified(requests: map<RequestId, Request>, sent: set<Message>) {
    forall id | id in requests && (requests[id].Answered? || requests[id].Closing?) ::
      WasSent(sent, id, requests[id].kind, requests[id].value)
  }

  ghost predicate Delivered(queues: map<RequestId, seq<Message>>, sent: set<Message>) {
    forall id | id in queues :: Addressed(queues[id], id) && forall m | m in queues[id] :: m.Stop? || m in sent
  }

  predicate Addressed(queue: seq<Message>, id: RequestId) {
    forall m | m in queue :: m.Stop? || m.to == id
  }

  datatype Step =
    | Register(kind: Kind)
    | LookUp(message: Message)
    | Put(index: nat)
    | SetStop
    | Drain
    | PutStop(id: RequestId)
    | Get(id: RequestId)
    | Close(id: RequestId)

  class PortableRuntimeBridge {
    /** The requests that can still be answered. */
    var responses: set<RequestId>
    var queues: map<RequestId, seq<Message>>
    var requests: map<RequestId, Request>
    /** Messages whose queue was found and that are about to be put. */
    var sending: seq<Message>
    /** Drained requests that are about to get their stop. */
    var stops: set<RequestId>
    var stopRequested: bool
    var nextId: RequestId
    /** Whether the stop has drained the requests; and what was sent to each of them. */
    ghost var drained: bool
    ghost var sent: set<Message>

    /** What every interleaving keeps. */
    ghost predicate Valid()
      reads this
    {
      && requests.Keys == queues.Keys && (forall id | id in requests :: id < nextId)
      && responses <= requests.Keys && stops <= requests.Keys
      && (forall m | m in sending :: !m.Stop? && m.to in requests && m in sent)
      && Delivered(queues, sent) && Justified(requests, sent) && Wakeable(requests, queues, responses, stops)
      && (drained ==> stopRequested && responses == {})
    }

    constructor ()
      ensures Valid() && !stopRequested && requests == map[] && !drained
    {
      responses, queues, requests, sending, stops := {}, map[], map[], [], {};
      stopRequested, nextId, drained, sent := false, 1, false, {};
    }

    /** A request registers its queue under the lock, unless the application is stopping. */
    method RegisterRequest(kind: Kind) returns (id: Option<RequestId>)
      requires Valid()
      modifies `nextId, `responses, `queues, `requests
      ensures Valid() && (id.None? <==> stopRequested)
      ensures id.None? ==> requests == old(requests) && queues == old(queues) && responses == old(responses)
      ensures id.Some? ==>
        && id.value !in old(requests) && id.value !in old(queues)
        && requests == old(requests)[id.value := Waiting(kind)]
        && queues == old(queues)[id.value := []] && responses == old(responses) + {id.value}
    {
      var requestId := nextId;
      nextId := nextId + 1;
      if stopRequested {
        return None;
      }
      responses := responses + {requestId};
      queues := queues[requestId := []];
      requests := requests[requestId := Waiting(kind)];
      return Some(requestId);
    }

    /** An answer or a preview first finds the queue of its request; unknown requests are refused. */
    method SendInteraction(m: Message) returns (known: bool)
      requires Valid() && !m.Stop?
      modifies `sending, `sent
      ensures Valid() && (known <==> m.to in responses)
      ensures sending == old(sending) + if known then [m] else []
      ensures sent == old(sent) + if known then {m} else {}
    {
      known := m.to in responses;
      if known {
        sending := sending + [m];
        sent := sent + {m};
      }
    }

    /** ... and then puts the message into it, outside the lock. */
    method PutInteraction(index: nat)
      requires Valid()
      modifies `sending, `queues
      ensures Valid()
      ensures index < |old(sending)| ==>
        var m := old(sending)[index];
        && queues == old(queues)[m.to := old(queues)[m.to] + [m]]
        && sending == old(sending)[..index] + old(sending)[index + 1..]
      ensures index >= |old(sending)| ==> queues == old(queues) && sending == old(sending)
    {
      hide HasEnd, Addressed;
      if index < |sending| {
        var m := sending[index];
        LongerQueue(queues[m.to], m, m.to);
        queues := queues[m.to := queues[m.to] + [m]];
        sending := sending[..index] + sending[index + 1..];
      }
    }

    /** The application stops: the flag first, then the drain under the lock, then one stop each. */
    method SetStopRequested()
      requires Valid()
      modifies `stopRequested
      ensures Valid() && stopRequested
    {
      stopRequested := true;
    }

    method DrainRequests()
      requires Valid() && stopRequested
      modifies `responses, `stops, `drained
      ensures Valid() && drained && responses == {} && stops == old(stops) + old(responses)
    {
      stops := stops + responses;
      responses := {};
      drained := true;
    }

    method PutStopMessage(id: RequestId)
      requires Valid()
      modifies `queues, `stops
      ensures Valid() && stops == old(stops) - {id}
      ensures queues == if id in old(stops) then old(queues)[id := old(queues)[id] + [Stop]] else old(queues)
    {
      hide HasEnd, Addressed;
      if id in stops {
        LongerQueue(queues[id], Stop, id);
        queues := queues[id := queues[id] + [Stop]];
        stops := stops - {id};
      }
    }

    /** A waiting request takes the next message; with an empty queue it stays blocked. */
    method GetMessage(id: RequestId)
      requires Valid() && id in requests && requests[id].Waiting?
      modifies `queues, `requests
      ensures Valid()
      ensures old(queues)[id] == [] ==> requests == old(requests) && queues == old(queues)
      ensures old(queues)[id] != [] ==>
        var m := old(queues)[id][0];
        && queues == old(queues)[id := old(queues)[id][1..]]
        && requests == old(requests)[id :=
             match m
             case Stop => Stopped
             case Respond(value, _) => Closing(old(requests)[id].kind, value)
             case Preview(value, _) =>
               if old(requests)[id].kind.Text? then Closing(Text, value) else Waiting(Choice)]
    {
      hide Delivered, Justified, Wakeable;
      if queues[id] != [] {
        var m, kind := queues[id][0], requests[id].kind;
        TakeKeeps(requests, queues, responses, stops, sent, id);
        queues := queues[id := queues[id][1..]];
        if m.Stop? {
          requests := requests[id := Stopped];
        } else if Ends(kind, m) {
          requests := requests[id := Closing(kind, m.value)];
        } else {
          assert requests == requests[id := requests[id]];
        }
      }
    }

    /** An answered request leaves the table under the lock. */
    method CloseRequest(id: RequestId)
      requires Valid() && id in requests && requests[id].Closing?
      modifies `responses, `requests
      ensures Valid() && responses == old(responses) - {id}
      ensures requests == old(requests)[id := Answered(old(requests)[id].kind, old(requests)[id].value)]
      ensures WasSent(sent, id, requests[id].kind, requests[id].value)
    {
      responses := responses - {id};
      requests := requests[id := Answered(requests[id].kind, requests[id].value)];
    }

    /** The queue that a step changes, and how. */
    twostate predicate Moves(s: Step)
      reads this
      requires old(requests.Keys == queues.Keys) && requests.Keys == queues.Keys
      requires forall m | m in old(sending) :: !m.Stop? && m.to in old(queues)
    {
      match s
      case Register(_) =>
        && (forall id | id in old(queues) :: id in queues && queues[id] == old(queues)[id])
        && (!stopRequested ==> exists id :: id in queues && id !in old(queues) && queues[id] == [])
      case Put(index) =>
        index < |old(sending)| ==>
          var m := old(sending)[index];
          queues == old(queues)[m.to := old(queues)[m.to] + [m]]
      case PutStop(id) =>
        id in old(stops) && id in old(queues) ==> queues == old(queues)[id := old(queues)[id] + [Stop]]
      case Get(id) =>
        id in old(requests) && old(requests)[id].Waiting? && old(queues)[id] != [] ==>
          queues == old(queues)[id := old(queues)[id][1..]]
      case _ => queues == old(queues)
    }

    /** One step of some thread; a thread that cannot take it does nothing. */
    method Perform(s: Step)
      requires Valid()
      modifies this
      ensures Valid() && (old(stopRequested) ==> stopRequested && requests.Keys == old(requests.Keys))
      ensures (s.SetStop? ==> stopRequested) && (!s.SetStop? ==> stopRequested == old(stopRequested))
      ensures drained == (old(drained) || (s.Drain? && old(stopRequested)))
      ensures sent == if s.LookUp? && !s.message.Stop? && s.message.to in old(responses)
                      then old(sent) + {s.message} else old(sent)
      ensures old(requests).Keys <= requests.Keys
      ensures forall id | id in old(requests) && requests[id] != old(requests)[id] :: (s.Get? || s.Close?) && s.id == id
      ensures stops == if s.PutStop? then old(stops) - {s.id}
                       else if s.Drain? && stopRequested then old(stops) + old(responses) else old(stops)
      ensures Moves(s)
    {
      hide Valid;
      match s {
        case Register(kind) =>
          var id := RegisterRequest(kind);
          assert id.Some? ==> id.value in queues && id.value !in old(queues) && queues[id.value] == [];
        case LookUp(m) =>
          if !m.Stop? {
            var known := SendInteraction(m);
          }
        case Put(index) => PutInteraction(index);
        case SetStop => SetStopRequested();
        case Drain =>
          if stopRequested {
            DrainRequests();
          }
        case PutStop(id) => PutStopMessage(id);
        case Get(id) =>
          if id in requests && requests[id].Waiting? {
            GetMessage(id);
            assert requests.Keys == old(requests.Keys);
          }
        case Close(id) =>
          if id in requests && requests[id].Closing? {
            CloseRequest(id);
            assert requests.Keys == old(requests.Keys);
          }
      }
    }

    /** Every blocked request has the message that will wake it. */
    ghost predicate NoLostWakeup()
      reads this
      requires requests.Keys == queues.Keys
    {
      forall id | id in requests && requests[id].Waiting? :: Wakes(requests[id].kind, queues[id])
    }

    /**
     Any interleaving: an answered request got an answer sent to it and to no other; and once the
     stop has drained and put its messages nobody is left blocked without one.
     */
    method Run(steps: seq<Step>)
      requires Valid()
      modifies this
      ensures Valid() && (old(stopRequested) ==> requests.Keys == old(requests.Keys))
      ensures StopDrains(steps) ==> drained
      ensures drained && stops == {} ==> NoLostWakeup()
      ensures forall id | id in requests && requests[id].Answered? ::
                WasSent(old(sent) + LookedUp(steps), id, requests[id].kind, requests[id].value)
    {
      for i := 0 to |steps|
        invariant Valid() && (old(stopRequested) ==> stopRequested && requests.Keys == old(requests.Keys))
        invariant sent <= old(sent) + LookedUp(steps[..i])
        invariant (exists k :: 0 <= k < i && steps[k].SetStop?) ==> stopRequested
        invariant (exists k, m :: 0 <= k < m < i && steps[k].SetStop? && steps[m].Drain?) ==> drained
      {
        assert steps[..i + 1] == steps[..i] + [steps[i]];
        LookedUpGrows(steps[..i], steps[i]);
        Perform(steps[i]);
      }
      assert steps[..|steps|] == steps;
    }

    /**
     By its own steps alone, a blocked request comes back after the stop: with the answer that is
     ahead of the stop in its queue, if there is one.
     */
    method AwaitRelease(id: RequestId) returns (taken: nat)
      requires Valid() && drained && stops == {} && id in requests && requests[id].Waiting?
      modifies this
      ensures Valid() && requests.Keys == old(requests.Keys)
      ensures taken < |old(queues)[id]| && IsWoken(old(requests)[id].kind, old(queues)[id], taken)
      ensures queues[id] == old(queues)[id][taken + 1..]
      ensures requests[id] == if old(queues)[id][taken].Stop? then Stopped
                              else Closing(old(requests)[id].kind, old(queues)[id][taken].value)
    {
      hide Valid, HasEnd;
      BlockedIsWoken(id);
      ghost var kind, queue := requests[id].kind, queues[id];
      taken := 0;
      GetMessage(id);
      while requests[id].Waiting?
        invariant Valid() && drained && stops == {} && requests.Keys == old(requests.Keys) && id in queues
        invariant taken < |queue| && queues[id] == queue[taken + 1..]
        invariant forall i | 0 <= i < taken :: kind.Choice? && queue[i].Preview?
        invariant if requests[id].Waiting? then requests[id] == Waiting(kind) && kind.Choice? && queue[taken].Preview?
                  else
                    && (queue[taken].Preview? ==> kind.Text?)
                    && requests[id] == if queue[taken].Stop? then Stopped else Closing(kind, queue[taken].value)
        decreases |queue| - taken
      {
        BlockedIsWoken(id);
        GetMessage(id);
        taken := taken + 1;
      }
    }

    lemma BlockedIsWoken(id: RequestId)
      requires Valid() && drained && stops == {} && id in requests && requests[id].Waiting?
      ensures id in queues && queues[id] != []
    {
      hide Delivered, Justified;
      assert HasEnd(requests[id].kind, queues[id]);
    }
  }

  /** The messages that some thread set out to send. */
  function LookedUp(steps: seq<Step>): set<Message> {
    set s | s in steps && s.LookUp? :: s.message
  }

  /** A stop was requested, and the requests were drained after that. */
  predicate StopDrains(steps: seq<Step>) {
    exists k, m :: 0 <= k < m < |steps| && steps[k].SetStop? && steps[m].Drain?
  }

  lemma LookedUpGrows(steps: seq<Step>, s: Step)
    ensures LookedUp(steps + [s]) == LookedUp(steps) + if s.LookUp? then {s.message} else {}
  {
    assert s in steps + [s];
    assert forall e :: e in steps + [s] <==> e in steps || e == s;
  }

  lemma LongerQueue(queue: seq<Message>, m: Message, id: RequestId)
    ensures forall kind: Kind :: HasEnd(kind, queue) ==> HasEnd(kind, queue + [m])
    ensures m.Stop? ==> forall kind: Kind :: HasEnd(kind, queue + [m])
    ensures Addressed(queue, id) && (m.Stop? || m.to == id) ==> Addressed(queue + [m], id)
  {
    forall kind: Kind | HasEnd(kind, queue) ensures HasEnd(kind, queue + [m]) {
      var i :| 0 <= i < |queue| && Ends(kind, queue[i]);
      assert Ends(kind, (queue + [m])[i]);
    }
    forall kind: Kind | m.Stop? ensures HasEnd(kind, queue + [m]) {
      assert Ends(kind, (queue + [m])[|queue|]);
    }
  }

  /** What a request makes of the message it takes. */
  function Taken(request: Request, m: Message): Request
    requires request.Waiting?
  {
    if m.Stop? then Stopped else if Ends(request.kind, m) then Closing(request.kind, m.value) else request
  }

  lemma TakeKeeps(
    requests: map<RequestId, Request>, queues: map<RequestId, seq<Message>>, responses: set<RequestId>, stops: set<RequestId>,
    sent: set<Message>, id: RequestId)
    requires requests.Keys == queues.Keys && id in requests && requests[id].Waiting? && queues[id] != []
    requires Delivered(queues, sent) && Justified(requests, sent) && Wakeable(requests, queues, responses, stops)
    ensures var requests', queues' := requests[id := Taken(requests[id], queues[id][0])], queues[id := queues[id][1..]];
            Delivered(queues', sent) && Justified(requests', sent) && Wakeable(requests', queues', responses, stops)
  {
    hide HasEnd, Addressed;
    ShorterQueue(queues[id], requests[id].kind, id);
    assert queues[id][0] in queues[id];
    forall m | m in queues[id][1..] ensures m in queues[id] {
    }
  }

  lemma ShorterQueue(queue: seq<Message>, kind: Kind, id: RequestId)
    requires queue != []
    ensures HasEnd(kind, queue) && !Ends(kind, queue[0]) ==> HasEnd(kind, queue[1..])
    ensures Addressed(queue, id) ==> Addressed(queue[1..], id) && (queue[0].Stop? || queue[0].to == id)
  {
    if HasEnd(kind, queue) && !Ends(kind, queue[0]) {
      var i :| 0 <= i < |queue| && Ends(kind, queue[i]);
      assert queue[1..][i - 1] == queue[i];
    }
    if Addressed(queue, id) {
      assert queue[0] in queue;
      forall m | m in queue[1..] ensures m.Stop? || m.to == id {
        assert m in queue;
      }
    }
  }
}
