/** Every `verify` ends, on the token and at the instant it was called with, however the endpoint answers. */
module VerifierProgress {
  import opened Common
  import Signing = RotationProtocol
  import opened JwksVerifier

  /** The call is about this token, presented at this instant. */
  predicate IsCallFor(task: Task, token: Signing.Jws, now: int) {
    match task
    case Waiting(t, at, _, _) => t == token && at == now
    case Looked(t, at, _, _, _, _) => t == token && at == now
    case Done(t, at, _, _, _) => t == token && at == now
    case Unparsed => false
  }

  predicate Finished(task: Task) {
    task.Done? || task.Unparsed?
  }

  /** The event brings the call nearer to its end: its own, or one of the fetch it waits for. */
  predicate Advances(n: Node, e: Event, id: nat)
    requires id in n.tasks
  {
    match n.tasks[id]
    case Waiting(_, _, _, _) => e.FetchLands? || e.FetchReleases?
    case Looked(_, _, _, _, _, _) => e == TaskResumed(id)
    case _ => false
  }

  function Distance(n: Node, id: nat): nat
    requires id in n.tasks
  {
    match n.tasks[id]
    case Waiting(_, _, forced, _) => (if n.state.landed then 2 else 3) + if forced then 0 else 3
    case Looked(_, _, forced, _, _, _) => if forced then 1 else 4
    case _ => 0
  }

  /** A call begins exactly for a token that parses, about that token and that instant. */
  lemma CallBegins(n: Node, id: nat, token: Option<Signing.Jws>, now: int)
    requires id !in n.tasks
    ensures var m := Step(n, VerifyCalled(id, token, now));
            && id in m.tasks && Distance(m, id) <= 6
            && (token.None? <==> m.tasks[id].Unparsed?)
            && (token.Some? ==> IsCallFor(m.tasks[id], token.value, now) && !m.tasks[id].Done?)
  {
  }

  lemma EventShortens(n: Node, e: Event, id: nat)
    requires NodeInv(n) && Possible(n, e) && id in n.tasks
    ensures id in Step(n, e).tasks
    ensures forall token, now :: IsCallFor(n.tasks[id], token, now) ==> IsCallFor(Step(n, e).tasks[id], token, now)
    ensures Finished(n.tasks[id]) ==> Step(n, e).tasks[id] == n.tasks[id]
    ensures Advances(n, e, id) ==> Distance(Step(n, e), id) < Distance(n, id)
    ensures !Advances(n, e, id) ==> Distance(Step(n, e), id) == Distance(n, id)
  {
    assert TaskInv(n, n.tasks[id]);
  }

  /** No call is ever stuck, and every answer the endpoint may give a waiting one serves to go on. */
  lemma SomeEventAdvances(n: Node, id: nat, answer: Option<Response>) returns (e: Event)
    requires NodeInv(n) && id in n.tasks && !Finished(n.tasks[id])
    ensures Possible(n, e) && Advances(n, e, id)
    ensures e.FetchLands? ==> e.response == answer
  {
    assert TaskInv(n, n.tasks[id]);
    e := if n.tasks[id].Looked? then TaskResumed(id) else if n.state.landed then FetchReleases else FetchLands(answer);
  }

  /** The events of a run that advance a call. */
  function Advancing(n: Node, events: seq<Event>, id: nat): nat
    requires NodeInv(n) && id in n.tasks && NodeRun(n, events).Some?
    decreases |events|
  {
    if events == [] then 0
    else
      EventShortens(n, events[0], id);
      StepKeepsNodeInv(n, events[0]);
      (if Advances(n, events[0], id) then 1 else 0) + Advancing(Step(n, events[0]), events[1..], id)
  }

  lemma {:induction false} AdvancingBounded(n: Node, events: seq<Event>, id: nat)
    requires NodeInv(n) && id in n.tasks && NodeRun(n, events).Some?
    ensures id in NodeRun(n, events).value.tasks
    ensures Advancing(n, events, id) + Distance(NodeRun(n, events).value, id) <= Distance(n, id)
    ensures forall token, now :: IsCallFor(n.tasks[id], token, now) ==>
              IsCallFor(NodeRun(n, events).value.tasks[id], token, now)
    decreases |events|
  {
    if events != [] {
      EventShortens(n, events[0], id);
      StepKeepsNodeInv(n, events[0]);
      AdvancingBounded(Step(n, events[0]), events[1..], id);
    }
  }

  lemma {:induction false} CanFinish(n: Node, id: nat, answer: Option<Response>) returns (events: seq<Event>)
    requires NodeInv(n) && id in n.tasks
    ensures NodeRun(n, events).Some? && id in NodeRun(n, events).value.tasks
    ensures Finished(NodeRun(n, events).value.tasks[id]) && |events| <= Distance(n, id)
    ensures forall k :: 0 <= k < |events| && events[k].FetchLands? ==> events[k].response == answer
    decreases Distance(n, id)
  {
    if Finished(n.tasks[id]) {
      events := [];
    } else {
      var e := SomeEventAdvances(n, id, answer);
      EventShortens(n, e, id);
      StepKeepsNodeInv(n, e);
      var rest := CanFinish(Step(n, e), id, answer);
      events := [e] + rest;
      assert events[1..] == rest;
    }
  }

  predicate Answers(events: seq<Event>, answer: Option<Response>) {
    forall k :: 0 <= k < |events| && events[k].FetchLands? ==> events[k].response == answer
  }

  /**
   * Every `verify` of a token that parses ends, in every run of the verifier: an unfinished call always has an event
   * that advances it, no run holds more than six such events, and whatever the endpoint keeps answering some run of
   * no more finishes it, about the token and the instant of the call.
   */
  lemma EveryVerifyEnds(start: Node, events: seq<Event>, id: nat, answer: Option<Response>)
    requires NodeStart(start) && NodeRun(start, events).Some? && id in NodeRun(start, events).value.tasks
    ensures var n := NodeRun(start, events).value;
            && NodeInv(n) && Distance(n, id) <= 6
            && (!Finished(n.tasks[id]) ==> exists e :: Possible(n, e) && Advances(n, e, id))
            && (forall more :: NodeRun(n, more).Some? ==> Advancing(n, more, id) <= 6)
            && exists more :: Answers(more, answer) && |more| <= 6 && NodeRun(n, more).Some?
                 && id in NodeRun(n, more).value.tasks && Finished(NodeRun(n, more).value.tasks[id])
                 && forall token, now :: IsCallFor(n.tasks[id], token, now) ==>
                      NodeRun(n, more).value.tasks[id].Done? && IsCallFor(NodeRun(n, more).value.tasks[id], token, now)
  {
    RunKeepsNodeInv(start, events);
    var n := NodeRun(start, events).value;
    if !Finished(n.tasks[id]) {
      var e := SomeEventAdvances(n, id, answer);
    }
    forall more | NodeRun(n, more).Some? ensures Advancing(n, more, id) <= 6 {
      AdvancingBounded(n, more, id);
    }
    var more := CanFinish(n, id, answer);
    AdvancingBounded(n, more, id);
    assert Answers(more, answer);
  }
}
