/** The remote client's invocations: routing events, completing, forgetting.

    One runtime is modelled; events of other runtimes have other keys. Routing one event is one
    step: the sequence load, the channel send and the sequence store are taken together. */
module RemoteClient {
  import opened Basics
  import opened Events

  datatype Completion = Ok(result: TurnResult) | Err(failure: Failure)

  /** What `try_send` on the invocation's bounded channel does; the consumer decides. */
  datatype SendOutcome = Sent | Full | Closed

  const CHANNEL_FAILURE: Failure := 1

  /** One `start_turn` of the client: its channel contents, cursor and completion. */
  datatype Remote = Remote(
    id: InvocationId,
    lastSequence: nat,
    delivered: seq<Envelope>,
    completion: Option<Completion>)

  /** Registered invocations point into the list of all that were ever started. */
  datatype Client = Client(invocations: map<InvocationId, nat>, remotes: seq<Remote>, recoveries: nat)

  predicate Known(c: Client, id: InvocationId) {
    id in c.invocations && c.invocations[id] < |c.remotes|
  }

  /** Registered invocations are listed under their own identifier and have not completed. */
  ghost predicate ClientOk(c: Client) {
    forall id :: id in c.invocations ==> RegisteredOk(c, id)
  }

  predicate RegisteredOk(c: Client, id: InvocationId) {
    Known(c, id) && c.remotes[c.invocations[id]].id == id && c.remotes[c.invocations[id]].completion.None?
  }

  datatype Routing = Unregistered | Duplicate | Gap | Next

  function Classify(c: Client, e: Envelope): (r: Routing) {
    if !Known(c, e.invocation) then Unregistered
    else
      var last := c.remotes[c.invocations[e.invocation]].lastSequence;
      if e.sequence <= last then Duplicate
      else if e.sequence != last + 1 then Gap
      else Next
  }

  /** A completion is delivered once; later ones are ignored. */
  function Complete(r: Remote, result: Completion): (r': Remote) {
    if r.completion.Some? then r else r.(completion := Some(result))
  }

  function Accept(r: Remote, e: Envelope): (r': Remote) {
    var r1 := r.(lastSequence := e.sequence, delivered := r.delivered + [e]);
    match e.event
    case InvocationCompleted(result) => Complete(r1, Ok(result))
    case InvocationFailed(failure) => Complete(r1, Err(failure))
    case _ => r1
  }

  function Route(c: Client, e: Envelope, send: SendOutcome): (c': Client) {
    var kind := Classify(c, e);
    if kind == Gap then c.(recoveries := c.recoveries + 1)
    else if kind != Next then c
    else
      var h := c.invocations[e.invocation];
      if send.Sent? then
        c.(remotes := c.remotes[h := Accept(c.remotes[h], e)],
           invocations := if IsTerminal(e.event) then c.invocations - {e.invocation} else c.invocations)
      else
        c.(remotes := c.remotes[h := Complete(c.remotes[h], Err(CHANNEL_FAILURE))],
           invocations := c.invocations - {e.invocation})
  }

  /** Starting a turn registers a fresh invocation, replacing any earlier one under the same key. */
  function Register(c: Client, id: InvocationId): (c': Client) {
    c.(remotes := c.remotes + [Remote(id, 0, [], None)], invocations := c.invocations[id := |c.remotes|])
  }

  /** Giving up on an invocation: exhausted recovery, undeliverable interaction, refused start. */
  function GiveUp(c: Client, id: InvocationId, failure: Option<Failure>): (c': Client) {
    if !Known(c, id) then c
    else
      var h := c.invocations[id];
      c.(invocations := c.invocations - {id},
         remotes := if failure.Some? then c.remotes[h := Complete(c.remotes[h], Err(failure.value))] else c.remotes)
  }

  /** The cursors an attach request carries. */
  function ReplayCursors(c: Client): (r: map<InvocationId, nat>) {
    map id | id in c.invocations && Known(c, id) :: c.remotes[c.invocations[id]].lastSequence
  }

  class RemoteRuntimeClient {
    var invocations: map<InvocationId, nat>
    var remotes: seq<Remote>
    var recoveries: nat

    ghost function View(): (c: Client)
      reads this
    {
      Client(invocations, remotes, recoveries)
    }

    constructor ()
      ensures View() == Client(map[], [], 0)
    {
      invocations, remotes, recoveries := map[], [], 0;
    }

    method CompleteRemote(h: nat, result: Completion)
      requires h < |remotes|
      modifies this`remotes
      ensures remotes == old(remotes)[h := Complete(old(remotes)[h], result)]
    {
      if remotes[h].completion.None? {
        remotes := remotes[h := remotes[h].(completion := Some(result))];
      }
    }

    method RouteEvent(e: Envelope, send: SendOutcome)
      requires ClientOk(View())
      modifies this
      ensures View() == Route(old(View()), e, send)
    {
      if e.invocation !in invocations {
        return;
      }
      var h := invocations[e.invocation];
      var previous := remotes[h].lastSequence;
      if e.sequence <= previous {
        return;
      }
      if e.sequence != previous + 1 {
        recoveries := recoveries + 1;
        return;
      }
      if !send.Sent? {
        invocations := invocations - {e.invocation};
        CompleteRemote(h, Err(CHANNEL_FAILURE));
        return;
      }
      remotes := remotes[h := remotes[h].(lastSequence := e.sequence, delivered := remotes[h].delivered + [e])];
      match e.event {
        case InvocationCompleted(result) => CompleteRemote(h, Ok(result));
        case InvocationFailed(failure) => CompleteRemote(h, Err(failure));
        case InvocationStarted =>
        case ProviderEvent(_) =>
      }
      if IsTerminal(e.event) {
        invocations := invocations - {e.invocation};
      }
    }

    method StartTurn(id: InvocationId)
      modifies this
      ensures View() == Register(old(View()), id)
    {
      invocations := invocations[id := |remotes|];
      remotes := remotes + [Remote(id, 0, [], None)];
    }

    method Abandon(id: InvocationId, failure: Option<Failure>)
      requires ClientOk(View())
      modifies this
      ensures View() == GiveUp(old(View()), id, failure)
    {
      if id in invocations {
        var h := invocations[id];
        invocations := invocations - {id};
        if failure.Some? {
          CompleteRemote(h, Err(failure.value));
        }
      }
    }
  }

  lemma RouteKeepsOk(c: Client, e: Envelope, send: SendOutcome)
    requires ClientOk(c)
    ensures ClientOk(Route(c, e, send))
  {
    var c' := Route(c, e, send);
    forall id | id in c'.invocations
      ensures RegisteredOk(c', id)
    {
      assert RegisteredOk(c, id);
      assert Known(c, e.invocation) ==> RegisteredOk(c, e.invocation);
    }
  }

  lemma GiveUpKeepsOk(c: Client, id: InvocationId, failure: Option<Failure>)
    requires ClientOk(c)
    ensures ClientOk(GiveUp(c, id, failure))
  {
    var c' := GiveUp(c, id, failure);
    forall other | other in c'.invocations
      ensures RegisteredOk(c', other)
    {
      assert RegisteredOk(c, other);
      assert Known(c, id) ==> RegisteredOk(c, id);
    }
  }

  lemma RegisterKeepsOk(c: Client, id: InvocationId)
    requires ClientOk(c)
    ensures ClientOk(Register(c, id))
  {
    var c' := Register(c, id);
    forall other | other in c'.invocations
      ensures RegisteredOk(c', other)
    {
      assert other != id ==> RegisteredOk(c, other);
    }
  }

  /** No step touches an invocation that has completed: neither its outcome nor its events. */
  lemma CompletedIsFrozen(c: Client, h: nat, e: Envelope, send: SendOutcome, id: InvocationId, failure: Option<Failure>)
    requires ClientOk(c) && h < |c.remotes| && c.remotes[h].completion.Some?
    ensures h < |Route(c, e, send).remotes| && Route(c, e, send).remotes[h] == c.remotes[h]
    ensures h < |GiveUp(c, id, failure).remotes| && GiveUp(c, id, failure).remotes[h] == c.remotes[h]
    ensures h < |Register(c, id).remotes| && Register(c, id).remotes[h] == c.remotes[h]
  {
    assert Known(c, e.invocation) ==> RegisteredOk(c, e.invocation);
    assert Known(c, id) ==> RegisteredOk(c, id);
  }
}
