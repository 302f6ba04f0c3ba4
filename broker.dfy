/** An abstract view of the message broker as one relay stage sees it: the
    messages leased to the stage at its source queue, the destination queue it
    forwards to, and how the broker answers each settlement or send. */
module Broker {

  type QueueName = string

  /** A message payload; the handler reads it as text. */
  type Body = string

  /** An inbound message as the processor hands it to the handler. The lock
      token is broker-owned delivery metadata the stage never alters. */
  datatype Received = Received(lockToken: nat, body: Body)

  /** An outbound message built by the handler: the payload only, with no
      partition key or other metadata copied from the inbound message. */
  datatype Outbound = Outbound(body: Body)

  /** The message forwarded for an inbound one: a fresh message with the same body. */
  function Forward(m: Received): Outbound
  {
    Outbound(m.body)
  }

  /** Broker state around one hop: messages peek-locked by this stage at the
      source queue, and the contents of the destination queue. */
  datatype Hop = Hop(leased: multiset<Received>, destination: seq<Outbound>)

  /** How the broker answers the operations a handler may attempt: completing
      the inbound message, sending the outbound one, and committing the
      transaction scope. An answer of `false` is an exception at that step: at
      one of the two awaits, or, for the commit, when the scope is disposed. */
  datatype Replies = Replies(completeOk: bool, sendOk: bool, commitOk: bool)

  datatype Step = Complete | Send | Commit

  /** How one handler invocation ends: the message settled, or an exception
      at the named step. After a failure, `leased` is the broker state as the
      handler leaves it; the processor's abandonment of the unsettled message
      happens outside this model. */
  datatype Outcome = Settled | Failed(step: Step)

  /** Effects enlisted in a transaction scope and not yet applied. */
  datatype Scope = Scope(completed: multiset<Received>, sent: seq<Outbound>)

  /** Committing a scope applies every enlisted effect at once. */
  function Apply(hop: Hop, scope: Scope): Hop
  {
    Hop(hop.leased - scope.completed, hop.destination + scope.sent)
  }

  /** The settlement part of the message handler. A stage with a sender
      completes the inbound message and sends its copy inside one transaction
      scope, committed only after both awaits succeed; any exception disposes
      the scope uncommitted, so neither effect is applied. A stage without a
      sender only completes the message, with no scope. */
  function Settle(hop: Hop, m: Received, hasSender: bool, replies: Replies): (result: (Outcome, Hop))
    requires m in hop.leased
    ensures result.0.Settled? <==>
      replies.completeOk && (hasSender ==> replies.sendOk && replies.commitOk)
    ensures !replies.completeOk ==> result.0 == Failed(Complete)
    ensures hasSender && replies.completeOk && !replies.sendOk ==> result.0 == Failed(Send)
    ensures hasSender && replies.completeOk && replies.sendOk && !replies.commitOk ==>
      result.0 == Failed(Commit)
    ensures result.0.Failed? ==> result.1 == hop && m in result.1.leased
    ensures result.0.Settled? ==> result.1.leased == hop.leased - multiset{m}
    ensures hasSender && result.0.Settled? ==> result.1.destination == hop.destination + [Forward(m)]
    ensures !hasSender ==> result.1.destination == hop.destination
  {
    if hasSender then
      var scope := Scope(multiset{}, []);
      if !replies.completeOk then (Failed(Complete), hop)
      else
        var scope := Scope(scope.completed + multiset{m}, scope.sent);
        if !replies.sendOk then (Failed(Send), hop)
        else
          var scope := Scope(scope.completed, scope.sent + [Forward(m)]);
          if !replies.commitOk then (Failed(Commit), hop)
          else (Settled, Apply(hop, scope))
    else if !replies.completeOk then (Failed(Complete), hop)
    else (Settled, Apply(hop, Scope(multiset{m}, [])))
  }

  /** The number of copies of the message held by the hop: leased at the
      source, or already forwarded to the destination. */
  function Copies(hop: Hop, m: Received): nat
  {
    hop.leased[m] + multiset(hop.destination)[Forward(m)]
  }

  /** A hop with a sender neither loses nor duplicates, whatever the broker
      answers: the messages leased at the source plus those waiting at the
      destination are as many after the attempt as before, and so are the
      copies of the handled message among them. */
  lemma ForwardingConservesMessages(hop: Hop, m: Received, replies: Replies)
    requires m in hop.leased
    ensures var after := Settle(hop, m, true, replies).1;
      |after.leased| + |after.destination| == |hop.leased| + |hop.destination| &&
      Copies(after, m) == Copies(hop, m)
  {
    var after := Settle(hop, m, true, replies).1;
    if after != hop {
      assert hop.leased == after.leased + multiset{m};
      assert multiset(after.destination) == multiset(hop.destination) + multiset{Forward(m)};
    }
  }

  /** A stage without a sender removes exactly one copy of the message on
      success and nothing on failure; it never adds to the destination. */
  lemma TerminalRemovesOneCopy(hop: Hop, m: Received, replies: Replies)
    requires m in hop.leased
    ensures var (outcome, after) := Settle(hop, m, false, replies);
      |after.leased| == |hop.leased| - (if outcome.Settled? then 1 else 0) &&
      after.destination == hop.destination
  {
    var (outcome, after) := Settle(hop, m, false, replies);
    if outcome.Settled? {
      assert hop.leased == after.leased + multiset{m};
    }
  }
}
