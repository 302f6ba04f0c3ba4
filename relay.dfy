/** One relay stage of the pipeline: it receives from a source queue, forwards
    to a destination queue when it has one, and keeps the stage's latency
    window and throughput counter. */
module Relay {
  import opened Wrappers
  import opened Metrics
  import opened Broker

  class Consumer {
    /** The name under which the stage's broker client was looked up in the
        client factory: the source queue's name. */
    var client: Option<QueueName>
    /** The source queue the processor receives from. */
    var queueName: Option<QueueName>
    /** The destination queue the sender is bound to; absent on the last stage. */
    var sender: Option<QueueName>
    /** Latency of the latest settled messages, oldest first. */
    var commitTimes: seq<Ticks>
    /** Messages settled since the counter was last read. */
    var messageProcessedCount: nat

    /** Every sample the stage has recorded, oldest first. */
    ghost var history: seq<Ticks>
    /** How many settled messages earlier reads of the counter have returned. */
    ghost var reported: nat

    /** The window is the latest `Capacity` samples of all settled messages,
        and the counter holds exactly the settled messages not yet reported. */
    ghost predicate Valid()
      reads this
    {
      |commitTimes| <= Capacity &&
      commitTimes == Latest(history) &&
      reported + messageProcessedCount == |history|
    }

    /** A stage without a sender is the last one of the chain. */
    predicate IsTerminal()
      reads this
    {
      sender.None?
    }

    constructor ()
      ensures Valid()
      ensures client.None? && queueName.None? && sender.None?
      ensures commitTimes == [] && messageProcessedCount == 0
      ensures history == [] && reported == 0
    {
      client, queueName, sender := None, None, None;
      commitTimes, messageProcessedCount := [], 0;
      history, reported := [], 0;
    }

    /** Binds the stage to its queues. A sender is created only for a
        non-empty destination, so the stage is terminal exactly when the
        destination is empty. Creating and starting the processor is left to
        the broker client. */
    method Start(source: QueueName, destination: QueueName)
      requires Valid()
      modifies this
      ensures Valid()
      ensures client == Some(source) && queueName == Some(source)
      ensures sender == if destination == "" then None else Some(destination)
      ensures IsTerminal() <==> destination == ""
      ensures commitTimes == old(commitTimes) && messageProcessedCount == old(messageProcessedCount)
      ensures history == old(history) && reported == old(reported)
    {
      client := Some(source);
      queueName := Some(source);
      sender := if destination == "" then None else Some(destination);
    }

    /** The message handler. `hop` is the broker state before the attempt,
        `replies` how the broker answers each await, and `elapsed` the
        stopwatch reading when settlement finished. Only a settled message
        reaches the recording of its latency and the counter increment; a
        failed attempt changes neither. */
    method ProcessMessage(m: Received, hop: Hop, replies: Replies, elapsed: Ticks)
      returns (outcome: Outcome, after: Hop)
      requires Valid()
      requires m in hop.leased
      modifies this
      ensures Valid()
      ensures (outcome, after) == Settle(hop, m, !IsTerminal(), replies)
      ensures client == old(client) && queueName == old(queueName) && sender == old(sender)
      ensures reported == old(reported)
      ensures outcome.Settled? ==>
        commitTimes == Record(old(commitTimes), elapsed) &&
        history == old(history) + [elapsed] &&
        messageProcessedCount == old(messageProcessedCount) + 1
      ensures outcome.Failed? ==>
        commitTimes == old(commitTimes) &&
        history == old(history) &&
        messageProcessedCount == old(messageProcessedCount)
    {
      var result := Settle(hop, m, sender.Some?, replies);
      outcome, after := result.0, result.1;
      if outcome.Failed? {
        return;
      }
      commitTimes := commitTimes + [elapsed];
      if |commitTimes| > Capacity {
        commitTimes := commitTimes[1..];
      }
      RecordKeepsLatest(history, elapsed);
      history := history + [elapsed];
      messageProcessedCount := messageProcessedCount + 1;
    }

    /** Reads and resets the throughput counter: the result is the number of
        messages settled since the previous read. */
    method GetMessagesProcessed() returns (n: nat)
      requires Valid()
      modifies this
      ensures Valid()
      ensures n == old(messageProcessedCount) && messageProcessedCount == 0
      ensures n == |history| - old(reported) && reported == |history|
      ensures commitTimes == old(commitTimes) && history == old(history)
      ensures client == old(client) && queueName == old(queueName) && sender == old(sender)
    {
      n := messageProcessedCount;
      messageProcessedCount := 0;
      reported := reported + n;
    }

    /** The largest latency in the window; 0 when the window is empty. */
    function GetMaxMessageTime(): (t: Ticks)
      reads this
      ensures commitTimes == [] ==> t == 0
      ensures commitTimes != [] ==> t in commitTimes
      ensures forall i :: 0 <= i < |commitTimes| ==> commitTimes[i] <= t
    {
      MaxOf(commitTimes)
    }

    /** The mean latency over the window, rounded to whole ticks; 0 when the
        window is empty. */
    function GetAverageMessageTime(): (t: Ticks)
      reads this
      ensures commitTimes == [] ==> t == 0
      ensures commitTimes != [] ==> MinOf(commitTimes) <= t <= MaxOf(commitTimes)
      ensures commitTimes != [] ==>
        2 * (Sum(commitTimes) - |commitTimes| * t) <= |commitTimes| &&
        2 * (|commitTimes| * t - Sum(commitTimes)) <= |commitTimes|
    {
      Average(commitTimes)
    }
  }

  /** Two reads of the counter with no message settled in between give the
      count, then zero. */
  method ReadCounterTwice(c: Consumer) returns (first: nat, second: nat)
    requires c.Valid()
    modifies c
    ensures c.Valid()
    ensures first == old(c.messageProcessedCount) && second == 0
  {
    first := c.GetMessagesProcessed();
    second := c.GetMessagesProcessed();
  }

  /** Settling a message and then reading the counter: after a reset, one
      successful message reads as exactly one. */
  method SettleThenRead(c: Consumer, m: Received, hop: Hop, replies: Replies, elapsed: Ticks)
    returns (outcome: Outcome, after: Hop, count: nat)
    requires c.Valid() && c.messageProcessedCount == 0
    requires m in hop.leased
    modifies c
    ensures c.Valid()
    ensures count == if outcome.Settled? then 1 else 0
    ensures outcome.Failed? ==> after == hop
  {
    outcome, after := c.ProcessMessage(m, hop, replies, elapsed);
    count := c.GetMessagesProcessed();
  }
}
