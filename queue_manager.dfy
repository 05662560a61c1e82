/**
 * The USB gateway's retry queue of telemetry messages: a bounded vector
 * that drops its front message when full, puts priority messages at the
 * front and others at the back, and requeues a failed message at the back
 * until it has been tried RETRY_ATTEMPTS times. The counters are
 * `uint32_t` and wrap; a message's retry count is a `uint8_t`.
 */
module GatewayQueue {
  import opened Wrappers
  import opened MachineInt

  const QUEUE_SIZE := 50
  const RETRY_ATTEMPTS := 3

  /** A queued message; `timestamp` is the `millis()` of its last (re)queueing. */
  datatype TelemetryMessage = TelemetryMessage(nodeMac: string, payload: string, timestamp: nat,
                                               retryCount: nat, priority: bool)

  /** The message enqueue builds: stamped now, not yet retried. */
  function NewMessage(nodeMac: string, payload: string, priority: bool, now: nat): TelemetryMessage
  {
    TelemetryMessage(nodeMac, payload, now, 0, priority)
  }

  /** Would enqueue find the queue full? */
  predicate Full(q: seq<TelemetryMessage>, maxSize: nat)
  {
    |q| >= maxSize
  }

  /** The messages an enqueue keeps: all but the front one when the queue is full. */
  function Kept(q: seq<TelemetryMessage>, maxSize: nat): seq<TelemetryMessage>
    requires q != [] || maxSize > 0
  {
    if Full(q, maxSize) then q[1..] else q
  }

  /** The queue after an enqueue of `m`. */
  function Enqueued(q: seq<TelemetryMessage>, maxSize: nat, m: TelemetryMessage): seq<TelemetryMessage>
    requires q != [] || maxSize > 0
  {
    var kept := Kept(q, maxSize);
    if m.priority then [m] + kept else kept + [m]
  }

  /**
   * An enqueue grows the queue by one when it is not full and keeps its
   * size when it is, so it never takes the queue past the larger of its
   * size and the capacity. Its contents are the old ones, less the front
   * message when full, plus `m`: at the front when prioritised, at the
   * back otherwise, the rest in their old order.
   */
  lemma EnqueueShape(q: seq<TelemetryMessage>, maxSize: nat, m: TelemetryMessage)
    requires q != [] || maxSize > 0
    ensures var r := Enqueued(q, maxSize, m);
      |r| == (if Full(q, maxSize) then |q| else |q| + 1) &&
      (|q| <= maxSize ==> |r| <= maxSize) &&
      multiset(r) == (if Full(q, maxSize) then multiset(q) - multiset{q[0]} else multiset(q)) + multiset{m} &&
      (m.priority ==> r[0] == m && r[1..] == Kept(q, maxSize)) &&
      (!m.priority ==> r[|r| - 1] == m && r[..|r| - 1] == Kept(q, maxSize))
  {
    var kept := Kept(q, maxSize);
    KeptMultiset(q, maxSize);
    if m.priority {
      assert ([m] + kept)[1..] == kept;
    } else {
      assert (kept + [m])[..|kept|] == kept;
    }
  }

  /** A full queue loses its front message, and only that one. */
  lemma KeptMultiset(q: seq<TelemetryMessage>, maxSize: nat)
    requires q != [] || maxSize > 0
    ensures multiset(Kept(q, maxSize)) == if Full(q, maxSize) then multiset(q) - multiset{q[0]} else multiset(q)
  {
    if Full(q, maxSize) {
      assert q == [q[0]] + q[1..];
      assert multiset(q) == multiset{q[0]} + multiset(q[1..]);
    }
  }

  /**
   * Dropping the front is not dropping the oldest: with room for two, a
   * priority message sent after a normal one is queued in front of it, and
   * the next enqueue drops the newer priority message and keeps the older
   * normal one.
   */
  lemma FullQueueDropsFrontNotOldest()
    ensures var older := NewMessage("AA:BB:CC:DD:EE:01", "a", false, 1);
      var urgent := NewMessage("AA:BB:CC:DD:EE:02", "p", true, 2);
      var newer := NewMessage("AA:BB:CC:DD:EE:03", "b", false, 3);
      var q := Enqueued(Enqueued([], 2, older), 2, urgent);
      q == [urgent, older] && Enqueued(q, 2, newer) == [older, newer] &&
      urgent.timestamp > older.timestamp
  {
  }

  /** The message incrementRetry hands back: one more try, stamped now. */
  function Retried(m: TelemetryMessage, now: nat): TelemetryMessage
    requires m.retryCount < U8
  {
    m.(retryCount := Inc8(m.retryCount), timestamp := now)
  }

  /** Does incrementRetry put the message back? */
  predicate Requeued(m: TelemetryMessage, now: nat)
    requires m.retryCount < U8
  {
    Retried(m, now).retryCount < RETRY_ATTEMPTS
  }

  /**
   * A message taken from a valid queue (so tried fewer than three times) is
   * put back iff it has now been tried fewer than three times, and its
   * retry count goes up by exactly one without wrapping.
   */
  lemma RetryLimit(m: TelemetryMessage, now: nat)
    requires m.retryCount < RETRY_ATTEMPTS
    ensures Retried(m, now).retryCount == m.retryCount + 1
    ensures Requeued(m, now) <==> m.retryCount + 1 < RETRY_ATTEMPTS
  {
  }

  /**
   * A freshly enqueued message that fails every send is put back exactly
   * twice and dropped on its third failure.
   */
  lemma ThreeTriesThenDropped(m: TelemetryMessage, t1: nat, t2: nat, t3: nat)
    requires m.retryCount == 0
    ensures Requeued(m, t1)
    ensures Requeued(Retried(m, t1), t2)
    ensures !Requeued(Retried(Retried(m, t1), t2), t3)
  {
  }

  /** Every queued message has been tried fewer than RETRY_ATTEMPTS times. */
  predicate UnderRetryLimit(q: seq<TelemetryMessage>)
  {
    forall i :: 0 <= i < |q| ==> q[i].retryCount < RETRY_ATTEMPTS
  }

  class QueueManager {
    var queue: seq<TelemetryMessage>
    const maxSize: nat
    var messagesReceived: nat
    var messagesSent: nat
    var messagesDropped: nat

    /** The counters fit their `uint32_t` and no queued message is past its last try. */
    predicate Valid()
      reads this`queue, this`messagesReceived, this`messagesSent, this`messagesDropped
    {
      messagesReceived < U32 && messagesSent < U32 && messagesDropped < U32 && UnderRetryLimit(queue)
    }

    /** `QueueManager(size)`: an empty queue of that capacity, all counters zero. */
    constructor (size: nat)
      ensures Valid()
      ensures queue == [] && maxSize == size
      ensures messagesReceived == 0 && messagesSent == 0 && messagesDropped == 0
    {
      queue := [];
      maxSize := size;
      messagesReceived := 0;
      messagesSent := 0;
      messagesDropped := 0;
    }

    /**
     * enqueue: on a full queue the front message is erased and counted as
     * dropped; the new message, not yet retried, goes to the front when
     * prioritised and to the back otherwise; the received count goes up
     * and the result is always true. Erasing the front of an empty vector
     * is undefined, so a capacity of zero needs a non-empty queue.
     */
    method Enqueue(nodeMac: string, payload: string, priority: bool, now: nat) returns (ok: bool)
      requires Valid()
      requires maxSize > 0 || queue != []
      modifies this`queue, this`messagesReceived, this`messagesDropped
      ensures Valid() && ok
      ensures queue == Enqueued(old(queue), maxSize, NewMessage(nodeMac, payload, priority, now))
      ensures messagesDropped == if Full(old(queue), maxSize) then Inc32(old(messagesDropped)) else old(messagesDropped)
      ensures messagesReceived == Inc32(old(messagesReceived))
    {
      if |queue| >= maxSize {
        queue := queue[1..];
        messagesDropped := Inc32(messagesDropped);
      }
      var msg := TelemetryMessage(nodeMac, payload, now, 0, priority);
      if priority {
        queue := [msg] + queue;
      } else {
        queue := queue + [msg];
      }
      messagesReceived := Inc32(messagesReceived);
      ok := true;
    }

    /** dequeue: nothing on an empty queue and no change; otherwise the front message, removed. */
    method Dequeue() returns (r: Option<TelemetryMessage>)
      requires Valid()
      modifies this`queue
      ensures Valid()
      ensures old(queue) == [] ==> r.None? && queue == []
      ensures old(queue) != [] ==> r == Some(old(queue)[0]) && queue == old(queue)[1..]
      ensures r.Some? ==> r.value.retryCount < RETRY_ATTEMPTS
    {
      if queue == [] {
        return None;
      }
      r := Some(queue[0]);
      queue := queue[1..];
    }

    /**
     * incrementRetry: the message is counted as tried once more and
     * restamped; it goes back to the back of the queue while it has been
     * tried fewer than RETRY_ATTEMPTS times, whatever the queue's size, and
     * is dropped and counted otherwise. The updated message is returned, as
     * the source updates its by-reference argument.
     */
    method IncrementRetry(msg: TelemetryMessage, now: nat) returns (updated: TelemetryMessage)
      requires Valid() && msg.retryCount < U8
      modifies this`queue, this`messagesDropped
      ensures Valid()
      ensures updated == Retried(msg, now)
      ensures Requeued(msg, now) ==> queue == old(queue) + [updated] && messagesDropped == old(messagesDropped)
      ensures !Requeued(msg, now) ==> queue == old(queue) && messagesDropped == Inc32(old(messagesDropped))
    {
      updated := msg.(retryCount := Inc8(msg.retryCount), timestamp := now);
      if updated.retryCount < RETRY_ATTEMPTS {
        queue := queue + [updated];
      } else {
        messagesDropped := Inc32(messagesDropped);
      }
    }

    /** clear: the queue is emptied; every counter is left as it was. */
    method Clear()
      requires Valid()
      modifies this`queue
      ensures Valid() && queue == []
    {
      queue := [];
    }

    /** incrementSent: the sent count goes up by one. */
    method IncrementSent()
      requires Valid()
      modifies this`messagesSent
      ensures Valid() && messagesSent == Inc32(old(messagesSent))
    {
      messagesSent := Inc32(messagesSent);
    }

    /**
     * processQueue's use of the queue: a message is dequeued and, when its
     * send fails, handed to incrementRetry; a successful send (by MQTT or
     * the HTTP fallback) counts it as sent. However full the queue was,
     * this never leaves more messages than before, nor more than the
     * capacity when it started within it.
     */
    method ProcessOne(sent: bool, now: nat) returns (taken: Option<TelemetryMessage>)
      requires Valid()
      modifies this`queue, this`messagesDropped, this`messagesSent
      ensures Valid()
      ensures messagesSent == if taken.Some? && sent then Inc32(old(messagesSent)) else old(messagesSent)
      ensures |queue| <= |old(queue)|
      ensures |old(queue)| <= maxSize ==> |queue| <= maxSize
      ensures old(queue) == [] ==> taken.None? && queue == []
      ensures old(queue) != [] ==> taken == Some(old(queue)[0])
      ensures taken.Some? && sent ==> queue == old(queue)[1..]
      ensures taken.Some? && !sent ==>
        (Requeued(taken.value, now) ==>
           queue == old(queue)[1..] + [Retried(taken.value, now)] && messagesDropped == old(messagesDropped)) &&
        (!Requeued(taken.value, now) ==>
           queue == old(queue)[1..] && messagesDropped == Inc32(old(messagesDropped)))
      ensures taken.None? || sent ==> messagesDropped == old(messagesDropped)
    {
      taken := Dequeue();
      if taken.Some? && sent {
        IncrementSent();
      } else if taken.Some? {
        var _ := IncrementRetry(taken.value, now);
      }
    }
  }

  /**
   * incrementRetry does not check the capacity: a message that failed
   * while the queue was full grows it past maxSize.
   */
  lemma RetryIgnoresCapacity(q: seq<TelemetryMessage>, maxSize: nat, m: TelemetryMessage, now: nat)
    requires |q| == maxSize && m.retryCount == 0
    ensures Requeued(m, now) && |q + [Retried(m, now)]| == maxSize + 1
  {
  }
}
