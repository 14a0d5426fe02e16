/** The outgoing packet queue and its send policy (bridge_tx_queue.c). */
module TxQueue {
  import opened Common
  import opened Runtime
  import opened Trace

  /** `waitStart` is 0 while the packet is not held back by a busy radio. */
  datatype Item = Item(packet: Packet, queuedMs: int, waitStart: int)

  /** A slot outside the queue; nothing reads it. */
  const UNUSED := Item([0], 0, 0)

  predicate IsExpired(cfg: Config, item: Item, now: int) {
    cfg.ttlMs > 0 && now - item.queuedMs >= cfg.ttlMs
  }

  /** bridge_tx_head_decision: the policy and the item it leaves behind. `busy` is false without CONF state. */
  function Decide(cfg: Config, item: Item, busy: bool, now: int): (Policy, Item) {
    if IsExpired(cfg, item, now) then (Drop, item)
    else if busy then
      var start := if item.waitStart == 0 then now else item.waitStart;
      (if now - start >= cfg.busyTimeoutMs then Drop else Wait, item.(waitStart := start))
    else (Send, item.(waitStart := 0))
  }

  // ---------- the ring buffer and the queue on record ----------

  /** A recorded time as the source stores it. */
  function Stamp(held: Option<int>): int {
    if held.Some? then held.value else 0
  }

  /** The items of a recorded queue, whose head is held back since `held`. */
  function Items(queue: seq<Entry>, held: Option<int>): (r: seq<Item>)
    ensures |r| == |queue|
  {
    seq(|queue|, i requires 0 <= i < |queue| => Item(queue[i].packet, queue[i].at, if i == 0 then Stamp(held) else 0))
  }

  lemma ItemsHead(queue: seq<Entry>, held: Option<int>)
    requires queue != []
    ensures Items(queue, held)[0] == Item(queue[0].packet, queue[0].at, Stamp(held))
    ensures Items(queue, held)[1..] == Items(queue[1..], None)
  {
  }

  lemma ItemsSnoc(queue: seq<Entry>, held: Option<int>, e: Entry)
    requires queue == [] ==> held.None?
    ensures Items(queue + [e], held) == Items(queue, held) + [Item(e.packet, e.at, 0)]
  {
  }

  /** The decision computed from the ring buffer is the one that is due by the record, and leaves the waiting
      time that the record has. */
  lemma DecisionIsDue(cfg: Config, w: World, now: int)
    requires w.queue != [] && Coherent(w) && now > 0
    ensures var (d, item) := Decide(cfg, Items(w.queue, w.held)[0], RadioBusy(w), now);
            && d == Due(cfg, w, now)
            && item.packet == w.queue[0].packet && item.queuedMs == w.queue[0].at
            && (d == Wait ==> item.waitStart == HeldSince(w, now))
            && (d == Send ==> item.waitStart == 0)
  {
    ItemsHead(w.queue, w.held);
  }

  class Queue {
    const items: array<Item>
    var head: nat
    var count: nat

    ghost predicate Valid()
      reads this
    {
      items.Length == QUEUE_MAX && head < QUEUE_MAX && count <= QUEUE_MAX
    }

    /** Where the `i`-th queued item sits. */
    function Slot(i: nat): (k: nat)
      requires Valid() && i <= QUEUE_MAX
      reads this
      ensures k < QUEUE_MAX
    {
      if head + i < QUEUE_MAX then head + i else head + i - QUEUE_MAX
    }

    ghost function Contents(): (s: seq<Item>)
      requires Valid()
      reads this, items
      ensures |s| == count
    {
      seq(count, i requires 0 <= i < count && Valid() reads this, items => items[Slot(i)])
    }

    /** The ring buffer holds a recorded queue, whose head is held back since `held`. */
    ghost predicate Holds(entries: seq<Entry>, held: Option<int>)
      reads this, items
    {
      Valid() && Contents() == Items(entries, held)
    }

    /** The same behind the head, whose waiting time is open. */
    ghost predicate HoldsBehind(entries: seq<Entry>)
      reads this, items
    {
      Valid() && entries != [] && |Contents()| == |entries| && Contents()[1..] == Items(entries[1..], None)
    }

    constructor ()
      ensures Valid() && fresh(items) && Contents() == []
    {
      items := new Item[QUEUE_MAX](_ => UNUSED);
      head, count := 0, 0;
    }

    /** bridge_tx_queue_head. */
    method Head() returns (r: Option<Item>)
      requires Valid()
      ensures r == if Contents() == [] then None else Some(Contents()[0])
    {
      if count == 0 {
        return None;
      }
      return Some(items[head]);
    }

    /** bridge_tx_queue_pop. */
    method Pop()
      requires Valid()
      modifies this, items
      ensures Valid()
      ensures Contents() == if old(Contents()) == [] then [] else old(Contents())[1..]
    {
      if count == 0 {
        return;
      }
      items[head] := UNUSED;
      head := (head + 1) % QUEUE_MAX;
      count := count - 1;
    }

    /** bridge_tx_queue_push: the clock is read once there is room. */
    method Push(env: Env, packet: seq<byte>) returns (code: Code)
      requires Valid() && env.Valid()
      modifies this, items, env`log, env`w, env`clock, env`ticks
      ensures Valid() && env.Valid()
      ensures code == if packet == [] || |packet| > LORAHAM_TX_MAX then ErrFormat
                      else if |old(Contents())| >= env.cfg.QueueLimit() then ErrNoSpace
                      else Ok
      ensures code == Ok ==>
                && env.clock >= old(env.clock) && env.w == Ticked(old(env.w), env.clock)
                && Contents() == old(Contents()) + [Item(packet, env.clock, 0)]
      ensures code != Ok ==> env.w == old(env.w) && env.clock == old(env.clock) && Contents() == old(Contents())
    {
      if packet == [] || |packet| > LORAHAM_TX_MAX {
        return ErrFormat;
      }
      if count >= env.cfg.QueueLimit() {
        return ErrNoSpace;
      }
      var now := env.Now();
      items[(head + count) % QUEUE_MAX] := Item(packet, now, 0);
      count := count + 1;
      return Ok;
    }

    /** bridge_tx_head_decision on the queue head, whose waiting time it updates in place. */
    method DecideHead(cfg: Config, busy: bool, now: int) returns (d: Policy)
      requires Valid() && Contents() != []
      modifies items
      ensures Valid()
      ensures (d, Contents()[0]) == Decide(cfg, old(Contents())[0], busy, now)
      ensures Contents()[1..] == old(Contents())[1..]
    {
      if cfg.ttlMs > 0 && now - items[head].queuedMs >= cfg.ttlMs {
        return Drop;
      }
      if busy {
        if items[head].waitStart == 0 {
          items[head] := items[head].(waitStart := now);
        }
        if now - items[head].waitStart >= cfg.busyTimeoutMs {
          return Drop;
        }
        return Wait;
      }
      items[head] := items[head].(waitStart := 0);
      return Send;
    }
  }
}
