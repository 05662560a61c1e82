/**
 * The USB gateway's registry of sensor nodes, keyed by MAC: each entry
 * records when the node was last heard from, how many messages it sent,
 * its last RSSI and an online flag that a periodic sweep clears after
 * NODE_TIMEOUT_SEC seconds of silence. Times are `millis()` values, passed
 * in as `now`; elapsed times use `uint32_t` subtraction.
 */
module GatewayRegistry {
  import opened Wrappers
  import opened MachineInt

  const NODE_TIMEOUT_SEC := 300

  datatype NodeInfo = NodeInfo(nodeMac: string, nodeName: string, sensorId: string, elementoId: string,
                               lastSeen: nat, messageCount: nat, lastRSSI: int, online: bool)

  /** The entry registerNode creates: online, seen now, no messages, RSSI 0. */
  function Registered(mac: string, name: string, sensorId: string, elementoId: string, now: nat): NodeInfo
  {
    NodeInfo(mac, name, sensorId, elementoId, now, 0, 0, true)
  }

  /** Whole seconds since `lastSeen`, as `(millis() - lastSeen) / 1000` on `uint32_t`. */
  function ElapsedSec(now: nat, lastSeen: nat): nat
    requires now < U32 && lastSeen < U32
  {
    Sub32(now, lastSeen) / 1000
  }

  /** Each entry is filed under its own MAC and its counters fit a `uint32_t`. */
  predicate ValidNodes(nodes: map<string, NodeInfo>)
  {
    forall k :: k in nodes ==> nodes[k].nodeMac == k && nodes[k].lastSeen < U32 && nodes[k].messageCount < U32
  }

  /** One entry as checkOfflineNodes leaves it: the flag is cleared once the node is past the timeout. */
  function Swept(info: NodeInfo, now: nat): NodeInfo
    requires now < U32 && info.lastSeen < U32
  {
    if ElapsedSec(now, info.lastSeen) > NODE_TIMEOUT_SEC && info.online then info.(online := false) else info
  }

  /** The registry after a sweep at `now`. */
  function SweptAll(nodes: map<string, NodeInfo>, now: nat): (r: map<string, NodeInfo>)
    requires now < U32 && ValidNodes(nodes)
  {
    map k | k in nodes :: Swept(nodes[k], now)
  }

  /**
   * A sweep keeps every entry and every field but the flag, only ever
   * clears flags, clears exactly those of nodes silent for more than the
   * timeout, and leaves a registry whose flagged nodes are all within it.
   */
  lemma SweepOnlyClears(nodes: map<string, NodeInfo>, now: nat)
    requires now < U32 && ValidNodes(nodes)
    ensures var r := SweptAll(nodes, now);
      r.Keys == nodes.Keys && ValidNodes(r) &&
      (forall k :: k in r ==> r[k].(online := nodes[k].online) == nodes[k]) &&
      (forall k :: k in r ==> (r[k].online <==> nodes[k].online && ElapsedSec(now, nodes[k].lastSeen) <= NODE_TIMEOUT_SEC)) &&
      (forall k :: k in r && r[k].online ==> ElapsedSec(now, r[k].lastSeen) <= NODE_TIMEOUT_SEC)
  {
  }

  /** The MACs of the entries whose online flag is set. */
  function OnlineKeys(nodes: map<string, NodeInfo>): set<string>
  {
    set k | k in nodes && nodes[k].online
  }

  /** The flagged entries among `keys`. */
  function OnlineAmong(nodes: map<string, NodeInfo>, keys: set<string>): set<string>
  {
    set k | k in keys && k in nodes && nodes[k].online
  }

  /** Adding one more key adds it to the flagged ones exactly when its flag is set. */
  lemma OnlineAmongGrows(nodes: map<string, NodeInfo>, keys: set<string>, k: string)
    requires k in nodes && k !in keys
    ensures |OnlineAmong(nodes, keys + {k})| == |OnlineAmong(nodes, keys)| + (if nodes[k].online then 1 else 0)
    ensures |keys + {k}| == |keys| + 1
  {
    if nodes[k].online {
      assert OnlineAmong(nodes, keys + {k}) == OnlineAmong(nodes, keys) + {k};
    } else {
      assert OnlineAmong(nodes, keys + {k}) == OnlineAmong(nodes, keys);
    }
  }

  /**
   * isNodeOnline and the flag can disagree: a node last heard exactly 300
   * seconds ago is no longer online by isNodeOnline's `<`, but the sweep's
   * `>` leaves its flag set.
   */
  lemma QueryAndFlagDisagreeAtTimeout(info: NodeInfo)
    requires info.lastSeen == 1000 && info.online
    ensures ElapsedSec(301000, info.lastSeen) == NODE_TIMEOUT_SEC
    ensures Swept(info, 301000).online
  {
  }

  class NodeRegistry {
    var nodes: map<string, NodeInfo>

    predicate Valid()
      reads this`nodes
    {
      ValidNodes(nodes)
    }

    constructor ()
      ensures Valid() && nodes == map[]
    {
      nodes := map[];
    }

    /** registerNode: the entry for `mac` is created or overwritten, online and with no messages. */
    method RegisterNode(mac: string, name: string, sensorId: string, elementoId: string, now: nat)
      requires Valid() && now < U32
      modifies this`nodes
      ensures Valid()
      ensures nodes == old(nodes)[mac := Registered(mac, name, sensorId, elementoId, now)]
    {
      nodes := nodes[mac := NodeInfo(mac, name, sensorId, elementoId, now, 0, 0, true)];
    }

    /**
     * updateLastSeen: a known node is marked online, seen now with this
     * RSSI, and its message count goes up by one; an unknown node is
     * registered as "unknown", and the RSSI it reported is not kept.
     * Every other entry is unchanged.
     */
    method UpdateLastSeen(mac: string, rssi: int, now: nat)
      requires Valid() && now < U32
      modifies this`nodes
      ensures Valid()
      ensures mac in nodes && nodes[mac].online && nodes[mac].lastSeen == now
      ensures mac in old(nodes) ==> nodes == old(nodes)[mac := old(nodes)[mac].(
        lastSeen := now, lastRSSI := rssi, messageCount := Inc32(old(nodes)[mac].messageCount), online := true)]
      ensures mac !in old(nodes) ==> nodes == old(nodes)[mac := Registered(mac, "unknown", "unknown", "unknown", now)]
    {
      if mac in nodes {
        var info := nodes[mac];
        nodes := nodes[mac := info.(lastSeen := now, lastRSSI := rssi, messageCount := Inc32(info.messageCount),
                                    online := true)];
      } else {
        RegisterNode(mac, "unknown", "unknown", "unknown", now);
      }
    }

    /**
     * isNodeOnline: the node is known and was heard from less than
     * NODE_TIMEOUT_SEC seconds ago, whatever its flag says.
     */
    function IsNodeOnline(mac: string, now: nat): (b: bool)
      requires Valid() && now < U32
      reads this`nodes
      ensures b ==> mac in nodes
      ensures mac in nodes ==> (b <==> Sub32(now, nodes[mac].lastSeen) < NODE_TIMEOUT_SEC * 1000)
    {
      mac in nodes && ElapsedSec(now, nodes[mac].lastSeen) < NODE_TIMEOUT_SEC
    }

    /** getNode: the entry, or nothing for an unknown MAC. */
    function GetNode(mac: string): (r: Option<NodeInfo>)
      reads this`nodes
      ensures r.Some? <==> mac in nodes
      ensures r.Some? ==> r.value == nodes[mac]
    {
      if mac in nodes then Some(nodes[mac]) else None
    }

    /** checkOfflineNodes: one pass over the entries, clearing the flags of silent nodes. */
    method CheckOfflineNodes(now: nat)
      requires Valid() && now < U32
      modifies this`nodes
      ensures Valid()
      ensures nodes == SweptAll(old(nodes), now)
    {
      var pending := nodes.Keys;
      ghost var done: set<string> := {};
      while pending != {}
        invariant Valid()
        invariant pending !! done && pending + done == old(nodes).Keys == nodes.Keys
        invariant forall k :: k in pending ==> nodes[k] == old(nodes)[k]
        invariant forall k :: k in done ==> nodes[k] == Swept(old(nodes)[k], now)
        decreases pending
      {
        var k :| k in pending;
        var info := nodes[k];
        if ElapsedSec(now, info.lastSeen) > NODE_TIMEOUT_SEC && info.online {
          nodes := nodes[k := info.(online := false)];
        }
        pending := pending - {k};
        done := done + {k};
      }
    }

    /** getOnlineCount: the number of flagged entries, never more than getTotalCount. */
    method GetOnlineCount() returns (count: nat)
      ensures count == |OnlineKeys(nodes)|
      ensures count <= |nodes|
    {
      count := 0;
      var pending := nodes.Keys;
      ghost var done: set<string> := {};
      while pending != {}
        invariant pending !! done && pending + done == nodes.Keys
        invariant count == |OnlineAmong(nodes, done)| && count <= |done|
        decreases pending
      {
        var k :| k in pending;
        OnlineAmongGrows(nodes, done, k);
        if nodes[k].online {
          count := count + 1;
        }
        pending := pending - {k};
        done := done + {k};
      }
      assert OnlineAmong(nodes, done) == OnlineKeys(nodes);
    }

    /** getTotalCount */
    function GetTotalCount(): (n: nat)
      reads this`nodes
      ensures n == |nodes.Keys|
    {
      |nodes|
    }
  }

  /**
   * A node that has just reported is online by isNodeOnline and by its
   * flag, and the next sweep at the same time leaves it so.
   */
  lemma ReportedNodeOnline(nodes: map<string, NodeInfo>, mac: string, now: nat)
    requires now < U32 && ValidNodes(nodes) && mac in nodes && nodes[mac].lastSeen == now && nodes[mac].online
    ensures ElapsedSec(now, nodes[mac].lastSeen) < NODE_TIMEOUT_SEC
    ensures SweptAll(nodes, now)[mac].online
  {
  }
}
