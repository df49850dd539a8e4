/** The service that numbers the nodes. The tie-break of Connect needs distinct
    IDs; a lookup needs entries indexed by ID. */
module Sequencer {

  datatype NodeType = SERVER | CLIENT

  datatype Entry = Entry(ip: string, name: string, nodeID: nat, nodeType: NodeType)

  datatype Lookup = Found(ip: string, name: string, nodeID: nat, nodeType: NodeType) | NodeIdNotFound

  datatype Request = Request(ip: string, name: string, nodeType: NodeType)

  /** The entries after a history of registrations: the k-th gets ID k. */
  function Registered(history: seq<Request>): (r: seq<Entry>)
    ensures |r| == |history|
    ensures forall k :: 0 <= k < |r| ==>
                          && r[k].nodeID == k && r[k].ip == history[k].ip
                          && r[k].name == history[k].name && r[k].nodeType == history[k].nodeType
  {
    seq(|history|, k requires 0 <= k < |history| => Entry(history[k].ip, history[k].name, k, history[k].nodeType))
  }

  /** The newest server registered under `ip`. */
  ghost predicate NewestServer(history: seq<Request>, ip: string, k: nat) {
    && k < |history| && history[k].ip == ip && history[k].nodeType.SERVER?
    && forall j :: k < j < |history| ==> !(history[j].ip == ip && history[j].nodeType.SERVER?)
  }

  class NodeIDSequencer {
    var entries: seq<Entry>
    var ipPortToNodeID: map<string, nat>
    var nextNodeID: nat
    ghost var History: seq<Request>

    ghost predicate Valid()
      reads this
    {
      && nextNodeID == |History|
      && entries == Registered(History)
      && (forall ip :: ip in ipPortToNodeID ==> NewestServer(History, ip, ipPortToNodeID[ip]))
      && (forall k :: 0 <= k < |History| && History[k].nodeType.SERVER? ==> History[k].ip in ipPortToNodeID)
    }

    constructor ()
      ensures Valid() && History == []
    {
      entries, ipPortToNodeID, nextNodeID := [], map[], 0;
      History := [];
    }

    /** A number that no registered node has, and that is not handed out again. */
    method GetNextNodeID() returns (id: nat)
      requires Valid()
      modifies this`nextNodeID
      ensures forall k :: 0 <= k < |entries| ==> entries[k].nodeID < id
      ensures id == |entries| < nextNodeID == old(nextNodeID) + 1
    {
      id := nextNodeID;
      nextNodeID := nextNodeID + 1;
    }

    method HandleNodeIDRequest(ip: string, name: string, nodeType: NodeType) returns (id: nat)
      requires Valid()
      modifies this
      ensures Valid() && History == old(History) + [Request(ip, name, nodeType)]
      ensures id == |old(History)|
    {
      id := GetNextNodeID();
      entries := entries + [Entry(ip, name, id, nodeType)];
      if nodeType.SERVER? {
        ipPortToNodeID := ipPortToNodeID[ip := id];
      }
      History := History + [Request(ip, name, nodeType)];
    }

    /** Answers with the newest server of that address, or that there is none. */
    method HandleGetNodeIDForIpPort(ipPort: string) returns (r: Lookup)
      requires Valid()
      ensures r.Found? ==> r.ip == ipPort && NewestServer(History, ipPort, r.nodeID) && r.nodeType.SERVER?
                           && r.name == History[r.nodeID].name
      ensures r.NodeIdNotFound? <==>
              forall k :: 0 <= k < |History| ==> !(History[k].ip == ipPort && History[k].nodeType.SERVER?)
    {
      if ipPort in ipPortToNodeID {
        var nodeId := ipPortToNodeID[ipPort];
        var entry := entries[nodeId];
        r := Found(entry.ip, entry.name, entry.nodeID, entry.nodeType);
      } else {
        r := NodeIdNotFound;
      }
    }
  }
}
