/** One node as the program keeps it: a flag vector that grows on demand and
    tables of local and remote connection data, changed under the connection lock. */
module RdmaNode {
  import opened Connect

  class RdmaServer {
    const ownNodeID: nat
    var nodeIDsQPs: seq<bool>
    var localConns: map<nat, nat>   // peer to local QP number
    var remoteConns: map<nat, nat>  // peer to remote QP number
    var connected: set<nat>
    var createdQps: nat

    ghost predicate Valid()
      reads this
    {
      && localConns.Keys == remoteConns.Keys == connected
      && forall k :: k in localConns ==> localConns[k] < createdQps
    }

    /** The vector as a set: an index beyond its end is a flag that is down. */
    ghost function Flags(): set<nat>
      reads this
    {
      set k: nat | k < |nodeIDsQPs| && nodeIDsQPs[k]
    }

    ghost function State(): Node
      reads this
      requires Valid()
    {
      Node(Flags(), map k | k in localConns :: Qp(localConns[k], remoteConns[k]), createdQps)
    }

    constructor (ownNodeID: nat)
      ensures Valid() && this.ownNodeID == ownNodeID && State() == Node({}, map[], 0)
    {
      this.ownNodeID := ownNodeID;
      nodeIDsQPs := [];
      localConns, remoteConns, connected := map[], map[], {};
      createdQps := 0;
    }

    /** The lock-protected start of `connect`. */
    method ClaimPeer(peer: nat) returns (go: bool)
      requires Valid()
      modifies this`nodeIDsQPs
      ensures Valid() && (State(), go) == Claim(old(State()), peer)
    {
      ghost var flags := Flags();
      Grow(peer);
      if !nodeIDsQPs[peer] {
        nodeIDsQPs := nodeIDsQPs[peer := true];
        assert Flags() == flags + {peer};
        return true;
      }
      return false;
    }

    /** `resize(peer + 1)` when the vector is too short: new flags are down. */
    method Grow(peer: nat)
      modifies this`nodeIDsQPs
      ensures peer < |nodeIDsQPs| && Flags() == old(Flags())
    {
      if peer >= |nodeIDsQPs| {
        nodeIDsQPs := nodeIDsQPs + seq(peer + 1 - |nodeIDsQPs|, _ => false);
      }
    }

    /** A queue pair whose number is in no table yet. */
    method InitQp() returns (qp: nat)
      requires Valid()
      modifies this`createdQps
      ensures Valid() && (State(), qp) == CreateQp(old(State()))
      ensures qp < createdQps && forall k :: k in localConns ==> localConns[k] != qp
    {
      qp := createdQps;
      createdQps := createdQps + 1;
    }

    /** The caller's side after an accepted request. */
    method SetAndConnect(peer: nat, local: nat, remote: nat)
      requires Valid() && local < createdQps
      modifies this`localConns, this`remoteConns, this`connected
      ensures Valid() && State() == Install(old(State()), peer, local, remote)
    {
      localConns := localConns[peer := local];
      remoteConns := remoteConns[peer := remote];
      connected := connected + {peer};
    }

    /** The server's side of a request: None is the refusal. */
    method ConnectQueue(nodeID: nat, remoteQp: nat) returns (reply: Reply)
      requires Valid()
      modifies this
      ensures Valid() && (State(), reply) == Answer(old(State()), ownNodeID, nodeID, remoteQp)
    {
      ghost var flags := Flags();
      Grow(nodeID);
      if !nodeIDsQPs[nodeID] {
        nodeIDsQPs := nodeIDsQPs[nodeID := true];
      } else if nodeID < ownNodeID {
        return Refuse;
      }
      assert Flags() == flags + {nodeID};
      var qp := InitQp();
      SetAndConnect(nodeID, qp, remoteQp);
      return Accept(qp);
    }
  }
}
