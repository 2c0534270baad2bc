/** Rows of nodes: provisioning updates and the lookup of a delivery target. */
module Nodes {
  import opened Basics
  import opened Schema

  datatype DeliveryTarget = DeliveryTarget(nodeId: string, endpoint: string, secret: string)

  function WithToken(nodes: map<string, Node>, id: string, tokenHash: string): map<string, Node> {
    if id in nodes then nodes[id := nodes[id].(tokenHash := Some(tokenHash))] else nodes
  }

  // The owner is only written while it is unset.
  function WithOwner(nodes: map<string, Node>, id: string, user: string): map<string, Node> {
    if id in nodes && nodes[id].userId.None? then nodes[id := nodes[id].(userId := Some(user))] else nodes
  }

  function WithSecret(nodes: map<string, Node>, id: string, secret: string): map<string, Node> {
    if id in nodes then nodes[id := nodes[id].(introSecret := Some(secret))] else nodes
  }

  function WithPing(nodes: map<string, Node>, id: string, now: int): map<string, Node> {
    if id in nodes then nodes[id := nodes[id].(lastPing := Some(now))] else nodes
  }

  function Deactivated(nodes: map<string, Node>, id: string, now: int): map<string, Node> {
    if id in nodes then nodes[id := nodes[id].(active := false, revokedAt := Some(now))] else nodes
  }

  /** A node that can take introductions addressed to `user`. */
  predicate Deliverable(n: Node, user: string) {
    && n.userId == Some(user)
    && n.active
    && n.revokedAt.None?
    && n.nodeType == "LivingCV"
    && n.endpoint != ""
    && n.introSecret.Some? && n.introSecret.value != ""
  }

  function OwnerOf(nodes: map<string, Node>, snapshotNode: string): Option<string> {
    if snapshotNode in nodes && nodes[snapshotNode].userId != Some("") then nodes[snapshotNode].userId else None
  }

  /** `target` is an answer of the target lookup: a newest deliverable node of the snapshot node's
      owner, or none when there is no owner or no such node. */
  ghost predicate IsDeliveryTarget(nodes: map<string, Node>, snapshotNode: string, target: Option<DeliveryTarget>) {
    var owner := OwnerOf(nodes, snapshotNode);
    match target
    case None =>
      owner.None? || forall n :: n in nodes ==> !Deliverable(nodes[n], owner.value)
    case Some(t) =>
      && owner.Some?
      && t.nodeId in nodes
      && Deliverable(nodes[t.nodeId], owner.value)
      && t.endpoint == nodes[t.nodeId].endpoint
      && Some(t.secret) == nodes[t.nodeId].introSecret
      && forall n :: n in nodes && Deliverable(nodes[n], owner.value) ==>
                       nodes[n].createdAt <= nodes[t.nodeId].createdAt
  }

  method UpdateNodeToken(db: Database, id: string, tokenHash: string)
    modifies db`nodes
    ensures db.nodes == WithToken(old(db.nodes), id, tokenHash)
  {
    if id in db.nodes {
      db.nodes := db.nodes[id := db.nodes[id].(tokenHash := Some(tokenHash))];
    }
  }

  method SetNodeUser(db: Database, id: string, user: string)
    modifies db`nodes
    ensures db.nodes == WithOwner(old(db.nodes), id, user)
  {
    if id in db.nodes && db.nodes[id].userId.None? {
      db.nodes := db.nodes[id := db.nodes[id].(userId := Some(user))];
    }
  }

  method RotateNodeIntroSecret(db: Database, id: string, secret: string)
    modifies db`nodes
    ensures db.nodes == WithSecret(old(db.nodes), id, secret)
  {
    if id in db.nodes {
      db.nodes := db.nodes[id := db.nodes[id].(introSecret := Some(secret))];
    }
  }

  method UpdateNodePing(db: Database, id: string, now: int)
    modifies db`nodes
    ensures db.nodes == WithPing(old(db.nodes), id, now)
  {
    if id in db.nodes {
      db.nodes := db.nodes[id := db.nodes[id].(lastPing := Some(now))];
    }
  }

  method ResolveDeliveryTarget(db: Database, snapshotNode: string) returns (target: Option<DeliveryTarget>)
    ensures IsDeliveryTarget(db.nodes, snapshotNode, target)
  {
    target := None;
    if snapshotNode !in db.nodes { return; }
    var owner := db.nodes[snapshotNode].userId;
    if owner.None? || owner.value == "" { return; }
    var rest := db.nodes.Keys;
    var best: Option<string> := None;
    while rest != {}
      invariant rest <= db.nodes.Keys
      invariant match best
                case None => forall n :: n in db.nodes.Keys - rest ==> !Deliverable(db.nodes[n], owner.value)
                case Some(b) =>
                  && b in db.nodes && Deliverable(db.nodes[b], owner.value)
                  && forall n :: n in db.nodes.Keys - rest && Deliverable(db.nodes[n], owner.value) ==>
                                   db.nodes[n].createdAt <= db.nodes[b].createdAt
      decreases rest
    {
      var n :| n in rest;
      rest := rest - {n};
      if Deliverable(db.nodes[n], owner.value) {
        if best.None? || db.nodes[best.value].createdAt < db.nodes[n].createdAt {
          best := Some(n);
        }
      }
    }
    if best.Some? {
      var n := db.nodes[best.value];
      target := Some(DeliveryTarget(best.value, n.endpoint, n.introSecret.value));
    }
  }
}
