/** Repository calls on device_sessions. */
module Devices {
  import opened Basics
  import opened Schema
  import opened GrantMachine

  method InsertDeviceNode(db: Database, id: string, nodeType: string, endpoint: string, key: bytes, now: int, up: bool)
    returns (ok: bool)
    modifies db`nodes
    ensures ok == (up && id !in old(db.nodes) && KnownNodeType(nodeType))
    ensures db.nodes == if ok then old(db.nodes)[id := NewNode(nodeType, endpoint, key, now)] else old(db.nodes)
  {
    ok := up && id !in db.nodes && KnownNodeType(nodeType);
    if ok {
      db.nodes := db.nodes[id := NewNode(nodeType, endpoint, key, now)];
    }
  }

  method InsertSessionRow(db: Database, codeHash: string, session: Session, up: bool) returns (ok: bool)
    modifies db`sessions
    ensures ok == (up && codeHash !in old(db.sessions) && !UserCodeTaken(old(db.sessions), session.userCode))
    ensures db.sessions == if ok then old(db.sessions)[codeHash := session] else old(db.sessions)
  {
    var taken := exists h :: h in db.sessions && db.sessions[h].userCode == session.userCode;
    ok := up && codeHash !in db.sessions && !taken;
    if ok {
      db.sessions := db.sessions[codeHash := session];
    }
  }

  /** Opens a session, and first the node it is for when a type and an endpoint are given. The two
      inserts are separate statements: when the second fails, the node stays. */
  method InsertDeviceSession(db: Database, cfg: Config, nodeType: string, endpoint: string, key: bytes,
                             lucks: seq<Luck>)
    returns (a: Answer)
    requires |lucks| >= 3
    modifies db`nodes, db`sessions
    ensures (db.GrantTables(), Done(a)) == Alone(cfg, old(db.GrantTables()), OpenDevice(nodeType, endpoint, key), lucks)
  {
    var now := Unix(lucks[0].now);
    AloneStep(cfg, db.GrantTables(), OpenDevice(nodeType, endpoint, key), lucks);
    if nodeType != "" && endpoint != "" {
      AloneStep(cfg, db.GrantTables(), AddDeviceNode(nodeType, endpoint, key, now), lucks[1..]);
      assert lucks[1..][1..] == lucks[2..];
      var ok := InsertDeviceNode(db, lucks[1].drawn, nodeType, endpoint, key, now, lucks[1].up);
      if !ok { return Broken; }
      a := OpenSession(db, cfg, Some(lucks[1].drawn), now, lucks[2..]);
    } else {
      a := OpenSession(db, cfg, None, now, lucks[1..]);
    }
  }

  method OpenSession(db: Database, cfg: Config, node: Option<string>, now: int, lucks: seq<Luck>) returns (a: Answer)
    requires |lucks| >= 1
    modifies db`sessions
    ensures (db.GrantTables(), Done(a)) == Alone(cfg, old(db.GrantTables()), AddDeviceSession(node, now), lucks)
  {
    AloneStep(cfg, db.GrantTables(), AddDeviceSession(node, now), lucks);
    var row := NewSession(lucks[0].drawn2, node, now, cfg.magicTtl);
    var ok := InsertSessionRow(db, cfg.hash(lucks[0].drawn), row, lucks[0].up);
    if !ok { return Broken; }
    return Started(lucks[0].drawn, lucks[0].drawn2, WholeSeconds(cfg.magicTtl), 5);
  }

  method DeviceSessionByUserCode(db: Database, userCode: string) returns (found: Option<string>)
    ensures IsSessionByUserCode(db.sessions, userCode, found)
  {
    var matching := set h | h in db.sessions && db.sessions[h].userCode == userCode;
    if matching == {} {
      forall h | h in db.sessions
        ensures db.sessions[h].userCode != userCode
      {
        assert h !in matching;
      }
      return None;
    }
    var h :| h in matching;
    return Some(h);
  }

  method ApproveDeviceSession(db: Database, codeHash: string, user: string, now: int, up: bool) returns (ok: bool)
    modifies db`sessions
    ensures ok == (up && codeHash in old(db.sessions) && Approvable(old(db.sessions)[codeHash], now))
    ensures db.sessions ==
            if ok then old(db.sessions)[codeHash := ApprovedSession(old(db.sessions)[codeHash], user, now)]
            else old(db.sessions)
  {
    ok := up && codeHash in db.sessions && Approvable(db.sessions[codeHash], now);
    if ok {
      db.sessions := db.sessions[codeHash := ApprovedSession(db.sessions[codeHash], user, now)];
    }
  }

  /** Consumes the session if it is approved and returns its row as it reads afterwards, hit or not. */
  method ConsumeDeviceSession(db: Database, codeHash: string, now: int, up: bool) returns (row: Option<Session>)
    modifies db`sessions
    ensures row.Some? <==> up && codeHash in old(db.sessions)
    ensures row.Some? ==> codeHash in db.sessions && row.value == db.sessions[codeHash]
    ensures row.Some? && old(db.sessions)[codeHash].status == Approved ==>
              var was := old(db.sessions)[codeHash];
              db.sessions == old(db.sessions)[codeHash := was.(status := Consumed, consumedAt := Some(now),
                                                               lastPollAt := Some(now))]
    ensures row.None? || old(db.sessions)[codeHash].status != Approved ==> db.sessions == old(db.sessions)
  {
    if !up || codeHash !in db.sessions { return None; }
    if db.sessions[codeHash].status == Approved {
      db.sessions := db.sessions[codeHash := ConsumedSession(db.sessions[codeHash], now)];
    }
    return Some(db.sessions[codeHash]);
  }

  method UpdateLastPoll(db: Database, codeHash: string, now: int, up: bool) returns (ok: bool)
    modifies db`sessions
    ensures ok == up
    ensures db.sessions ==
            if up && codeHash in old(db.sessions)
            then old(db.sessions)[codeHash := old(db.sessions)[codeHash].(lastPollAt := Some(now))]
            else old(db.sessions)
  {
    ok := up;
    if up && codeHash in db.sessions {
      db.sessions := db.sessions[codeHash := db.sessions[codeHash].(lastPollAt := Some(now))];
    }
  }
}
