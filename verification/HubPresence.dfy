/** Whose presence record a session's calls take away: two sessions may announce one peer, and the record is kept by peer alone. */
module HubPresence {
  import opened Bytes
  import opened ReplayWindows
  import opened HubModel
  import opened HubStructure
  import opened HubSystem

  /** The record under this peer is there and unchanged. */
  predicate RecordStands(s: Hub, s': Hub, peerId: Id) {
    peerId in s.presence && peerId in s'.presence && s'.presence[peerId] == s.presence[peerId]
  }

  /**
    A record that names another session goes or changes hands exactly if it is under the session's own peer, or under the
    one that the session announces now.
  */
  lemma {:induction false} OthersRecord(cfg: Config, ops: seq<Op>, id: Id, other: Id, peerId: Id, announced: Id, now: int)
    requires var s := Run(cfg, ops).hub;
             id in s.sessions && id != other && peerId in s.presence && s.presence[peerId].sessionId == other && IdOk(announced)
    ensures var s := Run(cfg, ops).hub;
            && (RecordStands(s, Run(cfg, ops + [DoDetach(id)]).hub, peerId) <==> s.sessions[id].peerId != peerId)
            && (RecordStands(s, Run(cfg, ops + [DoHeartbeat(id, now)]).hub, peerId) <==> s.sessions[id].peerId != peerId)
            && (RecordStands(s, Run(cfg, ops + [DoAnnounce(id, announced, now)]).hub, peerId) <==> s.sessions[id].peerId != peerId && announced != peerId)
  {
    RunStructure(cfg, ops);
    StepStays(cfg, ops, DoDetach(id));
    StepStays(cfg, ops, DoHeartbeat(id, now));
    StepStays(cfg, ops, DoAnnounce(id, announced, now));
    hide Run, Structure, Keeps;
    OthersStand(cfg, Run(cfg, ops).hub, id, peerId, announced, now);
  }

  predicate IdOk(id: Id) { 0 < |id| <= 128 }

  lemma {:induction false} OthersStand(cfg: Config, s: Hub, id: Id, peerId: Id, announced: Id, now: int)
    requires Structure(cfg, s) && id in s.sessions && peerId in s.presence && s.presence[peerId].sessionId != id && IdOk(announced)
    ensures RecordStands(s, Detach(s, id), peerId) <==> s.sessions[id].peerId != peerId
    ensures RecordStands(s, Heartbeat(cfg, s, id, now).0, peerId) <==> s.sessions[id].peerId != peerId
    ensures RecordStands(s, Announce(cfg, s, id, announced, now).0, peerId) <==> s.sessions[id].peerId != peerId && announced != peerId
  {
    assert ValidId(peerId) && IsOpen(s, id) && !s.closed;
    hide RoutesOk;
  }

  /** Both sessions announce the peer, and the one that was there first is detached. */
  function Succession(a: Id, b: Id, peerId: Id): seq<Op> {
    [DoAttach(a), DoAnnounce(a, peerId, 0), DoAttach(b), DoAnnounce(b, peerId, 0), DoDetach(a)]
  }

  lemma {:induction false} Opening(cfg: Config, a: Id, b: Id, peerId: Id)
    requires ValidId(a) && ValidId(peerId)
    ensures var s := Run(cfg, Succession(a, b, peerId)[..2]).hub;
            && s == Hub(false, map[a := Session(0, [], 0, 0, peerId, EmptyWindow())], map[], map[peerId := Presence(a, cfg.presenceTtl)],
                        map[], Stats(0, 0, 0), {}, 1, map[])
  {
    var ops := Succession(a, b, peerId);
    RunStep(cfg, ops, 0);
    RunStep(cfg, ops, 1);
    assert ops[..0] == [];
    assert ops[0] == DoAttach(a) && ops[1] == DoAnnounce(a, peerId, 0);
  }

  lemma {:induction false} Joined(cfg: Config, a: Id, b: Id, peerId: Id)
    requires ValidId(a) && ValidId(b) && ValidId(peerId) && a != b && cfg.maxSessions >= 2
    ensures var s := Run(cfg, Succession(a, b, peerId)[..3]).hub;
            && s.sessions == map[a := Session(0, [], 0, 0, peerId, EmptyWindow()), b := Session(1, [], 0, 0, [], EmptyWindow())]
            && s.presence == map[peerId := Presence(a, cfg.presenceTtl)] && s.federated == map[] && s.finished == {} && !s.closed
  {
    var ops := Succession(a, b, peerId);
    Opening(cfg, a, b, peerId);
    RunStep(cfg, ops, 2);
    assert ops[2] == DoAttach(b);
    hide Run;
  }

  lemma {:induction false} Overlap(cfg: Config, a: Id, b: Id, peerId: Id)
    requires ValidId(a) && ValidId(b) && ValidId(peerId) && a != b && cfg.maxSessions >= 2
    ensures var s := Run(cfg, Succession(a, b, peerId)[..4]).hub;
            && s.sessions == map[a := Session(0, [], 0, 0, peerId, EmptyWindow()), b := Session(1, [], 0, 0, peerId, EmptyWindow())]
            && s.presence == map[peerId := Presence(b, cfg.presenceTtl)] && s.federated == map[] && s.finished == {} && !s.closed
  {
    var ops := Succession(a, b, peerId);
    Joined(cfg, a, b, peerId);
    RunStep(cfg, ops, 3);
    assert ops[3] == DoAnnounce(b, peerId, 0);
    hide Run;
  }

  /** The session that is left has the peer and is open, but nobody finds it until it announces itself or beats again. */
  lemma {:induction false} SuccessorIsUnseen(cfg: Config, a: Id, b: Id, peerId: Id)
    requires ValidId(a) && ValidId(b) && ValidId(peerId) && a != b && cfg.maxSessions >= 2
    ensures var s := Run(cfg, Succession(a, b, peerId)).hub;
            && b in s.sessions && s.sessions[b].token !in s.finished && s.sessions[b].peerId == peerId
            && s.presence == map[] && Lookup(s, peerId, 0).1 == Absent
  {
    var ops := Succession(a, b, peerId);
    Overlap(cfg, a, b, peerId);
    RunStep(cfg, ops, 4);
    assert ops[..5] == ops && ops[4] == DoDetach(a);
    hide Run;
  }
}
