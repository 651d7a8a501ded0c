/** The live contact index of internal/relay/wss/contact_discovery.go. */
module ContactDiscovery {
  import opened Bytes
  import Selections

  /** contactDiscoveryWindow, in nanoseconds */
  const WINDOW := 60_000_000_000
  const MAX_PER_WINDOW := 4

  datatype Target = Target(sessionId: bytes, peerId: bytes)

  datatype Targets = Targets(members: map<bytes, Target>, selected: bytes)

  /** A lookup that was admitted, or the probe it caused. */
  datatype Hit = Hit(requestId: bytes, at: int)

  /**
    The four maps, and as history what each session looked up, and was probed for, since it was last announced or
    removed.
  */
  datatype Index = Index(
    byBranch: map<bytes, Targets>,
    bySession: map<bytes, bytes>,
    lookups: map<bytes, map<bytes, int>>,
    probes: map<bytes, seq<int>>,
    looked: map<bytes, seq<Hit>>,
    probed: map<bytes, seq<Hit>>,
    clock: int)

  function Empty(): Index { Index(map[], map[], map[], map[], map[], map[], 0) }

  // ---------------------------------------------------------------- the index

  /** The members a branch has left without a session, and the selection that goes with them. */
  function Reselect(t: Targets, id: bytes, replacement: bytes): Targets {
    Targets(t.members - {id}, if t.selected == id then replacement else t.selected)
  }

  /** removeLocked; `replacement` is the map's choice when the selected session goes. */
  function Removed(s: Index, id: bytes, replacement: bytes): Index {
    var forgotten := s.(lookups := s.lookups - {id}, probes := s.probes - {id}, looked := s.looked - {id}, probed := s.probed - {id});
    if id !in s.bySession || s.bySession[id] !in s.byBranch then forgotten
    else
      var branch := s.bySession[id];
      var left := Reselect(s.byBranch[branch], id, replacement);
      forgotten.(byBranch := if left.members == map[] then s.byBranch - {branch} else s.byBranch[branch := left],
                 bySession := s.bySession - {id})
  }

  /** Any remaining session of the branch may be chosen. */
  predicate Choice(s: Index, id: bytes, replacement: bytes) {
    id in s.bySession && s.bySession[id] in s.byBranch ==>
      var members := s.byBranch[s.bySession[id]].members - {id};
      members == map[] || replacement in members
  }

  function Announced(s: Index, id: bytes, branch: bytes, peerId: bytes, discoverable: bool, replacement: bytes): Index {
    var cleared := Removed(s, id, replacement);
    if !discoverable then cleared
    else
      var members := if branch in cleared.byBranch then cleared.byBranch[branch].members else map[];
      cleared.(byBranch := cleared.byBranch[branch := Targets(members[id := Target(id, peerId)], id)],
               bySession := cleared.bySession[id := branch])
  }

  /** The index is two-way: a session maps to a branch exactly if the branch lists it; no branch is empty; the selected session is listed. */
  ghost predicate TwoWay(s: Index) {
    && (forall id :: id in s.bySession ==> s.bySession[id] in s.byBranch && id in s.byBranch[s.bySession[id]].members)
    && (forall b, id :: b in s.byBranch && id in s.byBranch[b].members ==>
          id in s.bySession && s.bySession[id] == b && s.byBranch[b].members[id].sessionId == id)
    && (forall b :: b in s.byBranch ==> s.byBranch[b].selected in s.byBranch[b].members)
  }

  lemma {:induction false} RemoveTwoWay(s: Index, id: bytes, replacement: bytes)
    requires TwoWay(s) && Choice(s, id, replacement)
    ensures TwoWay(Removed(s, id, replacement)) && id !in Removed(s, id, replacement).bySession
  {
    if id in s.bySession {
      var branch := s.bySession[id];
      var left := Reselect(s.byBranch[branch], id, replacement);
      forall other | other in s.bySession && other != id && s.bySession[other] == branch ensures other in left.members && left.members != map[] {
        assert other in s.byBranch[branch].members;
      }
    }
  }

  lemma {:induction false} AnnounceTwoWay(s: Index, id: bytes, branch: bytes, peerId: bytes, discoverable: bool, replacement: bytes)
    requires TwoWay(s) && Choice(s, id, replacement)
    ensures TwoWay(Announced(s, id, branch, peerId, discoverable, replacement))
  {
    RemoveTwoWay(s, id, replacement);
  }

  // ---------------------------------------------------------------- the windows

  function Recent(entries: map<bytes, int>, now: int): map<bytes, int> {
    map id | id in entries && entries[id] > now - WINDOW :: entries[id]
  }

  function After(times: seq<int>, from: int): seq<int> {
    if times == [] then []
    else After(times[..|times| - 1], from) + (if times[|times| - 1] > from then [times[|times| - 1]] else [])
  }

  function Lookups(s: Index, requester: bytes, now: int): map<bytes, int> {
    if requester in s.lookups then Recent(s.lookups[requester], now) else map[]
  }

  function Probes(s: Index, target: bytes, now: int): seq<int> {
    if target in s.probes then After(s.probes[target], now - WINDOW) else []
  }

  function History(hits: map<bytes, seq<Hit>>, id: bytes): seq<Hit> {
    if id in hits then hits[id] else []
  }

  /** What a call to `reserve` forgets before it decides. */
  function Pruned(s: Index, requester: bytes, now: int): Index {
    s.(lookups := if requester in s.lookups then s.lookups[requester := Lookups(s, requester, now)] else s.lookups, clock := now)
  }

  /** Count an admitted lookup against both windows. */
  function Admitted(s: Index, requester: bytes, target: bytes, window: map<bytes, int>, kept: seq<int>, hit: Hit): Index {
    s.(lookups := s.lookups[requester := window[hit.requestId := hit.at]],
       probes := s.probes[target := kept + [hit.at]],
       looked := s.looked[requester := History(s.looked, requester) + [hit]],
       probed := s.probed[target := History(s.probed, target) + [hit]])
  }

  function Reserving(s: Index, requester: bytes, requestId: bytes, branch: bytes, now: int): (Index, Option<Target>) {
    var pruned := Pruned(s, requester, now);
    var window := Lookups(s, requester, now);
    if |window| >= MAX_PER_WINDOW || requestId in window then (pruned, None)
    else if branch !in s.byBranch || s.byBranch[branch].selected !in s.byBranch[branch].members then (pruned, None)
    else
      var target := s.byBranch[branch].members[s.byBranch[branch].selected];
      var kept := Probes(s, target.sessionId, now);
      if |kept| >= MAX_PER_WINDOW then (pruned.(probes := pruned.probes[target.sessionId := kept]), None)
      else (Admitted(pruned, requester, target.sessionId, window, kept, Hit(requestId, now)), Some(target))
  }

  // ---------------------------------------------------------------- rates

  ghost predicate Ordered(hits: seq<Hit>, clock: int) {
    && (forall i, j :: 0 <= i < j < |hits| ==> hits[i].at <= hits[j].at)
    && (forall i :: 0 <= i < |hits| ==> hits[i].at <= clock)
  }

  /** Five hits in a row take at least a minute. */
  ghost predicate Spread(hits: seq<Hit>) {
    forall i, j :: 0 <= i && j == i + MAX_PER_WINDOW && j < |hits| ==> hits[j].at - hits[i].at >= WINDOW
  }

  /** The same request comes again only after a minute. */
  ghost predicate NoRepeat(hits: seq<Hit>) {
    forall i, j :: 0 <= i < j < |hits| && hits[i].requestId == hits[j].requestId ==> hits[j].at - hits[i].at >= WINDOW
  }

  /** The lookups of the last minute are in the requester's table. */
  ghost predicate Tabled(hits: seq<Hit>, entries: map<bytes, int>, clock: int) {
    forall i :: 0 <= i < |hits| && hits[i].at > clock - WINDOW ==> hits[i].requestId in entries && entries[hits[i].requestId] == hits[i].at
  }

  /** The probes of the last minute are in the target's list, which holds only probes, in order. */
  ghost predicate Listed(hits: seq<Hit>, times: seq<int>, clock: int) {
    && |times| <= |hits|
    && (forall i :: 0 <= i < |times| ==> times[i] == hits[|hits| - |times| + i].at)
    && (forall i :: 0 <= i < |hits| - |times| ==> hits[i].at <= clock - WINDOW)
  }

  function Table(s: Index, id: bytes): map<bytes, int> { if id in s.lookups then s.lookups[id] else map[] }

  function List(s: Index, id: bytes): seq<int> { if id in s.probes then s.probes[id] else [] }

  ghost predicate LookupsOk(hits: seq<Hit>, entries: map<bytes, int>, clock: int) {
    Ordered(hits, clock) && Spread(hits) && NoRepeat(hits) && Tabled(hits, entries, clock)
  }

  ghost predicate ProbesOk(hits: seq<Hit>, times: seq<int>, clock: int) {
    Ordered(hits, clock) && Spread(hits) && Listed(hits, times, clock)
  }

  ghost predicate Limited(s: Index) {
    && (forall id :: LookupsOk(History(s.looked, id), Table(s, id), s.clock))
    && (forall id :: ProbesOk(History(s.probed, id), List(s, id), s.clock))
  }

  /** Distinct requests that are all in a table are no more than the table holds. */
  lemma {:induction false} TableHolds(hits: seq<Hit>, entries: map<bytes, int>)
    requires forall i, j :: 0 <= i < j < |hits| ==> hits[i].requestId != hits[j].requestId
    requires forall i :: 0 <= i < |hits| ==> hits[i].requestId in entries
    ensures |hits| <= |entries|
  {
    if hits != [] {
      var n := |hits| - 1;
      var rest := entries - {hits[n].requestId};
      assert rest.Keys == entries.Keys - {hits[n].requestId};
      TableHolds(hits[..n], rest);
    }
  }

  /** With fewer than four requests in the table, the fourth last lookup is a minute old. */
  lemma {:induction false} LookupSpread(hits: seq<Hit>, entries: map<bytes, int>, clock: int, now: int)
    requires LookupsOk(hits, entries, clock) && clock <= now && |Recent(entries, now)| < MAX_PER_WINDOW <= |hits|
    ensures hits[|hits| - MAX_PER_WINDOW].at <= now - WINDOW
  {
    var last := hits[|hits| - MAX_PER_WINDOW..];
    if hits[|hits| - MAX_PER_WINDOW].at > now - WINDOW {
      TableHolds(last, Recent(entries, now));
    }
  }

  lemma {:induction false} NoRepeatNext(hits: seq<Hit>, entries: map<bytes, int>, clock: int, now: int, requestId: bytes)
    requires NoRepeat(hits) && Tabled(hits, entries, clock) && clock <= now && requestId !in Recent(entries, now)
    ensures NoRepeat(hits + [Hit(requestId, now)])
  {
    forall i | 0 <= i < |hits| && hits[i].requestId == requestId ensures hits[i].at <= now - WINDOW {
    }
  }

  lemma {:induction false} TabledNext(hits: seq<Hit>, entries: map<bytes, int>, clock: int, now: int, requestId: bytes)
    requires Tabled(hits, entries, clock) && clock <= now && requestId !in Recent(entries, now)
    ensures Tabled(hits + [Hit(requestId, now)], Recent(entries, now)[requestId := now], now)
  {
  }

  lemma {:induction false} LookupAdmitted(hits: seq<Hit>, entries: map<bytes, int>, clock: int, now: int, requestId: bytes)
    requires LookupsOk(hits, entries, clock) && clock <= now
    requires |Recent(entries, now)| < MAX_PER_WINDOW && requestId !in Recent(entries, now)
    ensures LookupsOk(hits + [Hit(requestId, now)], Recent(entries, now)[requestId := now], now)
  {
    if |hits| >= MAX_PER_WINDOW {
      LookupSpread(hits, entries, clock, now);
    }
    NoRepeatNext(hits, entries, clock, now, requestId);
    TabledNext(hits, entries, clock, now, requestId);
    hide NoRepeat, Tabled, Recent;
  }

  lemma {:induction false} LookupsLater(hits: seq<Hit>, entries: map<bytes, int>, clock: int, now: int)
    requires LookupsOk(hits, entries, clock) && clock <= now
    ensures LookupsOk(hits, entries, now) && LookupsOk(hits, Recent(entries, now), now)
  {
  }

  /** Filtering an ordered list of times keeps its end. */
  lemma {:induction false} AfterOrdered(times: seq<int>, from: int)
    requires forall i, j :: 0 <= i < j < |times| ==> times[i] <= times[j]
    ensures |After(times, from)| <= |times| && After(times, from) == times[|times| - |After(times, from)|..]
    ensures forall i :: 0 <= i < |times| - |After(times, from)| ==> times[i] <= from
  {
    if times != [] {
      var n := |times| - 1;
      AfterOrdered(times[..n], from);
      var kept := After(times[..n], from);
      assert After(times, from) == kept + if times[n] > from then [times[n]] else [];
      hide After;
      if times[n] > from {
        assert times[n - |kept|..] == times[..n][n - |kept|..] + [times[n]];
      } else {
        assert kept == [] by {
          if kept != [] {
            AfterAll(times[..n], from, 0);
          }
        }
      }
    }
  }

  lemma {:induction false} AfterAll(times: seq<int>, from: int, k: nat)
    requires k < |After(times, from)|
    ensures After(times, from)[k] > from && After(times, from)[k] in times
  {
    if k < |After(times[..|times| - 1], from)| {
      AfterAll(times[..|times| - 1], from, k);
    }
  }

  lemma {:induction false} ListedAfter(hits: seq<Hit>, times: seq<int>, clock: int, now: int)
    requires ProbesOk(hits, times, clock) && clock <= now
    ensures ProbesOk(hits, times, now) && ProbesOk(hits, After(times, now - WINDOW), now)
    ensures |After(times, now - WINDOW)| < MAX_PER_WINDOW <= |hits| ==> hits[|hits| - MAX_PER_WINDOW].at <= now - WINDOW
  {
    AfterOrdered(times, now - WINDOW);
    var kept := After(times, now - WINDOW);
    forall i | 0 <= i < |hits| - |kept| ensures hits[i].at <= now - WINDOW {
      if i >= |hits| - |times| {
        assert times[i - (|hits| - |times|)] == hits[i].at;
      }
    }
  }

  lemma {:induction false} ProbeAdmitted(hits: seq<Hit>, times: seq<int>, clock: int, now: int, requestId: bytes)
    requires ProbesOk(hits, times, clock) && clock <= now && |After(times, now - WINDOW)| < MAX_PER_WINDOW
    ensures ProbesOk(hits + [Hit(requestId, now)], After(times, now - WINDOW) + [now], now)
  {
    ListedAfter(hits, times, clock, now);
  }

  // ---------------------------------------------------------------- runs

  lemma {:induction false} NothingYet(clock: int)
    ensures LookupsOk([], map[], clock) && ProbesOk([], [], clock)
  {
  }

  /** A session that is forgotten starts over; the others keep their windows. */
  lemma {:induction false} RemoveLimited(s: Index, id: bytes, replacement: bytes)
    requires Limited(s)
    ensures Limited(Removed(s, id, replacement))
  {
    hide LookupsOk, ProbesOk;
    var s' := Removed(s, id, replacement);
    NothingYet(s.clock);
    forall other
      ensures LookupsOk(History(s'.looked, other), Table(s', other), s'.clock)
      ensures ProbesOk(History(s'.probed, other), List(s', other), s'.clock)
    {
      assert LookupsOk(History(s.looked, other), Table(s, other), s.clock) && ProbesOk(History(s.probed, other), List(s, other), s.clock);
    }
  }

  lemma {:induction false} AnnounceLimited(s: Index, id: bytes, branch: bytes, peerId: bytes, discoverable: bool, replacement: bytes)
    requires Limited(s)
    ensures Limited(Announced(s, id, branch, peerId, discoverable, replacement))
  {
    RemoveLimited(s, id, replacement);
    var s' := Announced(s, id, branch, peerId, discoverable, replacement);
    assert s' == Removed(s, id, replacement).(byBranch := s'.byBranch, bySession := s'.bySession);
    SameWindows(Removed(s, id, replacement), s');
  }

  lemma {:induction false} SameWindows(s: Index, s': Index)
    requires Limited(s) && s' == s.(byBranch := s'.byBranch, bySession := s'.bySession)
    ensures Limited(s')
  {
    forall id
      ensures LookupsOk(History(s'.looked, id), Table(s', id), s'.clock)
      ensures ProbesOk(History(s'.probed, id), List(s', id), s'.clock)
    {
      assert Table(s', id) == Table(s, id) && List(s', id) == List(s, id);
    }
  }

  /** The table of a session after a reservation. */
  lemma {:induction false} ReserveOthers(s: Index, requester: bytes, requestId: bytes, branch: bytes, now: int, id: bytes)
    requires id != requester
    ensures var s' := Reserving(s, requester, requestId, branch, now).0;
            Table(s', id) == Table(s, id) && History(s'.looked, id) == History(s.looked, id)
  {
    hide Recent, After;
  }

  lemma {:induction false} ReserveOwn(s: Index, requester: bytes, requestId: bytes, branch: bytes, now: int)
    ensures var (s', target) := Reserving(s, requester, requestId, branch, now);
            && s'.clock == now
            && if target.None? then Table(s', requester) == Lookups(s, requester, now) && History(s'.looked, requester) == History(s.looked, requester)
               else
                 && |Lookups(s, requester, now)| < MAX_PER_WINDOW && requestId !in Lookups(s, requester, now)
                 && Table(s', requester) == Lookups(s, requester, now)[requestId := now]
                 && History(s'.looked, requester) == History(s.looked, requester) + [Hit(requestId, now)]
  {
    hide Recent, After;
  }

  lemma {:induction false} ReserveTable(s: Index, requester: bytes, requestId: bytes, branch: bytes, now: int, id: bytes)
    ensures var (s', target) := Reserving(s, requester, requestId, branch, now);
            var recent := Recent(Table(s, id), now);
            && s'.clock == now
            && (id != requester ==> Table(s', id) == Table(s, id) && History(s'.looked, id) == History(s.looked, id))
            && (id == requester && target.None? ==> Table(s', id) == recent && History(s'.looked, id) == History(s.looked, id))
            && (id == requester && target.Some? ==>
                  && |recent| < MAX_PER_WINDOW && requestId !in recent
                  && Table(s', id) == recent[requestId := now] && History(s'.looked, id) == History(s.looked, id) + [Hit(requestId, now)])
  {
    ReserveOwn(s, requester, requestId, branch, now);
    if id != requester {
      ReserveOthers(s, requester, requestId, branch, now, id);
    }
    hide Recent, Reserving, History;
    assert Recent(map[], now) == map[] by { RecentOfNone(now); }
  }

  lemma {:induction false} RecentOfNone(now: int)
    ensures Recent(map[], now) == map[]
  {
  }

  lemma {:induction false} ReserveLookups(s: Index, requester: bytes, requestId: bytes, branch: bytes, now: int, id: bytes)
    requires Limited(s) && s.clock <= now
    ensures var s' := Reserving(s, requester, requestId, branch, now).0;
            s'.clock == now && LookupsOk(History(s'.looked, id), Table(s', id), now)
  {
    assert LookupsOk(History(s.looked, id), Table(s, id), s.clock);
    hide LookupsOk, ProbesOk, Reserving, Recent;
    LookupsLater(History(s.looked, id), Table(s, id), s.clock, now);
    ReserveTable(s, requester, requestId, branch, now, id);
    if Reserving(s, requester, requestId, branch, now).1.Some? && id == requester {
      LookupAdmitted(History(s.looked, id), Table(s, id), s.clock, now, requestId);
    }
  }

  lemma {:induction false} ReserveProbes(s: Index, requester: bytes, requestId: bytes, branch: bytes, now: int, id: bytes)
    requires Limited(s) && s.clock <= now
    ensures var s' := Reserving(s, requester, requestId, branch, now).0;
            ProbesOk(History(s'.probed, id), List(s', id), now)
  {
    hide LookupsOk, ProbesOk;
    var (s', target) := Reserving(s, requester, requestId, branch, now);
    assert ProbesOk(History(s.probed, id), List(s, id), s.clock);
    ListedAfter(History(s.probed, id), List(s, id), s.clock, now);
    if target.Some? && id == target.value.sessionId {
      assert Probes(s, id, now) == After(List(s, id), now - WINDOW);
      ProbeAdmitted(History(s.probed, id), List(s, id), s.clock, now, requestId);
    }
  }

  lemma {:induction false} ReserveLimited(s: Index, requester: bytes, requestId: bytes, branch: bytes, now: int)
    requires Limited(s) && s.clock <= now
    ensures Limited(Reserving(s, requester, requestId, branch, now).0)
  {
    forall id
      ensures LookupsOk(History(Reserving(s, requester, requestId, branch, now).0.looked, id), Table(Reserving(s, requester, requestId, branch, now).0, id), now)
      ensures ProbesOk(History(Reserving(s, requester, requestId, branch, now).0.probed, id), List(Reserving(s, requester, requestId, branch, now).0, id), now)
      ensures Reserving(s, requester, requestId, branch, now).0.clock == now
    {
      ReserveLookups(s, requester, requestId, branch, now, id);
      ReserveProbes(s, requester, requestId, branch, now, id);
    }
    ReserveLookups(s, requester, requestId, branch, now, requester);
  }

  datatype Event =
    | DoAnnounce(id: bytes, branch: bytes, peerId: bytes, discoverable: bool, replacement: bytes)
    | DoRemove(id: bytes, replacement: bytes)
    | DoReserve(requester: bytes, requestId: bytes, branch: bytes, now: int)

  /** A replacement is one of the sessions left. */
  predicate Possible(s: Index, e: Event) {
    match e
    case DoAnnounce(id, _, _, _, replacement) => Choice(s, id, replacement)
    case DoRemove(id, replacement) => Choice(s, id, replacement)
    case DoReserve(_, _, _, _) => true
  }

  function Step(s: Index, e: Event): Index {
    match e
    case DoAnnounce(id, branch, peerId, discoverable, replacement) => Announced(s, id, branch, peerId, discoverable, replacement)
    case DoRemove(id, replacement) => Removed(s, id, replacement)
    case DoReserve(requester, requestId, branch, now) => Reserving(s, requester, requestId, branch, now).0
  }

  function Run(events: seq<Event>): Index {
    if events == [] then Empty()
    else
      var s := Run(events[..|events| - 1]);
      if Possible(s, events[|events| - 1]) then Step(s, events[|events| - 1]) else s
  }

  /** The clock does not go back. */
  predicate Monotone(events: seq<Event>) {
    events == [] ||
    (var front, e := events[..|events| - 1], events[|events| - 1];
     Monotone(front) && (e.DoReserve? ==> Run(front).clock <= e.now))
  }

  lemma {:induction false} ReserveTwoWay(s: Index, requester: bytes, requestId: bytes, branch: bytes, now: int)
    requires TwoWay(s)
    ensures TwoWay(Reserving(s, requester, requestId, branch, now).0)
  {
    hide TwoWay;
    SameMaps(s, Reserving(s, requester, requestId, branch, now).0);
  }

  lemma {:induction false} SameMaps(s: Index, s': Index)
    requires TwoWay(s)
    ensures s'.byBranch == s.byBranch && s'.bySession == s.bySession ==> TwoWay(s')
  {
  }

  lemma {:induction false} RunTwoWay(events: seq<Event>)
    ensures TwoWay(Run(events))
  {
    if events != [] {
      hide TwoWay;
      var s := Run(events[..|events| - 1]);
      RunTwoWay(events[..|events| - 1]);
      match events[|events| - 1]
      case DoAnnounce(id, branch, peerId, discoverable, replacement) =>
        if Choice(s, id, replacement) {
          AnnounceTwoWay(s, id, branch, peerId, discoverable, replacement);
        }
      case DoRemove(id, replacement) =>
        if Choice(s, id, replacement) {
          RemoveTwoWay(s, id, replacement);
        }
      case DoReserve(requester, requestId, branch, now) => ReserveTwoWay(s, requester, requestId, branch, now);
    } else {
      assert TwoWay(Empty());
    }
  }

  lemma {:induction false} RunLimited(events: seq<Event>)
    requires Monotone(events)
    ensures Limited(Run(events))
  {
    if events != [] {
      hide Limited;
      var s := Run(events[..|events| - 1]);
      RunLimited(events[..|events| - 1]);
      match events[|events| - 1]
      case DoAnnounce(id, branch, peerId, discoverable, replacement) => AnnounceLimited(s, id, branch, peerId, discoverable, replacement);
      case DoRemove(id, replacement) => RemoveLimited(s, id, replacement);
      case DoReserve(requester, requestId, branch, now) => ReserveLimited(s, requester, requestId, branch, now);
    } else {
      EmptyLimited();
    }
  }

  lemma {:induction false} EmptyLimited()
    ensures Limited(Empty())
  {
  }

  // ---------------------------------------------------------------- the promises

  /** The hits in the minute that ends at `end`. */
  function Within(hits: seq<Hit>, end: int): seq<Hit> {
    if hits == [] then []
    else
      var last := hits[|hits| - 1];
      Within(hits[..|hits| - 1], end) + (if end - WINDOW < last.at <= end then [last] else [])
  }

  lemma {:induction false} WithinNone(hits: seq<Hit>, end: int)
    requires forall i :: 0 <= i < |hits| ==> hits[i].at <= end - WINDOW
    ensures Within(hits, end) == []
  {
    if hits != [] {
      WithinNone(hits[..|hits| - 1], end);
    }
  }

  lemma {:induction false} WithinBehind(hits: seq<Hit>, end: int, k: nat)
    requires k <= |hits|
    ensures |Within(hits, end)| <= |Within(hits[..k], end)| + |hits| - k
  {
    if k < |hits| {
      WithinBehind(hits[..|hits| - 1], end, k);
      assert hits[..|hits| - 1][..k] == hits[..k];
    } else {
      assert hits[..k] == hits;
    }
  }

  /** If five hits in a row take a minute, no minute holds five. */
  lemma {:induction false} AtMostFour(hits: seq<Hit>, clock: int, end: int)
    requires Ordered(hits, clock) && Spread(hits)
    ensures |Within(hits, end)| <= MAX_PER_WINDOW
  {
    if hits != [] {
      var n := |hits| - 1;
      AtMostFour(hits[..n], clock, end);
      if end - WINDOW < hits[n].at <= end && n >= MAX_PER_WINDOW {
        var k := n - MAX_PER_WINDOW + 1;
        assert hits[n].at - hits[k - 1].at >= WINDOW;
        WithinNone(hits[..k], end);
        WithinBehind(hits, end, k);
      } else if n < MAX_PER_WINDOW {
        WithinBehind(hits, end, 0);
        assert hits[..0] == [];
      }
    }
  }

  /**
    Since its last announce or removal, no minute holds more than four lookups of a session or more than four probes of
    it, and it never looks up the same request twice within a minute.
  */
  lemma {:induction false} RateLimits(events: seq<Event>, id: bytes, end: int)
    requires Monotone(events)
    ensures |Within(History(Run(events).looked, id), end)| <= MAX_PER_WINDOW
    ensures |Within(History(Run(events).probed, id), end)| <= MAX_PER_WINDOW
    ensures NoRepeat(History(Run(events).looked, id))
  {
    RunLimited(events);
    var s := Run(events);
    assert LookupsOk(History(s.looked, id), Table(s, id), s.clock) && ProbesOk(History(s.probed, id), List(s, id), s.clock);
    AtMostFour(History(s.looked, id), s.clock, end);
    AtMostFour(History(s.probed, id), s.clock, end);
  }

  lemma {:induction false} SelectedIsListed(s: Index, branch: bytes)
    requires TwoWay(s) && branch in s.byBranch
    ensures var selected := s.byBranch[branch].selected;
            && selected in s.byBranch[branch].members && s.byBranch[branch].members[selected].sessionId == selected
            && selected in s.bySession && s.bySession[selected] == branch
  {
    var selected := s.byBranch[branch].selected;
    assert branch in s.byBranch && selected in s.byBranch[branch].members;
    assert selected in s.bySession && s.byBranch[branch].members[selected].sessionId == selected;
  }

  /** A reservation names a live session of exactly the branch that was asked for. */
  lemma {:induction false} ReservedIsListed(events: seq<Event>, requester: bytes, requestId: bytes, branch: bytes, now: int)
    requires Reserving(Run(events), requester, requestId, branch, now).1.Some?
    ensures var s, target := Run(events), Reserving(Run(events), requester, requestId, branch, now).1.value;
            && target.sessionId in s.bySession && s.bySession[target.sessionId] == branch
            && branch in s.byBranch && s.byBranch[branch].selected == target.sessionId
  {
    hide TwoWay, Run;
    RunTwoWay(events);
    SelectedIsListed(Run(events), branch);
  }

  /**
    Announcing again clears a session's windows: its next lookup is refused only if the branch is unknown or the session
    that would be probed has been probed too often.
  */
  lemma {:induction false} AnnounceForgives(s: Index, id: bytes, branch: bytes, peerId: bytes, discoverable: bool, replacement: bytes,
                                            requestId: bytes, wanted: bytes, now: int)
    requires TwoWay(s) && Choice(s, id, replacement)
    ensures var s' := Announced(s, id, branch, peerId, discoverable, replacement);
            (Reserving(s', id, requestId, wanted, now).1.Some?
             <==> wanted in s'.byBranch && |Probes(s', s'.byBranch[wanted].selected, now)| < MAX_PER_WINDOW)
  {
    AnnounceTwoWay(s, id, branch, peerId, discoverable, replacement);
    var s' := Announced(s, id, branch, peerId, discoverable, replacement);
    assert Lookups(s', id, now) == map[];
    if wanted in s'.byBranch {
      SelectedIsListed(s', wanted);
    }
  }

  /** The times of all lookups of a session that were admitted in the course of a run. */
  function Successes(events: seq<Event>, id: bytes): seq<int> {
    if events == [] then []
    else
      var front, e := events[..|events| - 1], events[|events| - 1];
      var s := Run(front);
      Successes(front, id) +
      if e.DoReserve? && e.requester == id && Reserving(s, id, e.requestId, e.branch, e.now).1.Some? then [e.now] else []
  }

  function Zeros(n: nat): bytes { seq(n, _ => 0) }

  function Ones(n: nat): seq<int> { seq(n, _ => 1) }

  /** Two sessions announce a branch each, and `id` looks the first one up n times. */
  function Asking(id: bytes, n: nat): seq<Event> {
    if n == 0 then [DoAnnounce([1], [1], [], true, []), DoAnnounce([2], [2], [], true, [])]
    else Asking(id, n - 1) + [DoReserve(id, Zeros(n), [1], 1)]
  }

  /** Then `id` announces itself and looks up the second. */
  function Forgiven(id: bytes, branch: bytes): seq<Event> {
    Asking(id, 4) + [DoAnnounce(id, branch, [], true, [])] + [DoReserve(id, Zeros(5), [2], 1)]
  }

  lemma {:induction false} AnnounceNext(events: seq<Event>, e: Event, id: bytes)
    requires e.DoAnnounce? && Possible(Run(events), e)
    ensures Run(events + [e]) == Announced(Run(events), e.id, e.branch, e.peerId, e.discoverable, e.replacement)
    ensures Successes(events + [e], id) == Successes(events, id)
  {
    hide Announced;
    assert (events + [e])[..|events|] == events;
  }

  lemma {:induction false} ReserveNext(events: seq<Event>, id: bytes, requestId: bytes, branch: bytes, now: int)
    requires Reserving(Run(events), id, requestId, branch, now).1.Some?
    ensures var more := events + [DoReserve(id, requestId, branch, now)];
            && Run(more) == Reserving(Run(events), id, requestId, branch, now).0
            && Successes(more, id) == Successes(events, id) + [now]
  {
    hide Reserving;
    assert (events + [DoReserve(id, requestId, branch, now)])[..|events|] == events;
  }

  function Both(): map<bytes, Targets> {
    map[[1] := Targets(map[[1] := Target([1], [])], [1]), [2] := Targets(map[[2] := Target([2], [])], [2])]
  }

  /** After n admitted lookups of the first branch. */
  predicate Asked(s: Index, id: bytes, n: nat) {
    && s.byBranch == Both() && s.bySession == map[[1] := [1], [2] := [2]] && s.clock <= 1
    && |Lookups(s, id, 1)| == n && (forall request :: request in Lookups(s, id, 1) ==> |request| <= n)
    && List(s, [1]) == Ones(n) && List(s, [2]) == []
  }

  lemma {:induction false} AllAfter(n: nat)
    ensures After(Ones(n), 1 - WINDOW) == Ones(n)
  {
    if n > 0 {
      AllAfter(n - 1);
      assert Ones(n)[..n - 1] == Ones(n - 1);
    }
  }

  lemma {:induction false} OnesNext(n: nat)
    ensures Ones(n) + [1] == Ones(n + 1) && |Zeros(n + 1)| == n + 1
  {
  }

  lemma {:induction false} FiveOnes()
    ensures Ones(5) == [1, 1, 1, 1, 1]
  {
  }

  lemma {:induction false} RecentTwice(window: map<bytes, int>, request: bytes)
    requires Recent(window, 1) == window
    ensures Recent(window[request := 1], 1) == window[request := 1]
  {
  }

  lemma {:induction false} AskGrants(s: Index, id: bytes, n: nat)
    requires Asked(s, id, n) && n < MAX_PER_WINDOW
    ensures Reserving(s, id, Zeros(n + 1), [1], 1)
         == (Admitted(Pruned(s, id, 1), id, [1], Lookups(s, id, 1), Ones(n), Hit(Zeros(n + 1), 1)), Some(Target([1], [])))
  {
    AllAfter(n);
    assert Probes(s, [1], 1) == Ones(n);
  }

  lemma {:induction false} AskedNext(s: Index, s': Index, id: bytes, n: nat, request: bytes)
    requires Asked(s, id, n) && |request| == n + 1
    requires s'.byBranch == s.byBranch && s'.bySession == s.bySession && s'.clock <= 1
    requires Lookups(s', id, 1) == Lookups(s, id, 1)[request := 1] && List(s', [1]) == Ones(n + 1) && List(s', [2]) == []
    ensures Asked(s', id, n + 1)
  {
    hide Lookups, List, Ones, Both;
    assert Lookups(s', id, 1).Keys == Lookups(s, id, 1).Keys + {request};
  }

  lemma {:induction false} AdmittedLists(s: Index, id: bytes, n: nat, request: bytes)
    requires Recent(Lookups(s, id, 1), 1) == Lookups(s, id, 1)
    ensures var s' := Admitted(Pruned(s, id, 1), id, [1], Lookups(s, id, 1), Ones(n), Hit(request, 1));
            && s'.byBranch == s.byBranch && s'.bySession == s.bySession && s'.clock <= 1
            && Lookups(s', id, 1) == Lookups(s, id, 1)[request := 1]
            && List(s', [1]) == Ones(n) + [1] && List(s', [2]) == List(s, [2])
  {
    RecentTwice(Lookups(s, id, 1), request);
    hide Recent, Ones;
  }

  lemma {:induction false} AskOnce(s: Index, id: bytes, n: nat)
    requires Asked(s, id, n) && n < MAX_PER_WINDOW
    ensures Reserving(s, id, Zeros(n + 1), [1], 1).1.Some? && Asked(Reserving(s, id, Zeros(n + 1), [1], 1).0, id, n + 1)
  {
    AskGrants(s, id, n);
    assert Recent(Lookups(s, id, 1), 1) == Lookups(s, id, 1);
    OnesNext(n);
    AdmittedLists(s, id, n, Zeros(n + 1));
    assert List(s, [2]) == [];
    hide Reserving, Recent, Lookups, List, Zeros, Ones, Asked, Admitted, Pruned;
    AskedNext(s, Reserving(s, id, Zeros(n + 1), [1], 1).0, id, n, Zeros(n + 1));
  }

  lemma {:induction false} Listing(id: bytes)
    ensures Asked(Run(Asking(id, 0)), id, 0) && Successes(Asking(id, 0), id) == []
  {
    var first, second := DoAnnounce([1], [1], [], true, []), DoAnnounce([2], [2], [], true, []);
    AnnounceNext([], first, id);
    AnnounceNext([first], second, id);
    assert [] + [first] == [first] && [first] + [second] == Asking(id, 0);
    assert Run([first]) == Empty().(byBranch := map[[1] := Targets(map[[1] := Target([1], [])], [1])], bySession := map[[1] := [1]]);
  }

  lemma {:induction false} AskedMore(events: seq<Event>, id: bytes, n: nat)
    requires Asked(Run(events), id, n) && Successes(events, id) == Ones(n) && n < MAX_PER_WINDOW
    ensures var more := events + [DoReserve(id, Zeros(n + 1), [1], 1)];
            Asked(Run(more), id, n + 1) && Successes(more, id) == Ones(n + 1)
  {
    OnesNext(n);
    hide Asked, Reserving, Run, Successes, Zeros, Ones;
    ClockOf(Run(events), id, n);
    AskOnce(Run(events), id, n);
    ReserveNext(events, id, Zeros(n + 1), [1], 1);
  }

  lemma {:induction false} NoOnes()
    ensures Ones(0) == []
  {
  }

  lemma {:induction false} AskedTimes(id: bytes, n: nat)
    requires n <= MAX_PER_WINDOW
    ensures Asked(Run(Asking(id, n)), id, n) && Successes(Asking(id, n), id) == Ones(n)
  {
    hide Asked, Run, Successes, Zeros, Ones, Both;
    if n == 0 {
      Listing(id);
      NoOnes();
    } else {
      AskedTimes(id, n - 1);
      AskedMore(Asking(id, n - 1), id, n - 1);
    }
  }

  lemma {:induction false} ClockOf(s: Index, id: bytes, n: nat)
    requires Asked(s, id, n)
    ensures s.clock <= 1
  {
  }

  lemma {:induction false} AnnouncesAgain(s: Index, id: bytes, branch: bytes)
    requires Asked(s, id, MAX_PER_WINDOW) && id !in {[1], [2]} && branch !in {[1], [2]}
    ensures Choice(s, id, [])
    ensures var s' := Announced(s, id, branch, [], true, []);
            s'.clock <= 1 && Reserving(s', id, Zeros(5), [2], 1).1.Some?
  {
    var s' := Announced(s, id, branch, [], true, []);
    assert Lookups(s', id, 1) == map[];
    assert s'.byBranch[[2]] == Both()[[2]];
    assert Probes(s', [2], 1) == [];
  }

  /** Five lookups of one session are admitted at one time. */
  lemma {:induction false} FiveAtOnce(id: bytes, branch: bytes)
    requires id !in {[1], [2]} && branch !in {[1], [2]}
    ensures Successes(Forgiven(id, branch), id) == [1, 1, 1, 1, 1]
  {
    var announce := DoAnnounce(id, branch, [], true, []);
    AskedTimes(id, 4);
    OnesNext(4);
    FiveOnes();
    hide Asked, Run, Successes, Reserving, Announced, Asking, Choice, Zeros, Ones;
    AnnouncesAgain(Run(Asking(id, 4)), id, branch);
    AnnounceNext(Asking(id, 4), announce, id);
    ReserveNext(Asking(id, 4) + [announce], id, Zeros(5), [2], 1);
  }

  // ---------------------------------------------------------------- what the calls do to the maps

  /** The requests of the last minute. */
  ghost predicate LastMinute(window: map<bytes, int>, entries: map<bytes, int>, now: int) {
    && (forall r :: r in window <==> r in entries && entries[r] > now - 60_000_000_000)
    && (forall r :: r in window ==> window[r] == entries[r])
  }

  /** The times of the last minute, in their order. */
  ghost predicate LastTimes(kept: seq<int>, times: seq<int>, now: int) {
    exists keep :: Selections.Selected(kept, times, keep) && IsLate(keep, now - 60_000_000_000)
  }

  ghost predicate IsLate(keep: int -> bool, from: int) {
    forall t :: keep(t) <==> t > from
  }

  lemma {:induction false} AfterSelected(times: seq<int>, from: int, keep: int -> bool)
    requires IsLate(keep, from)
    ensures Selections.Selected(After(times, from), times, keep)
  {
    hide Selections.Selected;
    if times == [] {
      Selections.NoneSelected(keep);
    } else {
      var n := |times| - 1;
      AfterSelected(times[..n], from, keep);
      Selections.SelectNext(After(times[..n], from), times[..n], times[n], keep);
      assert After(times, from) == if keep(times[n]) then After(times[..n], from) + [times[n]] else After(times[..n], from);
      assert times == times[..n] + [times[n]];
      hide IsLate;
    }
  }

  lemma {:induction false} AfterExact(times: seq<int>, now: int)
    ensures LastTimes(After(times, now - WINDOW), times, now)
  {
    var keep := (t: int) => t > now - WINDOW;
    AfterSelected(times, now - WINDOW, keep);
    hide Selections.Selected, After;
  }

  /** Whom a branch offers to the next lookup. */
  function SelectedOf(s: Index, branch: bytes): bytes {
    if branch in s.byBranch then s.byBranch[branch].selected else []
  }

  /**
    A lookup is admitted exactly if the requester has made fewer than four in the last minute, none of them the same, the
    branch is known, and its selected session has been probed fewer than four times in the last minute.
  */
  ghost predicate Reserves(s: Index, s': Index, requester: bytes, requestId: bytes, branch: bytes, now: int, target: Option<Target>) {
    exists window, kept ::
      && LastMinute(window, if requester in s.lookups then s.lookups[requester] else map[], now)
      && LastTimes(kept, if SelectedOf(s, branch) in s.probes then s.probes[SelectedOf(s, branch)] else [], now)
      && ReservesWith(s, s', requester, requestId, branch, now, target, window, kept)
  }

  ghost predicate ReservesWith(s: Index, s': Index, requester: bytes, requestId: bytes, branch: bytes, now: int, target: Option<Target>,
                               window: map<bytes, int>, kept: seq<int>) {
    && (target.Some? <==> |window| < 4 && requestId !in window && branch in s.byBranch && |kept| < 4)
    && (target.Some? ==> SelectedOf(s, branch) in s.byBranch[branch].members && target.value == s.byBranch[branch].members[SelectedOf(s, branch)])
    && Counts(s, s', requester, requestId, SelectedOf(s, branch), now, target.Some?, window, kept)
  }

  /** An admitted lookup counts for the requester and for the session that is probed; a refused one at most forgets. */
  predicate Counts(s: Index, s': Index, requester: bytes, requestId: bytes, selected: bytes, now: int, admitted: bool,
                   window: map<bytes, int>, kept: seq<int>) {
    && s'.byBranch == s.byBranch && s'.bySession == s.bySession
    && s'.lookups == (if admitted then s.lookups[requester := window[requestId := now]]
                      else if requester in s.lookups then s.lookups[requester := window] else s.lookups)
    && (admitted ==> s'.probes == s.probes[selected := kept + [now]])
    && (!admitted ==> s'.probes == s.probes || s'.probes == s.probes[selected := kept])
  }

  lemma {:induction false} ReserveExact(s: Index, requester: bytes, requestId: bytes, branch: bytes, now: int)
    requires TwoWay(s)
    ensures Reserves(s, Reserving(s, requester, requestId, branch, now).0, requester, requestId, branch, now, Reserving(s, requester, requestId, branch, now).1)
  {
    var selected := SelectedOf(s, branch);
    var window, kept := Lookups(s, requester, now), Probes(s, selected, now);
    AfterExact(if selected in s.probes then s.probes[selected] else [], now);
    ReservesWithThese(s, requester, requestId, branch, now);
    hide LastTimes, After, TwoWay, Reserving, ReservesWith, SelectedOf;
    assert LastMinute(window, if requester in s.lookups then s.lookups[requester] else map[], now);
    assert LastTimes(kept, if selected in s.probes then s.probes[selected] else [], now) by { AfterNone(now); }
  }

  lemma {:induction false} AfterNone(now: int)
    ensures After([], now - WINDOW) == []
  {
  }

  lemma {:induction false} ReservesWithThese(s: Index, requester: bytes, requestId: bytes, branch: bytes, now: int)
    requires TwoWay(s)
    ensures var (s', target) := Reserving(s, requester, requestId, branch, now);
            ReservesWith(s, s', requester, requestId, branch, now, target, Lookups(s, requester, now), Probes(s, SelectedOf(s, branch), now))
  {
    if branch in s.byBranch {
      SelectedIsListed(s, branch);
    }
    hide TwoWay, Lookups, Probes;
    CountsThese(s, requester, requestId, branch, now);
    hide Counts, Pruned, Admitted;
  }

  lemma {:induction false} CountsThese(s: Index, requester: bytes, requestId: bytes, branch: bytes, now: int)
    requires branch in s.byBranch && s.byBranch[branch].selected in s.byBranch[branch].members ==>
               s.byBranch[branch].members[s.byBranch[branch].selected].sessionId == s.byBranch[branch].selected
    ensures var (s', target) := Reserving(s, requester, requestId, branch, now);
            Counts(s, s', requester, requestId, SelectedOf(s, branch), now, target.Some?, Lookups(s, requester, now), Probes(s, SelectedOf(s, branch), now))
  {
    hide Lookups, Probes;
  }

  /** The session is listed under this branch alone, or nowhere; every other one stays where it is. */
  ghost predicate Relists(s: Index, s': Index, id: bytes, branch: Option<bytes>, peerId: bytes) {
    && s'.bySession == (if branch.Some? then s.bySession[id := branch.value] else s.bySession - {id})
    && (forall b, other :: other != id ==> (IsMember(s', b, other) <==> IsMember(s, b, other)))
    && (forall b, other :: other != id && IsMember(s, b, other) ==> MemberStays(s, s', b, other))
    && (forall b :: IsMember(s', b, id) <==> branch == Some(b))
    && (branch.Some? ==> s'.byBranch[branch.value].members[id] == Target(id, peerId) && s'.byBranch[branch.value].selected == id)
    && (forall b :: b in s'.byBranch && branch != Some(b) && s'.byBranch[b].selected != SelectedOf(s, b) ==> SelectedOf(s, b) == id)
  }

  predicate MemberStays(s: Index, s': Index, b: bytes, id: bytes) {
    && b in s.byBranch && id in s.byBranch[b].members && b in s'.byBranch && id in s'.byBranch[b].members
    && s'.byBranch[b].members[id] == s.byBranch[b].members[id]
  }

  predicate IsMember(s: Index, b: bytes, id: bytes) { b in s.byBranch && id in s.byBranch[b].members }

  /** Nothing is to its name any more. */
  predicate Forgets(s: Index, s': Index, id: bytes) {
    s'.lookups == s.lookups - {id} && s'.probes == s.probes - {id} && s'.looked == s.looked - {id} && s'.probed == s.probed - {id} && s'.clock == s.clock
  }

  lemma {:induction false} RemovedMember(s: Index, id: bytes, replacement: bytes, b: bytes, other: bytes)
    requires TwoWay(s)
    ensures var s' := Removed(s, id, replacement);
            && (IsMember(s', b, other) <==> IsMember(s, b, other) && other != id)
            && (IsMember(s', b, other) ==> MemberStays(s, s', b, other))
  {
    if id in s.bySession {
      assert s.bySession[id] in s.byBranch;
      var members := s.byBranch[s.bySession[id]].members;
      assert other in members && other != id ==> other in members - {id};
      assert other in s.byBranch[s.bySession[id]].members - {id} ==> members - {id} != map[];
    }
    assert IsMember(s, b, id) ==> id in s.bySession && s.bySession[id] == b;
    hide TwoWay;
  }

  lemma {:induction false} RemovedRest(s: Index, id: bytes, replacement: bytes, b: bytes)
    requires TwoWay(s)
    ensures var s' := Removed(s, id, replacement);
            && s'.bySession == s.bySession - {id} && Forgets(s, s', id)
            && (b in s'.byBranch ==> b in s.byBranch && (s'.byBranch[b].selected == s.byBranch[b].selected || s.byBranch[b].selected == id))
  {
    if id in s.bySession {
      assert s.bySession[id] in s.byBranch;
    } else {
      assert s.bySession - {id} == s.bySession;
    }
    hide TwoWay;
  }

  lemma {:induction false} RemovedExact(s: Index, id: bytes, replacement: bytes)
    requires TwoWay(s)
    ensures Relists(s, Removed(s, id, replacement), id, None, []) && Forgets(s, Removed(s, id, replacement), id)
  {
    var s' := Removed(s, id, replacement);
    hide TwoWay, Removed, IsMember;
    RemovedRest(s, id, replacement, []);
    forall b, other ensures IsMember(s', b, other) <==> IsMember(s, b, other) && other != id {
      RemovedMember(s, id, replacement, b, other);
    }
    forall b, other | other != id && IsMember(s, b, other) ensures MemberStays(s, s', b, other) {
      RemovedMember(s, id, replacement, b, other);
    }
    forall b | b in s'.byBranch ensures s'.byBranch[b].selected == SelectedOf(s, b) || SelectedOf(s, b) == id {
      RemovedRest(s, id, replacement, b);
    }
  }

  lemma {:induction false} AnnouncedExact(s: Index, id: bytes, branch: bytes, peerId: bytes, discoverable: bool, replacement: bytes)
    requires TwoWay(s)
    ensures Relists(s, Announced(s, id, branch, peerId, discoverable, replacement), id, if discoverable then Some(branch) else None, peerId)
    ensures Forgets(s, Announced(s, id, branch, peerId, discoverable, replacement), id)
  {
    var cleared := Removed(s, id, replacement);
    RemovedExact(s, id, replacement);
    hide Removed, TwoWay;
    if discoverable {
      Lists(s, cleared, id, branch, peerId);
    }
  }

  lemma {:induction false} StaysListed(s: Index, cleared: Index, id: bytes, branch: bytes, targets: Targets, b: bytes, other: bytes)
    requires MemberStays(s, cleared, b, other) && other != id
    requires id in targets.members
    requires branch in cleared.byBranch ==> targets.members == cleared.byBranch[branch].members[id := targets.members[id]]
    ensures MemberStays(s, cleared.(byBranch := cleared.byBranch[branch := targets], bySession := cleared.bySession[id := branch]), b, other)
  {
  }

  lemma {:induction false} Lists(s: Index, cleared: Index, id: bytes, branch: bytes, peerId: bytes)
    requires Relists(s, cleared, id, None, []) && Forgets(s, cleared, id)
    ensures var members := if branch in cleared.byBranch then cleared.byBranch[branch].members else map[];
            var s' := cleared.(byBranch := cleared.byBranch[branch := Targets(members[id := Target(id, peerId)], id)], bySession := cleared.bySession[id := branch]);
            Relists(s, s', id, Some(branch), peerId) && Forgets(s, s', id)
  {
    var members := if branch in cleared.byBranch then cleared.byBranch[branch].members else map[];
    var s' := cleared.(byBranch := cleared.byBranch[branch := Targets(members[id := Target(id, peerId)], id)], bySession := cleared.bySession[id := branch]);
    forall b, other ensures IsMember(s', b, other) <==> IsMember(cleared, b, other) || (b == branch && other == id) {}
    forall b, other | other != id && IsMember(s, b, other) ensures MemberStays(s, s', b, other) {
      hide IsMember, MemberStays;
      StaysListed(s, cleared, id, branch, Targets(members[id := Target(id, peerId)], id), b, other);
    }
    assert IsMember(s', branch, id);
    hide IsMember, MemberStays;
    forall b | b in s'.byBranch && b != branch && s'.byBranch[b].selected != SelectedOf(s, b) ensures SelectedOf(s, b) == id {
      assert b in cleared.byBranch;
    }
    hide SelectedOf;
  }

  // ---------------------------------------------------------------- in place

  class ContactIndex {
    var byBranch: map<bytes, Targets>
    var bySession: map<bytes, bytes>
    var lookups: map<bytes, map<bytes, int>>
    var probes: map<bytes, seq<int>>
    ghost var looked: map<bytes, seq<Hit>>
    ghost var probed: map<bytes, seq<Hit>>
    ghost var clock: int
    ghost var trace: seq<Event>

    ghost function View(): Index
      reads this
    {
      Index(byBranch, bySession, lookups, probes, looked, probed, clock)
    }

    /** The index is where the run it has been through leads. */
    ghost predicate Valid()
      reads this
    {
      View() == Run(trace)
    }

    constructor ()
      ensures Valid() && trace == []
    {
      byBranch, bySession, lookups, probes := map[], map[], map[], map[];
      looked, probed, clock, trace := map[], map[], 0, [];
    }

    /** What holds of the index between any two calls; the limits hold as long as the clock has not gone back. */
    lemma {:induction false} Promises(id: bytes, end: int)
      requires Valid()
      ensures TwoWay(View())
      ensures Monotone(trace) ==>
                && |Within(History(looked, id), end)| <= MAX_PER_WINDOW
                && |Within(History(probed, id), end)| <= MAX_PER_WINDOW
                && NoRepeat(History(looked, id))
    {
      hide TwoWay, Within, NoRepeat;
      RunTwoWay(trace);
      if Monotone(trace) {
        RateLimits(trace, id, end);
      }
    }

    /** What has just happened becomes the last event of the run. */
    ghost method Record(e: Event)
      requires Possible(Run(trace), e) && View() == Step(Run(trace), e)
      modifies this`trace
      ensures Valid() && trace == old(trace) + [e]
    {
      trace := trace + [e];
      assert trace[..|trace| - 1] == old(trace);
    }

    method Unlist(id: bytes) returns (ghost replacement: bytes)
      requires TwoWay(View()) && id in bySession
      modifies this`byBranch
      ensures Choice(old(View()), id, replacement)
      ensures var branch := bySession[id];
              var left := Reselect(old(byBranch)[branch], id, replacement);
              byBranch == if left.members == map[] then old(byBranch) - {branch} else old(byBranch)[branch := left]
    {
      var branch := bySession[id];
      var targets := byBranch[branch];
      var members := targets.members - {id};
      if |members| == 0 {
        byBranch := byBranch - {branch};
        return [];
      }
      var first :| first in members;
      byBranch := byBranch[branch := Targets(members, if targets.selected == id then first else targets.selected)];
      return first;
    }

    /** removeLocked */
    method RemoveLocked(id: bytes) returns (ghost replacement: bytes)
      requires TwoWay(View())
      modifies this`byBranch, this`bySession, this`lookups, this`probes, this`looked, this`probed
      ensures Choice(old(View()), id, replacement) && View() == Removed(old(View()), id, replacement)
    {
      hide TwoWay;
      replacement := [];
      if id in bySession {
        Listed(View(), id);
        replacement := Unlist(id);
        bySession := bySession - {id};
      }
      lookups, probes := lookups - {id}, probes - {id};
      looked, probed := looked - {id}, probed - {id};
    }

    static lemma {:induction false} Listed(s: Index, id: bytes)
      requires TwoWay(s) && id in s.bySession
      ensures s.bySession[id] in s.byBranch
    {
    }

    /** The session is gone from both directions, and a branch that had others keeps a session selected. */
    method Remove(id: bytes) returns (ghost replacement: bytes)
      requires Valid()
      modifies this
      ensures Valid() && trace == old(trace) + [DoRemove(id, replacement)]
      ensures id !in bySession && forall b :: b in byBranch ==> id !in byBranch[b].members && byBranch[b].selected in byBranch[b].members
      ensures Relists(old(View()), View(), id, None, []) && Forgets(old(View()), View(), id)
    {
      hide Run, Removed, Choice, Relists, Forgets;
      Promises(id, 0);
      replacement := RemoveLocked(id);
      RemoveTwoWay(old(View()), id, replacement);
      RemovedExact(old(View()), id, replacement);
      hide TwoWay;
      Record(DoRemove(id, replacement));
      GoneIs(View(), id);
    }

    static lemma {:induction false} GoneIs(s: Index, id: bytes)
      requires TwoWay(s) && id !in s.bySession
      ensures forall b :: b in s.byBranch ==> id !in s.byBranch[b].members && s.byBranch[b].selected in s.byBranch[b].members
    {
    }

    /** The session starts over: it is listed under that branch alone, selected there, and has no lookups or probes to its name. */
    method Announce(id: bytes, branch: bytes, peerId: bytes, discoverable: bool) returns (ghost replacement: bytes)
      requires Valid()
      modifies this
      ensures Valid() && trace == old(trace) + [DoAnnounce(id, branch, peerId, discoverable, replacement)]
      ensures id !in lookups && id !in probes
      ensures discoverable ==> id in bySession && bySession[id] == branch && branch in byBranch && byBranch[branch].selected == id
      ensures !discoverable ==> id !in bySession
      ensures Relists(old(View()), View(), id, if discoverable then Some(branch) else None, peerId) && Forgets(old(View()), View(), id)
    {
      hide Run, Choice, Relists, Forgets;
      Promises(id, 0);
      replacement := RemoveLocked(id);
      assert id !in bySession by { RemoveTwoWay(old(View()), id, replacement); }
      AnnouncedExact(old(View()), id, branch, peerId, discoverable, replacement);
      hide TwoWay;
      if discoverable {
        var members := if branch in byBranch then byBranch[branch].members else map[];
        byBranch := byBranch[branch := Targets(members[id := Target(id, peerId)], id)];
        bySession := bySession[id := branch];
      }
      Record(DoAnnounce(id, branch, peerId, discoverable, replacement));
    }

    /** Drop the requests of a window that are a minute old. */
    static method PruneRequests(entries: map<bytes, int>, now: int) returns (kept: map<bytes, int>)
      ensures kept == Recent(entries, now)
    {
      kept := entries;
      var pending := entries.Keys;
      while pending != {}
        invariant pending <= kept.Keys <= entries.Keys
        invariant forall id :: id in kept <==> id in entries && (id in pending || entries[id] > now - WINDOW)
        invariant forall id :: id in kept ==> kept[id] == entries[id]
        decreases |pending|
      {
        var id :| id in pending;
        pending := pending - {id};
        if kept[id] <= now - WINDOW {
          kept := kept - {id};
        }
      }
    }

    static method KeepAfter(times: seq<int>, from: int) returns (kept: seq<int>)
      ensures kept == After(times, from)
    {
      kept := [];
      var i := 0;
      while i < |times|
        invariant 0 <= i <= |times| && kept == After(times[..i], from)
      {
        if times[i] > from {
          kept := kept + [times[i]];
        }
        assert times[..i + 1][..i] == times[..i];
        i := i + 1;
      }
      assert times[..i] == times;
    }

    /** The requester's window, without the requests that are a minute old. */
    method Window(requester: bytes, now: int) returns (window: map<bytes, int>)
      modifies this`lookups, this`clock
      ensures window == Lookups(old(View()), requester, now) && View() == Pruned(old(View()), requester, now)
    {
      clock := now;
      if requester !in lookups {
        return map[];
      }
      window := PruneRequests(lookups[requester], now);
      lookups := lookups[requester := window];
    }

    /** A reservation names the session selected for exactly that branch, and is refused for the reasons that Reserving has. */
    method Reserve(requester: bytes, requestId: bytes, branch: bytes, now: int) returns (target: Option<Target>)
      requires Valid()
      modifies this
      ensures Valid() && trace == old(trace) + [DoReserve(requester, requestId, branch, now)]
      ensures Reserving(old(View()), requester, requestId, branch, now) == (View(), target)
      ensures Reserves(old(View()), View(), requester, requestId, branch, now, target)
      ensures target.Some? ==>
                && target.value.sessionId in bySession && bySession[target.value.sessionId] == branch
                && branch in byBranch && byBranch[branch].selected == target.value.sessionId
    {
      hide Run, Reserving, Reserves;
      assert Reserves(View(), Reserving(View(), requester, requestId, branch, now).0, requester, requestId, branch, now, Reserving(View(), requester, requestId, branch, now).1) by {
        hide TwoWay;
        RunTwoWay(trace);
        ReserveExact(View(), requester, requestId, branch, now);
      }
      if Reserving(View(), requester, requestId, branch, now).1.Some? {
        ReservedIsListed(trace, requester, requestId, branch, now);
      }
      target := ReserveLocked(requester, requestId, branch, now);
      Record(DoReserve(requester, requestId, branch, now));
    }

    method ReserveLocked(requester: bytes, requestId: bytes, branch: bytes, now: int) returns (target: Option<Target>)
      modifies this`lookups, this`probes, this`looked, this`probed, this`clock
      ensures Reserving(old(View()), requester, requestId, branch, now) == (View(), target)
    {
      hide Recent, After;
      var window := Window(requester, now);
      if |window| >= MAX_PER_WINDOW || requestId in window || branch !in byBranch {
        return None;
      }
      var targets := byBranch[branch];
      if targets.selected !in targets.members {
        return None;
      }
      var found := targets.members[targets.selected];
      var kept: seq<int> := [];
      if found.sessionId in probes {
        kept := KeepAfter(probes[found.sessionId], now - WINDOW);
      }
      if |kept| >= MAX_PER_WINDOW {
        probes := probes[found.sessionId := kept];
        return None;
      }
      Count(requester, found.sessionId, window, kept, Hit(requestId, now));
      return Some(found);
    }

    method Count(requester: bytes, target: bytes, window: map<bytes, int>, kept: seq<int>, hit: Hit)
      modifies this`lookups, this`probes, this`looked, this`probed
      ensures View() == Admitted(old(View()), requester, target, window, kept, hit)
    {
      lookups := lookups[requester := window[hit.requestId := hit.at]];
      probes := probes[target := kept + [hit.at]];
      looked := looked[requester := History(looked, requester) + [hit]];
      probed := probed[target := History(probed, target) + [hit]];
    }
  }
}
