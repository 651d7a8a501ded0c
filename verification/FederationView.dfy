/**
  How a relay turns untrusted carrier observations into a short ranked list of other relays
  (internal/relay/wss/discovered_federation.go, refresh).
*/
module FederationView {
  import opened Bytes
  import opened Sorting
  import Selections

  /** maxFederationPeers */
  const MAX_PEERS := 8

  datatype Endpoint = Endpoint(transport: bytes, uri: bytes, priority: int)

  /** What validation gives for an accepted wrapper, as far as selection and ranking read it. */
  datatype Beacon = Beacon(
    identity: bytes,
    sequence: uint64,
    wrapper: bytes,
    federates: bool,
    profiles: seq<bytes>,
    endpoints: seq<Endpoint>,
    expiresAt: int)

  datatype Candidate = Candidate(endpoint: bytes, priority: int, identity: bytes, profile: bytes, expiresAt: int)

  // ---------------------------------------------------------------- the beacons of one identity

  /** The state that the selection loop keeps for one identity. */
  datatype Track = Unseen | Current(beacon: Beacon) | Rejected

  function Observe(t: Track, b: Beacon): Track {
    match t
    case Rejected => Rejected
    case Unseen => Current(b)
    case Current(c) =>
      if b.sequence > c.sequence then Current(b)
      else if b.sequence == c.sequence && b.wrapper != c.wrapper then Rejected
      else t
  }

  function TrackOf(q: seq<Beacon>): Track {
    if q == [] then Unseen else Observe(TrackOf(q[..|q| - 1]), q[|q| - 1])
  }

  /** Another beacon of the highest sequence seen up to then, with another wrapper. */
  ghost predicate Equivocates(q: seq<Beacon>) {
    exists i, j :: 0 <= i < j < |q| && Clash(q, i, j)
  }

  ghost predicate Clash(q: seq<Beacon>, i: nat, j: nat)
    requires i < |q| && j < |q|
  {
    q[i].sequence == q[j].sequence && q[i].wrapper != q[j].wrapper && forall m :: 0 <= m < j ==> q[m].sequence <= q[j].sequence
  }

  /** The first beacon of the highest sequence. */
  ghost predicate ForemostAt(q: seq<Beacon>, b: Beacon, i: nat) {
    && i < |q| && q[i] == b
    && (forall m :: 0 <= m < |q| ==> q[m].sequence <= b.sequence)
    && (forall m :: 0 <= m < i ==> q[m].sequence < b.sequence)
  }

  ghost predicate Foremost(q: seq<Beacon>, b: Beacon) {
    exists i: nat :: ForemostAt(q, b, i)
  }

  lemma {:induction false} StaysRejected(q: seq<Beacon>, n: nat)
    requires |q| == n + 1 && Equivocates(q[..n])
    ensures Equivocates(q)
  {
    var i, j :| 0 <= i < j < n && Clash(q[..n], i, j);
    assert Clash(q, i, j);
  }

  lemma {:induction false} CurrentNext(q: seq<Beacon>, n: nat, c: Beacon)
    requires |q| == n + 1 && !Equivocates(q[..n]) && Foremost(q[..n], c)
    ensures var t := Observe(Current(c), q[n]);
            (t == Rejected <==> Equivocates(q)) && (t.Current? ==> Foremost(q, t.beacon))
  {
    var last := q[n];
    var i: nat :| ForemostAt(q[..n], c, i);
    NoEarlierClash(q, n);
    if last.sequence > c.sequence {
      assert ForemostAt(q, last, n);
    } else {
      assert ForemostAt(q, c, i) && q[i].sequence == c.sequence;
      SameAsFirst(q[..n], i);
      if last.sequence == c.sequence && last.wrapper != c.wrapper {
        assert Clash(q, i, n);
      }
    }
  }

  /** The loop rejects an identity exactly for an equivocation, and otherwise keeps its foremost beacon. */
  lemma {:induction false} TrackExact(q: seq<Beacon>)
    ensures TrackOf(q) == Unseen <==> q == []
    ensures TrackOf(q) == Rejected <==> Equivocates(q)
    ensures TrackOf(q).Current? ==> Foremost(q, TrackOf(q).beacon)
  {
    if q != [] {
      var n := |q| - 1;
      TrackExact(q[..n]);
      match TrackOf(q[..n])
      case Unseen => assert ForemostAt(q, q[0], 0);
      case Rejected => StaysRejected(q, n);
      case Current(c) => CurrentNext(q, n, c);
    }
  }

  /** A clash is either in the prefix or ends at the last beacon. */
  lemma {:induction false} NoEarlierClash(q: seq<Beacon>, n: nat)
    requires |q| == n + 1 && !Equivocates(q[..n])
    ensures Equivocates(q) <==> exists i :: 0 <= i < n && Clash(q, i, n)
  {
    if Equivocates(q) {
      var i, j :| 0 <= i < j < |q| && Clash(q, i, j);
      if j < n {
        assert Clash(q[..n], i, j);
      }
    }
  }

  lemma {:induction false} SameAsFirst(q: seq<Beacon>, i: nat)
    requires i < |q| && !Equivocates(q)
    requires forall m :: 0 <= m < |q| ==> q[m].sequence <= q[i].sequence
    ensures forall k :: 0 <= k < |q| && q[k].sequence == q[i].sequence ==> q[k].wrapper == q[i].wrapper
  {
    forall k | 0 <= k < |q| && q[k].sequence == q[i].sequence ensures q[k].wrapper == q[i].wrapper {
      if k < i {
        assert !Clash(q, k, i);
      } else if i < k {
        assert !Clash(q, i, k);
      }
    }
  }

  /**
    A kept beacon carries the highest sequence seen for its identity, and no beacon of that sequence had another
    wrapper.
  */
  lemma {:induction false} KeptIsUncontested(q: seq<Beacon>, b: Beacon)
    requires TrackOf(q) == Current(b)
    ensures b in q && forall k :: 0 <= k < |q| ==>
              q[k].sequence <= b.sequence && (q[k].sequence == b.sequence ==> q[k].wrapper == b.wrapper)
  {
    TrackExact(q);
    var i: nat :| ForemostAt(q, b, i);
    SameAsFirst(q, i);
  }

  /** In whatever order they come: a contest at the highest sequence rejects, and no contest at all keeps. */
  lemma {:induction false} OrderMattersBelow(q: seq<Beacon>)
    requires q != []
    ensures (exists a, b :: a in q && b in q && a.sequence == b.sequence && a.wrapper != b.wrapper
                            && forall c :: c in q ==> c.sequence <= a.sequence) ==> TrackOf(q) == Rejected
    ensures (forall a, b :: a in q && b in q && a.sequence == b.sequence ==> a.wrapper == b.wrapper) ==> TrackOf(q).Current?
  {
    TrackExact(q);
    if a, b :| a in q && b in q && a.sequence == b.sequence && a.wrapper != b.wrapper && forall c :: c in q ==> c.sequence <= a.sequence {
      var i :| 0 <= i < |q| && q[i] == a;
      var j :| 0 <= j < |q| && q[j] == b;
      assert Clash(q, if i < j then i else j, if i < j then j else i);
    }
    if Equivocates(q) {
      var i, j :| 0 <= i < j < |q| && Clash(q, i, j);
      assert q[i] in q && q[j] in q && q[i].sequence == q[j].sequence && q[i].wrapper != q[j].wrapper;
    }
  }

  /** Between those two the order decides: a lower contest rejects when it is met before the higher beacon, and only then. */
  lemma {:induction false} LowerContest(a: Beacon, b: Beacon, c: Beacon)
    requires a.sequence == b.sequence < c.sequence && a.wrapper != b.wrapper
    ensures TrackOf([a, b, c]) == Rejected && TrackOf([c, a, b]) == Current(c)
  {
    assert [a, b, c] == [] + [a] + [b] + [c] && [c, a, b] == [] + [c] + [a] + [b];
    TrackNext([], a);
    TrackNext([] + [a], b);
    TrackNext([] + [a] + [b], c);
    TrackNext([], c);
    TrackNext([] + [c], a);
    TrackNext([] + [c] + [a], b);
  }

  // ---------------------------------------------------------------- the selection loop

  predicate Qualifies(result: Option<Beacon>, identity: bytes) {
    result.Some? && result.value.federates && result.value.identity == identity
  }

  /** The qualifying beacons of one identity, in the order of the observations. */
  function Qualifying(observations: seq<bytes>, validate: bytes -> Option<Beacon>, identity: bytes): (q: seq<Beacon>)
    ensures forall b :: b in q ==> b.identity == identity
  {
    if observations == [] then []
    else
      var q := Qualifying(observations[..|observations| - 1], validate, identity);
      var result := validate(observations[|observations| - 1]);
      if Qualifies(result, identity) then q + [result.value] else q
  }

  /** The observations that validate to a federating beacon of this identity. */
  ghost predicate FederatesAs(keep: bytes -> bool, validate: bytes -> Option<Beacon>, identity: bytes) {
    forall o :: keep(o) <==> validate(o).Some? && validate(o).value.federates && validate(o).value.identity == identity
  }

  /** The beacons of those observations, in their order. */
  ghost predicate BeaconsOf(q: seq<Beacon>, observations: seq<bytes>, validate: bytes -> Option<Beacon>, identity: bytes) {
    exists kept, keep ::
      Selections.Selected(kept, observations, keep) && FederatesAs(keep, validate, identity) && AllValidated(kept, validate, q)
  }

  predicate AllValidated(kept: seq<bytes>, validate: bytes -> Option<Beacon>, q: seq<Beacon>) {
    |q| == |kept| && forall i :: 0 <= i < |q| ==> validate(kept[i]) == Some(q[i])
  }

  lemma {:induction false} ValidatedNext(kept: seq<bytes>, validate: bytes -> Option<Beacon>, q: seq<Beacon>, o: bytes)
    requires AllValidated(kept, validate, q) && validate(o).Some?
    ensures AllValidated(kept + [o], validate, q + [validate(o).value])
  {
  }

  lemma {:induction false} NoneQualify(validate: bytes -> Option<Beacon>, identity: bytes)
    ensures Qualifying([], validate, identity) == [] && AllValidated([], validate, [])
  {
  }

  lemma {:induction false} QualifyingSelected(observations: seq<bytes>, validate: bytes -> Option<Beacon>, identity: bytes, keep: bytes -> bool)
    returns (kept: seq<bytes>)
    requires FederatesAs(keep, validate, identity)
    ensures Selections.Selected(kept, observations, keep) && AllValidated(kept, validate, Qualifying(observations, validate, identity))
  {
    hide Selections.Selected, AllValidated, Qualifying;
    if observations == [] {
      kept := [];
      Selections.NoneSelected(keep);
      NoneQualify(validate, identity);
    } else {
      var n := |observations| - 1;
      var last := observations[n];
      kept := QualifyingSelected(observations[..n], validate, identity, keep);
      Selections.SelectNext(kept, observations[..n], last, keep);
      assert observations == observations[..n] + [last] && observations[..n + 1] == observations;
      QualifyingNext(observations, validate, n, identity);
      assert keep(last) <==> Qualifies(validate(last), identity);
      if keep(last) {
        ValidatedNext(kept, validate, Qualifying(observations[..n], validate, identity), last);
        kept := kept + [last];
      }
    }
  }

  lemma {:induction false} QualifyingExact(observations: seq<bytes>, validate: bytes -> Option<Beacon>, identity: bytes)
    ensures BeaconsOf(Qualifying(observations, validate, identity), observations, validate, identity)
  {
    var keep := (o: bytes) => validate(o).Some? && validate(o).value.federates && validate(o).value.identity == identity;
    var kept := QualifyingSelected(observations, validate, identity, keep);
  }

  /**
    After all observations: no beacon for an identity that has none, none for one that equivocates, and otherwise the first
    beacon of its highest sequence.
  */
  ghost predicate Outcome(validated: map<bytes, Beacon>, equivocating: set<bytes>, identity: bytes, q: seq<Beacon>) {
    && (identity in equivocating <==> Equivocates(q))
    && (identity in validated <==> q != [] && !Equivocates(q))
    && (identity in validated ==> Foremost(q, validated[identity]))
  }

  ghost predicate Settled(observations: seq<bytes>, validate: bytes -> Option<Beacon>, validated: map<bytes, Beacon>, equivocating: set<bytes>, identity: bytes) {
    exists q :: BeaconsOf(q, observations, validate, identity) && Outcome(validated, equivocating, identity, q)
  }

  lemma {:induction false} OutcomeIs(validated: map<bytes, Beacon>, equivocating: set<bytes>, identity: bytes, q: seq<Beacon>)
    requires Held(validated, equivocating, identity) == TrackOf(q) && (identity in validated ==> identity !in equivocating)
    ensures Outcome(validated, equivocating, identity, q)
  {
    TrackExact(q);
    hide TrackOf, Equivocates, Foremost;
  }

  function Held(validated: map<bytes, Beacon>, equivocating: set<bytes>, identity: bytes): Track {
    if identity in equivocating then Rejected
    else if identity in validated then Current(validated[identity])
    else Unseen
  }

  lemma {:induction false} QualifyingNext(observations: seq<bytes>, validate: bytes -> Option<Beacon>, i: nat, identity: bytes)
    requires i < |observations|
    ensures var q, result := Qualifying(observations[..i], validate, identity), validate(observations[i]);
            Qualifying(observations[..i + 1], validate, identity) == if Qualifies(result, identity) then q + [result.value] else q
  {
    assert observations[..i + 1][..i] == observations[..i];
  }

  lemma {:induction false} TrackNext(q: seq<Beacon>, b: Beacon)
    ensures TrackOf(q + [b]) == Observe(TrackOf(q), b)
  {
    assert (q + [b])[..|q|] == q;
  }

  method Select(observations: seq<bytes>, validate: bytes -> Option<Beacon>)
    returns (validated: map<bytes, Beacon>, equivocating: set<bytes>)
    ensures forall k :: Held(validated, equivocating, k) == TrackOf(Qualifying(observations, validate, k))
    ensures forall k :: k in validated ==> validated[k].identity == k && k !in equivocating
    ensures forall k :: Settled(observations, validate, validated, equivocating, k)
  {
    validated, equivocating := map[], {};
    var i := 0;
    while i < |observations|
      invariant 0 <= i <= |observations|
      invariant forall k :: Held(validated, equivocating, k) == TrackOf(Qualifying(observations[..i], validate, k))
      invariant forall k :: k in validated ==> validated[k].identity == k && k !in equivocating
    {
      var result := validate(observations[i]);
      ghost var validated0, equivocating0 := validated, equivocating;
      if result.Some? && result.value.federates {
        var beacon := result.value;
        var identity := beacon.identity;
        if identity !in equivocating {
          if identity !in validated || beacon.sequence > validated[identity].sequence {
            validated := validated[identity := beacon];
          } else if beacon.sequence == validated[identity].sequence && beacon.wrapper != validated[identity].wrapper {
            validated := validated - {identity};
            equivocating := equivocating + {identity};
          }
        }
      }
      forall k ensures Held(validated, equivocating, k) == TrackOf(Qualifying(observations[..i + 1], validate, k)) {
        QualifyingNext(observations, validate, i, k);
        assert Held(validated0, equivocating0, k) == TrackOf(Qualifying(observations[..i], validate, k));
        if Qualifies(result, k) {
          TrackNext(Qualifying(observations[..i], validate, k), result.value);
        }
      }
      i := i + 1;
    }
    assert observations[..|observations|] == observations;
    forall k ensures Settled(observations, validate, validated, equivocating, k) {
      QualifyingExact(observations, validate, k);
      OutcomeIs(validated, equivocating, k, Qualifying(observations, validate, k));
    }
  }

  // ---------------------------------------------------------------- ranking

  /** slices.SortFunc's comparison: priority, then identity. */
  function RankLess(): (Candidate, Candidate) -> bool {
    (a: Candidate, b: Candidate) => a.priority < b.priority || (a.priority == b.priority && Less(a.identity, b.identity))
  }

  lemma {:induction false} RankOrder()
    ensures StrictOrder(RankLess())
  {
    forall a: Candidate ensures !RankLess()(a, a) {
      LessIrreflexive(a.identity);
    }
    forall a: Candidate, b: Candidate, c: Candidate | RankLess()(a, b) && RankLess()(b, c) ensures RankLess()(a, c) {
      if a.priority == b.priority == c.priority {
        LessTransitive(a.identity, b.identity, c.identity);
      }
    }
  }

  /** The first usable endpoint: its transport is wss and the endpoint policy accepts its address. */
  function Usable(endpoints: seq<Endpoint>, wss: bytes, clean: bytes -> Option<bytes>): Option<(bytes, int)> {
    if endpoints == [] then None
    else if endpoints[0].transport == wss && clean(endpoints[0].uri).Some? then Some((clean(endpoints[0].uri).value, endpoints[0].priority))
    else Usable(endpoints[1..], wss, clean)
  }

  function CandidateOf(b: Beacon, profile: bytes, wss: bytes, clean: bytes -> Option<bytes>): (c: Option<Candidate>)
    ensures c.Some? ==> c.value.identity == b.identity
  {
    if profile !in b.profiles then None
    else
      match Usable(b.endpoints, wss, clean)
      case None => None
      case Some((endpoint, priority)) => Some(Candidate(endpoint, priority, b.identity, profile, b.expiresAt))
  }

  /** The candidate names the first endpoint whose transport is wss and whose address the policy accepts, as the policy spells it. */
  ghost predicate NamesFirstUsable(b: Beacon, profile: bytes, wss: bytes, clean: bytes -> Option<bytes>, c: Candidate) {
    && profile in b.profiles && c.identity == b.identity && c.profile == profile && c.expiresAt == b.expiresAt
    && exists i :: FirstUsableAt(b.endpoints, wss, clean, c, i)
  }

  predicate FirstUsableAt(endpoints: seq<Endpoint>, wss: bytes, clean: bytes -> Option<bytes>, c: Candidate, i: int) {
    && 0 <= i < |endpoints| && endpoints[i].transport == wss
    && clean(endpoints[i].uri) == Some(c.endpoint) && c.priority == endpoints[i].priority
    && forall j :: 0 <= j < i ==> endpoints[j].transport != wss || clean(endpoints[j].uri).None?
  }

  lemma {:induction false} UsableAt(endpoints: seq<Endpoint>, wss: bytes, clean: bytes -> Option<bytes>) returns (i: nat)
    ensures i <= |endpoints| && forall j :: 0 <= j < i ==> endpoints[j].transport != wss || clean(endpoints[j].uri).None?
    ensures i == |endpoints| ==> Usable(endpoints, wss, clean) == None
    ensures i < |endpoints| ==>
              endpoints[i].transport == wss && clean(endpoints[i].uri).Some?
              && Usable(endpoints, wss, clean) == Some((clean(endpoints[i].uri).value, endpoints[i].priority))
  {
    if endpoints == [] {
      i := 0;
    } else if endpoints[0].transport == wss && clean(endpoints[0].uri).Some? {
      i := 0;
    } else {
      i := UsableAt(endpoints[1..], wss, clean);
      assert forall j :: 0 < j <= i && j < |endpoints| ==> endpoints[j] == endpoints[1..][j - 1];
      i := i + 1;
    }
  }

  lemma {:induction false} CandidateExact(b: Beacon, profile: bytes, wss: bytes, clean: bytes -> Option<bytes>, c: Candidate)
    ensures CandidateOf(b, profile, wss, clean) == Some(c) <==> NamesFirstUsable(b, profile, wss, clean, c)
  {
    var i := UsableAt(b.endpoints, wss, clean);
    hide Usable;
    if i < |b.endpoints| {
      assert forall j :: FirstUsableAt(b.endpoints, wss, clean, c, j) ==> j == i;
      if CandidateOf(b, profile, wss, clean) == Some(c) {
        assert FirstUsableAt(b.endpoints, wss, clean, c, i);
      }
    } else {
      assert forall j :: !FirstUsableAt(b.endpoints, wss, clean, c, j);
    }
  }

  method FirstUsable(endpoints: seq<Endpoint>, wss: bytes, clean: bytes -> Option<bytes>) returns (found: Option<(bytes, int)>)
    ensures found == Usable(endpoints, wss, clean)
  {
    var i := 0;
    while i < |endpoints|
      invariant 0 <= i <= |endpoints|
      invariant Usable(endpoints, wss, clean) == Usable(endpoints[i..], wss, clean)
    {
      if endpoints[i].transport == wss {
        var cleaned := clean(endpoints[i].uri);
        if cleaned.Some? {
          return Some((cleaned.value, endpoints[i].priority));
        }
      }
      assert endpoints[i..][1..] == endpoints[i + 1..];
      i := i + 1;
    }
    return None;
  }

  ghost predicate Offers(validated: map<bytes, Beacon>, local: bytes, profile: bytes, wss: bytes, clean: bytes -> Option<bytes>, c: Candidate) {
    exists k :: k in validated && k != local && CandidateOf(validated[k], profile, wss, clean) == Some(c)
  }

  /** A relay other than this one, by the first usable endpoint of its beacon. */
  ghost predicate Qualified(validated: map<bytes, Beacon>, local: bytes, profile: bytes, wss: bytes, clean: bytes -> Option<bytes>, c: Candidate) {
    c.identity in validated && c.identity != local && NamesFirstUsable(validated[c.identity], profile, wss, clean, c)
  }

  lemma {:induction false} OffersExact(validated: map<bytes, Beacon>, local: bytes, profile: bytes, wss: bytes, clean: bytes -> Option<bytes>, c: Candidate)
    requires forall k :: k in validated ==> validated[k].identity == k
    ensures Offers(validated, local, profile, wss, clean, c) <==> Qualified(validated, local, profile, wss, clean, c)
  {
    if Offers(validated, local, profile, wss, clean, c) {
      var k :| k in validated && k != local && CandidateOf(validated[k], profile, wss, clean) == Some(c);
      CandidateExact(validated[k], profile, wss, clean, c);
    }
    if Qualified(validated, local, profile, wss, clean, c) {
      CandidateExact(validated[c.identity], profile, wss, clean, c);
    }
    hide CandidateOf;
  }

  /** The smaller priority first, and of one priority the smaller identity by its bytes. */
  ghost predicate RankedBefore(a: Candidate, b: Candidate) {
    a.priority < b.priority || (a.priority == b.priority && Precedes(a.identity, b.identity))
  }

  lemma {:induction false} RankLessExact(a: Candidate, b: Candidate)
    ensures RankLess()(a, b) <==> a.priority < b.priority || (a.priority == b.priority && Precedes(a.identity, b.identity))
  {
    LessExact(a.identity, b.identity);
    hide Less, Precedes;
  }

  /** Every relay that qualifies, once, in strict rank order. */
  ghost predicate Ranking(validated: map<bytes, Beacon>, local: bytes, profile: bytes, wss: bytes, clean: bytes -> Option<bytes>, full: seq<Candidate>) {
    && Ascending(RankLess(), full)
    && (forall c :: c in full <==> Offers(validated, local, profile, wss, clean, c))
  }

  lemma {:induction false} AscendingDistinct(full: seq<Candidate>)
    requires Ascending(RankLess(), full)
    ensures NoDuplicates(full)
  {
    RankOrder();
  }

  /** There is one ranking, whatever order the map is walked in. */
  lemma {:induction false} RankingUnique(validated: map<bytes, Beacon>, local: bytes, profile: bytes, wss: bytes, clean: bytes -> Option<bytes>,
                                         a: seq<Candidate>, b: seq<Candidate>)
    requires Ranking(validated, local, profile, wss, clean, a) && Ranking(validated, local, profile, wss, clean, b)
    ensures a == b
  {
    RankOrder();
    AscendingDistinct(a);
    AscendingDistinct(b);
    SameMembers(a, b);
    AscendingUnique(RankLess(), a, b);
  }

  predicate DistinctIdentities(candidates: seq<Candidate>) {
    forall i, j :: 0 <= i < j < |candidates| ==> candidates[i].identity != candidates[j].identity
  }

  lemma {:induction false} SortRanks(candidates: seq<Candidate>)
    requires DistinctIdentities(candidates)
    ensures Ascending(RankLess(), Sort(RankLess(), candidates))
    ensures forall c :: c in Sort(RankLess(), candidates) <==> c in candidates
  {
    RankOrder();
    forall i, j | 0 <= i < j < |candidates| ensures RankLess()(candidates[i], candidates[j]) || RankLess()(candidates[j], candidates[i]) {
      LessTotal(candidates[i].identity, candidates[j].identity);
    }
    SortAscending(RankLess(), candidates);
    MultisetMembers(Sort(RankLess(), candidates), candidates);
  }

  function Cut(full: seq<Candidate>): seq<Candidate> {
    if |full| > MAX_PEERS then full[..MAX_PEERS] else full
  }

  lemma {:induction false} OffersNone(validated: map<bytes, Beacon>, local: bytes, profile: bytes, wss: bytes, clean: bytes -> Option<bytes>, c: Candidate)
    ensures !Offers(validated - validated.Keys, local, profile, wss, clean, c)
  {
  }

  lemma {:induction false} OffersNext(validated: map<bytes, Beacon>, pending: set<bytes>, k: bytes, local: bytes, profile: bytes, wss: bytes,
                                      clean: bytes -> Option<bytes>, c: Candidate)
    requires k in validated && k !in pending
    ensures Offers(validated - pending, local, profile, wss, clean, c)
       <==> Offers(validated - (pending + {k}), local, profile, wss, clean, c)
            || (k != local && CandidateOf(validated[k], profile, wss, clean) == Some(c))
  {
    var more, less := validated - pending, validated - (pending + {k});
    if Offers(less, local, profile, wss, clean, c) {
      var other :| other in less && other != local && CandidateOf(less[other], profile, wss, clean) == Some(c);
      assert other in more && more[other] == less[other];
    }
    if k != local && CandidateOf(validated[k], profile, wss, clean) == Some(c) {
      assert k in more && more[k] == validated[k];
    }
    if Offers(more, local, profile, wss, clean, c) {
      var other :| other in more && other != local && CandidateOf(more[other], profile, wss, clean) == Some(c);
      assert other == k || (other in less && less[other] == more[other]);
    }
  }

  /** The candidates of one refresh: the ranking, cut at eight. */
  method Rank(validated: map<bytes, Beacon>, local: bytes, profile: bytes, wss: bytes, clean: bytes -> Option<bytes>)
    returns (localBeacon: Option<Beacon>, candidates: seq<Candidate>, ghost full: seq<Candidate>)
    requires forall k :: k in validated ==> validated[k].identity == k
    ensures localBeacon == if local in validated then Some(validated[local]) else None
    ensures Ranking(validated, local, profile, wss, clean, full) && candidates == Cut(full)
    ensures TopRanked(validated, local, profile, wss, clean, candidates)
  {
    hide Offers, TopRanked;
    localBeacon, candidates := None, [];
    var pending := validated.Keys;
    forall c ensures !Offers(validated - pending, local, profile, wss, clean, c) {
      OffersNone(validated, local, profile, wss, clean, c);
    }
    while pending != {}
      invariant pending <= validated.Keys
      invariant localBeacon == if local in validated && local !in pending then Some(validated[local]) else None
      invariant DistinctIdentities(candidates)
      invariant forall c :: c in candidates ==> c.identity in validated && c.identity !in pending
      invariant forall c :: c in candidates <==> Offers(validated - pending, local, profile, wss, clean, c)
      decreases |pending|
    {
      var k :| k in pending;
      assert pending - {k} + {k} == pending;
      pending := pending - {k};
      var beacon := validated[k];
      if k == local {
        localBeacon := Some(beacon);
      } else if profile in beacon.profiles {
        var found := FirstUsable(beacon.endpoints, wss, clean);
        if found.Some? {
          candidates := candidates + [Candidate(found.value.0, found.value.1, beacon.identity, profile, beacon.expiresAt)];
        }
      }
      forall c ensures c in candidates <==> Offers(validated - pending, local, profile, wss, clean, c) {
        OffersNext(validated, pending, k, local, profile, wss, clean, c);
      }
    }
    assert validated - {} == validated;
    full := Sort(RankLess(), candidates);
    SortRanks(candidates);
    candidates := Sort(RankLess(), candidates);
    if |candidates| > MAX_PEERS {
      candidates := candidates[..MAX_PEERS];
    }
    CutIsTop(validated, local, profile, wss, clean, full);
  }

  /** At most eight relays that qualify, in the order of their rank; one that is left out ranks behind all eight. */
  ghost predicate TopRanked(validated: map<bytes, Beacon>, local: bytes, profile: bytes, wss: bytes, clean: bytes -> Option<bytes>, top: seq<Candidate>) {
    && |top| <= 8
    && (forall c :: c in top ==> Qualified(validated, local, profile, wss, clean, c))
    && (forall i, j :: 0 <= i < j < |top| ==> RankedBefore(top[i], top[j]))
    && (forall c :: Qualified(validated, local, profile, wss, clean, c) && c !in top ==> |top| == 8 && forall kept :: kept in top ==> RankedBefore(kept, c))
  }

  lemma {:induction false} CutIsTop(validated: map<bytes, Beacon>, local: bytes, profile: bytes, wss: bytes, clean: bytes -> Option<bytes>, full: seq<Candidate>)
    requires forall k :: k in validated ==> validated[k].identity == k
    requires Ranking(validated, local, profile, wss, clean, full)
    ensures TopRanked(validated, local, profile, wss, clean, Cut(full))
  {
    CutRanking(validated, local, profile, wss, clean, full);
    forall c ensures Offers(validated, local, profile, wss, clean, c) <==> Qualified(validated, local, profile, wss, clean, c) {
      OffersExact(validated, local, profile, wss, clean, c);
    }
    forall a, b ensures RankLess()(a, b) <==> RankedBefore(a, b) {
      RankLessExact(a, b);
    }
    hide Offers, Qualified, RankLess, RankedBefore;
  }

  lemma {:induction false} RankedDistinct(validated: map<bytes, Beacon>, local: bytes, profile: bytes, wss: bytes, clean: bytes -> Option<bytes>, full: seq<Candidate>)
    requires forall k :: k in validated ==> validated[k].identity == k
    requires Ranking(validated, local, profile, wss, clean, full)
    ensures DistinctIdentities(full)
  {
    forall i, j | 0 <= i < j < |full| ensures full[i].identity != full[j].identity {
      assert full[i] in full && full[j] in full;
      RankOrder();
      assert RankLess()(full[i], full[j]);
    }
  }

  /** What a cut ranking is: at most eight relays, strictly ranked, and nothing left out ranks before one kept. */
  lemma {:induction false} CutRanking(validated: map<bytes, Beacon>, local: bytes, profile: bytes, wss: bytes, clean: bytes -> Option<bytes>, full: seq<Candidate>)
    requires forall k :: k in validated ==> validated[k].identity == k
    requires Ranking(validated, local, profile, wss, clean, full)
    ensures |Cut(full)| <= MAX_PEERS && Ascending(RankLess(), Cut(full)) && DistinctIdentities(Cut(full))
    ensures forall c :: c in Cut(full) ==> Offers(validated, local, profile, wss, clean, c)
    ensures forall c, kept :: Offers(validated, local, profile, wss, clean, c) && c !in Cut(full) && kept in Cut(full) ==> RankLess()(kept, c)
  {
    RankedDistinct(validated, local, profile, wss, clean, full);
    hide Offers;
    forall c, kept | Offers(validated, local, profile, wss, clean, c) && c !in Cut(full) && kept in Cut(full) ensures RankLess()(kept, c) {
      var j :| 0 <= j < |full| && full[j] == c;
      var i :| 0 <= i < |Cut(full)| && Cut(full)[i] == kept;
      assert forall m :: 0 <= m < |Cut(full)| ==> full[m] == Cut(full)[m] && full[m] in Cut(full);
      assert j >= |Cut(full)|;
    }
  }
}
