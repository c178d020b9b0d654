/** The virtual bridge cycle and the EMS shadow simulation: which decision-engine records each
    makes for which sites, and what is committed when the engine raises part-way. */
module BridgeCycles {
  import opened Collections

  datatype Mapping = Mapping(evId: string, chargerId: Option<int>, enabled: bool, confidence: real)

  datatype Charger = Charger(id: int, maxPowerW: Option<real>)

  datatype Ev = Ev(id: string, profile: int)

  /** The Heartbeat calls for one site: one of them raises, or they return. */
  datatype Fetch = FetchFailed | Fetched(evs: seq<Ev>)

  datatype Site = Site(
    id: int, externalId: string,
    heartbeatRuns: bool, smartChargingRuns: bool, energyControlRuns: bool,
    bridgeEnabled: bool, simulationMode: bool,
    mappings: seq<Mapping>, chargers: seq<Charger>,
    bridgeFetch: Fetch, shadowFetch: Fetch)

  datatype Record =
    | Evaluated(siteId: int, chargerId: Option<int>, evId: Option<string>, profile: Option<int>,
                powerW: real, confidence: real)
    | Failsafe(siteId: int, chargerId: Option<int>, evId: Option<string>)

  // ----- what one site is due -----

  function Enabled(mappings: seq<Mapping>): seq<Mapping> {
    Filter(mappings, (m: Mapping) => m.enabled)
  }

  predicate BridgeEligible(s: Site) {
    s.heartbeatRuns && s.smartChargingRuns && s.externalId != "" && s.bridgeEnabled
  }

  predicate ShadowEligible(s: Site) {
    s.energyControlRuns && s.externalId != "" && s.simulationMode && Enabled(s.mappings) == [] && s.chargers != []
  }

  /** `max_power_w` when there is a charger with a non-zero one, else 11 kW. */
  function MaxPower(charger: Option<Charger>): real {
    if charger.Some? && charger.value.maxPowerW.Some? && charger.value.maxPowerW.value != 0.0
    then charger.value.maxPowerW.value else 11000.0
  }

  /** The profile of the first listed EV with the mapping's id. */
  function ProfileOf(evs: seq<Ev>, evId: string): Option<int> {
    if evs == [] then None
    else if evs[0].id == evId then Some(evs[0].profile)
    else ProfileOf(evs[1..], evId)
  }

  /** `if mapping.physical_charger_id:` — an id of zero counts as none. */
  function ChargerOf(m: Mapping, chargers: map<int, Charger>): Option<Charger> {
    if m.chargerId.Some? && m.chargerId.value != 0 && m.chargerId.value in chargers
    then Some(chargers[m.chargerId.value]) else None
  }

  function BridgeRecord(s: Site, chargers: map<int, Charger>, m: Mapping): Record {
    match s.bridgeFetch
    case FetchFailed => Failsafe(s.id, m.chargerId, Some(m.evId))
    case Fetched(evs) =>
      Evaluated(s.id, m.chargerId, Some(m.evId), ProfileOf(evs, m.evId), MaxPower(ChargerOf(m, chargers)), m.confidence)
  }

  /** One record per enabled mapping of an eligible site: all evaluations, or all failsafes. */
  function BridgeRecords(s: Site, chargers: map<int, Charger>): seq<Record> {
    if !BridgeEligible(s) then [] else Map(Enabled(s.mappings), (m: Mapping) => BridgeRecord(s, chargers, m))
  }

  /** One record, about the site's first charger, for an eligible site. */
  function ShadowRecords(s: Site): seq<Record> {
    if !ShadowEligible(s) then []
    else
      var c := s.chargers[0];
      match s.shadowFetch
      case FetchFailed => [Failsafe(s.id, Some(c.id), None)]
      case Fetched(_) => [Evaluated(s.id, Some(c.id), None, None, MaxPower(Some(c)), 0.0)]
  }

  // ----- what a loop is due, and what becomes of it -----

  /** What a loop is due for one site: the engine records, and whether the fetch failed, in which case
      they are failsafes and are committed at once. */
  datatype Due = Due(records: seq<Record>, failed: bool)

  function Log(dues: seq<Due>): seq<Record> {
    if dues == [] then [] else Log(dues[..|dues| - 1]) + dues[|dues| - 1].records
  }

  function BridgeDue(s: Site, chargers: map<int, Charger>): Due {
    Due(BridgeRecords(s, chargers), s.bridgeFetch.FetchFailed?)
  }

  function ShadowDue(s: Site): Due {
    Due(ShadowRecords(s), s.shadowFetch.FetchFailed?)
  }

  function BridgeDues(sites: seq<Site>, chargers: map<int, Charger>): seq<Due> {
    Map(sites, (s: Site) => BridgeDue(s, chargers))
  }

  function ShadowDues(sites: seq<Site>): seq<Due> {
    Map(sites, ShadowDue)
  }

  function BridgeLog(sites: seq<Site>, chargers: map<int, Charger>): seq<Record> {
    Log(BridgeDues(sites, chargers))
  }

  function ShadowLog(sites: seq<Site>): seq<Record> {
    Log(ShadowDues(sites))
  }

  /** The engine call that raises: how many calls return before it, and whether it has saved its
      record by then, as `evaluate` has when the charger adapter fails. */
  datatype Fault = Fault(after: nat, saved: bool)

  function Later(fault: Option<Fault>, calls: nat): Option<Fault> {
    if fault.Some? && calls <= fault.value.after then Some(fault.value.(after := fault.value.after - calls)) else None
  }

  predicate Raises(due: seq<Record>, fault: Option<Fault>) {
    fault.Some? && fault.value.after < |due|
  }

  /** The records the calls for `due` leave in the session: all of them, or those before the raising
      call and, if it has saved it, its own. */
  function Made(due: seq<Record>, fault: Option<Fault>): seq<Record> {
    if !Raises(due, fault) then due
    else due[..fault.value.after + if fault.value.saved then 1 else 0]
  }

  /** How many of the due records the loop has committed after these sites: all those up to the last
      site with records due whose fetch failed. */
  function Committed(dues: seq<Due>): nat {
    if dues == [] then 0
    else if dues[|dues| - 1].failed && dues[|dues| - 1].records != [] then |Log(dues)|
    else Committed(dues[..|dues| - 1])
  }

  /** How many it has committed before the site of the n-th call. */
  function CommittedAtCall(dues: seq<Due>, n: nat): nat {
    if dues == [] then 0
    else if |Log(dues[..|dues| - 1])| <= n then Committed(dues[..|dues| - 1])
    else CommittedAtCall(dues[..|dues| - 1], n)
  }

  /** How many it has committed when it ends. */
  function CommittedBy(dues: seq<Due>, fault: Option<Fault>): nat {
    if Raises(Log(dues), fault) then CommittedAtCall(dues, fault.value.after) else |Log(dues)|
  }

  /** What is committed in a session in which `before` records were made and `committed` of them
      committed, once a loop has committed `own` of its records: the first such commit takes
      everything made before with it. */
  function CommitPoint(before: nat, committed: nat, own: nat): nat {
    if own == 0 then committed else before + own
  }

  lemma {:induction false} LogPrefix(dues: seq<Due>, i: nat)
    requires i < |dues|
    ensures Log(dues[..i + 1]) == Log(dues[..i]) + dues[i].records
    ensures Log(dues[..i + 1]) <= Log(dues)
    decreases |dues|
  {
    assert dues[..i + 1][..i] == dues[..i];
    if i + 1 < |dues| {
      LogPrefix(dues[..|dues| - 1], i);
      assert dues[..|dues| - 1][..i + 1] == dues[..i + 1];
    } else {
      assert dues[..i + 1] == dues;
    }
  }

  lemma {:induction false} LogGrows(dues: seq<Due>, i: nat)
    requires i <= |dues|
    ensures Log(dues[..i]) <= Log(dues)
  {
    if i == |dues| {
      assert dues[..i] == dues;
    } else {
      LogPrefix(dues, i);
    }
  }

  lemma CommittedStep(dues: seq<Due>, i: nat)
    requires i < |dues|
    ensures Committed(dues[..i + 1])
         == if dues[i].failed && dues[i].records != [] then |Log(dues[..i + 1])| else Committed(dues[..i])
  {
    assert dues[..i + 1][..i] == dues[..i];
  }

  /** Committing stops at the last failed site: when site `i` is the last one with records due whose
      fetch failed, exactly the records up to and including its own are committed. */
  lemma {:induction false} CommittedUpTo(dues: seq<Due>, i: nat)
    requires i < |dues| && dues[i].failed && dues[i].records != []
    requires forall j :: i < j < |dues| ==> !(dues[j].failed && dues[j].records != [])
    ensures Committed(dues) == |Log(dues[..i + 1])| > 0
    decreases |dues|
  {
    if i == |dues| - 1 {
      assert dues[..i + 1] == dues;
      LogPrefix(dues, i);
    } else {
      CommittedUpTo(dues[..|dues| - 1], i);
      assert dues[..|dues| - 1][..i + 1] == dues[..i + 1];
    }
  }

  /** Nothing is committed exactly when no site with records due had a failed fetch. */
  lemma {:induction false} CommittedNoneIff(dues: seq<Due>)
    ensures Committed(dues) == 0 <==> forall j :: 0 <= j < |dues| ==> !(dues[j].failed && dues[j].records != [])
    ensures Committed(dues) <= |Log(dues)|
  {
    if dues != [] {
      CommittedNoneIff(dues[..|dues| - 1]);
    }
  }

  /** A loop whose raising call is one of site `i` has committed what it had before that site. */
  lemma {:induction false} CommittedAtSite(dues: seq<Due>, n: nat, i: nat)
    requires i < |dues| && |Log(dues[..i])| <= n < |Log(dues[..i + 1])|
    ensures n < |Log(dues)| && CommittedAtCall(dues, n) == Committed(dues[..i])
    decreases |dues|
  {
    LogPrefix(dues, i);
    var init := dues[..|dues| - 1];
    if i == |dues| - 1 {
      assert dues[..i] == init;
    } else {
      assert init[..i] == dues[..i] && init[..i + 1] == dues[..i + 1];
      LogGrows(init, i + 1);
      CommittedAtSite(init, n, i);
    }
  }

  /** Every call is one of some site. */
  lemma {:induction false} SiteOfCall(dues: seq<Due>, n: nat) returns (i: nat)
    requires n < |Log(dues)|
    ensures i < |dues| && |Log(dues[..i])| <= n < |Log(dues[..i + 1])|
    decreases |dues|
  {
    var init := dues[..|dues| - 1];
    if |Log(init)| <= n {
      i := |dues| - 1;
      assert dues[..i + 1] == dues;
    } else {
      i := SiteOfCall(init, n);
      assert init[..i] == dues[..i] && init[..i + 1] == dues[..i + 1];
    }
  }

  lemma CommittedByBound(dues: seq<Due>, fault: Option<Fault>)
    ensures CommittedBy(dues, fault) <= |Made(Log(dues), fault)| <= |Log(dues)|
  {
    if Raises(Log(dues), fault) {
      var i := SiteOfCall(dues, fault.value.after);
      CommittedAtSite(dues, fault.value.after, i);
      CommittedNoneIff(dues[..i]);
    }
  }

  // ----- the session and the engine calls -----

  /** The database session: the records added so far, and how many of them are committed. The engine
      call that raises next, if any, is `fault`. */
  class Session {
    var records: seq<Record>
    var committed: nat
    var fault: Option<Fault>

    constructor ()
      ensures records == [] && committed == 0 && fault == None
    {
      records, committed, fault := [], 0, None;
    }

    /** A `record_failsafe` or `evaluate` call. */
    method Engine(r: Record) returns (ok: bool)
      modifies this`records, this`fault
      ensures ok == (old(fault).Some? ==> old(fault).value.after > 0)
      ensures records == old(records) + if ok || old(fault).value.saved then [r] else []
      ensures ok && old(fault).Some? ==> fault == Some(Fault(old(fault).value.after - 1, old(fault).value.saved))
      ensures ok && old(fault).None? ==> fault == None
    {
      if fault.Some? && fault.value.after == 0 {
        if fault.value.saved {
          records := records + [r];
        }
        return false;
      }
      records := records + [r];
      fault := Later(fault, 1);
      return true;
    }

    method Commit()
      modifies this`committed
      ensures committed == |records|
    {
      committed := |records|;
    }
  }

  /** What making the calls for `due` in order does to the session. */
  ghost predicate Added(before: seq<Record>, fault: Option<Fault>, due: seq<Record>, raised: bool,
                        after: seq<Record>, fault': Option<Fault>)
  {
    && raised == Raises(due, fault)
    && after == before + Made(due, fault)
    && (!raised ==> fault' == Later(fault, |due|))
  }

  lemma AddedThen(b: seq<Record>, f: Option<Fault>, d: seq<Record>, m: seq<Record>, f': Option<Fault>,
                  e: seq<Record>, raised: bool, a: seq<Record>, f'': Option<Fault>)
    requires Added(b, f, d, false, m, f') && Added(m, f', e, raised, a, f'')
    ensures Added(b, f, d + e, raised, a, f'')
  {
    assert (b + d) + Made(e, f') == b + (d + Made(e, f'));
    if raised {
      assert f'.value.after == f.value.after - |d|;
      var k := f'.value.after + if f'.value.saved then 1 else 0;
      assert (d + e)[..|d| + k] == d + e[..k];
    }
  }

  lemma AddedMore(b: seq<Record>, f: Option<Fault>, d: seq<Record>, more: seq<Record>, a: seq<Record>,
                  f': Option<Fault>)
    requires Added(b, f, d, true, a, f') && d <= more
    ensures Added(b, f, more, true, a, f')
  {
    var k := f.value.after + if f.value.saved then 1 else 0;
    assert more[..k] == d[..k];
  }

  /** How far a loop of engine calls has come: none has raised, and the first `i` records are added. */
  ghost predicate AddedUpTo(before: seq<Record>, fault: Option<Fault>, due: seq<Record>, i: nat,
                            now: seq<Record>, left: Option<Fault>)
    requires i <= |due|
  {
    Added(before, fault, due[..i], false, now, left)
  }

  lemma AddedInAll(before: seq<Record>, fault: Option<Fault>, due: seq<Record>, now: seq<Record>, left: Option<Fault>)
    requires AddedUpTo(before, fault, due, |due|, now, left)
    ensures Added(before, fault, due, false, now, left)
  {
    assert due[..|due|] == due;
  }

  /** The call for the i-th due record, either way. */
  lemma AddedOneMore(before: seq<Record>, fault: Option<Fault>, due: seq<Record>, i: nat, now: seq<Record>,
                     left: Option<Fault>, ok: bool, next: seq<Record>, left': Option<Fault>)
    requires i < |due| && AddedUpTo(before, fault, due, i, now, left)
    requires ok == !Raises([due[i]], left) && next == now + Made([due[i]], left) && (ok ==> left' == Later(left, 1))
    ensures !ok ==> Added(before, fault, due, true, next, left')
    ensures ok ==> AddedUpTo(before, fault, due, i + 1, next, left')
  {
    AddedThen(before, fault, due[..i], now, left, [due[i]], !ok, next, left');
    assert due[..i + 1] == due[..i] + [due[i]];
    if !ok {
      AddedMore(before, fault, due[..i + 1], due, next, left');
    }
  }

  /** The loop of a failed fetch: one failsafe per enabled mapping. */
  method RecordFailsafes(session: Session, s: Site, chargers: map<int, Charger>, enabled: seq<Mapping>)
    returns (raised: bool)
    requires BridgeEligible(s) && s.bridgeFetch.FetchFailed? && enabled == Enabled(s.mappings)
    modifies session`records, session`fault
    ensures Added(old(session.records), old(session.fault), BridgeRecords(s, chargers), raised,
                  session.records, session.fault)
  {
    ghost var due := BridgeRecords(s, chargers);
    for i := 0 to |enabled|
      invariant AddedUpTo(old(session.records), old(session.fault), due, i, session.records, session.fault)
    {
      ghost var now, left := session.records, session.fault;
      var mapping := enabled[i];
      var ok := session.Engine(Failsafe(s.id, mapping.chargerId, Some(mapping.evId)));
      AddedOneMore(old(session.records), old(session.fault), due, i, now, left, ok, session.records, session.fault);
      if !ok {
        return true;
      }
    }
    AddedInAll(old(session.records), old(session.fault), due, session.records, session.fault);
    return false;
  }

  /** The loop of a successful fetch: one evaluation per enabled mapping, each counted. */
  method EvaluateMappings(session: Session, s: Site, chargers: map<int, Charger>, enabled: seq<Mapping>)
    returns (raised: bool, processed: nat)
    requires BridgeEligible(s) && s.bridgeFetch.Fetched? && enabled == Enabled(s.mappings)
    modifies session`records, session`fault
    ensures Added(old(session.records), old(session.fault), BridgeRecords(s, chargers), raised,
                  session.records, session.fault)
    ensures !raised ==> processed == |enabled|
  {
    ghost var due := BridgeRecords(s, chargers);
    processed := 0;
    for i := 0 to |enabled|
      invariant AddedUpTo(old(session.records), old(session.fault), due, i, session.records, session.fault)
      invariant processed == i
    {
      ghost var now, left := session.records, session.fault;
      var mapping := enabled[i];
      var evProfile := ProfileOf(s.bridgeFetch.evs, mapping.evId);
      var charger: Option<Charger> := None;
      if mapping.chargerId.Some? && mapping.chargerId.value != 0 {
        charger := if mapping.chargerId.value in chargers then Some(chargers[mapping.chargerId.value]) else None;
      }
      var maxPower := MaxPower(charger);
      var ok := session.Engine(
        Evaluated(s.id, mapping.chargerId, Some(mapping.evId), evProfile, maxPower, mapping.confidence));
      AddedOneMore(old(session.records), old(session.fault), due, i, now, left, ok, session.records, session.fault);
      if !ok {
        return true, processed;
      }
      processed := processed + 1;
    }
    AddedInAll(old(session.records), old(session.fault), due, session.records, session.fault);
    return false, processed;
  }

  /** What one site does to the session: its calls, a commit if they are failsafes, and the number of
      evaluations. */
  ghost predicate SiteDone(due: Due, records: seq<Record>, committed: nat, fault: Option<Fault>, raised: bool,
                           processed: nat, records': seq<Record>, committed': nat, fault': Option<Fault>)
  {
    && Added(records, fault, due.records, raised, records', fault')
    && (!raised ==> processed == if due.failed then 0 else |due.records|)
    && committed' == if !raised && due.records != [] && due.failed then |records'| else committed
  }

  /** The body of the bridge loop for one site. */
  method BridgeSite(session: Session, s: Site, chargers: map<int, Charger>) returns (raised: bool, processed: nat)
    modifies session
    ensures SiteDone(BridgeDue(s, chargers), old(session.records), old(session.committed), old(session.fault),
                     raised, processed, session.records, session.committed, session.fault)
  {
    raised, processed := false, 0;
    if !s.heartbeatRuns || !s.smartChargingRuns || s.externalId == "" || !s.bridgeEnabled {
      return;
    }
    var enabled := Enabled(s.mappings);
    if enabled == [] {
      return;
    }
    if s.bridgeFetch.FetchFailed? {
      raised := RecordFailsafes(session, s, chargers, enabled);
      if !raised {
        session.Commit();
      }
    } else {
      raised, processed := EvaluateMappings(session, s, chargers, enabled);
    }
  }

  /** The body of the shadow loop for one site. */
  method ShadowSite(session: Session, s: Site) returns (raised: bool, processed: nat)
    modifies session
    ensures SiteDone(ShadowDue(s), old(session.records), old(session.committed), old(session.fault),
                     raised, processed, session.records, session.committed, session.fault)
  {
    raised, processed := false, 0;
    if !s.energyControlRuns || s.externalId == "" || !s.simulationMode {
      return;
    }
    var enabled := Enabled(s.mappings);
    if enabled != [] {
      return;
    }
    if s.chargers == [] {
      return;
    }
    var charger := s.chargers[0];
    if s.shadowFetch.FetchFailed? {
      var ok := session.Engine(Failsafe(s.id, Some(charger.id), None));
      if !ok {
        return true, 0;
      }
      session.Commit();
    } else {
      var maxPower := 11000.0;
      if charger.maxPowerW.Some? && charger.maxPowerW.value != 0.0 {
        maxPower := charger.maxPowerW.value;
      }
      var ok := session.Engine(Evaluated(s.id, Some(charger.id), None, None, maxPower, 0.0));
      if !ok {
        return true, 0;
      }
      processed := 1;
    }
  }

  // ----- the two loops -----

  /** The session a loop is given. */
  datatype Start = Start(records: seq<Record>, committed: nat, fault: Option<Fault>)

  /** Where a loop stands before site `i`: nothing has raised, and records that are not committed yet
      will be, because some site was processed. */
  ghost predicate OnTrack(start: Start, dues: seq<Due>, i: nat, processed: nat, records: seq<Record>,
                          committed: nat, fault: Option<Fault>)
    requires i <= |dues|
  {
    && Added(start.records, start.fault, Log(dues[..i]), false, records, fault)
    && committed == CommitPoint(|start.records|, start.committed, Committed(dues[..i]))
    && (processed == 0 ==> Committed(dues[..i]) == |Log(dues[..i])|)
    && (processed > 0 ==> Log(dues[..i]) != [])
  }

  /** What a loop leaves in the session it was given. */
  ghost predicate LoopDone(start: Start, dues: seq<Due>, raised: bool, records: seq<Record>, committed: nat) {
    && raised == Raises(Log(dues), start.fault)
    && records == start.records + Made(Log(dues), start.fault)
    && committed == CommitPoint(|start.records|, start.committed, CommittedBy(dues, start.fault))
  }

  lemma TurnAdds(start: Start, dues: seq<Due>, i: nat, records: seq<Record>, fault: Option<Fault>,
                 raised: bool, records': seq<Record>, fault': Option<Fault>)
    requires i < |dues|
    requires Added(start.records, start.fault, Log(dues[..i]), false, records, fault)
    requires Added(records, fault, dues[i].records, raised, records', fault')
    ensures Added(start.records, start.fault, Log(dues[..i + 1]), raised, records', fault')
    ensures raised ==> && Added(start.records, start.fault, Log(dues), true, records', fault')
                       && |Log(dues[..i])| <= start.fault.value.after < |Log(dues[..i + 1])|
  {
    LogPrefix(dues, i);
    AddedThen(start.records, start.fault, Log(dues[..i]), records, fault, dues[i].records, raised, records', fault');
    if raised {
      AddedMore(start.records, start.fault, Log(dues[..i + 1]), Log(dues), records', fault');
    }
  }

  lemma TurnRaises(start: Start, dues: seq<Due>, i: nat, processed: nat, records: seq<Record>, committed: nat,
                   fault: Option<Fault>, n: nat, records': seq<Record>, committed': nat, fault': Option<Fault>)
    requires i < |dues| && OnTrack(start, dues, i, processed, records, committed, fault)
    requires SiteDone(dues[i], records, committed, fault, true, n, records', committed', fault')
    ensures LoopDone(start, dues, true, records', committed')
  {
    TurnAdds(start, dues, i, records, fault, true, records', fault');
    CommittedAtSite(dues, start.fault.value.after, i);
  }

  lemma TurnReturns(start: Start, dues: seq<Due>, i: nat, processed: nat, records: seq<Record>, committed: nat,
                    fault: Option<Fault>, n: nat, records': seq<Record>, committed': nat, fault': Option<Fault>)
    requires i < |dues| && OnTrack(start, dues, i, processed, records, committed, fault)
    requires SiteDone(dues[i], records, committed, fault, false, n, records', committed', fault')
    ensures OnTrack(start, dues, i + 1, processed + n, records', committed', fault')
  {
    TurnAdds(start, dues, i, records, fault, false, records', fault');
    LogPrefix(dues, i);
    CommittedStep(dues, i);
  }

  lemma LoopEnds(start: Start, dues: seq<Due>, processed: nat, records: seq<Record>, committed: nat,
                 fault: Option<Fault>)
    requires OnTrack(start, dues, |dues|, processed, records, committed, fault)
    ensures LoopDone(start, dues, false, records, if processed != 0 then |records| else committed)
  {
    assert dues[..|dues|] == dues;
  }

  /** `_run_virtual_bridge_cycle`, on whatever session it is given. It makes the due records, or those
      up to the raising call. Its first commit takes along all that was uncommitted before; without
      one, what was uncommitted stays so. When it returns, all its records are committed; when it
      raises, exactly those of the sites before the raising call's, up to the last one whose fetch
      failed with records due. */
  method RunVirtualBridgeCycle(session: Session, client: bool, sites: seq<Site>, chargers: map<int, Charger>)
    returns (raised: bool)
    modifies session
    ensures LoopDone(Start(old(session.records), old(session.committed), old(session.fault)),
                     if client then BridgeDues(sites, chargers) else [], raised, session.records, session.committed)
  {
    if !client {
      return false;
    }
    ghost var start, dues := Start(session.records, session.committed, session.fault), BridgeDues(sites, chargers);
    var processed: nat := 0;
    for i := 0 to |sites|
      invariant OnTrack(start, dues, i, processed, session.records, session.committed, session.fault)
    {
      ghost var records, committed, fault := session.records, session.committed, session.fault;
      var n;
      raised, n := BridgeSite(session, sites[i], chargers);
      if raised {
        TurnRaises(start, dues, i, processed, records, committed, fault, n,
                   session.records, session.committed, session.fault);
        return;
      }
      TurnReturns(start, dues, i, processed, records, committed, fault, n,
                  session.records, session.committed, session.fault);
      processed := processed + n;
    }
    LoopEnds(start, dues, processed, session.records, session.committed, session.fault);
    if processed != 0 {
      session.Commit();
    }
    return false;
  }

  /** `_run_ems_shadow_simulation`, with the same guarantees. */
  method RunEmsShadowSimulation(session: Session, client: bool, sites: seq<Site>) returns (raised: bool)
    modifies session
    ensures LoopDone(Start(old(session.records), old(session.committed), old(session.fault)),
                     if client then ShadowDues(sites) else [], raised, session.records, session.committed)
  {
    if !client {
      return false;
    }
    ghost var start, dues := Start(session.records, session.committed, session.fault), ShadowDues(sites);
    var processed: nat := 0;
    for i := 0 to |sites|
      invariant OnTrack(start, dues, i, processed, session.records, session.committed, session.fault)
    {
      ghost var records, committed, fault := session.records, session.committed, session.fault;
      var n;
      raised, n := ShadowSite(session, sites[i]);
      if raised {
        TurnRaises(start, dues, i, processed, records, committed, fault, n,
                   session.records, session.committed, session.fault);
        return;
      }
      TurnReturns(start, dues, i, processed, records, committed, fault, n,
                  session.records, session.committed, session.fault);
      processed := processed + n;
    }
    LoopEnds(start, dues, processed, session.records, session.committed, session.fault);
    if processed != 0 {
      session.Commit();
    }
    return false;
  }

  predicate AllFailsafes(records: seq<Record>) {
    forall i :: 0 <= i < |records| ==> records[i].Failsafe?
  }

  ghost predicate FailsafesOnFailure(dues: seq<Due>) {
    forall j :: 0 <= j < |dues| && dues[j].failed ==> AllFailsafes(dues[j].records)
  }

  /** What a loop commits before it ends is behind a failsafe. */
  lemma {:induction false} CommittedAtFailsafe(dues: seq<Due>)
    requires FailsafesOnFailure(dues)
    ensures Committed(dues) <= |Log(dues)|
    ensures Committed(dues) > 0 ==> Log(dues)[Committed(dues) - 1].Failsafe?
  {
    if dues != [] {
      CommittedAtFailsafe(dues[..|dues| - 1]);
    }
  }

  lemma FailedFetchMakesFailsafes(sites: seq<Site>, chargers: map<int, Charger>)
    ensures FailsafesOnFailure(BridgeDues(sites, chargers)) && FailsafesOnFailure(ShadowDues(sites))
  {
  }

  lemma AtFailsafe(dues: seq<Due>, n: nat)
    requires n < |Log(dues)| && FailsafesOnFailure(dues)
    ensures CommittedAtCall(dues, n) <= |Log(dues)|
    ensures CommittedAtCall(dues, n) > 0 ==> Log(dues)[CommittedAtCall(dues, n) - 1].Failsafe?
  {
    var i := SiteOfCall(dues, n);
    CommittedAtSite(dues, n, i);
    CommittedAtFailsafe(dues[..i]);
    LogGrows(dues, i);
  }

  /** The last own record a loop has committed when it raises. */
  ghost predicate EndsAtFailsafe(dues: seq<Due>, fault: Option<Fault>) {
    && CommittedBy(dues, fault) <= |Log(dues)|
    && (CommittedBy(dues, fault) > 0 ==> Log(dues)[CommittedBy(dues, fault) - 1].Failsafe?)
  }

  lemma RaisedAtFailsafe(dues: seq<Due>, fault: Option<Fault>)
    requires FailsafesOnFailure(dues) && Raises(Log(dues), fault)
    ensures EndsAtFailsafe(dues, fault)
  {
    AtFailsafe(dues, fault.value.after);
  }

  /** A raising bridge cycle's or shadow loop's last commit, if any, is behind a failsafe. */
  lemma RaisedCommitsAtFailsafe(sites: seq<Site>, chargers: map<int, Charger>, fault: Option<Fault>)
    ensures Raises(BridgeLog(sites, chargers), fault) ==> EndsAtFailsafe(BridgeDues(sites, chargers), fault)
    ensures Raises(ShadowLog(sites), fault) ==> EndsAtFailsafe(ShadowDues(sites), fault)
  {
    FailedFetchMakesFailsafes(sites, chargers);
    if Raises(BridgeLog(sites, chargers), fault) {
      RaisedAtFailsafe(BridgeDues(sites, chargers), fault);
    }
    if Raises(ShadowLog(sites), fault) {
      RaisedAtFailsafe(ShadowDues(sites), fault);
    }
  }

  // ----- the lane -----

  /** What the bridge lane leaves in the database when the bridge cycle is due `bridge`, the shadow loop
      is due `shadow`, and the given calls raise: the shadow loop's first commit stores every record the
      bridge cycle made; without one, those the bridge cycle committed are stored. */
  function LaneStored(bridge: seq<Due>, bridgeFault: Option<Fault>, shadow: seq<Due>, shadowFault: Option<Fault>)
    : seq<Record>
  {
    CommittedByBound(bridge, bridgeFault);
    CommittedByBound(shadow, shadowFault);
    var made, own := Made(Log(bridge), bridgeFault), CommittedBy(shadow, shadowFault);
    if own == 0 then made[..CommittedBy(bridge, bridgeFault)] else made + Made(Log(shadow), shadowFault)[..own]
  }

  /** The bridge lane: both loops on one session, each with its own client, site list and raising call;
      a raise is swallowed, and what is uncommitted when the session closes is lost. */
  method RunBridgeLane(bridgeClient: bool, bridgeSites: seq<Site>, chargers: map<int, Charger>,
                       bridgeFault: Option<Fault>, shadowClient: bool, shadowSites: seq<Site>,
                       shadowFault: Option<Fault>)
    returns (stored: seq<Record>)
    ensures stored == LaneStored(if bridgeClient then BridgeDues(bridgeSites, chargers) else [], bridgeFault,
                                 if shadowClient then ShadowDues(shadowSites) else [], shadowFault)
  {
    ghost var bridge := if bridgeClient then BridgeDues(bridgeSites, chargers) else [];
    ghost var shadow := if shadowClient then ShadowDues(shadowSites) else [];
    CommittedByBound(bridge, bridgeFault);
    CommittedByBound(shadow, shadowFault);
    var session := new Session();
    session.fault := bridgeFault;
    var _ := RunVirtualBridgeCycle(session, bridgeClient, bridgeSites, chargers);
    assert session.records == Made(Log(bridge), bridgeFault);
    session.fault := shadowFault;
    var _ := RunEmsShadowSimulation(session, shadowClient, shadowSites);
    StoredPart(Made(Log(bridge), bridgeFault), CommittedBy(bridge, bridgeFault),
               Made(Log(shadow), shadowFault), CommittedBy(shadow, shadowFault));
    stored := session.records[..session.committed];
  }

  lemma StoredPart(a: seq<Record>, m: nat, b: seq<Record>, n: nat)
    requires m <= |a| && n <= |b|
    ensures CommitPoint(|a|, m, n) <= |a + b|
    ensures (a + b)[..CommitPoint(|a|, m, n)] == if n == 0 then a[..m] else a + b[..n]
  {
  }

  /** Which records are stored: all that the bridge cycle made if and only if the shadow loop commits at
      least once, or the bridge cycle left none uncommitted; otherwise exactly those it committed. Of
      the shadow loop's records, exactly those it committed are stored. */
  lemma BridgeStoredIff(bridge: seq<Due>, bridgeFault: Option<Fault>, shadow: seq<Due>, shadowFault: Option<Fault>)
    ensures var made, stored := Made(Log(bridge), bridgeFault), LaneStored(bridge, bridgeFault, shadow, shadowFault);
            && (made <= stored
                <==> CommittedBy(shadow, shadowFault) > 0 || CommittedBy(bridge, bridgeFault) == |made|)
            && (CommittedBy(shadow, shadowFault) == 0 ==>
                  CommittedBy(bridge, bridgeFault) <= |made| && stored == made[..CommittedBy(bridge, bridgeFault)])
            && (CommittedBy(shadow, shadowFault) > 0 ==>
                  CommittedBy(shadow, shadowFault) <= |Log(shadow)|
                  && stored == made + Log(shadow)[..CommittedBy(shadow, shadowFault)])
  {
    CommittedByBound(bridge, bridgeFault);
    CommittedByBound(shadow, shadowFault);
  }

  /** The calls for site `j` all come before call `n`. */
  predicate EndsBefore(dues: seq<Due>, j: nat, n: nat)
    requires j < |dues|
  {
    |Log(dues[..j + 1])| <= n
  }

  /** A loop that returns has committed all it is due. One that raises has committed something exactly
      when a site before the raising call's has a failed fetch and is due something. */
  lemma CommitsIff(dues: seq<Due>, fault: Option<Fault>)
    ensures !Raises(Log(dues), fault) ==> CommittedBy(dues, fault) == |Log(dues)|
    ensures Raises(Log(dues), fault) ==>
              (CommittedBy(dues, fault) > 0
               <==> exists j :: 0 <= j < |dues| && EndsBefore(dues, j, fault.value.after)
                                && dues[j].failed && dues[j].records != [])
  {
    if Raises(Log(dues), fault) {
      var i := SiteOfCall(dues, fault.value.after);
      CommittedAtSite(dues, fault.value.after, i);
      FailedBeforeIff(dues, i);
      AllSitesBefore(dues, fault.value.after, i);
    }
  }

  lemma FailedBeforeIff(dues: seq<Due>, i: nat)
    requires i <= |dues|
    ensures Committed(dues[..i]) > 0 <==> exists j :: 0 <= j < i && dues[j].failed && dues[j].records != []
  {
    CommittedNoneIff(dues[..i]);
  }

  lemma AllSitesBefore(dues: seq<Due>, n: nat, i: nat)
    requires i < |dues| && |Log(dues[..i])| <= n < |Log(dues[..i + 1])|
    ensures forall j :: 0 <= j < |dues| ==> (j < i <==> EndsBefore(dues, j, n))
  {
    forall j | 0 <= j < |dues|
      ensures j < i <==> EndsBefore(dues, j, n)
    {
      SitesBefore(dues, n, i, j);
    }
  }

  lemma SitesBefore(dues: seq<Due>, n: nat, i: nat, j: nat)
    requires i < |dues| && j < |dues| && |Log(dues[..i])| <= n < |Log(dues[..i + 1])|
    ensures j < i <==> EndsBefore(dues, j, n)
  {
    if j < i {
      LogGrows(dues[..i], j + 1);
      assert dues[..i][..j + 1] == dues[..j + 1];
    } else {
      LogGrows(dues[..j + 1], i + 1);
      assert dues[..j + 1][..i + 1] == dues[..i + 1];
    }
  }

  lemma OneDue(due: Due)
    ensures Log([due]) == due.records
    ensures Committed([due]) == if due.failed then |due.records| else 0
  {
    assert [due][..0] == [];
  }

  lemma LaneOfTwo(a: Due, b: Due)
    requires !a.failed && |a.records| == 2 && !b.failed && b.records != []
    ensures LaneStored([a], Some(Fault(1, false)), [], None) == []
    ensures LaneStored([a], Some(Fault(1, false)), [b], None) == [a.records[0]] + b.records
  {
    OneDue(a);
    OneDue(b);
    assert [a][..0] == [];
    assert a.records[..1] == [a.records[0]];
    assert b.records[..|b.records|] == b.records;
  }

  /** A site with two mappings whose second evaluation raises: on its own the bridge cycle's one record
      is lost; with a shadow site behind it, the shadow loop stores it. */
  lemma ShadowLoopStoresBridgeRecord(a: Site, b: Site, chargers: map<int, Charger>)
    requires BridgeEligible(a) && a.bridgeFetch.Fetched? && |Enabled(a.mappings)| == 2
    requires ShadowEligible(b) && b.shadowFetch.Fetched?
    ensures var bridge, fault := BridgeDues([a], chargers), Some(Fault(1, false));
            && LaneStored(bridge, fault, [], None) == []
            && LaneStored(bridge, fault, ShadowDues([b]), None)
               == [BridgeRecord(a, chargers, Enabled(a.mappings)[0])] + ShadowRecords(b)
  {
    assert BridgeDues([a], chargers) == [BridgeDue(a, chargers)] && ShadowDues([b]) == [ShadowDue(b)];
    LaneOfTwo(BridgeDue(a, chargers), ShadowDue(b));
  }

  // ----- what the logs mean -----

  predicate DistinctIds(sites: seq<Site>) {
    forall i, j :: 0 <= i < j < |sites| ==> sites[i].id != sites[j].id
  }

  /** The records about one site, in order. */
  function About(log: seq<Record>, siteId: int): seq<Record> {
    if log == [] then []
    else if log[|log| - 1].siteId == siteId then About(log[..|log| - 1], siteId) + [log[|log| - 1]]
    else About(log[..|log| - 1], siteId)
  }

  lemma {:induction false} AboutAppend(log: seq<Record>, more: seq<Record>, siteId: int)
    ensures About(log + more, siteId) == About(log, siteId) + About(more, siteId)
  {
    if more == [] {
      assert log + more == log;
    } else {
      AboutAppend(log, more[..|more| - 1], siteId);
      assert (log + more)[..|log + more| - 1] == log + more[..|more| - 1];
    }
  }

  lemma {:induction false} AboutOwn(log: seq<Record>, owner: int, siteId: int)
    requires forall i :: 0 <= i < |log| ==> log[i].siteId == owner
    ensures About(log, siteId) == if siteId == owner then log else []
  {
    if log != [] {
      SnocCases(log);
      AboutOwn(log[..|log| - 1], owner, siteId);
    }
  }

  lemma AboutLastSite(log: seq<Record>, due: seq<Record>, owner: int, siteId: int)
    requires forall i :: 0 <= i < |due| ==> due[i].siteId == owner
    ensures About(log + due, siteId) == About(log, siteId) + if siteId == owner then due else []
  {
    AboutAppend(log, due, siteId);
    AboutOwn(due, owner, siteId);
  }

  lemma RecordsNameTheirSite(s: Site, chargers: map<int, Charger>)
    ensures forall i :: 0 <= i < |BridgeRecords(s, chargers)| ==> BridgeRecords(s, chargers)[i].siteId == s.id
    ensures forall i :: 0 <= i < |ShadowRecords(s)| ==> ShadowRecords(s)[i].siteId == s.id
  {
  }

  lemma LogsByLastSite(sites: seq<Site>, chargers: map<int, Charger>)
    requires sites != []
    ensures var init, s := sites[..|sites| - 1], sites[|sites| - 1];
            && BridgeLog(sites, chargers) == BridgeLog(init, chargers) + BridgeRecords(s, chargers)
            && ShadowLog(sites) == ShadowLog(init) + ShadowRecords(s)
  {
    var n := |sites| - 1;
    assert BridgeDues(sites, chargers)[..n] == BridgeDues(sites[..n], chargers);
    assert ShadowDues(sites)[..n] == ShadowDues(sites[..n]);
  }

  lemma AboutByLastSite(sites: seq<Site>, chargers: map<int, Charger>, siteId: int)
    requires sites != []
    ensures var init, s := sites[..|sites| - 1], sites[|sites| - 1];
            && About(BridgeLog(sites, chargers), siteId)
               == About(BridgeLog(init, chargers), siteId) + (if s.id == siteId then BridgeRecords(s, chargers) else [])
            && About(ShadowLog(sites), siteId)
               == About(ShadowLog(init), siteId) + (if s.id == siteId then ShadowRecords(s) else [])
  {
    var init, s := sites[..|sites| - 1], sites[|sites| - 1];
    LogsByLastSite(sites, chargers);
    RecordsNameTheirSite(s, chargers);
    AboutLastSite(BridgeLog(init, chargers), BridgeRecords(s, chargers), s.id, siteId);
    AboutLastSite(ShadowLog(init), ShadowRecords(s), s.id, siteId);
  }

  /** No record is about a site that is not listed. */
  lemma {:induction false} NothingAboutOthers(sites: seq<Site>, chargers: map<int, Charger>, siteId: int)
    requires forall k :: 0 <= k < |sites| ==> sites[k].id != siteId
    ensures About(BridgeLog(sites, chargers), siteId) == [] && About(ShadowLog(sites), siteId) == []
  {
    if sites != [] {
      NothingAboutOthers(sites[..|sites| - 1], chargers, siteId);
      AboutByLastSite(sites, chargers, siteId);
    }
  }

  /** Each site's records in the two logs are exactly its due records. */
  lemma {:induction false} LogsPerSite(sites: seq<Site>, chargers: map<int, Charger>, k: nat)
    requires DistinctIds(sites) && k < |sites|
    ensures About(BridgeLog(sites, chargers), sites[k].id) == BridgeRecords(sites[k], chargers)
    ensures About(ShadowLog(sites), sites[k].id) == ShadowRecords(sites[k])
  {
    AboutByLastSite(sites, chargers, sites[k].id);
    if k == |sites| - 1 {
      NothingAboutOthers(sites[..k], chargers, sites[k].id);
    } else {
      LogsPerSite(sites[..|sites| - 1], chargers, k);
    }
  }

  /** One engine record per enabled mapping of an eligible site, all of the same kind, and none for
      other sites; one shadow record per shadow site; and the two loops never act on the same site. */
  lemma BridgeAndShadowPartition(sites: seq<Site>, chargers: map<int, Charger>, k: nat)
    requires DistinctIds(sites) && k < |sites|
    ensures var s := sites[k];
            var bridge, shadow := About(BridgeLog(sites, chargers), s.id), About(ShadowLog(sites), s.id);
            && |bridge| == (if BridgeEligible(s) then |Enabled(s.mappings)| else 0)
            && (forall i :: 0 <= i < |bridge| ==> bridge[i].evId == Some(Enabled(s.mappings)[i].evId)
                                                  && bridge[i].Failsafe? == s.bridgeFetch.FetchFailed?)
            && |shadow| == (if ShadowEligible(s) then 1 else 0)
            && (bridge == [] || shadow == [])
  {
    LogsPerSite(sites, chargers, k);
  }

  // ----- what the calls carry -----

  lemma {:induction false} FirstListedProfile(evs: seq<Ev>, evId: string)
    ensures ProfileOf(evs, evId) == None <==> forall j :: 0 <= j < |evs| ==> evs[j].id != evId
    ensures forall j :: 0 <= j < |evs| && evs[j].id == evId && (forall h :: 0 <= h < j ==> evs[h].id != evId)
              ==> ProfileOf(evs, evId) == Some(evs[j].profile)
  {
    if evs != [] && evs[0].id != evId {
      FirstListedProfile(evs[1..], evId);
      forall j | 0 <= j < |evs| && evs[j].id == evId && (forall h :: 0 <= h < j ==> evs[h].id != evId)
        ensures ProfileOf(evs, evId) == Some(evs[j].profile)
      {
        assert evs[1..][j - 1] == evs[j];
      }
      forall j | 0 <= j < |evs| - 1
        ensures evs[1..][j] == evs[j + 1]
      {
      }
    }
  }

  lemma EvaluationFields(s: Site, chargers: map<int, Charger>, m: Mapping, evs: seq<Ev>, r: Record)
    requires s.bridgeFetch == Fetched(evs) && r == BridgeRecord(s, chargers, m)
    ensures r.Evaluated? && r.confidence == m.confidence
    ensures r.profile == None <==> forall j :: 0 <= j < |evs| ==> evs[j].id != m.evId
    ensures forall j :: 0 <= j < |evs| && evs[j].id == m.evId && (forall h :: 0 <= h < j ==> evs[h].id != m.evId)
              ==> r.profile == Some(evs[j].profile)
    ensures r.powerW
         == if && m.chargerId.Some? && m.chargerId.value != 0 && m.chargerId.value in chargers
               && chargers[m.chargerId.value].maxPowerW.Some? && chargers[m.chargerId.value].maxPowerW.value != 0.0
            then chargers[m.chargerId.value].maxPowerW.value else 11000.0
  {
    FirstListedProfile(evs, m.evId);
  }

  lemma BridgeLogGrows(sites: seq<Site>, chargers: map<int, Charger>, k: nat)
    requires k < |sites|
    ensures BridgeLog(sites[..k + 1], chargers) == BridgeLog(sites[..k], chargers) + BridgeRecords(sites[k], chargers)
    ensures ShadowLog(sites[..k + 1]) == ShadowLog(sites[..k]) + ShadowRecords(sites[k])
    ensures BridgeLog(sites[..0], chargers) == [] && ShadowLog(sites[..0]) == []
  {
    assert sites[..k + 1][..k] == sites[..k];
    LogsByLastSite(sites[..k + 1], chargers);
  }

  /** The calls the bridge log holds for site `k`, behind those of the sites before it: when all gates
      of the site are open, one for each enabled mapping, in the order of the mappings. After a failed
      fetch each is a failsafe. Otherwise each is an evaluation with the profile of the first listed EV
      of that id, or none without such an EV, the mapping's confidence, and the maximum power of the
      mapping's charger, or 11 kW when there is no such charger or no such maximum. */
  lemma BridgeCalls(sites: seq<Site>, chargers: map<int, Charger>, k: nat)
    returns (calls: seq<Record>, at: seq<nat>)
    requires k < |sites|
    ensures BridgeLog(sites[..0], chargers) == []
    ensures BridgeLog(sites[..k + 1], chargers) == BridgeLog(sites[..k], chargers) + calls
    ensures BridgeDues(sites, chargers)[k] == Due(calls, sites[k].bridgeFetch.FetchFailed?)
    ensures var s := sites[k];
            && |calls| == |at| && Increasing(at)
            && (forall n: nat :: n in at <==>
                  && n < |s.mappings| && s.mappings[n].enabled
                  && s.heartbeatRuns && s.smartChargingRuns && s.externalId != "" && s.bridgeEnabled)
            && (forall i :: 0 <= i < |calls| ==>
                  at[i] < |s.mappings| &&
                  var m, r := s.mappings[at[i]], calls[i];
                  && r.siteId == s.id && r.chargerId == m.chargerId && r.evId == Some(m.evId)
                  && r.Failsafe? == s.bridgeFetch.FetchFailed?)
    ensures var s := sites[k];
            s.bridgeFetch.Fetched? ==>
              forall i :: 0 <= i < |calls| ==>
                var m, r, evs := s.mappings[at[i]], calls[i], s.bridgeFetch.evs;
                && r.confidence == m.confidence
                && (r.profile == None <==> forall j :: 0 <= j < |evs| ==> evs[j].id != m.evId)
                && (forall j :: && 0 <= j < |evs| && evs[j].id == m.evId
                                && (forall h :: 0 <= h < j ==> evs[h].id != m.evId)
                      ==> r.profile == Some(evs[j].profile))
                && r.powerW
                   == if && m.chargerId.Some? && m.chargerId.value != 0 && m.chargerId.value in chargers
                         && chargers[m.chargerId.value].maxPowerW.Some?
                         && chargers[m.chargerId.value].maxPowerW.value != 0.0
                      then chargers[m.chargerId.value].maxPowerW.value else 11000.0
  {
    var s := sites[k];
    BridgeLogGrows(sites, chargers, k);
    calls, at := BridgeRecords(s, chargers), [];
    if BridgeEligible(s) {
      at := FilterPositions(s.mappings, (m: Mapping) => m.enabled);
      if s.bridgeFetch.Fetched? {
        forall i | 0 <= i < |calls| {
          EvaluationFields(s, chargers, s.mappings[at[i]], s.bridgeFetch.evs, calls[i]);
        }
      }
    }
  }

  /** The call the shadow log holds for site `k`, if any: it is about the site's first charger, and
      there is one exactly when all gates are open, no mapping is enabled and there is a charger. */
  lemma ShadowCall(sites: seq<Site>, k: nat) returns (calls: seq<Record>)
    requires k < |sites|
    ensures ShadowLog(sites[..0]) == [] && ShadowLog(sites[..k + 1]) == ShadowLog(sites[..k]) + calls
    ensures ShadowDues(sites)[k] == Due(calls, sites[k].shadowFetch.FetchFailed?)
    ensures var s := sites[k];
            && |calls| <= 1
            && (calls != [] <==>
                  && s.energyControlRuns && s.externalId != "" && s.simulationMode && s.chargers != []
                  && forall n :: 0 <= n < |s.mappings| ==> !s.mappings[n].enabled)
            && (calls != [] ==>
                  var r, c := calls[0], s.chargers[0];
                  && r.siteId == s.id && r.chargerId == Some(c.id) && r.evId == None
                  && r.Failsafe? == s.shadowFetch.FetchFailed?
                  && (r.Evaluated? ==>
                        && r.profile == None && r.confidence == 0.0
                        && r.powerW == if c.maxPowerW.Some? && c.maxPowerW.value != 0.0
                                       then c.maxPowerW.value else 11000.0))
  {
    var s := sites[k];
    BridgeLogGrows(sites, map[], k);
    calls := ShadowRecords(s);
    var at := FilterPositions(s.mappings, (m: Mapping) => m.enabled);
    assert Enabled(s.mappings) == [] <==> at == [];
    if at != [] {
      assert at[0] in at;
    }
  }
}
