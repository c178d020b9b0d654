/** The collector's fast lane: ingesting readings, marking sites dirty, draining the marks and
    handing sites to the snapshot writer, over cycles that may fail at any stage. */
module FastLane {
  import opened Collections

  // ----- marks, drains and writes -----

  /** What a cycle does to the dirty-site registry and which list it gives the snapshot writer. */
  datatype Event =
    | Mark(id: int)
    | Drain(ids: set<int>)
    | Write(sites: seq<int>, siteList: seq<int>, refresh: set<int>)

  function PendingAfter(before: set<int>, e: Event): set<int> {
    match e
    case Mark(id) => before + {id}
    case Drain(_) => {}
    case Write(_, _, _) => before
  }

  /** The marks not yet drained: what the registry should hold. */
  function Pending(trace: seq<Event>): set<int> {
    if trace == [] then {} else PendingAfter(Pending(trace[..|trace| - 1]), trace[|trace| - 1])
  }

  function Marks(ids: seq<int>): seq<Event> {
    seq(|ids|, i requires 0 <= i < |ids| => Mark(ids[i]))
  }

  lemma PendingSnoc(trace: seq<Event>, e: Event)
    ensures Pending(trace + [e]) == PendingAfter(Pending(trace), e)
  {
    assert (trace + [e])[..|trace|] == trace;
  }

  function AsSet(ids: seq<int>): set<int> {
    set id | id in ids
  }

  lemma {:induction false} PendingMarks(trace: seq<Event>, ids: seq<int>)
    ensures Pending(trace + Marks(ids)) == Pending(trace) + AsSet(ids)
  {
    if ids == [] {
      assert trace + Marks(ids) == trace;
    } else {
      var init, id := ids[..|ids| - 1], ids[|ids| - 1];
      PendingMarks(trace, init);
      assert trace + Marks(ids) == (trace + Marks(init)) + [Mark(id)];
      PendingSnoc(trace + Marks(init), Mark(id));
      SnocCases(ids);
    }
  }

  /** The sites to refresh, in list order; with nothing to refresh, all sites. */
  function SnapshotSites(siteList: seq<int>, refresh: set<int>): seq<int> {
    if refresh != {} then Filter(siteList, (id: int) => id in refresh) else siteList
  }

  /** Every drain takes exactly the pending marks and is followed at once by a write whose list
      covers every drained site of the cycle's site list. */
  ghost predicate Faithful(trace: seq<Event>) {
    forall j :: 0 <= j < |trace| && trace[j].Drain? ==> FaithfulDrain(trace, j)
  }

  ghost predicate FaithfulDrain(trace: seq<Event>, j: nat)
    requires j < |trace| && trace[j].Drain?
  {
    && trace[j].ids == Pending(trace[..j])
    && j + 1 < |trace| && trace[j + 1].Write?
    && trace[j].ids <= trace[j + 1].refresh
    && trace[j + 1].sites == SnapshotSites(trace[j + 1].siteList, trace[j + 1].refresh)
  }

  // ----- one cycle -----

  datatype Reading = Reading(actionable: bool, slug: string)

  /** Everything a cycle meets from outside: where it fails, what it reads, and the marks other
      tasks make before and after its drain. */
  datatype Cycle = Cycle(
    prologueFails: bool,           // module sync, reconcile or runtime heartbeats raise
    readings: seq<Reading>,        // what the provider returned; empty when no site runs the module
    siteBySlug: map<string, int>,
    active: set<int>,              // sites whose heartbeat module is running
    ingestFailsAt: Option<nat>,    // the reading before which ingesting raises; past the last: the commit
    failsBeforeDrain: bool,        // anything in the second session up to the drain raises
    siteList: seq<int>,
    writerStopsAt: Option<nat>,    // how many snapshots are written when the writer raises, if it does
    commitFails: bool,             // the second session's commit raises
    early: seq<int>,
    late: seq<int>)

  /** The site a reading is stored for: it must be actionable and of a known site that runs the module. */
  function StoredSite(r: Reading, c: Cycle): Option<int> {
    if r.actionable && r.slug in c.siteBySlug && c.siteBySlug[r.slug] in c.active then Some(c.siteBySlug[r.slug])
    else None
  }

  function StoredSites(readings: seq<Reading>, c: Cycle): seq<int> {
    if readings == [] then []
    else
      var rest, stored := StoredSites(readings[..|readings| - 1], c), StoredSite(readings[|readings| - 1], c);
      if stored.Some? then rest + [stored.value] else rest
  }

  lemma StoredStep(c: Cycle, i: nat)
    requires i < |c.readings|
    ensures var before, after := StoredSites(c.readings[..i], c), StoredSites(c.readings[..i + 1], c);
            match StoredSite(c.readings[i], c)
            case None => after == before
            case Some(site) => after == before + [site] && AsSet(after) == AsSet(before) + {site}
                               && Marks(after) == Marks(before) + [Mark(site)]
  {
    var before, stored := StoredSites(c.readings[..i], c), StoredSite(c.readings[i], c);
    assert c.readings[..i + 1][..i] == c.readings[..i];
    if stored.Some? {
      SnocCases(before + [stored.value]);
    }
  }

  /** How many readings are handled before ingesting ends. */
  function Handled(c: Cycle): nat {
    if c.ingestFailsAt.Some? && c.ingestFailsAt.value < |c.readings| then c.ingestFailsAt.value else |c.readings|
  }

  function Ingested(c: Cycle): seq<int> {
    if c.prologueFails then [] else StoredSites(c.readings[..Handled(c)], c)
  }

  predicate Raises(c: Cycle) {
    c.prologueFails || c.ingestFailsAt.Some?
  }

  predicate Drains(c: Cycle) {
    !Raises(c) && !c.failsBeforeDrain
  }

  function WriteOf(dirty: set<int>, c: Cycle): Event {
    var refresh := dirty + AsSet(c.early) + AsSet(Ingested(c));
    Write(SnapshotSites(c.siteList, refresh), c.siteList, refresh)
  }

  /** The sites whose snapshots are in the session when the writer returns or raises. */
  function WrittenSites(sites: seq<int>, stopsAt: Option<nat>): seq<int> {
    if stopsAt.Some? && stopsAt.value < |sites| then sites[..stopsAt.value] else sites
  }

  /** The snapshots a cycle that finds `dirty` in the registry leaves in the database. */
  function Snapshots(dirty: set<int>, c: Cycle): seq<int> {
    if Drains(c) && !c.commitFails then WrittenSites(WriteOf(dirty, c).sites, c.writerStopsAt) else []
  }

  /** What a cycle that finds `dirty` in the registry adds to the trace. */
  function CycleEvents(dirty: set<int>, c: Cycle): seq<Event> {
    var marks := Marks(c.early) + Marks(Ingested(c));
    if !Drains(c) then marks + Marks(c.late)
    else marks + [Drain(dirty + AsSet(c.early) + AsSet(Ingested(c))), WriteOf(dirty, c)] + Marks(c.late)
  }

  lemma CycleEventsInParts(trace: seq<Event>, dirty: set<int>, c: Cycle)
    ensures var marked := trace + (Marks(c.early) + Marks(Ingested(c)));
            var drain := Drain(dirty + AsSet(c.early) + AsSet(Ingested(c)));
            trace + CycleEvents(dirty, c)
            == (if Drains(c) then marked + [drain, WriteOf(dirty, c)] else marked) + Marks(c.late)
  {
  }

  datatype Metric = Metric(task: string, success: bool)

  class Collector {
    var dirty: set<int>
    var upserts: seq<int>       // the site of every upsert ever executed
    var snapshots: seq<int>     // the site of every snapshot ever committed
    var staged: seq<int>        // the site of every snapshot in the open session
    var metrics: seq<Metric>
    var lastReconcileAt: Option<real>
    ghost var trace: seq<Event>

    constructor ()
      ensures Valid() && trace == [] && upserts == [] && snapshots == [] && lastReconcileAt == None
    {
      dirty, upserts, snapshots, staged, metrics, trace, lastReconcileAt := {}, [], [], [], [], [], None;
    }

    /** One call; without an orchestrator nothing happens. */
    method MaybeReconcileAllSites(call: ReconcileCall) returns (attempted: bool)
      modifies this`lastReconcileAt
      ensures (lastReconcileAt, attempted) == MaybeReconcile(old(lastReconcileAt), call)
    {
      if !call.orchestrator {
        return false;
      }
      if lastReconcileAt.Some? {
        var elapsed := call.now - lastReconcileAt.value;
        if elapsed < RECONCILE_INTERVAL {
          return false;
        }
      }
      if call.fails {
        return true;
      }
      lastReconcileAt := Some(call.now);
      return true;
    }

    ghost predicate Valid()
      reads this
    {
      dirty == Pending(trace)
    }

    method MarkSiteDirty(id: int)
      requires Valid()
      modifies this`dirty, this`trace
      ensures Valid() && trace == old(trace) + [Mark(id)]
    {
      PendingSnoc(trace, Mark(id));
      dirty := dirty + {id};
      trace := trace + [Mark(id)];
    }

    method MarkAll(ids: seq<int>)
      requires Valid()
      modifies this`dirty, this`trace
      ensures Valid() && trace == old(trace) + Marks(ids)
    {
      for i := 0 to |ids|
        invariant Valid() && trace == old(trace) + Marks(ids[..i])
      {
        assert Marks(ids[..i + 1]) == Marks(ids[..i]) + [Mark(ids[i])];
        MarkSiteDirty(ids[i]);
      }
      assert ids[..|ids|] == ids;
    }

    method DrainDirtySiteIds() returns (drained: set<int>)
      requires Valid()
      modifies this`dirty, this`trace
      ensures Valid() && drained == old(dirty) && trace == old(trace) + [Drain(drained)]
    {
      drained := dirty;
      PendingSnoc(trace, Drain(drained));
      dirty := {};
      trace := trace + [Drain(drained)];
    }

    /** The writer's loop, run as a task: it returns how many snapshots it wrote, or raises after some. */
    method WriteSites(sites: seq<int>, stopsAt: Option<nat>) returns (result: Option<nat>)
      modifies this`staged
      ensures staged == old(staged) + WrittenSites(sites, stopsAt)
      ensures result == if stopsAt.None? then Some(|sites|) else None
    {
      var count: nat := 0;
      while count < |sites|
        invariant count <= |sites| && (stopsAt.Some? ==> count <= stopsAt.value)
        invariant staged == old(staged) + sites[..count]
      {
        if stopsAt == Some(count) {
          return None;
        }
        staged := staged + [sites[count]];
        assert sites[..count + 1] == sites[..count] + [sites[count]];
        count := count + 1;
      }
      return if stopsAt.Some? then None else Some(count);
    }

    /** `_run_lane` on the snapshot writer: what a raising writer has written stays in the session,
        and its failure is recorded and swallowed. */
    method RunSnapshotLane(sites: seq<int>, stopsAt: Option<nat>) returns (result: Option<nat>)
      modifies this`staged, this`metrics
      ensures staged == old(staged) + WrittenSites(sites, stopsAt)
      ensures metrics == old(metrics) + [Metric("snapshot_write", stopsAt.None?)]
      ensures result == if stopsAt.None? then Some(|sites|) else None
    {
      result := WriteSites(sites, stopsAt);
      metrics := metrics + [Metric("snapshot_write", result.Some?)];
    }

    /** The reading loop; `count` and `ids` are what has been stored when it ends or raises. */
    method Ingest(c: Cycle) returns (count: nat, ids: set<int>)
      requires Valid() && !c.prologueFails
      modifies this`dirty, this`trace, this`upserts
      ensures Valid() && trace == old(trace) + Marks(Ingested(c))
      ensures upserts == old(upserts) + Ingested(c)
      ensures count == |Ingested(c)| && ids == AsSet(Ingested(c))
    {
      count, ids := 0, {};
      for i := 0 to Handled(c)
        invariant Valid() && trace == old(trace) + Marks(StoredSites(c.readings[..i], c))
        invariant upserts == old(upserts) + StoredSites(c.readings[..i], c)
        invariant count == |StoredSites(c.readings[..i], c)| && ids == AsSet(StoredSites(c.readings[..i], c))
      {
        var stored := IngestReading(c, c.readings[i]);
        StoredStep(c, i);
        if stored.Some? {
          ids := ids + {stored.value};
          count := count + 1;
        }
      }
    }

    /** The loop body for one reading: the site it was stored for, unless it was skipped. */
    method IngestReading(c: Cycle, r: Reading) returns (stored: Option<int>)
      requires Valid()
      modifies this`dirty, this`trace, this`upserts
      ensures Valid() && stored == StoredSite(r, c)
      ensures stored.None? ==> trace == old(trace) && upserts == old(upserts)
      ensures stored.Some? ==> trace == old(trace) + [Mark(stored.value)] && upserts == old(upserts) + [stored.value]
    {
      if !r.actionable || r.slug !in c.siteBySlug {
        return None;
      }
      var id := c.siteBySlug[r.slug];
      if id !in c.active {
        return None;
      }
      upserts := upserts + [id];
      MarkSiteDirty(id);
      return Some(id);
    }

    /** The drain, and the list for the writer. */
    method DrainAndChoose(siteList: seq<int>, readingIds: set<int>) returns (snapshotSites: seq<int>)
      requires Valid()
      modifies this`dirty, this`trace
      ensures Valid() && snapshotSites == SnapshotSites(siteList, old(dirty) + readingIds)
      ensures trace == old(trace) + [Drain(old(dirty)), Write(snapshotSites, siteList, old(dirty) + readingIds)]
    {
      var dirtyIds := DrainDirtySiteIds();
      var refreshIds := dirtyIds + readingIds;
      snapshotSites := SnapshotSites(siteList, refreshIds);
      ghost var write := Write(snapshotSites, siteList, refreshIds);
      PendingSnoc(trace, write);
      trace := trace + [write];
    }

    /** From the drain to the end of the second session, which commits whatever the writer wrote. */
    method DrainAndWrite(siteList: seq<int>, readingIds: set<int>, stopsAt: Option<nat>, commitFails: bool)
      requires Valid()
      modifies this`dirty, this`trace, this`metrics, this`staged, this`snapshots
      ensures Valid()
      ensures trace == old(trace) + [Drain(old(dirty)),
                                     Write(SnapshotSites(siteList, old(dirty) + readingIds), siteList,
                                           old(dirty) + readingIds)]
      ensures metrics == old(metrics) + [Metric("snapshot_write", stopsAt.None?)]
      ensures snapshots == old(snapshots)
                           + if commitFails then []
                             else WrittenSites(SnapshotSites(siteList, old(dirty) + readingIds), stopsAt)
    {
      staged := [];
      var snapshotSites := DrainAndChoose(siteList, readingIds);
      var _ := RunSnapshotLane(snapshotSites, stopsAt);
      Commit(commitFails);
    }

    /** The second session's commit; if it raises, what was written is discarded. */
    method Commit(fails: bool)
      modifies this`staged, this`snapshots
      ensures staged == [] && snapshots == old(snapshots) + if fails then [] else old(staged)
    {
      if !fails {
        snapshots := snapshots + staged;
      }
      staged := [];
    }

    /** The first session: prologue, readings and their commit. */
    method FirstSession(c: Cycle) returns (readingCount: nat, readingIds: set<int>)
      requires Valid()
      modifies this`dirty, this`trace, this`upserts
      ensures Valid() && trace == old(trace) + (Marks(c.early) + Marks(Ingested(c)))
      ensures dirty == old(dirty) + AsSet(c.early) + AsSet(Ingested(c))
      ensures upserts == old(upserts) + Ingested(c)
      ensures readingCount == |Ingested(c)| && readingIds == AsSet(Ingested(c))
    {
      readingCount, readingIds := 0, {};
      MarkAll(c.early);
      PendingMarks(old(trace), c.early);
      if !c.prologueFails {
        readingCount, readingIds := Ingest(c);
      }
      PendingMarks(old(trace) + Marks(c.early), Ingested(c));
      assert trace == (old(trace) + Marks(c.early)) + Marks(Ingested(c));
    }

    /** `run_fast_lane`. The reading count is the number of upserts of this cycle, the registry and
        the writer see exactly the cycle's events, and exactly the cycle's snapshots are stored. */
    method RunFastLane(c: Cycle) returns (readingCount: nat, raised: bool)
      requires Valid()
      modifies this
      ensures Valid() && trace == old(trace) + CycleEvents(old(dirty), c)
      ensures snapshots == old(snapshots) + Snapshots(old(dirty), c)
      ensures upserts == old(upserts) + Ingested(c) && readingCount == |Ingested(c)|
      ensures raised == (c.prologueFails || c.ingestFailsAt.Some?)
    {
      var readingIds;
      readingCount, readingIds := FirstSession(c);
      raised := c.prologueFails || c.ingestFailsAt.Some?;
      if !raised && !c.failsBeforeDrain {
        DrainAndWrite(c.siteList, readingIds, c.writerStopsAt, c.commitFails);
      }
      MarkAll(c.late);
      CycleEventsInParts(old(trace), old(dirty), c);
    }
  }

  // ----- whole runs -----

  function RunEvents(cycles: seq<Cycle>): seq<Event> {
    if cycles == [] then []
    else
      var before := RunEvents(cycles[..|cycles| - 1]);
      before + CycleEvents(Pending(before), cycles[|cycles| - 1])
  }

  lemma FaithfulSnoc(trace: seq<Event>, e: Event)
    requires Faithful(trace) && !e.Drain?
    ensures Faithful(trace + [e])
  {
    forall j | 0 <= j < |trace + [e]| && (trace + [e])[j].Drain?
      ensures FaithfulDrain(trace + [e], j)
    {
      assert FaithfulDrain(trace, j);
      assert (trace + [e])[..j] == trace[..j];
    }
  }

  lemma {:induction false} FaithfulMarks(trace: seq<Event>, ids: seq<int>)
    requires Faithful(trace)
    ensures Faithful(trace + Marks(ids))
  {
    if ids == [] {
      assert trace + Marks(ids) == trace;
    } else {
      FaithfulMarks(trace, ids[..|ids| - 1]);
      FaithfulSnoc(trace + Marks(ids[..|ids| - 1]), Mark(ids[|ids| - 1]));
      assert trace + Marks(ids) == (trace + Marks(ids[..|ids| - 1])) + [Mark(ids[|ids| - 1])];
    }
  }

  lemma FaithfulPair(trace: seq<Event>, d: Event, w: Event)
    requires Faithful(trace) && d.Drain? && w.Write? && d.ids == Pending(trace)
    requires d.ids <= w.refresh && w.sites == SnapshotSites(w.siteList, w.refresh)
    ensures Faithful(trace + [d, w])
  {
    var t := trace + [d, w];
    forall j | 0 <= j < |t| && t[j].Drain?
      ensures FaithfulDrain(t, j)
    {
      assert t[..j] == trace[..j];
      if j < |trace| {
        assert FaithfulDrain(trace, j);
      } else {
        assert trace[..j] == trace;
      }
    }
  }

  /** The trace at the moment the second session starts. */
  function AfterIngest(trace: seq<Event>, c: Cycle): seq<Event> {
    trace + Marks(c.early) + Marks(Ingested(c))
  }

  lemma CycleShape(trace: seq<Event>, c: Cycle)
    ensures Pending(AfterIngest(trace, c)) == Pending(trace) + AsSet(c.early) + AsSet(Ingested(c))
    ensures trace + CycleEvents(Pending(trace), c)
         == (if Drains(c)
             then AfterIngest(trace, c) + [Drain(Pending(AfterIngest(trace, c))), WriteOf(Pending(trace), c)]
             else AfterIngest(trace, c)) + Marks(c.late)
  {
    PendingMarks(trace, c.early);
    PendingMarks(trace + Marks(c.early), Ingested(c));
    var pair := [Drain(Pending(trace) + AsSet(c.early) + AsSet(Ingested(c))), WriteOf(Pending(trace), c)];
    Regroup(trace, Marks(c.early), Marks(Ingested(c)), if Drains(c) then pair else [], Marks(c.late));
  }

  lemma Regroup<T>(a: seq<T>, b: seq<T>, c: seq<T>, d: seq<T>, e: seq<T>)
    ensures a + (b + c + d + e) == a + b + c + d + e
    ensures d == [] ==> a + (b + c + e) == a + b + c + e
  {
  }

  lemma CycleIsFaithful(trace: seq<Event>, c: Cycle)
    requires Faithful(trace)
    ensures Faithful(trace + CycleEvents(Pending(trace), c))
  {
    var second, w := AfterIngest(trace, c), WriteOf(Pending(trace), c);
    FaithfulMarks(trace, c.early);
    FaithfulMarks(trace + Marks(c.early), Ingested(c));
    CycleShape(trace, c);
    if Drains(c) {
      FaithfulPair(second, Drain(Pending(second)), w);
      FaithfulMarks(second + [Drain(Pending(second)), w], c.late);
    } else {
      FaithfulMarks(second, c.late);
    }
  }

  lemma {:induction false} RunIsFaithful(cycles: seq<Cycle>)
    ensures Faithful(RunEvents(cycles))
  {
    if cycles != [] {
      RunIsFaithful(cycles[..|cycles| - 1]);
      CycleIsFaithful(RunEvents(cycles[..|cycles| - 1]), cycles[|cycles| - 1]);
    }
  }

  ghost predicate NoDrainBetween(trace: seq<Event>, i: nat, j: nat) {
    forall k :: i < k < j && k < |trace| ==> !trace[k].Drain?
  }

  lemma {:induction false} MarkStays(trace: seq<Event>, i: nat, n: nat)
    requires i < n <= |trace| && trace[i].Mark? && NoDrainBetween(trace, i, n)
    ensures trace[i].id in Pending(trace[..n])
    decreases n
  {
    assert trace[..n][..n - 1] == trace[..n - 1];
    if n > i + 1 {
      MarkStays(trace, i, n - 1);
    }
  }

  /** The mark made at `i` reaches the writer of the drain at `j`. */
  ghost predicate HandedOver(trace: seq<Event>, i: nat, j: nat) {
    && i < j && j + 1 < |trace| && trace[i].Mark? && trace[j].Drain? && trace[j + 1].Write?
    && NoDrainBetween(trace, i, j)
    && trace[i].id in trace[j].ids
    && (trace[i].id in trace[j + 1].siteList ==> trace[i].id in trace[j + 1].sites)
  }

  /** No dirty mark is ever dropped: over any run of cycles, failing ones included, a mark is either
      still in the registry, with no drain since, or the first drain after it took it and handed its
      site to the writer if the site was in that cycle's list. */
  lemma NoMarkIsDropped(cycles: seq<Cycle>, i: nat)
    requires i < |RunEvents(cycles)| && RunEvents(cycles)[i].Mark?
    ensures var trace := RunEvents(cycles);
            || (NoDrainBetween(trace, i, |trace|) && trace[i].id in Pending(trace))
            || exists j: nat :: HandedOver(trace, i, j)
  {
    var trace := RunEvents(cycles);
    RunIsFaithful(cycles);
    if NoDrainBetween(trace, i, |trace|) {
      MarkStays(trace, i, |trace|);
      assert trace[..|trace|] == trace;
    } else {
      var j := FirstDrain(trace, i);
      MarkStays(trace, i, j);
      assert FaithfulDrain(trace, j);
      var w := trace[j + 1];
      FilterMember(w.siteList, (id: int) => id in w.refresh, trace[i].id);
      assert HandedOver(trace, i, j);
    }
  }

  lemma FirstDrain(trace: seq<Event>, i: nat) returns (j: nat)
    requires !NoDrainBetween(trace, i, |trace|)
    ensures i < j < |trace| && trace[j].Drain? && NoDrainBetween(trace, i, j)
  {
    j := i + 1;
    while !trace[j].Drain?
      invariant i < j < |trace| && NoDrainBetween(trace, i, j)
      invariant !NoDrainBetween(trace, i, |trace|)
      decreases |trace| - j
    {
      if j + 1 == |trace| {
        assert NoDrainBetween(trace, i, |trace|);
      }
      j := j + 1;
    }
  }

  lemma {:induction false} StoredPositions(readings: seq<Reading>, c: Cycle) returns (at: seq<nat>)
    ensures Increasing(at)
    ensures forall n: nat :: n in at <==> n < |readings| && StoredSite(readings[n], c).Some?
    ensures |at| == |StoredSites(readings, c)|
    ensures forall k :: 0 <= k < |at| ==>
              at[k] in at && StoredSite(readings[at[k]], c) == Some(StoredSites(readings, c)[k])
  {
    if readings == [] {
      at := [];
    } else {
      var last := |readings| - 1;
      at := StoredPositions(readings[..last], c);
      if StoredSite(readings[last], c).Some? {
        at := at + [last];
      }
    }
  }

  /** Which readings are stored: when the prologue returns, exactly those before the one at which
      ingesting raises, if it does, that are actionable and name a known site running the module; each
      once, in reading order. */
  lemma IngestedReadings(c: Cycle) returns (at: seq<nat>)
    ensures Increasing(at)
    ensures forall n: nat :: n in at <==>
              && !c.prologueFails && n < |c.readings| && (c.ingestFailsAt.Some? ==> n < c.ingestFailsAt.value)
              && c.readings[n].actionable
              && c.readings[n].slug in c.siteBySlug && c.siteBySlug[c.readings[n].slug] in c.active
    ensures |at| == |Ingested(c)|
    ensures forall k :: 0 <= k < |at| ==>
              at[k] in at && c.siteBySlug[c.readings[at[k]].slug] == Ingested(c)[k]
  {
    at := [];
    if !c.prologueFails {
      at := StoredPositions(c.readings[..Handled(c)], c);
    }
  }

  /** A site is among the stored ones exactly when some stored reading names it. */
  lemma IngestedIff(c: Cycle, id: int)
    ensures id in Ingested(c)
       <==> && !c.prologueFails && id in c.active
            && exists n :: && 0 <= n < |c.readings| && (c.ingestFailsAt.Some? ==> n < c.ingestFailsAt.value)
                           && c.readings[n].actionable
                           && c.readings[n].slug in c.siteBySlug && c.siteBySlug[c.readings[n].slug] == id
  {
    var at := IngestedReadings(c);
    if id in Ingested(c) {
      var k :| 0 <= k < |Ingested(c)| && Ingested(c)[k] == id;
      assert at[k] in at;
    }
    if !c.prologueFails && id in c.active {
      forall n | && 0 <= n < |c.readings| && (c.ingestFailsAt.Some? ==> n < c.ingestFailsAt.value)
                 && c.readings[n].actionable
                 && c.readings[n].slug in c.siteBySlug && c.siteBySlug[c.readings[n].slug] == id
        ensures id in Ingested(c)
      {
        assert n in at;
      }
    }
  }

  lemma EveryPosition(n: nat) returns (at: seq<nat>)
    ensures |at| == n && forall i: nat :: i in at <==> i < n
    ensures forall i :: 0 <= i < n ==> at[i] == i
  {
    at := seq(n, i => i);
    forall i: nat | i < n
      ensures i in at
    {
      assert at[i] == i;
    }
  }

  /** The writer's list and the stored snapshots: of the site list, in its order, exactly the sites
      that are drained or just read, or all if there are none of either; and of these the ones written
      before the writer stopped, if the cycle gets there and its commit succeeds. */
  lemma WriterListIs(dirty: set<int>, c: Cycle) returns (at: seq<nat>)
    ensures Increasing(at)
    ensures forall n: nat :: n in at <==>
              && n < |c.siteList|
              && (|| (dirty == {} && c.early == [] && Ingested(c) == [])
                  || c.siteList[n] in dirty || c.siteList[n] in c.early || c.siteList[n] in Ingested(c))
    ensures var sites := WriteOf(dirty, c).sites;
            |sites| == |at| && forall k :: 0 <= k < |at| ==> at[k] in at && sites[k] == c.siteList[at[k]]
    ensures var stored, sites := Snapshots(dirty, c), WriteOf(dirty, c).sites;
            stored == if c.prologueFails || c.ingestFailsAt.Some? || c.failsBeforeDrain || c.commitFails then []
                      else if c.writerStopsAt.Some? && c.writerStopsAt.value < |at| then sites[..c.writerStopsAt.value]
                      else sites
  {
    NothingToRefreshIff(dirty, c);
    var w := WriteOf(dirty, c);
    if w.refresh == {} {
      at := EveryPosition(|c.siteList|);
    } else {
      at := FilterPositions(c.siteList, (id: int) => id in w.refresh);
    }
  }

  lemma NothingToRefreshIff(dirty: set<int>, c: Cycle)
    ensures WriteOf(dirty, c).refresh == {} <==> dirty == {} && c.early == [] && Ingested(c) == []
  {
    if c.early != [] {
      assert c.early[0] in AsSet(c.early);
    }
    if Ingested(c) != [] {
      assert Ingested(c)[0] in AsSet(Ingested(c));
    }
  }

  /** Every drained or just-read site of the cycle's list reaches the writer. */
  lemma WriterListCovers(dirty: set<int>, c: Cycle, id: int)
    requires id in dirty || id in c.early || id in Ingested(c)
    ensures id in WriteOf(dirty, c).sites <==> id in c.siteList
  {
    var w := WriteOf(dirty, c);
    FilterMember(c.siteList, (x: int) => x in w.refresh, id);
  }

  /** The registry after a cycle: only the marks made after the drain, or everything if there was none. */
  lemma PendingAfterCycle(trace: seq<Event>, c: Cycle)
    ensures Pending(trace + CycleEvents(Pending(trace), c))
         == if !c.prologueFails && c.ingestFailsAt.None? && !c.failsBeforeDrain then AsSet(c.late)
            else Pending(trace) + AsSet(c.early) + AsSet(Ingested(c)) + AsSet(c.late)
  {
    var second, w := AfterIngest(trace, c), WriteOf(Pending(trace), c);
    CycleShape(trace, c);
    if Drains(c) {
      var d := Drain(Pending(second));
      PendingSnoc(second, d);
      PendingSnoc(second + [d], w);
      assert second + [d, w] == second + [d] + [w];
      PendingMarks(second + [d, w], c.late);
    } else {
      PendingMarks(second, c.late);
    }
  }

  /** A pending site is still pending after the cycle, or its snapshot is in the database. */
  ghost predicate Served(trace: seq<Event>, c: Cycle, id: int) {
    id in Pending(trace + CycleEvents(Pending(trace), c)) || id in Snapshots(Pending(trace), c)
  }

  /** Being handed to the writer is not being stored: the drain comes before the write and the commit.
      A pending site is served exactly when the cycle does not reach its drain, the site is marked
      again after it, or the commit succeeds and the writer got as far as the site; for a writer that
      returns and a commit that succeeds, the last means that the site is listed. */
  lemma ServedIff(trace: seq<Event>, c: Cycle, id: int)
    requires id in Pending(trace)
    ensures var sites := WriteOf(Pending(trace), c).sites;
            (Served(trace, c, id)
             <==> || c.prologueFails || c.ingestFailsAt.Some? || c.failsBeforeDrain || id in c.late
                  || (!c.commitFails
                      && exists n :: 0 <= n < |sites| && sites[n] == id
                                     && (c.writerStopsAt.Some? ==> n < c.writerStopsAt.value)))
    ensures !c.commitFails && c.writerStopsAt.None? ==>
              (Served(trace, c, id)
               <==> c.prologueFails || c.ingestFailsAt.Some? || c.failsBeforeDrain || id in c.late || id in c.siteList)
  {
    PendingAfterCycle(trace, c);
    WriterListCovers(Pending(trace), c, id);
    WrittenIff(WriteOf(Pending(trace), c).sites, c.writerStopsAt, id);
  }

  lemma WrittenIff(sites: seq<int>, stopsAt: Option<nat>, id: int)
    ensures id in WrittenSites(sites, stopsAt)
       <==> exists n :: 0 <= n < |sites| && sites[n] == id && (stopsAt.Some? ==> n < stopsAt.value)
  {
    var written := WrittenSites(sites, stopsAt);
    if id in written {
      var n :| 0 <= n < |written| && written[n] == id;
      assert sites[n] == id;
    }
    forall n | 0 <= n < |sites| && sites[n] == id && (stopsAt.Some? ==> n < stopsAt.value)
      ensures id in written
    {
      assert written[n] == id;
    }
  }

  /** Two dirty sites, 7 and 8, both listed, and nothing else going on. */
  function TwoDirtySites(writerStopsAt: Option<nat>, commitFails: bool): Cycle {
    Cycle(false, [], map[], {}, None, false, [7, 8], writerStopsAt, commitFails, [], [])
  }

  lemma TwoDirtySitesAreWritten(c: Cycle)
    requires c == TwoDirtySites(c.writerStopsAt, c.commitFails)
    ensures Pending([Mark(7), Mark(8)]) == {7, 8} && Drains(c) && WriteOf({7, 8}, c).sites == [7, 8]
  {
    PendingSnoc([], Mark(7));
    PendingSnoc([Mark(7)], Mark(8));
    assert [] + [Mark(7)] == [Mark(7)] && [Mark(7)] + [Mark(8)] == [Mark(7), Mark(8)];
    var p := (id: int) => id in WriteOf({7, 8}, c).refresh;
    FilterSnoc([], 7, p);
    FilterSnoc([7], 8, p);
    assert [] + [7] == [7] && [7] + [8] == [7, 8];
  }

  /** A writer that raises at the second site loses its mark, and only that one. */
  lemma WriterFailureLosesMark()
    ensures Served([Mark(7), Mark(8)], TwoDirtySites(Some(1), false), 7)
    ensures !Served([Mark(7), Mark(8)], TwoDirtySites(Some(1), false), 8)
  {
    TwoDirtySitesAreWritten(TwoDirtySites(Some(1), false));
    ServedIff([Mark(7), Mark(8)], TwoDirtySites(Some(1), false), 7);
    ServedIff([Mark(7), Mark(8)], TwoDirtySites(Some(1), false), 8);
  }

  /** A failing commit loses every mark the cycle drained, even when the writer returned. */
  lemma CommitFailureLosesMarks()
    ensures forall id :: id in {7, 8} ==> !Served([Mark(7), Mark(8)], TwoDirtySites(None, true), id)
  {
    TwoDirtySitesAreWritten(TwoDirtySites(None, true));
    ServedIff([Mark(7), Mark(8)], TwoDirtySites(None, true), 7);
    ServedIff([Mark(7), Mark(8)], TwoDirtySites(None, true), 8);
  }

  // ----- reconciling -----

  const RECONCILE_INTERVAL := 120.0

  /** One call: whether the collector has an orchestrator, the wall clock, and whether reconciling
      would raise. */
  datatype ReconcileCall = ReconcileCall(orchestrator: bool, now: real, fails: bool)

  /** `_maybe_reconcile_all_sites`: the remembered start of the last successful reconcile and
      whether this call attempted one. A reconcile that raises is not remembered. */
  function MaybeReconcile(last: Option<real>, call: ReconcileCall): (Option<real>, bool) {
    if !call.orchestrator || (last.Some? && call.now - last.value < RECONCILE_INTERVAL) then (last, false)
    else (if call.fails then last else Some(call.now), true)
  }

  function LastReconcile(calls: seq<ReconcileCall>): Option<real> {
    if calls == [] then None else MaybeReconcile(LastReconcile(calls[..|calls| - 1]), calls[|calls| - 1]).0
  }

  /** The starts of all successful reconciles of a run, in order. */
  function Reconciles(calls: seq<ReconcileCall>): seq<real> {
    if calls == [] then []
    else
      var before, call := Reconciles(calls[..|calls| - 1]), calls[|calls| - 1];
      if MaybeReconcile(LastReconcile(calls[..|calls| - 1]), call).1 && !call.fails then before + [call.now] else before
  }

  /** Successful reconciles start at least two minutes apart, whatever the wall clock does; and a
      call attempts one exactly when there is an orchestrator and none has succeeded or the last is
      at least two minutes old. */
  lemma {:induction false} ReconcilesAreSpaced(calls: seq<ReconcileCall>, call: ReconcileCall)
    ensures var done := Reconciles(calls);
            && (LastReconcile(calls) == if done == [] then None else Some(done[|done| - 1]))
            && (forall i :: 0 <= i < |done| - 1 ==> done[i + 1] - done[i] >= 120.0)
            && (MaybeReconcile(LastReconcile(calls), call).1
                <==> call.orchestrator && (done == [] || call.now - done[|done| - 1] >= 120.0))
  {
    if calls != [] {
      ReconcilesAreSpaced(calls[..|calls| - 1], call);
    }
  }
}
