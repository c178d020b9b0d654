/** The two cache layers in front of the dashboard: computed sections (`_CACHE`) and whole
    display overviews (`_OVERVIEW_CACHE`). Builds suspend at their database calls, so any number
    of builds and other section computations interleave; the monotonic clock only moves forward. */
module DashboardCaches {
  import opened Collections

  datatype Kind = Today | Price | Solar

  /** A computed section, known only by identity. */
  type Section = nat

  datatype Overview = Overview(slug: string, sections: map<Kind, Section>)

  function Ttl(kind: Kind): real {
    match kind
    case Today => 60.0
    case Price => 300.0
    case Solar => 900.0
  }

  const OVERVIEW_TTL := 3.0

  datatype Entry<V> = Entry(at: real, value: V)

  /** A hit: something is stored for the key and is at most `ttl` old; a non-positive ttl never hits. */
  function Lookup<K, V>(cache: map<K, Entry<V>>, key: K, ttl: real, now: real): Option<V> {
    if ttl <= 0.0 || key !in cache || now - cache[key].at > ttl then None else Some(cache[key].value)
  }

  // ----- interleaved builds -----

  /** A build past the overview check: when it started and the sections it has so far. */
  datatype Build = Build(slug: string, started: real, sections: map<Kind, Section>)

  /** A section put into the cache, and an overview put into the cache. */
  datatype Stored = Stored(slug: string, kind: Kind, section: Section, at: real)
  datatype Built = Built(overview: Overview, started: real, finished: real)

  datatype State = State(
    now: real,
    sections: map<(string, Kind), Entry<Section>>,
    overviews: map<string, Entry<Overview>>,
    builds: map<nat, Build>,
    stored: set<Stored>,
    built: set<Built>)

  datatype Action =
    | Begin(id: nat, slug: string)                        // `build` up to its first database call
    | Find(id: nat, kind: Kind)                           // a build looks for a cached section
    | Finish(id: nat)                                     // a build caches and returns its overview
    | Abandon(id: nat)                                    // a build ends without an overview
    | Store(owner: Option<nat>, slug: string, kind: Kind, section: Section)  // a computed section is cached

  datatype Event = Event(at: real, action: Action)

  function Put(s: State, slug: string, kind: Kind, section: Section): State {
    s.(sections := s.sections[(slug, kind) := Entry(s.now, section)],
       stored := s.stored + {Stored(slug, kind, section, s.now)})
  }

  function Take(s: State, id: nat, kind: Kind, section: Section): State
    requires id in s.builds
  {
    s.(builds := s.builds[id := s.builds[id].(sections := s.builds[id].sections[kind := section])])
  }

  predicate Complete(sections: map<Kind, Section>) {
    Today in sections && Price in sections && Solar in sections
  }

  /** One segment between awaits; actions that cannot be scheduled change nothing but the time. */
  function Act(s: State, action: Action): State {
    match action
    case Begin(id, slug) =>
      if id in s.builds || Lookup(s.overviews, slug, OVERVIEW_TTL, s.now).Some? then s
      else s.(builds := s.builds[id := Build(slug, s.now, map[])])
    case Find(id, kind) =>
      if id !in s.builds then s
      else
        var hit := Lookup(s.sections, (s.builds[id].slug, kind), Ttl(kind), s.now);
        if hit.None? then s else Take(s, id, kind, hit.value)
    case Store(owner, slug, kind, section) =>
      if owner.None? then Put(s, slug, kind, section)
      else if owner.value !in s.builds || s.builds[owner.value].slug != slug then s
      else Take(Put(s, slug, kind, section), owner.value, kind, section)
    case Finish(id) =>
      if id !in s.builds || !Complete(s.builds[id].sections) then s
      else
        var b := s.builds[id];
        var overview := Overview(b.slug, b.sections);
        s.(overviews := s.overviews[b.slug := Entry(s.now, overview)],
           builds := s.builds - {id},
           built := s.built + {Built(overview, b.started, s.now)})
    case Abandon(id) => s.(builds := s.builds - {id})
  }

  function Step(s: State, e: Event): State {
    if e.at < s.now then s else Act(s.(now := e.at), e.action)
  }

  function Run(events: seq<Event>): State {
    if events == [] then State(0.0, map[], map[], map[], {}, {})
    else Step(Run(events[..|events| - 1]), events[|events| - 1])
  }

  // ----- the service -----

  /** The two module-level dictionaries and the suspended builds; `now`, `stored` and `built` are the
      history the freshness results speak of. Each method is one segment between two awaits. */
  class Caches {
    var sections: map<(string, Kind), Entry<Section>>
    var overviews: map<string, Entry<Overview>>
    var builds: map<nat, Build>
    ghost var now: real
    ghost var stored: set<Stored>
    ghost var built: set<Built>

    ghost function Abstract(): State
      reads this
    {
      State(now, sections, overviews, builds, stored, built)
    }

    constructor ()
      ensures Abstract() == Run([])
    {
      sections, overviews, builds := map[], map[], map[];
      now, stored, built := 0.0, {}, {};
    }

    /** `_cache_get` */
    method CacheGet(slug: string, kind: Kind, ttl: real, at: real) returns (r: Option<Section>)
      ensures r.Some? <==> ttl > 0.0 && (slug, kind) in sections && at - sections[(slug, kind)].at <= ttl
      ensures r.Some? ==> r.value == sections[(slug, kind)].value
    {
      if ttl <= 0.0 {
        return None;
      }
      var key := (slug, kind);
      if key !in sections {
        return None;
      }
      if at - sections[key].at > ttl {
        return None;
      }
      return Some(sections[key].value);
    }

    /** `_cache_set` */
    method CacheSet(slug: string, kind: Kind, section: Section, at: real)
      modifies this`sections
      ensures sections == old(sections)[(slug, kind) := Entry(at, section)]
    {
      sections := sections[(slug, kind) := Entry(at, section)];
    }

    /** `build` up to its first database call, or to the cached overview. */
    method BeginBuild(id: nat, slug: string, at: real) returns (cached: Option<Overview>)
      requires id !in builds && now <= at
      modifies this
      ensures Abstract() == Step(old(Abstract()), Event(at, Begin(id, slug)))
      ensures cached.Some? <==> slug in overviews && at - overviews[slug].at <= 3.0
      ensures cached.Some? ==> cached.value == overviews[slug].value
      ensures sections == old(sections) && overviews == old(overviews)
      ensures builds == if cached.Some? then old(builds) else old(builds)[id := Build(slug, at, map[])]
    {
      now := at;
      if slug in overviews && at - overviews[slug].at <= OVERVIEW_TTL {
        return Some(overviews[slug].value);
      }
      builds := builds[id := Build(slug, at, map[])];
      return None;
    }

    /** A `_compute_*` shell of a build up to its first database call, or to the cached section. */
    method BeginCompute(id: nat, kind: Kind, at: real) returns (cached: Option<Section>)
      requires id in builds && now <= at
      modifies this
      ensures Abstract() == Step(old(Abstract()), Event(at, Find(id, kind)))
      ensures var b := old(builds)[id];
              var ttl := if kind == Today then 60.0 else if kind == Price then 300.0 else 900.0;
              && (cached.Some? <==> (b.slug, kind) in sections && at - sections[(b.slug, kind)].at <= ttl)
              && (cached.Some? ==> cached.value == sections[(b.slug, kind)].value)
              && builds == if cached.Some? then old(builds)[id := b.(sections := b.sections[kind := cached.value])]
                           else old(builds)
      ensures sections == old(sections) && overviews == old(overviews)
    {
      now := at;
      cached := CacheGet(builds[id].slug, kind, Ttl(kind), at);
      if cached.Some? {
        var b := builds[id];
        builds := builds[id := b.(sections := b.sections[kind := cached.value])];
      }
    }

    /** The end of a `_compute_*` shell, called by a build or by anyone else. */
    method EndCompute(owner: Option<nat>, slug: string, kind: Kind, section: Section, at: real)
      requires now <= at && (owner.Some? ==> owner.value in builds && builds[owner.value].slug == slug)
      modifies this
      ensures Abstract() == Step(old(Abstract()), Event(at, Store(owner, slug, kind, section)))
      ensures sections == old(sections)[(slug, kind) := Entry(at, section)] && overviews == old(overviews)
      ensures owner.None? ==> builds == old(builds)
      ensures owner.Some? ==>
                var b := old(builds)[owner.value];
                builds == old(builds)[owner.value := b.(sections := b.sections[kind := section])]
    {
      now := at;
      stored := stored + {Stored(slug, kind, section, at)};
      CacheSet(slug, kind, section, at);
      if owner.Some? {
        var b := builds[owner.value];
        builds := builds[owner.value := b.(sections := b.sections[kind := section])];
      }
    }

    /** The end of `build`. */
    method EndBuild(id: nat, at: real) returns (overview: Overview)
      requires id in builds && now <= at && Complete(builds[id].sections)
      modifies this
      ensures Abstract() == Step(old(Abstract()), Event(at, Finish(id)))
      ensures overview == Overview(old(builds)[id].slug, old(builds)[id].sections)
      ensures overviews == old(overviews)[overview.slug := Entry(at, overview)] && sections == old(sections)
      ensures builds == old(builds) - {id}
    {
      now := at;
      var b := builds[id];
      overview := Overview(b.slug, b.sections);
      overviews := overviews[b.slug := Entry(at, overview)];
      built := built + {Built(overview, b.started, at)};
      builds := builds - {id};
    }

    /** A build that finds no site, or whose task is cancelled or raises. */
    method AbandonBuild(id: nat, at: real)
      requires now <= at
      modifies this
      ensures Abstract() == Step(old(Abstract()), Event(at, Abandon(id)))
      ensures builds == old(builds) - {id} && sections == old(sections) && overviews == old(overviews)
    {
      now := at;
      builds := builds - {id};
    }
  }

  /** The section was stored for the slug at some moment from `since` on. */
  ghost predicate StoredSince(s: State, slug: string, kind: Kind, section: Section, since: real) {
    exists st :: && st in s.stored && st.slug == slug && st.kind == kind && st.section == section
                 && since <= st.at <= s.now
  }

  ghost predicate FreshSections(s: State, slug: string, sections: map<Kind, Section>, started: real) {
    forall kind :: kind in sections ==> StoredSince(s, slug, kind, sections[kind], started - Ttl(kind))
  }

  ghost predicate CachedSectionsLogged(s: State) {
    forall key :: key in s.sections ==>
      Stored(key.0, key.1, s.sections[key].value, s.sections[key].at) in s.stored && s.sections[key].at <= s.now
  }

  ghost predicate BuildsFresh(s: State) {
    forall id :: id in s.builds ==>
      s.builds[id].started <= s.now && FreshSections(s, s.builds[id].slug, s.builds[id].sections, s.builds[id].started)
  }

  ghost predicate BuiltFresh(s: State) {
    forall b :: b in s.built ==>
      b.started <= b.finished <= s.now && FreshSections(s, b.overview.slug, b.overview.sections, b.started)
  }

  /** The cached overview is complete, belongs to its slug, and was cached when its build finished. */
  ghost predicate Logged(s: State, slug: string, entry: Entry<Overview>) {
    && entry.value.slug == slug && Complete(entry.value.sections)
    && exists b :: b in s.built && b.overview == entry.value && b.finished == entry.at
  }

  ghost predicate CachedOverviewsLogged(s: State) {
    forall slug :: slug in s.overviews ==> Logged(s, slug, s.overviews[slug])
  }

  ghost predicate Inv(s: State) {
    CachedSectionsLogged(s) && BuildsFresh(s) && BuiltFresh(s) && CachedOverviewsLogged(s)
  }

  lemma KeepsFresh(s: State, t: State, slug: string, sections: map<Kind, Section>, started: real)
    requires FreshSections(s, slug, sections, started) && s.stored <= t.stored && s.now <= t.now
    ensures FreshSections(t, slug, sections, started)
  {
    forall kind | kind in sections
      ensures StoredSince(t, slug, kind, sections[kind], started - Ttl(kind))
    {
      var st :| st in s.stored && st.slug == slug && st.kind == kind && st.section == sections[kind]
                && started - Ttl(kind) <= st.at <= s.now;
      assert st in t.stored;
    }
  }

  lemma KeepsAllFresh(s: State, t: State)
    requires BuiltFresh(s) && s.stored <= t.stored && s.now <= t.now && t.built == s.built
    ensures BuiltFresh(t)
  {
    forall b | b in t.built
      ensures FreshSections(t, b.overview.slug, b.overview.sections, b.started)
    {
      KeepsFresh(s, t, b.overview.slug, b.overview.sections, b.started);
    }
  }

  lemma TickInv(s: State, now: real)
    requires Inv(s) && s.now <= now
    ensures Inv(s.(now := now))
  {
    var t := s.(now := now);
    KeepsAllFresh(s, t);
    forall id | id in t.builds
      ensures FreshSections(t, t.builds[id].slug, t.builds[id].sections, t.builds[id].started)
    {
      KeepsFresh(s, t, t.builds[id].slug, t.builds[id].sections, t.builds[id].started);
    }
  }

  lemma PutInv(s: State, slug: string, kind: Kind, section: Section)
    requires Inv(s)
    ensures Inv(Put(s, slug, kind, section))
    ensures Stored(slug, kind, section, s.now) in Put(s, slug, kind, section).stored
  {
    var t := Put(s, slug, kind, section);
    KeepsAllFresh(s, t);
    forall id | id in t.builds
      ensures FreshSections(t, t.builds[id].slug, t.builds[id].sections, t.builds[id].started)
    {
      KeepsFresh(s, t, t.builds[id].slug, t.builds[id].sections, t.builds[id].started);
    }
  }

  lemma TakeInv(s: State, id: nat, kind: Kind, section: Section, at: real)
    requires Inv(s) && id in s.builds
    requires Stored(s.builds[id].slug, kind, section, at) in s.stored && s.now - Ttl(kind) <= at <= s.now
    ensures Inv(Take(s, id, kind, section))
  {
    var t := Take(s, id, kind, section);
    var b := s.builds[id];
    KeepsAllFresh(s, t);
    forall i | i in t.builds
      ensures FreshSections(t, t.builds[i].slug, t.builds[i].sections, t.builds[i].started)
    {
      KeepsFresh(s, t, s.builds[i].slug, s.builds[i].sections, s.builds[i].started);
      if i == id {
        assert StoredSince(t, b.slug, kind, section, b.started - Ttl(kind));
      }
    }
  }

  lemma PublishOverviews(s: State, t: State, slug: string, b: Built)
    requires CachedOverviewsLogged(s) && t.built == s.built + {b}
    requires b.overview.slug == slug && Complete(b.overview.sections)
    requires t.overviews == s.overviews[slug := Entry(b.finished, b.overview)]
    ensures CachedOverviewsLogged(t)
  {
    forall other | other in t.overviews
      ensures Logged(t, other, t.overviews[other])
    {
      if other == slug {
        assert b in t.built;
      } else {
        assert Logged(s, other, s.overviews[other]);
        var old' :| && old' in s.built && old'.overview == s.overviews[other].value
                    && old'.finished == s.overviews[other].at;
        assert old' in t.built;
      }
    }
  }

  lemma PublishBuilt(s: State, t: State, b: Built)
    requires BuiltFresh(s) && t.built == s.built + {b} && t.stored == s.stored && t.now == s.now
    requires b.started <= b.finished <= s.now && FreshSections(s, b.overview.slug, b.overview.sections, b.started)
    ensures BuiltFresh(t)
  {
    forall x | x in t.built
      ensures FreshSections(t, x.overview.slug, x.overview.sections, x.started)
    {
      KeepsFresh(s, t, x.overview.slug, x.overview.sections, x.started);
    }
  }

  lemma BuildsStay(s: State, t: State)
    requires BuildsFresh(s) && t.stored == s.stored && t.now == s.now
    requires forall i :: i in t.builds ==> i in s.builds && t.builds[i] == s.builds[i]
    ensures BuildsFresh(t)
  {
    forall i | i in t.builds
      ensures FreshSections(t, t.builds[i].slug, t.builds[i].sections, t.builds[i].started)
    {
      KeepsFresh(s, t, t.builds[i].slug, t.builds[i].sections, t.builds[i].started);
    }
  }

  lemma FinishInv(s: State, id: nat)
    requires Inv(s)
    ensures Inv(Act(s, Finish(id)))
  {
    if id in s.builds && Complete(s.builds[id].sections) {
      var b, t := s.builds[id], Act(s, Finish(id));
      var done := Built(Overview(b.slug, b.sections), b.started, s.now);
      PublishOverviews(s, t, b.slug, done);
      PublishBuilt(s, t, done);
      BuildsStay(s, t);
    }
  }

  lemma DropInv(s: State, builds: map<nat, Build>)
    requires Inv(s)
    requires forall i :: i in builds ==> || (i in s.builds && builds[i] == s.builds[i])
                                         || builds[i] == Build(builds[i].slug, s.now, map[])
    ensures Inv(s.(builds := builds))
  {
    var t := s.(builds := builds);
    KeepsAllFresh(s, t);
    forall i | i in builds
      ensures FreshSections(t, builds[i].slug, builds[i].sections, builds[i].started) && builds[i].started <= t.now
    {
      if i in s.builds && builds[i] == s.builds[i] {
        KeepsFresh(s, t, builds[i].slug, builds[i].sections, builds[i].started);
      }
    }
  }

  lemma StepInv(s: State, e: Event)
    requires Inv(s)
    ensures Inv(Step(s, e))
  {
    if s.now <= e.at {
      TickInv(s, e.at);
      var t := s.(now := e.at);
      match e.action
      case Begin(id, slug) => DropInv(t, t.builds[id := Build(slug, t.now, map[])]);
      case Find(id, kind) =>
        if id in t.builds {
          var key := (t.builds[id].slug, kind);
          if Lookup(t.sections, key, Ttl(kind), t.now).Some? {
            TakeInv(t, id, kind, t.sections[key].value, t.sections[key].at);
          }
        }
      case Store(owner, slug, kind, section) =>
        PutInv(t, slug, kind, section);
        if owner.Some? && owner.value in t.builds && t.builds[owner.value].slug == slug {
          TakeInv(Put(t, slug, kind, section), owner.value, kind, section, t.now);
        }
      case Finish(id) => FinishInv(t, id);
      case Abandon(id) => DropInv(t, t.builds - {id});
    }
  }

  lemma {:induction false} AlwaysInv(events: seq<Event>)
    ensures Inv(Run(events))
  {
    if events != [] {
      AlwaysInv(events[..|events| - 1]);
      StepInv(Run(events[..|events| - 1]), events[|events| - 1]);
    }
  }

  /** The section of the overview was stored as `st`, and at `now` is no older than `limit` and the
      duration of the build `b` that assembled the overview allow. */
  predicate FreshEnough(b: Built, st: Stored, overview: Overview, kind: Kind, now: real, limit: real) {
    && b.overview == overview && kind in overview.sections
    && st.slug == overview.slug && st.kind == kind && st.section == overview.sections[kind]
    && st.at <= now <= st.at + limit + (b.finished - b.started)
  }

  /** Some finished build assembled the overview, and some stored section went into it, that bound the
      section's age. */
  ghost predicate NoOlder(s: State, overview: Overview, kind: Kind, now: real, limit: real) {
    exists b, st :: b in s.built && st in s.stored && FreshEnough(b, st, overview, kind, now, limit)
  }

  lemma BuildOf(s: State, slug: string) returns (b: Built)
    requires CachedOverviewsLogged(s) && slug in s.overviews
    ensures b in s.built && b.overview == s.overviews[slug].value && b.finished == s.overviews[slug].at
  {
    assert Logged(s, slug, s.overviews[slug]);
    b :| b in s.built && b.overview == s.overviews[slug].value && b.finished == s.overviews[slug].at;
  }

  lemma StoreOf(s: State, b: Built, kind: Kind) returns (st: Stored)
    requires BuiltFresh(s) && b in s.built && kind in b.overview.sections
    ensures st in s.stored && st.slug == b.overview.slug && st.kind == kind && st.section == b.overview.sections[kind]
    ensures b.started - Ttl(kind) <= st.at <= s.now
  {
    assert StoredSince(s, b.overview.slug, kind, b.overview.sections[kind], b.started - Ttl(kind));
    st :| st in s.stored && st.slug == b.overview.slug && st.kind == kind && st.section == b.overview.sections[kind]
          && b.started - Ttl(kind) <= st.at <= s.now;
  }

  /** Staleness composes. After any run, an overview served from the cache for a slug was assembled
      for that slug by a finished build, and each of its sections was stored for that slug no longer
      ago than the overview's 3 s, plus the duration of that build, plus the section's own ttl:
      303 s for prices and 903 s for solar, plus the build. */
  lemma ServedSectionsAreFresh(events: seq<Event>, slug: string, now: real, kind: Kind)
    requires Run(events).now <= now
    requires Lookup(Run(events).overviews, slug, OVERVIEW_TTL, now).Some?
    ensures var overview := Lookup(Run(events).overviews, slug, OVERVIEW_TTL, now).value;
            && overview.slug == slug
            && NoOlder(Run(events), overview, kind, now,
                       if kind == Today then 63.0 else if kind == Price then 303.0 else 903.0)
  {
    var s := Run(events);
    AlwaysInv(events);
    assert Logged(s, slug, s.overviews[slug]);
    CompleteHasAll(s.overviews[slug].value.sections, kind);
    var b := BuildOf(s, slug);
    SectionsOfBuild(s, b, kind, now, OVERVIEW_TTL);
  }

  lemma SectionsOfBuild(s: State, b: Built, kind: Kind, now: real, cached: real)
    requires BuiltFresh(s) && b in s.built && kind in b.overview.sections && s.now <= now <= b.finished + cached
    ensures NoOlder(s, b.overview, kind, now, Ttl(kind) + cached)
  {
    var st := StoreOf(s, b, kind);
    assert FreshEnough(b, st, b.overview, kind, now, Ttl(kind) + cached);
  }

  /** An overview that is served because its build has just finished is fresher by the overview's 3 s. */
  lemma BuiltSectionsAreFresh(events: seq<Event>, id: nat, at: real, kind: Kind)
    requires Run(events).now <= at && id in Run(events).builds && Complete(Run(events).builds[id].sections)
    ensures var overview := Overview(Run(events).builds[id].slug, Run(events).builds[id].sections);
            NoOlder(Run(events + [Event(at, Finish(id))]), overview, kind, at,
                    if kind == Today then 60.0 else if kind == Price then 300.0 else 900.0)
  {
    var s, t := Run(events), Run(events + [Event(at, Finish(id))]);
    RunSnoc(events, Event(at, Finish(id)));
    AlwaysInv(events + [Event(at, Finish(id))]);
    CompleteHasAll(s.builds[id].sections, kind);
    var b := Built(Overview(s.builds[id].slug, s.builds[id].sections), s.builds[id].started, at);
    SectionsOfBuild(t, b, kind, at, 0.0);
  }

  lemma RunSnoc(events: seq<Event>, e: Event)
    ensures Run(events + [e]) == Step(Run(events), e)
  {
    assert (events + [e])[..|events|] == events;
  }

  /** No event stores a section of this kind for the slug. */
  ghost predicate NeverStores(events: seq<Event>, slug: string, kind: Kind) {
    forall i :: 0 <= i < |events| ==>
      !(events[i].action.Store? && events[i].action.slug == slug && events[i].action.kind == kind)
  }

  lemma StepKeepsSection(s: State, e: Event, slug: string, kind: Kind)
    requires NeverStores([e], slug, kind)
    ensures (slug, kind) in Step(s, e).sections <==> (slug, kind) in s.sections
    ensures (slug, kind) in s.sections ==> Step(s, e).sections[(slug, kind)] == s.sections[(slug, kind)]
  {
    assert [e][0] == e;
  }

  lemma {:induction false} SectionStays(events: seq<Event>, later: seq<Event>, slug: string, kind: Kind)
    requires NeverStores(later, slug, kind)
    ensures var s, t := Run(events), Run(events + later);
            && ((slug, kind) in t.sections <==> (slug, kind) in s.sections)
            && ((slug, kind) in s.sections ==> t.sections[(slug, kind)] == s.sections[(slug, kind)])
  {
    if later == [] {
      assert events + later == events;
    } else {
      var n := |later| - 1;
      SectionStays(events, later[..n], slug, kind);
      RunSnoc(events + later[..n], later[n]);
      assert events + later == (events + later[..n]) + [later[n]];
      StepKeepsSection(Run(events + later[..n]), later[n], slug, kind);
    }
  }

  /** A stored section is served for exactly its ttl: whatever happens after it is stored, as long as no
      other section of its kind is stored for the slug, a lookup finds it until a minute later for today's
      figures, five minutes for prices and fifteen for solar, and nothing after that. */
  lemma StoredSectionIsServed(events: seq<Event>, at: real, owner: Option<nat>, slug: string, kind: Kind,
                              section: Section, later: seq<Event>, now: real)
    requires Run(events).now <= at && NeverStores(later, slug, kind)
    requires owner.Some? ==> owner.value in Run(events).builds && Run(events).builds[owner.value].slug == slug
    ensures var s := Run(events + [Event(at, Store(owner, slug, kind, section))] + later);
            var ttl := if kind == Today then 60.0 else if kind == Price then 300.0 else 900.0;
            Lookup(s.sections, (slug, kind), Ttl(kind), now) == if now <= at + ttl then Some(section) else None
  {
    RunSnoc(events, Event(at, Store(owner, slug, kind, section)));
    SectionStays(events + [Event(at, Store(owner, slug, kind, section))], later, slug, kind);
  }

  /** No build of the slug finishes among the events. */
  ghost predicate NeverFinishes(events: seq<Event>, later: seq<Event>, slug: string) {
    forall i :: 0 <= i < |later| && later[i].action.Finish? ==>
      var s := Run(events + later[..i]);
      later[i].action.id in s.builds ==> s.builds[later[i].action.id].slug != slug
  }

  lemma StepKeepsOverview(s: State, e: Event, slug: string)
    requires e.action.Finish? && e.action.id in s.builds ==> s.builds[e.action.id].slug != slug
    ensures slug in Step(s, e).overviews <==> slug in s.overviews
    ensures slug in s.overviews ==> Step(s, e).overviews[slug] == s.overviews[slug]
  {
  }

  lemma {:induction false} OverviewStays(events: seq<Event>, later: seq<Event>, slug: string)
    requires NeverFinishes(events, later, slug)
    ensures var s, t := Run(events), Run(events + later);
            && (slug in t.overviews <==> slug in s.overviews)
            && (slug in s.overviews ==> t.overviews[slug] == s.overviews[slug])
  {
    if later == [] {
      assert events + later == events;
    } else {
      var n := |later| - 1;
      assert forall i :: 0 <= i < n ==> later[..n][..i] == later[..i];
      OverviewStays(events, later[..n], slug);
      RunSnoc(events + later[..n], later[n]);
      assert events + later == (events + later[..n]) + [later[n]];
      StepKeepsOverview(Run(events + later[..n]), later[n], slug);
    }
  }

  /** A finished overview is served for exactly three seconds, as long as no other build of its slug
      finishes. */
  lemma FinishedOverviewIsServed(events: seq<Event>, at: real, id: nat, later: seq<Event>, now: real)
    requires Run(events).now <= at && id in Run(events).builds && Complete(Run(events).builds[id].sections)
    requires NeverFinishes(events + [Event(at, Finish(id))], later, Run(events).builds[id].slug)
    ensures var b, s := Run(events).builds[id], Run(events + [Event(at, Finish(id))] + later);
            Lookup(s.overviews, b.slug, OVERVIEW_TTL, now)
            == if now <= at + 3.0 then Some(Overview(b.slug, b.sections)) else None
  {
    RunSnoc(events, Event(at, Finish(id)));
    OverviewStays(events + [Event(at, Finish(id))], later, Run(events).builds[id].slug);
  }

  lemma CompleteHasAll(sections: map<Kind, Section>, kind: Kind)
    requires Complete(sections)
    ensures kind in sections
  {
    match kind
    case Today =>
    case Price =>
    case Solar =>
  }
}
