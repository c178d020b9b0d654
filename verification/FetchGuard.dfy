/** The in-flight guard of `fetch_release`: at most one artifact fetch per `module@version`,
    whatever the interleaving of the handlers at their awaits. */
module FetchGuard {
  import opened Collections
  import opened Text

  datatype Status = Disabled503 | Conflict409 | Rejected422 | Fetched200 | Raised

  /** Which await a handler is suspended at, or how its request ended. */
  datatype Phase = AuditingStart | Staging | AuditingReject | AuditingDone | Ended(status: Status)

  /** How an await comes back; `Failed` is any other exception, cancellation included. */
  datatype AwaitResult = Returned | DistributionError | Failed

  datatype Handler = Handler(key: string, phase: Phase) {
    predicate Holds() {
      !phase.Ended?
    }
  }

  datatype State = State(inProgress: set<string>, handlers: map<nat, Handler>)

  datatype Event =
    | Arrive(id: nat, moduleId: string, version: string, enabled: bool)
    | Resume(id: nat, result: AwaitResult)

  /** `f"{module_id}@{version}"` */
  function KeyOf(moduleId: string, version: string): string {
    moduleId + "@" + version
  }

  function NextPhase(phase: Phase, result: AwaitResult): Phase {
    match (phase, result)
    case (AuditingStart, Returned) => Staging
    case (Staging, Returned) => AuditingDone
    case (Staging, DistributionError) => AuditingReject
    case (AuditingReject, Returned) => Ended(Rejected422)
    case (AuditingDone, Returned) => Ended(Fetched200)
    case (Ended(_), _) => phase
    case _ => Ended(Raised)
  }

  /** What one handler does between two awaits. Only arriving requests with a fresh id and
      suspended handlers can be scheduled; anything else changes nothing. */
  function Step(s: State, e: Event): State {
    match e
    case Arrive(id, moduleId, version, enabled) =>
      var key := KeyOf(moduleId, version);
      if id in s.handlers then s
      else if !enabled then s.(handlers := s.handlers[id := Handler(key, Ended(Disabled503))])
      else if key in s.inProgress then s.(handlers := s.handlers[id := Handler(key, Ended(Conflict409))])
      else State(s.inProgress + {key}, s.handlers[id := Handler(key, AuditingStart)])
    case Resume(id, result) =>
      if id !in s.handlers || !s.handlers[id].Holds() then s
      else
        var h := s.handlers[id];
        var next := h.(phase := NextPhase(h.phase, result));
        State(if next.Holds() then s.inProgress else s.inProgress - {h.key}, s.handlers[id := next])
  }

  /** The module-level set, and the handlers that run against it. */
  class FetchService {
    var fetchInProgress: set<string>
    var handlers: map<nat, Handler>

    ghost function Abstract(): State
      reads this
    {
      State(fetchInProgress, handlers)
    }

    constructor ()
      ensures Abstract() == State({}, map[])
    {
      fetchInProgress := {};
      handlers := map[];
    }

    /** The request up to its first await. */
    method BeginFetch(id: nat, moduleId: string, version: string, enabled: bool) returns (refused: Option<Status>)
      requires id !in handlers
      modifies this
      ensures Abstract() == Step(old(Abstract()), Arrive(id, moduleId, version, enabled))
      ensures refused == if !enabled then Some(Disabled503)
                         else if moduleId + "@" + version in old(fetchInProgress) then Some(Conflict409) else None
      ensures fetchInProgress == old(fetchInProgress) + if refused.None? then {moduleId + "@" + version} else {}
      ensures id in handlers && handlers[id].Holds() == refused.None? && handlers - {id} == old(handlers)
    {
      var key := KeyOf(moduleId, version);
      if !enabled {
        handlers := handlers[id := Handler(key, Ended(Disabled503))];
        return Some(Disabled503);
      }
      if key in fetchInProgress {
        handlers := handlers[id := Handler(key, Ended(Conflict409))];
        return Some(Conflict409);
      }
      fetchInProgress := fetchInProgress + {key};
      handlers := handlers[id := Handler(key, AuditingStart)];
      return None;
    }

    /** The handler from one await to the next, or through `finally` to its end. */
    method ResumeFetch(id: nat, result: AwaitResult)
      requires id in handlers && handlers[id].Holds()
      modifies this
      ensures Abstract() == Step(old(Abstract()), Resume(id, result))
    {
      var h := handlers[id];
      var phase := NextPhase(h.phase, result);
      handlers := handlers[id := h.(phase := phase)];
      if phase.Ended? {
        fetchInProgress := fetchInProgress - {h.key};
      }
    }
  }

  function Run(events: seq<Event>): State {
    if events == [] then State({}, map[])
    else Step(Run(events[..|events| - 1]), events[|events| - 1])
  }

  /** The set is exactly the keys of the handlers past the check, and no key has two holders. */
  ghost predicate Guarded(s: State) {
    && (forall id :: id in s.handlers && s.handlers[id].Holds() ==> s.handlers[id].key in s.inProgress)
    && (forall key :: key in s.inProgress ==> exists id :: HoldsKey(s, id, key))
    && (forall i, j :: (&& i in s.handlers && s.handlers[i].Holds()
                        && j in s.handlers && s.handlers[j].Holds()
                        && s.handlers[i].key == s.handlers[j].key) ==> i == j)
  }

  ghost predicate HoldsKey(s: State, id: nat, key: string) {
    id in s.handlers && s.handlers[id].Holds() && s.handlers[id].key == key
  }

  lemma AddEnded(s: State, id: nat, h: Handler)
    requires Guarded(s) && id !in s.handlers && !h.Holds()
    ensures Guarded(s.(handlers := s.handlers[id := h]))
  {
    var t := s.(handlers := s.handlers[id := h]);
    forall key | key in t.inProgress
      ensures exists i :: HoldsKey(t, i, key)
    {
      var i :| HoldsKey(s, i, key);
      assert HoldsKey(t, i, key);
    }
  }

  lemma AddHolder(s: State, id: nat, h: Handler)
    requires Guarded(s) && id !in s.handlers && h.Holds() && h.key !in s.inProgress
    ensures Guarded(State(s.inProgress + {h.key}, s.handlers[id := h]))
  {
    var t := State(s.inProgress + {h.key}, s.handlers[id := h]);
    forall key | key in t.inProgress
      ensures exists i :: HoldsKey(t, i, key)
    {
      if key == h.key {
        assert HoldsKey(t, id, key);
      } else {
        var i :| HoldsKey(s, i, key);
        assert HoldsKey(t, i, key);
      }
    }
  }

  lemma MoveHolder(s: State, id: nat, next: Handler)
    requires Guarded(s) && id in s.handlers && s.handlers[id].Holds() && next.key == s.handlers[id].key
    ensures Guarded(State(if next.Holds() then s.inProgress else s.inProgress - {next.key}, s.handlers[id := next]))
  {
    var t := State(if next.Holds() then s.inProgress else s.inProgress - {next.key}, s.handlers[id := next]);
    forall key | key in t.inProgress
      ensures exists i :: HoldsKey(t, i, key)
    {
      var i :| HoldsKey(s, i, key);
      assert HoldsKey(t, i, key);
    }
  }

  lemma StepGuarded(s: State, e: Event)
    requires Guarded(s)
    ensures Guarded(Step(s, e))
  {
    match e
    case Arrive(id, moduleId, version, enabled) =>
      var key := KeyOf(moduleId, version);
      if id !in s.handlers {
        if !enabled {
          AddEnded(s, id, Handler(key, Ended(Disabled503)));
        } else if key in s.inProgress {
          AddEnded(s, id, Handler(key, Ended(Conflict409)));
        } else {
          AddHolder(s, id, Handler(key, AuditingStart));
        }
      }
    case Resume(id, result) =>
      if id in s.handlers && s.handlers[id].Holds() {
        MoveHolder(s, id, s.handlers[id].(phase := NextPhase(s.handlers[id].phase, result)));
      }
  }

  /** Mutual exclusion over every interleaving of any number of handlers. */
  lemma {:induction false} AlwaysGuarded(events: seq<Event>)
    ensures Guarded(Run(events))
  {
    if events != [] {
      AlwaysGuarded(events[..|events| - 1]);
      StepGuarded(Run(events[..|events| - 1]), events[|events| - 1]);
    }
  }

  /** After any run, a fresh enabled request is refused with 409 exactly when some handler holds
      its key, and then neither the set nor any other handler changes. */
  lemma ConflictIffHeld(events: seq<Event>, id: nat, moduleId: string, version: string)
    requires id !in Run(events).handlers
    ensures var s, t := Run(events), Step(Run(events), Arrive(id, moduleId, version, true));
            && (t.handlers[id].phase == Ended(Conflict409) <==> exists h :: HoldsKey(s, h, KeyOf(moduleId, version)))
            && (t.handlers[id].phase == Ended(Conflict409) ==> t.inProgress == s.inProgress)
            && t.handlers - {id} == s.handlers
  {
    AlwaysGuarded(events);
  }

  /** A refused request can never free the holder's key: whatever is scheduled for it later
      leaves the whole state alone. */
  lemma {:induction false} RefusedStaysOut(events: seq<Event>, later: seq<Event>, id: nat)
    requires id in Run(events).handlers && Run(events).handlers[id].phase.Ended?
    ensures id in Run(events + later).handlers && Run(events + later).handlers[id] == Run(events).handlers[id]
    ensures forall result :: Step(Run(events + later), Resume(id, result)) == Run(events + later)
  {
    if later == [] {
      assert events + later == events;
    } else {
      RefusedStaysOut(events, later[..|later| - 1], id);
      assert (events + later)[..|events + later| - 1] == events + later[..|later| - 1];
    }
  }

  /** When a holder ends, for whatever reason, its key is free and every other key is as before. */
  lemma EndFreesExactlyItsKey(events: seq<Event>, id: nat, result: AwaitResult)
    requires id in Run(events).handlers && Run(events).handlers[id].Holds()
    ensures var s, t := Run(events), Step(Run(events), Resume(id, result));
            t.inProgress == if t.handlers[id].Holds() then s.inProgress else s.inProgress - {s.handlers[id].key}
    ensures var t := Step(Run(events), Resume(id, result));
            !t.handlers[id].Holds() ==> forall h :: !HoldsKey(t, h, t.handlers[id].key)
  {
    AlwaysGuarded(events);
    StepGuarded(Run(events), Resume(id, result));
  }

  /** No key leaks: once every handler has ended, the set is empty. */
  lemma NothingLeaks(events: seq<Event>)
    requires forall id :: id in Run(events).handlers ==> !Run(events).handlers[id].Holds()
    ensures Run(events).inProgress == {}
  {
    AlwaysGuarded(events);
  }

  function AwaitsLeft(phase: Phase): nat {
    match phase
    case AuditingStart => 3
    case Staging => 2
    case AuditingReject => 1
    case AuditingDone => 1
    case Ended(_) => 0
  }

  function ResumeAll(s: State, id: nat, results: seq<AwaitResult>): State
    decreases |results|
  {
    if results == [] then s else ResumeAll(Step(s, Resume(id, results[0])), id, results[1..])
  }

  /** Three await results, whatever they are, end any holder. */
  lemma {:induction false} HolderEnds(s: State, id: nat, results: seq<AwaitResult>)
    requires id in s.handlers && AwaitsLeft(s.handlers[id].phase) <= |results|
    ensures id in ResumeAll(s, id, results).handlers && !ResumeAll(s, id, results).handlers[id].Holds()
    decreases |results|
  {
    if results != [] {
      HolderEnds(Step(s, Resume(id, results[0])), id, results[1..]);
    }
  }

  /** How the request of a handler past the check ends: with 200 when all its awaits return, with 422 when
      staging the artifact raises a distribution error and auditing that returns, and with the exception
      in every other case. */
  lemma FetchOutcome(s: State, id: nat, results: seq<AwaitResult>)
    requires id in s.handlers && s.handlers[id].phase == AuditingStart && |results| == 3
    ensures id in ResumeAll(s, id, results).handlers
    ensures ResumeAll(s, id, results).handlers[id].phase
         == Ended(if results == [Returned, Returned, Returned] then Fetched200
                  else if results == [Returned, DistributionError, Returned] then Rejected422
                  else Raised)
  {
    var s1 := Step(s, Resume(id, results[0]));
    var s2 := Step(s1, Resume(id, results[1]));
    assert ResumeAll(s, id, results) == ResumeAll(s1, id, results[1..]);
    assert ResumeAll(s1, id, results[1..]) == ResumeAll(s2, id, results[1..][1..]);
    assert results[1..][1..] == [results[2]];
    ResumeOnce(s2, id, results[2]);
  }

  lemma ResumeOnce(s: State, id: nat, result: AwaitResult)
    ensures ResumeAll(s, id, [result]) == Step(s, Resume(id, result))
  {
    assert [result][1..] == [];
  }

  /** One module id extends the other past an `@`, and the versions make up for it. */
  ghost predicate Shifted(m: string, v: string, m': string, v': string) {
    exists x :: m' == m + "@" + x && v == x + "@" + v'
  }

  lemma SameKeyShorter(m: string, v: string, m': string, v': string)
    requires KeyOf(m, v) == KeyOf(m', v') && |m| < |m'|
    ensures Shifted(m, v, m', v')
  {
    var key, x := KeyOf(m, v), m'[|m| + 1..];
    assert m == key[..|m|] == m'[..|m|];
    assert m'[|m|] == key[|m|] == '@';
    assert m' == m + "@" + x;
    assert v == key[|m| + 1..];
    assert key == m + "@" + (x + "@" + v');
  }

  lemma ShiftedSameKey(m: string, v: string, m': string, v': string)
    requires Shifted(m, v, m', v')
    ensures KeyOf(m, v) == KeyOf(m', v')
  {
    var x :| m' == m + "@" + x && v == x + "@" + v';
    assert m + "@" + (x + "@" + v') == m + "@" + x + "@" + v';
  }

  /** Two requests share a key exactly when they are for the same release, or one module id continues
      the other with an `@` and the version of that other continues accordingly. */
  lemma SameKeyIff(m: string, v: string, m': string, v': string)
    ensures KeyOf(m, v) == KeyOf(m', v') <==> (m == m' && v == v') || Shifted(m, v, m', v') || Shifted(m', v', m, v)
  {
    if KeyOf(m, v) == KeyOf(m', v') {
      if |m| < |m'| {
        SameKeyShorter(m, v, m', v');
      } else if |m'| < |m| {
        SameKeyShorter(m', v', m, v);
      } else {
        assert m == KeyOf(m, v)[..|m|] == m';
        assert v == KeyOf(m, v)[|m| + 1..] == v';
      }
    } else if Shifted(m, v, m', v') {
      ShiftedSameKey(m, v, m', v');
    } else if Shifted(m', v', m, v) {
      ShiftedSameKey(m', v', m, v);
    }
  }

  /** So the key tells requests apart when the module ids contain no `@` ... */
  lemma KeyTellsApart(m: string, v: string, m': string, v': string)
    requires Lacks(m, '@') && Lacks(m', '@')
    ensures KeyOf(m, v) == KeyOf(m', v') <==> m == m' && v == v'
  {
    SameKeyIff(m, v, m', v');
    ShiftNeedsAt(m, v, m', v');
    ShiftNeedsAt(m', v', m, v);
  }

  lemma ShiftNeedsAt(m: string, v: string, m': string, v': string)
    ensures Shifted(m, v, m', v') ==> !Lacks(m', '@')
  {
    if Shifted(m, v, m', v') {
      assert m'[|m|] == '@';
    }
  }

  /** ... and not otherwise: two different releases can share a key. */
  lemma KeysCanCollide()
    ensures KeyOf("a@b", "c") == KeyOf("a", "b@c")
  {
    assert "a@b" + "@" + "c" == "a" + "@" + "b@c";
  }
}
