/** The isolated module worker's bootstrap: handshake, hardening, privilege drop, verification,
    announcement, module load and the health loop, with every way an exception can end it.
    The calls are JSON-RPC 2.0 requests (section 4 of the JSON-RPC 2.0 specification). */
module WorkerBootstrap {
  import opened Collections

  // ----- the process and what it meets -----

  /** An environment variable that should hold a number. */
  datatype EnvInt = Unset | Empty | Number(n: int) | Malformed {
    /** Python's truth value of the string. */
    predicate Truthy() {
      Number? || Malformed?
    }
  }

  datatype Forced = NotForced | ForceSetgid | ForceSetuid

  /** The environment variables, whether the system has user and group ids, and the effective user id
      the process starts with. */
  datatype Env = Env(uid: EnvInt, gid: EnvInt, forced: Forced, posix: bool, skipHeartbeat: bool, euid: int) {
    /** The process must change its ids: it is root's, and both ids are configured. */
    predicate MustDrop() {
      euid == 0 && posix && uid.Truthy() && gid.Truthy()
    }
  }

  /** How a step comes back: it returns, raises `PrivilegeDropError` for a stage, raises another
      `OSError` with errno EPERM or EACCES and some message, or raises anything else. */
  datatype Step = Ok | PrivilegeDrop(stage: string) | Denied(message: string) | Other

  /** What a system call can do: it does not raise `PrivilegeDropError`, which only this script does. */
  type SystemCall = step: Step | !step.PrivilegeDrop? witness Ok

  /** The handshake raises, returns a result without a session token, or returns a token; a falsy
      token of any type stands for the empty one. */
  datatype HandshakeReply = HandshakeRaises(step: Step) | NoToken | Token(value: string)

  datatype Round = Round(health: Step, tick: Step)

  /** The outcomes of everything outside the process, in the order they can be needed; `config` is
      reading the environment and the manifest, before the `try` block. */
  datatype World = World(
    config: Step, handshake: HandshakeReply, hardening: Step, setgid: SystemCall, setuid: SystemCall,
    ready: Step, load: Step, start: Step, moduleReady: Step, rounds: seq<Round>)

  datatype Method = Handshake | BootstrapReady | ReportModuleReady | GetHealth

  datatype Event =
    | Call(rpc: Method, token: Option<string>, ids: Option<(int, int)>)
    | Report(token: Option<string>, stage: string)   // ReportPrivilegeDropFailed
    | Harden
    | ClearGroups
    | SetGid(n: int)
    | SetUid(n: int)
    | Verify(uid: int, gid: int)
    | LoadModule
    | StartModule
    | Tick

  datatype Exit = ExitOne | Uncaught | Serving

  /** The `_session_token` a call carries: none when the session token is falsy. */
  function Carried(token: string): Option<string> {
    if token == "" then None else Some(token)
  }

  // ----- identity -----

  /** What `_drop_module_identity` does in a process with the given ids: its events, the ids it
      leaves and how it ends. */
  datatype Dropped = Dropped(events: seq<Event>, uid: int, gid: int, step: Step)

  function Drop(env: Env, w: World, uid: int, gid: int): Dropped {
    if !env.uid.Truthy() || !env.gid.Truthy() then Dropped([], uid, gid, Ok)
    else if !env.posix then Dropped([], uid, gid, Other)
    else if env.euid != 0 then Dropped([], uid, gid, Ok)
    else if env.forced == ForceSetgid then Dropped([], uid, gid, PrivilegeDrop("setgid"))
    else if env.gid.Malformed? then Dropped([ClearGroups], uid, gid, Other)
    else if w.setgid != Ok then Dropped([ClearGroups], uid, gid, w.setgid)
    else if env.forced == ForceSetuid
    then Dropped([ClearGroups, SetGid(env.gid.n)], uid, env.gid.n, PrivilegeDrop("setuid"))
    else if env.uid.Malformed? then Dropped([ClearGroups, SetGid(env.gid.n)], uid, env.gid.n, Other)
    else if w.setuid != Ok then Dropped([ClearGroups, SetGid(env.gid.n)], uid, env.gid.n, w.setuid)
    else Dropped([ClearGroups, SetGid(env.gid.n), SetUid(env.uid.n)], env.uid.n, env.gid.n, Ok)
  }

  /** What the drop does, by the circumstances. A process that need not drop does nothing, except that
      asking for its user id raises where ids do not exist. One that must drop clears its groups unless
      a failure of setgid is forced, sets the group if nothing keeps it from that, then the user, and
      fails with what did keep it. */
  lemma DropOutcome(env: Env, w: World, uid: int, gid: int)
    ensures var d, both := Drop(env, w, uid, gid), env.uid.Truthy() && env.gid.Truthy();
            var setsGroup := env.forced != ForceSetgid && env.gid.Number? && w.setgid == Ok;
            && (!both || !env.posix || env.euid != 0 ==>
                  d.events == [] && d.uid == uid && d.gid == gid && d.step == if both && !env.posix then Other else Ok)
            && (both && env.posix && env.euid == 0 ==>
                  && (d.step == Ok <==> setsGroup && env.forced == NotForced && env.uid.Number? && w.setuid == Ok)
                  && (d.step == PrivilegeDrop("setgid") <==> env.forced == ForceSetgid)
                  && (d.step == PrivilegeDrop("setuid") <==> setsGroup && env.forced == ForceSetuid)
                  && (d.step == Other <==>
                        || (env.forced != ForceSetgid && (env.gid.Malformed? || w.setgid == Other))
                        || (setsGroup && env.forced == NotForced && (env.uid.Malformed? || w.setuid == Other)))
                  && (d.step.Denied? ==> d.step == if setsGroup then w.setuid else w.setgid)
                  && d.events == (if env.forced == ForceSetgid then [] else [ClearGroups])
                                 + (if setsGroup then [SetGid(env.gid.n)] else [])
                                 + (if d.step == Ok then [SetUid(env.uid.n)] else [])
                  && d.gid == (if setsGroup then env.gid.n else gid)
                  && d.uid == (if d.step == Ok then env.uid.n else uid))
  {
  }

  /** The ids module code runs with: the configured ones in a process that must drop, else its own. */
  ghost predicate IdsAfterDrop(env: Env, uid: int, gid: int, uid': int, gid': int) {
    if env.euid == 0 && env.posix && env.uid.Truthy() && env.gid.Truthy()
    then env.uid == Number(uid') && env.gid == Number(gid')
    else uid' == uid && gid' == gid
  }

  /** `_verify_effective_identity`, then the comparison in `main`: the identity the announcement
      will state, or how verification fails. */
  function VerifyIdentity(env: Env, uid: int, gid: int): (Step, int, int) {
    if !env.uid.Truthy() || !env.posix then (Ok, -1, -1)
    else if env.uid.Malformed? || env.gid == Empty || env.gid.Malformed? then (Other, uid, gid)
    else if uid != env.uid.n then (PrivilegeDrop("verify"), uid, gid)
    else if env.gid.Number? && gid != env.gid.n then (PrivilegeDrop("verify"), uid, gid)
    else
      var expectedGid := if env.gid.Number? then env.gid.n else 0;
      if env.uid.n != 0 && uid >= 0 && gid != expectedGid then (PrivilegeDrop("verify"), uid, gid)
      else (Ok, uid, gid)
  }

  /** An identity that may be announced: none when no uid is configured (or ids do not exist), else
      the configured uid, with the configured gid if there is one and gid 0 if there is none, unless
      the uid is 0. */
  predicate Announceable(env: Env, uid: int, gid: int) {
    if !env.uid.Truthy() || !env.posix then uid == -1 && gid == -1
    else && env.uid == Number(uid) && (env.gid.Number? || env.gid == Unset)
         && (env.gid.Number? ==> gid == env.gid.n)
         && (env.gid == Unset && 0 < uid ==> gid == 0)
  }

  /** Verification lets only announceable identities through, and with well-formed variables it
      lets all of them through (kernel ids are never negative). A variable that is not a number is the
      only other kind of failure. */
  lemma VerifyIffAnnounceable(env: Env, uid: int, gid: int)
    ensures VerifyIdentity(env, uid, gid).0 == Ok ==>
              Announceable(env, VerifyIdentity(env, uid, gid).1, VerifyIdentity(env, uid, gid).2)
    ensures uid >= 0 && env.uid.Truthy() && env.posix && (env.gid == Unset || env.gid.Number?) ==>
              (VerifyIdentity(env, uid, gid) == (Ok, uid, gid) <==> Announceable(env, uid, gid))
    ensures VerifyIdentity(env, uid, gid).0 == Other
       <==> env.uid.Truthy() && env.posix && (env.uid.Malformed? || env.gid == Empty || env.gid.Malformed?)
    ensures VerifyIdentity(env, uid, gid).0 in {Ok, Other, PrivilegeDrop("verify")}
  {
  }

  /** A configured gid is enforced exactly when a uid is configured with it: with the uid left out,
      verification accepts any gid at all. */
  lemma GidEnforcedIff(env: Env, uid: int)
    requires env.gid.Number? && env.posix && !env.uid.Malformed? && 0 <= uid && (env.uid.Number? ==> uid == env.uid.n)
    ensures (forall gid :: gid >= 0 && VerifyIdentity(env, uid, gid).0 == Ok ==> gid == env.gid.n) <==> env.uid.Number?
  {
    var g := if env.gid.n == 0 then 1 else 0;
    if !env.uid.Number? {
      assert VerifyIdentity(env, uid, g).0 == Ok;
    }
  }

  // ----- the protocol -----

  /** How far the privilege drop has come. */
  datatype Identity = Untouched | GroupsCleared | GroupSet | UserSet

  datatype Phase =
    | Started
    | Shaken
    | Hardened(changed: Identity)
    | Verified(uid: int, gid: int)
    | Announced
    | Loaded(started: bool)
    | Presented                // ReportModuleReady has been sent
    | Polled                   // a health call of the loop has been sent
    | Live                     // a round of the loop is over
    | Closed
    | Violation

  /** The protocol as an automaton over events, for a session token `t`. */
  function Next(env: Env, t: string, p: Phase, e: Event): Phase {
    match e
    case Call(rpc, token, ids) =>
      if rpc == Handshake then if p == Started && token == None then Shaken else Violation
      else if token != Carried(t) then Violation
      else if rpc == BootstrapReady then
        if p.Verified? && ids == (if p.uid >= 0 && p.gid >= 0 then Some((p.uid, p.gid)) else None) then Announced
        else Violation
      else if rpc == ReportModuleReady then if p == Loaded(true) then Presented else Violation
      else if (p == Presented || p == Live) && !env.skipHeartbeat then Polled
      else Violation
    case Report(token, _) =>
      if && t != "" && token == Some(t)
         && (p.Shaken? || p.Hardened? || p.Verified? || p.Announced? || p.Loaded? || p.Presented?)
      then Closed else Violation
    case Harden => if p == Shaken then Hardened(Untouched) else Violation
    case ClearGroups => if p == Hardened(Untouched) && env.MustDrop() then Hardened(GroupsCleared) else Violation
    case SetGid(n) => if p == Hardened(GroupsCleared) && env.gid == Number(n) then Hardened(GroupSet) else Violation
    case SetUid(n) => if p == Hardened(GroupSet) && env.uid == Number(n) then Hardened(UserSet) else Violation
    case Verify(uid, gid) =>
      if p == Hardened(if env.MustDrop() then UserSet else Untouched) && Announceable(env, uid, gid)
      then Verified(uid, gid) else Violation
    case LoadModule => if p == Announced then Loaded(false) else Violation
    case StartModule => if p == Loaded(false) then Loaded(true) else Violation
    case Tick =>
      if p == Polled || ((p == Presented || p == Live) && env.skipHeartbeat) then Live else Violation
  }

  function PhaseOf(env: Env, t: string, trace: seq<Event>): Phase {
    if trace == [] then Started else Next(env, t, PhaseOf(env, t, trace[..|trace| - 1]), trace[|trace| - 1])
  }

  lemma PhaseSnoc(env: Env, t: string, trace: seq<Event>, e: Event)
    ensures PhaseOf(env, t, trace + [e]) == Next(env, t, PhaseOf(env, t, trace), e)
  {
    assert (trace + [e])[..|trace|] == trace;
  }

  ghost predicate Obeys(env: Env, t: string, trace: seq<Event>) {
    PhaseOf(env, t, trace) != Violation
  }

  /** A violation is never repaired, so every prefix of an obedient trace is obedient. */
  lemma {:induction false} PrefixObeys(env: Env, t: string, trace: seq<Event>, j: nat)
    requires Obeys(env, t, trace) && j <= |trace|
    ensures Obeys(env, t, trace[..j])
    decreases |trace|
  {
    if j < |trace| {
      PrefixObeys(env, t, trace[..|trace| - 1], j);
      assert trace[..|trace| - 1][..j] == trace[..j];
    } else {
      assert trace[..j] == trace;
    }
  }

  lemma StepAt(env: Env, t: string, trace: seq<Event>, j: nat)
    requires Obeys(env, t, trace) && j < |trace|
    ensures PhaseOf(env, t, trace[..j]) != Violation
    ensures Next(env, t, PhaseOf(env, t, trace[..j]), trace[j]) == PhaseOf(env, t, trace[..j + 1]) != Violation
  {
    PrefixObeys(env, t, trace, j);
    PrefixObeys(env, t, trace, j + 1);
    assert trace[..j + 1][..j] == trace[..j];
  }

  /** The module is loaded only directly after BootstrapReady, which comes directly after a
      verification that accepted an announceable identity and states that identity. */
  lemma LoadOnlyAfterAnnouncedIdentity(env: Env, t: string, trace: seq<Event>, j: nat)
    requires Obeys(env, t, trace) && j < |trace| && trace[j].LoadModule?
    ensures j >= 2 && trace[j - 1].Call? && trace[j - 1].rpc == BootstrapReady && trace[j - 2].Verify?
    ensures Announceable(env, trace[j - 2].uid, trace[j - 2].gid)
    ensures trace[j - 1].ids == if trace[j - 2].uid >= 0 && trace[j - 2].gid >= 0
                                then Some((trace[j - 2].uid, trace[j - 2].gid)) else None
  {
    StepAt(env, t, trace, j);
    LastOfAnnounced(env, t, trace[..j]);
    assert trace[..j][..j - 1] == trace[..j - 1] && trace[..j - 1][..j - 2] == trace[..j - 2];
  }

  /** The only ways into the announced and the verified phase. */
  lemma LastOfAnnounced(env: Env, t: string, trace: seq<Event>)
    requires PhaseOf(env, t, trace) == Announced
    ensures var n := |trace|;
            && n >= 2 && trace[n - 1].Call? && trace[n - 1].rpc == BootstrapReady && trace[n - 2].Verify?
            && Announceable(env, trace[n - 2].uid, trace[n - 2].gid)
            && trace[n - 1].ids == (if trace[n - 2].uid >= 0 && trace[n - 2].gid >= 0
                                    then Some((trace[n - 2].uid, trace[n - 2].gid)) else None)
  {
    LastOfVerified(env, t, trace[..|trace| - 1]);
  }

  lemma LastOfVerified(env: Env, t: string, trace: seq<Event>)
    ensures PhaseOf(env, t, trace).Verified? ==>
              && trace != [] && trace[|trace| - 1].Verify?
              && Verified(trace[|trace| - 1].uid, trace[|trace| - 1].gid) == PhaseOf(env, t, trace)
              && Announceable(env, trace[|trace| - 1].uid, trace[|trace| - 1].gid)
  {
  }

  /** The groups are cleared directly before setgid, setgid comes directly before setuid, and both use
      the configured ids. */
  lemma SetgidBeforeSetuid(env: Env, t: string, trace: seq<Event>, j: nat)
    requires Obeys(env, t, trace) && j < |trace|
    ensures trace[j].SetUid? ==> j >= 1 && env.uid == Number(trace[j].n) && trace[j - 1].SetGid?
    ensures trace[j].SetGid? ==> j >= 1 && env.gid == Number(trace[j].n) && trace[j - 1] == ClearGroups
    ensures trace[j].ClearGroups? ==> j >= 1 && trace[j - 1] == Harden
  {
    StepAt(env, t, trace, j);
    if PhaseOf(env, t, trace[..j]).Hardened? {
      LastOfHardened(env, t, trace[..j]);
    }
  }

  /** What the last event says about the phase of an identity that is being changed. */
  lemma LastOfHardened(env: Env, t: string, trace: seq<Event>)
    requires PhaseOf(env, t, trace).Hardened?
    ensures trace != []
    ensures trace[|trace| - 1] == match PhaseOf(env, t, trace).changed
                                  case Untouched => Harden
                                  case GroupsCleared => ClearGroups
                                  case GroupSet => SetGid(env.gid.n)
                                  case UserSet => SetUid(env.uid.n)
  {
  }

  /** Module code of a process that must drop its privileges is loaded only after the groups have been
      cleared, then the group set, then the user; and what follows up to the load is fixed. */
  lemma LoadOnlyAfterDrop(env: Env, t: string, trace: seq<Event>, j: nat)
    requires Obeys(env, t, trace) && j < |trace| && trace[j].LoadModule?
    requires env.euid == 0 && env.posix && env.uid.Truthy() && env.gid.Truthy()
    ensures env.uid.Number? && env.gid.Number?
    ensures j >= 5 && trace[j - 5..j - 2] == [ClearGroups, SetGid(env.gid.n), SetUid(env.uid.n)]
  {
    LoadOnlyAfterAnnouncedIdentity(env, t, trace, j);
    StepAt(env, t, trace, j - 2);
    LastOfHardened(env, t, trace[..j - 2]);
    SetgidBeforeSetuid(env, t, trace, j - 3);
    SetgidBeforeSetuid(env, t, trace, j - 4);
  }

  /** A process that need not drop its privileges never touches its ids or groups. */
  lemma NoDropWithoutNeed(env: Env, t: string, trace: seq<Event>, j: nat)
    requires Obeys(env, t, trace) && j < |trace|
    requires !(env.euid == 0 && env.posix && env.uid.Truthy() && env.gid.Truthy())
    ensures !trace[j].ClearGroups? && !trace[j].SetGid? && !trace[j].SetUid?
  {
    StepAt(env, t, trace, j);
    OnlyRootClears(env, t, trace[..j]);
  }

  lemma {:induction false} OnlyRootClears(env: Env, t: string, trace: seq<Event>)
    requires !env.MustDrop()
    ensures PhaseOf(env, t, trace).Hardened? ==> PhaseOf(env, t, trace).changed == Untouched
  {
    if trace != [] {
      OnlyRootClears(env, t, trace[..|trace| - 1]);
    }
  }

  /** Every call but the handshake carries the handshake's token, if the token is not falsy; with a
      falsy token every call goes out without one. */
  lemma CallsCarryTheToken(env: Env, t: string, trace: seq<Event>, j: nat)
    requires Obeys(env, t, trace) && j < |trace| && (trace[j].Call? || trace[j].Report?)
    ensures trace[j].Call? && trace[j].rpc == Handshake ==> j == 0 && trace[j].token == None
    ensures !(trace[j].Call? && trace[j].rpc == Handshake) ==> (trace[j].token == Some(t) <==> t != "")
  {
    StepAt(env, t, trace, j);
    OnlyFirstIsStarted(env, t, trace[..j]);
  }

  lemma {:induction false} OnlyFirstIsStarted(env: Env, t: string, trace: seq<Event>)
    ensures PhaseOf(env, t, trace) == Started <==> trace == []
  {
  }

  /** Health calls and ticks come only after ReportModuleReady. */
  lemma {:induction false} HealthOnlyAfterModuleReady(env: Env, t: string, trace: seq<Event>, j: nat)
    requires Obeys(env, t, trace) && j < |trace|
    requires trace[j].Tick? || (trace[j].Call? && trace[j].rpc == GetHealth)
    ensures exists i :: 0 <= i < j && trace[i].Call? && trace[i].rpc == ReportModuleReady
  {
    StepAt(env, t, trace, j);
    LiveHasModuleReady(env, t, trace[..j]);
    var i :| 0 <= i < j && trace[..j][i].Call? && trace[..j][i].rpc == ReportModuleReady;
    assert trace[i] == trace[..j][i];
  }

  lemma {:induction false} LiveHasModuleReady(env: Env, t: string, trace: seq<Event>)
    requires PhaseOf(env, t, trace) in {Presented, Polled, Live}
    ensures exists i :: 0 <= i < |trace| && trace[i].Call? && trace[i].rpc == ReportModuleReady
  {
    var n := |trace| - 1;
    if trace[n].Call? && trace[n].rpc == ReportModuleReady {
    } else {
      LiveHasModuleReady(env, t, trace[..n]);
      var i :| 0 <= i < n && trace[..n][i].Call? && trace[..n][i].rpc == ReportModuleReady;
      assert trace[i] == trace[..n][i];
    }
  }

  /** Each tick directly follows a health call, or, when these are switched off, there are none; and
      each health call directly follows a tick or ReportModuleReady. */
  lemma HealthAlternates(env: Env, t: string, trace: seq<Event>, j: nat)
    requires Obeys(env, t, trace) && j < |trace|
    ensures trace[j].Tick? && !env.skipHeartbeat ==>
              j >= 1 && trace[j - 1].Call? && trace[j - 1].rpc == GetHealth
    ensures trace[j].Call? && trace[j].rpc == GetHealth ==>
              && !env.skipHeartbeat && j >= 1
              && (trace[j - 1].Tick? || (trace[j - 1].Call? && trace[j - 1].rpc == ReportModuleReady))
  {
    StepAt(env, t, trace, j);
    LastOfLoop(env, t, trace[..j]);
  }

  lemma LastOfLoop(env: Env, t: string, trace: seq<Event>)
    ensures PhaseOf(env, t, trace) == Polled ==>
              trace != [] && trace[|trace| - 1].Call? && trace[|trace| - 1].rpc == GetHealth
    ensures PhaseOf(env, t, trace) in {Presented, Live} ==>
              trace != [] && (trace[|trace| - 1].Tick?
                              || (trace[|trace| - 1].Call? && trace[|trace| - 1].rpc == ReportModuleReady))
  {
  }

  /** A privilege-drop report ends the protocol, so there is at most one. */
  lemma ReportIsLast(env: Env, t: string, trace: seq<Event>, j: nat)
    requires Obeys(env, t, trace) && j < |trace| && trace[j].Report?
    ensures j == |trace| - 1
  {
    StepAt(env, t, trace, j);
    if j + 1 < |trace| {
      StepAt(env, t, trace, j + 1);
    }
  }

  // ----- main -----

  function SessionToken(w: World): string {
    if w.handshake.Token? then w.handshake.value else ""
  }

  function HandshakeStep(reply: HandshakeReply): Step {
    match reply
    case HandshakeRaises(step) => if step == Ok then Other else step
    case NoToken => Other
    case Token(_) => Ok
  }

  /** `int(os.environ.get(...) or "0")` for both ids. */
  function ParseStep(env: Env): Step {
    if env.uid.Malformed? || env.gid.Malformed? then Other else Ok
  }

  /** How the part of the `try` block up to verification ends: its first failing step, if any. */
  function SecureStep(env: Env, w: World, uid: int, gid: int): Step {
    var d := Drop(env, w, uid, gid);
    if HandshakeStep(w.handshake) != Ok then HandshakeStep(w.handshake)
    else if ParseStep(env) != Ok then ParseStep(env)
    else if w.hardening != Ok then w.hardening
    else if d.step != Ok then d.step
    else VerifyIdentity(env, d.uid, d.gid).0
  }

  /** How the whole `try` block ends; reading the configuration comes before it. */
  function TryStep(env: Env, w: World, uid: int, gid: int): Step {
    var secured := SecureStep(env, w, uid, gid);
    if secured != Ok then secured
    else if w.ready != Ok then w.ready
    else if w.load != Ok then w.load
    else if w.start != Ok then w.start
    else w.moduleReady
  }

  /** The `try` block ends as the first of its steps that fails: the handshake, reading the two ids,
      hardening, the drop, verification, the announcement, loading, starting and presenting the module. */
  lemma FirstFailureDecides(env: Env, w: World, uid: int, gid: int, steps: seq<Step>, i: nat)
    requires var d := Drop(env, w, uid, gid);
             steps == [HandshakeStep(w.handshake), if env.uid.Malformed? || env.gid.Malformed? then Other else Ok,
                       w.hardening, d.step, VerifyIdentity(env, d.uid, d.gid).0,
                       w.ready, w.load, w.start, w.moduleReady]
    requires i <= |steps| && forall h :: 0 <= h < i ==> steps[h] == Ok
    ensures i == |steps| ==> TryStep(env, w, uid, gid) == Ok
    ensures i < |steps| && steps[i] != Ok ==> TryStep(env, w, uid, gid) == steps[i]
    ensures SecureStep(env, w, uid, gid) == Ok <==> forall h :: 0 <= h < 5 ==> steps[h] == Ok
    ensures HandshakeStep(w.handshake) == Ok <==> w.handshake.Token?
    ensures w.handshake.HandshakeRaises? && w.handshake.step != Ok ==> HandshakeStep(w.handshake) == w.handshake.step
  {
    assert forall h :: 0 <= h < 5 ==> steps[h] == steps[..5][h];
    FiveOk(steps[..5]);
    assert i > 5 ==> steps[5] == Ok;
    assert i > 6 ==> steps[6] == Ok;
    assert i > 7 ==> steps[7] == Ok;
    assert i > 8 ==> steps[8] == Ok;
  }

  lemma FiveOk(s: seq<Step>)
    requires |s| == 5
    ensures (forall h :: 0 <= h < 5 ==> s[h] == Ok)
       <==> s[0] == Ok && s[1] == Ok && s[2] == Ok && s[3] == Ok && s[4] == Ok
  {
  }

  /** Whether module code was loaded in the trace, and whether the trace ends in a report. */
  predicate Loads(trace: seq<Event>) {
    trace != [] && (trace[|trace| - 1].LoadModule? || Loads(trace[..|trace| - 1]))
  }

  predicate EndsInReport(trace: seq<Event>) {
    trace != [] && trace[|trace| - 1].Report?
  }

  lemma {:induction false} LoadsByPhase(env: Env, t: string, trace: seq<Event>)
    ensures var p := PhaseOf(env, t, trace);
            && (p.Started? || p.Shaken? || p.Hardened? || p.Verified? || p.Announced? ==> !Loads(trace))
            && (p.Loaded? || p.Presented? || p.Polled? || p.Live? ==> Loads(trace))
            && (EndsInReport(trace) ==> p.Closed? || p.Violation?)
  {
    if trace != [] {
      LoadsByPhase(env, t, trace[..|trace| - 1]);
    }
  }

  // ----- the reported stage -----

  /** `str.lower` on ASCII letters. */
  function Lower(s: string): string {
    seq(|s|, i requires 0 <= i < |s| => if 'A' <= s[i] <= 'Z' then s[i] + ('a' - 'A') else s[i])
  }

  predicate OccursAt(message: string, word: string, i: int) {
    0 <= i <= |message| - |word| && message[i..i + |word|] == word
  }

  predicate Mentions(message: string, word: string) {
    exists i :: 0 <= i <= |message| && OccursAt(message, word, i)
  }

  /** The stage a report names: the error's own, or a guess from the message. */
  function StageOf(step: Step): string {
    match step
    case PrivilegeDrop(stage) => stage
    case Denied(message) => if Mentions(Lower(message), "setuid") then "setuid" else "setgid"
    case _ => ""
  }

  /** The word occurs in the message at `i`, whatever the case of the message's letters. */
  ghost predicate SpelledAt(message: string, word: string, i: int) {
    && 0 <= i <= |message| - |word|
    && forall k :: 0 <= k < |word| ==> message[i + k] == word[k] || message[i + k] as int == word[k] as int - 32
  }

  lemma OccursInLower(message: string, word: string, i: int)
    requires forall k :: 0 <= k < |word| ==> 'a' <= word[k] <= 'z'
    ensures OccursAt(Lower(message), word, i) <==> SpelledAt(message, word, i)
  {
    var low := Lower(message);
    if 0 <= i <= |message| - |word| {
      var part := low[i..i + |word|];
      forall k | 0 <= k < |word|
        ensures part[k] == word[k] <==> message[i + k] == word[k] || message[i + k] as int == word[k] as int - 32
      {
        assert part[k] == low[i + k];
      }
    }
  }

  /** The stage reported for a denied operation: setuid when the message contains the word, in whatever
      case, and setgid otherwise. */
  lemma StageOfDenied(message: string)
    ensures StageOf(Denied(message))
         == if exists i :: 0 <= i <= |message| && SpelledAt(message, "setuid", i) then "setuid" else "setgid"
  {
    forall i | 0 <= i <= |message|
      ensures OccursAt(Lower(message), "setuid", i) <==> SpelledAt(message, "setuid", i)
    {
      OccursInLower(message, "setuid", i);
    }
  }

  /** A message without the letter `u` is reported as a failure of setgid. */
  lemma QuietMessageMeansSetgid(message: string)
    requires forall i :: 0 <= i < |message| ==> message[i] != 'u' && message[i] != 'U'
    ensures StageOf(Denied(message)) == "setgid"
  {
    var low := Lower(message);
    forall i | 0 <= i <= |low|
      ensures !OccursAt(low, "setuid", i)
    {
      if i <= |low| - 6 {
        assert low[i..i + 6][3] == low[i + 3] != 'u';
      }
    }
  }

  /** The part of the privilege drop or of its verification whose failure is the first failing step
      of the `try` block; none when something else failed first. After the group has been set, it is
      the user that could not be. */
  function FailedStage(env: Env, w: World, uid: int, gid: int): Option<string> {
    var d := Drop(env, w, uid, gid);
    if HandshakeStep(w.handshake) != Ok || ParseStep(env) != Ok || w.hardening != Ok then None
    else if d.step != Ok then
      if !env.posix then None
      else if d.events != [] && d.events[|d.events| - 1].SetGid? then Some("setuid")
      else Some("setgid")
    else if VerifyIdentity(env, d.uid, d.gid).0 != Ok then Some("verify")
    else None
  }

  lemma FailedStageIs(env: Env, w: World, uid: int, gid: int)
    ensures var failed, d := FailedStage(env, w, uid, gid), Drop(env, w, uid, gid);
            var drops := && w.handshake.Token? && !env.uid.Malformed? && !env.gid.Malformed? && w.hardening == Ok
                         && env.euid == 0 && env.posix && env.uid.Number? && env.gid.Number?;
            && (failed == Some("setgid") <==> drops && (env.forced == ForceSetgid || w.setgid != Ok))
            && (failed == Some("setuid")
                <==> && drops && env.forced != ForceSetgid && w.setgid == Ok
                     && (env.forced == ForceSetuid || w.setuid != Ok))
            && (failed == Some("verify")
                <==> && w.handshake.Token? && !env.uid.Malformed? && !env.gid.Malformed? && w.hardening == Ok
                     && d.step == Ok && VerifyIdentity(env, d.uid, d.gid).0 != Ok)
            && failed in {None, Some("setgid"), Some("setuid"), Some("verify")}
  {
    DropOutcome(env, w, uid, gid);
  }

  /** The script's own error at one of these stages, a denied setuid whose message mentions setuid,
      or a denied setgid whose message does not. */
  predicate Recognisable(failed: Option<string>, step: Step) {
    || (failed != None && step.PrivilegeDrop?)
    || (failed == Some("setuid") && step.Denied? && Mentions(Lower(step.message), "setuid"))
    || (failed == Some("setgid") && step.Denied? && !Mentions(Lower(step.message), "setuid"))
  }

  /** A reported failure is reported under the stage that really failed exactly when it is
      recognisable; in particular never when no stage of the drop failed. */
  lemma ReportIsRightIff(env: Env, w: World, uid: int, gid: int)
    ensures var step, failed := TryStep(env, w, uid, gid), FailedStage(env, w, uid, gid);
            step.PrivilegeDrop? || step.Denied? ==>
              (failed == Some(StageOf(step)) <==> Recognisable(failed, step))
  {
  }

  class Process {
    var uid: int
    var gid: int
    var trace: seq<Event>

    constructor (uid: int, gid: int)
      ensures this.uid == uid && this.gid == gid && trace == []
    {
      this.uid, this.gid, trace := uid, gid, [];
    }

    method Emit(env: Env, t: string, e: Event)
      requires Next(env, t, PhaseOf(env, t, trace), e) != Violation
      modifies this`trace
      ensures trace == old(trace) + [e]
      ensures PhaseOf(env, t, trace) == Next(env, t, PhaseOf(env, t, old(trace)), e)
    {
      PhaseSnoc(env, t, trace, e);
      trace := trace + [e];
    }

    /** `_drop_module_identity` */
    method DropModuleIdentity(env: Env, t: string, w: World) returns (step: Step)
      requires PhaseOf(env, t, trace) == Hardened(Untouched)
      modifies this
      ensures var d := Drop(env, w, old(uid), old(gid));
              trace == old(trace) + d.events && uid == d.uid && gid == d.gid && step == d.step
      ensures PhaseOf(env, t, trace).Hardened?
      ensures step == Ok ==> PhaseOf(env, t, trace).changed == if env.MustDrop() then UserSet else Untouched
      ensures step == Ok ==> IdsAfterDrop(env, old(uid), old(gid), uid, gid)
    {
      if !env.uid.Truthy() || !env.gid.Truthy() {
        return Ok;
      }
      if !env.posix {
        return Other;
      }
      if env.euid != 0 {
        return Ok;
      }
      if env.forced == ForceSetgid {
        return PrivilegeDrop("setgid");
      }
      step := ChangeIds(env, t, w);
    }

    /** Its part after the checks: the group first, then the user. */
    method ChangeIds(env: Env, t: string, w: World) returns (step: Step)
      requires PhaseOf(env, t, trace) == Hardened(Untouched)
      requires env.uid.Truthy() && env.gid.Truthy() && env.posix && env.euid == 0 && env.forced != ForceSetgid
      modifies this
      ensures var d := Drop(env, w, old(uid), old(gid));
              trace == old(trace) + d.events && uid == d.uid && gid == d.gid && step == d.step
      ensures PhaseOf(env, t, trace).Hardened?
      ensures step == Ok ==> PhaseOf(env, t, trace).changed == if env.MustDrop() then UserSet else Untouched
    {
      Emit(env, t, ClearGroups);
      if env.gid.Malformed? {
        return Other;
      }
      if w.setgid != Ok {
        return w.setgid;
      }
      gid := env.gid.n;
      Emit(env, t, SetGid(env.gid.n));
      if env.forced == ForceSetuid {
        return PrivilegeDrop("setuid");
      }
      if env.uid.Malformed? {
        return Other;
      }
      if w.setuid != Ok {
        return w.setuid;
      }
      uid := env.uid.n;
      Emit(env, t, SetUid(env.uid.n));
      return Ok;
    }

    /** The `try` block up to and including verification. */
    method Secure(env: Env, w: World) returns (step: Step)
      requires trace == []
      modifies this
      ensures step == SecureStep(env, w, old(uid), old(gid))
      ensures step == Ok ==> IdsAfterDrop(env, old(uid), old(gid), uid, gid)
      ensures var p := PhaseOf(env, SessionToken(w), trace);
              if step == Ok then p.Verified? else p.Shaken? || p.Hardened?
    {
      var t := SessionToken(w);
      Emit(env, t, Call(Handshake, None, None));
      if HandshakeStep(w.handshake) != Ok {
        return HandshakeStep(w.handshake);
      }
      if ParseStep(env) != Ok {
        return ParseStep(env);
      }
      Emit(env, t, Harden);
      if w.hardening != Ok {
        return w.hardening;
      }
      step := DropModuleIdentity(env, t, w);
      if step == Ok {
        step := VerifyEffectiveIdentity(env, t);
      }
    }

    /** `_verify_effective_identity` and the comparison in `main`. */
    method VerifyEffectiveIdentity(env: Env, t: string) returns (step: Step)
      requires PhaseOf(env, t, trace) == Hardened(if env.MustDrop() then UserSet else Untouched)
      modifies this`trace
      ensures step == VerifyIdentity(env, uid, gid).0
      ensures if step == Ok then PhaseOf(env, t, trace).Verified? else PhaseOf(env, t, trace).Hardened?
    {
      var verified := VerifyIdentity(env, uid, gid);
      VerifyIffAnnounceable(env, uid, gid);
      if verified.0 == Ok {
        Emit(env, t, Verify(verified.1, verified.2));
      }
      return verified.0;
    }

    /** The rest of the `try` block: announce, load, start and present the module. */
    method Present(env: Env, w: World) returns (step: Step)
      requires PhaseOf(env, SessionToken(w), trace).Verified?
      modifies this`trace
      ensures step == if w.ready != Ok then w.ready else if w.load != Ok then w.load
                      else if w.start != Ok then w.start else w.moduleReady
      ensures var p := PhaseOf(env, SessionToken(w), trace);
              if w.ready != Ok then p.Announced? else if w.load != Ok || w.start != Ok then p.Loaded? else p.Presented?
    {
      var t := SessionToken(w);
      var p := PhaseOf(env, t, trace);
      Emit(env, t, Call(BootstrapReady, Carried(t), if p.uid >= 0 && p.gid >= 0 then Some((p.uid, p.gid)) else None));
      if w.ready != Ok {
        return w.ready;
      }
      Emit(env, t, LoadModule);
      if w.load != Ok {
        return w.load;
      }
      Emit(env, t, StartModule);
      if w.start != Ok {
        return w.start;
      }
      Emit(env, t, Call(ReportModuleReady, Carried(t), None));
      return w.moduleReady;
    }

    /** The two `except` clauses: a report when there is a token and privileges are the problem. */
    method HandleFailure(env: Env, w: World, step: Step) returns (exit: Exit)
      requires step != Ok
      requires var p := PhaseOf(env, SessionToken(w), trace);
               p.Shaken? || p.Hardened? || p.Announced? || p.Loaded? || p.Presented?
      modifies this`trace
      ensures exit == if step.PrivilegeDrop? then ExitOne else Uncaught
      ensures trace == if SessionToken(w) != "" && (step.PrivilegeDrop? || step.Denied?)
                       then old(trace) + [Report(Some(SessionToken(w)), StageOf(step))] else old(trace)
      ensures Obeys(env, SessionToken(w), trace)
    {
      var t := SessionToken(w);
      if t != "" && (step.PrivilegeDrop? || step.Denied?) {
        Emit(env, t, Report(Some(t), StageOf(step)));
      }
      return if step.PrivilegeDrop? then ExitOne else Uncaught;
    }

    /** The health loop, for as many rounds as are listed. */
    method ServeHealth(env: Env, t: string, rounds: seq<Round>) returns (exit: Exit)
      requires PhaseOf(env, t, trace).Presented?
      modifies this`trace
      ensures exit == if forall i :: 0 <= i < |rounds| ==>
                           (env.skipHeartbeat || rounds[i].health == Ok) && rounds[i].tick == Ok
                      then Serving else Uncaught
      ensures exit == Serving ==> |trace| == |old(trace)| + if env.skipHeartbeat then |rounds| else 2 * |rounds|
      ensures PhaseOf(env, t, trace) in {Presented, Polled, Live}
    {
      for i := 0 to |rounds|
        invariant PhaseOf(env, t, trace) in {Presented, Live}
        invariant |trace| == |old(trace)| + if env.skipHeartbeat then i else 2 * i
        invariant forall j :: 0 <= j < i ==> (env.skipHeartbeat || rounds[j].health == Ok) && rounds[j].tick == Ok
      {
        var alive := ServeRound(env, t, rounds[i]);
        if !alive {
          return Uncaught;
        }
      }
      return Serving;
    }

    /** One round of it. */
    method ServeRound(env: Env, t: string, round: Round) returns (alive: bool)
      requires PhaseOf(env, t, trace) in {Presented, Live}
      modifies this`trace
      ensures alive == ((env.skipHeartbeat || round.health == Ok) && round.tick == Ok)
      ensures alive ==> PhaseOf(env, t, trace) == Live && |trace| == |old(trace)| + if env.skipHeartbeat then 1 else 2
      ensures PhaseOf(env, t, trace) in {Polled, Live}
    {
      if !env.skipHeartbeat {
        Emit(env, t, Call(GetHealth, Carried(t), None));
        if round.health != Ok {
          return false;
        }
      }
      Emit(env, t, Tick);
      return round.tick == Ok;
    }

    /** `main`. Whatever happens, the trace obeys the protocol; an unreadable configuration ends the
        process before its first call; otherwise the first failing step decides the exit; module
        code is loaded exactly when everything up to BootstrapReady succeeded; and a privilege-drop
        report is sent exactly when there is a token to send it with and the first failure is a
        privilege-drop error or a denied operation. */
    method RunMain(env: Env, w: World) returns (exit: Exit)
      requires trace == []
      modifies this
      ensures Obeys(env, SessionToken(w), trace)
      ensures w.config != Ok ==> exit == Uncaught && trace == []
      ensures w.config == Ok ==>
                var step := TryStep(env, w, old(uid), old(gid));
                && (exit == Serving
                    <==> && step == Ok
                         && forall i :: 0 <= i < |w.rounds| ==>
                              (env.skipHeartbeat || w.rounds[i].health == Ok) && w.rounds[i].tick == Ok)
                && (exit == ExitOne <==> step.PrivilegeDrop?)
                && (EndsInReport(trace) <==> SessionToken(w) != "" && (step.PrivilegeDrop? || step.Denied?))
                && (EndsInReport(trace) ==> trace[|trace| - 1] == Report(Some(SessionToken(w)), StageOf(step)))
      ensures EndsInReport(trace) ==>
                var step := TryStep(env, w, old(uid), old(gid));
                var failed := FailedStage(env, w, old(uid), old(gid));
                failed == Some(trace[|trace| - 1].stage) <==> Recognisable(failed, step)
      ensures Loads(trace)
         <==> w.config == Ok && SecureStep(env, w, old(uid), old(gid)) == Ok && w.ready == Ok
      ensures Loads(trace) ==> IdsAfterDrop(env, old(uid), old(gid), uid, gid)
    {
      if w.config != Ok {
        return Uncaught;
      }
      ReportIsRightIff(env, w, uid, gid);
      var t := SessionToken(w);
      var step := Secure(env, w);
      if step == Ok {
        step := Present(env, w);
      }
      LoadsByPhase(env, t, trace);
      if step == Ok {
        exit := ServeHealth(env, t, w.rounds);
        LoadsByPhase(env, t, trace);
      } else {
        ghost var before := trace;
        exit := HandleFailure(env, w, step);
        assert trace != before ==> trace[..|trace| - 1] == before;
      }
    }
  }

  // ----- runs that go astray -----

  /** A world in which nothing fails, and the health loop runs for one round. */
  function Smooth(token: string): World {
    World(Ok, Token(token), Ok, Ok, Ok, Ok, Ok, Ok, Ok, [Round(Ok, Ok)])
  }

  /** With a gid configured and no uid, a root process loads the module and serves with gid 0. */
  method RunWithWrongGid(env: Env) returns (p: Process, exit: Exit)
    requires env.uid == Unset && env.gid.Number? && env.gid.n != 0
    ensures exit == Serving && Loads(p.trace) && p.gid == 0 != env.gid.n
  {
    p := new Process(0, 0);
    exit := p.RunMain(env, Smooth("s"));
  }

  /** With an empty session token the module is loaded and served, and no call carries a token. */
  method RunWithoutToken(env: Env) returns (p: Process, exit: Exit)
    requires env.uid == Unset && env.gid == Unset
    ensures exit == Serving && Loads(p.trace)
    ensures forall j :: 0 <= j < |p.trace| && p.trace[j].Call? ==> p.trace[j].token == None
  {
    p := new Process(0, 0);
    exit := p.RunMain(env, Smooth(""));
    forall j | 0 <= j < |p.trace| && p.trace[j].Call?
      ensures p.trace[j].token == None
    {
      EmptyTokenIsNeverSent(env, p.trace, j);
    }
  }

  lemma EmptyTokenIsNeverSent(env: Env, trace: seq<Event>, j: nat)
    requires Obeys(env, "", trace) && j < |trace| && trace[j].Call?
    ensures trace[j].token == None
  {
    StepAt(env, "", trace, j);
  }

  lemma KernelNamesNoCall()
    ensures StageOf(Denied(EPERM_MESSAGE)) == "setgid"
  {
    QuietMessageMeansSetgid(EPERM_MESSAGE);
  }

  const EPERM_MESSAGE := "[Errno 1] Operation not permitted"

  /** A setuid the kernel refuses is reported as a failed setgid: Python's message for it is the
      errno's, which names no call. */
  method RunWithRefusedSetuid(env: Env) returns (p: Process, exit: Exit)
    requires env.uid.Number? && env.gid.Number? && env.posix && env.euid == 0 && env.forced == NotForced
    ensures exit == Uncaught && p.trace != [] && p.trace[|p.trace| - 1] == Report(Some("s"), "setgid")
  {
    var w := Smooth("s").(setuid := Denied(EPERM_MESSAGE));
    p := new Process(0, 0);
    exit := p.RunMain(env, w);
    KernelNamesNoCall();
  }

  /** A module whose file may not be read is reported as a failed setgid, though no identity was ever
      configured, dropped or verified. */
  method RunWithDeniedLoad(env: Env) returns (p: Process, exit: Exit)
    requires env.uid == Unset && env.gid == Unset
    ensures exit == Uncaught && p.trace != [] && p.trace[|p.trace| - 1] == Report(Some("s"), "setgid")
    ensures FailedStage(env, Smooth("s").(load := Denied(EPERM_MESSAGE)), 0, 0) == None
  {
    p := new Process(0, 0);
    exit := p.RunMain(env, Smooth("s").(load := Denied(EPERM_MESSAGE)));
    KernelNamesNoCall();
  }
}
