/** The two server-sent-event generators: a payload is sent only when its `generated_at` stamp
    differs from the one before it, across the push phase and the polling phase. */
module Streams {
  import opened Collections

  /** A snapshot may lack a stamp; a display overview always has one. */
  datatype Payload<S> = Payload(stamp: Option<S>, body: string)

  /** One turn of the push loop: whether the client is gone, what the event carries if it carries
      a payload, and what loading the snapshot would give. */
  datatype Push<S> = Push(gone: bool, pushed: Option<Payload<S>>, loaded: Payload<S>) {
    function Chosen(): Payload<S> {
      if pushed.Some? then pushed.value else loaded
    }
  }

  /** One turn of the polling loop. */
  datatype Poll<S> = Poll(gone: bool, loaded: Payload<S>)

  /** One turn of either display loop: the overview is missing when the site no longer exists. */
  datatype Turn<S> = Turn(gone: bool, overview: Option<Payload<S>>)

  // ----- what a client should receive -----

  function StampBefore<S>(observed: seq<Payload<S>>, i: nat): Option<S>
    requires i <= |observed|
  {
    if i == 0 then None else observed[i - 1].stamp
  }

  /** The observed payloads whose stamp differs from that of the payload just before them. */
  function Changes<S(==)>(observed: seq<Payload<S>>): seq<Payload<S>> {
    if observed == [] then []
    else
      var n := |observed| - 1;
      if observed[n].stamp != StampBefore(observed, n) then Changes(observed[..n]) + [observed[n]]
      else Changes(observed[..n])
  }

  lemma ChangesSnoc<S>(observed: seq<Payload<S>>, p: Payload<S>)
    ensures Changes(observed + [p])
         == if p.stamp != StampBefore(observed, |observed|) then Changes(observed) + [p] else Changes(observed)
  {
    assert (observed + [p])[..|observed|] == observed;
  }

  /** The stamp the client was last sent. */
  function LastStamp<S>(sent: seq<Payload<S>>): Option<S> {
    if sent == [] then None else sent[|sent| - 1].stamp
  }

  /** The client is always up to date: the last stamp sent is the last stamp observed. */
  lemma {:induction false} LastSentIsLastObserved<S>(observed: seq<Payload<S>>)
    ensures LastStamp(Changes(observed)) == StampBefore(observed, |observed|)
  {
    if observed != [] {
      LastSentIsLastObserved(observed[..|observed| - 1]);
    }
  }

  /** Nothing is sent twice in a row, and the first payload sent has a stamp. */
  lemma {:induction false} NoRepeats<S>(observed: seq<Payload<S>>)
    ensures var sent := Changes(observed);
            && (sent != [] ==> sent[0].stamp != None)
            && (forall i :: 0 <= i < |sent| - 1 ==> sent[i].stamp != sent[i + 1].stamp)
  {
    if observed != [] {
      var init := observed[..|observed| - 1];
      NoRepeats(init);
      LastSentIsLastObserved(init);
    }
  }

  /** Later observations never retract what was sent. */
  lemma {:induction false} SentGrows<S>(observed: seq<Payload<S>>, more: seq<Payload<S>>)
    ensures Changes(observed) <= Changes(observed + more)
  {
    if more == [] {
      assert observed + more == observed;
    } else {
      var init, p := more[..|more| - 1], more[|more| - 1];
      SentGrows(observed, init);
      assert observed + more == (observed + init) + [p];
      ChangesSnoc(observed + init, p);
    }
  }

  /** Nothing is sent exactly when no observed payload has a stamp; in particular a stream whose
      payloads all have stamps sends its first payload. */
  lemma {:induction false} SilentIffStampless<S>(observed: seq<Payload<S>>)
    ensures Changes(observed) == [] <==> forall i :: 0 <= i < |observed| ==> observed[i].stamp == None
  {
    if observed != [] {
      var n := |observed| - 1;
      SilentIffStampless(observed[..n]);
      LastSentIsLastObserved(observed[..n]);
    }
  }

  /** A run of equal stamps yields one payload, its first: dropping the stamps that repeat their
      predecessor from the stamps observed gives the stamps sent. */
  function DropRepeats<S(==)>(stamps: seq<Option<S>>, before: Option<S>): seq<Option<S>> {
    if stamps == [] then []
    else if stamps[0] == before then DropRepeats(stamps[1..], before)
    else [stamps[0]] + DropRepeats(stamps[1..], stamps[0])
  }

  function Stamps<S>(ps: seq<Payload<S>>): seq<Option<S>> {
    seq(|ps|, i requires 0 <= i < |ps| => ps[i].stamp)
  }

  lemma {:induction false} DropRepeatsSnoc<S>(stamps: seq<Option<S>>, s: Option<S>, before: Option<S>)
    ensures DropRepeats(stamps + [s], before)
         == DropRepeats(stamps, before)
            + if s == (if stamps == [] then before else stamps[|stamps| - 1]) then [] else [s]
  {
    if stamps != [] {
      assert (stamps + [s])[1..] == stamps[1..] + [s];
      DropRepeatsSnoc(stamps[1..], s, if stamps[0] == before then before else stamps[0]);
    }
  }

  lemma {:induction false} SentStamps<S>(observed: seq<Payload<S>>)
    ensures Stamps(Changes(observed)) == DropRepeats(Stamps(observed), None)
  {
    if observed != [] {
      var init, p := observed[..|observed| - 1], observed[|observed| - 1];
      SentStamps(init);
      assert Stamps(observed) == Stamps(init) + [p.stamp];
      DropRepeatsSnoc(Stamps(init), p.stamp, None);
    }
  }

  // ----- the snapshot stream -----

  /** The payloads the push loop looks at before the client leaves or the listener stops. */
  function Pushed<S>(pushes: seq<Push<S>>): seq<Payload<S>> {
    if pushes == [] || pushes[0].gone then [] else [pushes[0].Chosen()] + Pushed(pushes[1..])
  }

  predicate PushHangup<S>(pushes: seq<Push<S>>) {
    pushes != [] && (pushes[0].gone || PushHangup(pushes[1..]))
  }

  function Polled<S>(polls: seq<Poll<S>>): seq<Payload<S>> {
    if polls == [] || polls[0].gone then [] else [polls[0].loaded] + Polled(polls[1..])
  }

  /** Everything the generator looks at: the first snapshot, the push phase if there is one, and
      the polling phase unless the client left before it. */
  function SnapshotObserved<S>(initial: Payload<S>, pubsub: bool, pushes: seq<Push<S>>, goneAfter: bool,
                               polls: seq<Poll<S>>): seq<Payload<S>>
  {
    if !pubsub then [initial] + Polled(polls)
    else if PushHangup(pushes) || goneAfter then [initial] + Pushed(pushes)
    else [initial] + Pushed(pushes) + Polled(polls)
  }

  lemma {:induction false} PushedIs<S>(pushes: seq<Push<S>>, m: nat)
    requires m <= |pushes| && (forall i :: 0 <= i < m ==> !pushes[i].gone) && (m < |pushes| ==> pushes[m].gone)
    ensures |Pushed(pushes)| == m && (PushHangup(pushes) <==> m < |pushes|)
    ensures forall i :: 0 <= i < m ==>
              Pushed(pushes)[i] == if pushes[i].pushed.Some? then pushes[i].pushed.value else pushes[i].loaded
  {
    if m > 0 {
      PushedIs(pushes[1..], m - 1);
    }
  }

  lemma {:induction false} PolledIs<S>(polls: seq<Poll<S>>, n: nat)
    requires n <= |polls| && (forall i :: 0 <= i < n ==> !polls[i].gone) && (n < |polls| ==> polls[n].gone)
    ensures |Polled(polls)| == n && forall i :: 0 <= i < n ==> Polled(polls)[i] == polls[i].loaded
  {
    if n > 0 {
      PolledIs(polls[1..], n - 1);
    }
  }

  /** What the snapshot generator looks at, when the client is found gone at turn `m` of the push loop and
      at turn `n` of the polling loop, or at none: the first snapshot; with a push phase, what each of its
      first `m` events carries, or else the snapshot loaded for it; and unless the client left in that phase
      or directly after it, the `n` snapshots of the polling phase. */
  lemma SnapshotLooksAt<S>(initial: Payload<S>, pubsub: bool, pushes: seq<Push<S>>, goneAfter: bool,
                           polls: seq<Poll<S>>, m: nat, n: nat)
    requires m <= |pushes| && (forall i :: 0 <= i < m ==> !pushes[i].gone) && (m < |pushes| ==> pushes[m].gone)
    requires n <= |polls| && (forall i :: 0 <= i < n ==> !polls[i].gone) && (n < |polls| ==> polls[n].gone)
    ensures var observed := SnapshotObserved(initial, pubsub, pushes, goneAfter, polls);
            var pushed := if pubsub then m else 0;
            var polled := if !pubsub || (m == |pushes| && !goneAfter) then n else 0;
            && |observed| == 1 + pushed + polled && observed[0] == initial
            && (forall i :: 0 <= i < pushed ==>
                  observed[1 + i] == if pushes[i].pushed.Some? then pushes[i].pushed.value else pushes[i].loaded)
            && (forall i :: 0 <= i < polled ==> observed[1 + pushed + i] == polls[i].loaded)
  {
    PushedIs(pushes, m);
    PolledIs(polls, n);
  }

  /** `format_payload`: the chunk to yield, if any, and the remembered stamp. */
  method FormatPayload<S(==)>(last: Option<S>, payload: Payload<S>)
    returns (chunk: Option<Payload<S>>, last': Option<S>)
    ensures last' == payload.stamp
    ensures chunk == if payload.stamp != last then Some(payload) else None
  {
    last' := last;
    if payload.stamp != last {
      last' := payload.stamp;
      return Some(payload), last';
    }
    chunk := None;
  }

  method Yield<S(==)>(sent: seq<Payload<S>>, last: Option<S>, payload: Payload<S>, ghost observed: seq<Payload<S>>)
    returns (sent': seq<Payload<S>>, last': Option<S>)
    requires sent == Changes(observed) && last == StampBefore(observed, |observed|)
    ensures sent' == Changes(observed + [payload])
    ensures last' == StampBefore(observed + [payload], |observed| + 1)
  {
    var chunk;
    chunk, last' := FormatPayload(last, payload);
    ChangesSnoc(observed, payload);
    sent' := if chunk.Some? then sent + [chunk.value] else sent;
  }

  /** `sent` is what a client should have received for `observed`, and `last` the closure's stamp. */
  ghost predicate UpToDate<S(!new)>(sent: seq<Payload<S>>, last: Option<S>, observed: seq<Payload<S>>) {
    sent == Changes(observed) && last == StampBefore(observed, |observed|)
  }

  method PushPhase<S(==,!new)>(sent0: seq<Payload<S>>, last0: Option<S>, pushes: seq<Push<S>>,
                               ghost before: seq<Payload<S>>)
    returns (sent: seq<Payload<S>>, last: Option<S>, hungUp: bool)
    requires UpToDate(sent0, last0, before)
    ensures UpToDate(sent, last, before + Pushed(pushes))
    ensures hungUp == PushHangup(pushes)
  {
    sent, last := sent0, last0;
    ghost var seen := before;
    var i := 0;
    while i < |pushes| && !pushes[i].gone
      invariant 0 <= i <= |pushes|
      invariant seen + Pushed(pushes[i..]) == before + Pushed(pushes)
      invariant PushHangup(pushes[i..]) == PushHangup(pushes)
      invariant UpToDate(sent, last, seen)
    {
      assert pushes[i..][1..] == pushes[i + 1..];
      var payload := pushes[i].Chosen();
      sent, last := Yield(sent, last, payload, seen);
      seen := seen + [payload];
      i := i + 1;
    }
    hungUp := i < |pushes|;
    assert seen == before + Pushed(pushes);
  }

  method PollPhase<S(==,!new)>(sent0: seq<Payload<S>>, last0: Option<S>, polls: seq<Poll<S>>,
                               ghost before: seq<Payload<S>>)
    returns (sent: seq<Payload<S>>, last: Option<S>)
    requires UpToDate(sent0, last0, before)
    ensures UpToDate(sent, last, before + Polled(polls))
  {
    sent, last := sent0, last0;
    ghost var seen := before;
    var j := 0;
    while j < |polls| && !polls[j].gone
      invariant 0 <= j <= |polls|
      invariant seen + Polled(polls[j..]) == before + Polled(polls)
      invariant UpToDate(sent, last, seen)
    {
      assert polls[j..][1..] == polls[j + 1..];
      sent, last := Yield(sent, last, polls[j].loaded, seen);
      seen := seen + [polls[j].loaded];
      j := j + 1;
    }
    assert seen == before + Polled(polls);
  }

  /** `_snapshot_sse_generator`, run until the listed turns are used up. */
  method SnapshotStream<S(==,!new)>(initial: Payload<S>, pubsub: bool, pushes: seq<Push<S>>, goneAfter: bool,
                                    polls: seq<Poll<S>>)
    returns (sent: seq<Payload<S>>)
    ensures sent == Changes(SnapshotObserved(initial, pubsub, pushes, goneAfter, polls))
  {
    var last: Option<S> := None;
    sent, last := Yield([], last, initial, []);
    ghost var seen := [] + [initial];
    if pubsub {
      var hungUp;
      sent, last, hungUp := PushPhase(sent, last, pushes, seen);
      seen := seen + Pushed(pushes);
      if hungUp || goneAfter {
        return;
      }
    }
    sent, last := PollPhase(sent, last, polls, seen);
  }

  // ----- the display stream -----

  /** The overviews a display loop looks at before the client leaves or the site is gone. */
  function Turned<S>(turns: seq<Turn<S>>): seq<Payload<S>> {
    if turns == [] || turns[0].gone || turns[0].overview.None? then []
    else [turns[0].overview.value] + Turned(turns[1..])
  }

  /** Whether the client leaves before any overview is missing. */
  predicate Hangup<S>(turns: seq<Turn<S>>) {
    turns != [] && (turns[0].gone || (turns[0].overview.Some? && Hangup(turns[1..])))
  }

  function DisplayObserved<S>(initial: Option<Payload<S>>, pubsub: bool, pushes: seq<Turn<S>>, goneAfter: bool,
                              polls: seq<Turn<S>>): seq<Payload<S>>
  {
    if initial.None? then []
    else if !pubsub then [initial.value] + Turned(polls)
    else if Hangup(pushes) || goneAfter then [initial.value] + Turned(pushes)
    else [initial.value] + Turned(pushes) + Turned(polls)
  }

  lemma {:induction false} TurnedIs<S>(turns: seq<Turn<S>>, m: nat)
    requires m <= |turns| && (forall i :: 0 <= i < m ==> !turns[i].gone && turns[i].overview.Some?)
    requires m < |turns| ==> turns[m].gone || turns[m].overview.None?
    ensures |Turned(turns)| == m && (Hangup(turns) <==> m < |turns| && turns[m].gone)
    ensures forall i :: 0 <= i < m ==> turns[i].overview == Some(Turned(turns)[i])
  {
    if m > 0 {
      TurnedIs(turns[1..], m - 1);
    }
  }

  /** What the display generator looks at, when its loops stop at turns `m` and `n`, or at none: the first
      overview, if there is one; with a push phase, the overviews of its first `m` turns; and unless the
      client left in that phase or directly after it, those of the polling phase. */
  lemma DisplayLooksAt<S>(initial: Option<Payload<S>>, pubsub: bool, pushes: seq<Turn<S>>, goneAfter: bool,
                          polls: seq<Turn<S>>, m: nat, n: nat)
    requires m <= |pushes| && (forall i :: 0 <= i < m ==> !pushes[i].gone && pushes[i].overview.Some?)
    requires m < |pushes| ==> pushes[m].gone || pushes[m].overview.None?
    requires n <= |polls| && (forall i :: 0 <= i < n ==> !polls[i].gone && polls[i].overview.Some?)
    requires n < |polls| ==> polls[n].gone || polls[n].overview.None?
    ensures initial.None? ==> DisplayObserved(initial, pubsub, pushes, goneAfter, polls) == []
    ensures initial.Some? ==>
              var observed := DisplayObserved(initial, pubsub, pushes, goneAfter, polls);
              var pushed := if pubsub then m else 0;
              var polled := if !pubsub || (!goneAfter && (m < |pushes| ==> !pushes[m].gone)) then n else 0;
              && |observed| == 1 + pushed + polled && observed[0] == initial.value
              && (forall i :: 0 <= i < pushed ==> pushes[i].overview == Some(observed[1 + i]))
              && (forall i :: 0 <= i < polled ==> polls[i].overview == Some(observed[1 + pushed + i]))
  {
    TurnedIs(pushes, m);
    TurnedIs(polls, n);
  }

  /** Either display loop: it stops when the client is gone or the overview is missing. */
  method TurnPhase<S(==,!new)>(sent0: seq<Payload<S>>, last0: Option<S>, turns: seq<Turn<S>>,
                               ghost before: seq<Payload<S>>)
    returns (sent: seq<Payload<S>>, last: Option<S>, hungUp: bool)
    requires UpToDate(sent0, last0, before)
    ensures UpToDate(sent, last, before + Turned(turns))
    ensures hungUp == Hangup(turns)
  {
    sent, last := sent0, last0;
    ghost var seen := before;
    var i := 0;
    while i < |turns| && !turns[i].gone && turns[i].overview.Some?
      invariant 0 <= i <= |turns|
      invariant seen + Turned(turns[i..]) == before + Turned(turns)
      invariant Hangup(turns[i..]) == Hangup(turns)
      invariant UpToDate(sent, last, seen)
    {
      assert turns[i..][1..] == turns[i + 1..];
      sent, last := Yield(sent, last, turns[i].overview.value, seen);
      seen := seen + [turns[i].overview.value];
      i := i + 1;
    }
    hungUp := i < |turns| && turns[i].gone;
    assert seen == before + Turned(turns);
  }

  /** `_display_overview_sse_generator`, run until the listed turns are used up. A missing overview
      leaves the push loop but not the generator; `pubsub` also needs the site to be found. */
  method DisplayStream<S(==,!new)>(initial: Option<Payload<S>>, pubsub: bool, pushes: seq<Turn<S>>, goneAfter: bool,
                                   polls: seq<Turn<S>>)
    returns (sent: seq<Payload<S>>)
    ensures sent == Changes(DisplayObserved(initial, pubsub, pushes, goneAfter, polls))
  {
    if initial.None? {
      return [];
    }
    var last: Option<S> := None;
    sent, last := Yield([], last, initial.value, []);
    ghost var seen := [] + [initial.value];
    if pubsub {
      var hungUp;
      sent, last, hungUp := TurnPhase(sent, last, pushes, seen);
      seen := seen + Turned(pushes);
      if hungUp || goneAfter {
        return;
      }
    }
    var hungUp;
    sent, last, hungUp := TurnPhase(sent, last, polls, seen);
  }
}
