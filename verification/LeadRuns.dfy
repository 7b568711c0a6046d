/** Whole runs of the M1K transfer pipelines (src/usb/m1k.rs, src/streaming.rs): when the
    resynced output counter, cast back to an unsigned number, can be negative. */
module LeadRuns {
  import opened Common
  import opened LeadResync

  const CHUNK: nat := 256
  const N_TRANSFERS: nat := 2

  /** `packets` is the number of packets per transfer; a continuous capture has no number
      of samples. A start may fail to claim the USB interface, and then no transfers run.
      `received` and `sent` count the transfers since the start. The strays are tasks that
      were waiting for the device when their pipeline was aborted, and still run one
      transfer. */
  datatype Pipeline = Pipeline(packets: nat, samples: Option<nat>, running: bool, claimed: bool, done: bool,
                               received: nat, sent: nat, strayIn: nat, strayOut: nat, track: Track)

  /** An OUT transfer encodes `packets` whole chunks. An IN transfer collects as many
      complete chunks as its buffer holds. */
  datatype Event =
    | Out(late: bool)
    | In(late: bool, chunks: nat)
    | Start(claim: bool)
    | Pause
    | Configure(newPackets: nat, newSamples: Option<nat>)

  /** Are more transfers wanted after this many? */
  predicate Wanted(m: Pipeline, transfers: nat) {
    m.samples.None? || transfers * (m.packets * CHUNK) < m.samples.value
  }

  /** A finite capture stops submitting once the submitted transfers cover it, and then
      handles no further completion. */
  predicate Enabled(m: Pipeline, e: Event) {
    match e
    case Out(late) =>
      if late then m.strayOut > 0
      else m.running && m.claimed && (m.sent < N_TRANSFERS || Wanted(m, m.sent))
    case In(late, chunks) =>
      && chunks <= m.packets
      && if late then m.strayIn > 0
         else m.running && m.claimed && (m.received == 0 || Wanted(m, m.received + 1))
    case Start(_) => !m.running
    case Pause => m.running
    case Configure(newPackets, newSamples) => newPackets > 0 && newSamples != Some(0)
  }

  /** Does an IN transfer of n samples complete a finite capture? */
  predicate Completes(m: Pipeline, n: nat) {
    m.samples.Some? && m.track.captureI + n >= m.samples.value
  }

  /** The tasks of a pipeline that stops may be waiting for the device. */
  function Stopped(m: Pipeline): Pipeline {
    var tasks := if m.running && m.claimed then 1 else 0;
    m.(running := false, strayIn := m.strayIn + tasks, strayOut := m.strayOut + tasks)
  }

  function Apply(m: Pipeline, e: Event): Pipeline
    requires Enabled(m, e)
  {
    var t := m.track;
    match e
    case Out(late) =>
      var m' := if late then m.(strayOut := m.strayOut - 1) else m.(sent := m.sent + 1);
      m'.(track := t.(captureO := t.captureO + CHUNK * m.packets))
    case In(late, chunks) =>
      var m' := if late then m.(strayIn := m.strayIn - 1) else m.(received := m.received + 1);
      var ends := Completes(m, CHUNK * chunks);
      (if ends then Stopped(m').(done := true) else m').(track := AfterIn(t, CHUNK * chunks, ends && m.running))
    case Start(claim) =>
      var t0 := if m.done then Fresh() else t;
      m.(running := true, claimed := claim, done := false, received := 0, sent := 0,
         track := if claim then t0.(captureO := t0.captureI) else t0)
    case Pause => Stopped(m).(track := t.(captureO := t.captureI))
    case Configure(newPackets, newSamples) =>
      Stopped(m).(packets := newPackets, samples := newSamples, track := t.(captureI := 0, captureO := 0))
  }

  predicate Feasible(m: Pipeline, events: seq<Event>)
    decreases |events|
  {
    events != [] ==> Enabled(m, events[0]) && Feasible(Apply(m, events[0]), events[1..])
  }

  function Run(m: Pipeline, events: seq<Event>): Pipeline
    requires Feasible(m, events)
    decreases |events|
  {
    if events == [] then m else Run(Apply(m, events[0]), events[1..])
  }

  predicate NoConfigure(events: seq<Event>) {
    forall i :: 0 <= i < |events| ==> !events[i].Configure?
  }

  /** No stray task runs. */
  predicate Prompt(events: seq<Event>) {
    forall i :: 0 <= i < |events| ==> !(events[i].Out? && events[i].late) && !(events[i].In? && events[i].late)
  }

  /** What every reachable pipeline of a capture that is not empty satisfies. */
  ghost predicate Legal(m: Pipeline) {
    && Counting(m.track) && m.packets > 0 && m.samples != Some(0) && !(m.running && m.done)
    && (!m.done ==> !Completes(m, 0))
  }

  /** The next transfers cannot make the counter negative: there are none before a
      reset, or the tracked leads are anchored. */
  ghost predicate Secure(m: Pipeline) {
    m.done || Anchored(m.track)
  }

  lemma ApplySound(m: Pipeline, e: Event)
    requires Legal(m) && Sound(m.track) && Enabled(m, e) && !e.Configure?
    ensures Legal(Apply(m, e)) && Sound(Apply(m, e).track)
  {
    hide AfterIn, Fresh;
    FreshSound();
    FreshValue();
    if e.In? {
      SoundAfterIn(m.track, CHUNK * e.chunks, Completes(m, CHUNK * e.chunks) && m.running);
      InCounter(m.track, CHUNK * e.chunks, Completes(m, CHUNK * e.chunks) && m.running);
    }
  }

  lemma InCounter(t: Track, n: nat, ends: bool)
    ensures AfterIn(t, n, ends).captureI == t.captureI + n
  {
  }

  lemma FreshValue()
    ensures Fresh().captureI == Fresh().captureO == 0 && Fresh().baseline.None? && Fresh().window == []
  {
  }

  /** From creation or a reset up to the next configure, every run keeps the output
      counter non-negative, stray transfers included: the cast back to an unsigned
      counter is always safe. */
  lemma {:induction false} CounterNeverNegative(m: Pipeline, events: seq<Event>)
    requires Legal(m) && Anchored(m.track) && Feasible(m, events) && NoConfigure(events)
    ensures Legal(Run(m, events)) && Anchored(Run(m, events).track) && Run(m, events).track.captureO >= 0
    decreases |events|
  {
    hide Apply, Enabled, Completes, Anchored;
    if events != [] {
      SoundIs(m.track);
      ApplySound(m, events[0]);
      SoundIs(Apply(m, events[0]).track);
      CounterNeverNegative(Apply(m, events[0]), events[1..]);
    }
  }

  lemma SoundIs(t: Track)
    ensures Sound(t) <==> Counting(t) && Anchored(t)
  {
  }

  /** A finished capture can only be started again, which resets it. */
  lemma {:induction false} FinishedNeverNegative(m: Pipeline, events: seq<Event>)
    requires Legal(m) && m.done && Feasible(m, events) && NoConfigure(events) && Prompt(events)
    ensures Run(m, events).track.captureO >= 0
  {
    if events != [] {
      assert events[0].Start?;
      FreshSound();
      FreshValue();
      CounterNeverNegative(Apply(m, events[0]), events[1..]);
    }
  }

  // ---- joining runs ----

  /** Events without a configure or a stray task that lead from m to n. */
  ghost predicate Leads(m: Pipeline, events: seq<Event>, n: Pipeline) {
    Feasible(m, events) && NoConfigure(events) && Prompt(events) && Run(m, events) == n
  }

  lemma {:induction false} RunJoin(m: Pipeline, a: seq<Event>, b: seq<Event>)
    requires Feasible(m, a) && Feasible(Run(m, a), b)
    ensures Feasible(m, a + b) && Run(m, a + b) == Run(Run(m, a), b)
    decreases |a|
  {
    if a == [] {
      assert a + b == b;
    } else {
      assert (a + b)[1..] == a[1..] + b;
      RunJoin(Apply(m, a[0]), a[1..], b);
    }
  }

  lemma LeadsJoin(m: Pipeline, a: seq<Event>, mid: Pipeline, b: seq<Event>, n: Pipeline)
    requires Leads(m, a, mid) && Leads(mid, b, n)
    ensures Leads(m, a + b, n)
  {
    hide Feasible, Run;
    RunJoin(m, a, b);
  }

  lemma OneEvent(m: Pipeline, e: Event)
    requires Enabled(m, e) && !e.Configure? && Prompt([e])
    ensures Leads(m, [e], Apply(m, e))
  {
    assert [e][1..] == [];
  }

  // ---- turns that need no more than one transfer a start ----

  /** Pause, start again, send one transfer or none, and receive an empty one. */
  function Restart(out: bool): seq<Event> {
    [Pause, Start(true)] + (if out then [Out(false)] else []) + [In(false, 0)]
  }

  /** What k of them do to the tracker, when a transfer has l samples. */
  function Restarted(t: Track, k: nat, l: nat): Track
    decreases k
  {
    if k == 0 then t else Restarted(AfterIn(t.(captureO := t.captureI + l), 0, false), k - 1, l)
  }

  /** Running, with more of a finite capture to come. */
  predicate Flows(m: Pipeline) {
    m.running && !m.done && !Completes(m, 0)
  }

  lemma OneRestart(m: Pipeline, out: bool) returns (n: Pipeline)
    requires Flows(m)
    ensures Leads(m, Restart(out), n) && Flows(n) && n.packets == m.packets && n.samples == m.samples
    ensures n.track == AfterIn(m.track.(captureO := m.track.captureI + if out then CHUNK * m.packets else 0), 0, false)
  {
    hide AfterIn, Feasible, Run;
    var m1 := Apply(m, Pause);
    var m2 := Apply(m1, Start(true));
    var m3 := if out then Apply(m2, Out(false)) else m2;
    n := Apply(m3, In(false, 0));
    InCounter(m3.track, 0, false);
    OneEvent(m, Pause);
    OneEvent(m1, Start(true));
    OneEvent(m3, In(false, 0));
    LeadsJoin(m, [Pause], m1, [Start(true)], m2);
    assert [Pause] + [Start(true)] == [Pause, Start(true)];
    if out {
      OneEvent(m2, Out(false));
      LeadsJoin(m, [Pause, Start(true)], m2, [Out(false)], m3);
    } else {
      assert [Pause, Start(true)] + [] == [Pause, Start(true)];
    }
    LeadsJoin(m, [Pause, Start(true)] + (if out then [Out(false)] else []), m3, [In(false, 0)], n);
  }

  lemma {:induction false} Restarts(m: Pipeline, k: nat, out: bool) returns (events: seq<Event>, n: Pipeline)
    requires Flows(m)
    ensures Leads(m, events, n) && Flows(n) && n.packets == m.packets && n.samples == m.samples
    ensures n.track == Restarted(m.track, k, if out then CHUNK * m.packets else 0)
    decreases k
  {
    hide Flows, AfterIn;
    events, n := [], m;
    if k > 0 {
      var mid := OneRestart(m, out);
      var rest;
      rest, n := Restarts(mid, k - 1, out);
      LeadsJoin(m, Restart(out), mid, rest, n);
      events := Restart(out) + rest;
    }
  }

  /** A window just closed, with no baseline above a lead of t. */
  ghost predicate Flushed(t: Track, u: Track) {
    && u.settle == 0 && u.window == [] && u.leadMin == I64_MAX && u.count == 0 && u.captureI == t.captureI
    && u.baseline.Some? && (t.baseline.Some? ==> u.baseline == t.baseline)
    && (t.baseline.None? ==> forall i :: 0 <= i < |t.window| ==> u.baseline.value <= t.window[i])
  }

  predicate Closes(t: Track) {
    t.settle == 0 && |t.window| + 1 == WINDOW
  }

  /** Empty input transfers until the current window closes. */
  lemma {:induction false} Flush(t: Track) returns (k: nat)
    requires Tracks(t)
    ensures Flushed(t, Restarted(t, k, 0))
    decreases t.settle + WINDOW - |t.window|
  {
    hide Flushed, MinLead, Resync;
    var next := AfterIn(t.(captureO := t.captureI + 0), 0, false);
    FlushNext(t);
    if Closes(t) {
      k := 1;
      assert Restarted(next, 0, 0) == next;
    } else {
      var rest := Flush(next);
      FlushedSooner(t, next, Restarted(next, rest, 0));
      k := rest + 1;
    }
  }

  lemma FlushNext(t: Track)
    requires Tracks(t)
    ensures var next := AfterIn(t.(captureO := t.captureI + 0), 0, false);
            if Closes(t) then Flushed(t, next)
            else
              && Tracks(next) && next.captureI == t.captureI && next.baseline == t.baseline
              && t.window <= next.window && next.settle - |next.window| < t.settle - |t.window|
  {
    var w := t.window + [0];
    assert w[..|t.window|] == t.window;
    if Closes(t) && t.baseline.None? {
      forall i | 0 <= i < |t.window|
        ensures MinLead(w) <= t.window[i]
      {
        MinLeadBounds(w, i);
        assert w[i] == t.window[i];
      }
    }
  }

  lemma FlushedSooner(t: Track, next: Track, u: Track)
    requires Flushed(next, u) && next.captureI == t.captureI && next.baseline == t.baseline && t.window <= next.window
    ensures Flushed(t, u)
  {
    forall i | 0 <= i < |t.window|
      ensures t.window[i] == next.window[i]
    {
    }
  }

  /** A whole window of starts that are one output transfer of l samples ahead. */
  lemma {:induction false} AheadFill(t: Track, k: nat, l: nat)
    requires Tracks(t) && t.settle == 0 && t.baseline.Some? && |t.window| + k == WINDOW && l <= I64_MAX
    requires t.window != [] ==> MinLead(t.window) == l
    requires l - t.baseline.value > HALF_CHUNK
    ensures Restarted(t, k, l).captureO == t.captureI + t.baseline.value
    decreases k
  {
    hide MinLead, AfterIn;
    var next := AfterIn(t.(captureO := t.captureI + l), 0, false);
    AheadNext(t, l);
    if k > 1 {
      AheadFill(next, k - 1, l);
    } else {
      assert Restarted(next, 0, l) == next;
    }
  }

  lemma AheadNext(t: Track, l: nat)
    requires Tracks(t) && t.settle == 0 && t.baseline.Some? && l <= I64_MAX
    requires t.window != [] ==> MinLead(t.window) == l
    requires l - t.baseline.value > HALF_CHUNK
    ensures var next := AfterIn(t.(captureO := t.captureI + l), 0, false);
            var w := t.window + [l];
            if |w| < WINDOW then
              && Tracks(next) && next.settle == 0 && next.baseline == t.baseline && next.window == w
              && next.captureI == t.captureI && MinLead(w) == l
            else next.captureO == t.captureI + t.baseline.value
  {
    var w := t.window + [l];
    assert w[..|t.window|] == t.window;
    NoLeads();
  }

  // ---- the exact condition ----

  /** From a running pipeline that is not anchored the counter becomes negative: starts
      with an empty input transfer each until the window closes, and then a window of
      starts with an output transfer and an empty input transfer each. */
  lemma RunningGoesNegative(m: Pipeline) returns (events: seq<Event>)
    requires Legal(m) && m.running && !Anchored(m.track) && CHUNK * m.packets <= I64_MAX
    ensures Feasible(m, events) && NoConfigure(events) && Prompt(events) && Run(m, events).track.captureO < 0
  {
    hide Run, Feasible, Restarted, MinLead, AfterIn, Tracks;
    LegalTracks(m);
    var k := Flush(m.track);
    var first, flushed := Restarts(m, k, false);
    FlushedTracks(m.track, flushed.track);
    var last, n := Restarts(flushed, WINDOW, true);
    AheadFill(flushed.track, WINDOW, CHUNK * m.packets);
    LeadsJoin(m, first, flushed, last, n);
    events := first + last;
  }

  lemma LegalTracks(m: Pipeline)
    requires Legal(m)
    ensures Tracks(m.track) && (m.running ==> Flows(m))
  {
  }

  lemma FlushedTracks(t: Track, u: Track)
    requires Flushed(t, u) && !Anchored(t)
    ensures Tracks(u) && u.captureI + u.baseline.value < 0
  {
    NoLeads();
  }

  lemma InsecureGoesNegative(m: Pipeline) returns (events: seq<Event>)
    requires Legal(m) && !Secure(m) && CHUNK * m.packets <= I64_MAX
    ensures Feasible(m, events) && NoConfigure(events) && Prompt(events) && Run(m, events).track.captureO < 0
  {
    if m.running {
      events := RunningGoesNegative(m);
    } else {
      var started := Apply(m, Start(true));
      OneEvent(m, Start(true));
      var rest := RunningGoesNegative(started);
      LeadsJoin(m, [Start(true)], started, rest, Run(started, rest));
      events := [Start(true)] + rest;
    }
  }

  /** Main theorem: the cast back to an unsigned counter is safe in every run up to the
      next configure exactly when the pipeline is secure: finished, so that the next
      start resets it, or anchored. Stray transfers make no difference before the capture
      is finished. */
  lemma SafeExactlyWhenSecure(m: Pipeline)
    requires Legal(m) && CHUNK * m.packets <= I64_MAX
    ensures Secure(m) <==>
            forall events :: Feasible(m, events) && NoConfigure(events) && Prompt(events) ==>
              Run(m, events).track.captureO >= 0
    ensures !m.done ==>
              (Secure(m) <==>
               forall events :: Feasible(m, events) && NoConfigure(events) ==> Run(m, events).track.captureO >= 0)
  {
    hide Run, Feasible, NoConfigure, Prompt, Legal;
    if Anchored(m.track) {
      forall events | Feasible(m, events) && NoConfigure(events)
        ensures Run(m, events).track.captureO >= 0
      {
        CounterNeverNegative(m, events);
      }
    } else if m.done {
      forall events | Feasible(m, events) && NoConfigure(events) && Prompt(events)
        ensures Run(m, events).track.captureO >= 0
      {
        FinishedNeverNegative(m, events);
      }
    } else {
      var events := InsecureGoesNegative(m);
    }
  }

  /** What to check before a configure: it keeps the guarantee exactly when the capture
      is finished or no lead it leaves behind is negative. */
  lemma ConfigureKeepsSecureIff(m: Pipeline, packets: nat, samples: Option<nat>)
    requires Legal(m) && Secure(m) && packets > 0 && samples != Some(0)
    ensures Legal(Apply(m, Configure(packets, samples)))
    ensures Secure(Apply(m, Configure(packets, samples))) <==>
            || m.done
            || if m.track.baseline.Some? then m.track.baseline.value >= 0
               else forall i :: 0 <= i < |m.track.window| ==> m.track.window[i] >= 0
  {
  }

  // ---- a run with full transfers ----

  /** k turns of an optional OUT transfer followed by an IN transfer of one chunk. */
  function Turns(k: nat, out: bool): seq<Event> {
    if k == 0 then [] else (if out then [Out(false)] else []) + [In(false, 1)] + Turns(k - 1, out)
  }

  /** What they do to the tracker: the counters advance by o and i each turn. */
  function Turned(t: Track, k: nat, o: nat, i: nat): Track
    decreases k
  {
    if k == 0 then t else Turned(AfterIn(t.(captureO := t.captureO + o), i, false), k - 1, o, i)
  }

  /** A continuous capture of one packet per transfer that is running. */
  predicate Streams(m: Pipeline) {
    m.samples.None? && m.packets == 1 && m.running && m.claimed && !m.done
  }

  lemma {:induction false} TurnsLead(m: Pipeline, k: nat, out: bool) returns (n: Pipeline)
    requires Streams(m)
    ensures Streams(n) && Leads(m, Turns(k, out), n)
    ensures n.track == Turned(m.track, k, if out then CHUNK else 0, CHUNK)
    decreases k
  {
    n := m;
    if k > 0 {
      var first := (if out then [Out(false)] else []) + [In(false, 1)];
      var mid := FirstTurn(m, out);
      n := TurnsLead(mid, k - 1, out);
      LeadsJoin(m, first, mid, Turns(k - 1, out), n);
    }
  }

  lemma FirstTurn(m: Pipeline, out: bool) returns (n: Pipeline)
    requires Streams(m)
    ensures Streams(n) && Leads(m, (if out then [Out(false)] else []) + [In(false, 1)], n)
    ensures n.track == AfterIn(m.track.(captureO := m.track.captureO + if out then CHUNK else 0), CHUNK, false)
  {
    hide AfterIn, Feasible, Run;
    if out {
      var sent := Apply(m, Out(false));
      n := Apply(sent, In(false, 1));
      OneEvent(m, Out(false));
      OneEvent(sent, In(false, 1));
      LeadsJoin(m, [Out(false)], sent, [In(false, 1)], n);
    } else {
      n := Apply(m, In(false, 1));
      OneEvent(m, In(false, 1));
      assert [] + [In(false, 1)] == [In(false, 1)];
      assert m.track.(captureO := m.track.captureO + 0) == m.track;
    }
  }

  lemma {:induction false} Settles(t: Track, k: nat, i: nat)
    requires k <= t.settle
    ensures Turned(t, k, 0, i) == t.(settle := t.settle - k, captureI := t.captureI + k * i)
    decreases k
  {
    if k > 0 {
      Settles(AfterIn(t, i, false), k - 1, i);
      assert k * i == i + (k - 1) * i;
    }
  }

  /** A window of equal leads, filled by turns that advance both counters by c. */
  lemma {:induction false} LevelFill(t: Track, k: nat, c: nat)
    requires Tracks(t) && t.settle == 0 && t.baseline.Some? && |t.window| + k == WINDOW
    requires t.captureO - t.captureI <= I64_MAX && (t.window != [] ==> MinLead(t.window) == t.captureO - t.captureI)
    ensures var u := Turned(t, k, c, c);
            var drift := t.captureO - t.captureI - t.baseline.value;
            u.captureO == t.captureO + k * c - if drift > HALF_CHUNK || drift < -HALF_CHUNK then drift else 0
    decreases k
  {
    hide MinLead, AfterIn;
    var next := AfterIn(t.(captureO := t.captureO + c), c, false);
    LevelNext(t, c);
    assert k * c == c + (k - 1) * c;
    if k > 1 {
      LevelFill(next, k - 1, c);
    } else {
      assert Turned(next, 0, c, c) == next;
    }
  }

  lemma LevelNext(t: Track, c: nat)
    requires Tracks(t) && t.settle == 0 && t.baseline.Some?
    requires t.captureO - t.captureI <= I64_MAX && (t.window != [] ==> MinLead(t.window) == t.captureO - t.captureI)
    ensures var next := AfterIn(t.(captureO := t.captureO + c), c, false);
            var w := t.window + [t.captureO - t.captureI];
            var drift := t.captureO - t.captureI - t.baseline.value;
            if |w| < WINDOW then
              && Tracks(next) && next.settle == 0 && next.baseline == t.baseline && next.window == w
              && next.captureO == t.captureO + c && next.captureI == t.captureI + c
              && MinLead(w) == t.captureO - t.captureI
            else next.captureO == t.captureO + c - if drift > HALF_CHUNK || drift < -HALF_CHUNK then drift else 0
  {
    var w := t.window + [t.captureO - t.captureI];
    assert w[..|t.window|] == t.window;
  }

  /** A first window filled while only input advances, by c each turn: the last lead is
      the smallest, and becomes the baseline. */
  lemma {:induction false} StallFill(t: Track, k: nat, c: nat)
    requires Tracks(t) && t.settle == 0 && t.baseline.None? && |t.window| + k == WINDOW && c > 0
    requires t.captureO - t.captureI <= MinLead(t.window)
    ensures Turned(t, k, 0, c) ==
            t.(captureI := t.captureI + k * c, baseline := Some(t.captureO - t.captureI - k * c),
               window := [], count := 0, leadMin := I64_MAX)
    decreases k
  {
    hide MinLead, AfterIn;
    var next := AfterIn(t, c, false);
    StallNext(t, c);
    assert t.(captureO := t.captureO + 0) == t;
    assert k * c == c + (k - 1) * c;
    if k > 1 {
      StallFill(next, k - 1, c);
    } else {
      assert Turned(next, 0, 0, c) == next;
    }
  }

  lemma StallNext(t: Track, c: nat)
    requires Tracks(t) && t.settle == 0 && t.baseline.None? && c > 0
    requires t.captureO - t.captureI <= MinLead(t.window)
    ensures var next := AfterIn(t, c, false);
            var lead := t.captureO - t.captureI - c;
            var w := t.window + [lead];
            if |w| < WINDOW then
              && Tracks(next) && MinLead(w) == lead
              && next == t.(captureI := t.captureI + c, window := w, count := t.count + 1, leadMin := lead)
            else
              next == t.(captureI := t.captureI + c, baseline := Some(lead),
                         window := [], count := 0, leadMin := I64_MAX)
  {
    var w := t.window + [t.captureO - t.captureI - c];
    assert w[..|t.window|] == t.window;
  }

  const STALL: nat := SETTLE + WINDOW

  ghost predicate OnlyFull(events: seq<Event>) {
    forall e :: e in events ==> !(e.In? && e.late) && !(e.Out? && e.late) && (e.In? ==> e.chunks == 1)
  }

  lemma {:induction false} TurnsFull(k: nat, out: bool)
    ensures OnlyFull(Turns(k, out))
  {
    if k > 0 {
      TurnsFull(k - 1, out);
    }
  }

  function Created(): Pipeline {
    Pipeline(1, None, false, false, false, 0, 0, 0, 0, Fresh())
  }

  /** A run of full transfers of a continuous capture, one packet each, that does it: two
      output transfers are queued and then the output stalls for 80 input transfers; after
      a configure, 64 transfers in step drive the counter to -3584. */
  lemma StaleBaselineGoesNegative() returns (events: seq<Event>)
    ensures Feasible(Created(), events) && OnlyFull(events)
    ensures Run(Created(), events).track.captureO == -3584
  {
    hide Run, Feasible, Turned, Turns, MinLead, AfterIn, Fresh;
    var m1, before := StalledPipeline();
    var m2 := Apply(m1, Configure(1, None));
    var m3 := Apply(m2, Start(true));
    var m4 := Apply(m3, Out(false));
    OneEvent(m2, Start(true));
    OneEvent(m3, Out(false));
    NoLeads();
    LevelFill(m4.track, WINDOW, CHUNK);
    var m5 := TurnsLead(m4, WINDOW, true);
    TurnsFull(WINDOW, true);
    var after := [Start(true)] + ([Out(false)] + Turns(WINDOW, true));
    LeadsJoin(m3, [Out(false)], m4, Turns(WINDOW, true), m5);
    LeadsJoin(m2, [Start(true)], m3, [Out(false)] + Turns(WINDOW, true), m5);
    ThenConfigure(m1, Configure(1, None), after);
    RunJoin(Created(), before, [Configure(1, None)] + after);
    events := before + ([Configure(1, None)] + after);
  }

  lemma ThenConfigure(m: Pipeline, e: Event, rest: seq<Event>)
    requires Enabled(m, e) && Feasible(Apply(m, e), rest)
    ensures Feasible(m, [e] + rest) && Run(m, [e] + rest) == Run(Apply(m, e), rest)
  {
    assert ([e] + rest)[1..] == rest;
  }

  lemma StalledPipeline() returns (m: Pipeline, events: seq<Event>)
    ensures Leads(Created(), events, m) && OnlyFull(events) && Streams(m)
    ensures m.track == Track(CHUNK * STALL, 2 * CHUNK, Some(2 * CHUNK - CHUNK * STALL), I64_MAX, 0, 0, [])
  {
    hide Run, Feasible, Turned, Turns, MinLead, AfterIn;
    var m0 := Created();
    var m1 := Apply(m0, Start(true));
    var m2 := Apply(m1, Out(false));
    var m3 := Apply(m2, Out(false));
    OneEvent(m0, Start(true));
    OneEvent(m1, Out(false));
    OneEvent(m2, Out(false));
    NoLeads();
    Settles(m3.track, SETTLE, CHUNK);
    var m4 := TurnsLead(m3, SETTLE, false);
    StallFill(m4.track, WINDOW, CHUNK);
    m := TurnsLead(m4, WINDOW, false);
    TurnsFull(SETTLE, false);
    TurnsFull(WINDOW, false);
    var stall := Turns(SETTLE, false) + Turns(WINDOW, false);
    LeadsJoin(m3, Turns(SETTLE, false), m4, Turns(WINDOW, false), m);
    LeadsJoin(m2, [Out(false)], m3, stall, m);
    LeadsJoin(m1, [Out(false)], m2, [Out(false)] + stall, m);
    LeadsJoin(m0, [Start(true)], m1, [Out(false)] + ([Out(false)] + stall), m);
    events := [Start(true)] + ([Out(false)] + ([Out(false)] + stall));
  }

  // ---- finite captures ----

  /** Nothing but transfers of the running pipeline. */
  predicate Transfers(events: seq<Event>) {
    forall i :: 0 <= i < |events| ==> (events[i].In? || events[i].Out?) && !events[i].late
  }

  /** A finite capture that starts at sample zero and is longer than one transfer. */
  predicate Long(m: Pipeline) {
    && m.running && m.claimed && !m.done && m.samples.Some? && m.packets * CHUNK < m.samples.value
    && m.track.captureI <= m.received * (m.packets * CHUNK)
  }

  lemma {:induction false} LongNeverCompletes(m: Pipeline, events: seq<Event>)
    requires Long(m) && Feasible(m, events) && Transfers(events)
    ensures !Run(m, events).done
    decreases |events|
  {
    if events != [] {
      LongStays(m, events[0]);
      LongNeverCompletes(Apply(m, events[0]), events[1..]);
    }
  }

  lemma LongStays(m: Pipeline, e: Event)
    requires Long(m) && Enabled(m, e) && (e.In? || e.Out?) && !e.late
    ensures Long(Apply(m, e))
  {
    if e.In? {
      hide AfterIn;
      var t := m.packets * CHUNK;
      InCounter(m.track, CHUNK * e.chunks, false);
      assert (m.received + 1) * t == m.received * t + t;
      assert CHUNK * e.chunks <= t;
    }
  }

  /** Main theorem: the transfers of one start of an M1K complete a finite capture from
      sample zero if and only if it fits into a single transfer. The input task stops as
      soon as the submitted transfers cover the capture, and leaves the last one behind. */
  lemma FiniteCompletesExactly(m: Pipeline)
    requires Legal(m) && m.running && m.claimed && m.samples.Some? && m.received == 0 && m.track.captureI == 0
    ensures m.samples.value <= m.packets * CHUNK <==>
            exists events :: Feasible(m, events) && Transfers(events) && Run(m, events).done
  {
    hide Run, Feasible, Transfers, AfterIn;
    if m.samples.value <= m.packets * CHUNK {
      var e := In(false, m.packets);
      OneEvent(m, e);
      assert Apply(m, e).done;
      OneTransfer(e);
      assert Feasible(m, [e]) && Transfers([e]) && Run(m, [e]).done;
    } else {
      forall events | Feasible(m, events) && Transfers(events)
        ensures !Run(m, events).done
      {
        LongNeverCompletes(m, events);
      }
    }
  }

  lemma OneTransfer(e: Event)
    requires e.In? && !e.late
    ensures Transfers([e])
  {
  }
}
