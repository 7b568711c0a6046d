/** M1K output/input stream resync (src/usb/m1k.rs): the output counter is re-anchored
    when the minimum lead over a window of IN transfers drifts from its baseline. */
module LeadResync {
  import opened Common

  const I64_MAX: int := 0x7fff_ffff_ffff_ffff
  const HALF_CHUNK: int := 128
  const WINDOW: nat := 64
  const SETTLE: nat := 16

  /** The smallest of the leads, or the sentinel for none. */
  function MinLead(window: seq<int>): int {
    if window == [] then I64_MAX else Min(MinLead(window[..|window| - 1]), window[|window| - 1])
  }

  lemma NoLeads()
    ensures MinLead([]) == I64_MAX
  {
  }

  lemma {:induction false} MinLeadBounds(window: seq<int>, i: nat)
    requires i < |window|
    ensures MinLead(window) <= window[i]
  {
    if i < |window| - 1 {
      MinLeadBounds(window[..|window| - 1], i);
    }
  }

  /** The minimum is one of the leads; the sentinel is above every lead. */
  lemma {:induction false} MinLeadIsLead(window: seq<int>)
    requires window != [] && forall i :: 0 <= i < |window| ==> window[i] <= I64_MAX
    ensures MinLead(window) in window
  {
    var last := |window| - 1;
    if last > 0 {
      MinLeadIsLead(window[..last]);
    }
    assert window == window[..last] + [window[last]];
  }

  function Shifted(window: seq<int>, d: int): (r: seq<int>)
    ensures |r| == |window| && forall i :: 0 <= i < |r| ==> r[i] == window[i] - d
  {
    seq(|window|, i requires 0 <= i < |window| => window[i] - d)
  }

  lemma {:induction false} MinLeadShifts(window: seq<int>, d: int)
    requires window != [] && forall i :: 0 <= i < |window| ==> window[i] <= I64_MAX && window[i] - d <= I64_MAX
    ensures MinLead(Shifted(window, d)) == MinLead(window) - d
  {
    var last := |window| - 1;
    assert Shifted(window, d)[..last] == Shifted(window[..last], d);
    if last > 0 {
      MinLeadShifts(window[..last], d);
    }
  }

  /** The counters and the tracker; `window` is the leads of the current window. */
  datatype Track = Track(captureI: int, captureO: int, baseline: Option<int>, leadMin: int,
                         count: nat, settle: nat, window: seq<int>)

  function Fresh(): Track {
    Track(0, 0, None, I64_MAX, 0, SETTLE, [])
  }

  ghost predicate Tracks(t: Track) {
    t.leadMin == MinLead(t.window) && t.count == |t.window| < WINDOW
  }

  /** What one IN transfer does to the tracker and the output counter. */
  function Resync(t: Track): Track {
    var lead := t.captureO - t.captureI;
    if t.settle > 0 then t.(settle := t.settle - 1)
    else
      var window := t.window + [lead];
      if |window| < WINDOW then
        t.(window := window, count := t.count + 1, leadMin := MinLead(window))
      else
        var drift := if t.baseline.Some? then MinLead(window) - t.baseline.value else 0;
        t.(window := [], count := 0, leadMin := I64_MAX,
           baseline := if t.baseline.Some? then t.baseline else Some(MinLead(window)),
           captureO := if drift > HALF_CHUNK || drift < -HALF_CHUNK then t.captureO - drift else t.captureO)
  }

  /** The tracker as the backend keeps it. */
  class LeadTracker {
    var baseline: Option<int>
    var leadMin: int
    var leadCount: nat
    var leadSettle: nat
    ghost var window: seq<int>

    ghost function State(captureI: int, captureO: int): Track
      reads this
    {
      Track(captureI, captureO, baseline, leadMin, leadCount, leadSettle, window)
    }

    constructor ()
      ensures State(0, 0) == Fresh()
    {
      baseline, leadMin, leadCount, leadSettle, window := None, I64_MAX, 0, SETTLE, [];
    }

    method OnResetCapture()
      modifies this
      ensures State(0, 0) == Fresh()
    {
      baseline, leadMin, leadCount, leadSettle, window := None, I64_MAX, 0, SETTLE, [];
    }

    method AfterInTransfer(captureI: int, captureO: int) returns (newO: int)
      requires Tracks(State(captureI, captureO))
      modifies this
      ensures State(captureI, newO) == Resync(old(State(captureI, captureO)))
      ensures Tracks(State(captureI, newO))
    {
      var lead := captureO - captureI;
      var adjust := 0;
      if leadSettle > 0 {
        leadSettle := leadSettle - 1;
      } else {
        assert (window + [lead])[..|window|] == window;
        window := window + [lead];
        if lead < leadMin {
          leadMin := lead;
        }
        leadCount := leadCount + 1;
        if leadCount >= WINDOW {
          if baseline.None? {
            baseline := Some(leadMin);
          } else {
            var drift := leadMin - baseline.value;
            if drift > HALF_CHUNK || -drift > HALF_CHUNK {
              adjust := drift;
            }
          }
          leadMin, leadCount, window := I64_MAX, 0, [];
        }
      }
      newO := if adjust != 0 then captureO - adjust else captureO;
    }
  }

  /** The output counter moves only when a window closes with a drift of more than half
      a chunk, and then the leads of that window, shifted by the correction, have the
      baseline as their minimum: seen again they would cause no further change. Nothing
      else moves a counter, and a baseline stays. */
  lemma CorrectionIsExact(t: Track)
    requires Tracks(t)
    ensures var w := t.window + [t.captureO - t.captureI];
            var closes := t.settle == 0 && |w| == WINDOW && t.baseline.Some?;
            var drift := if t.baseline.Some? then MinLead(w) - t.baseline.value else 0;
            && Tracks(Resync(t)) && Resync(t).captureI == t.captureI
            && (t.baseline.Some? ==> Resync(t).baseline == t.baseline)
            && (Resync(t).captureO != t.captureO <==> closes && (drift > HALF_CHUNK || drift < -HALF_CHUNK))
            && (Resync(t).captureO != t.captureO ==>
                  Resync(t).captureO == t.captureO - drift
                  && ((forall i :: 0 <= i < |w| ==> w[i] <= I64_MAX && w[i] - drift <= I64_MAX) ==>
                        MinLead(Shifted(w, drift)) == t.baseline.value))
  {
    var w := t.window + [t.captureO - t.captureI];
    assert w[..|t.window|] == t.window;
    var drift := if t.baseline.Some? then MinLead(w) - t.baseline.value else 0;
    if forall i :: 0 <= i < |w| ==> w[i] <= I64_MAX && w[i] - drift <= I64_MAX {
      MinLeadShifts(w, drift);
    }
  }

  // ---- the leads of a whole run ----

  /** The tracker after IN transfers that found these leads. */
  function Fed(t: Track, leads: seq<int>): Track {
    if leads == [] then t
    else
      var before := Fed(t, leads[..|leads| - 1]);
      Resync(before.(captureO := before.captureI + leads[|leads| - 1]))
  }

  /** The first leads settle; then every lead belongs to one window; the first complete
      window gives the baseline, for good. */
  ghost predicate Windowed(t: Track, leads: seq<int>) {
    var k := |leads| - SETTLE;
    && Tracks(t) && t.settle == Max(0, -k)
    && t.window == leads[|leads| - (if k > 0 then k % WINDOW else 0)..]
    && t.baseline == if k >= WINDOW then Some(MinLead(leads[SETTLE..SETTLE + WINDOW])) else None
  }

  lemma {:induction false} FedWindows(leads: seq<int>)
    ensures Windowed(Fed(Fresh(), leads), leads)
  {
    hide MinLead;
    if leads == [] {
      NoLeads();
    } else {
      var before, lead := leads[..|leads| - 1], leads[|leads| - 1];
      FedWindows(before);
      var t := Fed(Fresh(), before);
      WindowStep(t.(captureO := t.captureI + lead), before, lead);
      assert leads == before + [lead];
    }
  }

  lemma WindowStep(t: Track, before: seq<int>, lead: int)
    requires Windowed(t, before) && t.captureO - t.captureI == lead
    ensures Windowed(Resync(t), before + [lead])
  {
    hide MinLead;
    NoLeads();
    var leads, k := before + [lead], |before| - SETTLE;
    if k >= 0 {
      var from := |before| - k % WINDOW;
      assert leads[from..] == before[from..] + [lead];
      if k >= WINDOW {
        assert leads[SETTLE..SETTLE + WINDOW] == before[SETTLE..SETTLE + WINDOW];
      } else if k == WINDOW - 1 {
        assert leads[from..] == leads[SETTLE..SETTLE + WINDOW];
      }
    }
  }

  /** Over a whole run the counter is corrected exactly after every 64th transfer past the
      settled ones whose window has a minimum more than half a chunk off that of the first
      window, and then by the difference. */
  lemma CorrectedOncePerWindow(before: seq<int>, lead: int)
    ensures var t := Fed(Fresh(), before).(captureO := Fed(Fresh(), before).captureI + lead);
            var leads, k := before + [lead], |before| + 1 - SETTLE;
            Resync(t).captureO == t.captureO -
              if k > WINDOW && k % WINDOW == 0 then
                var drift := MinLead(leads[|leads| - WINDOW..]) - MinLead(leads[SETTLE..SETTLE + WINDOW]);
                if -HALF_CHUNK <= drift <= HALF_CHUNK then 0 else drift
              else 0
  {
    hide MinLead, Fed, Resync;
    FedWindows(before);
    var t := Fed(Fresh(), before);
    CorrectedWhen(t.(captureO := t.captureI + lead), before, lead);
  }

  lemma CorrectedWhen(t: Track, before: seq<int>, lead: int)
    requires Windowed(t, before) && t.captureO - t.captureI == lead
    ensures var leads, k := before + [lead], |before| + 1 - SETTLE;
            Resync(t).captureO == t.captureO -
              if k > WINDOW && k % WINDOW == 0 then
                var drift := MinLead(leads[|leads| - WINDOW..]) - MinLead(leads[SETTLE..SETTLE + WINDOW]);
                if -HALF_CHUNK <= drift <= HALF_CHUNK then 0 else drift
              else 0
  {
    hide MinLead;
    var leads, k := before + [lead], |before| + 1 - SETTLE;
    if k > 0 {
      assert t.window + [lead] == leads[|leads| - |t.window| - 1..];
    }
    if k > WINDOW {
      assert leads[SETTLE..SETTLE + WINDOW] == before[SETTLE..SETTLE + WINDOW];
    }
  }

  /** Counters are not negative. */
  ghost predicate Counting(t: Track) {
    Tracks(t) && t.captureI >= 0 && t.captureO >= 0
  }

  /** Neither is the baseline added back to the input counter, nor, before there is
      one, any lead that may become it. */
  ghost predicate Anchored(t: Track) {
    if t.baseline.Some? then t.captureI + t.baseline.value >= 0
    else forall i :: 0 <= i < |t.window| ==> t.captureI + t.window[i] >= 0
  }

  ghost predicate Sound(t: Track) {
    Counting(t) && Anchored(t)
  }

  lemma {:induction false} MinLeadSound(window: seq<int>, captureI: int)
    requires captureI >= 0 && forall i :: 0 <= i < |window| ==> captureI + window[i] >= 0
    ensures captureI + MinLead(window) >= 0
  {
    if window != [] {
      MinLeadSound(window[..|window| - 1], captureI);
    }
  }

  lemma ResyncSound(t: Track)
    requires Sound(t)
    ensures Sound(Resync(t))
  {
    hide MinLead;
    var w := t.window + [t.captureO - t.captureI];
    NoLeads();
    if t.baseline.None? {
      MinLeadSound(w, t.captureI);
    }
    MinLeadBounds(w, |w| - 1);
  }

  lemma SoundTracks(t: Track)
    requires Sound(t)
    ensures Tracks(t) && forall i, o :: Tracks(t.(captureI := i, captureO := o))
  {
  }

  lemma FreshSound()
    ensures Sound(Fresh())
  {
  }

  /** One IN transfer that collects n samples; one that ends a finite capture pauses it,
      which aligns the counters before the lead is taken. */
  function AfterIn(t: Track, n: nat, ends: bool): Track {
    var i := t.captureI + n;
    Resync(t.(captureI := i, captureO := if ends then i else t.captureO))
  }

  lemma SoundAfterIn(t: Track, n: nat, ends: bool)
    requires Sound(t)
    ensures Sound(AfterIn(t, n, ends)) && AfterIn(t, n, ends).captureO >= 0
  {
    hide Resync, MinLead;
    ResyncSound(t.(captureI := t.captureI + n, captureO := if ends then t.captureI + n else t.captureO));
  }
}
