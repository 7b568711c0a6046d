/** The sample ring buffer of a streaming device (src/streaming.rs): one circular
    buffer per stream, all indexed by the shared capture counter.

    The ghost `history` of a stream is every sample offered to it since the last
    reset. What the buffer shows a reader is stated against that history. */
module RingBuffer {
  import opened Common
  import opened Samples
  import opened Sources

  /** The availability test: collected, and not (about to be) overwritten. */
  predicate Readable(captureI: nat, caps: nat, i: nat) {
    caps > 0 && i < captureI && !(captureI > caps && i <= captureI - caps)
  }

  /** Which collected sample the slot of index i shows. A one-shot capture stops
      storing once the buffer is full, so an overshoot index shows the sample
      stored `caps` (or a multiple of it) earlier. */
  function StoredIndex(continuous: bool, caps: nat, i: nat): (j: nat)
    requires caps > 0
    ensures j <= i
    ensures continuous || i < caps ==> j == i
    ensures !continuous ==> j < caps && j % caps == i % caps
  {
    if continuous || i < caps then i else i % caps
  }

  /** What one reader sees of a device: every collected sample, with NaN where it
      can no longer be read. */
  datatype View = View(captureI: nat, captureO: nat, streams: seq<seq<seq<Sample>>>,
                       sources: seq<Option<SourceKind>>)
  {
    ghost predicate Valid() {
      forall c, s :: Has(c, s) ==> |streams[c][s]| == captureI
    }

    predicate Has(c: int, s: int) {
      0 <= c < |streams| && 0 <= s < |streams[c]|
    }

    function Get(c: nat, s: nat, i: nat): Sample
      requires Has(c, s)
    {
      if i < |streams[c][s]| then streams[c][s][i] else NaN
    }

    function Resample(c: nat, s: nat, start: nat, count: nat): Sample
      requires Has(c, s)
    {
      if start + count <= |streams[c][s]| then Mean(streams[c][s][start..start + count]) else NaN
    }
  }

  /** The samples a reader sees of a history in a continuous capture. */
  function Seen(history: seq<Sample>, caps: nat, captureI: nat): (r: seq<Sample>)
    requires captureI <= |history|
    ensures |r| == captureI
    ensures forall i :: 0 <= i < captureI ==> r[i] == if Readable(captureI, caps, i) then history[i] else NaN
  {
    seq(captureI, i requires 0 <= i < captureI => if Readable(captureI, caps, i) then history[i] else NaN)
  }

  /** One stream's buffer agrees with its history. With a sample pending (put but
      not yet counted) the oldest slot of a full continuous ring is already reused. */
  ghost predicate Agrees(data: seq<Sample>, history: seq<Sample>, pending: Option<Sample>,
                         captureI: nat, caps: nat, continuous: bool)
  {
    && |data| == caps
    && |history| == captureI
    && (forall i ::
          0 <= i < captureI
          && (if continuous then captureI - caps + (if pending.Some? then 1 else 0) <= i else i < caps)
          ==> data[i % caps] == history[i])
    && (pending.Some? && caps > 0 && (continuous || captureI < caps) ==> data[captureI % caps] == pending.value)
  }

  lemma AgreesFresh(data: seq<Sample>, caps: nat, continuous: bool)
    requires |data| == caps
    ensures Agrees(data, [], None, 0, caps, continuous)
  {
  }

  lemma AgreesPut(data: seq<Sample>, history: seq<Sample>, pending: Option<Sample>,
                  captureI: nat, caps: nat, continuous: bool, v: Sample)
    requires Agrees(data, history, pending, captureI, caps, continuous)
    ensures caps > 0 && (continuous || captureI < caps) ==>
              Agrees(data[captureI % caps := v], history, Some(v), captureI, caps, continuous)
    ensures !(caps > 0 && (continuous || captureI < caps)) ==>
              Agrees(data, history, Some(v), captureI, caps, continuous)
  {
    if caps > 0 && (continuous || captureI < caps) {
      forall i | 0 <= i < captureI && (if continuous then captureI - caps + 1 <= i else i < caps)
        ensures data[captureI % caps := v][i % caps] == history[i]
      {
        SlotsDiffer(i, captureI, caps);
      }
    }
  }

  lemma AgreesDone(data: seq<Sample>, history: seq<Sample>, pending: Option<Sample>,
                   captureI: nat, caps: nat, continuous: bool)
    requires Agrees(data, history, pending, captureI, caps, continuous) && pending.Some?
    ensures Agrees(data, history + [pending.value], None, captureI + 1, caps, continuous)
  {
  }

  /** The reading rule holds of any buffer that agrees with its history, in every
      mode and at every moment, with one exception: between `put` and
      `sample_done` at the moment the ring first fills, index 0 already shows the
      new sample. */
  lemma ReadExact(data: seq<Sample>, history: seq<Sample>, pending: Option<Sample>,
                  captureI: nat, caps: nat, continuous: bool, i: nat)
    requires Agrees(data, history, pending, captureI, caps, continuous)
    requires Readable(captureI, caps, i)
    ensures data[i % caps] ==
            if continuous && pending.Some? && captureI == caps && i == 0 then pending.value
            else history[StoredIndex(continuous, caps, i)]
  {
    var j := StoredIndex(continuous, caps, i);
    if continuous && pending.Some? && captureI == caps && i == 0 {
      DivModUnique(captureI, caps, 1, 0);
    } else if !continuous {
      assert data[j % caps] == history[j];
    }
  }

  /** The same value for every stream of a device. */
  ghost function ForEachStream<T, U>(shape: seq<seq<U>>, x: T): (r: seq<seq<T>>)
    ensures |r| == |shape|
    ensures forall c :: 0 <= c < |shape| ==> |r[c]| == |shape[c]|
    ensures forall c, s :: 0 <= c < |shape| && 0 <= s < |shape[c]| ==> r[c][s] == x
  {
    seq(|shape|, c requires 0 <= c < |shape| => seq(|shape[c]|, _ => x))
  }

  /** Every history extended by the sample pending for its stream. */
  ghost function Committed(history: seq<seq<seq<Sample>>>,
                           pending: seq<seq<Option<Sample>>>): (r: seq<seq<seq<Sample>>>)
    requires |history| == |pending|
    requires forall c :: 0 <= c < |history| ==> |history[c]| == |pending[c]|
    requires forall c, s :: 0 <= c < |history| && 0 <= s < |history[c]| ==> pending[c][s].Some?
    ensures |r| == |history|
    ensures forall c :: 0 <= c < |history| ==> |r[c]| == |history[c]|
    ensures forall c, s :: 0 <= c < |history| && 0 <= s < |history[c]| ==>
              r[c][s] == history[c][s] + [pending[c][s].value]
  {
    seq(|history|, c requires 0 <= c < |history| =>
      seq(|history[c]|, s requires 0 <= s < |history[c]| => history[c][s] + [pending[c][s].value]))
  }

  /** No two streams share a buffer. */
  ghost predicate Distinct(b: seq<seq<array<Sample>>>) {
    forall c, s, c', s' ::
      (0 <= c < |b| && 0 <= s < |b[c]| && 0 <= c' < |b| && 0 <= s' < |b[c']| && b[c][s] == b[c'][s'])
      ==> c == c' && s == s'
  }

  ghost function Arrays(b: seq<seq<array<Sample>>>): (r: set<object>)
    ensures forall c, s :: 0 <= c < |b| && 0 <= s < |b[c]| ==> b[c][s] in r
    ensures forall o :: o in r ==> exists c, s :: 0 <= c < |b| && 0 <= s < |b[c]| && b[c][s] == o
  {
    set c, s | 0 <= c < |b| && 0 <= s < |b[c]| :: b[c][s]
  }

  class Device {
    /** raw sample rings, by channel and stream */
    var buffers: seq<seq<array<Sample>>>
    var sources: seq<Option<SourceKind>>
    var captureI: nat
    var captureO: nat
    var captureSamples: nat
    var captureContinuous: bool

    ghost var history: seq<seq<seq<Sample>>>
    ghost var pending: seq<seq<Option<Sample>>>
    ghost var Repr: set<object>

    predicate Has(c: int, s: int)
      reads this
    {
      0 <= c < |buffers| && 0 <= s < |buffers[c]|
    }

    ghost predicate Shape()
      reads this
    {
      && |history| == |pending| == |buffers|
      && (forall c :: 0 <= c < |buffers| ==> |history[c]| == |pending[c]| == |buffers[c]|)
      && this in Repr
      && (forall c, s :: Has(c, s) ==> buffers[c][s] in Repr)
      && Distinct(buffers)
    }

    ghost predicate Valid()
      reads this, Repr
    {
      && Shape()
      && (forall c, s :: Has(c, s) ==>
            Agrees(buffers[c][s][..], history[c][s], pending[c][s], captureI, captureSamples, captureContinuous))
    }

    /** every stream has been given its sample for the current index */
    ghost predicate AllPut()
      requires Shape()
      reads this
    {
      forall c, s :: Has(c, s) ==> pending[c][s].Some?
    }

    /** no sample is half-way in: the state between samples */
    ghost predicate Settled()
      requires Shape()
      reads this
    {
      forall c, s :: Has(c, s) ==> pending[c][s].None?
    }

    /** Two channels of two streams, freshly allocated; counters at zero. */
    method Configure(samples: nat, continuous: bool)
      modifies this
      ensures Valid() && Settled() && fresh(Repr - {this})
      ensures captureSamples == samples && captureContinuous == continuous
      ensures captureI == 0 && captureO == 0
      ensures |buffers| == 2 && |buffers[0]| == 2 && |buffers[1]| == 2
      ensures forall c, s :: Has(c, s) ==> history[c][s] == []
      ensures sources == [Some(Constant(0.0)), Some(Constant(0.0))]
    {
      var b := AllocateChannels(samples);
      Install(b, samples, continuous);
      sources := [Some(Constant(0.0)), Some(Constant(0.0))];
    }

    /** Start from empty buffers of the given size. */
    method Install(b: seq<seq<array<Sample>>>, samples: nat, continuous: bool)
      requires Distinct(b)
      requires forall c, s :: 0 <= c < |b| && 0 <= s < |b[c]| ==> b[c][s].Length == samples
      modifies this
      ensures Valid() && Settled() && buffers == b
      ensures Repr == {this} + Arrays(b)
      ensures captureSamples == samples && captureContinuous == continuous && captureI == 0 && captureO == 0
      ensures forall c, s :: Has(c, s) ==> history[c][s] == []
    {
      hide Agrees, Distinct, Arrays;
      buffers := b;
      captureSamples, captureContinuous, captureI, captureO := samples, continuous, 0, 0;
      history, pending := ForEachStream(b, []), ForEachStream(b, None);
      Repr := {this} + Arrays(b);
      forall c, s | Has(c, s)
        ensures buffers[c][s] in Repr
        ensures Agrees(buffers[c][s][..], history[c][s], pending[c][s], captureI, captureSamples, captureContinuous)
      {
        AgreesFresh(b[c][s][..], samples, continuous);
      }
    }

    /** Channels "a" and "b", each with a voltage and a current stream. */
    static method AllocateChannels(size: nat) returns (r: seq<seq<array<Sample>>>)
      ensures |r| == 2 && |r[0]| == 2 && |r[1]| == 2
      ensures forall c, s :: 0 <= c < |r| && 0 <= s < |r[c]| ==> fresh(r[c][s]) && r[c][s].Length == size
      ensures Distinct(r)
    {
      var av := new Sample[size](_ => Num(0.0));
      var ai := new Sample[size](_ => Num(0.0));
      var bv := new Sample[size](_ => Num(0.0));
      var bi := new Sample[size](_ => Num(0.0));
      r := [[av, ai], [bv, bi]];
    }

    /** Store a sample at the current index; ignored when a one-shot capture is full. */
    method Put(c: nat, s: nat, v: Sample)
      requires Valid() && Has(c, s)
      modifies this`pending, buffers[c][s]
      ensures Valid()
      ensures pending == old(pending)[c := old(pending)[c][s := Some(v)]]
      ensures buffers[c][s][..] ==
              if captureSamples == 0 || (captureI >= captureSamples && !captureContinuous) then old(buffers[c][s][..])
              else old(buffers[c][s][..])[captureI % captureSamples := v]
    {
      ghost var before := buffers[c][s][..];
      AgreesPut(before, history[c][s], pending[c][s], captureI, captureSamples, captureContinuous, v);
      pending := pending[c := pending[c][s := Some(v)]];
      if buffers[c][s].Length == 0 || captureSamples == 0 || (captureI >= captureSamples && !captureContinuous) {
        return;
      }
      buffers[c][s][captureI % captureSamples] := v;
      assert buffers[c][s][..] == before[captureI % captureSamples := v];
    }

    /** Commit the sample put to every stream and move to the next index. */
    method SampleDone()
      requires Valid() && AllPut()
      modifies this`captureI, this`history, this`pending
      ensures Valid() && Settled()
      ensures captureI == old(captureI) + 1
      ensures forall c, s :: Has(c, s) ==> history[c][s] == old(history[c][s]) + [old(pending[c][s]).value]
    {
      forall c, s | Has(c, s)
        ensures Agrees(buffers[c][s][..], history[c][s] + [pending[c][s].value], None,
                       captureI + 1, captureSamples, captureContinuous)
      {
        AgreesDone(buffers[c][s][..], history[c][s], pending[c][s], captureI, captureSamples, captureContinuous);
      }
      history, pending := Committed(history, pending), ForEachStream(buffers, None);
      captureI := captureI + 1;
    }

    /** Restart the counters. The stored data is left in place. */
    method ResetCapture()
      requires Valid()
      modifies this`captureI, this`captureO, this`history, this`pending
      ensures Valid() && Settled()
      ensures captureI == 0 && captureO == 0
      ensures forall c, s :: Has(c, s) ==> history[c][s] == [] && forall i: nat :: Get(c, s, i) == NaN
    {
      captureI, captureO := 0, 0;
      history, pending := ForEachStream(buffers, []), ForEachStream(buffers, None);
    }

    /** The sample with index i, or NaN when it is overwritten or not yet collected. */
    function Get(c: nat, s: nat, i: nat): (r: Sample)
      requires Valid() && Has(c, s)
      reads this, Repr
      ensures !Readable(captureI, captureSamples, i) ==> r == NaN
      ensures Readable(captureI, captureSamples, i) ==>
                r == if captureContinuous && pending[c][s].Some? && captureI == captureSamples && i == 0
                     then pending[c][s].value
                     else history[c][s][StoredIndex(captureContinuous, captureSamples, i)]
    {
      if buffers[c][s].Length == 0 || captureSamples == 0
         || i >= captureI
         || (captureI > captureSamples && i <= captureI - captureSamples)
      then NaN
      else
        ReadExact(buffers[c][s][..], history[c][s], pending[c][s], captureI, captureSamples, captureContinuous, i);
        buffers[c][s][i % captureSamples]
    }

    /** Every collected sample of a stream as `Get` returns it. */
    ghost function Readout(c: nat, s: nat): (r: seq<Sample>)
      requires Valid() && Has(c, s)
      reads this, Repr
      ensures |r| == captureI && forall i :: 0 <= i < captureI ==> r[i] == Get(c, s, i)
    {
      seq(captureI, i requires 0 <= i < captureI && Valid() && Has(c, s) reads this, Repr => Get(c, s, i))
    }

    ghost function Snapshot(): (v: View)
      requires Valid()
      reads this, Repr
      ensures v.Valid() && v.captureI == captureI && v.captureO == captureO && v.sources == sources
      ensures forall c, s :: v.Has(c, s) <==> Has(c, s)
      ensures forall c, s :: Has(c, s) ==> v.streams[c][s] == Readout(c, s)
    {
      View(captureI, captureO,
        seq(|buffers|, c requires 0 <= c < |buffers| && Valid() reads this, Repr => Readouts(c)),
        sources)
    }

    ghost function Readouts(c: int): (r: seq<seq<Sample>>)
      requires Valid() && 0 <= c < |buffers|
      reads this, Repr
      ensures |r| == |buffers[c]| && forall s :: 0 <= s < |r| ==> r[s] == Readout(c, s)
    {
      seq(|buffers[c]|,
        s requires 0 <= c < |buffers| && 0 <= s < |buffers[c]| && Valid() reads this, Repr => Readout(c, s))
    }

    lemma GetIsSeen(c: int, s: int, i: nat)
      requires Valid() && Has(c, s)
      ensures Snapshot().Has(c, s) && |Snapshot().streams[c][s]| == captureI
      ensures Get(c, s, i) == Snapshot().Get(c, s, i)
    {
      assert Snapshot().streams[c][s] == Readout(c, s);
    }

    /** Mean of `count` samples from `start`. Testing the two ends of the window is
        enough: the result is the mean of what `Get` returns for each sample of the
        window, and so NaN exactly when one of them is. */
    method Resample(c: nat, s: nat, start: nat, count: nat) returns (r: Sample)
      requires Valid() && Has(c, s)
      ensures r == Snapshot().Resample(c, s, start, count)
      ensures if start + count <= captureI then Averages(Window(c, s, start, count), r) else r == NaN
    {
      hide Valid, Get, Window, Snapshot, View.Resample, Over, Add, Averages;
      ghost var window := Window(c, s, start, count);
      GetSlot(c, s, start);
      ResampleIsMean(c, s, start, count);
      MeanAverages(window);
      if start + count <= captureI {
        WindowSlots(c, s, start, count);
      }
      if buffers[c][s].Length == 0 || captureSamples == 0
         || start + count > captureI
         || (captureI > captureSamples && start <= captureI - captureSamples)
      {
        return NaN;
      }
      var total := Num(0.0);
      for i := 0 to count
        invariant total == Sum(window[..i])
      {
        assert window[..i + 1] == window[..i] + [window[i]];
        SumSnoc(window[..i], window[i]);
        total := Add(total, buffers[c][s][(start + i) % captureSamples]);
      }
      assert window[..count] == window;
      return Over(total, count);
    }

    /** What a reader sees of a window that lies within the collected samples. */
    ghost function Window(c: int, s: int, start: nat, count: nat): (w: seq<Sample>)
      requires Valid() && Has(c, s)
      reads this, Repr
      ensures start + count <= captureI ==> |w| == count && forall k :: 0 <= k < count ==> w[k] == Get(c, s, start + k)
    {
      if start + count <= captureI then Readout(c, s)[start..start + count] else []
    }

    lemma ResampleIsMean(c: int, s: int, start: nat, count: nat)
      requires Valid() && Has(c, s)
      ensures Snapshot().Has(c, s)
      ensures Snapshot().Resample(c, s, start, count)
           == if start + count <= captureI then Mean(Window(c, s, start, count)) else NaN
    {
      GetIsSeen(c, s, start);
    }

    lemma GetSlot(c: int, s: int, i: nat)
      requires Valid() && Has(c, s)
      ensures buffers[c][s].Length == captureSamples
      ensures Readable(captureI, captureSamples, i) ==> Get(c, s, i) == buffers[c][s][i % captureSamples]
      ensures !Readable(captureI, captureSamples, i) ==> Get(c, s, i) == NaN
    {
      assert Agrees(buffers[c][s][..], history[c][s], pending[c][s], captureI, captureSamples, captureContinuous);
    }

    /** The window is in its slots when its first sample is still available; otherwise
        a sample of it is missing. */
    lemma WindowSlots(c: int, s: int, start: nat, count: nat)
      requires Valid() && Has(c, s) && start + count <= captureI
      ensures buffers[c][s].Length == captureSamples
      ensures captureSamples > 0 && (captureI > captureSamples ==> captureI - captureSamples < start)
              ==> forall k :: 0 <= k < count ==>
                    Window(c, s, start, count)[k] == buffers[c][s][(start + k) % captureSamples]
      ensures captureSamples == 0 || (captureI > captureSamples && start <= captureI - captureSamples)
              ==> Mean(Window(c, s, start, count)) == NaN
    {
      hide Valid, Get, Window, Mean;
      var w := Window(c, s, start, count);
      MeanIsNaN(w);
      GetSlot(c, s, start);
      if captureSamples > 0 && (captureI > captureSamples ==> captureI - captureSamples < start) {
        forall k | 0 <= k < count
          ensures w[k] == buffers[c][s][(start + k) % captureSamples]
        {
          GetSlot(c, s, start + k);
        }
      } else if count > 0 {
        assert w[0] == Get(c, s, start + 0);
      }
    }
  }
}
