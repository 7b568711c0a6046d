/** What a counted listener that does not re-arm delivers (src/listener.rs): untriggered,
    triggered once by either kind of trigger, or a REST response. */
module OneWindow {
  import opened Common
  import opened RingBuffer
  import opened ListenerModel
  import opened Packetisation
  import S = Sweeps

  predicate Counted(cfg: Config) {
    ValidConfig(cfg) && cfg.count > 0 && !cfg.repeat
  }

  /** The frames are one window, cut anyhow: each starts where the one before ended, `out`
      chunks are out, never more than `count`, and only a frame that completes them is
      marked as done. */
  ghost predicate Window(cfg: Config, fs: seq<Frame>, out: nat) {
    if fs == [] then out == 0
    else
      var f := fs[|fs| - 1];
      && Window(cfg, fs[..|fs| - 1], f.idx)
      && f.nchunks > 0 && out == f.idx + f.nchunks <= cfg.count
      && f.sampleIndex == ChunkStart(cfg, fs[0].sampleIndex, f.idx)
      && (f.done <==> out == cfg.count)
  }

  /** The device positions of all chunks, in the order in which they were sent. */
  function Places(cfg: Config, fs: seq<Frame>): seq<nat> {
    if fs == [] then [] else Places(cfg, fs[..|fs| - 1]) + S.Positions(cfg, fs[|fs| - 1])
  }

  /** What the predicate means: chunk k of the window is sent k-th, and `done` is on the
      last frame of a complete window and on no other. */
  lemma {:induction false} WindowMeans(cfg: Config, fs: seq<Frame>, out: nat)
    requires Window(cfg, fs, out)
    ensures |Places(cfg, fs)| == out
    ensures forall k :: 0 <= k < out ==> fs != [] && Places(cfg, fs)[k] == ChunkStart(cfg, fs[0].sampleIndex, k)
    ensures out < cfg.count ==> forall i :: 0 <= i < |fs| ==> !fs[i].done
    ensures forall i :: 0 <= i < |fs| ==> (fs[i].done <==> i == |fs| - 1 && out == cfg.count)
  {
    if fs != [] {
      var pre, f := fs[..|fs| - 1], fs[|fs| - 1];
      WindowMeans(cfg, pre, f.idx);
      forall k | 0 <= k < out
        ensures Places(cfg, fs)[k] == ChunkStart(cfg, fs[0].sampleIndex, k)
      {
        if k < f.idx {
          assert pre[0] == fs[0];
        } else {
          assert k * cfg.decimate == f.idx * cfg.decimate + (k - f.idx) * cfg.decimate;
        }
      }
      forall i | 0 <= i < |pre|
        ensures !fs[i].done
      {
        assert fs[i] == pre[i];
      }
    }
  }

  /** The cursor after the frames fs. */
  predicate Standing(cfg: Config, fs: seq<Frame>, st: State) {
    if fs == [] then st.outIndex == 0
    else Delivering(cfg, st) && st.index == ChunkStart(cfg, fs[0].sampleIndex, st.outIndex)
  }

  lemma WindowSnoc(cfg: Config, fs: seq<Frame>, f: Frame, out: nat)
    requires Window(cfg, fs, f.idx) && f.nchunks > 0 && out == f.idx + f.nchunks <= cfg.count
    requires fs != [] ==> f.sampleIndex == ChunkStart(cfg, fs[0].sampleIndex, f.idx)
    requires f.done <==> out == cfg.count
    ensures Window(cfg, fs + [f], out)
  {
    assert (fs + [f])[..|fs|] == fs;
    if fs == [] {
      assert ChunkStart(cfg, f.sampleIndex, 0) == f.sampleIndex;
    }
  }

  lemma DeliverWindow(cfg: Config, v: View, st: State, fs: seq<Frame>)
    requires Counted(cfg) && InRange(cfg, v) && Delivering(cfg, st) && st.outIndex < cfg.count
    requires Window(cfg, fs, st.outIndex) && Standing(cfg, fs, st)
    ensures var pass := Deliver(cfg, v, OPEN, st);
            && pass.Return? && Window(cfg, fs + pass.sent, pass.st.outIndex) && Standing(cfg, fs + pass.sent, pass.st)
            && (pass.keep <==> pass.st.outIndex < cfg.count)
            && (pass.keep ==> v.captureI <= pass.st.index + cfg.decimate)
            && (fs == [] && pass.sent != [] ==> pass.sent[0].sampleIndex == st.index)
            && (pass.sent == [] ==> pass.st == st)
  {
    hide Window, Chunks, InRange;
    var n := Available(cfg, v.captureI, st);
    if n == 0 {
      assert fs + [] == fs;
      NoneAvailable(cfg, v.captureI, st);
    } else {
      var f := MakeFrame(cfg, v, st, n);
      DivideChunks(v.captureI - st.index, cfg.decimate);
      WindowSnoc(cfg, fs, f, st.outIndex + n);
      assert (st.outIndex + n) * cfg.decimate == st.outIndex * cfg.decimate + n * cfg.decimate;
    }
  }

  lemma NoneAvailable(cfg: Config, captureI: nat, st: State)
    requires Counted(cfg) && st.outIndex < cfg.count && Available(cfg, captureI, st) == 0
    ensures captureI <= st.index + cfg.decimate
  {
    if st.index + cfg.decimate < captureI {
      DivideChunks(captureI - st.index, cfg.decimate);
      Monotone((captureI - st.index) / cfg.decimate, 0, cfg.decimate);
    }
  }

  /** One call extends the window, and the listener leaves exactly when it is complete. */
  lemma CallExtends(cfg: Config, v: View, st: State, fs: seq<Frame>)
    requires Counted(cfg) && Callable(cfg, v, st) && Window(cfg, fs, st.outIndex) && Standing(cfg, fs, st)
    ensures var (st', sent, keep) := Handle(cfg, v, OPEN, st);
            && Window(cfg, fs + sent, st'.outIndex) && Standing(cfg, fs + sent, st')
            && (keep <==> st'.outIndex < cfg.count)
            && (keep && Delivering(cfg, st') ==> v.captureI <= st'.index + cfg.decimate)
            && (cfg.trigger.NoTrigger? && fs == [] && sent != [] ==> sent[0].sampleIndex == st.index)
            && (cfg.trigger.NoTrigger? && sent == [] ==> st'.index == st.index)
  {
    hide Window, Deliver, FindTrigger, InRange, Fits, Progress;
    if Delivering(cfg, st) {
      DeliverWindow(cfg, v, st, fs);
    } else {
      var (st', found) := FindTrigger(cfg, v, st);
      FindStands(cfg, v, st);
      if found {
        DeliverWindow(cfg, v, st', fs);
      } else {
        assert fs + [] == fs;
      }
    }
  }

  lemma FindStands(cfg: Config, v: View, st: State)
    requires InRange(cfg, v) && Fits(cfg, v, st) && !st.triggered
    ensures var (st', found) := FindTrigger(cfg, v, st); st'.triggered == found && st'.outIndex == st.outIndex
  {
  }

  // ---- whole runs ----

  /** Calls on successive views can be made, as long as the listener stays. */
  ghost predicate Possible(cfg: Config, st: State, views: seq<View>)
    decreases |views|
  {
    views != [] ==>
      && Callable(cfg, views[0], st)
      && var (st', _, keep) := Handle(cfg, views[0], OPEN, st);
         keep ==> Possible(cfg, st', views[1..])
  }

  /** The last cursor, everything that was sent, and whether the listener is still there. */
  ghost function Outcome(cfg: Config, st: State, views: seq<View>): (r: (State, seq<Frame>, bool))
    requires Possible(cfg, st, views)
    decreases |views|
  {
    if views == [] then (st, [], true)
    else
      var (st', sent, keep) := Handle(cfg, views[0], OPEN, st);
      if keep then
        var (last, more, stays) := Outcome(cfg, st', views[1..]);
        (last, sent + more, stays)
      else (st', sent, false)
  }

  lemma OutcomeUnfold(cfg: Config, st: State, views: seq<View>)
    requires Possible(cfg, st, views)
    ensures views == [] ==> Outcome(cfg, st, views) == (st, [], true)
    ensures views != [] ==>
              && Callable(cfg, views[0], st)
              && var (st', sent, keep) := Handle(cfg, views[0], OPEN, st);
                 if keep then
                   Possible(cfg, st', views[1..])
                   && var (last, more, stays) := Outcome(cfg, st', views[1..]);
                   Outcome(cfg, st, views) == (last, sent + more, stays)
                 else Outcome(cfg, st, views) == (st', sent, false)
  {
  }

  lemma {:induction false} RunExtends(cfg: Config, st: State, views: seq<View>, fs: seq<Frame>)
    requires Counted(cfg) && Possible(cfg, st, views)
    requires Window(cfg, fs, st.outIndex) && Standing(cfg, fs, st) && st.outIndex < cfg.count
    ensures var (last, sent, stays) := Outcome(cfg, st, views);
            && Window(cfg, fs + sent, last.outIndex) && Standing(cfg, fs + sent, last)
            && (stays <==> last.outIndex < cfg.count)
            && (views != [] && stays && Delivering(cfg, last) ==>
                  views[|views| - 1].captureI <= last.index + cfg.decimate)
            && (cfg.trigger.NoTrigger? && fs == [] && sent != [] ==> sent[0].sampleIndex == st.index)
    decreases |views|
  {
    hide Window, Standing, Handle, Callable, Outcome, Possible;
    OutcomeUnfold(cfg, st, views);
    if views == [] {
      assert fs + [] == fs;
    } else {
      CallExtends(cfg, views[0], st, fs);
      var (st', sent, keep) := Handle(cfg, views[0], OPEN, st);
      if keep {
        RunExtends(cfg, st', views[1..], fs + sent);
        var more := Outcome(cfg, st', views[1..]).1;
        assert fs + sent + more == fs + (sent + more);
        OutcomeUnfold(cfg, st', views[1..]);
      }
    }
  }

  /** Main theorem. Whatever the views, that is whatever the packets, the samples and the
      trigger: the whole output is the beginning of one contiguous window, the listener
      stays exactly as long as fewer than `count` chunks are out, and nothing complete is
      left behind but a chunk that touches the newest sample. */
  lemma CountIsExact(cfg: Config, st: State, views: seq<View>)
    requires Counted(cfg) && Possible(cfg, st, views) && st.outIndex == 0
    ensures var (last, fs, stays) := Outcome(cfg, st, views);
            && Window(cfg, fs, last.outIndex)
            && (stays <==> last.outIndex < cfg.count)
            && (views != [] && stays && Delivering(cfg, last) ==>
                  views[|views| - 1].captureI <= last.index + cfg.decimate)
            && (fs != [] ==> last.index == ChunkStart(cfg, fs[0].sampleIndex, last.outIndex))
            && (fs != [] && cfg.trigger.NoTrigger? ==> fs[0].sampleIndex == st.index)
  {
    hide Handle, Callable, Outcome, Possible;
    RunExtends(cfg, st, views, []);
    var fs := Outcome(cfg, st, views).1;
    assert [] + fs == fs;
  }
}
