/** What becomes of every frame handed to a client's queue (src/device.rs), in every run of
    module ClientQueue: it is kept, dropped or still on its way, never lost or doubled; and
    whether it is dropped depends on the backlog at the moment it was handed over. */
module Deliveries {
  import opened ClientQueue

  // ---- every frame is accounted for ----

  /** How often m is handed over by a run. */
  function Sent<T(==)>(steps: seq<Step<T>>, m: Message<T>): nat {
    if steps == [] then 0 else Sent(steps[..|steps| - 1], m) + SentBy(steps[|steps| - 1], m)
  }

  function SentBy<T(==)>(step: Step<T>, m: Message<T>): nat {
    if step.Load? && step.msg == m then 1 else 0
  }

  /** How often m was decided, kept or dropped. */
  function Decided<T(==)>(offers: seq<Offer<T>>, m: Message<T>): nat {
    if offers == [] then 0
    else Decided(offers[..|offers| - 1], m) + if offers[|offers| - 1].msg == m then 1 else 0
  }

  function HeldBy<T(==)>(s: Sender<T>, m: Message<T>): nat {
    if !s.Idle? && s.msg == m then 1 else 0
  }

  /** How many senders are still holding m. */
  function Held<T(==)>(senders: seq<Sender<T>>, m: Message<T>): nat {
    if senders == [] then 0 else Held(senders[..|senders| - 1], m) + HeldBy(senders[|senders| - 1], m)
  }

  lemma {:induction false} HeldUpdate<T>(s: seq<Sender<T>>, i: nat, x: Sender<T>, m: Message<T>)
    requires i < |s|
    ensures Held(s[i := x], m) + HeldBy(s[i], m) == Held(s, m) + HeldBy(x, m)
  {
    var last := |s| - 1;
    if i == last {
      assert s[i := x][..last] == s[..last];
    } else {
      HeldUpdate(s[..last], i, x, m);
      assert s[i := x][..last] == s[..last][i := x];
    }
  }

  lemma {:induction false} IdleHoldsNothing<T>(n: nat, m: Message<T>)
    ensures Held(IdleSenders<T>(n), m) == 0
  {
    if n > 0 {
      IdleHoldsNothing<T>(n - 1, m);
      assert IdleSenders<T>(n)[..n - 1] == IdleSenders<T>(n - 1);
    }
  }

  lemma DecidedSnoc<T>(offers: seq<Offer<T>>, o: Offer<T>, m: Message<T>)
    ensures Decided(offers + [o], m) == Decided(offers, m) + if o.msg == m then 1 else 0
  {
    assert (offers + [o])[..|offers|] == offers;
  }

  lemma StepConserves<T>(q: Queue<T>, step: Step<T>, m: Message<T>)
    requires m.Binary? && Enabled(q, step) && q.counter >= 0
    ensures Decided(Next(q, step).offers, m) + Held(Next(q, step).senders, m)
         == Decided(q.offers, m) + Held(q.senders, m) + SentBy(step, m)
  {
    match step
    case Load(i, msg) => HeldUpdate(q.senders, i, Loaded(msg, q.counter), m);
    case Drop(i) =>
      HeldUpdate(q.senders, i, Idle, m);
      DecidedSnoc(q.offers, Dropped(q.senders[i].msg, q.senders[i].seen), m);
    case Add(i) => HeldUpdate(q.senders, i, Added(q.senders[i].msg), m);
    case Push(i) =>
      HeldUpdate(q.senders, i, Idle, m);
      DecidedSnoc(q.offers, Kept(q.senders[i].msg), m);
    case SendJson(value) => DecidedSnoc(q.offers, Kept(Json(value)), m);
    case _ =>
  }

  // ---- runs, taken apart at the end ----

  lemma {:induction false} RunSnoc<T>(q: Queue<T>, steps: seq<Step<T>>)
    requires steps != [] && RunFrom(q, steps)
    ensures var (before, last) := (steps[..|steps| - 1], steps[|steps| - 1]);
            && RunFrom(q, before) && Enabled(After(q, before), last) && After(q, before).counter >= 0
            && After(q, steps) == Next(After(q, before), last)
    decreases |steps|
  {
    if |steps| == 1 {
      assert steps[1..] == [] && steps[..0] == [];
    } else {
      RunSnoc(Next(q, steps[0]), steps[1..]);
      assert steps[1..][..|steps| - 2] == steps[..|steps| - 1][1..];
    }
  }

  /** In every run of any number of binary senders every frame handed over is decided once,
      or still held by its sender; what was kept is received or still queued, in order. */
  lemma {:induction false} FramesConserved<T>(n: nat, steps: seq<Step<T>>, m: Message<T>)
    requires m.Binary? && RunFrom(Initial<T>(n), steps)
    ensures var q := After(Initial<T>(n), steps);
            Sent(steps, m) == Decided(q.offers, m) + Held(q.senders, m)
    decreases |steps|
  {
    var q0 := Initial<T>(n);
    if steps == [] {
      IdleHoldsNothing<T>(n, m);
    } else {
      hide RunFrom, After, Next, Enabled, SentBy, Decided, Held;
      RunSnoc(q0, steps);
      FramesConserved(n, steps[..|steps| - 1], m);
      StepConserves(After(q0, steps[..|steps| - 1]), steps[|steps| - 1], m);
    }
  }

  // ---- in order ----

  /** The frames that a run hands over, in order. */
  function FramesSent<T>(steps: seq<Step<T>>): seq<Message<T>> {
    if steps == [] then []
    else FramesSent(steps[..|steps| - 1]) + if steps[|steps| - 1].Load? then [steps[|steps| - 1].msg] else []
  }

  function BinaryOffers<T>(offers: seq<Offer<T>>): seq<Offer<T>> {
    if offers == [] then []
    else BinaryOffers(offers[..|offers| - 1]) + if offers[|offers| - 1].msg.Binary? then [offers[|offers| - 1]] else []
  }

  lemma BinaryOffersSnoc<T>(offers: seq<Offer<T>>, o: Offer<T>)
    ensures BinaryOffers(offers + [o]) == BinaryOffers(offers) + if o.msg.Binary? then [o] else []
  {
    assert (offers + [o])[..|offers|] == offers;
  }

  /** Frames decided so far are those handed over, but for one still held. */
  ghost predicate InOrder<T>(sent: seq<Message<T>>, b: seq<Offer<T>>, held: Sender<T>) {
    && |b| + (if held.Idle? then 0 else 1) == |sent|
    && (forall i :: 0 <= i < |b| ==> b[i].msg == sent[i])
    && (!held.Idle? ==> held.msg == sent[|b|] && held.msg.Binary?)
  }

  lemma StepInOrder<T>(q: Queue<T>, step: Step<T>, sent: seq<Message<T>>)
    requires |q.senders| == 1 && Enabled(q, step) && q.counter >= 0
    requires InOrder(sent, BinaryOffers(q.offers), q.senders[0])
    ensures |Next(q, step).senders| == 1
    ensures InOrder(sent + if step.Load? then [step.msg] else [],
                    BinaryOffers(Next(q, step).offers), Next(q, step).senders[0])
  {
    hide BinaryOffers;
    match step
    case Drop(i) => BinaryOffersSnoc(q.offers, Dropped(q.senders[i].msg, q.senders[i].seen));
    case Push(i) => BinaryOffersSnoc(q.offers, Kept(q.senders[i].msg));
    case SendJson(value) => BinaryOffersSnoc(q.offers, Kept(Json(value)));
    case _ =>
  }

  /** With one binary sender the i-th decision is about the i-th frame handed over. */
  lemma {:induction false} DecidedInOrder<T>(steps: seq<Step<T>>)
    requires RunFrom(Initial<T>(1), steps)
    ensures var q := After(Initial<T>(1), steps);
            |q.senders| == 1 && InOrder(FramesSent(steps), BinaryOffers(q.offers), q.senders[0])
    decreases |steps|
  {
    var q0 := Initial<T>(1);
    if steps != [] {
      hide RunFrom, After, Next, Enabled, InOrder;
      var before := steps[..|steps| - 1];
      RunSnoc(q0, steps);
      DecidedInOrder(before);
      StepInOrder(After(q0, before), steps[|steps| - 1], FramesSent(before));
      assert FramesSent(before) + [] == FramesSent(before);
    }
  }

  // ---- why a frame is dropped ----

  /** Frame m is handed over by step j of a run. */
  ghost predicate HandedOver<T>(q: Queue<T>, steps: seq<Step<T>>, j: nat, m: Message<T>) {
    j < |steps| && RunFrom(q, steps[..j]) && steps[j].Load? && steps[j].msg == m
  }

  /** The backlog at that moment. */
  ghost function Backlog<T>(q: Queue<T>, steps: seq<Step<T>>, j: nat): int
    requires j <= |steps| && RunFrom(q, steps[..j])
  {
    After(q, steps[..j]).counter
  }

  ghost predicate Judged<T>(q: Queue<T>, steps: seq<Step<T>>, j: nat, o: Offer<T>) {
    && HandedOver(q, steps, j, o.msg)
    && (o.Dropped? <==> Backlog(q, steps, j) + Bytes(o.msg) > BINARY_BACKLOG_LIMIT)
    && (o.Dropped? ==> o.seen == Backlog(q, steps, j))
  }

  ghost predicate Pending<T>(q: Queue<T>, steps: seq<Step<T>>, j: nat, s: Sender<T>) {
    && (s.Loaded? ==> HandedOver(q, steps, j, s.msg) && s.seen == Backlog(q, steps, j))
    && (s.Added? ==> HandedOver(q, steps, j, s.msg) && Backlog(q, steps, j) + Bytes(s.msg) <= BINARY_BACKLOG_LIMIT)
  }

  lemma LaterJudged<T>(q: Queue<T>, steps: seq<Step<T>>, j: nat, o: Offer<T>)
    requires steps != [] && Judged(q, steps[..|steps| - 1], j, o)
    ensures Judged(q, steps, j, o)
  {
    assert steps[..|steps| - 1][..j] == steps[..j];
  }

  lemma LaterPending<T>(q: Queue<T>, steps: seq<Step<T>>, j: nat, s: Sender<T>)
    requires steps != [] && Pending(q, steps[..|steps| - 1], j, s)
    ensures Pending(q, steps, j, s)
  {
    if j < |steps| - 1 {
      assert steps[..|steps| - 1][..j] == steps[..j];
    }
  }

  /** Every frame that has been decided was dropped exactly when the backlog left no room
      for it at the moment it was handed over, in every run of any number of senders. */
  lemma {:induction false} DroppedExactlyWhenFull<T>(n: nat, steps: seq<Step<T>>) returns (at: seq<nat>, on: seq<nat>)
    requires RunFrom(Initial<T>(n), steps)
    ensures var q0, q := Initial<T>(n), After(Initial<T>(n), steps);
            && |at| == |q.offers| && |on| == |q.senders|
            && (forall k :: 0 <= k < |at| && q.offers[k].msg.Binary? ==> Judged(q0, steps, at[k], q.offers[k]))
            && (forall i :: 0 <= i < |on| ==> Pending(q0, steps, on[i], q.senders[i]))
    decreases |steps|
  {
    var q0 := Initial<T>(n);
    if steps == [] {
      at, on := [], seq(n, _ => 0);
    } else {
      hide RunFrom, After, HandedOver;
      var before := steps[..|steps| - 1];
      RunSnoc(q0, steps);
      at, on := DroppedExactlyWhenFull(n, before);
      var q := After(q0, before);
      forall k | 0 <= k < |at| && q.offers[k].msg.Binary?
        ensures Judged(q0, steps, at[k], q.offers[k])
      {
        LaterJudged(q0, steps, at[k], q.offers[k]);
      }
      forall i | 0 <= i < |on|
        ensures Pending(q0, steps, on[i], q.senders[i])
      {
        LaterPending(q0, steps, on[i], q.senders[i]);
      }
      at, on := Decide(q0, steps, at, on);
    }
  }

  lemma Decide<T>(q0: Queue<T>, steps: seq<Step<T>>, at: seq<nat>, on: seq<nat>) returns (at': seq<nat>, on': seq<nat>)
    requires steps != [] && RunFrom(q0, steps[..|steps| - 1])
    requires var q := After(q0, steps[..|steps| - 1]);
             && q.counter >= 0 && Enabled(q, steps[|steps| - 1]) && |at| == |q.offers| && |on| == |q.senders|
             && (forall k :: 0 <= k < |at| && q.offers[k].msg.Binary? ==> Judged(q0, steps, at[k], q.offers[k]))
             && (forall i :: 0 <= i < |on| ==> Pending(q0, steps, on[i], q.senders[i]))
    ensures var q := Next(After(q0, steps[..|steps| - 1]), steps[|steps| - 1]);
            && |at'| == |q.offers| && |on'| == |q.senders|
            && (forall k :: 0 <= k < |at'| && q.offers[k].msg.Binary? ==> Judged(q0, steps, at'[k], q.offers[k]))
            && (forall i :: 0 <= i < |on'| ==> Pending(q0, steps, on'[i], q.senders[i]))
  {
    hide RunFrom, After;
    var last := |steps| - 1;
    var q := After(q0, steps[..last]);
    at', on' := at, on;
    match steps[last]
    case Load(i, msg) =>
      on' := on[i := last];
      assert HandedOver(q0, steps, last, msg);
    case Drop(i) => at' := at + [on[i]];
    case Push(i) => at' := at + [on[i]];
    case SendJson(_) => at' := at + [0];
    case _ =>
  }

  // ---- the dropping flag ----

  /** Whether the last decision of a run was to drop. */
  function LastDropped<T>(steps: seq<Step<T>>): bool {
    steps != [] && var last := steps[|steps| - 1];
    if last.Drop? then true else if last.Add? then false else LastDropped(steps[..|steps| - 1])
  }

  lemma {:induction false} DroppingIsLast<T>(n: nat, steps: seq<Step<T>>)
    requires RunFrom(Initial<T>(n), steps)
    ensures After(Initial<T>(n), steps).dropping == LastDropped(steps)
    decreases |steps|
  {
    hide RunFrom;
    if steps != [] {
      RunSnoc(Initial<T>(n), steps);
      DroppingIsLast(n, steps[..|steps| - 1]);
      hide After;
    }
  }
}
