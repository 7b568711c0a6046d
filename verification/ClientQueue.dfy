/** Back-pressure on one client's outgoing queue (src/device.rs): binary senders, JSON
    senders and the receiver interleave at every atomic step. A binary send is a load
    of the counter, a decision, an add and a push; a receive is a pop and a subtract.
    The state is the shared memory plus each thread's program counter; `offers` logs
    every message in the order its sender pushed or dropped it. */
module ClientQueue {
  import opened Common

  const BINARY_BACKLOG_LIMIT: nat := 8 * 1024 * 1024

  /** `size` is the payload length; the payload itself is opaque. */
  datatype Message<T> = Json(value: T) | Binary(size: nat, payload: T)

  function Bytes<T>(m: Message<T>): nat {
    if m.Binary? then m.size else 0
  }

  function QueuedBytes<T>(q: seq<Message<T>>): nat {
    if q == [] then 0 else QueuedBytes(q[..|q| - 1]) + Bytes(q[|q| - 1])
  }

  /** A binary sender: idle, holding the loaded counter, or past the add. */
  datatype Sender<T> = Idle | Loaded(msg: Message<T>, seen: nat) | Added(msg: Message<T>)

  function InFlight<T>(s: Sender<T>): nat {
    if s.Added? then Bytes(s.msg) else 0
  }

  function AddedBytes<T>(senders: seq<Sender<T>>): nat {
    if senders == [] then 0 else AddedBytes(senders[..|senders| - 1]) + InFlight(senders[|senders| - 1])
  }

  datatype Offer<T> = Kept(msg: Message<T>) | Dropped(msg: Message<T>, seen: nat)

  /** counter and dropping are the atomics; popped is the size the receiver has
      taken off the queue but not yet subtracted. */
  datatype Queue<T> = Queue(counter: int, dropping: bool, queue: seq<Message<T>>, senders: seq<Sender<T>>,
                            popped: Option<nat>, offers: seq<Offer<T>>, received: seq<Message<T>>)

  datatype Step<T> =
    | Load(i: nat, msg: Message<T>)
    | Drop(i: nat)
    | Add(i: nat)
    | Push(i: nat)
    | SendJson(value: T)
    | Pop
    | Subtract

  predicate Enabled<T>(q: Queue<T>, step: Step<T>) {
    match step
    case Load(i, msg) => i < |q.senders| && q.senders[i].Idle? && msg.Binary?
    case Drop(i) =>
      && i < |q.senders| && q.senders[i].Loaded?
      && q.senders[i].seen + Bytes(q.senders[i].msg) > BINARY_BACKLOG_LIMIT
    case Add(i) =>
      && i < |q.senders| && q.senders[i].Loaded?
      && q.senders[i].seen + Bytes(q.senders[i].msg) <= BINARY_BACKLOG_LIMIT
    case Push(i) => i < |q.senders| && q.senders[i].Added?
    case SendJson(_) => true
    case Pop => q.popped.None? && q.queue != []
    case Subtract => q.popped.Some?
  }

  /** An unsigned load: never negative in a reachable state, see `Invariant`. */
  function Next<T>(q: Queue<T>, step: Step<T>): Queue<T>
    requires Enabled(q, step) && q.counter >= 0
  {
    match step
    case Load(i, msg) => q.(senders := q.senders[i := Loaded(msg, q.counter)])
    case Drop(i) =>
      var s := q.senders[i];
      q.(senders := q.senders[i := Idle], dropping := true, offers := q.offers + [Dropped(s.msg, s.seen)])
    case Add(i) =>
      var s := q.senders[i];
      q.(senders := q.senders[i := Added(s.msg)], dropping := false, counter := q.counter + Bytes(s.msg))
    case Push(i) =>
      var s := q.senders[i];
      q.(senders := q.senders[i := Idle], queue := q.queue + [s.msg], offers := q.offers + [Kept(s.msg)])
    case SendJson(value) =>
      q.(queue := q.queue + [Json(value)], offers := q.offers + [Kept(Json(value))])
    case Pop =>
      var m := q.queue[0];
      q.(queue := q.queue[1..], received := q.received + [m], popped := if m.Binary? then Some(m.size) else None)
    case Subtract =>
      q.(counter := q.counter - q.popped.value, popped := None)
  }

  function IdleSenders<T>(n: nat): (s: seq<Sender<T>>)
    ensures |s| == n && forall i :: 0 <= i < n ==> s[i].Idle?
  {
    seq(n, _ => Idle)
  }

  function Initial<T>(n: nat): Queue<T> {
    Queue(0, false, [], IdleSenders(n), None, [], [])
  }

  // ---- what every step keeps ----

  function KeptOf<T>(offers: seq<Offer<T>>): seq<Message<T>> {
    if offers == [] then []
    else KeptOf(offers[..|offers| - 1]) + if offers[|offers| - 1].Kept? then [offers[|offers| - 1].msg] else []
  }

  function Popped<T>(q: Queue<T>): nat {
    if q.popped.Some? then q.popped.value else 0
  }

  /** The counter is exactly the bytes queued, plus those between add and push, plus
      those between pop and subtract. */
  ghost predicate Counted<T>(q: Queue<T>) {
    q.counter == QueuedBytes(q.queue) + AddedBytes(q.senders) + Popped(q)
  }

  /** What was received plus what is queued is what was kept, in order. */
  ghost predicate Ordered<T>(q: Queue<T>) {
    KeptOf(q.offers) == q.received + q.queue
  }

  /** Each drop was of a binary frame and saw a counter that left no room for it. */
  ghost predicate DropsSawFull<T>(q: Queue<T>) {
    && (forall i :: 0 <= i < |q.senders| && !q.senders[i].Idle? ==> q.senders[i].msg.Binary?)
    && (forall k :: 0 <= k < |q.offers| && q.offers[k].Dropped? ==>
          q.offers[k].msg.Binary? && q.offers[k].seen + q.offers[k].msg.size > BINARY_BACKLOG_LIMIT)
  }

  ghost predicate Invariant<T>(q: Queue<T>) {
    Counted(q) && Ordered(q) && DropsSawFull(q)
  }

  lemma {:induction false} QueuedBytesPop<T>(q: seq<Message<T>>)
    requires q != []
    ensures QueuedBytes(q) == Bytes(q[0]) + QueuedBytes(q[1..])
  {
    if |q| > 1 {
      QueuedBytesPop(q[..|q| - 1]);
      assert q[..|q| - 1][1..] == q[1..][..|q| - 2];
    }
  }

  lemma {:induction false} AddedBytesUpdate<T>(s: seq<Sender<T>>, i: nat, x: Sender<T>)
    requires i < |s|
    ensures AddedBytes(s[i := x]) == AddedBytes(s) - InFlight(s[i]) + InFlight(x)
    ensures AddedBytes(s) >= InFlight(s[i])
  {
    var last := |s| - 1;
    if i == last {
      assert s[i := x][..last] == s[..last];
    } else {
      AddedBytesUpdate(s[..last], i, x);
      assert s[i := x][..last] == s[..last][i := x];
    }
  }

  lemma {:induction false} IdleAddsNothing<T>(n: nat)
    ensures AddedBytes(IdleSenders<T>(n)) == 0
  {
    if n > 0 {
      IdleAddsNothing<T>(n - 1);
      assert IdleSenders<T>(n)[..n - 1] == IdleSenders<T>(n - 1);
    }
  }

  lemma InitialInvariant<T>(n: nat)
    ensures Invariant(Initial<T>(n)) && JsonOf(KeptOf(Initial<T>(n).offers)) == []
    ensures n <= 1 ==> Bounded(Initial<T>(n))
  {
    IdleAddsNothing<T>(n);
  }

  lemma SnocOffer<T>(offers: seq<Offer<T>>, o: Offer<T>)
    ensures KeptOf(offers + [o]) == KeptOf(offers) + if o.Kept? then [o.msg] else []
  {
    assert (offers + [o])[..|offers|] == offers;
  }

  lemma SnocBytes<T>(q: seq<Message<T>>, m: Message<T>)
    ensures QueuedBytes(q + [m]) == QueuedBytes(q) + Bytes(m)
  {
    assert (q + [m])[..|q|] == q;
  }

  lemma StepKeepsCounted<T>(q: Queue<T>, step: Step<T>)
    requires Counted(q) && Enabled(q, step)
    ensures Counted(Next(q, step))
  {
    match step
    case Load(i, msg) => AddedBytesUpdate(q.senders, i, Loaded(msg, q.counter));
    case Drop(i) => AddedBytesUpdate(q.senders, i, Idle);
    case Add(i) => AddedBytesUpdate(q.senders, i, Added(q.senders[i].msg));
    case Push(i) =>
      AddedBytesUpdate(q.senders, i, Idle);
      SnocBytes(q.queue, q.senders[i].msg);
    case SendJson(value) => SnocBytes(q.queue, Json(value));
    case Pop => QueuedBytesPop(q.queue);
    case Subtract =>
  }

  lemma StepKeepsOrdered<T>(q: Queue<T>, step: Step<T>)
    requires Ordered(q) && Enabled(q, step) && q.counter >= 0
    ensures Ordered(Next(q, step))
  {
    var q' := Next(q, step);
    match step
    case Drop(i) =>
      SnocOffer(q.offers, Dropped(q.senders[i].msg, q.senders[i].seen));
      assert KeptOf(q.offers) + [] == KeptOf(q.offers);
    case Push(i) =>
      SnocOffer(q.offers, Kept(q.senders[i].msg));
      assert q'.received + q'.queue == q.received + q.queue + [q.senders[i].msg];
    case SendJson(value) =>
      SnocOffer(q.offers, Kept(Json(value)));
      assert q'.received + q'.queue == q.received + q.queue + [Json(value)];
    case Pop =>
      assert q'.received + q'.queue == q.received + q.queue;
    case _ =>
  }

  lemma StepKeepsDrops<T>(q: Queue<T>, step: Step<T>)
    requires DropsSawFull(q) && Enabled(q, step) && q.counter >= 0
    ensures DropsSawFull(Next(q, step))
  {
  }

  /** Every atomic step of every thread keeps the invariant, for any number of
      binary senders; in particular the unsigned subtraction never underflows. */
  lemma StepKeepsInvariant<T>(q: Queue<T>, step: Step<T>)
    requires Invariant(q) && Enabled(q, step)
    ensures q.counter >= 0 && Invariant(Next(q, step))
    ensures step.Subtract? ==> q.counter >= q.popped.value
  {
    assert q.counter >= Popped(q) >= 0;
    hide Counted, Ordered, DropsSawFull, Next;
    StepKeepsCounted(q, step);
    StepKeepsOrdered(q, step);
    StepKeepsDrops(q, step);
  }

  // ---- the limit ----

  /** With at most one sender the counter can only have gone down since it was loaded. */
  ghost predicate Bounded<T>(q: Queue<T>) {
    && |q.senders| <= 1
    && q.counter <= BINARY_BACKLOG_LIMIT
    && (forall i :: 0 <= i < |q.senders| && q.senders[i].Loaded? ==> q.counter <= q.senders[i].seen)
  }

  lemma StepKeepsBound<T>(q: Queue<T>, step: Step<T>)
    requires Invariant(q) && Bounded(q) && Enabled(q, step)
    ensures q.counter >= 0 && Bounded(Next(q, step))
  {
  }

  // ---- whole runs ----

  ghost predicate RunFrom<T>(q: Queue<T>, steps: seq<Step<T>>)
    decreases |steps|
  {
    steps != [] ==> Enabled(q, steps[0]) && q.counter >= 0 && RunFrom(Next(q, steps[0]), steps[1..])
  }

  ghost function After<T>(q: Queue<T>, steps: seq<Step<T>>): Queue<T>
    requires RunFrom(q, steps)
    decreases |steps|
  {
    if steps == [] then q else After(Next(q, steps[0]), steps[1..])
  }

  /** Values sent as JSON by a run, in order. */
  function JsonSent<T>(steps: seq<Step<T>>): seq<T> {
    if steps == [] then []
    else (if steps[0].SendJson? then [steps[0].value] else []) + JsonSent(steps[1..])
  }

  function JsonOf<T>(ms: seq<Message<T>>): seq<T> {
    if ms == [] then [] else JsonOf(ms[..|ms| - 1]) + if ms[|ms| - 1].Json? then [ms[|ms| - 1].value] else []
  }

  lemma JsonSnoc<T>(ms: seq<Message<T>>, m: Message<T>)
    ensures JsonOf(ms + [m]) == JsonOf(ms) + if m.Json? then [m.value] else []
  {
    assert (ms + [m])[..|ms|] == ms;
  }

  lemma StepKeepsJson<T>(q: Queue<T>, step: Step<T>)
    requires Invariant(q) && Enabled(q, step)
    ensures q.counter >= 0
    ensures JsonOf(KeptOf(Next(q, step).offers))
         == JsonOf(KeptOf(q.offers)) + if step.SendJson? then [step.value] else []
  {
    match step
    case Drop(i) =>
      SnocOffer(q.offers, Dropped(q.senders[i].msg, q.senders[i].seen));
      assert KeptOf(q.offers) + [] == KeptOf(q.offers);
    case Push(i) =>
      SnocOffer(q.offers, Kept(q.senders[i].msg));
      JsonSnoc(KeptOf(q.offers), q.senders[i].msg);
    case SendJson(value) =>
      SnocOffer(q.offers, Kept(Json(value)));
      JsonSnoc(KeptOf(q.offers), Json(value));
    case _ =>
  }

  lemma RunUnfold<T>(q: Queue<T>, steps: seq<Step<T>>)
    requires RunFrom(q, steps)
    ensures steps == [] ==> After(q, steps) == q && JsonSent(steps) == []
    ensures steps != [] ==>
              && Enabled(q, steps[0]) && q.counter >= 0 && RunFrom(Next(q, steps[0]), steps[1..])
              && After(q, steps) == After(Next(q, steps[0]), steps[1..])
              && JsonSent(steps) == (if steps[0].SendJson? then [steps[0].value] else []) + JsonSent(steps[1..])
  {
  }

  lemma {:induction false} RunKeeps<T>(q: Queue<T>, steps: seq<Step<T>>)
    requires RunFrom(q, steps) && Invariant(q)
    ensures Invariant(After(q, steps))
    ensures JsonOf(KeptOf(After(q, steps).offers)) == JsonOf(KeptOf(q.offers)) + JsonSent(steps)
    ensures Bounded(q) ==> Bounded(After(q, steps))
    decreases |steps|
  {
    hide *;
    RunUnfold(q, steps);
    var sent := JsonOf(KeptOf(q.offers));
    if steps == [] {
      assert sent + [] == sent;
    } else {
      StepKeepsInvariant(q, steps[0]);
      StepKeepsJson(q, steps[0]);
      if Bounded(q) {
        StepKeepsBound(q, steps[0]);
      }
      RunKeeps(Next(q, steps[0]), steps[1..]);
      var first := if steps[0].SendJson? then [steps[0].value] else [];
      assert sent + first + JsonSent(steps[1..]) == sent + (first + JsonSent(steps[1..]));
    }
  }

  /** Main theorem, for every interleaving of n binary senders, any JSON senders and
      the receiver: the accounting is exact and never underflows; no JSON message is
      dropped or reordered; what was kept is received or still queued, in order; every
      drop saw a full backlog; with a single binary sender the counter never exceeds
      the limit; and a sender that has loaded the counter can do exactly one thing. */
  lemma Accounting<T>(n: nat, steps: seq<Step<T>>)
    requires RunFrom(Initial<T>(n), steps)
    ensures var q := After(Initial<T>(n), steps);
            && q.counter == QueuedBytes(q.queue) + AddedBytes(q.senders) + Popped(q)
            && JsonOf(q.received + q.queue) == JsonSent(steps)
            && q.received + q.queue == KeptOf(q.offers)
            && (forall k :: 0 <= k < |q.offers| && q.offers[k].Dropped? ==>
                  q.offers[k].msg.Binary? && q.offers[k].seen + q.offers[k].msg.size > BINARY_BACKLOG_LIMIT)
            && (n <= 1 ==> q.counter <= BINARY_BACKLOG_LIMIT)
            && (forall i :: 0 <= i < |q.senders| && q.senders[i].Loaded? ==>
                  (Enabled(q, Drop(i)) <==> !Enabled(q, Add(i))))
  {
    hide RunFrom, After, Initial, QueuedBytes, AddedBytes, KeptOf, JsonOf, JsonSent;
    InitialInvariant<T>(n);
    RunKeeps(Initial<T>(n), steps);
    assert [] + JsonSent(steps) == JsonSent(steps);
  }

  /** A second binary sender could push the counter past the limit: both load before
      either adds. The handle does not exclude it; the program does, since all binary
      listeners of a client are on one device and send under its lock. */
  lemma TwoSendersOverrun<T>(n: nat, payload: T) returns (steps: seq<Step<T>>)
    requires n >= 2
    ensures RunFrom(Initial<T>(n), steps)
    ensures After(Initial<T>(n), steps).counter > BINARY_BACKLOG_LIMIT
  {
    var m := Binary(BINARY_BACKLOG_LIMIT, payload);
    var q0 := Initial<T>(n);
    steps := [Load(0, m), Load(1, m), Add(0), Add(1)];
    var q1 := Next(q0, steps[0]);
    var q2 := Next(q1, steps[1]);
    var q3 := Next(q2, steps[2]);
    var q4 := Next(q3, steps[3]);
    var t3: seq<Step<T>> := [Add(1)];
    var t2, t1 := [Add(0)] + t3, [Load(1, m)] + ([Add(0)] + t3);
    assert t3 == [Add(1)] + [];
    RunCons(q3, Add(1), []);
    RunCons(q2, Add(0), t3);
    RunCons(q1, Load(1, m), t2);
    RunCons(q0, Load(0, m), t1);
    assert steps == [Load(0, m)] + t1;
  }

  /** The limit holds in every run exactly when there is at most one binary sender. */
  lemma LimitHoldsExactlyForOneSender<T>(n: nat, payload: T)
    ensures n <= 1 <==> forall steps: seq<Step<T>> :: RunFrom(Initial<T>(n), steps) ==>
              After(Initial<T>(n), steps).counter <= BINARY_BACKLOG_LIMIT
  {
    hide RunFrom, After, Initial;
    if n <= 1 {
      forall steps: seq<Step<T>> | RunFrom(Initial<T>(n), steps)
        ensures After(Initial<T>(n), steps).counter <= BINARY_BACKLOG_LIMIT
      {
        Accounting<T>(n, steps);
      }
    } else {
      var steps := TwoSendersOverrun(n, payload);
    }
  }

  lemma RunCons<T>(q: Queue<T>, step: Step<T>, rest: seq<Step<T>>)
    requires Enabled(q, step) && q.counter >= 0 && RunFrom(Next(q, step), rest)
    ensures RunFrom(q, [step] + rest) && After(q, [step] + rest) == After(Next(q, step), rest)
  {
    assert ([step] + rest)[1..] == rest;
  }

  /** A drained queue has room again: when nothing is in flight the counter is zero,
      so the next frame that fits the limit at all is accepted. */
  lemma DrainedQueueAccepts<T>(n: nat, steps: seq<Step<T>>, i: nat, msg: Message<T>)
    requires RunFrom(Initial<T>(n), steps)
    requires var q := After(Initial<T>(n), steps);
             && q.queue == [] && q.popped.None? && i < |q.senders|
             && forall k :: 0 <= k < |q.senders| ==> q.senders[k].Idle?
    requires msg.Binary? && msg.size <= BINARY_BACKLOG_LIMIT
    ensures var q := After(Initial<T>(n), steps);
            q.counter == 0 && Enabled(Next(q, Load(i, msg)), Add(i)) && !Enabled(Next(q, Load(i, msg)), Drop(i))
  {
    Accounting(n, steps);
    var q := After(Initial<T>(n), steps);
    IdleAddsNothing<T>(|q.senders|);
    assert q.senders == IdleSenders<T>(|q.senders|);
  }

  // ---- the handle and the receiver, running uninterrupted ----

  /** A client's shared queue as the handle and the receiver use it. Each method is a
      fixed sequence of the atomic steps above with nothing in between, so every
      result about interleavings covers it. */
  class Client<T> {
    var queuedBinary: int
    var dropping: bool
    var queue: seq<Message<T>>
    ghost var offers: seq<Offer<T>>
    ghost var received: seq<Message<T>>

    ghost function Shared(): Queue<T>
      reads this
    {
      Queue(queuedBinary, dropping, queue, [Idle], None, offers, received)
    }

    constructor ()
      ensures Shared() == Initial<T>(1) && Invariant(Shared()) && Bounded(Shared())
    {
      queuedBinary, dropping, queue, offers, received := 0, false, [], [], [];
      new;
      InitialInvariant<T>(1);
      assert IdleSenders<T>(1) == [Idle];
    }

    method SendJson(value: T)
      requires Invariant(Shared())
      modifies this
      ensures Enabled(old(Shared()), Step.SendJson(value))
      ensures Shared() == Next(old(Shared()), Step.SendJson(value)) && Invariant(Shared())
      ensures queue == old(queue) + [Json(value)] && offers == old(offers) + [Kept(Json(value))]
      ensures queuedBinary == old(queuedBinary) && dropping == old(dropping) && received == old(received)
    {
      StepKeepsInvariant(Shared(), Step.SendJson(value));
      queue := queue + [Json(value)];
      offers := offers + [Kept(Json(value))];
    }

    /** Queue a data frame, or drop it when the backlog leaves no room. */
    method SendBinary(size: nat, payload: T)
      requires Invariant(Shared()) && Bounded(Shared())
      modifies this
      ensures Invariant(Shared()) && Bounded(Shared())
      ensures old(queuedBinary) >= 0
      ensures var m := Binary(size, payload);
              var q := Next(old(Shared()), Load(0, m));
              Shared() == if old(queuedBinary) + size > BINARY_BACKLOG_LIMIT then Next(q, Drop(0))
                          else Next(Next(q, Add(0)), Push(0))
      ensures dropping == (old(queuedBinary) + size > BINARY_BACKLOG_LIMIT) && received == old(received)
      ensures if dropping then
                && queue == old(queue) && queuedBinary == old(queuedBinary)
                && offers == old(offers) + [Dropped(Binary(size, payload), old(queuedBinary))]
              else
                && queue == old(queue) + [Binary(size, payload)] && queuedBinary == old(queuedBinary) + size
                && offers == old(offers) + [Kept(Binary(size, payload))]
    {
      hide Invariant;
      var m := Binary(size, payload);
      ghost var q0 := Shared();
      StepKeepsInvariant(q0, Load(0, m));
      StepKeepsBound(q0, Load(0, m));
      ghost var q1 := Next(q0, Load(0, m));
      var queued := queuedBinary;
      if queued + size > BINARY_BACKLOG_LIMIT {
        StepKeepsInvariant(q1, Drop(0));
        StepKeepsBound(q1, Drop(0));
        dropping := true;
        offers := offers + [Dropped(m, queued)];
        assert q1.senders[0 := Idle] == [Idle];
        return;
      }
      StepKeepsInvariant(q1, Add(0));
      StepKeepsBound(q1, Add(0));
      ghost var q2 := Next(q1, Add(0));
      StepKeepsInvariant(q2, Push(0));
      StepKeepsBound(q2, Push(0));
      dropping := false;
      queuedBinary := queuedBinary + size;
      queue := queue + [m];
      offers := offers + [Kept(m)];
      assert q2.senders[0 := Idle] == [Idle];
    }

    /** Take the oldest message; None when the queue is empty. */
    method TryRecv() returns (m: Option<Message<T>>)
      requires Invariant(Shared()) && Bounded(Shared())
      modifies this
      ensures Invariant(Shared()) && Bounded(Shared())
      ensures m.None? <==> old(queue) == []
      ensures m.None? ==> Shared() == old(Shared())
      ensures m.Some? ==>
                m.value == old(queue)[0] && queue == old(queue)[1..] && received == old(received) + [m.value]
                && queuedBinary == old(queuedBinary) - Bytes(m.value) >= 0
                && offers == old(offers) && dropping == old(dropping)
    {
      if queue == [] {
        return None;
      }
      ghost var q0 := Shared();
      StepKeepsInvariant(q0, Pop);
      StepKeepsBound(q0, Pop);
      ghost var q1 := Next(q0, Pop);
      var first := queue[0];
      if first.Binary? {
        StepKeepsInvariant(q1, Subtract);
        StepKeepsBound(q1, Subtract);
        queuedBinary := queuedBinary - first.size;
      }
      queue := queue[1..];
      received := received + [first];
      assert Shared() == if first.Binary? then Next(q1, Subtract) else q1;
      return Some(first);
    }
  }
}
