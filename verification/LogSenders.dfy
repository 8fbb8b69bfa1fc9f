/**
  The log sender: records queue up without blocking the logger, and one goroutine batches
  and posts them.
 */
module LogSenders {

  type Record = nat

  /**
    Where the delivery goroutine is: at its loop head, draining the queue for a flush or
    about to post what it drained, the same for the last time, or gone.
   */
  datatype Phase = Loop | Flushing(mark: nat) | FlushPosting(mark: nat) | Stopping | StopPosting | Gone

  /**
    accepted lists the records taken into the queue, in order; mark, in a flush, and
    stopMark, once the sender is stopped, say how many there were when it began.
   */
  datatype State = State(
    queue: seq<Record>,
    batch: seq<Record>,
    posted: seq<seq<Record>>,
    stopped: bool,
    phase: Phase,
    accepted: seq<Record>,
    stopMark: nat)

  /** How many records queue up, and how many make a batch. */
  datatype Limits = Limits(queue: nat, batch: nat)

  /** FlushDrained and StopDrained are the goroutine finding the queue empty. */
  datatype Action =
    | Enqueue(r: Record, taken: bool)
    | Receive
    | Tick
    | BeginFlush
    | DrainOne
    | FlushDrained
    | EndFlush
    | Stop
    | BeginStop
    | StopDrained
    | EndStop

  const START := State([], [], [], false, Loop, [], 0)

  function Post(s: State): State {
    if s.batch == [] then s else s.(posted := s.posted + [s.batch], batch := [])
  }

  /** A record is taken when there is room; after the stop it may be dropped even then. */
  predicate Enabled(l: Limits, s: State, a: Action) {
    match a
    case Enqueue(_, taken) => if taken then |s.queue| < l.queue else |s.queue| >= l.queue || s.stopped
    case Receive => s.phase.Loop? && s.queue != []
    case Tick => s.phase.Loop?
    case BeginFlush => s.phase.Loop?
    case DrainOne => (s.phase.Flushing? || s.phase.Stopping?) && s.queue != []
    case FlushDrained => s.phase.Flushing? && s.queue == []
    case EndFlush => s.phase.FlushPosting?
    case Stop => !s.stopped
    case BeginStop => s.phase.Loop? && s.stopped
    case StopDrained => s.phase.Stopping? && s.queue == []
    case EndStop => s.phase.StopPosting?
  }

  function Apply(l: Limits, s: State, a: Action): State
    requires Enabled(l, s, a)
  {
    match a
    case Enqueue(r, taken) => if taken then s.(queue := s.queue + [r], accepted := s.accepted + [r]) else s
    case Receive =>
      var t := s.(queue := s.queue[1..], batch := s.batch + [s.queue[0]]);
      if |t.batch| >= l.batch then Post(t) else t
    case Tick => Post(s)
    case BeginFlush => s.(phase := Flushing(|s.accepted|))
    case DrainOne => s.(queue := s.queue[1..], batch := s.batch + [s.queue[0]])
    case FlushDrained => s.(phase := FlushPosting(s.phase.mark))
    case EndFlush => Post(s).(phase := Loop)
    case Stop => s.(stopped := true, stopMark := |s.accepted|)
    case BeginStop => s.(phase := Stopping)
    case StopDrained => s.(phase := StopPosting)
    case EndStop => Post(s).(phase := Gone)
  }

  function Joined(batches: seq<seq<Record>>): seq<Record> {
    if batches == [] then [] else Joined(batches[..|batches| - 1]) + batches[|batches| - 1]
  }

  ghost predicate NoneEmpty(batches: seq<seq<Record>>) {
    forall i :: 0 <= i < |batches| ==> batches[i] != []
  }

  /** What has been posted, the batch and the queue are the accepted records in order. */
  ghost predicate Inv(l: Limits, s: State) {
    && Joined(s.posted) + s.batch + s.queue == s.accepted
    && |s.queue| <= l.queue
    && (s.phase.Loop? ==> |s.batch| < l.batch)
    && NoneEmpty(s.posted)
    && (s.phase.Flushing? ==> s.phase.mark <= |s.accepted|)
    && (s.phase.FlushPosting? ==> s.phase.mark <= |s.accepted| - |s.queue|)
    && (s.stopped ==> s.stopMark <= |s.accepted|)
    && (s.phase.Stopping? || s.phase.StopPosting? || s.phase.Gone? ==> s.stopped)
    && (s.phase.StopPosting? ==> s.stopMark <= |s.accepted| - |s.queue|)
    && (s.phase.Gone? ==> s.batch == [] && s.stopMark <= |Joined(s.posted)|)
  }

  lemma PostKeeps(l: Limits, s: State)
    requires Joined(s.posted) + s.batch + s.queue == s.accepted
    ensures var t := Post(s);
      && Joined(t.posted) + t.queue == s.accepted && t.batch == [] && |Joined(t.posted)| == |s.accepted| - |s.queue|
      && t.queue == s.queue && t.accepted == s.accepted && t.stopped == s.stopped
      && t.stopMark == s.stopMark && t.phase == s.phase
    ensures NoneEmpty(s.posted) ==> NoneEmpty(Post(s).posted)
  {
    assert (s.posted + [s.batch])[..|s.posted|] == s.posted;
  }

  /** Every step of the loggers, the flushers, the closer and the delivery goroutine keeps it. */
  lemma StepKeeps(l: Limits, s: State, a: Action)
    requires l.batch >= 1 && Inv(l, s) && Enabled(l, s, a)
    ensures Inv(l, Apply(l, s, a))
  {
    match a {
      case Receive => ReceiveKeeps(l, s);
      case DrainOne => TakeOne(s);
      case Tick => PostKeeps(l, s);
      case EndFlush => PostKeeps(l, s);
      case EndStop => PostKeeps(l, s);
      case Enqueue(r, taken) =>
        assert taken ==> Joined(s.posted) + s.batch + (s.queue + [r]) == s.accepted + [r];
      case _ =>
    }
  }

  lemma TakeOne(s: State)
    requires Joined(s.posted) + s.batch + s.queue == s.accepted && s.queue != []
    ensures Joined(s.posted) + (s.batch + [s.queue[0]]) + s.queue[1..] == s.accepted
  {
    assert s.queue == [s.queue[0]] + s.queue[1..];
  }

  lemma ReceiveKeeps(l: Limits, s: State)
    requires l.batch >= 1 && Inv(l, s) && Enabled(l, s, Receive)
    ensures Inv(l, Apply(l, s, Receive))
  {
    var t := s.(queue := s.queue[1..], batch := s.batch + [s.queue[0]]);
    TakeOne(s);
    if |t.batch| >= l.batch {
      PostKeeps(l, t);
    }
  }

  /** The interval posts whatever has been received, and a full batch is posted at once; otherwise nothing is. */
  lemma PostsWhen(l: Limits, s: State, a: Action)
    requires Enabled(l, s, a) && (a.Tick? || a.Receive?)
    ensures var t := Apply(l, s, a);
      var got := if a.Receive? then s.batch + [s.queue[0]] else s.batch;
      && t.queue == (if a.Receive? then s.queue[1..] else s.queue) && t.accepted == s.accepted && t.phase == s.phase
      && if got != [] && (a.Tick? || |got| >= l.batch) then t.batch == [] && t.posted == s.posted + [got]
         else t.batch == got && t.posted == s.posted
  {
  }

  ghost predicate StepAt(l: Limits, ss: seq<State>, acts: seq<Action>, i: nat) {
    i < |acts| && i + 1 < |ss| && Enabled(l, ss[i], acts[i]) && ss[i + 1] == Apply(l, ss[i], acts[i])
  }

  ghost predicate Run(l: Limits, ss: seq<State>, acts: seq<Action>) {
    && |ss| == |acts| + 1 && ss[0] == START
    && forall i :: 0 <= i < |acts| ==> StepAt(l, ss, acts, i)
  }

  lemma {:induction false} AlwaysInv(l: Limits, ss: seq<State>, acts: seq<Action>, i: nat)
    requires l.batch >= 1 && Run(l, ss, acts) && i < |ss|
    ensures Inv(l, ss[i])
  {
    if i > 0 {
      AlwaysInv(l, ss, acts, i - 1);
      assert StepAt(l, ss, acts, i - 1);
      StepKeeps(l, ss[i - 1], acts[i - 1]);
    }
  }

  /** Accepted and posted records only grow. */
  lemma {:induction false} Grows(l: Limits, ss: seq<State>, acts: seq<Action>, i: nat, j: nat)
    requires Run(l, ss, acts) && i <= j < |ss|
    ensures ss[i].accepted <= ss[j].accepted && ss[i].posted <= ss[j].posted
    ensures ss[i].stopped ==> ss[j].stopped && ss[j].stopMark == ss[i].stopMark
    decreases j
  {
    if i < j {
      Grows(l, ss, acts, i, j - 1);
      assert StepAt(l, ss, acts, j - 1);
    }
  }

  /** While a flush runs, its mark stays what it was. */
  lemma {:induction false} FlushRuns(l: Limits, ss: seq<State>, acts: seq<Action>, i: nat, j: nat)
    requires Run(l, ss, acts) && i < j < |ss| && acts[i] == BeginFlush
    requires forall k :: i < k < j ==> acts[k] != EndFlush
    ensures ss[j].phase == Flushing(|ss[i].accepted|) || ss[j].phase == FlushPosting(|ss[i].accepted|)
    decreases j
  {
    assert StepAt(l, ss, acts, j - 1);
    if i < j - 1 {
      FlushRuns(l, ss, acts, i, j - 1);
    }
  }

  /** When a flush is over, every record accepted before it began has been posted, in order. */
  lemma FlushPosts(l: Limits, ss: seq<State>, acts: seq<Action>, i: nat, j: nat)
    requires l.batch >= 1 && Run(l, ss, acts) && i < j < |acts| && acts[i] == BeginFlush && acts[j] == EndFlush
    requires forall k :: i < k < j ==> acts[k] != EndFlush
    ensures ss[i].accepted <= Joined(ss[j + 1].posted)
  {
    AlwaysInv(l, ss, acts, j);
    Grows(l, ss, acts, i, j);
    FlushRuns(l, ss, acts, i, j);
    assert StepAt(l, ss, acts, j);
    PostKeeps(l, ss[j]);
    var p := Joined(ss[j + 1].posted);
    assert p == ss[j].accepted[..|p|];
    assert ss[i].accepted == ss[j].accepted[..|ss[i].accepted|];
  }

  lemma {:induction false} StoppingLasts(l: Limits, ss: seq<State>, acts: seq<Action>, i: nat, j: nat)
    requires Run(l, ss, acts) && i <= j < |ss| && ss[i].phase.Gone?
    ensures ss[j].phase.Gone? && ss[j].posted == ss[i].posted
    decreases j
  {
    if i < j {
      StoppingLasts(l, ss, acts, i, j - 1);
      assert StepAt(l, ss, acts, j - 1);
    }
  }

  /**
    When the delivery goroutine is gone, the posted records are the accepted ones in order,
    each once, up to some point after every record accepted before the stop; nothing is
    posted later.
   */
  lemma ClosePosts(l: Limits, ss: seq<State>, acts: seq<Action>, i: nat, j: nat)
    requires l.batch >= 1 && Run(l, ss, acts) && i < j < |ss| && acts[i] == Stop && ss[j].phase.Gone?
    ensures ss[i].accepted <= Joined(ss[j].posted) <= ss[j].accepted
    ensures forall k :: j <= k < |ss| ==> ss[k].posted == ss[j].posted
  {
    AlwaysInv(l, ss, acts, j);
    assert StepAt(l, ss, acts, i);
    Grows(l, ss, acts, i + 1, j);
    Grows(l, ss, acts, i, j);
    var p := Joined(ss[j].posted);
    assert ss[j].accepted[..|p|] == p;
    assert ss[j].accepted[..|ss[i].accepted|] == ss[i].accepted;
    forall k | j <= k < |ss|
      ensures ss[k].posted == ss[j].posted
    {
      StoppingLasts(l, ss, acts, j, k);
    }
  }

  // ---------------------------------------------------------------------------
  // The sender
  // ---------------------------------------------------------------------------

  class Sender {
    const limits: Limits

    var queue: seq<Record>
    var batch: seq<Record>
    var posted: seq<seq<Record>>
    var stopped: bool
    var phase: Phase

    ghost var accepted: seq<Record>
    ghost var stopMark: nat

    ghost function S(): State
      reads this
    {
      State(queue, batch, posted, stopped, phase, accepted, stopMark)
    }

    constructor (limits: Limits)
      ensures this.limits == limits && S() == START
    {
      this.limits := limits;
      queue, batch, posted, stopped, phase, accepted, stopMark := [], [], [], false, Loop, [], 0;
    }

    /** Takes the record if there is room; a stopped sender may drop it either way. */
    method EnqueueRecord(r: Record, drop: bool) returns (ghost a: Action)
      modifies this`queue, this`accepted
      ensures a.Enqueue? && a.r == r && Enabled(limits, old(S()), a) && S() == Apply(limits, old(S()), a)
      ensures a.taken <==> |old(queue)| < limits.queue && !(stopped && drop)
    {
      if |queue| < limits.queue && !(stopped && drop) {
        queue := queue + [r];
        accepted := accepted + [r];
        a := Enqueue(r, true);
      } else {
        a := Enqueue(r, false);
      }
    }

    method PostBatch()
      modifies this`batch, this`posted
      ensures S() == Post(old(S()))
    {
      if batch == [] {
        return;
      }
      posted := posted + [batch];
      batch := [];
    }

    /** The loop takes one record. */
    method ReceiveRecord()
      requires Enabled(limits, S(), Receive)
      modifies this`queue, this`batch, this`posted
      ensures S() == Apply(limits, old(S()), Receive)
    {
      batch := batch + [queue[0]];
      queue := queue[1..];
      if |batch| >= limits.batch {
        PostBatch();
      }
    }

    /**
      A flush as the loop serves it, while nobody else uses the queue: drains it, posts the
      batch and goes back to the loop. It comes to the same as the single steps.
     */
    method Flush()
      requires phase.Loop?
      modifies this`queue, this`batch, this`posted, this`phase
      ensures queue == [] && batch == [] && phase.Loop?
      ensures Joined(posted) == Joined(old(posted)) + old(batch) + old(queue)
    {
      phase := Flushing(0);
      Drain();
      ghost var s := S();
      PostBatch();
      assert s.batch != [] ==> posted[..|posted| - 1] == s.posted;
      phase := Loop;
    }

    /** Appends every record that is queued to the batch. */
    method Drain()
      modifies this`queue, this`batch
      ensures queue == [] && batch == old(batch) + old(queue)
    {
      while queue != []
        invariant batch + queue == old(batch) + old(queue)
        decreases |queue|
      {
        batch := batch + [queue[0]];
        queue := queue[1..];
      }
    }

    /** Stops, drains and posts for the last time, while nobody else uses the queue. */
    method Close()
      requires phase.Loop?
      modifies this
      ensures stopped && phase.Gone? && queue == [] && batch == []
      ensures Joined(posted) == Joined(old(posted)) + old(batch) + old(queue)
    {
      if !stopped {
        stopMark := |accepted|;
      }
      stopped := true;
      phase := Stopping;
      Drain();
      ghost var s := S();
      PostBatch();
      assert s.batch != [] ==> posted[..|posted| - 1] == s.posted;
      phase := Gone;
    }
  }
}
