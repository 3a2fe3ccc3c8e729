/** The toast queue of client/src/context/toast.tsx. `toast` appends a
    message; while the queue is non-empty a three-second timer drops the
    oldest one; the container shows the queue in order. Time is not
    modelled: the effect re-arms a fresh timer on every change to the queue,
    so a push postpones the oldest entry's expiry, and a `Tick` that may
    come after any step over-approximates that schedule. Order properties
    proved for every interleaving therefore hold for the real one. */
module Toast {
  datatype Kind = Success | Error

  datatype Toast = Toast(message: string, kind: Kind)

  const ExpiryMs: nat := 3000

  /** The queue when the hook starts. */
  function Initial(): (q: seq<Toast>)
    ensures |q| == 0
  {
    []
  }

  /** `toast(...)`: the new entry goes behind every waiting one. */
  function Push(q: seq<Toast>, t: Toast): (r: seq<Toast>)
    ensures |r| == |q| + 1 && r[|q|] == t
    ensures forall i :: 0 <= i < |q| ==> r[i] == q[i]
  {
    q + [t]
  }

  /** Whether the effect arms the expiry timer for this queue. */
  predicate TimerArmed(q: seq<Toast>) {
    |q| > 0
  }

  /** The timer firing: the oldest entry, and only it, leaves. With no timer
      armed nothing happens. */
  function Expire(q: seq<Toast>): (r: seq<Toast>)
    ensures TimerArmed(q) ==> |r| == |q| - 1 && forall i :: 0 <= i < |r| ==> r[i] == q[i + 1]
    ensures !TimerArmed(q) ==> r == q
  {
    if TimerArmed(q) then q[1..] else q
  }

  /** The messages the container shows, top to bottom. */
  function Render(q: seq<Toast>): (shown: seq<string>)
    ensures |shown| == |q|
    ensures forall i :: 0 <= i < |q| ==> shown[i] == q[i].message
  {
    seq(|q|, i requires 0 <= i < |q| => q[i].message)
  }

  /** What can happen to the queue. */
  datatype Op = Add(t: Toast) | Tick

  /** The queue and the entries that have left it, in leaving order. */
  datatype History = History(queue: seq<Toast>, departed: seq<Toast>)

  function Step(h: History, op: Op): History {
    match op
    case Add(t) => History(Push(h.queue, t), h.departed)
    case Tick =>
      if TimerArmed(h.queue) then History(Expire(h.queue), h.departed + [h.queue[0]]) else h
  }

  /** The history after a run of operations from the initial queue. */
  function Run(ops: seq<Op>): History
    decreases |ops|
  {
    if |ops| == 0 then History(Initial(), [])
    else Step(Run(ops[..|ops| - 1]), ops[|ops| - 1])
  }

  /** Every entry added, in the order added. */
  function Added(ops: seq<Op>): seq<Toast>
    decreases |ops|
  {
    if |ops| == 0 then []
    else
      var last := ops[|ops| - 1];
      Added(ops[..|ops| - 1]) + (if last.Add? then [last.t] else [])
  }

  /** First in, first out: the entries that left, followed by those still
      waiting, are exactly the entries added, in the same order. */
  lemma {:induction false} FirstInFirstOut(ops: seq<Op>)
    ensures Run(ops).departed + Run(ops).queue == Added(ops)
    decreases |ops|
  {
    if |ops| > 0 {
      var prefix := ops[..|ops| - 1];
      FirstInFirstOut(prefix);
      var last := ops[|ops| - 1];
      StepKeepsOrder(Run(prefix), last);
    }
  }

  /** One operation appends the added entry, if any, to the combined
      sequence of departed and waiting entries. */
  lemma StepKeepsOrder(h: History, op: Op)
    ensures Step(h, op).departed + Step(h, op).queue
      == h.departed + h.queue + (if op.Add? then [op.t] else [])
  {
    if op.Add? {
      assert h.departed + (h.queue + [op.t]) == (h.departed + h.queue) + [op.t];
    } else if TimerArmed(h.queue) {
      assert h.queue == [h.queue[0]] + h.queue[1..];
      assert (h.departed + [h.queue[0]]) + h.queue[1..] == h.departed + h.queue;
    }
  }
}
