/** The completion side of a ring used through file handles, as a transition system.
    The kernel posts CQEs, any number of goroutines run ringFIO.getCqe, each for its own request,
    and one goroutine runs completer.run. Every atomic load, store, channel operation and entry
    read is a step of its own, so a run is an arbitrary interleaving. */
module FileProtocol {
  import opened Words
  import opened Window

  /** Program counter and locals of one getCqe call. `pos` is history: the logical position
      of the CQE the call matched. */
  datatype Reader =
    | Restart                                   // label findCqe
    | HeadLoaded(head: u32)
    | First(x: nat, end: nat)                   // loop from head & mask to the ring end
    | Reload                                    // tail is loaded again
    | Second(x: nat, end: nat)                  // loop from slot 0 to end
    | Acking(x: nat, res: int, pos: nat)        // matched, about to call completer.complete
    | Done(res: int, pos: nat)                  // returned; a negative res is returned as an error

  /** Program counter and locals of completer.run. */
  datatype Mover = Idle | Woken | Moving(cur: nat, seen: nat)

  /** The shared memory and every goroutine. The last four fields are history: the code does not
      have them and no step below looks at them to decide what the code does. */
  datatype State = State(
    n: nat,
    headWord: u32,
    tailWord: u32,
    entries: seq<Cqe>,
    lastId: nat,
    readers: map<nat, Reader>,
    queue: seq<nat>,
    unacked: set<nat>,
    mover: Mover,
    head: nat,
    posted: seq<Cqe>,
    queued: seq<nat>,
    acked: set<nat>
  )

  datatype Step =
    | Submit            // a goroutine takes an id, submits, and starts getCqe
    | Post(c: Cqe)      // the kernel completes an entry it has taken, whatever entry that was
    | Read(id: nat)     // one step of the getCqe call for id
    | Receive           // completer: take a slot from the channel into the map
    | Load              // completer: load head
    | Delete            // completer: one turn of the inner loop
    | Store             // completer: leave the inner loop and add to head

  /** Capacity of the completer's channel. */
  const CHANNEL: nat := 512

  function Init(n: nat): State
    requires n > 0
  {
    State(n, 0, 0, seq(n, _ => ZERO), 0, map[], [], {}, Idle, 0, [], [], {})
  }

  /** Overlapping claims can make the kernel take an entry twice, or one whose id is not filled in yet (see
      Submission.BatchOfTwo and Submission.StaleRetake), so Post may carry any id given out so far, or 0, and
      may carry it again. */
  predicate Enabled(s: State, a: Step) {
    match a
    case Submit => true
    case Post(c) => c.userData <= s.lastId && SubWord(s.tailWord, s.headWord) < s.n
    case Read(id) =>
      id in s.readers && !s.readers[id].Done? && (s.readers[id].Acking? ==> |s.queue| < CHANNEL)
    case Receive => s.mover.Idle? && s.queue != []
    case Load => s.mover.Woken?
    case Delete => s.mover.Moving? && s.mover.cur + s.mover.seen in s.unacked
    case Store => s.mover.Moving? && s.mover.cur + s.mover.seen !in s.unacked
  }

  /** The comparison both loops of getCqe make on entry `x`; `next` is where the loop goes on a miss. */
  function Examine(s: State, id: nat, x: nat, next: Reader): Reader
    requires s.n == |s.entries| > x
  {
    var c := s.entries[x];
    if c.userData != id then next
    else
      var pos := Occupant(|s.posted|, s.n, x);
      var p := if pos < 0 then 0 else pos;
      if c.res < 0 then Done(c.res, p) else Acking(x, c.res, p)
  }

  function ReaderNext(s: State, id: nat, r: Reader): Reader
    requires s.n == |s.entries| > 0
  {
    match r
    case Restart => HeadLoaded(s.headWord)
    case HeadLoaded(h) => First(And(h, s.n - 1), And(s.tailWord, s.n - 1))
    case First(x, end) =>
      if x >= s.n then Reload
      else Examine(s, id, x, if x == end then Restart else First(x + 1, end))
    case Reload => Second(0, And(s.tailWord, s.n - 1))
    case Second(x, end) =>
      if x >= end || x >= s.n then Restart else Examine(s, id, x, Second(x + 1, end))
    case Acking(x, res, pos) => Done(res, pos)
    case Done(_, _) => r
  }

  function Do(s: State, a: Step): State
    requires s.n == |s.entries| > 0 && Enabled(s, a)
  {
    match a
    case Submit =>
      var id := s.lastId + 1;
      s.(lastId := id, readers := s.readers[id := Restart])
    case Post(c) =>
      s.(entries := s.entries[And(s.tailWord, s.n - 1) := c], tailWord := AddWord(s.tailWord, 1),
         posted := s.posted + [c])
    case Read(id) =>
      var r := s.readers[id];
      var s' := s.(readers := s.readers[id := ReaderNext(s, id, r)]);
      if r.Acking? then s'.(queue := s.queue + [r.x], queued := s.queued + [r.pos]) else s'
    case Receive =>
      s.(queue := s.queue[1..], unacked := s.unacked + {s.queue[0]}, mover := Woken,
         queued := if s.queued == [] then [] else s.queued[1..],
         acked := if s.queued == [] then s.acked else s.acked + {s.queued[0]})
    case Load => s.(mover := Moving(And(s.headWord, s.n - 1), 0))
    case Delete =>
      s.(unacked := s.unacked - {s.mover.cur + s.mover.seen}, mover := Moving(s.mover.cur, s.mover.seen + 1))
    case Store =>
      s.(headWord := AddWord(s.headWord, s.mover.seen), mover := Idle, head := s.head + s.mover.seen)
  }

  // ---------- Runs ----------

  /** Step `a` is taken in `s` and leads to `s'`. */
  ghost predicate Makes(s: State, a: Step, s': State) {
    s.n == |s.entries| && s.n > 0 && Enabled(s, a) && s' == Do(s, a)
  }

  /** Each step of `run` leads from one of the states to the next. */
  ghost predicate Path(states: seq<State>, run: seq<Step>) {
    |states| == |run| + 1 && forall i :: 0 <= i < |run| ==> Makes(states[i], run[i], states[i + 1])
  }

  /** `s'` follows from `s` by the steps of `run`, in order. */
  ghost predicate Continues(s: State, run: seq<Step>, s': State) {
    exists states :: Path(states, run) && states[0] == s && states[|run|] == s'
  }

  lemma LastStep(s: State, run: seq<Step>, s': State) returns (r: State)
    requires run != [] && Continues(s, run, s')
    ensures Continues(s, run[..|run| - 1], r) && Makes(r, run[|run| - 1], s')
  {
    var states :| Path(states, run) && states[0] == s && states[|run|] == s';
    var last := |run| - 1;
    r := states[last];
    assert Makes(states[last], run[last], states[last + 1]);
    assert Path(states[..|run|], run[..last]);
  }

  /** `s` is reached from the empty ring of `n` slots by the steps of `run`. */
  ghost predicate Reaches(n: nat, run: seq<Step>, s: State) {
    n > 0 && Continues(Init(n), run, s)
  }
}
