/** ringSubmitter.run: submissions are counted and flushed together when a deadline timer fires. */
module Batching {

  /** What one Enter returns: how many entries were accepted, or an error. */
  datatype Reply = Accepted(n: nat) | Failed

  /** The replies to the Enter calls of one flush, in order. Every success accepts something. */
  ghost predicate Progressing(replies: nat -> Reply) {
    forall i :: replies(i).Accepted? ==> replies(i).n > 0
  }

  /** What the first `k` replies accept together. */
  function Total(replies: nat -> Reply, k: nat): nat {
    if k == 0 then 0 else Total(replies, k - 1) + if replies(k - 1).Accepted? then replies(k - 1).n else 0
  }

  /** The first `k` Enter calls succeed. */
  ghost predicate Succeed(replies: nat -> Reply, k: nat) {
    forall i :: 0 <= i < k ==> replies(i).Accepted?
  }

  /** `k` Enter calls are enough to flush `count` submissions, and no fewer are. */
  ghost predicate Flushes(replies: nat -> Reply, count: nat, k: nat) {
    Succeed(replies, k) && Total(replies, k) >= count && forall j: nat :: j < k ==> Total(replies, j) < count
  }

  /** The `k`-th Enter call fails before `count` submissions have been accepted. */
  ghost predicate Breaks(replies: nat -> Reply, count: nat, k: nat) {
    Succeed(replies, k) && replies(k).Failed? && forall j: nat :: j <= k ==> Total(replies, j) < count
  }

  /** A flush of `count` submissions succeeds. */
  ghost predicate Suffices(replies: nat -> Reply, count: nat) {
    exists k: nat :: Succeed(replies, k) && Total(replies, k) >= count
  }

  lemma {:induction false} TotalGrows(replies: nat -> Reply, j: nat, k: nat)
    requires j <= k
    ensures Total(replies, j) <= Total(replies, k)
    decreases k
  {
    if j < k { TotalGrows(replies, j, k - 1); }
  }

  /** A flush that breaks off does not succeed. */
  lemma {:induction false} BreaksNotSuffices(replies: nat -> Reply, count: nat, k: nat)
    requires Breaks(replies, count, k)
    ensures !Suffices(replies, count)
  {
    forall j: nat | Succeed(replies, j) ensures Total(replies, j) < count {
      assert j <= k || replies(k).Accepted?;
    }
  }

  datatype Event = Work | Fire(replies: nat -> Reply)

  class Submitter {
    var count: nat              // submissions since the last flush
    var seen: nat               // accepted by the flush under way
    var timerActive: bool
    var armed: bool             // the timer itself: reset, and not fired yet
    ghost var received: nat     // work tokens taken from the channel
    ghost var flushed: nat      // work tokens of completed flushes
    ghost var flushes: nat

    /** No Enter has failed so far. */
    ghost predicate Healthy()
      reads this
    {
      (timerActive <==> count > 0) && (armed <==> timerActive) && seen == 0 && received == flushed + count
    }

    /** An Enter has failed: the flag says a timer is running, and none is. */
    ghost predicate Stalled()
      reads this
    {
      timerActive && !armed && received == flushed + count
    }

    constructor ()
      ensures Healthy() && received == 0 && flushes == 0
    {
      count, seen, timerActive, armed := 0, 0, false, false;
      received, flushed, flushes := 0, 0, 0;
    }

    method Work()
      requires Healthy() || Stalled()
      modifies this
      ensures received == old(received) + 1 && flushed == old(flushed) && flushes == old(flushes)
      ensures old(Healthy()) ==> Healthy()
      ensures old(Stalled()) ==> Stalled()
    {
      if !timerActive {
        timerActive := true;
        armed := true;
      }
      count := count + 1;
      received := received + 1;
    }

    /** The timer has fired: enter until everything counted is accepted, or an Enter fails. */
    method Fire(replies: nat -> Reply) returns (accepted: nat, ok: bool)
      requires Healthy() && armed && Progressing(replies)
      modifies this
      ensures received == old(received) && (ok <==> Suffices(replies, old(count)))
      ensures ok ==>
                && Healthy() && flushed == old(flushed) + old(count) == received && flushes == old(flushes) + 1
                && exists k: nat :: Flushes(replies, old(count), k) && accepted == Total(replies, k)
      ensures !ok ==>
                && Stalled() && flushed == old(flushed) && flushes == old(flushes) && count == old(count)
                && seen == accepted && exists k: nat :: Breaks(replies, count, k) && accepted == Total(replies, k)
    {
      armed := false;
      var i := 0;
      while seen < count
        invariant unchanged(this`count) && unchanged(this`timerActive) && unchanged(this`received)
        invariant unchanged(this`flushed) && unchanged(this`flushes) && !armed
        invariant seen == Total(replies, i) && Succeed(replies, i)
        invariant forall j: nat :: j < i ==> Total(replies, j) < count
        decreases count - seen
      {
        var reply := replies(i);
        if reply.Failed? {
          assert Breaks(replies, count, i);
          BreaksNotSuffices(replies, count, i);
          return seen, false;
        }
        seen := seen + reply.n;
        i := i + 1;
      }
      assert Flushes(replies, count, i);
      accepted := seen;
      flushed := flushed + count;
      flushes := flushes + 1;
      seen, count, timerActive := 0, 0, false;
      ok := true;
    }

    /** A whole run of events; the timer fires only when it is armed. Every token received belongs to exactly one flush
        or to the current count. `failedAt` is the first event at which the timer fires with something counted and its
        flush does not succeed; up to there every firing with something counted is a flush of all of it, and from
        there on there is none. */
    method Serve(events: seq<Event>) returns (failedAt: int)
      requires Healthy() && forall e :: e in events && e.Fire? ==> Progressing(e.replies)
      modifies this
      ensures received == flushed + count && received == old(received) + Works(events)
      ensures -1 <= failedAt < |events|
      ensures forall i: nat :: i < |events| && Fails(old(count), events, i) ==> 0 <= failedAt <= i
      ensures failedAt == -1 ==>
                && Healthy() && count == Since(old(count), events)
                && flushes == old(flushes) + Firings(old(count), events)
      ensures failedAt >= 0 ==>
                && Stalled() && Fails(old(count), events, failedAt)
                && flushes == old(flushes) + Firings(old(count), events[..failedAt])
                && flushed == old(received) + Works(events[..failedAt]) - Since(old(count), events[..failedAt])
    {
      ghost var before, start := flushes, count;
      failedAt := -1;
      for i := 0 to |events|
        invariant -1 <= failedAt < i
        invariant received == flushed + count && received == old(received) + Works(events[..i])
        invariant forall j: nat :: j < i && Fails(start, events, j) ==> 0 <= failedAt <= j
        invariant failedAt == -1 ==>
                    Healthy() && count == Since(start, events[..i]) && flushes == before + Firings(start, events[..i])
        invariant failedAt >= 0 ==>
                    && Stalled() && Fails(start, events, failedAt)
                    && flushes == before + Firings(start, events[..failedAt])
                    && flushed == old(received) + Works(events[..failedAt]) - Since(start, events[..failedAt])
      {
        assert events[..i + 1][..i] == events[..i] && events[i] in events;
        if events[i].Work? {
          Work();
        } else if armed {
          var accepted, ok := Fire(events[i].replies);
          if !ok { failedAt := i; }
        }
      }
      assert events[..|events|] == events;
    }

    /** After one failed flush nothing is ever flushed again, however much work arrives: the timer is never armed. */
    method ServeStalled(events: seq<Event>)
      requires Stalled() && forall e :: e in events && e.Fire? ==> Progressing(e.replies)
      modifies this
      ensures Stalled() && flushes == old(flushes) && flushed == old(flushed)
      ensures received == old(received) + Works(events)
    {
      for i := 0 to |events|
        invariant Stalled() && flushes == old(flushes) && flushed == old(flushed)
        invariant received == old(received) + Works(events[..i])
      {
        assert events[..i + 1][..i] == events[..i];
        if events[i].Work? {
          Work();
        } else if armed {
          assert false;
        }
      }
      assert events[..|events|] == events;
    }
  }

  /** What is counted after the events when every flush succeeds: the work since the last firing of the timer. */
  function Since(start: nat, events: seq<Event>): nat {
    if events == [] then start
    else if events[|events| - 1].Work? then Since(start, events[..|events| - 1]) + 1
    else 0
  }

  /** The firings that find something counted. */
  function Firings(start: nat, events: seq<Event>): nat {
    if events == [] then 0
    else
      var before := events[..|events| - 1];
      Firings(start, before) + if events[|events| - 1].Fire? && Since(start, before) > 0 then 1 else 0
  }

  /** At event `i` the timer fires with something counted, and the flush does not succeed. */
  ghost predicate Fails(start: nat, events: seq<Event>, i: nat)
    requires i < |events|
  {
    var counted := Since(start, events[..i]);
    events[i].Fire? && counted > 0 && !Suffices(events[i].replies, counted)
  }

  /** The work tokens among the events. */
  function Works(events: seq<Event>): nat {
    if events == [] then 0 else Works(events[..|events| - 1]) + if events[|events| - 1].Work? then 1 else 0
  }
}
