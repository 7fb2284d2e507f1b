/**
 * `BroadcastThread.run`: read up to 512 bytes of the transcoder's output,
 * forward every non-empty read to all viewers, and on an empty read stop once
 * the transcoder process has exited. The pipe and the process are given as a
 * finite sequence of observations, one per loop iteration.
 */
module Broadcast {
  import opened Basics

  /** The read quantum of `converter.stdout.read(512)`. */
  const ReadSize: nat := 512

  /** One iteration's view: the bytes read, and whether `poll()` would report an exit. */
  datatype Observation = Observation(read: seq<byte>, exited: bool)

  predicate WellFormed(obs: seq<Observation>) {
    forall i :: 0 <= i < |obs| ==> |obs[i].read| <= ReadSize
  }

  /** The iteration that breaks the loop: nothing read and the process gone. */
  predicate EndOfStream(o: Observation) {
    |o.read| == 0 && o.exited
  }

  /** The non-empty reads, in order: what a faithful forwarder sends. */
  function Forwarded(obs: seq<Observation>): (chunks: seq<seq<byte>>)
    ensures |chunks| <= |obs|
    ensures forall c :: c in chunks ==> |c| > 0
  {
    if |obs| == 0 then []
    else (if |obs[0].read| > 0 then [obs[0].read] else []) + Forwarded(obs[1..])
  }

  function Flatten(chunks: seq<seq<byte>>): seq<byte> {
    if |chunks| == 0 then [] else chunks[0] + Flatten(chunks[1..])
  }

  /** Every byte read, in order. */
  function AllBytes(obs: seq<Observation>): seq<byte> {
    if |obs| == 0 then [] else obs[0].read + AllBytes(obs[1..])
  }

  /** How many iterations run: up to and excluding the first end of stream, or all of them. */
  function Consumed(obs: seq<Observation>): (k: nat)
    ensures k <= |obs|
    ensures forall j :: 0 <= j < k ==> !EndOfStream(obs[j])
    ensures k < |obs| ==> EndOfStream(obs[k])
  {
    if |obs| == 0 || EndOfStream(obs[0]) then 0 else 1 + Consumed(obs[1..])
  }

  /** Forwarding loses and adds no byte: the chunks concatenate to the bytes read. */
  lemma {:induction false} ForwardedBytes(obs: seq<Observation>)
    ensures Flatten(Forwarded(obs)) == AllBytes(obs)
  {
    if |obs| > 0 {
      ForwardedBytes(obs[1..]);
      var head := if |obs[0].read| > 0 then [obs[0].read] else [];
      FlattenAppend(head, Forwarded(obs[1..]));
    }
  }

  lemma {:induction false} FlattenAppend(a: seq<seq<byte>>, b: seq<seq<byte>>)
    ensures Flatten(a + b) == Flatten(a) + Flatten(b)
  {
    if |a| == 0 {
      assert a + b == b;
    } else {
      assert (a + b)[1..] == a[1..] + b;
      FlattenAppend(a[1..], b);
    }
  }

  lemma {:induction false} ForwardedAppend(a: seq<Observation>, o: Observation)
    ensures Forwarded(a + [o]) == Forwarded(a) + (if |o.read| > 0 then [o.read] else [])
  {
    if |a| > 0 {
      assert (a + [o])[1..] == a[1..] + [o];
      ForwardedAppend(a[1..], o);
    }
  }

  /** An empty read from a live process broadcasts nothing and the loop carries on. */
  lemma IdleReadContinues(o: Observation, rest: seq<Observation>)
    requires |o.read| == 0 && !o.exited
    ensures Consumed([o] + rest) == 1 + Consumed(rest)
    ensures Forwarded([o] + rest) == Forwarded(rest)
  {
    assert ([o] + rest)[1..] == rest;
  }

  /**
   * The loop of `BroadcastThread.run` over the observations: returns the
   * chunks handed to the broadcast, in order, and the iteration at which it
   * broke out (None when the observations ran out first).
   */
  method Loop(obs: seq<Observation>) returns (chunks: seq<seq<byte>>, stoppedAt: Option<nat>)
    requires WellFormed(obs)
    ensures stoppedAt == (if Consumed(obs) < |obs| then Some(Consumed(obs)) else None)
    ensures chunks == Forwarded(obs[..Consumed(obs)])
    ensures forall k :: 0 <= k < |chunks| ==> 0 < |chunks[k]| <= ReadSize
    ensures Flatten(chunks) == AllBytes(obs[..Consumed(obs)])
  {
    chunks := [];
    stoppedAt := None;
    var i := 0;
    while i < |obs| && stoppedAt.None?
      invariant 0 <= i <= Consumed(obs)
      invariant stoppedAt.None? ==> chunks == Forwarded(obs[..i])
      invariant stoppedAt.Some? ==> stoppedAt.value == i == Consumed(obs) < |obs| && chunks == Forwarded(obs[..i])
      invariant forall k :: 0 <= k < |chunks| ==> 0 < |chunks[k]| <= ReadSize
      decreases |obs| - i, if stoppedAt.None? then 1 else 0
    {
      var buf := obs[i].read;
      if |buf| > 0 {
        assert obs[..i + 1] == obs[..i] + [obs[i]];
        ForwardedAppend(obs[..i], obs[i]);
        chunks := chunks + [buf];
        i := i + 1;
      } else if obs[i].exited {
        stoppedAt := Some(i);
      } else {
        assert obs[..i + 1] == obs[..i] + [obs[i]];
        ForwardedAppend(obs[..i], obs[i]);
        i := i + 1;
      }
    }
    ForwardedBytes(obs[..Consumed(obs)]);
  }
}
