/**
 The streaming size cap and its buffered counterpart (src/response_controls.rs).
 */
module CappedStream {
  import opened Wrappers
  import opened Primitives

  type Bytes = seq<int>

  /** UTF-8 of the truncation marker. */
  const MARKER: Bytes := [
    0x0a, 0x7b, 0x22, 0x5f, 0x6c, 0x6f, 0x63, 0x6b, 0x73, 0x6d, 0x69, 0x74, 0x68, 0x22, 0x3a, 0x22, 0x72, 0x65, 0x73,
    0x70, 0x6f, 0x6e, 0x73, 0x65, 0x5f, 0x73, 0x69, 0x7a, 0x65, 0x5f, 0x65, 0x78, 0x63, 0x65, 0x65, 0x64, 0x65, 0x64,
    0x22, 0x7d, 0x0a]

  /** What the upstream answers to one poll; a script that has run out answers `None`. */
  datatype Upstream = NotReady | Chunk(bytes: Bytes) | Failure(error: string)

  datatype Poll = Pending | Yield(bytes: Bytes) | Fail(error: string) | End

  /** Field values of the adapter; `calls` lists the arguments the callback was given. */
  datatype State = State(
    inner: seq<Upstream>, cap: Option<nat>, seen: nat, truncated: bool, marker: bool, armed: bool, calls: seq<nat>)

  function Fresh(inner: seq<Upstream>, cap: Option<nat>): State { State(inner, cap, 0, false, false, true, []) }

  /** One `poll_next`, on values. */
  function Polled(s: State): (State, Poll)
  {
    if s.marker then (s.(marker := false), Yield(MARKER))
    else if s.truncated || s.inner == [] then (s, End)
    else
      var rest := s.(inner := s.inner[1..]);
      match s.inner[0]
      case NotReady => (rest, Pending)
      case Failure(e) => (rest, Fail(e))
      case Chunk(bytes) =>
        if s.cap.None? then (rest, Yield(bytes))
        else if SaturatingAdd(s.seen, |bytes|) <= s.cap.value then
          (rest.(seen := SaturatingAdd(s.seen, |bytes|)), Yield(bytes))
        else
          var allowed := if s.seen <= s.cap.value then s.cap.value - s.seen else 0;
          (rest.(seen := s.cap.value, truncated := true, marker := true, armed := false,
                 calls := if s.armed then s.calls + [s.cap.value] else s.calls),
           Yield(bytes[..if allowed <= |bytes| then allowed else |bytes|]))
  }

  class SizeCappedStream {
    var inner: seq<Upstream>
    const cap: Option<nat>
    var seen: nat
    var truncated: bool
    var pendingMarker: Option<Bytes>
    /** Whether `on_truncate` still holds its callback. */
    var onTruncate: bool
    var calls: seq<nat>

    ghost predicate Valid()
      reads this
    {
      (pendingMarker.Some? ==> pendingMarker.value == MARKER) && (cap.Some? ==> seen <= cap.value)
    }

    ghost function Contents(): State
      reads this
    {
      State(inner, cap, seen, truncated, pendingMarker.Some?, onTruncate, calls)
    }

    constructor (inner: seq<Upstream>, cap: Option<nat>)
      ensures Valid() && Contents() == Fresh(inner, cap)
    {
      this.inner, this.cap, seen, truncated, pendingMarker, onTruncate, calls := inner, cap, 0, false, None, true, [];
    }

    method FireTruncation(prefix: Bytes) returns (yielded: Bytes)
      modifies this
      ensures yielded == prefix && truncated && pendingMarker == Some(MARKER) && !onTruncate
      ensures calls == if old(onTruncate) then old(calls) + [seen] else old(calls)
      ensures inner == old(inner) && seen == old(seen)
    {
      truncated := true;
      if onTruncate {
        onTruncate := false;
        calls := calls + [seen];
      }
      pendingMarker := Some(MARKER);
      yielded := prefix;
    }

    method PollNext() returns (poll: Poll)
      requires Valid()
      modifies this
      ensures Valid() && (Contents(), poll) == Polled(old(Contents()))
    {
      if pendingMarker.Some? {
        poll := Yield(pendingMarker.value);
        pendingMarker := None;
        return;
      }
      if truncated || inner == [] {
        return End;
      }
      var answer := inner[0];
      inner := inner[1..];
      match answer
      case NotReady => poll := Pending;
      case Failure(e) => poll := Fail(e);
      case Chunk(bytes) =>
        if cap.None? {
          return Yield(bytes);
        }
        var newTotal := SaturatingAdd(seen, |bytes|);
        if newTotal <= cap.value {
          seen := newTotal;
          poll := Yield(bytes);
        } else {
          var allowed := cap.value - seen;
          var prefix := bytes[..allowed];
          seen := cap.value;
          var yielded := FireTruncation(prefix);
          poll := Yield(yielded);
        }
    }
  }

  // ---- whole streams ----

  /** All bytes of the upstream, however they are chunked. */
  function Body(inner: seq<Upstream>): Bytes
  {
    if inner == [] then [] else (if inner[0].Chunk? then inner[0].bytes else []) + Body(inner[1..])
  }

  /** Bytes handed out, and final state, when polled until it ends. */
  function Drained(s: State): (Bytes, State)
    decreases |s.inner|, s.marker
  {
    var (s', poll) := Polled(s);
    if poll.End? then ([], s')
    else
      var (rest, final) := Drained(s');
      ((if poll.Yield? then poll.bytes else []) + rest, final)
  }

  /** What is still to come after a poll that was not the last. */
  lemma DrainedStep(s: State, out: Bytes)
    ensures var (s', poll) := Polled(s);
      out + Drained(s).0 == (if poll.Yield? then out + poll.bytes else out) + (if poll.End? then [] else Drained(s').0)
    ensures var (s', poll) := Polled(s); Drained(s).1 == if poll.End? then s' else Drained(s').1
  {
  }

  /** The consumer's loop; it collects exactly `Drained`. */
  method Drain(stream: SizeCappedStream) returns (out: Bytes)
    requires stream.Valid()
    modifies stream
    ensures stream.Valid() && out == Drained(old(stream.Contents())).0
    ensures stream.Contents() == Drained(old(stream.Contents())).1
  {
    hide Drained, Polled, MARKER;
    ghost var s := stream.Contents();
    out := [];
    var done := false;
    while !done
      invariant stream.Valid()
      invariant Drained(s).0 == out + if done then [] else Drained(stream.Contents()).0
      invariant Drained(s).1 == if done then stream.Contents() else Drained(stream.Contents()).1
      decreases !done, |stream.inner|, stream.pendingMarker.Some?
    {
      DrainedStep(stream.Contents(), out);
      PolledProgress(stream.Contents());
      var poll := stream.PollNext();
      if poll.Yield? {
        out := out + poll.bytes;
      }
      done := poll.End?;
    }
  }

  lemma PolledProgress(s: State)
    ensures var (s', poll) := Polled(s);
      poll.End? || |s'.inner| < |s.inner| || (|s'.inner| == |s.inner| && s.marker && !s'.marker)
  {
  }

  /** Once truncated, the upstream is not polled again and the callback stays silent. */
  lemma TruncatedIsFinal(s: State)
    requires s.truncated
    ensures Drained(s) == (if s.marker then MARKER else [], s.(marker := false))
  {
    if s.marker {
      assert Drained(s.(marker := false)) == ([], s.(marker := false));
      assert MARKER + [] == MARKER;
    }
  }

  /** The bytes still allowed, or all of the rest when it fits. */
  lemma {:induction false} DrainedCapped(s: State)
    requires !s.truncated && !s.marker && s.armed && s.cap.Some? && s.seen <= s.cap.value < U64_MAX
    ensures var (out, final) := Drained(s);
      var body, room := Body(s.inner), s.cap.value - s.seen;
      if |body| <= room then out == body && final.calls == s.calls && !final.truncated
      else out == body[..room] + MARKER && final.calls == s.calls + [s.cap.value] && final.truncated
    decreases |s.inner|
  {
    hide MARKER;
    if s.inner != [] {
      var s' := Polled(s).0;
      var body, rest := Body(s.inner), Body(s.inner[1..]);
      if s'.truncated {
        TruncatedIsFinal(s');
        var bytes := s.inner[0].bytes;
        assert body == bytes + rest;
        assert body[..s.cap.value - s.seen] == bytes[..s.cap.value - s.seen];
      } else {
        DrainedCapped(s');
        if s.inner[0].Chunk? {
          var bytes, room := s.inner[0].bytes, s'.cap.value - s'.seen;
          assert body == bytes + rest;
          if |rest| > room {
            assert body[..|bytes| + room] == bytes + rest[..room];
          }
        } else {
          assert body == rest;
        }
      }
    }
  }

  /** Size rule of `apply_non_streaming`. */
  predicate SizeExceeded(cap: Option<nat>, body: Bytes) { cap.Some? && |body| > cap.value }

  /**
   For every chunking, every placement of pending polls and upstream errors and every cap
   below 2^64 - 1, the capped stream hands out the whole body when it fits, else its first
   `cap` bytes and the marker.  It truncates exactly when the buffered path would refuse,
   and then calls back exactly once, with the cap.
   */
  lemma CappedStreamCorrect(inner: seq<Upstream>, cap: nat)
    requires cap < U64_MAX
    ensures var (out, final) := Drained(Fresh(inner, Some(cap)));
      var body := Body(inner);
      && (final.truncated <==> SizeExceeded(Some(cap), body))
      && out == (if SizeExceeded(Some(cap), body) then body[..cap] + MARKER else body)
      && final.calls == if SizeExceeded(Some(cap), body) then [cap] else []
  {
    DrainedCapped(Fresh(inner, Some(cap)));
  }

  /** Without a cap, or with the largest one (the counter saturates there), nothing is cut. */
  lemma {:induction false} UncappedPassesThrough(s: State)
    requires !s.truncated && !s.marker && (s.cap.None? || (s.cap.value == U64_MAX && s.seen <= U64_MAX))
    ensures Drained(s).0 == Body(s.inner) && Drained(s).1.calls == s.calls
    decreases |s.inner|
  {
    if s.inner != [] {
      UncappedPassesThrough(Polled(s).0);
    }
  }
}
