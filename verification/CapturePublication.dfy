/**
 Publishing a captured process stream: short-write loops, the splice of a
 durable prefix with a retained tail, and the atomic replacement of the
 destination.
 */
module CapturePublication {
  import opened Wrappers

  type Bytes = seq<bv8>

  const CHUNK := 64 * 1024

  // ----- one open output -----

  /** What one raw write reports: a byte count, or None when the device took nothing at all. */
  datatype WriteResult = Wrote(count: int) | NoCount

  datatype IoError = DeadlineExpired | NoProgress | Unavailable | SourceChanged

  /**
   An unbuffered file opened for writing. The device decides how much of each write it takes; the clock
   decides at each check whether the deadline has passed.
   */
  class Output {
    var content: Bytes
    var writes: nat
    var checks: nat
    const device: nat -> WriteResult
    const expired: nat -> bool
    /** Bytes that the device silently refused although the writer counts them as written. */
    ghost var dropped: nat

    constructor (content: Bytes, device: nat -> WriteResult, expired: nat -> bool)
      ensures this.content == content && this.device == device && this.expired == expired
      ensures writes == 0 && checks == 0 && dropped == 0
    {
      this.content, this.device, this.expired := content, device, expired;
      writes, checks, dropped := 0, 0, 0;
    }

    /** A deadline check in this range found it passed. */
    ghost predicate Expired(from: nat, to: nat) {
      exists k: nat :: from <= k < to && expired(k)
    }

    /** A write in this range reported that it took nothing. */
    ghost predicate Stalled(from: nat, to: nat) {
      exists k: nat :: from <= k < to && device(k).Wrote? && device(k).count <= 0
    }

    /** A write in this range reported no byte count. */
    ghost predicate Lossy(from: nat, to: nat) {
      exists k: nat :: from <= k < to && device(k).NoCount?
    }

    /** A raw write never takes more than it was given. */
    method Write(view: Bytes) returns (written: Option<int>)
      requires view != []
      modifies this`content, this`writes, this`dropped
      ensures writes == old(writes) + 1
      ensures written.None? <==> device(old(writes)).NoCount?
      ensures written.Some? && written.value <= 0 <==> device(old(writes)).Wrote? && device(old(writes)).count <= 0
      ensures written.None? ==> content == old(content) && dropped == old(dropped) + |view|
      ensures written.Some? ==> written.value <= |view| && dropped == old(dropped)
      ensures written.Some? && written.value <= 0 ==> content == old(content)
      ensures written.Some? && written.value > 0 ==> content == old(content) + view[..written.value]
    {
      var r := device(writes);
      writes := writes + 1;
      match r
      case NoCount =>
        dropped := dropped + |view|;
        return None;
      case Wrote(n) =>
        var taken := if n > |view| then |view| else n;
        if taken > 0 {
          content := content + view[..taken];
        }
        return Some(taken);
    }

    method DeadlineExhausted(deadline: bool) returns (exhausted: bool)
      modifies this`checks
      ensures checks == if deadline then old(checks) + 1 else old(checks)
      ensures exhausted <==> deadline && expired(old(checks))
    {
      if !deadline {
        return false;
      }
      exhausted := expired(checks);
      checks := checks + 1;
    }

    /**
     _write_all. The loop counts a write without a byte count as a full one, so success means that the whole
     value was appended exactly when no such write happened.
     */
    method WriteAll(value: Bytes, deadline: bool) returns (error: Option<IoError>)
      modifies this
      ensures dropped >= old(dropped)
      ensures error.None? ==> (dropped == old(dropped) <==> content == old(content) + value)
      ensures error.Some? ==> exists n :: 0 <= n <= |value| && content == old(content) + value[..n]
      ensures error.Some? ==> dropped == old(dropped)
      ensures error.Some? && !deadline ==> error == Some(NoProgress)
      ensures error.Some? ==> error.value in {DeadlineExpired, NoProgress}
      ensures error == Some(DeadlineExpired) <==> Expired(old(checks), checks)
      ensures error == Some(NoProgress) <==> Stalled(old(writes), writes)
      ensures dropped > old(dropped) <==> Lossy(old(writes), writes)
      ensures checks >= old(checks) && writes >= old(writes)
    {
      var view := value;
      ghost var done := 0;
      while view != []
        invariant 0 <= done <= |value| && view == value[done..]
        invariant content == old(content) + value[..done] && dropped == old(dropped)
        invariant checks >= old(checks) && !Expired(old(checks), checks)
        invariant writes >= old(writes) && !Stalled(old(writes), writes) && !Lossy(old(writes), writes)
        decreases |view|
      {
        var exhausted := DeadlineExhausted(deadline);
        if exhausted {
          return Some(DeadlineExpired);
        }
        var written := Write(view);
        if written.None? {
          // counted as a full write
          assert |content| < |old(content)| + |value|;
          return None;
        }
        if written.value <= 0 {
          return Some(NoProgress);
        }
        assert value[..done] + view[..written.value] == value[..done + written.value];
        done := done + written.value;
        view := view[written.value..];
      }
      assert value[..done] == value;
      return None;
    }
  }

  // ----- splicing -----

  /** The captured file holds a prefix of the observed stream; the tail retains its end. */
  predicate Observes(stream: Bytes, captured: Bytes, prefix: nat, tail: Bytes) {
    && prefix <= |captured| && captured[..prefix] <= stream
    && |tail| <= |stream| && tail == stream[|stream| - |tail|..]
  }

  /** Where the tail starts in a stream of observed bytes; a longer tail is taken to start with the stream. */
  function TailStart(observed: nat, tail: Bytes): nat {
    if observed < |tail| then 0 else observed - |tail|
  }

  /** What the tail holds behind the first copied bytes. */
  function MissingSuffix(observed: nat, tail: Bytes, copied: nat): (r: Bytes)
    requires TailStart(observed, tail) <= copied <= observed
    ensures |r| == observed - copied <==> |tail| <= observed
  {
    tail[copied - TailStart(observed, tail)..]
  }

  /** A copied prefix followed by the missing part of the tail is the whole stream, for every split between them. */
  lemma SpliceIsWhole(stream: Bytes, captured: Bytes, prefix: nat, tail: Bytes, copied: nat)
    requires Observes(stream, captured, prefix, tail)
    requires copied <= prefix && |stream| - |tail| <= copied <= |stream|
    ensures captured[..copied] + MissingSuffix(|stream|, tail, copied) == stream
  {
    var suffix := MissingSuffix(|stream|, tail, copied);
    assert captured[..copied] == stream[..copied] by {
      assert captured[..copied] == captured[..prefix][..copied];
    }
    assert suffix == stream[copied..];
  }

  /** The same for a file that is all prefix, whether or not anything is missing. */
  lemma WholeOfStable(stream: Bytes, captured: Bytes, tail: Bytes)
    requires Observes(stream, captured, |captured|, tail)
    ensures |captured| == |stream| ==> captured == stream
    ensures |stream| - |tail| <= |captured| < |stream| ==>
      captured + MissingSuffix(|stream|, tail, |captured|) == stream
  {
    assert captured[..|captured|] == captured;
    if |stream| - |tail| <= |captured| < |stream| {
      SpliceIsWhole(stream, captured, |captured|, tail, |captured|);
    }
  }

  // ----- publication -----

  /** Whether a stopped capture is the stream, or the tail holds exactly what it lacks. */
  predicate Completable(captured: nat, observed: nat, tail: Bytes) {
    captured == observed || (captured < observed && |tail| <= observed <= captured + |tail|)
  }

  /** How much of the durable prefix a file can deliver. */
  function Copied(prefix: nat, file: Bytes): (n: nat)
    ensures n <= |file|
  {
    if prefix <= |file| then prefix else |file|
  }

  /** The attempt's files that one publication touches. */
  class Staging {
    var source: Option<Bytes>
    var destination: Option<Bytes>

    constructor (source: Option<Bytes>, destination: Option<Bytes>)
      ensures this.source == source && this.destination == destination
    {
      this.source, this.destination := source, destination;
    }

    /** _promote_capture: the staging file becomes the destination, or there is none. */
    method Promote() returns (promoted: bool)
      modifies this
      ensures promoted <==> old(source).Some?
      ensures promoted ==> destination == old(source) && source.None?
      ensures !promoted ==> source == old(source) && destination == old(destination)
    {
      if source.None? {
        return false;
      }
      destination, source := source, None;
      return true;
    }

    /**
     _complete_stable_capture on a capture whose worker has stopped: append what the tail still holds, then
     promote. The append runs without a deadline. A capture is refused exactly when it is longer than the
     stream, or shorter and not completed by the tail.
     */
    method CompleteStable(observed: nat, tail: Bytes, output: Output) returns (r: Result<bool, IoError>)
      requires source.Some? && output.content == source.value
      modifies this, output
      ensures r.Ok? && r.value ==> source.None? && Completable(|old(source).value|, observed, tail)
      ensures r.Ok? && r.value && output.dropped == old(output.dropped) ==>
        forall stream: Bytes :: (|stream| == observed && Observes(stream, old(source).value, |old(source).value|, tail))
          ==> destination == Some(stream)
      ensures r.Err? || !r.value ==> destination == old(destination)
      ensures r.Ok? && r.value && output.dropped == old(output.dropped) ==>
        destination == Some(if |old(source).value| == observed then old(source).value
                            else old(source).value + MissingSuffix(observed, tail, |old(source).value|))
      ensures r == Ok(false) <==> !Completable(|old(source).value|, observed, tail)
      ensures r.Err? <==> output.Stalled(old(output.writes), output.writes)
      ensures output.dropped > old(output.dropped) <==> output.Lossy(old(output.writes), output.writes)
    {
      var captured := |source.value|;
      if observed < captured {
        return Ok(false);
      }
      if captured < observed {
        if captured < TailStart(observed, tail) {
          return Ok(false);
        }
        var suffix := MissingSuffix(observed, tail, captured);
        if |suffix| != observed - captured {
          return Ok(false);
        }
        var error := output.WriteAll(suffix, false);
        source := Some(output.content);
        if error.Some? {
          return Err(error.value);
        }
      }
      ghost var before := old(source).value;
      assert captured < observed && output.dropped == old(output.dropped) ==>
        source == Some(before + MissingSuffix(observed, tail, captured));
      forall stream: Bytes | |stream| == observed && Observes(stream, before, |before|, tail)
        && output.dropped == old(output.dropped)
        ensures source == Some(stream)
      {
        WholeOfStable(stream, before, tail);
      }
      var promoted := Promote();
      return Ok(promoted);
    }

    /**
     _publish_partial_capture on a capture whose worker did not stop: copy at most the durable prefix, chunk
     by chunk as the reads deliver it, then the missing part of the tail, into a new temporary file.
     */
    method PublishUnstable(prefix: nat, observed: nat, tail: Bytes, grants: nat -> nat, output: Output)
      returns (r: Result<bool, IoError>)
      requires source.Some? && output.content == [] && output.dropped == 0
      modifies this`destination, output
      ensures r.Ok? && r.value && output.dropped == 0 ==>
        forall stream: Bytes :: (|stream| == observed && prefix <= |source.value| && Observes(stream, source.value, prefix, tail))
          ==> destination == Some(stream)
      ensures r.Ok? && r.value ==> TailStart(observed, tail) <= Copied(prefix, source.value) <= observed
      ensures r.Ok? && r.value && output.dropped == 0 ==>
        destination == Some(source.value[..Copied(prefix, source.value)]
                            + MissingSuffix(observed, tail, Copied(prefix, source.value)))
      ensures r.Err? || !r.value ==> destination == old(destination)
      ensures r.Err? ==> r.error == NoProgress
      ensures r.Err? <==> output.Stalled(old(output.writes), output.writes)
      ensures r == Ok(false) <==>
        || output.Expired(old(output.checks), output.checks)
        || (!output.Stalled(old(output.writes), output.writes)
            && !(TailStart(observed, tail) <= Copied(prefix, source.value) <= observed))
      ensures output.dropped > 0 <==> output.Lossy(old(output.writes), output.writes)
    {
      var copied, remaining, k := 0, prefix, 0;
      while remaining > 0
        invariant remaining >= 0 && copied + remaining == prefix && copied <= |source.value|
        invariant output.dropped == 0 ==> output.content == source.value[..copied]
        invariant source == old(source) && destination == old(destination)
        invariant output.checks >= old(output.checks) && !output.Expired(old(output.checks), output.checks)
        invariant output.writes >= old(output.writes) && !output.Stalled(old(output.writes), output.writes)
        invariant output.dropped > 0 <==> output.Lossy(old(output.writes), output.writes)
        decreases remaining
      {
        var exhausted := output.DeadlineExhausted(true);
        if exhausted {
          return Ok(false);
        }
        var chunk := ReadChunk(source.value, copied, if remaining < CHUNK then remaining else CHUNK, grants(k));
        k := k + 1;
        if chunk == [] {
          break;
        }
        ghost var before := output.content;
        ghost var droppedBefore := output.dropped;
        var error := output.WriteAll(chunk, true);
        if error.Some? {
          return if error.value.DeadlineExpired? then Ok(false) else Err(NoProgress);
        }
        assert source.value[..copied] + chunk == source.value[..copied + |chunk|];
        copied, remaining := copied + |chunk|, remaining - |chunk|;
      }
      assert copied == Copied(prefix, source.value);
      if copied > observed || copied < TailStart(observed, tail) {
        return Ok(false);
      }
      var suffix := MissingSuffix(observed, tail, copied);
      var error := output.WriteAll(suffix, true);
      if error.Some? {
        return if error.value.DeadlineExpired? then Ok(false) else Err(NoProgress);
      }
      destination := Some(output.content);
      forall stream: Bytes | |stream| == observed && prefix <= |source.value|
        && Observes(stream, source.value, prefix, tail) && output.dropped == 0
        ensures output.content == stream
      {
        SpliceIsWhole(stream, source.value, prefix, tail, copied);
      }
      return Ok(true);
    }

    /**
     One stream of publish_process_output: a complete capture is promoted, a partial one is spliced, and
     whatever could not be published is replaced by the fallback text.
     */
    method PublishStream(staged: bool, c: Capture, fallback: Bytes, grants: nat -> nat, append: Output, empty: Output)
      returns (r: Result<bool, IoError>)
      requires source.Some? ==> append.content == source.value
      requires empty.content == [] && append != empty && append.dropped == empty.dropped == 0
      modifies this, append, empty
      ensures r.Err? ==> destination == old(destination)
      ensures r == Ok(false) ==> destination == Some(fallback)
      ensures r == Ok(true) ==> staged && old(source).Some?
      ensures r == Ok(true) && c.complete ==> destination == old(source)
      ensures !staged || old(source).None? ==> r == Ok(false)
      ensures staged && old(source).Some? && c.complete ==> r == Ok(true)
      ensures staged && old(source).Some? && !c.complete && c.stable ==>
        && (r == Ok(false) <==> !Completable(|old(source).value|, c.observed, c.tail))
        && (r.Err? <==> append.Stalled(old(append.writes), append.writes))
      ensures staged && old(source).Some? && !c.complete && !c.stable ==>
        && (r.Err? <==> empty.Stalled(old(empty.writes), empty.writes))
        && (r == Ok(false) <==>
              || empty.Expired(old(empty.checks), empty.checks)
              || (r.Ok? && !(TailStart(c.observed, c.tail) <= Copied(c.prefix, old(source).value) <= c.observed)))
      ensures r == Ok(true) && !c.complete && append.dropped == empty.dropped == 0 ==>
        forall stream: Bytes :: Fits(stream, old(source).value, c) ==> destination == Some(stream)
    {
      var promoted := Ok(false);
      if staged && source.Some? {
        if c.complete {
          var done := Promote();
          promoted := Ok(done);
        } else if c.stable {
          promoted := CompleteStable(c.observed, c.tail, append);
        } else {
          promoted := PublishUnstable(c.prefix, c.observed, c.tail, grants, empty);
        }
      }
      if promoted == Ok(false) {
        destination := Some(fallback);
      }
      return promoted;
    }
  }

  /** What the process runner says about a captured stream. */
  datatype Capture = Capture(complete: bool, stable: bool, prefix: nat, observed: nat, tail: Bytes)

  /** The observed stream is one that the capture's prefix and tail belong to. */
  predicate Fits(stream: Bytes, captured: Bytes, c: Capture) {
    |stream| == c.observed
    && if c.stable then Observes(stream, captured, |captured|, c.tail)
       else c.prefix <= |captured| && Observes(stream, captured, c.prefix, c.tail)
  }

  /** One read of at most limit bytes at a position; the system may return fewer, but none only at the end. */
  function ReadChunk(file: Bytes, position: nat, limit: nat, granted: nat): (r: Bytes)
    requires position <= |file| && limit > 0
    ensures |r| <= limit && position + |r| <= |file| && r == file[position..position + |r|]
    ensures r == [] <==> position == |file|
  {
    var available := |file| - position;
    var most := if available < limit then available else limit;
    var size := if granted == 0 || granted > most then most else granted;
    file[position..position + size]
  }
}
