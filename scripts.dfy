/*
 * The loop shared by every command-line script of bob.rppg: each object of
 * the database is processed in order; an object is either skipped with a
 * warning or produces an output file, and an exception raised while
 * processing one object ends the whole run.
 */
module Scripts {
  import opened Numerics

  /** What a script does with one object: skip it (the warning's text), or save an output. */
  datatype Outcome<T> = Skipped(reason: string) | Saved(data: T)

  /**
   * The outcomes of `for obj in objects: process(obj)`: one outcome per
   * object processed, in order, and the exception that stopped the loop, if any.
   */
  function Run<I, O>(objects: seq<I>, process: I -> Result<Outcome<O>>): (r: (seq<Outcome<O>>, Option<string>))
    ensures |r.0| <= |objects|
    ensures forall i :: 0 <= i < |r.0| ==> process(objects[i]) == Ok(r.0[i])
    ensures r.1.None? ==> |r.0| == |objects|
    ensures r.1.Some? ==> |r.0| < |objects| && process(objects[|r.0|]) == Err(r.1.value)
    decreases |objects|
  {
    if |objects| == 0 then ([], None)
    else match process(objects[0])
      case Err(e) => ([], Some(e))
      case Ok(o) =>
        var rest := Run(objects[1..], process);
        ([o] + rest.0, rest.1)
  }

  /** The loop itself. */
  method RunObjects<I, O>(objects: seq<I>, process: I -> Result<Outcome<O>>) returns (outcomes: seq<Outcome<O>>, failure: Option<string>)
    ensures (outcomes, failure) == Run(objects, process)
  {
    outcomes, failure := [], None;
    var k := 0;
    while k < |objects|
      invariant k <= |objects| && |outcomes| == k
      invariant forall i :: 0 <= i < k ==> process(objects[i]) == Ok(outcomes[i])
    {
      match process(objects[k])
      case Err(e) =>
        failure := Some(e);
        RunStopsAt(objects, process, outcomes);
        return;
      case Ok(o) =>
        outcomes := outcomes + [o];
      k := k + 1;
    }
    RunStopsAt(objects, process, outcomes);
  }

  /** Run is determined by the first object that raises: a prefix of successes followed by that error, or all successes. */
  lemma {:induction false} RunStopsAt<I, O>(objects: seq<I>, process: I -> Result<Outcome<O>>, done: seq<Outcome<O>>)
    requires |done| <= |objects| && forall i :: 0 <= i < |done| ==> process(objects[i]) == Ok(done[i])
    requires |done| < |objects| ==> process(objects[|done|]).Err?
    ensures Run(objects, process) == (done, if |done| < |objects| then Some(process(objects[|done|]).reason) else None)
    decreases |objects|
  {
    if |objects| > 0 && |done| > 0 {
      assert process(objects[0]) == Ok(done[0]);
      var tail := done[1..];
      forall i | 0 <= i < |tail| ensures process(objects[1..][i]) == Ok(tail[i]) {
        assert objects[1..][i] == objects[i + 1];
      }
      if |tail| < |objects| - 1 {
        assert objects[1..][|tail|] == objects[|done|];
      }
      RunStopsAt(objects[1..], process, tail);
      assert done == [done[0]] + tail;
    }
  }

  /** Whether an object is processed depends on that object alone: changing object j leaves the outcomes before j as they were. */
  lemma {:induction false} RunIsLocal<I, O>(objects: seq<I>, other: seq<I>, process: I -> Result<Outcome<O>>, j: nat)
    requires |objects| == |other| && j < |objects|
    requires forall i :: 0 <= i < |objects| && i != j ==> objects[i] == other[i]
    requires |Run(objects, process).0| > j
    ensures Run(other, process).0[..j] == Run(objects, process).0[..j]
  {
    var a, b := Run(objects, process), Run(other, process);
    forall i | 0 <= i < j ensures b.0[i] == a.0[i] {
      assert other[i] == objects[i];
    }
  }

  // ---------------------------------------------------------------------
  // The frame range of the video scripts: frames start .. end - 1

  /** --end, with 0 standing for the length of the video. */
  function EndIndex(end: int, n: nat): (e: int)
    ensures end != 0 ==> e == end
    ensures end == 0 ==> e == n
  {
    if end == 0 then n else end
  }

  /** How many of the frames 0 .. i - 1 the loop processes: those with start <= frame < endIndex. */
  function Processed(i: int, start: int, endIndex: int): (c: nat)
    ensures c == Max(0, Min(i, endIndex) - Max(start, 0))
  {
    var lo, hi := Max(start, 0), Min(i, endIndex);
    if hi > lo then hi - lo else 0
  }

  /** Frame i is processed exactly when start <= i < endIndex: it adds one to the count, any other frame adds nothing. */
  lemma ProcessedStep(i: nat, start: int, endIndex: int)
    ensures Processed(i + 1, start, endIndex) == Processed(i, start, endIndex) + (if start <= i < endIndex then 1 else 0)
  {
  }

  /** Nothing is processed before frame 0, and never more frames than the range start .. endIndex - 1 holds. */
  lemma ProcessedBounds(i: int, start: int, endIndex: int)
    ensures Processed(0, start, endIndex) == 0
    ensures Processed(i, start, endIndex) <= Max(0, endIndex - Max(start, 0))
  {
  }

  /**
   * Once the loop has seen every frame of a video long enough for --end,
   * it has processed every frame from --start up to the end index, and
   * with --end 0 every frame from --start to the last one.
   */
  lemma ProcessedWholeRange(end: int, start: nat, n: nat)
    requires EndIndex(end, n) <= n
    ensures Processed(n, start, EndIndex(end, n)) == Max(0, EndIndex(end, n) - start)
    ensures end == 0 && start <= n ==> Processed(n, start, EndIndex(end, n)) == n - start
  {
  }
}
