/**
 * What the four connection classes share: cutting an accumulating input
 * buffer into frames at a delimiter, the 1 MB cap on an unterminated
 * remainder, the 1024-message cap on the delayed output queue, and the
 * drain handler's flush, which writes queued messages in order until the
 * socket reports that its buffer is full.
 */
module Framing {
  import opened Strings

  /** Delayed messages a connection keeps while the socket is not drained. */
  const MaxQueued: nat := 1024

  /** A remainder longer than this, still without a delimiter, is dropped. */
  const MaxInput: nat := 1000000

  /**
   * `buffer.split(delimiter)` read as the complete frames and the remainder:
   * every piece but the last is a frame, the last piece is kept for later.
   */
  function Cut(s: string, delimiter: string): (r: (seq<string>, string))
    requires |delimiter| > 0
    ensures Join(r.0 + [r.1], delimiter) == s
    ensures !Contains(r.1, delimiter)
    ensures forall i :: 0 <= i < |r.0| ==> !Contains(r.0[i], delimiter)
  {
    var pieces := Split(s, delimiter);
    var n := |pieces| - 1;
    assert pieces[..n] + [pieces[n]] == pieces;
    (pieces[..n], pieces[n])
  }

  /**
   * The data handler's effect on a buffer: the frames it emits and the new
   * buffer, which is emptied when the remainder outgrew `MaxInput`; the
   * flag says whether that happened (and an error was raised).
   */
  function Receive(buffer: string, data: string, delimiter: string): (r: (seq<string>, string, bool))
    requires |delimiter| > 0
    ensures !Contains(r.1, delimiter) && |r.1| <= MaxInput
    ensures r.2 <==> |Cut(buffer + data, delimiter).1| > MaxInput
    ensures !r.2 ==> Join(r.0 + [r.1], delimiter) == buffer + data
    ensures r.2 ==> r.1 == "" && Join(r.0 + [Cut(buffer + data, delimiter).1], delimiter) == buffer + data
  {
    var (frames, rest) := Cut(buffer + data, delimiter);
    if |rest| > MaxInput then (frames, "", true)
    else (frames, rest, false)
  }

  /**
   * The first of the writes `from`, `from + 1`, ... below `m` that the
   * socket reports as full, or `m` when every one of them is accepted.
   */
  function FirstFull(accepts: nat -> bool, from: nat, m: nat): (k: nat)
    requires from <= m
    ensures from <= k <= m
    ensures forall i :: from <= i < k ==> accepts(i)
    ensures k < m ==> !accepts(k)
    decreases m - from
  {
    if from == m then m
    else if !accepts(from) then from
    else FirstFull(accepts, from + 1, m)
  }

  /**
   * How many of `m` queued messages a drain writes: all of them, or up to
   * and including the first write the socket reports as full.
   */
  function Flushed(accepts: nat -> bool, m: nat): (n: nat)
    ensures n <= m
    ensures forall i :: 0 <= i < n - 1 ==> accepts(i)
    ensures n < m ==> n > 0 && !accepts(n - 1)
  {
    var k := FirstFull(accepts, 0, m);
    if k < m then k + 1 else m
  }

  /** The `frame` events of a list of frames, in order. */
  function FrameEvents<E>(frames: seq<string>, ev: string -> E): (r: seq<E>)
    ensures |r| == |frames|
    ensures forall i :: 0 <= i < |frames| ==> r[i] == ev(frames[i])
  {
    seq(|frames|, i requires 0 <= i < |frames| => ev(frames[i]))
  }

  /** One more frame adds one more event. */
  lemma FrameEventsSnoc<E>(frames: seq<string>, i: nat, ev: string -> E)
    requires i < |frames|
    ensures FrameEvents(frames[..i + 1], ev) == FrameEvents(frames[..i], ev) + [ev(frames[i])]
  {
    assert |FrameEvents(frames[..i + 1], ev)| == |FrameEvents(frames[..i], ev) + [ev(frames[i])]|;
  }

  /** One more frame at the end adds its event at the end. */
  lemma FrameEventsAppend<E>(frames: seq<string>, f: string, ev: string -> E)
    ensures FrameEvents(frames + [f], ev) == FrameEvents(frames, ev) + [ev(f)]
  {
    assert |FrameEvents(frames + [f], ev)| == |FrameEvents(frames, ev) + [ev(f)]|;
  }

  /**
   * Cutting frames one at a time, at the first delimiter each time, keeps
   * "the frames taken so far, then the pieces of the buffer, are the pieces
   * of the whole text".
   */
  lemma SplitFirstStep(buffer: string, delimiter: string, total: string, taken: seq<string>)
    requires |delimiter| > 0 && IndexOf(buffer, delimiter) >= 0
    requires taken + Split(buffer, delimiter) == Split(total, delimiter)
    ensures var pos := IndexOf(buffer, delimiter);
      (taken + [buffer[..pos]]) + Split(buffer[pos + |delimiter|..], delimiter) == Split(total, delimiter)
  {
    var pos := IndexOf(buffer, delimiter);
    var head, tail := buffer[..pos], Split(buffer[pos + |delimiter|..], delimiter);
    SplitAtFirst(buffer, delimiter);
    MoveHead(taken, Split(buffer, delimiter), Split(total, delimiter));
  }

  /** Moving the first piece of the pieces still to take over to the pieces taken. */
  lemma MoveHead(taken: seq<string>, pieces: seq<string>, whole: seq<string>)
    requires |pieces| > 0 && taken + pieces == whole
    ensures (taken + [pieces[0]]) + pieces[1..] == whole
  {
    assert pieces == [pieces[0]] + pieces[1..];
  }

  /** `split` takes the text before the first delimiter, then splits the rest. */
  lemma SplitAtFirst(s: string, delimiter: string)
    requires |delimiter| > 0 && IndexOf(s, delimiter) >= 0
    ensures var pos := IndexOf(s, delimiter);
      Split(s, delimiter) == [s[..pos]] + Split(s[pos + |delimiter|..], delimiter)
  {
  }

  /**
   * Once the buffer holds no delimiter, the frames taken are the complete
   * frames of the whole text and the buffer is its remainder.
   */
  lemma SplitDone(buffer: string, delimiter: string, total: string, taken: seq<string>)
    requires |delimiter| > 0 && IndexOf(buffer, delimiter) == -1
    requires taken + Split(buffer, delimiter) == Split(total, delimiter)
    ensures Cut(total, delimiter) == (taken, buffer)
  {
    assert Split(buffer, delimiter) == [buffer];
    assert Split(total, delimiter)[..|taken|] == taken;
  }
}
