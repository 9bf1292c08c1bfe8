/** The reader that bounds each protocol message rather than the stream
    (internal/wirelimit/reader.go).  Blank-line framing follows section 9.2.6
    of the WHATWG HTML standard as far as LF and CRLF line ends go. */
module WireLimit {
  datatype Framing = WholeBody | JSONLines | SSEEvents

  const LF: int := 10
  const CR: int := 13

  type Bytes = seq<int>

  // ---- messages, stated on the bytes alone

  /** A line starts at `start` and holds nothing but carriage returns up to position i. */
  predicate BlankFrom(s: Bytes, start: nat, i: nat)
    requires start <= i <= |s|
  {
    (start == 0 || s[start - 1] == LF) && forall k :: start <= k < i ==> s[k] == CR
  }

  predicate BlankBefore(s: Bytes, i: nat)
    requires i <= |s|
  {
    exists start: nat :: start <= i && BlankFrom(s, start, i)
  }

  /** A message ends with the byte at position i. */
  predicate EndsMessage(f: Framing, s: Bytes, i: nat)
    requires i < |s|
  {
    match f
    case WholeBody => false
    case JSONLines => s[i] == LF
    case SSEEvents => s[i] == LF && BlankBefore(s, i)
  }

  /** No message ends inside s[i..j], except possibly with its last byte. */
  predicate WithinOneMessage(f: Framing, s: Bytes, i: nat, j: nat)
    requires i <= j <= |s|
  {
    forall k: nat :: i <= k < j - 1 ==> !EndsMessage(f, s, k)
  }

  /** Every message, complete or not, has at most `limit` bytes. */
  ghost predicate Fits(f: Framing, limit: nat, s: Bytes) {
    forall i: nat, j: nat :: i <= j <= |s| && WithinOneMessage(f, s, i, j) ==> j - i <= limit
  }

  // ---- the machine

  datatype Meter = Meter(used: nat, blankLine: bool, exceeded: bool)

  const START := Meter(0, true, false)

  /** One byte through the loop body; the byte that exceeds the limit is not delivered. */
  function Count(f: Framing, limit: nat, m: Meter, b: int): Meter {
    if m.exceeded || m.used + 1 > limit then m.(used := if m.exceeded then m.used else m.used + 1, exceeded := true)
    else
      match f
      case WholeBody => m.(used := m.used + 1)
      case JSONLines => m.(used := if b == LF then 0 else m.used + 1)
      case SSEEvents =>
        if b == LF then m.(used := if m.blankLine then 0 else m.used + 1, blankLine := true)
        else m.(used := m.used + 1, blankLine := m.blankLine && b == CR)
  }

  /** The meter after the bytes of s. */
  function After(f: Framing, limit: nat, s: Bytes): Meter {
    if s == [] then START else Count(f, limit, After(f, limit, s[..|s| - 1]), s[|s| - 1])
  }

  /** The longest prefix the meter lets through. */
  function Delivered(f: Framing, limit: nat, s: Bytes): Bytes {
    if s == [] then []
    else if After(f, limit, s).exceeded then Delivered(f, limit, s[..|s| - 1])
    else s
  }

  /** The Go reader over an underlying stream.  `seen` is what the underlying
      reader has handed over so far and `given` what the caller has received. */
  class Reader {
    const framing: Framing
    const limit: nat
    var used: nat
    var blankLine: bool
    var exceeded: bool
    ghost var seen: Bytes
    ghost var given: Bytes

    ghost predicate Valid()
      reads this
    {
      && Meter(used, blankLine, exceeded) == After(framing, limit, seen)
      && given == Delivered(framing, limit, seen)
    }

    constructor (framing: Framing, limit: nat)
      ensures Valid() && seen == [] && given == [] && this.framing == framing && this.limit == limit
    {
      this.framing, this.limit := framing, limit;
      used, blankLine, exceeded := 0, true, false;
      seen, given := [], [];
    }

    /** One Read whose underlying read returns `chunk`.  The caller gets the
        bytes that still fit, and an error once the limit is passed. */
    method Read(chunk: Bytes) returns (out: Bytes, tooLarge: bool)
      requires Valid()
      modifies this
      ensures Valid()
      ensures old(exceeded) ==> out == [] && tooLarge && seen == old(seen)
      ensures !old(exceeded) ==> out <= chunk && tooLarge == exceeded && (!tooLarge ==> out == chunk)
      ensures !old(exceeded) ==> old(seen) <= seen <= old(seen) + chunk && (!tooLarge ==> seen == old(seen) + chunk)
      ensures given == old(given) + out
      ensures given == Delivered(framing, limit, if old(exceeded) then old(seen) else old(seen) + chunk)
    {
      if exceeded {
        return [], true;
      }
      ghost var before := seen;
      DeliveredWhole(framing, limit, before);
      for i := 0 to |chunk|
        invariant Valid() && !exceeded && seen == before + chunk[..i] && given == seen
      {
        var b := chunk[i];
        assert seen + [b] == before + chunk[..i + 1];
        assert (seen + [b])[..|seen|] == seen;
        seen := seen + [b];
        used := used + 1;
        if used > limit {
          exceeded := true;
          assert before + chunk == seen + chunk[i + 1..];
          DeliveredStops(framing, limit, seen, chunk[i + 1..]);
          return chunk[..i], true;
        }
        given := given + [b];
        match framing {
          case WholeBody =>
          case JSONLines =>
            if b == LF {
              used := 0;
            }
          case SSEEvents =>
            if b == LF {
              if blankLine {
                used := 0;
              }
              blankLine := true;
            } else if b != CR {
              blankLine := false;
            }
        }
      }
      assert chunk[..|chunk|] == chunk;
      return chunk, false;
    }
  }

  lemma {:induction false} DeliveredWhole(f: Framing, limit: nat, s: Bytes)
    ensures !After(f, limit, s).exceeded ==> Delivered(f, limit, s) == s
  {
  }

  /** Once exceeded, nothing more is delivered. */
  lemma {:induction false} DeliveredStops(f: Framing, limit: nat, s: Bytes, more: Bytes)
    requires After(f, limit, s).exceeded
    ensures After(f, limit, s + more).exceeded && Delivered(f, limit, s + more) == Delivered(f, limit, s)
    decreases |more|
  {
    if more == [] {
      assert s + more == s;
    } else {
      DeliveredStops(f, limit, s, more[..|more| - 1]);
      assert (s + more)[..|s + more| - 1] == s + more[..|more| - 1];
    }
  }

  // ---- the machine against the messages

  lemma BlankPrefix(s: Bytes, n: nat, i: nat)
    requires i <= n <= |s|
    ensures BlankBefore(s[..n], i) == BlankBefore(s, i)
  {
    forall start: nat | start <= i ensures BlankFrom(s[..n], start, i) == BlankFrom(s, start, i) {
      assert forall k :: 0 <= k < n ==> s[..n][k] == s[k];
    }
  }

  lemma EndsPrefix(f: Framing, s: Bytes, n: nat, i: nat)
    requires i < n <= |s|
    ensures EndsMessage(f, s[..n], i) == EndsMessage(f, s, i)
  {
    BlankPrefix(s, n, i);
  }

  /** Where the message in progress began. */
  function MessageStart(f: Framing, s: Bytes): (r: nat)
    ensures r <= |s|
  {
    if s == [] then 0
    else if EndsMessage(f, s, |s| - 1) then |s|
    else MessageStart(f, s[..|s| - 1])
  }

  lemma {:induction false} MessageStartMeaning(f: Framing, s: Bytes)
    ensures var r := MessageStart(f, s);
      && (r == 0 || EndsMessage(f, s, r - 1))
      && forall k: nat :: r <= k < |s| ==> !EndsMessage(f, s, k)
  {
    if s != [] && !EndsMessage(f, s, |s| - 1) {
      var t := s[..|s| - 1];
      MessageStartMeaning(f, t);
      var r := MessageStart(f, t);
      if r > 0 {
        EndsPrefix(f, s, |t|, r - 1);
      }
      forall k: nat | r <= k < |s| ensures !EndsMessage(f, s, k) {
        if k < |t| {
          EndsPrefix(f, s, |t|, k);
        }
      }
    }
  }

  /** blankLine says that the line in progress is blank so far. */
  lemma BlankStep(s: Bytes)
    requires s != []
    ensures var t := s[..|s| - 1]; var b := s[|s| - 1];
      BlankBefore(s, |s|) <==> b == LF || (b == CR && BlankBefore(t, |t|))
  {
    var n := |s| - 1;
    BlankPrefix(s, n, n);
    if s[n] == LF {
      assert BlankFrom(s, n + 1, n + 1);
    } else {
      if BlankBefore(s, |s|) {
        var start: nat :| start <= |s| && BlankFrom(s, start, |s|);
        assert s[n] == CR;
        assert BlankFrom(s, start, n);
      }
      if s[n] == CR && BlankBefore(s, n) {
        var start: nat :| start <= n && BlankFrom(s, start, n);
        assert BlankFrom(s, start, |s|);
      }
    }
  }

  lemma {:induction false} MeterMeaning(f: Framing, limit: nat, s: Bytes)
    ensures !After(f, limit, s).exceeded ==>
      && After(f, limit, s).used == |s| - MessageStart(f, s)
      && (f.SSEEvents? ==> After(f, limit, s).blankLine == BlankBefore(s, |s|))
  {
    if s == [] {
      assert BlankFrom(s, 0, 0);
    } else {
      var t := s[..|s| - 1];
      MeterMeaning(f, limit, t);
      BlankStep(s);
      BlankPrefix(s, |t|, |t|);
    }
  }

  lemma {:induction false} FitsStep(f: Framing, limit: nat, s: Bytes)
    requires s != []
    ensures var t := s[..|s| - 1];
      Fits(f, limit, s) <==> Fits(f, limit, t) && |s| - MessageStart(f, t) <= limit
  {
    var t := s[..|s| - 1];
    var r := MessageStart(f, t);
    MessageStartMeaning(f, t);
    forall k: nat | k < |t| ensures EndsMessage(f, t, k) == EndsMessage(f, s, k) {
      EndsPrefix(f, s, |t|, k);
    }
    assert WithinOneMessage(f, s, r, |s|);
    assert r > 0 ==> EndsMessage(f, s, r - 1);
    if Fits(f, limit, s) {
      forall i: nat, j: nat | i <= j <= |t| && WithinOneMessage(f, t, i, j) ensures j - i <= limit {
        assert WithinOneMessage(f, s, i, j);
      }
    }
    if Fits(f, limit, t) && |s| - r <= limit {
      forall i: nat, j: nat | i <= j <= |s| && WithinOneMessage(f, s, i, j) ensures j - i <= limit {
        if j <= |t| {
          assert WithinOneMessage(f, t, i, j);
        }
      }
    }
  }

  /** The meter trips exactly when some message has more than `limit` bytes. */
  lemma {:induction false} ExceededMeansTooLong(f: Framing, limit: nat, s: Bytes)
    ensures After(f, limit, s).exceeded <==> !Fits(f, limit, s)
  {
    if s != [] {
      var t := s[..|s| - 1];
      ExceededMeansTooLong(f, limit, t);
      MeterMeaning(f, limit, t);
      FitsStep(f, limit, s);
    }
  }

  /** What is delivered is the longest prefix in which every message fits. */
  lemma {:induction false} DeliveredIsLongestFit(f: Framing, limit: nat, s: Bytes)
    ensures Delivered(f, limit, s) <= s && Fits(f, limit, Delivered(f, limit, s))
    ensures forall n: nat :: n <= |s| && Fits(f, limit, s[..n]) ==> n <= |Delivered(f, limit, s)|
  {
    ExceededMeansTooLong(f, limit, s);
    if After(f, limit, s).exceeded {
      var t := s[..|s| - 1];
      DeliveredIsLongestFit(f, limit, t);
      assert s[..|s|] == s;
      forall n: nat | n <= |s| && Fits(f, limit, s[..n]) ensures n <= |Delivered(f, limit, s)| {
        assert n < |s| ==> s[..n] == t[..n];
      }
    } else {
      DeliveredWhole(f, limit, s);
    }
  }

  function Concat(chunks: seq<Bytes>): Bytes {
    if chunks == [] then [] else Concat(chunks[..|chunks| - 1]) + chunks[|chunks| - 1]
  }

  /** Chunk independence: however the stream is cut into reads, the bytes
      delivered are a function of the stream alone. */
  method ReadStream(framing: Framing, limit: nat, chunks: seq<Bytes>) returns (out: Bytes)
    ensures out == Delivered(framing, limit, Concat(chunks))
  {
    var r := new Reader(framing, limit);
    out := [];
    for i := 0 to |chunks|
      invariant r.Valid() && r.framing == framing && r.limit == limit && fresh(r)
      invariant out == r.given == Delivered(framing, limit, Concat(chunks[..i]))
      invariant !r.exceeded ==> r.seen == Concat(chunks[..i])
      invariant r.exceeded ==> r.seen <= Concat(chunks[..i])
    {
      assert chunks[..i + 1][..i] == chunks[..i];
      ghost var stream := Concat(chunks[..i]);
      ghost var seen := r.seen;
      ghost var tripped := r.exceeded;
      var got, tooLarge := r.Read(chunks[i]);
      out := out + got;
      if tripped {
        ghost var more := (stream + chunks[i])[|seen|..];
        assert stream + chunks[i] == seen + more;
        DeliveredStops(framing, limit, seen, more);
      }
    }
    assert chunks[..|chunks|] == chunks;
  }
}
