/** Reading an HTTP head from a stream: the blank line is searched for as bytes arrive. */
module Heads {
  import opened Basics

  const MAX_HEAD: nat := 16 * 1024
  const BLANK: Bytes := [13, 10, 13, 10]

  /** A blank line ends just before offset `k`. */
  predicate EndsAt(b: Bytes, k: nat) {
    4 <= k <= |b| && b[k - 4..k] == BLANK
  }

  /** `end` is the first offset just past a blank line, if there is one. */
  predicate FirstEnd(b: Bytes, end: Option<nat>) {
    match end
    case Some(k) => EndsAt(b, k) && forall j: nat | j < k :: !EndsAt(b, j)
    case None => forall j: nat | j <= |b| :: !EndsAt(b, j)
  }

  method FindEnd(b: Bytes) returns (end: Option<nat>)
    ensures FirstEnd(b, end)
  {
    var i := 0;
    while i + 4 <= |b|
      invariant 0 <= i <= |b| && forall j: nat | j < i + 4 && j <= |b| :: !EndsAt(b, j)
    {
      if b[i..i + 4] == BLANK {
        return Some(i + 4);
      }
      i := i + 1;
    }
    end := None;
  }

  datatype Outcome = Head(head: Bytes, rest: Bytes) | TooLarge | EndOfInput

  /** The reads a transport answers: each brings at least one byte. */
  predicate Reads(chunks: seq<Bytes>) {
    forall i | 0 <= i < |chunks| :: 1 <= |chunks[i]| <= 4096
  }

  /** Exactly `n` reads were needed, and together they are the head and the rest. */
  predicate ReadBy(chunks: seq<Bytes>, n: nat, head: Bytes, rest: Bytes) {
    1 <= n <= |chunks| && head + rest == Concat(chunks[..n]) && |Concat(chunks[..n - 1])| < |head|
  }

  lemma EndsInside(seen: Bytes, data: Bytes, from: nat, j: nat)
    requires from == Max(0, |seen| - 3) && j <= |seen + data| && (j <= |seen| ==> !EndsAt(seen, j))
    ensures EndsAt(seen + data, j) <==> j >= from + 4 && EndsAt((seen + data)[from..], j - from)
  {
    var b := seen + data;
    if j <= |seen| {
      if 4 <= j { assert b[j - 4..j] == seen[j - 4..j]; }
    } else if j >= from + 4 {
      assert b[from..][j - from - 4..j - from] == b[j - 4..j];
    }
  }

  /** The search may start three bytes before the new data. */
  lemma Overlap(seen: Bytes, data: Bytes, from: nat, found: Option<nat>)
    requires from == Max(0, |seen| - 3) && FirstEnd(seen, None) && FirstEnd((seen + data)[from..], found)
    ensures FirstEnd(seen + data, if found.Some? then Some(found.value + from) else None)
  {
    hide EndsAt;
    var b := seen + data;
    forall j: nat | j <= |b| ensures EndsAt(b, j) <==> j >= from + 4 && EndsAt(b[from..], j - from) {
      EndsInside(seen, data, from, j);
    }
    if found.Some? {
      EndInside(b[from..], found.value);
      assert EndsAt(b, found.value + from);
      forall j: nat | j < found.value + from ensures !EndsAt(b, j) {
        if j >= from { assert !EndsAt(b[from..], j - from); }
      }
    } else {
      forall j: nat | j <= |b| ensures !EndsAt(b, j) {
        if j >= from { assert !EndsAt(b[from..], j - from); }
      }
    }
  }

  /**
    * Reads until the head is complete. Whatever the split, it succeeds exactly
    * when the stream's first blank line ends within the limit, with that prefix
    * as the head and everything else that was read as the rest.
    */
  method ReadHead(chunks: seq<Bytes>) returns (r: Outcome)
    requires Reads(chunks)
    ensures var all := Concat(chunks);
            match r
            case Head(head, rest) =>
              && |head| <= MAX_HEAD && FirstEnd(all, Some(|head|))
              && exists n :: ReadBy(chunks, n, head, rest)
            case TooLarge =>
              |all| > MAX_HEAD && forall k: nat | FirstEnd(all, Some(k)) :: k > MAX_HEAD
            case EndOfInput =>
              |all| <= MAX_HEAD && FirstEnd(all, None)
  {
    hide FirstEnd;
    var buf: Bytes := [];
    var i := 0;
    assert FirstEnd(buf, None) by { NoEnd(buf); }
    while true
      invariant 0 <= i <= |chunks| && buf == Concat(chunks[..i])
      invariant |buf| <= MAX_HEAD && FirstEnd(buf, None)
      decreases |chunks| - i
    {
      if i == |chunks| {
        assert chunks[..i] == chunks;
        return EndOfInput;
      }
      var from := Max(0, |buf| - 3);
      ghost var seen := buf;
      buf := buf + chunks[i];
      var found := FindEnd(buf[from..]);
      Overlap(seen, chunks[i], from, found);
      assert chunks[..i + 1] == chunks[..i] + [chunks[i]];
      ConcatAppend(chunks[..i], chunks[i]);
      i := i + 1;
      ConcatSplit(chunks, i);
      var end := if found.Some? then found.value + from else |buf|;
      ghost var first := if found.Some? then Some(end) else None;
      Settled(buf, Concat(chunks[i..]), first);
      if found.Some? { EndInside(buf, end); }
      if end > MAX_HEAD {
        return TooLarge;
      }
      if found.Some? {
        Settled(seen, chunks[i - 1], None);
        assert ReadBy(chunks, i, buf[..end], buf[end..]);
        return Head(buf[..end], buf[end..]);
      }
    }
  }

  lemma NoEnd(b: Bytes)
    requires |b| < 4
    ensures FirstEnd(b, None)
  {
  }

  lemma EndInside(b: Bytes, k: nat)
    requires FirstEnd(b, Some(k))
    ensures 4 <= k <= |b|
  {
  }

  /** More input does not move the first blank line, and cannot bring one that ends earlier. */
  lemma Settled(b: Bytes, more: Bytes, end: Option<nat>)
    requires FirstEnd(b, end)
    ensures end.Some? ==> FirstEnd(b + more, end)
    ensures forall k: nat | FirstEnd(b + more, Some(k)) :: if end.Some? then k == end.value else k > |b|
  {
    var all := b + more;
    forall j: nat | j <= |b| ensures EndsAt(all, j) <==> EndsAt(b, j) {
      if 4 <= j { assert all[j - 4..j] == b[j - 4..j]; }
    }
    forall k: nat | FirstEnd(all, Some(k)) ensures if end.Some? then k == end.value else k > |b| {
      assert EndsAt(all, k) && (end.Some? ==> EndsAt(all, end.value));
    }
  }

  lemma {:induction false} ConcatSplit(parts: seq<Bytes>, n: nat)
    requires n <= |parts|
    ensures Concat(parts) == Concat(parts[..n]) + Concat(parts[n..])
  {
    if n == 0 {
      assert parts[..0] == [] && parts[0..] == parts;
    } else {
      ConcatSplit(parts[1..], n - 1);
      assert parts[..n][1..] == parts[1..][..n - 1] && parts[1..][n - 1..] == parts[n..];
    }
  }
}
