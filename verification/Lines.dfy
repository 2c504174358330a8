/** The line readers: splitting a whole file, streaming it through a buffer, keeping the
    last n lines of a stream, and reading a tail backwards in blocks. All agree with one
    definition of the lines of a byte string. */
module Lines {
  import opened Base

  const NEWLINE: Byte := 10

  // ----- the lines of a byte string

  /** Position of the first newline, or the length when there is none. */
  function IndexNL(data: Bytes): (i: nat)
    ensures i <= |data| && forall k :: 0 <= k < i ==> data[k] != NEWLINE
    ensures i < |data| ==> data[i] == NEWLINE
  {
    if data == [] || data[0] == NEWLINE then 0 else 1 + IndexNL(data[1..])
  }

  /** Every newline ends a line; what follows the last newline is a line if not empty. */
  function LinesOf(data: Bytes): seq<Bytes>
    decreases |data|
  {
    if data == [] then []
    else
      var i := IndexNL(data);
      [data[..i]] + LinesOf(data[RawLength(data)..])
  }

  /** Length of the first line with its newline. */
  function RawLength(data: Bytes): (n: nat)
    ensures n <= |data| && (data != [] ==> n > 0)
  {
    var i := IndexNL(data);
    if i < |data| then i + 1 else i
  }

  function Newlines(data: Bytes): nat {
    if data == [] then 0 else (if data[0] == NEWLINE then 1 else 0) + Newlines(data[1..])
  }

  function LastN<T>(s: seq<T>, n: nat): seq<T> {
    if |s| <= n then s else s[|s| - n..]
  }

  lemma {:induction false} NewlinesAppend(a: Bytes, b: Bytes)
    ensures Newlines(a + b) == Newlines(a) + Newlines(b)
  {
    if a == [] {
      assert a + b == b;
    } else {
      assert (a + b)[1..] == a[1..] + b;
      NewlinesAppend(a[1..], b);
    }
  }

  lemma {:induction false} IndexNLAppend(a: Bytes, b: Bytes)
    ensures IndexNL(a + b) == if IndexNL(a) < |a| then IndexNL(a) else |a| + IndexNL(b)
  {
    if a == [] {
      assert a + b == b;
    } else {
      assert (a + b)[1..] == a[1..] + b;
      IndexNLAppend(a[1..], b);
    }
  }

  lemma {:induction false} IndexNLAt(head: Bytes, rest: Bytes)
    requires NEWLINE !in head
    ensures IndexNL(head + [NEWLINE] + rest) == |head|
  {
    var data := head + [NEWLINE] + rest;
    var i := IndexNL(data);
    assert data[|head|] == NEWLINE;
    assert forall k :: 0 <= k < |head| ==> data[k] == head[k];
  }

  /** A line, its newline, and the rest. */
  lemma LinesCons(head: Bytes, rest: Bytes)
    requires NEWLINE !in head
    ensures LinesOf(head + [NEWLINE] + rest) == [head] + LinesOf(rest)
  {
    var data := head + [NEWLINE] + rest;
    IndexNLAt(head, rest);
    assert data[..|head|] == head;
    assert data[|head| + 1..] == rest;
  }

  /** A string with a newline is its first line, the newline, and the rest. */
  lemma {:induction false} FirstLine(data: Bytes)
    requires NEWLINE in data
    ensures var i := IndexNL(data); i < |data| && NEWLINE !in data[..i] && data == data[..i] + [NEWLINE] + data[i + 1..]
  {
    hide LinesOf;
    var i := IndexNL(data);
    var k :| 0 <= k < |data| && data[k] == NEWLINE;
    assert i <= k;
    assert data[i..] == [NEWLINE] + data[i + 1..];
  }

  lemma Regroup(a: Bytes, b: Bytes, c: Bytes, d: Bytes)
    ensures (a + b + c) + d == a + b + (c + d)
  {
  }

  lemma LinesAppendCons(head: Bytes, rest: Bytes, b: Bytes)
    requires NEWLINE !in head && LinesOf(rest + b) == LinesOf(rest) + LinesOf(b)
    ensures LinesOf((head + [NEWLINE] + rest) + b) == LinesOf(head + [NEWLINE] + rest) + LinesOf(b)
  {
    hide LinesOf;
    LinesCons(head, rest);
    LinesCons(head, rest + b);
    Regroup(head, [NEWLINE], rest, b);
    Regroup2([head], LinesOf(rest), LinesOf(b));
  }

  lemma Regroup2<T>(a: seq<T>, b: seq<T>, c: seq<T>)
    ensures a + (b + c) == (a + b) + c
  {
  }

  /** Cutting after a newline cuts the lines. */
  lemma {:induction false} LinesAppend(a: Bytes, b: Bytes)
    requires a == [] || a[|a| - 1] == NEWLINE
    ensures LinesOf(a + b) == LinesOf(a) + LinesOf(b)
    decreases |a|
  {
    if a == [] {
      assert a + b == b;
    } else {
      hide IndexNL;
      hide LinesOf;
      assert a[|a| - 1] in a;
      FirstLine(a);
      var i := IndexNL(a);
      LinesAppend(a[i + 1..], b);
      LinesAppendCons(a[..i], a[i + 1..], b);
    }
  }

  lemma {:induction false} LinesAtLeastNewlines(data: Bytes)
    ensures Newlines(data) <= |LinesOf(data)|
    decreases |data|
  {
    if data != [] {
      var i, n := IndexNL(data), RawLength(data);
      assert data == data[..i] + (data[i..n] + data[n..]);
      NewlinesAppend(data[..i], data[i..n] + data[n..]);
      NewlinesAppend(data[i..n], data[n..]);
      NoNewlines(data[..i]);
      assert Newlines(data[i..n]) <= 1 by { assert n == i + 1 ==> data[i..n][1..] == []; }
      LinesAtLeastNewlines(data[n..]);
    }
  }

  lemma {:induction false} NoNewlines(data: Bytes)
    requires forall k :: 0 <= k < |data| ==> data[k] != NEWLINE
    ensures Newlines(data) == 0
  {
    if data != [] {
      NoNewlines(data[1..]);
    }
  }

  // ----- splitLines

  /** bytes.Split at newlines: one more piece than there are newlines. */
  function Split(data: Bytes): (pieces: seq<Bytes>)
    ensures |pieces| >= 1
    decreases |data|
  {
    var i := IndexNL(data);
    if i == |data| then [data] else [data[..i]] + Split(data[i + 1..])
  }

  function SplitLines(data: Bytes): seq<Bytes> {
    if data == [] then []
    else
      var s := Split(data);
      if s[|s| - 1] == [] then s[..|s| - 1] else s
  }

  lemma SplitCons(head: Bytes, rest: Bytes)
    requires NEWLINE !in head
    ensures Split(head + [NEWLINE] + rest) == [head] + Split(rest)
  {
    var data := head + [NEWLINE] + rest;
    IndexNLAt(head, rest);
    assert data[..|head|] == head;
    assert data[|head| + 1..] == rest;
  }

  lemma SplitLinesCons(head: Bytes, rest: Bytes)
    requires NEWLINE !in head
    ensures SplitLines(head + [NEWLINE] + rest) == [head] + SplitLines(rest)
  {
    SplitCons(head, rest);
    var s := Split(rest);
    if rest == [] {
      assert s == [[]];
    } else {
      assert ([head] + s)[..|s|] == [head] + s[..|s| - 1];
    }
  }

  lemma {:induction false} SplitLinesIsLines(data: Bytes)
    ensures SplitLines(data) == LinesOf(data)
    decreases |data|
  {
    if NEWLINE in data {
      FirstLine(data);
      var i := IndexNL(data);
      LinesCons(data[..i], data[i + 1..]);
      SplitLinesCons(data[..i], data[i + 1..]);
      SplitLinesIsLines(data[i + 1..]);
    } else if data != [] {
      assert IndexNL(data) == |data| && data[..|data|] == data && data[|data|..] == [];
    }
  }

  // ----- streaming

  datatype Status = Found | BufferFull | AtEOF

  /** A buffered reader over the unread bytes. `window` gives the buffer space of each
      call, so every way of cutting the stream is some `window`. */
  class Reader {
    var rest: Bytes
    var calls: nat
    const window: nat -> nat

    constructor (data: Bytes, window: nat -> nat)
      ensures rest == data
    {
      rest, calls, this.window := data, 0, window;
    }

    /** ReadSlice('\\n'). */
    method ReadSlice() returns (chunk: Bytes, status: Status)
      modifies this
      ensures old(rest) == chunk + rest
      ensures status.Found? ==> IndexNL(old(rest)) + 1 == |chunk|
      ensures !status.Found? ==> |chunk| <= IndexNL(old(rest))
      ensures status.BufferFull? ==> chunk != []
      ensures status.AtEOF? ==> rest == []
    {
      var space := if window(calls) == 0 then 1 else window(calls);
      calls := calls + 1;
      var i := IndexNL(rest);
      if i < space && i < |rest| {
        chunk, status := rest[..i + 1], Found;
      } else if |rest| >= space {
        chunk, status := rest[..space], BufferFull;
      } else {
        chunk, status := rest, AtEOF;
      }
      rest := rest[|chunk|..];
    }

    /** The chunks of one line, up to its newline or the end of the stream. */
    method ReadRaw(maxLine: nat) returns (line: Bytes, eof: bool, tooLong: bool)
      modifies this
      ensures tooLong <==> RawLength(old(rest)) > maxLine
      ensures !tooLong ==> line == old(rest)[..RawLength(old(rest))] && rest == old(rest)[RawLength(old(rest))..]
      ensures !tooLong ==> (eof <==> IndexNL(old(rest)) == |old(rest)|)
    {
      ghost var data := rest;
      line, eof, tooLong := [], false, false;
      while true
        invariant data == line + rest
        invariant |line| <= IndexNL(data) && |line| <= maxLine
        decreases |rest|
      {
        hide IndexNL;
        IndexNLAppend(line, rest);
        var chunk, status := ReadSlice();
        Regroup2(line, chunk, rest);
        assert |line| + |chunk| <= RawLength(data);
        if |line| + |chunk| > maxLine {
          tooLong := true;
          return;
        }
        line := line + chunk;
        if !status.BufferFull? {
          eof := status.AtEOF?;
          return;
        }
      }
    }
  }

  /** Some line, with its newline, is longer than the cap. */
  predicate HasLongLine(data: Bytes, maxLine: nat)
    decreases |data|
  {
    data != [] && (RawLength(data) > maxLine || HasLongLine(data[RawLength(data)..], maxLine))
  }

  function TrimNewline(line: Bytes): Bytes {
    if line != [] && line[|line| - 1] == NEWLINE then line[..|line| - 1] else line
  }

  lemma TrimmedRaw(data: Bytes)
    requires data != []
    ensures TrimNewline(data[..RawLength(data)]) == data[..IndexNL(data)]
  {
  }

  /** scanLines with a callback that keeps the last `n` lines, which is lastLines: for any
      bytes and any buffer boundaries it returns the last n lines and the line count, and
      it fails exactly when a line is longer than the cap. */
  method LastLines(data: Bytes, window: nat -> nat, maxLine: nat, n: nat) returns (lines: seq<Bytes>, total: nat, failed: bool)
    requires n >= 1
    ensures failed <==> HasLongLine(data, maxLine)
    ensures !failed ==> lines == LastN(LinesOf(data), n) && total == |LinesOf(data)|
  {
    var r := new Reader(data, window);
    lines, total, failed := [], 0, false;
    ghost var done: seq<Bytes> := [];
    while true
      invariant LinesOf(data) == done + LinesOf(r.rest)
      invariant lines == LastN(done, n) && total == |done|
      invariant HasLongLine(data, maxLine) <==> HasLongLine(r.rest, maxLine)
      decreases |r.rest|
    {
      ghost var before := r.rest;
      var line, eof, tooLong := r.ReadRaw(maxLine);
      if tooLong {
        failed := true;
        return;
      }
      if line != [] {
        TrimmedRaw(before);
        total := total + 1;
        if |lines| == n {
          lines := lines[1..];
        }
        lines := lines + [TrimNewline(line)];
        LastNPush(done, TrimNewline(line), n);
        Regroup2(done, [TrimNewline(line)], LinesOf(r.rest));
        done := done + [TrimNewline(line)];
      }
      if eof {
        assert r.rest == [] && done + [] == done;
        return;
      }
    }
  }

  /** Dropping the oldest kept line when the window is full keeps the last n. */
  lemma LastNPush<T>(s: seq<T>, x: T, n: nat)
    requires n >= 1
    ensures LastN(s + [x], n) == (if |LastN(s, n)| == n then LastN(s, n)[1..] else LastN(s, n)) + [x]
  {
  }

  // ----- backwards in blocks

  /** readTail: blocks from the end until more than n newlines were read or the file
      begins. None is the size cap. */
  method ReadTail(data: Bytes, n: nat, block: nat, maxBytes: nat) returns (r: Option<Bytes>)
    requires block >= 1
    ensures r.Some? ==> |r.value| <= |data| && r.value == data[|data| - |r.value|..] && |r.value| <= maxBytes
    ensures r.Some? ==> r.value == data || Newlines(r.value) > n
    ensures |data| <= maxBytes ==> r.Some?
  {
    var blocks: seq<Bytes> := [];
    var total, newlines, pos := 0, 0, |data|;
    while pos > 0 && newlines <= n
      invariant 0 <= pos <= |data| && total == |data| - pos <= maxBytes
      invariant Joined(blocks) == data[pos..]
      invariant newlines == Newlines(data[pos..])
    {
      var length := if pos < block then pos else block;
      pos := pos - length;
      var b := data[pos..pos + length];
      blocks := blocks + [b];
      total := total + length;
      assert blocks[..|blocks| - 1] + [b] == blocks;
      SuffixSplit(data, pos, pos + length);
      NewlinesAppend(b, data[pos + length..]);
      newlines := newlines + Newlines(b);
      if total > maxBytes {
        return None;
      }
    }
    var out: Bytes := [];
    var i := |blocks|;
    assert blocks[..i] == blocks && out + Joined(blocks) == Joined(blocks);
    while i > 0
      invariant 0 <= i <= |blocks|
      invariant Joined(blocks) == out + Joined(blocks[..i])
    {
      i := i - 1;
      assert blocks[..i + 1][..i] == blocks[..i];
      assert out + (blocks[i] + Joined(blocks[..i])) == (out + blocks[i]) + Joined(blocks[..i]);
      out := out + blocks[i];
    }
    return Some(out);
  }

  lemma SuffixSplit(data: Bytes, i: nat, j: nat)
    requires i <= j <= |data|
    ensures data[i..] == data[i..j] + data[j..]
  {
  }

  /** The blocks in file order, the last one read first. */
  function Joined(blocks: seq<Bytes>): Bytes {
    if blocks == [] then [] else blocks[|blocks| - 1] + Joined(blocks[..|blocks| - 1])
  }

  /** A suffix with more than n newlines decides the last n lines. */
  lemma SuffixDecidesTail(data: Bytes, k: nat, n: nat)
    requires k <= |data| && Newlines(data[k..]) > n
    ensures LastN(LinesOf(data[k..]), n) == LastN(LinesOf(data), n)
  {
    var s := data[k..];
    if NEWLINE !in s { NoNewlines(s); }
    FirstLine(s);
    var i := IndexNL(s);
    var y, p, q := s[i + 1..], s[..i + 1], data[..k + i + 1];
    assert s == p + y && data == q + y;
    LinesAppend(p, y);
    LinesAppend(q, y);
    OneNewline(s[..i]);
    NewlinesAppend(s[..i] + [NEWLINE], y);
    LinesAtLeastNewlines(y);
    LastNAppend(LinesOf(p), LinesOf(y), n);
    LastNAppend(LinesOf(q), LinesOf(y), n);
  }

  lemma OneNewline(head: Bytes)
    requires NEWLINE !in head
    ensures Newlines(head + [NEWLINE]) == 1
  {
    NewlinesAppend(head, [NEWLINE]);
    NoNewlines(head);
    assert [NEWLINE][1..] == [];
  }

  lemma LastNAppend<T>(a: seq<T>, b: seq<T>, n: nat)
    requires n <= |b|
    ensures LastN(a + b, n) == LastN(b, n)
  {
  }

  /** A file read from the end: split the tail and trim it. When the size cap is not hit,
      this gives the last n lines of the whole file, as streaming it does. */
  method TailFile(data: Bytes, n: nat, block: nat, maxBytes: nat) returns (lines: Option<seq<Bytes>>)
    requires block >= 1
    ensures lines.Some? ==> lines.value == LastN(LinesOf(data), n)
    ensures |data| <= maxBytes ==> lines.Some?
  {
    var tail := ReadTail(data, n, block, maxBytes);
    if tail.None? {
      return None;
    }
    var all := SplitLines(tail.value);
    SplitLinesIsLines(tail.value);
    if tail.value != data {
      SuffixDecidesTail(data, |data| - |tail.value|, n);
    }
    if |all| > n {
      all := all[|all| - n..];
    }
    return Some(all);
  }

  // ----- the lines and nothing else

  /** Each line with its newline. */
  function WithNewlines(lines: seq<Bytes>): Bytes {
    if lines == [] then [] else lines[0] + [NEWLINE] + WithNewlines(lines[1..])
  }

  lemma NoLinesInNothing()
    ensures LinesOf([]) == []
  {
  }

  lemma OneLineOnly(data: Bytes)
    requires data != [] && NEWLINE !in data
    ensures LinesOf(data) == [data]
  {
    assert IndexNL(data) == |data|;
    assert data[..|data|] == data && data[|data|..] == [];
  }

  /** No line holds a newline, and written one per line they are the data, with a newline
      at its end if it had none: the one way to cut the data into lines. */
  lemma {:induction false} LinesExactly(data: Bytes)
    ensures forall i :: 0 <= i < |LinesOf(data)| ==> NEWLINE !in LinesOf(data)[i]
    ensures WithNewlines(LinesOf(data)) == if data == [] || data[|data| - 1] == NEWLINE then data else data + [NEWLINE]
    decreases |data|
  {
    hide LinesOf, IndexNL;
    if data == [] {
      NoLinesInNothing();
    } else if NEWLINE !in data {
      OneLineOnly(data);
      assert [data][1..] == [];
      assert data[|data| - 1] in data;
    } else {
      FirstLine(data);
      var i := IndexNL(data);
      var head, rest := data[..i], data[i + 1..];
      LinesCons(head, rest);
      LinesExactly(rest);
      var lines := LinesOf(data);
      assert lines[1..] == LinesOf(rest) && lines[0] == head;
      assert forall k :: 1 <= k < |lines| ==> lines[k] == LinesOf(rest)[k - 1];
      assert rest != [] ==> rest[|rest| - 1] == data[|data| - 1];
      assert (head + [NEWLINE] + rest) + [NEWLINE] == head + [NEWLINE] + (rest + [NEWLINE]);
    }
  }

  /** A line counts as too long with its newline: one that is longer than the cap always is,
      and one that is shorter never is. */
  lemma {:induction false} LongLineBounds(data: Bytes, maxLine: nat)
    ensures (exists i :: 0 <= i < |LinesOf(data)| && |LinesOf(data)[i]| > maxLine) ==> HasLongLine(data, maxLine)
    ensures HasLongLine(data, maxLine) ==> exists i :: 0 <= i < |LinesOf(data)| && |LinesOf(data)[i]| >= maxLine
    decreases |data|
  {
    if data != [] {
      var n, lines := RawLength(data), LinesOf(data);
      LongLineBounds(data[n..], maxLine);
      assert lines == [data[..IndexNL(data)]] + LinesOf(data[n..]);
      assert forall i :: 1 <= i < |lines| ==> lines[i] == LinesOf(data[n..])[i - 1];
      assert forall i :: 0 <= i < |LinesOf(data[n..])| ==> LinesOf(data[n..])[i] == lines[i + 1];
      if n > maxLine {
        assert |lines[0]| >= maxLine;
      } else if HasLongLine(data[n..], maxLine) {
        var i :| 0 <= i < |LinesOf(data[n..])| && |LinesOf(data[n..])[i]| >= maxLine;
        assert |lines[i + 1]| >= maxLine;
      }
    }
  }
}
