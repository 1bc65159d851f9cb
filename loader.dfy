/** The reading loops of `BytecodeObjectManager::RunFromIBC`, as the source
    runs them: a `head` position advanced through the buffer. Each method
    is proved to read exactly what the format functions of `Ibc` describe,
    and to reject a buffer that ends too early (the source reads past its
    end; the model checks every read against the length). */
module Loader {
  import opened Wrappers
  import opened Machine
  import opened Floats
  import opened Ibc

  /** A method's answer as a parse result: what was read, and the bytes of
      `buf` from the position where reading stopped. */
  function AsParsed<T>(buf: seq<byte>, r: Option<(T, nat)>): Parsed<T>
    requires r.Some? ==> r.value.1 <= |buf|
  {
    match r
    case None => None
    case Some((x, p)) => Some((x, buf[p..]))
  }

  /** `while (*headCheese++ && (headCheese - head < 4092));` from `start`:
      how many bytes the scan passes over, or None when the buffer ends
      first. */
  method ScanString(buf: seq<byte>, start: nat) returns (r: Option<nat>)
    requires start <= |buf|
    ensures r == ScanEnd(buf[start..], 0)
    ensures r.Some? ==> 0 < r.value <= |buf| - start
  {
    var p := start;
    while true
      invariant start <= p <= |buf| && p - start < STRING_SCAN_LIMIT
      invariant ScanEnd(buf[start..], 0) == ScanEnd(buf[start..], p - start)
      decreases STRING_SCAN_LIMIT - (p - start)
    {
      if p == |buf| {
        return None;
      }
      var b := buf[p];
      p := p + 1;
      if b == 0 || p - start == STRING_SCAN_LIMIT {
        return Some(p - start);
      }
    }
  }

  /** One constant: the tag byte, then its payload. */
  method ReadConstant(buf: seq<byte>, head: nat) returns (r: Option<(seq<Constant>, nat)>)
    requires head <= |buf|
    ensures r.Some? ==> head < r.value.1 <= |buf|
    ensures AsParsed(buf, r) == ParseConstant(buf[head..])
  {
    if head == |buf| {
      return None;
    }
    var tag := buf[head];
    var p := head + 1;
    assert buf[head..][1..] == buf[p..];
    if tag == VAL_INTEGER {
      if p + 4 > |buf| {
        return None;
      }
      r := Some(([IntegerConstant(Int32LE(buf[p], buf[p + 1], buf[p + 2], buf[p + 3]))], p + 4));
      assert buf[p..][4..] == buf[p + 4..];
    } else if tag == VAL_DECIMAL {
      if p + 4 > |buf| {
        return None;
      }
      r := Some(([DecimalConstant(FromBits(UInt32LE(buf[p], buf[p + 1], buf[p + 2], buf[p + 3])))], p + 4));
      assert buf[p..][4..] == buf[p + 4..];
    } else if tag == VAL_OBJECT {
      var end := ScanString(buf, p);
      if end.None? {
        return None;
      }
      var len := end.value - 1;
      r := Some(([StringConstant(buf[p .. p + len])], p + end.value));
      assert buf[p..][..len] == buf[p .. p + len];
      assert buf[p..][end.value..] == buf[p + end.value..];
    } else {
      r := Some(([], p));
    }
  }

  /** The constant pool: `for (int c = 0; c < constantCount; c++)`. */
  method ReadConstants(buf: seq<byte>, start: nat, n: nat) returns (r: Option<(seq<Constant>, nat)>)
    requires start <= |buf|
    ensures r.Some? ==> start <= r.value.1 <= |buf|
    ensures AsParsed(buf, r) == ParseConstants(buf[start..], n)
  {
    var constants: seq<Constant> := [];
    var head := start;
    var c := 0;
    ghost var left := n;
    ghost var rest := buf[start..];
    ghost var all := ParseConstants(rest, n);
    PrependNothing(all);
    while c < n
      invariant 0 <= c <= n && left == n - c && start <= head <= |buf|
      invariant rest == buf[head..]
      invariant all == Prepend(constants, ParseConstants(rest, left))
    {
      var x := ReadConstant(buf, head);
      if x.None? {
        return None;
      }
      ghost var constants0, rest0, left0 := constants, rest, left;
      constants := constants + x.value.0;
      head := x.value.1;
      c := c + 1;
      left := left - 1;
      rest := buf[head..];
      ConstantsNext(all, constants0, rest0, left0, x.value.0, rest, constants, left);
    }
    assert constants + [] == constants;
    r := Some((constants, head));
  }

  /** What follows a chunk's code: the line table when the flag is set
      (aliased in the source, read here), then the constant count and pool. */
  method ReadChunkTail(buf: seq<byte>, start: nat, count: nat, lineNumbers: bool)
    returns (r: Option<(Option<seq<int32>>, seq<Constant>, nat)>)
    requires start <= |buf|
    ensures r.Some? ==> start < r.value.2 <= |buf|
    ensures ParseChunkTail(buf[start..], count, lineNumbers) ==
      if r.None? then None else Some((r.value.0, r.value.1, buf[r.value.2..]))
  {
    var p := start;
    var lines: Option<seq<int32>> := None;
    var ls: seq<int32> := [];
    if lineNumbers {
      var parsed := ParseLines(buf[start..], count);
      if parsed.None? {
        return None;
      }
      ls := parsed.value.0;
      lines := Some(ls);
      p := p + 4 * count;
      assert parsed == Some((ls, buf[p..])) by {
        ParseLinesRest(buf[start..], count);
        assert buf[start..][4 * count..] == buf[p..];
      }
    }
    TailAfterLines(buf[start..], count, lineNumbers, ls, buf[p..]);
    var pool := ReadPool(buf, p);
    if pool.None? {
      return None;
    }
    r := Some((lines, pool.value.0, pool.value.1));
  }

  /** `int constantCount = *(int*)head; head += 4;` and the pool after it. */
  method ReadPool(buf: seq<byte>, p: nat) returns (r: Option<(seq<Constant>, nat)>)
    requires p <= |buf|
    ensures r.Some? ==> p < r.value.1 <= |buf|
    ensures AsParsed(buf, r) ==
      match ReadInt(buf[p..])
      case None => None
      case Some((constantCount, pool)) => ParseConstants(pool, NonNegative(constantCount))
  {
    if p + 4 > |buf| {
      return None;
    }
    var constantCount := Int32LE(buf[p], buf[p + 1], buf[p + 2], buf[p + 3]);
    assert ReadInt(buf[p..]) == Some((constantCount, buf[p + 4..])) by {
      assert buf[p..][4..] == buf[p + 4..];
    }
    r := ReadConstants(buf, p + 4, NonNegative(constantCount));
  }

  /** `ParseChunkTail` once the line table has been read. */
  lemma TailAfterLines(s: seq<byte>, count: nat, lineNumbers: bool, ls: seq<int32>, afterLines: seq<byte>)
    requires (if lineNumbers then ParseLines(s, count) else Some(([], s))) == Some((ls, afterLines))
    ensures ParseChunkTail(s, count, lineNumbers) ==
      match ReadInt(afterLines)
      case None => None
      case Some((constantCount, pool)) =>
        match ParseConstants(pool, NonNegative(constantCount))
        case None => None
        case Some((constants, rest)) => Some((if lineNumbers then Some(ls) else None, constants, rest))
  {
  }

  /** One chunk: code count, arity and name hash, the code (aliased in the
      source, copied here) and the tail. */
  method ReadChunk(buf: seq<byte>, head: nat, lineNumbers: bool) returns (r: Option<(Function, nat)>)
    requires head <= |buf|
    ensures r.Some? ==> head < r.value.1 <= |buf|
    ensures AsParsed(buf, r) == ParseChunk(buf[head..], lineNumbers)
  {
    if head + 12 > |buf| {
      return None;
    }
    var count := Int32LE(buf[head], buf[head + 1], buf[head + 2], buf[head + 3]);
    var arity := Int32LE(buf[head + 4], buf[head + 5], buf[head + 6], buf[head + 7]);
    var hash := UInt32LE(buf[head + 8], buf[head + 9], buf[head + 10], buf[head + 11]);
    if count < 0 || head + 12 + count > |buf| {
      return None;
    }
    var code := buf[head + 12 .. head + 12 + count];
    var tail := ReadChunkTail(buf, head + 12 + count, count, lineNumbers);
    if tail.None? {
      return None;
    }
    assert buf[head..][12 + count..] == buf[head + 12 + count..];
    assert buf[head..][12 .. 12 + count] == code;
    ParseChunkParts(buf[head..], lineNumbers, count, arity, hash, code, buf[head + 12 + count..]);
    r := Some((Function(count, arity, hash, code, tail.value.0, tail.value.1), tail.value.2));
  }

  /** `for (int i = 0; i < chunkCount; i++)`: the chunks from `start`. */
  method ReadChunks(buf: seq<byte>, start: nat, n: nat, lineNumbers: bool)
    returns (r: Option<(seq<Function>, nat)>)
    requires start <= |buf|
    ensures r.Some? ==> start <= r.value.1 <= |buf|
    ensures AsParsed(buf, r) == ParseChunks(buf[start..], n, lineNumbers)
  {
    var chunks: seq<Function> := [];
    var head := start;
    var i := 0;
    ghost var left := n;
    ghost var rest := buf[start..];
    ghost var all := ParseChunks(rest, n, lineNumbers);
    PrependNothing(all);
    while i < n
      invariant 0 <= i <= n && left == n - i && start <= head <= |buf|
      invariant rest == buf[head..]
      invariant all == Prepend(chunks, ParseChunks(rest, left, lineNumbers))
    {
      var x := ReadChunk(buf, head, lineNumbers);
      if x.None? {
        return None;
      }
      ghost var chunks0, rest0, left0 := chunks, rest, left;
      chunks := chunks + [x.value.0];
      head := x.value.1;
      i := i + 1;
      left := left - 1;
      rest := buf[head..];
      ChunksNext(all, chunks0, rest0, left0, lineNumbers, x.value.0, rest, chunks, left);
    }
    assert chunks + [] == chunks;
    r := Some((chunks, head));
  }

  /** `for (int t = 0; t < tokenCount; t++)`: the token strings from `start`. */
  method ReadTokens(buf: seq<byte>, start: nat, n: nat) returns (r: Option<(seq<seq<byte>>, nat)>)
    requires start <= |buf|
    ensures r.Some? ==> start <= r.value.1 <= |buf|
    ensures AsParsed(buf, r) == ParseTokens(buf[start..], n)
  {
    var tokens: seq<seq<byte>> := [];
    var head := start;
    var t := 0;
    ghost var left := n;
    ghost var rest := buf[start..];
    ghost var all := ParseTokens(rest, n);
    PrependNothing(all);
    while t < n
      invariant 0 <= t <= n && left == n - t && start <= head <= |buf|
      invariant rest == buf[head..]
      invariant all == Prepend(tokens, ParseTokens(rest, left))
    {
      var end := ScanString(buf, head);
      if end.None? {
        return None;
      }
      var len := end.value - 1;
      var token := buf[head .. head + len];
      var next := head + end.value;
      assert ReadString(rest) == Some((token, buf[next..])) by {
        assert rest[..len] == token;
        assert rest[end.value..] == buf[next..];
      }
      ghost var tokens0, rest0, left0 := tokens, rest, left;
      tokens := tokens + [token];
      head := next;
      t := t + 1;
      left := left - 1;
      rest := buf[head..];
      TokensNext(all, tokens0, rest0, left0, token, rest, tokens, left);
    }
    assert tokens + [] == tokens;
    r := Some((tokens, head));
  }

  /** One turn of the constant loop: the entries `c` read from `s` move
      from the parse still to come to the entries read so far (`acc'`). */
  lemma ConstantsNext(all: Parsed<seq<Constant>>, acc: seq<Constant>, s: seq<byte>, n: nat,
                      c: seq<Constant>, tail: seq<byte>, acc': seq<Constant>, n': nat)
    requires n > 0 && ParseConstant(s) == Some((c, tail))
    requires all == Prepend(acc, ParseConstants(s, n))
    requires acc' == acc + c && n' == n - 1
    ensures all == Prepend(acc', ParseConstants(tail, n'))
  {
    PrependTwice(acc, c, ParseConstants(tail, n'));
  }

  /** One turn of the chunk loop. */
  lemma ChunksNext(all: Parsed<seq<Function>>, acc: seq<Function>, s: seq<byte>, n: nat,
                   lineNumbers: bool, f: Function, tail: seq<byte>, acc': seq<Function>, n': nat)
    requires n > 0 && ParseChunk(s, lineNumbers) == Some((f, tail))
    requires all == Prepend(acc, ParseChunks(s, n, lineNumbers))
    requires acc' == acc + [f] && n' == n - 1
    ensures all == Prepend(acc', ParseChunks(tail, n', lineNumbers))
  {
    PrependTwice(acc, [f], ParseChunks(tail, n', lineNumbers));
  }

  /** One turn of the token loop. */
  lemma TokensNext(all: Parsed<seq<seq<byte>>>, acc: seq<seq<byte>>, s: seq<byte>, n: nat,
                   t: seq<byte>, tail: seq<byte>, acc': seq<seq<byte>>, n': nat)
    requires n > 0 && ReadString(s) == Some((t, tail))
    requires all == Prepend(acc, ParseTokens(s, n))
    requires acc' == acc + [t] && n' == n - 1
    ensures all == Prepend(acc', ParseTokens(tail, n'))
  {
    PrependTwice(acc, [t], ParseTokens(tail, n'));
  }

  /** The reading part of `RunFromIBC`: the magic, the header, every chunk
      and, when `tokensTable` holds and the line-number flag is set, the
      token table. */
  method ReadIbc(buf: seq<byte>, magic: seq<byte>, tokensTable: bool) returns (r: Result<Image, LoadError>)
    requires |magic| == 4
    ensures r == ParseIbc(buf, magic, tokensTable)
  {
    if |buf| < 4 {
      return Err(Malformed);
    }
    if buf[..4] != magic {
      return Err(BadMagic);
    }
    if |buf| < 12 {
      return Err(Malformed);
    }
    var lineNumbers := buf[5] != 0;
    var chunkCount := Int32LE(buf[8], buf[9], buf[10], buf[11]);
    var chunks := ReadChunks(buf, 12, NonNegative(chunkCount), lineNumbers);
    if chunks.None? {
      return Err(Malformed);
    }
    var head := chunks.value.1;
    var tokens: seq<seq<byte>> := [];
    if lineNumbers && tokensTable {
      if head + 4 > |buf| {
        return Err(Malformed);
      }
      var tokenCount := Int32LE(buf[head], buf[head + 1], buf[head + 2], buf[head + 3]);
      assert ReadInt(buf[head..]) == Some((tokenCount, buf[head + 4..])) by {
        assert buf[head..][4..] == buf[head + 4..];
      }
      var read := ReadTokens(buf, head + 4, NonNegative(tokenCount));
      if read.None? {
        return Err(Malformed);
      }
      tokens := read.value.0;
    }
    return Ok(Image(lineNumbers, chunks.value.0, tokens));
  }
}
