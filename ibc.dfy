/** The compiled bytecode format (IBC) that `RunFromIBC` reads, as pure
    functions over the byte buffer: a 4-byte magic, four option bytes of
    which the second is the line-number flag, a chunk count, the chunks
    (code count, arity, name hash, the code bytes, the optional line
    numbers, a tagged constant pool) and, with line numbers, a token table.
    Integers are little-endian. Every read is bounds-checked here, and a
    read past the end of the buffer is the `Malformed` failure. */
module Ibc {
  import opened Wrappers
  import opened Machine
  import opened Floats

  /** Value tags of the constant pool. */
  const VAL_INTEGER: byte := 0
  const VAL_DECIMAL: byte := 1
  const VAL_OBJECT: byte := 2

  /** A string scan stops after this many bytes even without a NUL. */
  const STRING_SCAN_LIMIT: nat := 4092

  datatype Constant =
    | IntegerConstant(i: int32)
    | DecimalConstant(d: float)
    | StringConstant(chars: seq<byte>)

  /** A loaded function (`ObjFunction` with its `Chunk`). */
  datatype Function = Function(
    Count: int32,
    Arity: int32,
    NameHash: uint32,
    Code: seq<byte>,
    Lines: Option<seq<int32>>,
    Constants: seq<Constant>)

  /** Everything one buffer yields. */
  datatype Image = Image(LineNumbers: bool, Functions: seq<Function>, Tokens: seq<seq<byte>>)

  datatype LoadError = BadMagic | Malformed

  /** A parse step's result: what was read, and the bytes after it. */
  type Parsed<T> = Option<(T, seq<byte>)>

  /** A count read from the buffer, as a loop `for (i = 0; i < n; i++)`
      uses it: a negative count runs no iteration. */
  function NonNegative(n: int32): nat
  {
    if n < 0 then 0 else n
  }

  function ReadInt(s: seq<byte>): (r: Parsed<int32>)
    ensures r.Some? ==> |r.value.1| == |s| - 4
  {
    if |s| >= 4 then Some((Int32LE(s[0], s[1], s[2], s[3]), s[4..])) else None
  }

  function ReadUInt(s: seq<byte>): (r: Parsed<uint32>)
    ensures r.Some? ==> |r.value.1| == |s| - 4
  {
    if |s| >= 4 then Some((UInt32LE(s[0], s[1], s[2], s[3]), s[4..])) else None
  }

  /** How many bytes the scan `while (*p++ && (p - head < 4092));` passes
      over when it has already passed `k`: up to and including the first
      NUL, or 4092 bytes when none of them is a NUL. */
  function ScanEnd(s: seq<byte>, k: nat): (r: Option<nat>)
    requires k < STRING_SCAN_LIMIT
    ensures r.Some? ==> k < r.value <= STRING_SCAN_LIMIT && r.value <= |s|
    decreases STRING_SCAN_LIMIT - k
  {
    if k >= |s| then None
    else if s[k] == 0 || k + 1 == STRING_SCAN_LIMIT then Some(k + 1)
    else ScanEnd(s, k + 1)
  }

  /** A string: the bytes the scan passed over less the last one (the NUL,
      or the 4092nd byte when the cap was reached). */
  function ReadString(s: seq<byte>): (r: Parsed<seq<byte>>)
    ensures r.Some? ==> |r.value.0| < STRING_SCAN_LIMIT && |r.value.1| == |s| - |r.value.0| - 1
  {
    match ScanEnd(s, 0)
    case None => None
    case Some(end) => Some((s[..end - 1], s[end..]))
  }

  lemma {:induction false} ScanEndCapped(s: seq<byte>, k: nat)
    requires k < STRING_SCAN_LIMIT <= |s|
    requires forall j :: k <= j < STRING_SCAN_LIMIT - 1 ==> s[j] != 0
    ensures ScanEnd(s, k) == Some(STRING_SCAN_LIMIT)
    decreases STRING_SCAN_LIMIT - k
  {
    if k + 1 < STRING_SCAN_LIMIT {
      ScanEndCapped(s, k + 1);
    }
  }

  /** A string with no NUL among its first 4091 bytes comes back cut to
      those 4091 bytes, and the 4092nd byte is passed over whatever it is. */
  lemma LongStringTruncated(s: seq<byte>)
    requires |s| >= STRING_SCAN_LIMIT
    requires forall j :: 0 <= j < STRING_SCAN_LIMIT - 1 ==> s[j] != 0
    ensures ReadString(s) == Some((s[..STRING_SCAN_LIMIT - 1], s[STRING_SCAN_LIMIT..]))
  {
    ScanEndCapped(s, 0);
  }

  /** One constant-pool entry: the tag byte and its payload. An unknown
      tag adds no constant and consumes only the tag. */
  function ParseConstant(s: seq<byte>): (r: Parsed<seq<Constant>>)
    ensures r.Some? ==> |r.value.0| <= 1 && |r.value.1| < |s|
  {
    if |s| == 0 then None
    else if s[0] == VAL_INTEGER then
      match ReadInt(s[1..])
      case None => None
      case Some((i, rest)) => Some(([IntegerConstant(i)], rest))
    else if s[0] == VAL_DECIMAL then
      match ReadUInt(s[1..])
      case None => None
      case Some((u, rest)) => Some(([DecimalConstant(FromBits(u))], rest))
    else if s[0] == VAL_OBJECT then
      match ReadString(s[1..])
      case None => None
      case Some((chars, rest)) => Some(([StringConstant(chars)], rest))
    else Some(([], s[1..]))
  }

  /** Prefixes the list of a successful parse. */
  function Prepend<T>(acc: seq<T>, r: Parsed<seq<T>>): Parsed<seq<T>>
  {
    match r
    case None => None
    case Some((xs, rest)) => Some((acc + xs, rest))
  }

  lemma HeadTail<T>(xs: seq<T>)
    requires xs != []
    ensures [xs[0]] + xs[1..] == xs
  {
  }

  lemma PrependNothing<T>(r: Parsed<seq<T>>)
    ensures Prepend([], r) == r
  {
    if r.Some? {
      assert [] + r.value.0 == r.value.0;
    }
  }

  lemma PrependTwice<T>(a: seq<T>, b: seq<T>, r: Parsed<seq<T>>)
    ensures Prepend(a, Prepend(b, r)) == Prepend(a + b, r)
  {
    if r.Some? {
      assert a + (b + r.value.0) == (a + b) + r.value.0;
    }
  }

  /** `n` constant-pool entries. */
  function ParseConstants(s: seq<byte>, n: nat): (r: Parsed<seq<Constant>>)
    ensures r.Some? ==> |r.value.0| <= n && |r.value.1| <= |s|
    decreases n
  {
    if n == 0 then Some(([], s))
    else
      match ParseConstant(s)
      case None => None
      case Some((c, rest)) => Prepend(c, ParseConstants(rest, n - 1))
  }

  /** `n` little-endian line numbers. */
  function ParseLines(s: seq<byte>, n: nat): (r: Parsed<seq<int32>>)
    ensures r.Some? ==> |r.value.0| == n && |r.value.1| == |s| - 4 * n
    decreases n
  {
    if n == 0 then Some(([], s))
    else
      match ReadInt(s)
      case None => None
      case Some((x, rest)) => Prepend([x], ParseLines(rest, n - 1))
  }

  /** The line table occupies exactly `4 * n` bytes. */
  lemma {:induction false} ParseLinesRest(s: seq<byte>, n: nat)
    requires ParseLines(s, n).Some?
    ensures 4 * n <= |s| && ParseLines(s, n).value.1 == s[4 * n..]
    decreases n
  {
    if n > 0 {
      ParseLinesRest(s[4..], n - 1);
      assert s[4..][4 * (n - 1)..] == s[4 * n..];
    }
  }

  /** The parts of a chunk after its code: the line numbers when the flag
      is set, then the constant count and pool. */
  function ParseChunkTail(s: seq<byte>, count: nat, lineNumbers: bool)
    : (r: Option<(Option<seq<int32>>, seq<Constant>, seq<byte>)>)
    ensures r.Some? ==> |r.value.2| < |s|
  {
    var lines := if lineNumbers then ParseLines(s, count) else Some(([], s));
    match lines
    case None => None
    case Some((ls, afterLines)) =>
      match ReadInt(afterLines)
      case None => None
      case Some((constantCount, pool)) =>
        match ParseConstants(pool, NonNegative(constantCount))
        case None => None
        case Some((constants, rest)) =>
          Some((if lineNumbers then Some(ls) else None, constants, rest))
  }

  /** One chunk: code count, arity and name hash, then the code bytes and
      the tail. A negative code count is rejected. */
  function ParseChunk(s: seq<byte>, lineNumbers: bool): (r: Parsed<Function>)
    ensures r.Some? ==> |r.value.1| < |s|
  {
    if |s| < 12 then None
    else
      var count := Int32LE(s[0], s[1], s[2], s[3]);
      var arity := Int32LE(s[4], s[5], s[6], s[7]);
      var hash := UInt32LE(s[8], s[9], s[10], s[11]);
      if count < 0 || 12 + count > |s| then None
      else
        match ParseChunkTail(s[12 + count..], count, lineNumbers)
        case None => None
        case Some((lines, constants, rest)) =>
          Some((Function(count, arity, hash, s[12 .. 12 + count], lines, constants), rest))
  }

  /** `n` chunks. */
  function ParseChunks(s: seq<byte>, n: nat, lineNumbers: bool): (r: Parsed<seq<Function>>)
    ensures r.Some? ==> |r.value.0| == n && |r.value.1| <= |s|
    decreases n
  {
    if n == 0 then Some(([], s))
    else
      match ParseChunk(s, lineNumbers)
      case None => None
      case Some((f, rest)) => Prepend([f], ParseChunks(rest, n - 1, lineNumbers))
  }

  /** `n` token strings. */
  function ParseTokens(s: seq<byte>, n: nat): (r: Parsed<seq<seq<byte>>>)
    ensures r.Some? ==> |r.value.0| == n && |r.value.1| <= |s|
    decreases n
  {
    if n == 0 then Some(([], s))
    else
      match ReadString(s)
      case None => None
      case Some((t, rest)) => Prepend([t], ParseTokens(rest, n - 1))
  }

  /** The token table after the chunks, read only when `read` holds. */
  function ParseTokenTable(s: seq<byte>, read: bool): Option<seq<seq<byte>>>
  {
    if !read then Some([])
    else
      match ReadInt(s)
      case None => None
      case Some((n, rest)) =>
        match ParseTokens(rest, NonNegative(n))
        case None => None
        case Some((tokens, _)) => Some(tokens)
  }

  /** The whole buffer. `BadMagic` when the first four bytes differ from
      `magic`; otherwise the line-number flag is the sixth byte alone, and
      the token table is read only when that flag is set and `tokensTable`
      (the engine has a token table) holds. */
  function ParseIbc(buf: seq<byte>, magic: seq<byte>, tokensTable: bool): (r: Result<Image, LoadError>)
    requires |magic| == 4
    ensures |buf| >= 4 && buf[..4] != magic ==> r == Err(BadMagic)
    ensures r.Ok? ==> |buf| >= 12 && buf[..4] == magic && (r.value.LineNumbers <==> buf[5] != 0)
    ensures r.Ok? && !(r.value.LineNumbers && tokensTable) ==> r.value.Tokens == []
  {
    if |buf| < 4 then Err(Malformed)
    else if buf[..4] != magic then Err(BadMagic)
    else if |buf| < 12 then Err(Malformed)
    else
      var lineNumbers := buf[5] != 0;
      var chunkCount := Int32LE(buf[8], buf[9], buf[10], buf[11]);
      match ParseChunks(buf[12..], NonNegative(chunkCount), lineNumbers)
      case None => Err(Malformed)
      case Some((functions, rest)) =>
        match ParseTokenTable(rest, lineNumbers && tokensTable)
        case None => Err(Malformed)
        case Some(tokens) => Ok(Image(lineNumbers, functions, tokens))
  }

  // ---------------------------------------------------------------------
  // The writer side of the format, as the compiler lays it out, and the
  // round trip through the reader. Each encoder writes its value in front
  // of the bytes `rest` that follow it.

  /** A string the reader gives back unchanged: no NUL, and short enough
      for its NUL to fall within the scan limit. */
  predicate Storable(s: seq<byte>)
  {
    |s| < STRING_SCAN_LIMIT && forall k :: 0 <= k < |s| ==> s[k] != 0
  }

  function EncodeString(s: seq<byte>, rest: seq<byte>): seq<byte>
  {
    s + ([0] + rest)
  }

  function EncodeConstant(c: Constant, rest: seq<byte>): seq<byte>
  {
    match c
    case IntegerConstant(i) => [VAL_INTEGER] + (Int32Bytes(i) + rest)
    case DecimalConstant(d) => [VAL_DECIMAL] + (UInt32Bytes(ToBits(d)) + rest)
    case StringConstant(chars) => [VAL_OBJECT] + EncodeString(chars, rest)
  }

  function EncodeConstants(cs: seq<Constant>, rest: seq<byte>): seq<byte>
  {
    if cs == [] then rest else EncodeConstant(cs[0], EncodeConstants(cs[1..], rest))
  }

  function EncodeLines(ls: seq<int32>, rest: seq<byte>): seq<byte>
  {
    if ls == [] then rest else Int32Bytes(ls[0]) + EncodeLines(ls[1..], rest)
  }

  /** A function the writer lays out and the reader gives back: the code
      count is the code's length, line numbers are present exactly when
      the flag is set (one per code byte), and every string constant is
      storable. */
  predicate WellFormedFunction(f: Function, lineNumbers: bool)
  {
    && f.Count == |f.Code|
    && (lineNumbers <==> f.Lines.Some?)
    && (lineNumbers ==> |f.Lines.value| == |f.Code|)
    && |f.Constants| < TWO_TO_31
    && forall k :: 0 <= k < |f.Constants| ==>
         f.Constants[k].StringConstant? ==> Storable(f.Constants[k].chars)
  }

  function EncodeChunk(f: Function, lineNumbers: bool, rest: seq<byte>): seq<byte>
    requires WellFormedFunction(f, lineNumbers)
  {
    var pool := Int32Bytes(|f.Constants|) + EncodeConstants(f.Constants, rest);
    Int32Bytes(f.Count) + (Int32Bytes(f.Arity) + (UInt32Bytes(f.NameHash) + (f.Code
      + (if lineNumbers then EncodeLines(f.Lines.value, pool) else pool))))
  }

  function EncodeChunks(fs: seq<Function>, lineNumbers: bool, rest: seq<byte>): seq<byte>
    requires forall k :: 0 <= k < |fs| ==> WellFormedFunction(fs[k], lineNumbers)
  {
    if fs == [] then rest
    else
      assert WellFormedFunction(fs[0], lineNumbers);
      EncodeChunk(fs[0], lineNumbers, EncodeChunks(fs[1..], lineNumbers, rest))
  }

  function EncodeStrings(ss: seq<seq<byte>>, rest: seq<byte>): seq<byte>
  {
    if ss == [] then rest else EncodeString(ss[0], EncodeStrings(ss[1..], rest))
  }

  predicate WellFormedImage(img: Image)
  {
    && |img.Functions| < TWO_TO_31
    && (forall k :: 0 <= k < |img.Functions| ==> WellFormedFunction(img.Functions[k], img.LineNumbers))
    && |img.Tokens| < TWO_TO_31
    && (!img.LineNumbers ==> img.Tokens == [])
    && forall k :: 0 <= k < |img.Tokens| ==> Storable(img.Tokens[k])
  }

  /** The buffer the compiler writes for `img`. */
  function Encode(magic: seq<byte>, img: Image): seq<byte>
    requires WellFormedImage(img)
  {
    var table := EncodeTokenTable(img);
    magic + ([0, if img.LineNumbers then 1 else 0, 0, 0]
      + (Int32Bytes(|img.Functions|) + EncodeChunks(img.Functions, img.LineNumbers, table)))
  }

  lemma ReadIntOf(x: int32, rest: seq<byte>)
    ensures ReadInt(Int32Bytes(x) + rest) == Some((x, rest))
  {
    assert (Int32Bytes(x) + rest)[4..] == rest;
  }

  lemma ReadUIntOf(u: uint32, rest: seq<byte>)
    ensures ReadUInt(UInt32Bytes(u) + rest) == Some((u, rest))
  {
    assert (UInt32Bytes(u) + rest)[4..] == rest;
  }

  lemma {:induction false} ScanEndOf(s: seq<byte>, rest: seq<byte>, k: nat)
    requires Storable(s) && k <= |s|
    ensures ScanEnd(EncodeString(s, rest), k) == Some(|s| + 1)
    decreases |s| - k
  {
    var e := EncodeString(s, rest);
    assert e[k] == if k < |s| then s[k] else 0;
    if k < |s| {
      ScanEndOf(s, rest, k + 1);
    }
  }

  lemma ReadStringOf(s: seq<byte>, rest: seq<byte>)
    requires Storable(s)
    ensures ReadString(EncodeString(s, rest)) == Some((s, rest))
  {
    var e := EncodeString(s, rest);
    ScanEndOf(s, rest, 0);
    assert e[..|s|] == s;
    assert e[|s| + 1..] == rest;
  }

  lemma ParseConstantOf(c: Constant, rest: seq<byte>)
    requires c.StringConstant? ==> Storable(c.chars)
    ensures ParseConstant(EncodeConstant(c, rest)) == Some(([c], rest))
  {
    var e := EncodeConstant(c, rest);
    match c
    case IntegerConstant(i) =>
      assert e[1..] == Int32Bytes(i) + rest;
      ReadIntOf(i, rest);
    case DecimalConstant(d) =>
      assert e[1..] == UInt32Bytes(ToBits(d)) + rest;
      ReadUIntOf(ToBits(d), rest);
      FromToBits(d);
    case StringConstant(chars) =>
      assert e[1..] == EncodeString(chars, rest);
      ReadStringOf(chars, rest);
  }

  lemma {:induction false} ParseConstantsOf(cs: seq<Constant>, rest: seq<byte>)
    requires forall k :: 0 <= k < |cs| ==> cs[k].StringConstant? ==> Storable(cs[k].chars)
    ensures ParseConstants(EncodeConstants(cs, rest), |cs|) == Some((cs, rest))
    decreases |cs|
  {
    if cs != [] {
      var c, more := cs[0], cs[1..];
      var tail := EncodeConstants(more, rest);
      var e := EncodeConstants(cs, rest);
      assert ParseConstant(e) == Some(([c], tail)) by {
        assert e == EncodeConstant(c, tail);
        ParseConstantOf(c, tail);
      }
      ParseConstantsOf(more, rest);
      HeadTail(cs);
      assert |more| + 1 == |cs|;
      assert Prepend([c], Some((more, rest))) == Some((cs, rest));
      assert ParseConstants(e, |cs|) == Prepend([c], ParseConstants(tail, |more|));
    }
  }

  lemma {:induction false} ParseLinesOf(ls: seq<int32>, rest: seq<byte>)
    ensures ParseLines(EncodeLines(ls, rest), |ls|) == Some((ls, rest))
    decreases |ls|
  {
    if ls != [] {
      ReadIntOf(ls[0], EncodeLines(ls[1..], rest));
      ParseLinesOf(ls[1..], rest);
      assert [ls[0]] + ls[1..] == ls;
    }
  }

  lemma ParseChunkOf(f: Function, lineNumbers: bool, rest: seq<byte>)
    requires WellFormedFunction(f, lineNumbers)
    ensures ParseChunk(EncodeChunk(f, lineNumbers, rest), lineNumbers) == Some((f, rest))
  {
    var e := EncodeChunk(f, lineNumbers, rest);
    var pool := Int32Bytes(|f.Constants|) + EncodeConstants(f.Constants, rest);
    var tail := if lineNumbers then EncodeLines(f.Lines.value, pool) else pool;
    var a, b, c := Int32Bytes(f.Count), Int32Bytes(f.Arity), UInt32Bytes(f.NameHash);
    assert e == a + (b + (c + (f.Code + tail)));
    assert Int32LE(e[0], e[1], e[2], e[3]) == f.Count by {
      assert e[0] == a[0] && e[1] == a[1] && e[2] == a[2] && e[3] == a[3];
    }
    assert Int32LE(e[4], e[5], e[6], e[7]) == f.Arity by {
      assert e[4] == b[0] && e[5] == b[1] && e[6] == b[2] && e[7] == b[3];
    }
    assert UInt32LE(e[8], e[9], e[10], e[11]) == f.NameHash by {
      assert e[8] == c[0] && e[9] == c[1] && e[10] == c[2] && e[11] == c[3];
    }
    assert e[12 .. 12 + f.Count] == f.Code;
    assert e[12 + f.Count..] == tail;
    ParseChunkParts(e, lineNumbers, f.Count, f.Arity, f.NameHash, f.Code, tail);
    ParseChunkTailOf(f, lineNumbers, rest);
    assert f == Function(f.Count, f.Arity, f.NameHash, f.Code, f.Lines, f.Constants);
  }

  /** `ParseChunk` once the header has been read and the code split off. */
  lemma ParseChunkParts(s: seq<byte>, lineNumbers: bool, count: int32, arity: int32, hash: uint32,
                        code: seq<byte>, tail: seq<byte>)
    requires |s| >= 12 && 0 <= count && 12 + count <= |s|
    requires Int32LE(s[0], s[1], s[2], s[3]) == count
    requires Int32LE(s[4], s[5], s[6], s[7]) == arity
    requires UInt32LE(s[8], s[9], s[10], s[11]) == hash
    requires s[12 .. 12 + count] == code && s[12 + count..] == tail
    ensures ParseChunk(s, lineNumbers) ==
      match ParseChunkTail(tail, count, lineNumbers)
      case None => None
      case Some((lines, constants, rest)) => Some((Function(count, arity, hash, code, lines, constants), rest))
  {
  }

  lemma ParseChunkTailOf(f: Function, lineNumbers: bool, rest: seq<byte>)
    requires WellFormedFunction(f, lineNumbers)
    ensures
      var pool := Int32Bytes(|f.Constants|) + EncodeConstants(f.Constants, rest);
      var tail := if lineNumbers then EncodeLines(f.Lines.value, pool) else pool;
      ParseChunkTail(tail, f.Count, lineNumbers) == Some((f.Lines, f.Constants, rest))
  {
    var pool := Int32Bytes(|f.Constants|) + EncodeConstants(f.Constants, rest);
    if lineNumbers {
      ParseLinesOf(f.Lines.value, pool);
    }
    ReadIntOf(|f.Constants|, EncodeConstants(f.Constants, rest));
    ParseConstantsOf(f.Constants, rest);
  }

  lemma ParseChunksStep(s: seq<byte>, n: nat, lineNumbers: bool, f: Function, tail: seq<byte>)
    requires ParseChunk(s, lineNumbers) == Some((f, tail))
    ensures ParseChunks(s, n + 1, lineNumbers) == Prepend([f], ParseChunks(tail, n, lineNumbers))
  {
  }

  lemma {:induction false} ParseChunksOf(fs: seq<Function>, lineNumbers: bool, rest: seq<byte>)
    requires forall k :: 0 <= k < |fs| ==> WellFormedFunction(fs[k], lineNumbers)
    ensures ParseChunks(EncodeChunks(fs, lineNumbers, rest), |fs|, lineNumbers) == Some((fs, rest))
    decreases |fs|
  {
    if fs != [] {
      var f, more := fs[0], fs[1..];
      assert WellFormedFunction(f, lineNumbers);
      var tail := EncodeChunks(more, lineNumbers, rest);
      var e := EncodeChunks(fs, lineNumbers, rest);
      assert ParseChunk(e, lineNumbers) == Some((f, tail)) by {
        assert e == EncodeChunk(f, lineNumbers, tail);
        ParseChunkOf(f, lineNumbers, tail);
      }
      ParseChunksOf(more, lineNumbers, rest);
      HeadTail(fs);
      assert |more| + 1 == |fs|;
      assert Prepend([f], Some((more, rest))) == Some((fs, rest));
      ParseChunksStep(e, |more|, lineNumbers, f, tail);
    }
  }

  lemma {:induction false} ParseTokensOf(ts: seq<seq<byte>>, rest: seq<byte>)
    requires forall k :: 0 <= k < |ts| ==> Storable(ts[k])
    ensures ParseTokens(EncodeStrings(ts, rest), |ts|) == Some((ts, rest))
    decreases |ts|
  {
    if ts != [] {
      ReadStringOf(ts[0], EncodeStrings(ts[1..], rest));
      ParseTokensOf(ts[1..], rest);
      assert [ts[0]] + ts[1..] == ts;
    }
  }

  /** The token table the writer appends when line numbers are on. */
  function EncodeTokenTable(img: Image): seq<byte>
    requires |img.Tokens| < TWO_TO_31
  {
    if img.LineNumbers then Int32Bytes(|img.Tokens|) + EncodeStrings(img.Tokens, []) else []
  }

  lemma TokenTableOf(img: Image)
    requires WellFormedImage(img)
    ensures ParseTokenTable(EncodeTokenTable(img), img.LineNumbers) == Some(img.Tokens)
  {
    if img.LineNumbers {
      ReadIntOf(|img.Tokens|, EncodeStrings(img.Tokens, []));
      ParseTokensOf(img.Tokens, []);
    }
  }

  /** Reading back what the writer laid out gives the same image. */
  lemma RoundTrip(magic: seq<byte>, img: Image)
    requires |magic| == 4 && WellFormedImage(img)
    ensures ParseIbc(Encode(magic, img), magic, true) == Ok(img)
  {
    var buf := Encode(magic, img);
    var table := EncodeTokenTable(img);
    var chunks := EncodeChunks(img.Functions, img.LineNumbers, table);
    var n := Int32Bytes(|img.Functions|);
    assert buf == magic + ([0, if img.LineNumbers then 1 else 0, 0, 0] + (n + chunks));
    assert |buf| >= 12 && buf[..4] == magic;
    assert (buf[5] != 0) == img.LineNumbers;
    assert Int32LE(buf[8], buf[9], buf[10], buf[11]) == |img.Functions| by {
      assert buf[8] == n[0] && buf[9] == n[1] && buf[10] == n[2] && buf[11] == n[3];
    }
    assert buf[12..] == chunks;
    ParseChunksOf(img.Functions, img.LineNumbers, table);
    TokenTableOf(img);
  }

  /** A minimal buffer: no line numbers, one function of arity 0 with three
      code bytes and the single constant Integer 42. It loads, and that
      function's constant is Integer 42. */
  lemma LoadsIntegerConstant(magic: seq<byte>, code: seq<byte>, hash: uint32)
    requires |magic| == 4 && |code| == 3
    ensures
      var f := Function(3, 0, hash, code, None, [IntegerConstant(42)]);
      ParseIbc(Encode(magic, Image(false, [f], [])), magic, true) == Ok(Image(false, [f], []))
  {
    var f := Function(3, 0, hash, code, None, [IntegerConstant(42)]);
    RoundTrip(magic, Image(false, [f], []));
  }
}
