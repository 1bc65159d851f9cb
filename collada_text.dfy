/** The COLLADA reader's text helpers: C strings, the in-place whitespace
    tokenizer behind `ParseIntegerArray` and `ParseFloatArray`, and the C
    library's `atoi`. */
module ColladaText {

  /** A C string: text with no NUL in it. */
  type CString = s: string | '\0' !in s

  /** `strlen`: the number of characters before the first NUL. */
  function CLength(s: string): (n: nat)
    ensures n <= |s|
    ensures forall i :: 0 <= i < n ==> s[i] != '\0'
    ensures n < |s| ==> s[n] == '\0'
    ensures n == |s| ==> '\0' !in s
  {
    if |s| == 0 || s[0] == '\0' then 0 else 1 + CLength(s[1..])
  }

  /** The C string a buffer holds: its text up to the first NUL. */
  function CStr(s: string): (c: CString)
    ensures c <= s
    ensures |c| < |s| ==> s[|c|] == '\0'
  {
    s[..CLength(s)]
  }

  /** The characters the tokenizer splits on. */
  predicate IsSeparator(c: char)
  {
    c == '\0' || c == ' ' || c == '\n'
  }

  /** The tokens of `s` when `word` is the token read so far: maximal runs
      of non-separators, empty runs dropped. */
  function WordsFrom(s: string, word: string): seq<string>
    decreases |s|
  {
    if |s| == 0 then (if |word| > 0 then [word] else [])
    else if IsSeparator(s[0]) then (if |word| > 0 then [word] else []) + WordsFrom(s[1..], [])
    else WordsFrom(s[1..], word + [s[0]])
  }

  function Words(s: string): seq<string>
  {
    WordsFrom(s, [])
  }

  /** A character after tokenizing: separators become NUL. */
  function BlankChar(c: char): char
  {
    if IsSeparator(c) then '\0' else c
  }

  /** The buffer after tokenizing: each separator overwritten with NUL. */
  function Blanked(s: string): (r: string)
    ensures |r| == |s|
  {
    seq(|s|, i requires 0 <= i < |s| => BlankChar(s[i]))
  }

  function Map<A, B>(f: A -> B, xs: seq<A>): (ys: seq<B>)
    ensures |ys| == |xs|
    ensures forall i :: 0 <= i < |xs| ==> ys[i] == f(xs[i])
  {
    if |xs| == 0 then [] else [f(xs[0])] + Map(f, xs[1..])
  }

  /** A token: not empty, and no separator in it. */
  predicate IsWord(w: string)
  {
    |w| > 0 && forall i :: 0 <= i < |w| ==> !IsSeparator(w[i])
  }

  predicate NoSeparator(w: string)
  {
    forall i :: 0 <= i < |w| ==> !IsSeparator(w[i])
  }

  /** Every token is a non-empty run without separators. */
  lemma {:induction false} WordsFromAreWords(s: string, word: string)
    requires NoSeparator(word)
    ensures forall w :: w in WordsFrom(s, word) ==> IsWord(w)
    decreases |s|
  {
    if |s| > 0 {
      if IsSeparator(s[0]) {
        WordsFromAreWords(s[1..], []);
      } else {
        WordsFromAreWords(s[1..], word + [s[0]]);
      }
    }
  }

  lemma WordsAreWords(s: string)
    ensures forall w :: w in Words(s) ==> IsWord(w)
  {
    WordsFromAreWords(s, []);
  }

  /** A trailing NUL, the terminator the tokenizer stops on, adds no
      token. */
  lemma {:induction false} WordsFromTerminated(s: string, word: string)
    ensures WordsFrom(s + ['\0'], word) == WordsFrom(s, word)
    decreases |s|
  {
    if |s| == 0 {
      assert WordsFrom([], []) == [];
      assert WordsFrom(['\0'], word) == (if |word| > 0 then [word] else []) + WordsFrom([], []);
    } else {
      assert (s + ['\0'])[1..] == s[1..] + ['\0'];
      if IsSeparator(s[0]) {
        WordsFromTerminated(s[1..], []);
      } else {
        WordsFromTerminated(s[1..], word + [s[0]]);
      }
    }
  }

  /** Tokens joined by single spaces. */
  function Join(ws: seq<string>): string
  {
    if |ws| == 0 then [] else if |ws| == 1 then ws[0] else ws[0] + [' '] + Join(ws[1..])
  }

  /** A token read so far followed by the rest of a token: reading on
      yields the whole token. */
  lemma {:induction false} WordsFromWord(word: string, w: string, rest: string)
    requires NoSeparator(w)
    requires |rest| == 0 || IsSeparator(rest[0])
    ensures WordsFrom(w + rest, word) == WordsFrom(rest, word + w)
    decreases |w|
  {
    if |w| > 0 {
      assert (w + rest)[1..] == w[1..] + rest;
      assert word + w == (word + [w[0]]) + w[1..];
      WordsFromWord(word + [w[0]], w[1..], rest);
    } else {
      assert w + rest == rest;
      assert word + w == word;
    }
  }

  /** Tokenizing tokens joined by spaces gives the tokens back. */
  lemma {:induction false} WordsOfJoin(ws: seq<string>)
    requires forall i :: 0 <= i < |ws| ==> IsWord(ws[i])
    ensures Words(Join(ws)) == ws
    decreases |ws|
  {
    if |ws| == 1 {
      WordsFromWord([], ws[0], []);
      assert ws[0] + [] == ws[0];
      assert [] + ws[0] == ws[0];
    } else if |ws| > 1 {
      var rest := [' '] + Join(ws[1..]);
      assert Join(ws) == ws[0] + rest;
      WordsFromWord([], ws[0], rest);
      assert [] + ws[0] == ws[0];
      assert WordsFrom(rest, ws[0]) == [ws[0]] + WordsFrom(rest[1..], []);
      assert rest[1..] == Join(ws[1..]);
      WordsOfJoin(ws[1..]);
    }
  }

  /** The tokens of `text[..end]` still to be found by a scan standing at
      `i` whose current token started at `start`, by position. */
  function TokensFrom(text: string, end: nat, i: nat, start: nat): seq<string>
    requires start <= i <= end <= |text|
    decreases end - i
  {
    if i == end then (if start < i then [text[start..i]] else [])
    else if IsSeparator(text[i]) then (if start < i then [text[start..i]] else []) + TokensFrom(text, end, i + 1, i + 1)
    else TokensFrom(text, end, i + 1, start)
  }

  /** The scan by position finds the tokens `Words` describes. */
  lemma {:induction false} TokensFromWords(text: string, end: nat, i: nat, start: nat)
    requires start <= i <= end <= |text|
    ensures TokensFrom(text, end, i, start) == WordsFrom(text[i..end], text[start..i])
    decreases end - i
  {
    if i < end {
      assert text[i..end][1..] == text[i + 1..end];
      if IsSeparator(text[i]) {
        assert text[i + 1..i + 1] == [];
      } else {
        assert text[start..i + 1] == text[start..i] + [text[i]];
      }
      TokensFromWords(text, end, i + 1, if IsSeparator(text[i]) then i + 1 else start);
    }
  }

  /** The tokenizer at position `i` of `text` (a C string and its NUL,
      `size` characters before it), with the current token starting at
      `start`: the tokens found so far followed by the tokens still to be
      found are all the tokens. */
  ghost predicate Scanning(text: string, size: nat, i: nat, start: nat, words: seq<string>)
  {
    start <= i <= size + 1 <= |text| && (i > size ==> start == i)
    && (forall k :: start <= k < i ==> !IsSeparator(text[k]))
    && words + TokensFrom(text, size + 1, i, start) == TokensFrom(text, size + 1, 0, 0)
  }

  lemma ScanStarts(text: string, size: nat)
    requires size < |text|
    ensures Scanning(text, size, 0, 0, [])
  {
  }

  /** At a separator the token read so far, if any, is complete. */
  lemma ScanSeparator(text: string, size: nat, i: nat, start: nat, words: seq<string>)
    requires Scanning(text, size, i, start, words) && i <= size && IsSeparator(text[i])
    ensures Scanning(text, size, i + 1, i + 1,
                     if i - start > 0 then words + [text[start..i]] else words)
  {
    var later := TokensFrom(text, size + 1, i + 1, i + 1);
    if i - start > 0 {
      assert words + ([text[start..i]] + later) == (words + [text[start..i]]) + later;
    } else {
      assert [] + later == later;
    }
  }

  /** Any other character extends the token read so far. */
  lemma ScanOther(text: string, size: nat, i: nat, start: nat, words: seq<string>)
    requires Scanning(text, size, i, start, words) && i <= size && !IsSeparator(text[i])
    requires text[size] == '\0'
    ensures Scanning(text, size, i + 1, start, words)
  {
  }

  /** After the NUL every token has been found. */
  lemma ScanEnds(text: string, size: nat, i: nat, start: nat, words: seq<string>)
    requires Scanning(text, size, i, start, words) && i > size && text[size] == '\0'
    ensures words == Words(text[..size])
  {
    assert TokensFrom(text, size + 1, i, start) == [];
    assert words == TokensFrom(text, size + 1, 0, 0);
    TokensFromWords(text, size + 1, 0, 0);
    assert text[0..size + 1] == text[..size] + ['\0'];
    assert text[0..0] == [];
    WordsFromTerminated(text[..size], []);
  }


  /** The tokenizer loop of `ParseIntegerArray` and `ParseFloatArray` (the
      two are the same code over different element types): walk the C
      string up to and including its NUL; at each separator overwrite it
      with NUL and, when the run since the last separator is not empty,
      take that run as the next token. The tokens are those `Words`
      describes, and the buffer is blanked up to the NUL. */
  method Tokenize(buf: array<char>) returns (words: seq<string>)
    requires '\0' in buf[..]
    modifies buf
    ensures words == Words(CStr(old(buf[..])))
    ensures forall k :: 0 <= k <= CLength(old(buf[..])) ==> buf[k] == BlankChar(old(buf[k]))
    ensures forall k :: CLength(old(buf[..])) < k < buf.Length ==> buf[k] == old(buf[k])
  {
    ghost var text := buf[..];
    var size := CLength(buf[..]);
    var i, start := 0, 0;
    words := [];
    ScanStarts(text, size);
    while i <= size
      invariant Scanning(text, size, i, start, words)
      invariant forall k :: 0 <= k < i ==> buf[k] == BlankChar(text[k])
      invariant forall k :: i <= k < buf.Length ==> buf[k] == text[k]
    {
      if buf[i] == '\0' || buf[i] == ' ' || buf[i] == '\n' {
        ScanSeparator(text, size, i, start, words);
        buf[i] := '\0';
        if i - start > 0 {
          assert buf[start..i] == text[start..i];
          words := words + [buf[start..i]];
        }
        start := i + 1;
      } else {
        ScanOther(text, size, i, start, words);
      }
      i := i + 1;
    }
    ScanEnds(text, size, i, start, words);
  }

  // ---------------------------------------------------------------------
  // atoi

  /** The characters C's `isspace` accepts: space, tab, newline, vertical
      tab, form feed, carriage return. */
  predicate IsSpace(c: char)
  {
    c == ' ' || ('\t' <= c <= '\r')
  }

  predicate IsDigit(c: char)
  {
    '0' <= c <= '9'
  }

  function SkipSpaces(s: string): (r: string)
    ensures r <= s || (|r| <= |s| && r == s[|s| - |r|..])
    ensures |r| > 0 ==> !IsSpace(r[0])
  {
    if |s| > 0 && IsSpace(s[0]) then SkipSpaces(s[1..]) else s
  }

  /** The longest run of digits at the front of `s`. */
  function DigitRun(s: string): (d: string)
    ensures d <= s
    ensures forall i :: 0 <= i < |d| ==> IsDigit(d[i])
    ensures |d| < |s| ==> !IsDigit(s[|d|])
  {
    if |s| > 0 && IsDigit(s[0]) then [s[0]] + DigitRun(s[1..]) else []
  }

  /** The decimal value of a run of digits, most significant first. */
  function DigitsValue(d: string): (v: nat)
    requires forall i :: 0 <= i < |d| ==> IsDigit(d[i])
  {
    if |d| == 0 then 0 else DigitsValue(d[..|d| - 1]) * 10 + DigitValue(d[|d| - 1])
  }

  function DigitValue(c: char): (v: nat)
    requires IsDigit(c)
  {
    c as int - '0' as int
  }

  /** C's `atoi`: leading white space, an optional sign, then the longest
      run of digits; no digits reads as 0. */
  function Atoi(s: string): int
  {
    var t := SkipSpaces(s);
    if |t| > 0 && t[0] == '-' then -(DigitsValue(DigitRun(t[1..])) as int)
    else if |t| > 0 && t[0] == '+' then DigitsValue(DigitRun(t[1..]))
    else DigitsValue(DigitRun(t))
  }

  function DigitChar(n: nat): (c: char)
    requires n < 10
    ensures IsDigit(c) && DigitValue(c) == n
  {
    ('0' as int + n) as char
  }

  /** `n` written in decimal, most significant digit first. */
  function Digits(n: nat): (d: string)
    ensures |d| > 0
    ensures forall i :: 0 <= i < |d| ==> IsDigit(d[i])
  {
    if n < 10 then [DigitChar(n)] else Digits(n / 10) + [DigitChar(n % 10)]
  }

  /** `n` as `printf("%d")` writes it. */
  function Decimal(n: int): string
  {
    if n < 0 then ['-'] + Digits(-n) else Digits(n)
  }

  lemma {:induction false} DigitsValueOfDigits(n: nat)
    ensures DigitsValue(Digits(n)) == n
  {
    if n >= 10 {
      var d := Digits(n);
      assert d[..|d| - 1] == Digits(n / 10);
      DigitsValueOfDigits(n / 10);
    }
  }

  lemma {:induction false} DigitRunOfDigits(d: string)
    requires forall i :: 0 <= i < |d| ==> IsDigit(d[i])
    ensures DigitRun(d) == d
  {
    if |d| > 0 {
      DigitRunOfDigits(d[1..]);
      assert d == [d[0]] + d[1..];
    }
  }

  /** The value `atoi` reads from a string that starts with a run of
      digits and nothing else. */
  lemma AtoiOfDigits(n: nat)
    ensures DigitsValue(DigitRun(Digits(n))) == n
  {
    DigitRunOfDigits(Digits(n));
    DigitsValueOfDigits(n);
  }

  /** `atoi` reads back what `%d` writes. */
  lemma AtoiOfDecimal(n: int)
    ensures Atoi(Decimal(n)) == n
  {
    var d := Digits(if n < 0 then -n else n);
    AtoiOfDigits(if n < 0 then -n else n);
    if n < 0 {
      var t := ['-'] + d;
      assert SkipSpaces(t) == t;
      assert t[1..] == d;
    } else {
      assert SkipSpaces(d) == d;
    }
  }


  /** A number written in decimal is one token. */
  lemma DecimalIsWord(n: int)
    ensures IsWord(Decimal(n))
  {
    var d := Digits(if n < 0 then -n else n);
    assert forall i :: 0 <= i < |d| ==> !IsSeparator(d[i]);
    if n < 0 {
      assert forall i :: 1 <= i < |Decimal(n)| ==> Decimal(n)[i] == d[i - 1];
    }
  }

  /** Integers written in decimal and joined by spaces are read back by
      the integer tokenizer. */
  lemma ParsedDecimals(ns: seq<int>)
    ensures Map(Atoi, Words(Join(Map(Decimal, ns)))) == ns
  {
    var ws := Map(Decimal, ns);
    forall i | 0 <= i < |ws|
      ensures IsWord(ws[i])
    {
      DecimalIsWord(ns[i]);
    }
    WordsOfJoin(ws);
    forall i | 0 <= i < |ns|
      ensures Atoi(ws[i]) == ns[i]
    {
      AtoiOfDecimal(ns[i]);
    }
  }

  // ---------------------------------------------------------------------
  // The two tokenizing parsers

  /** `ParseIntegerArray`: the tokens of the C string in `buf`, read with
      `atoi`, appended to `dest`; the buffer's separators become NULs. The
      C code converts each token as it finds it; conversion has no effects,
      so converting the tokens in the order found gives the same list. */
  method ParseIntegerArray(dest: seq<int>, buf: array<char>) returns (out: seq<int>)
    requires '\0' in buf[..]
    modifies buf
    ensures out == dest + Map(Atoi, Words(CStr(old(buf[..]))))
    ensures forall k :: 0 <= k <= CLength(old(buf[..])) ==> buf[k] == BlankChar(old(buf[k]))
    ensures forall k :: CLength(old(buf[..])) < k < buf.Length ==> buf[k] == old(buf[k])
  {
    var words := Tokenize(buf);
    out := dest + Map(Atoi, words);
  }

  /** `ParseFloatArray`: the same with `atof`, which belongs to the C
      library and is a parameter here. */
  method ParseFloatArray<F>(dest: seq<F>, buf: array<char>, atof: string -> F) returns (out: seq<F>)
    requires '\0' in buf[..]
    modifies buf
    ensures out == dest + Map(atof, Words(CStr(old(buf[..]))))
    ensures forall k :: 0 <= k <= CLength(old(buf[..])) ==> buf[k] == BlankChar(old(buf[k]))
    ensures forall k :: CLength(old(buf[..])) < k < buf.Length ==> buf[k] == old(buf[k])
  {
    var words := Tokenize(buf);
    out := dest + Map(atof, words);
  }

  /** The `calloc(1, length + 1)` and `memcpy` that copy a token's text
      into a NUL-terminated buffer. */
  method CopyText(text: string) returns (buf: array<char>)
    ensures fresh(buf)
    ensures buf[..] == text + ['\0']
  {
    buf := new char[|text| + 1]((i: nat) => if i < |text| then text[i] else '\0');
  }

  lemma {:induction false} CLengthAppend(s: string, t: string)
    ensures '\0' in s ==> CLength(s + t) == CLength(s)
    ensures '\0' !in s ==> CLength(s + t) == |s| + CLength(t)
  {
    if |s| > 0 && s[0] != '\0' {
      assert (s + t)[1..] == s[1..] + t;
      CLengthAppend(s[1..], t);
      assert '\0' in s <==> '\0' in s[1..];
    } else if |s| == 0 {
      assert s + t == t;
    }
  }

  /** The copied buffer holds a NUL, and the same C string as the text. */
  lemma CopiedText(text: string)
    ensures '\0' in text + ['\0']
    ensures CStr(text + ['\0']) == CStr(text)
  {
    assert (text + ['\0'])[|text|] == '\0';
    CLengthAppend(text, ['\0']);
    assert (text + ['\0'])[..CLength(text)] == text[..CLength(text)];
  }

}
