/** The `String.*` natives that search, cut and re-case text. A script
    string reaches the C library as a NUL-terminated `char*`, so every
    native works on the characters before the first NUL (`CText`). */
module StringNatives {
  import opened Wrappers
  import opened Machine
  import opened Values
  import opened NativeArgs

  /** What `strlen` counts: the characters before the first NUL. */
  function CText(chars: seq<byte>): (t: seq<byte>)
    ensures |t| <= |chars| && t == chars[..|t|]
    ensures forall k :: 0 <= k < |t| ==> t[k] != 0
    ensures |t| < |chars| ==> chars[|t|] == 0
  {
    if |chars| == 0 || chars[0] == 0 then []
    else [chars[0]] + CText(chars[1..])
  }

  /** The text of a string argument. */
  function TextOf(args: seq<Value>, index: nat): seq<byte>
    requires index < |args| && IsString(args[index])
  {
    CText(args[index].obj.Chars)
  }

  /** The position of the text, as the `int` a native returns. */
  function Position(p: int): Value
  {
    Integer(WrapInt32(p))
  }

  // ---------------------------------------------------------------------
  // Searching.

  predicate OccursAt(text: seq<byte>, sub: seq<byte>, p: int)
  {
    0 <= p && p + |sub| <= |text| && text[p..p + |sub|] == sub
  }

  /** `strstr`: the first position from `from` on where `sub` occurs. */
  function FindFrom(text: seq<byte>, sub: seq<byte>, from: nat): (r: int)
    decreases |text| - from
    ensures r == -1 || (from <= r && OccursAt(text, sub, r))
    ensures r == -1 ==> forall p :: from <= p <= |text| - |sub| ==> !OccursAt(text, sub, p)
    ensures r != -1 ==> forall p :: from <= p < r ==> !OccursAt(text, sub, p)
  {
    if from + |sub| > |text| then -1
    else if text[from..from + |sub|] == sub then from
    else FindFrom(text, sub, from + 1)
  }

  /** The first occurrence, or -1. */
  function FindFirst(text: seq<byte>, sub: seq<byte>): int
  {
    FindFrom(text, sub, 0)
  }

  /** The last occurrence, or -1. */
  function FindLast(text: seq<byte>, sub: seq<byte>): (r: int)
    ensures r == -1 || OccursAt(text, sub, r)
    ensures forall p :: r < p ==> !OccursAt(text, sub, p)
  {
    if |text| < |sub| then -1 else FindLastBelow(text, sub, |text| - |sub|)
  }

  function FindLastBelow(text: seq<byte>, sub: seq<byte>, start: int): (r: int)
    requires start + |sub| <= |text|
    decreases start + 1
    ensures r == -1 || (r <= start && OccursAt(text, sub, r))
    ensures r == -1 ==> forall p :: 0 <= p <= start ==> !OccursAt(text, sub, p)
    ensures r != -1 ==> forall p :: r < p <= start ==> !OccursAt(text, sub, p)
  {
    if start < 0 then -1
    else if text[start..start + |sub|] == sub then start
    else FindLastBelow(text, sub, start - 1)
  }

  /** The empty needle occurs first at 0 and last at the end of the text. */
  lemma {:induction false} EmptyNeedle(text: seq<byte>)
    ensures FindFirst(text, []) == 0
    ensures FindLast(text, []) == |text|
  {
    assert OccursAt(text, [], 0);
    assert OccursAt(text, [], |text|);
  }

  /** A needle occurs exactly when both searches find it, the first
      occurrence never after the last. */
  lemma {:induction false} FirstNotAfterLast(text: seq<byte>, sub: seq<byte>)
    ensures FindFirst(text, sub) == -1 <==> FindLast(text, sub) == -1
    ensures FindFirst(text, sub) <= FindLast(text, sub)
  {
    var f, l := FindFirst(text, sub), FindLast(text, sub);
    if f != -1 {
      assert OccursAt(text, sub, f);
      assert l != -1;
    }
    if l != -1 {
      assert OccursAt(text, sub, l);
      assert f != -1;
    }
  }

  /** `String.IndexOf(string, substring)`: the first position of the
      substring, or -1. */
  method IndexOf(args: seq<Value>) returns (r: Value, err: Option<NativeError>)
    ensures |args| != 2 ==> r == Null && err == CheckArgCount(args, 2)
    ensures |args| == 2 && !IsString(args[0]) ==> r == Null && err == Some(GetString(args, 0).error)
    ensures |args| == 2 && IsString(args[0]) && !IsString(args[1]) ==> r == Null && err == Some(GetString(args, 1).error)
    ensures |args| == 2 && IsString(args[0]) && IsString(args[1]) ==>
      err.None? && r == Position(FindFirst(TextOf(args, 0), TextOf(args, 1)))
  {
    err := CheckArgCount(args, 2);
    if err.Some? {
      return Null, err;
    }
    var s := GetString(args, 0);
    if s.Err? {
      return Null, Some(s.error);
    }
    var sub := GetString(args, 1);
    if sub.Err? {
      return Null, Some(sub.error);
    }
    r := Position(FindFirst(CText(s.value), CText(sub.value)));
  }

  /** `String.LastIndexOf(string, substring)`: the start positions are
      tried from the last one that leaves room for the substring down to
      0; the first that matches is the answer, and -1 when none does or
      the substring is longer than the string. */
  method LastIndexOf(args: seq<Value>) returns (r: Value, err: Option<NativeError>)
    ensures |args| != 2 ==> r == Null && err == CheckArgCount(args, 2)
    ensures |args| == 2 && !IsString(args[0]) ==> r == Null && err == Some(GetString(args, 0).error)
    ensures |args| == 2 && IsString(args[0]) && !IsString(args[1]) ==> r == Null && err == Some(GetString(args, 1).error)
    ensures |args| == 2 && IsString(args[0]) && IsString(args[1]) ==>
      err.None? && r == Position(FindLast(TextOf(args, 0), TextOf(args, 1)))
  {
    err := CheckArgCount(args, 2);
    if err.Some? {
      return Null, err;
    }
    var s := GetString(args, 0);
    if s.Err? {
      return Null, Some(s.error);
    }
    var sub := GetString(args, 1);
    if sub.Err? {
      return Null, Some(sub.error);
    }
    var text, needle := CText(s.value), CText(sub.value);
    if |text| < |needle| {
      return Position(-1), None;
    }
    var find := -1;
    var start := |text| - |needle|;
    while start >= 0
      invariant -1 <= start <= |text| - |needle|
      invariant FindLastBelow(text, needle, start) == FindLast(text, needle)
    {
      if text[start..start + |needle|] == needle {
        find := start;
        break;
      }
      start := start - 1;
    }
    r := Position(find);
  }

  // ---------------------------------------------------------------------
  // Cutting.

  /** `Substring`'s length: a length that runs past the end of the text,
      or -1, becomes the rest of the text. */
  function ClampedLength(textLength: int, index: int, length: int): int
  {
    if length > textLength - index || length == -1 then textLength - index else length
  }

  /** The characters `String.Substring(string, index, length)` copies. */
  function SubstringOf(text: seq<byte>, index: int, length: int): (r: seq<byte>)
    requires 0 <= index <= |text| && -1 <= length
    ensures |r| == ClampedLength(|text|, index, length)
    ensures |r| <= |text| - index
    ensures length == -1 || length >= |text| - index ==> r == text[index..]
    ensures 0 <= length <= |text| - index ==> |r| == length
    ensures r == text[index..index + |r|]
  {
    text[index..index + ClampedLength(|text|, index, length)]
  }

  /** Cutting from 0 with length -1 copies the whole text, and cutting the
      rest after a cut at `index` of `length` gives back the text. */
  lemma SubstringsJoin(text: seq<byte>, index: int, length: int)
    requires 0 <= index <= |text| && 0 <= length <= |text| - index
    ensures SubstringOf(text, 0, -1) == text
    ensures text[..index] + SubstringOf(text, index, length) + SubstringOf(text, index + length, -1) == text
  {
    assert text[..index] + text[index..index + length] + text[index + length..] == text;
  }

  /** `String.Substring(string, index, length)`: a new string of the
      clamped length starting at `index`. The source reads `index` and the
      clamped length without checks, so the index must lie in the text
      and the length must be -1 or more. */
  method Substring(args: seq<Value>) returns (r: Value, err: Option<NativeError>)
    requires |args| == 3 && IsString(args[0]) ==>
      0 <= GetInteger(args, 1).0 <= |TextOf(args, 0)| && -1 <= GetInteger(args, 2).0
    ensures |args| != 3 ==> r == Null && err == CheckArgCount(args, 3)
    ensures |args| == 3 && !IsString(args[0]) ==> r == Null && err == Some(GetString(args, 0).error)
    ensures |args| == 3 && IsString(args[0]) ==>
      err == FirstError(GetInteger(args, 1).1, GetInteger(args, 2).1)
      && IsString(r) && fresh(r.obj)
      && r.obj.Chars == SubstringOf(TextOf(args, 0), GetInteger(args, 1).0, GetInteger(args, 2).0)
  {
    err := CheckArgCount(args, 3);
    if err.Some? {
      return Null, err;
    }
    var s := GetString(args, 0);
    if s.Err? {
      return Null, Some(s.error);
    }
    var (index, e1) := GetInteger(args, 1);
    var (length, e2) := GetInteger(args, 2);
    err := FirstError(e1, e2);
    var copy := new Obj.String(SubstringOf(CText(s.value), index, length));
    r := Object(copy);
  }

  // ---------------------------------------------------------------------
  // Re-casing.

  function UpperChar(c: byte): byte
  {
    if 'a' as int <= c <= 'z' as int then c - 32 else c
  }

  function LowerChar(c: byte): byte
  {
    if 'A' as int <= c <= 'Z' as int then c + 32 else c
  }

  /** The text with every ASCII lower-case letter made upper-case and
      nothing else changed. */
  function Upper(s: seq<byte>): (r: seq<byte>)
    ensures |r| == |s| && forall k :: 0 <= k < |s| ==> r[k] == UpperChar(s[k])
  {
    seq(|s|, k requires 0 <= k < |s| => UpperChar(s[k]))
  }

  function Lower(s: seq<byte>): (r: seq<byte>)
    ensures |r| == |s| && forall k :: 0 <= k < |s| ==> r[k] == LowerChar(s[k])
  {
    seq(|s|, k requires 0 <= k < |s| => LowerChar(s[k]))
  }

  /** Re-casing twice is re-casing once, and the other case is undone by
      the re-casing that follows: only the case of the letters differs. */
  lemma CaseChanges(s: seq<byte>)
    ensures Upper(Upper(s)) == Upper(s) && Lower(Lower(s)) == Lower(s)
    ensures Upper(Lower(s)) == Upper(s) && Lower(Upper(s)) == Lower(s)
    ensures forall k :: 0 <= k < |s| && !('a' as int <= s[k] <= 'z' as int) ==> Upper(s)[k] == s[k]
    ensures forall k :: 0 <= k < |s| && !('A' as int <= s[k] <= 'Z' as int) ==> Lower(s)[k] == s[k]
  {
    assert Upper(Upper(s)) == Upper(s);
    assert Lower(Lower(s)) == Lower(s);
    assert Upper(Lower(s)) == Upper(s);
    assert Lower(Upper(s)) == Lower(s);
  }

  /** `String.ToUpperCase(string)` and `String.ToLowerCase(string)` (the
      `upper` flag tells which): the text is copied and the copy is
      rewritten one character at a time up to its NUL. */
  method ChangeCase(args: seq<Value>, upper: bool) returns (r: Value, err: Option<NativeError>)
    ensures |args| != 1 ==> r == Null && err == CheckArgCount(args, 1)
    ensures |args| == 1 && !IsString(args[0]) ==> r == Null && err == Some(GetString(args, 0).error)
    ensures |args| == 1 && IsString(args[0]) ==>
      err.None? && IsString(r) && fresh(r.obj)
      && r.obj.Chars == if upper then Upper(TextOf(args, 0)) else Lower(TextOf(args, 0))
  {
    err := CheckArgCount(args, 1);
    if err.Some? {
      return Null, err;
    }
    var s := GetString(args, 0);
    if s.Err? {
      return Null, Some(s.error);
    }
    var text := CText(s.value);
    var a := new byte[|text|](k requires 0 <= k < |text| => text[k]);
    var i := 0;
    while i < a.Length
      invariant 0 <= i <= a.Length
      invariant forall k :: 0 <= k < i ==> a[k] == if upper then UpperChar(text[k]) else LowerChar(text[k])
      invariant forall k :: i <= k < a.Length ==> a[k] == text[k]
    {
      if upper && 'a' as int <= a[i] <= 'z' as int {
        a[i] := a[i] - 32;
      } else if !upper && 'A' as int <= a[i] <= 'Z' as int {
        a[i] := a[i] + 32;
      }
      i := i + 1;
    }
    var copy := new Obj.String(a[..]);
    r := Object(copy);
  }
}
