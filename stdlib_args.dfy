/** How the script natives check and read their arguments: the
    argument-count guards, `GetInteger`, `GetDecimal`, `GetString`,
    `GetArray`, and the resource-list lookup behind `GetSprite`,
    `GetModel` and `GetVideo`. A native receives its arguments as a
    sequence, so `argCount` is its length. A fatal script error
    (`ThrowError(true, ...)`) is reported as a `NativeError`. */
module NativeArgs {
  import opened Wrappers
  import opened Machine
  import opened Floats
  import opened Values

  /** What a fatal error names. Argument positions count from 1, as the
      messages do. */
  datatype NativeError =
    | WrongArgCount(expected: nat, got: nat)
    | TooFewArgs(expected: nat, got: nat)
    | WrongArgType(position: nat, wanted: TypeName)
    | IndexOutOfBounds(index: int32)

  datatype TypeName = IntegerName | DecimalName | StringName | ArrayName

  /** `CHECK_ARGCOUNT(expects)`: any count but `expects` is an error. */
  function CheckArgCount(args: seq<Value>, expects: nat): (e: Option<NativeError>)
    ensures e.None? <==> |args| == expects
    ensures e.Some? ==> e.value == WrongArgCount(expects, |args|)
  {
    if |args| != expects then Some(WrongArgCount(expects, |args|)) else None
  }

  /** `CHECK_AT_LEAST_ARGCOUNT(expects)`: fewer than `expects` is an error. */
  function CheckAtLeastArgCount(args: seq<Value>, expects: nat): (e: Option<NativeError>)
    ensures e.None? <==> |args| >= expects
    ensures e.Some? ==> e.value == TooFewArgs(expects, |args|)
  {
    if |args| < expects then Some(TooFewArgs(expects, |args|)) else None
  }

  /** The error a native reports when it reads several arguments: the
      first one raised. */
  function FirstError(a: Option<NativeError>, b: Option<NativeError>): (e: Option<NativeError>)
    ensures e.None? <==> a.None? && b.None?
    ensures a.Some? ==> e == a
  {
    if a.Some? then a else b
  }

  /** The link cells the arguments read through. */
  function ArgReads(args: seq<Value>): set<object>
  {
    set i, o | 0 <= i < |args| && o in LinkReads(args[i]) :: o
  }

  /** `GetInteger`: an integer, plain or linked, is read (through its cell
      when linked); any other value is a type error and reads as 0. */
  function GetInteger(args: seq<Value>, index: nat): (r: (int32, Option<NativeError>))
    requires index < |args|
    reads LinkReads(args[index])
    ensures r.1.None? <==> IsIntegerKind(args[index])
    ensures r.1.None? ==> r.0 == AsInteger(args[index])
    ensures r.1.Some? ==> r.0 == 0 && r.1.value == WrongArgType(index + 1, IntegerName)
  {
    var v := args[index];
    if v.Integer? || v.LinkedInteger? then (AsInteger(v), None)
    else (0, Some(WrongArgType(index + 1, IntegerName)))
  }

  /** `GetDecimal`: a decimal is read as it is, an integer is widened to
      the nearest float, and any other value is a type error and reads as
      0.0. */
  function GetDecimal(args: seq<Value>, index: nat): (r: (float, Option<NativeError>))
    requires index < |args|
    reads LinkReads(args[index])
    ensures r.1.None? <==> IsDecimalKind(args[index]) || IsIntegerKind(args[index])
    ensures IsDecimalKind(args[index]) ==> r.0 == AsDecimal(args[index])
    ensures IsIntegerKind(args[index]) ==> r.0 == IntToFloat(AsInteger(args[index]))
    ensures r.1.Some? ==> r.0 == Zero && r.1.value == WrongArgType(index + 1, DecimalName)
  {
    var v := args[index];
    match v
    case Decimal(_) => (AsDecimal(v), None)
    case LinkedDecimal(_) => (AsDecimal(v), None)
    case Integer(_) => (AsDecimal(CastValueAsDecimal(v)), None)
    case LinkedInteger(_) => (AsDecimal(CastValueAsDecimal(v)), None)
    case _ => (Zero, Some(WrongArgType(index + 1, DecimalName)))
  }

  /** A whole-number argument read through `GetDecimal` and cast to `int`,
      as the tile natives read their coordinates. */
  function GetDecimalAsInteger(args: seq<Value>, index: nat): (r: (int32, Option<NativeError>))
    requires index < |args|
    reads LinkReads(args[index])
    ensures r.1 == GetDecimal(args, index).1
    ensures IsIntegerKind(args[index]) && -0x100_0000 < AsInteger(args[index]) < 0x100_0000 ==>
      r.0 == AsInteger(args[index])
  {
    var d := GetDecimal(args, index);
    if IsIntegerKind(args[index]) then
      SmallIntegerSurvives(AsInteger(args[index]));
      (FloatToInt(d.0), d.1)
    else
      (FloatToInt(d.0), d.1)
  }

  lemma SmallIntegerSurvives(i: int32)
    ensures -0x100_0000 < i < 0x100_0000 ==> FloatToInt(IntToFloat(i)) == i
  {
    if -0x100_0000 < i < 0x100_0000 {
      IntFloatRoundTrip(i);
    }
  }

  /** `GetString`: the characters of a string object. Anything else is a
      type error; the source goes on to read it as a string anyway, which
      the model does not follow. */
  function GetString(args: seq<Value>, index: nat): (r: Result<seq<byte>, NativeError>)
    requires index < |args|
    ensures r.Ok? <==> IsString(args[index])
    ensures r.Ok? ==> r.value == args[index].obj.Chars
    ensures r.Err? ==> r.error == WrongArgType(index + 1, StringName)
  {
    if IsString(args[index]) then Ok(args[index].obj.Chars)
    else Err(WrongArgType(index + 1, StringName))
  }

  /** `GetArray`: an array object, or a type error (after which the model
      stops, as for `GetString`). */
  function GetArray(args: seq<Value>, index: nat): (r: Result<Obj, NativeError>)
    requires index < |args|
    ensures r.Ok? <==> IsObjectOfType(args[index], ObjArray)
    ensures r.Ok? ==> args[index] == Object(r.value)
    ensures r.Err? ==> r.error == WrongArgType(index + 1, ArrayName)
  {
    if IsObjectOfType(args[index], ObjArray) then Ok(args[index].obj)
    else Err(WrongArgType(index + 1, ArrayName))
  }

  // ---------------------------------------------------------------------
  // The bounds check of `GetSprite`, `GetModel` and `GetVideo`.

  /** The check as the source writes it: an index is refused when it is
      negative or greater than the list size, so the size itself passes. */
  predicate PassesListCheckAsWritten(index: int, size: nat)
  {
    !(index < 0 || index > size)
  }

  /** The check as written lets through an index one past the last entry,
      which the lookup that follows then reads. */
  lemma ListCheckAsWrittenAdmitsSize(size: nat)
    ensures PassesListCheckAsWritten(size, size)
    ensures !(0 <= size < size)
  {
  }

  /** The check as intended: the index must name an entry of the list. */
  predicate PassesListCheck(index: int, size: nat)
  {
    !(index < 0 || index >= size)
  }

  /** The intended check admits exactly the indexes of the list, and
      differs from the written one at the list size only. */
  lemma ListCheckExact(index: int, size: nat)
    ensures PassesListCheck(index, size) <==> 0 <= index < size
    ensures PassesListCheckAsWritten(index, size) <==> PassesListCheck(index, size) || index == size
  {
  }

  /** `GetSprite` (and `GetModel`, `GetVideo`) with the intended check: the
      entry at the integer argument, which may be an empty slot (`null`),
      or an error for a non-integer or an index outside the list. */
  function GetListEntry<T>(args: seq<Value>, index: nat, list: seq<T>): (r: Result<T, NativeError>)
    requires index < |args|
    reads LinkReads(args[index])
    ensures r.Ok? <==> IsIntegerKind(args[index]) && PassesListCheck(AsInteger(args[index]), |list|)
    ensures r.Ok? ==> r.value == list[AsInteger(args[index])]
  {
    var (where, e) := GetInteger(args, index);
    if e.Some? then Err(e.value)
    else if where < 0 || where >= |list| then Err(IndexOutOfBounds(where))
    else Ok(list[where])
  }
}
