/** Script values of the bytecode VM (`VMValue`) and the heap objects they
    point at, with the value helpers of `BytecodeObjectManager`: strict and
    loose equality, falsiness, delinking, the numeric casts and string
    concatenation. */
module Values {
  import opened Machine
  import opened Floats

  /** A native `int` or `float` variable that the engine exposes to scripts.
      A linked value points at one of these, so reading it sees whatever the
      engine last stored there. */
  class Cell<T> {
    var Value: T

    constructor (v: T)
      ensures Value == v
    {
      Value := v;
    }
  }

  datatype ObjType =
    | ObjBoundMethod | ObjClass | ObjClosure | ObjFunction | ObjInstance
    | ObjNative | ObjString | ObjUpvalue | ObjArray | ObjMap

  /** The tag of a value (`VAL_*`). */
  datatype ValueType =
    | ValNull | ValInteger | ValDecimal | ValObject | ValLinkedInteger | ValLinkedDecimal

  datatype Value =
    | Null
    | Integer(i: int32)
    | Decimal(d: float)
    | Object(obj: Obj)
    | LinkedInteger(intCell: Cell<int32>)
    | LinkedDecimal(decCell: Cell<float>)

  /** A heap object. Its type never changes; a string's characters and a
      bound method's receiver and method are fixed at allocation, while an
      array's elements and the tables of instances, classes and maps are
      updated in place. */
  class Obj {
    const Type: ObjType
    /** `ObjString`: the characters, `Length` of them. */
    const Chars: seq<byte>
    /** `ObjBoundMethod`: the receiver and the method it is bound to. */
    const Receiver: Value
    const Method: Obj?
    /** `ObjNative`: the engine function it calls, by an identifier. */
    const NativeFn: nat
    /** `ObjArray`: the elements. */
    var Values: seq<Value>
    /** `ObjInstance`: the field table. */
    var Fields: map<uint32, Value>
    /** `ObjClass`: the method table, keyed by name hash. */
    var Methods: map<uint32, Value>
    /** `ObjMap`: the key strings and the values, both keyed by key hash. */
    var Keys: map<uint32, seq<byte>>
    var MapValues: map<uint32, Value>

    constructor String(chars: seq<byte>)
      ensures Type == ObjString && Chars == chars
    {
      Type := ObjString;
      Chars := chars;
    }

    constructor Array(values: seq<Value>)
      ensures Type == ObjArray && Values == values
    {
      Type := ObjArray;
      Values := values;
    }

    constructor BoundMethod(receiver: Value, boundTo: Obj)
      ensures Type == ObjBoundMethod && Receiver == receiver && Method == boundTo
    {
      Type := ObjBoundMethod;
      Receiver := receiver;
      Method := boundTo;
    }

    /** `NewNative`: a native function object, with an empty method table. */
    constructor Native(fn: nat)
      ensures Type == ObjNative && NativeFn == fn && Methods == map[]
    {
      Type := ObjNative;
      NativeFn := fn;
      Methods := map[];
    }

    /** An object of a type whose contents the model does not track. */
    constructor Plain(t: ObjType)
      ensures Type == t && Methods == map[] && Fields == map[]
    {
      Type := t;
      Methods := map[];
      Fields := map[];
    }
  }

  function TypeOf(v: Value): ValueType
  {
    match v
    case Null => ValNull
    case Integer(_) => ValInteger
    case Decimal(_) => ValDecimal
    case Object(_) => ValObject
    case LinkedInteger(_) => ValLinkedInteger
    case LinkedDecimal(_) => ValLinkedDecimal
  }

  predicate IsLinked(v: Value)
  {
    v.LinkedInteger? || v.LinkedDecimal?
  }

  predicate IsIntegerKind(v: Value)
  {
    v.Integer? || v.LinkedInteger?
  }

  predicate IsDecimalKind(v: Value)
  {
    v.Decimal? || v.LinkedDecimal?
  }

  predicate IsObjectOfType(v: Value, t: ObjType)
  {
    v.Object? && v.obj.Type == t
  }

  predicate IsString(v: Value)
  {
    IsObjectOfType(v, ObjString)
  }

  predicate IsBoundMethod(v: Value)
  {
    IsObjectOfType(v, ObjBoundMethod)
  }

  /** The storage a value reads through: its cell when it is linked. */
  function LinkReads(v: Value): set<object>
  {
    match v
    case LinkedInteger(c) => {c}
    case LinkedDecimal(c) => {c}
    case _ => {}
  }

  /** The storage a loose comparison reads: the value's own cell, and its
      receiver's cell when it is a bound method. */
  function LooseReads(v: Value): set<object>
  {
    LinkReads(v) + (if IsBoundMethod(v) then LinkReads(v.obj.Receiver) else {})
  }

  /** `AS_INTEGER`: the integer held, read through the cell when linked. */
  function AsInteger(v: Value): int32
    requires IsIntegerKind(v)
    reads LinkReads(v)
  {
    if v.Integer? then v.i else v.intCell.Value
  }

  /** `AS_DECIMAL`: the float held, read through the cell when linked. */
  function AsDecimal(v: Value): float
    requires IsDecimalKind(v)
    reads LinkReads(v)
  {
    if v.Decimal? then v.d else v.decCell.Value
  }

  /** `ValuesEqual`. Two unlinked values of different tags are unequal;
      when either side is linked the tag check is skipped and `a`'s tag
      decides how the payloads are compared. Where that makes C reinterpret
      a payload of another kind, the model answers false. */
  predicate ValuesEqual(a: Value, b: Value)
    reads LinkReads(a), LinkReads(b)
  {
    if !IsLinked(a) && !IsLinked(b) && TypeOf(a) != TypeOf(b) then false
    else
      match a
      case Null => true
      case Integer(_) => IsIntegerKind(b) && AsInteger(a) == AsInteger(b)
      case LinkedInteger(_) => IsIntegerKind(b) && AsInteger(a) == AsInteger(b)
      case Decimal(_) => IsDecimalKind(b) && Floats.Equal(AsDecimal(a), AsDecimal(b))
      case LinkedDecimal(_) => IsDecimalKind(b) && Floats.Equal(AsDecimal(a), AsDecimal(b))
      case Object(o) => b.Object? && o == b.obj
  }

  /** The cases of strict equality, each as the engine defines it. */
  lemma ValuesEqualCases(a: Value, b: Value)
    ensures !IsLinked(a) && !IsLinked(b) && TypeOf(a) != TypeOf(b) ==> !ValuesEqual(a, b)
    ensures IsIntegerKind(a) && IsIntegerKind(b) ==>
      (ValuesEqual(a, b) <==> AsInteger(a) == AsInteger(b))
    ensures IsDecimalKind(a) && IsDecimalKind(b) ==>
      (ValuesEqual(a, b) <==> Floats.Equal(AsDecimal(a), AsDecimal(b)))
    ensures a.Object? && b.Object? ==> (ValuesEqual(a, b) <==> a.obj == b.obj)
    ensures a.Null? && (b.Null? || IsLinked(b)) ==> ValuesEqual(a, b)
    ensures a.Null? && !b.Null? && !IsLinked(b) ==> !ValuesEqual(a, b)
  {
  }

  /** Strict equality is reflexive, except on a NaN decimal. */
  lemma ValuesEqualReflexive(a: Value)
    ensures ValuesEqual(a, a) <==> !(IsDecimalKind(a) && IsNaN(AsDecimal(a)))
  {
  }

  /** Between unlinked values, and between values of the same numeric kind,
      strict equality is symmetric. */
  lemma ValuesEqualSymmetric(a: Value, b: Value)
    requires (!IsLinked(a) && !IsLinked(b))
      || (IsIntegerKind(a) && IsIntegerKind(b))
      || (IsDecimalKind(a) && IsDecimalKind(b))
    ensures ValuesEqual(a, b) <==> ValuesEqual(b, a)
  {
  }

  /** `ValueFalsey`: Null, a zero integer and a decimal equal to `0.0f` are
      falsey; an object never is. */
  predicate ValueFalsey(a: Value)
    reads LinkReads(a)
  {
    match a
    case Null => true
    case Integer(_) => AsInteger(a) == 0
    case LinkedInteger(_) => AsInteger(a) == 0
    case Decimal(_) => IsZero(AsDecimal(a))
    case LinkedDecimal(_) => IsZero(AsDecimal(a))
    case Object(_) => false
  }

  /** Falsiness agrees with strict equality against the zero of the value's
      own kind. */
  lemma ValueFalseyIsEqualToZero(a: Value)
    ensures a.Null? ==> ValueFalsey(a)
    ensures a.Object? ==> !ValueFalsey(a)
    ensures IsIntegerKind(a) ==> (ValueFalsey(a) <==> ValuesEqual(a, Integer(0)))
    ensures IsDecimalKind(a) ==> (ValueFalsey(a) <==> ValuesEqual(a, Decimal(Zero)))
  {
  }

  /** `DelinkValue`: a linked value becomes a plain value holding what its
      cell holds now; every other value is returned as it is. */
  function DelinkValue(v: Value): (r: Value)
    reads LinkReads(v)
    ensures !IsLinked(r)
    ensures !IsLinked(v) ==> r == v
    ensures IsIntegerKind(v) ==> r == Integer(AsInteger(v))
    ensures IsDecimalKind(v) ==> r == Decimal(AsDecimal(v))
  {
    match v
    case LinkedDecimal(c) => Decimal(c.Value)
    case LinkedInteger(c) => Integer(c.Value)
    case _ => v
  }

  lemma DelinkIdempotent(v: Value)
    ensures DelinkValue(DelinkValue(v)) == DelinkValue(v)
  {
  }

  /** Delinking does not change how a value compares, falls, or casts. */
  lemma DelinkPreservesMeaning(a: Value, b: Value)
    requires (IsIntegerKind(a) && IsIntegerKind(b)) || (IsDecimalKind(a) && IsDecimalKind(b))
    ensures ValuesEqual(a, b) <==> ValuesEqual(DelinkValue(a), DelinkValue(b))
    ensures ValueFalsey(a) <==> ValueFalsey(DelinkValue(a))
  {
  }

  /** `CastValueAsInteger`: decimals are truncated toward zero, an integer
      is returned as it is, a linked integer is delinked, and anything else
      gives Null. */
  function CastValueAsInteger(v: Value): (r: Value)
    reads LinkReads(v)
    ensures r.Null? || r.Integer?
    ensures r.Null? <==> !(IsIntegerKind(v) || IsDecimalKind(v))
    ensures IsIntegerKind(v) ==> r == DelinkValue(v)
    ensures IsDecimalKind(v) ==> r == Integer(FloatToInt(AsDecimal(v)))
  {
    match v
    case Decimal(d) => Integer(FloatToInt(d))
    case LinkedDecimal(c) => Integer(FloatToInt(c.Value))
    case Integer(_) => v
    case LinkedInteger(c) => Integer(c.Value)
    case _ => Null
  }

  /** `CastValueAsDecimal`: a decimal is returned as it is, a linked
      decimal is delinked, integers are widened with `(float)`, and anything
      else gives Null. */
  function CastValueAsDecimal(v: Value): (r: Value)
    reads LinkReads(v)
    ensures r.Null? || r.Decimal?
    ensures r.Null? <==> !(IsIntegerKind(v) || IsDecimalKind(v))
    ensures IsDecimalKind(v) ==> r == DelinkValue(v)
    ensures IsIntegerKind(v) ==> r == Decimal(IntToFloat(AsInteger(v)))
  {
    match v
    case Decimal(_) => v
    case LinkedDecimal(c) => Decimal(c.Value)
    case Integer(i) => Decimal(IntToFloat(i))
    case LinkedInteger(c) => Decimal(IntToFloat(c.Value))
    case _ => Null
  }

  /** Casting to an integer after widening to a decimal gives the integer
      back whenever it has at most 24 significant bits. */
  lemma {:induction false} CastRoundTrip(v: Value)
    requires IsIntegerKind(v) && -0x100_0000 < AsInteger(v) < 0x100_0000
    ensures CastValueAsInteger(CastValueAsDecimal(v)) == Integer(AsInteger(v))
  {
    IntFloatRoundTrip(AsInteger(v));
  }

  /** Both casts are idempotent, and a cast never keeps a link. */
  lemma CastsIdempotent(v: Value)
    ensures CastValueAsInteger(CastValueAsInteger(v)) == CastValueAsInteger(v)
    ensures CastValueAsDecimal(CastValueAsDecimal(v)) == CastValueAsDecimal(v)
  {
  }

  /** `ValuesSortaEqual`, the loose equality: an integer and a decimal are
      compared as decimals, two strings by their characters, two bound
      methods by receiver and method; everything else strictly. */
  predicate ValuesSortaEqual(a: Value, b: Value)
    reads LooseReads(a), LooseReads(b)
  {
    if (a.Decimal? && b.Integer?) || (a.Integer? && b.Decimal?) then
      Floats.Equal(CastValueAsDecimal(a).d, CastValueAsDecimal(b).d)
    else if IsString(a) && IsString(b) then
      a.obj.Chars == b.obj.Chars
    else if IsBoundMethod(a) && IsBoundMethod(b) then
      ValuesEqual(a.obj.Receiver, b.obj.Receiver) && a.obj.Method == b.obj.Method
    else
      ValuesEqual(a, b)
  }

  /** The four cases of loose equality. */
  lemma ValuesSortaEqualCases(a: Value, b: Value)
    ensures a.Integer? && b.Decimal? ==>
      (ValuesSortaEqual(a, b) <==> Floats.Equal(IntToFloat(a.i), b.d))
    ensures a.Decimal? && b.Integer? ==>
      (ValuesSortaEqual(a, b) <==> Floats.Equal(a.d, IntToFloat(b.i)))
    ensures IsString(a) && IsString(b) ==>
      (ValuesSortaEqual(a, b) <==>
        |a.obj.Chars| == |b.obj.Chars| && forall k :: 0 <= k < |a.obj.Chars| ==> a.obj.Chars[k] == b.obj.Chars[k])
    ensures IsBoundMethod(a) && IsBoundMethod(b) ==>
      (ValuesSortaEqual(a, b) <==>
        ValuesEqual(a.obj.Receiver, b.obj.Receiver) && a.obj.Method == b.obj.Method)
    ensures (!((a.Decimal? && b.Integer?) || (a.Integer? && b.Decimal?))
      && !(IsString(a) && IsString(b)) && !(IsBoundMethod(a) && IsBoundMethod(b))) ==>
      (ValuesSortaEqual(a, b) <==> ValuesEqual(a, b))
  {
  }

  /** Loose equality is weaker than strict equality, except that a bound
      method whose receiver is a NaN decimal is not loosely equal to itself. */
  lemma StrictImpliesLoose(a: Value, b: Value)
    requires ValuesEqual(a, b)
    requires IsBoundMethod(a) ==> ValuesEqual(a.obj.Receiver, a.obj.Receiver)
    ensures ValuesSortaEqual(a, b)
  {
  }

  /** Two distinct string objects with the same characters are loosely but
      not strictly equal. */
  lemma StringsLooselyEqual(s: Obj, t: Obj)
    requires s.Type == ObjString && t.Type == ObjString
    requires s != t && s.Chars == t.Chars
    ensures ValuesSortaEqual(Object(s), Object(t))
    ensures !ValuesEqual(Object(s), Object(t))
  {
  }

  /** An integer is loosely equal to its own widening. */
  lemma IntegerLooselyEqualsWidening(i: int32)
    ensures ValuesSortaEqual(Integer(i), CastValueAsDecimal(Integer(i)))
  {
  }

  /** `Concatenate`: a new string holding `a`'s characters followed by `b`'s. */
  method Concatenate(va: Value, vb: Value) returns (r: Value)
    requires IsString(va) && IsString(vb)
    ensures IsString(r) && fresh(r.obj)
    ensures r.obj.Chars == va.obj.Chars + vb.obj.Chars
    ensures |r.obj.Chars| == |va.obj.Chars| + |vb.obj.Chars|
  {
    var result := new Obj.String(va.obj.Chars + vb.obj.Chars);
    r := Object(result);
  }
}
