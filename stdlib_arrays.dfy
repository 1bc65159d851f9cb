/** The `Array.*` natives. Each edits the element vector of its array
    argument in place; `Pop`, `Insert` and `Erase` do no bounds checks of
    their own, so their index (or a non-empty array) is a precondition.
    After a fatal argument error the source goes on: an integer that fails
    to read is used as 0, which the model follows, while a non-array
    argument would be used as an array, which the model does not follow (it
    returns `Null` with the error). */
module ArrayNatives {
  import opened Wrappers
  import opened Machine
  import opened Values
  import opened NativeArgs

  /** `n` nulls, none for a negative `n`. */
  function Nulls(n: int): (r: seq<Value>)
    ensures |r| == if n < 0 then 0 else n
    ensures forall k :: 0 <= k < |r| ==> r[k] == Null
  {
    if n <= 0 then [] else Nulls(n - 1) + [Null]
  }

  /** `insert(begin() + i, v)`. */
  function Inserted(s: seq<Value>, i: nat, v: Value): (r: seq<Value>)
    requires i <= |s|
    ensures |r| == |s| + 1 && r[i] == v
    ensures forall k :: 0 <= k < i ==> r[k] == s[k]
    ensures forall k :: i < k < |r| ==> r[k] == s[k - 1]
  {
    s[..i] + [v] + s[i..]
  }

  /** `erase(begin() + i)`. */
  function Erased(s: seq<Value>, i: nat): (r: seq<Value>)
    requires i < |s|
    ensures |r| == |s| - 1
    ensures forall k :: 0 <= k < i ==> r[k] == s[k]
    ensures forall k :: i <= k < |r| ==> r[k] == s[k + 1]
  {
    s[..i] + s[i + 1..]
  }

  /** Erasing what was just inserted gives the array back. */
  lemma EraseUndoesInsert(s: seq<Value>, i: nat, v: Value)
    requires i <= |s|
    ensures Erased(Inserted(s, i, v), i) == s
  {
    var t := Erased(Inserted(s, i, v), i);
    assert forall k :: 0 <= k < |s| ==> t[k] == s[k];
  }

  /** Inserting an erased element back where it was gives the array back. */
  lemma InsertUndoesErase(s: seq<Value>, i: nat)
    requires i < |s|
    ensures Inserted(Erased(s, i), i, s[i]) == s
  {
    var t := Inserted(Erased(s, i), i, s[i]);
    assert forall k :: 0 <= k < |s| ==> t[k] == s[k];
  }

  /** The object a native's first argument names, when it is an object. */
  function Target(args: seq<Value>): set<object>
  {
    if |args| >= 1 && args[0].Object? then {args[0].obj} else {}
  }

  predicate IsArrayArg(args: seq<Value>)
  {
    |args| >= 1 && IsObjectOfType(args[0], ObjArray)
  }

  /** `Array.Create(size)`: a new array of `size` nulls, pushed one at a
      time. */
  method Create(args: seq<Value>) returns (r: Value, err: Option<NativeError>)
    ensures |args| != 1 ==> r == Null && err == CheckArgCount(args, 1)
    ensures |args| == 1 ==>
      r.Object? && fresh(r.obj) && r.obj.Type == ObjArray
      && r.obj.Values == Nulls(GetInteger(args, 0).0) && err == GetInteger(args, 0).1
  {
    err := CheckArgCount(args, 1);
    if err.Some? {
      return Null, err;
    }
    var arr := new Obj.Array([]);
    var (length, e) := GetInteger(args, 0);
    err := e;
    var i := 0;
    while i < length
      invariant 0 <= i <= if length < 0 then 0 else length
      invariant arr.Values == Nulls(i)
    {
      arr.Values := arr.Values + [Null];
      i := i + 1;
    }
    r := Object(arr);
  }

  /** `Array.Length(array)`: the element count, as an `int`. */
  method Length(args: seq<Value>) returns (r: Value, err: Option<NativeError>)
    ensures |args| != 1 ==> r == Null && err == CheckArgCount(args, 1)
    ensures |args| == 1 && !IsArrayArg(args) ==> r == Null && err == Some(GetArray(args, 0).error)
    ensures |args| == 1 && IsArrayArg(args) ==>
      err.None? && r == Integer(WrapInt32(|args[0].obj.Values|))
      && (|args[0].obj.Values| < TWO_TO_31 ==> r.i == |args[0].obj.Values|)
  {
    err := CheckArgCount(args, 1);
    if err.Some? {
      return Null, err;
    }
    var arr := GetArray(args, 0);
    if arr.Err? {
      return Null, Some(arr.error);
    }
    r := Integer(WrapInt32(|arr.value.Values|));
  }

  /** `Array.Push(array, value)`: appends. */
  method Push(args: seq<Value>) returns (r: Value, err: Option<NativeError>)
    modifies Target(args)
    ensures r == Null
    ensures |args| != 2 ==> err == CheckArgCount(args, 2)
    ensures |args| == 2 && !IsArrayArg(args) ==> err == Some(GetArray(args, 0).error)
    ensures |args| == 2 && IsArrayArg(args) ==>
      err.None? && args[0].obj.Values == old(args[0].obj.Values) + [args[1]]
    ensures !(|args| == 2 && IsArrayArg(args)) ==> unchanged(Target(args))
  {
    r := Null;
    err := CheckArgCount(args, 2);
    if err.Some? {
      return;
    }
    var arr := GetArray(args, 0);
    if arr.Err? {
      return r, Some(arr.error);
    }
    arr.value.Values := arr.value.Values + [args[1]];
  }

  /** `Array.Pop(array)`: removes the last element and returns it. */
  method Pop(args: seq<Value>) returns (r: Value, err: Option<NativeError>)
    requires |args| == 1 && IsArrayArg(args) ==> |args[0].obj.Values| > 0
    modifies Target(args)
    ensures |args| != 1 ==> r == Null && err == CheckArgCount(args, 1)
    ensures |args| == 1 && !IsArrayArg(args) ==> r == Null && err == Some(GetArray(args, 0).error)
    ensures |args| == 1 && IsArrayArg(args) ==>
      err.None? && old(args[0].obj.Values) == args[0].obj.Values + [r]
    ensures !(|args| == 1 && IsArrayArg(args)) ==> unchanged(Target(args))
  {
    err := CheckArgCount(args, 1);
    if err.Some? {
      return Null, err;
    }
    var arr := GetArray(args, 0);
    if arr.Err? {
      return Null, Some(arr.error);
    }
    var values := arr.value.Values;
    r := values[|values| - 1];
    arr.value.Values := values[..|values| - 1];
  }

  /** `Array.Insert(array, index, value)`: the value goes in at `index`,
      the elements from there on move up by one. */
  method Insert(args: seq<Value>) returns (r: Value, err: Option<NativeError>)
    requires |args| == 3 && IsArrayArg(args) ==> 0 <= GetInteger(args, 1).0 <= |args[0].obj.Values|
    modifies Target(args)
    ensures r == Null
    ensures |args| != 3 ==> err == CheckArgCount(args, 3)
    ensures |args| == 3 && !IsArrayArg(args) ==> err == Some(GetArray(args, 0).error)
    ensures |args| == 3 && IsArrayArg(args) ==>
      err == GetInteger(args, 1).1
      && args[0].obj.Values == Inserted(old(args[0].obj.Values), old(GetInteger(args, 1).0), args[2])
    ensures !(|args| == 3 && IsArrayArg(args)) ==> unchanged(Target(args))
  {
    r := Null;
    err := CheckArgCount(args, 3);
    if err.Some? {
      return;
    }
    var arr := GetArray(args, 0);
    if arr.Err? {
      return r, Some(arr.error);
    }
    var (index, e) := GetInteger(args, 1);
    err := e;
    arr.value.Values := Inserted(arr.value.Values, index, args[2]);
  }

  /** `Array.Erase(array, index)`: the element at `index` goes, the ones
      after it move down by one. */
  method Erase(args: seq<Value>) returns (r: Value, err: Option<NativeError>)
    requires |args| == 2 && IsArrayArg(args) ==> 0 <= GetInteger(args, 1).0 < |args[0].obj.Values|
    modifies Target(args)
    ensures r == Null
    ensures |args| != 2 ==> err == CheckArgCount(args, 2)
    ensures |args| == 2 && !IsArrayArg(args) ==> err == Some(GetArray(args, 0).error)
    ensures |args| == 2 && IsArrayArg(args) ==>
      err == GetInteger(args, 1).1
      && args[0].obj.Values == Erased(old(args[0].obj.Values), old(GetInteger(args, 1).0))
    ensures !(|args| == 2 && IsArrayArg(args)) ==> unchanged(Target(args))
  {
    r := Null;
    err := CheckArgCount(args, 2);
    if err.Some? {
      return;
    }
    var arr := GetArray(args, 0);
    if arr.Err? {
      return r, Some(arr.error);
    }
    var (index, e) := GetInteger(args, 1);
    err := e;
    arr.value.Values := Erased(arr.value.Values, index);
  }

  /** `Array.Clear(array)`: no elements are left. */
  method Clear(args: seq<Value>) returns (r: Value, err: Option<NativeError>)
    modifies Target(args)
    ensures r == Null
    ensures |args| != 1 ==> err == CheckArgCount(args, 1)
    ensures |args| == 1 && !IsArrayArg(args) ==> err == Some(GetArray(args, 0).error)
    ensures |args| == 1 && IsArrayArg(args) ==> err.None? && args[0].obj.Values == []
    ensures !(|args| == 1 && IsArrayArg(args)) ==> unchanged(Target(args))
  {
    r := Null;
    err := CheckArgCount(args, 1);
    if err.Some? {
      return;
    }
    var arr := GetArray(args, 0);
    if arr.Err? {
      return r, Some(arr.error);
    }
    arr.value.Values := [];
  }
}
