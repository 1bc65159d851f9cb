/** The static state of `BytecodeObjectManager` (with the three
    `GarbageCollector` statics it touches) as one object: the global,
    source, string and token tables, the eight VM threads, the function
    lists, and the operations that update them — `Init`, the collection
    gate, the two global filters, `FreeValue`, registration of natives and
    constants, and `RunFromIBC`. */
module ObjectManager {
  import opened Wrappers
  import opened Machine
  import opened Floats
  import opened Values
  import opened Ibc
  import opened Loader

  /** `VMThread Threads[8]`. */
  const THREAD_SLOTS: nat := 8
  /** The collection threshold `Init` sets: 1 MiB. */
  const INITIAL_NEXT_GC: nat := 0x10_0000
  const SIZE_T_LIMIT: nat := 0x1_0000_0000_0000_0000

  /** A 64-bit `size_t`: subtraction wraps around. */
  type size_t = x: int | 0 <= x < SIZE_T_LIMIT

  /** The part of a `VMThread` that `Init` writes. A stack top is a
      pointer: `None` is NULL and `Some(k)` is `k` slots above the base of
      its own stack. */
  datatype Thread = Thread(
    ID: nat,
    StackTop: Option<nat>,
    WithReceiverStackTop: Option<nat>,
    WithIteratorStackTop: Option<nat>,
    FrameCount: nat)

  /** A thread slot after `memset(Threads, 0x00, sizeof(Threads))`. */
  const ZeroedThread := Thread(0, None, None, None, 0)

  /** A thread slot ready to run: its own index, all three stacks empty. */
  function ReadyThread(i: nat): Thread
  {
    Thread(i, Some(0), Some(0), Some(0), 0)
  }

  /** `sizeof` of each object header `FreeValue` subtracts; they depend on
      the target, so they are parameters of the model. */
  datatype HeaderSizes = HeaderSizes(
    BoundMethod: nat, Instance: nat, String: nat, Array: nat, Map: nat)

  /** A loaded script function: its chunk, and the object file it came
      from (`SourceFilename`). */
  datatype LoadedFunction = LoadedFunction(Chunk: Function, SourceFilename: seq<byte>)

  /** How `RunFromIBC` ends: the buffer is refused (with nothing loaded),
      it holds no chunk to run, or chunk 0 is run on thread 0. */
  datatype LoadOutcome = Rejected(error: LoadError) | NoEntry | Ran(entry: LoadedFunction)

  /** One step of `FreeValue`, in the order the source takes them. Every
      step releases a part of the freed object itself: there is no step
      that releases a value the object refers to. */
  datatype Release =
    | FreeChars
    | DeleteFieldTable
    | ClearValueVector
    | DeleteValueVector
    | FreeKeyString(hash: uint32)
    | ClearKeyTable
    | DeleteKeyTable
    | ClearValueTable
    | DeleteValueTable
    | FreeObject

  /** Class, function and native objects: the globals that survive a
      script reload. */
  predicate Globalable(v: Value)
  {
    v.Object? && v.obj.Type in {ObjClass, ObjFunction, ObjNative}
  }

  /** The entry `RemoveGlobalableValue` drops. */
  predicate RemovedAsGlobalable(hash: uint32, v: Value)
  {
    hash != 0 && Globalable(v)
  }

  /** The entry `RemoveNonGlobalableValue` drops. */
  predicate RemovedAsNonGlobalable(hash: uint32, v: Value)
  {
    hash != 0 && v.Object? && !Globalable(v)
  }

  /** The globals left once `RemoveNonGlobalableValue` has visited every
      entry whose key is in `visited`. */
  function WithoutNonGlobalables(g: map<uint32, Value>, visited: set<uint32>): map<uint32, Value>
  {
    map h | h in g && !(h in visited && RemovedAsNonGlobalable(h, g[h])) :: g[h]
  }

  /** The two filters are complements over object values with a non-zero
      hash; both keep every other entry. */
  lemma FiltersAreComplements(g: map<uint32, Value>)
    ensures forall h :: h in g && h != 0 && g[h].Object? ==>
      RemovedAsGlobalable(h, g[h]) != RemovedAsNonGlobalable(h, g[h])
    ensures forall h :: h in g && (h == 0 || !g[h].Object?) ==>
      !RemovedAsGlobalable(h, g[h]) && !RemovedAsNonGlobalable(h, g[h])
    ensures WithoutNonGlobalables(g, g.Keys).Keys ==
      (set h | h in g && !RemovedAsNonGlobalable(h, g[h]))
  {
  }

  /** A whole sweep of `RemoveNonGlobalableValue` keeps exactly the
      entries that are not objects, have hash 0, or are class, function or
      native objects, each with its value. */
  lemma {:induction false} SweepKeepsGlobalables(g: map<uint32, Value>, h: uint32)
    ensures h in WithoutNonGlobalables(g, g.Keys) <==>
      h in g && (h == 0 || !g[h].Object? || Globalable(g[h]))
    ensures h in WithoutNonGlobalables(g, g.Keys) ==> WithoutNonGlobalables(g, g.Keys)[h] == g[h]
  {
  }

  /** `Tokens->Put(hash, string)` for each token in order: a later token
      whose hash is already present replaces the earlier one. */
  function PutTokens(table: map<uint32, seq<byte>>, tokens: seq<seq<byte>>, hash: seq<byte> -> uint32)
    : map<uint32, seq<byte>>
  {
    if tokens == [] then table
    else
      var last := tokens[|tokens| - 1];
      PutTokens(table, tokens[..|tokens| - 1], hash)[hash(last) := last]
  }

  /** After the token loop the table holds its old keys and the hash of
      every token, and no other key. */
  lemma {:induction false} PutTokensKeys(table: map<uint32, seq<byte>>, tokens: seq<seq<byte>>,
                                         hash: seq<byte> -> uint32)
    ensures PutTokens(table, tokens, hash).Keys == table.Keys + (set t | t in tokens :: hash(t))
  {
    if tokens != [] {
      var init := tokens[..|tokens| - 1];
      var last := tokens[|tokens| - 1];
      PutTokensKeys(table, init, hash);
      assert tokens == init + [last];
      assert (set t | t in tokens :: hash(t)) == (set t | t in init :: hash(t)) + {hash(last)};
    }
  }

  /** A token that no later token collides with is stored under its hash:
      on a collision the last token wins. */
  lemma {:induction false} PutTokensStores(table: map<uint32, seq<byte>>, tokens: seq<seq<byte>>,
                                           hash: seq<byte> -> uint32, i: nat)
    requires i < |tokens|
    requires forall j :: i < j < |tokens| ==> hash(tokens[j]) != hash(tokens[i])
    ensures hash(tokens[i]) in PutTokens(table, tokens, hash)
    ensures PutTokens(table, tokens, hash)[hash(tokens[i])] == tokens[i]
  {
    if i < |tokens| - 1 {
      var init := tokens[..|tokens| - 1];
      assert tokens[i] == init[i];
      forall j | i < j < |init| ensures hash(init[j]) != hash(init[i]) {
        assert init[j] == tokens[j];
      }
      PutTokensStores(table, init, hash, i);
    }
  }

  /** An old entry whose key no token hashes to is kept. */
  lemma {:induction false} PutTokensKeeps(table: map<uint32, seq<byte>>, tokens: seq<seq<byte>>,
                                          hash: seq<byte> -> uint32, k: uint32)
    requires k in table
    requires forall t :: t in tokens ==> hash(t) != k
    ensures k in PutTokens(table, tokens, hash)
    ensures PutTokens(table, tokens, hash)[k] == table[k]
  {
    if tokens != [] {
      var init := tokens[..|tokens| - 1];
      assert forall t :: t in init ==> t in tokens;
      PutTokensKeeps(table, init, hash, k);
      assert hash(tokens[|tokens| - 1]) != k;
    }
  }

  /** A chunk list as `RunFromIBC` stores it: every function records the
      object file being loaded. */
  function Named(chunks: seq<Function>, sourceFilename: seq<byte>): (r: seq<LoadedFunction>)
    ensures |r| == |chunks|
    ensures forall k :: 0 <= k < |r| ==> r[k].Chunk == chunks[k] && r[k].SourceFilename == sourceFilename
  {
    if chunks == [] then []
    else [LoadedFunction(chunks[0], sourceFilename)] + Named(chunks[1..], sourceFilename)
  }

  /** The objects `FreeValue` may change: the freed object itself. */
  function Owned(v: Value): set<object>
  {
    if v.Object? then {v.obj} else {}
  }

  /** The key hashes a sequence of release steps frees strings for. */
  function KeysFreed(steps: seq<Release>): set<uint32>
  {
    if steps == [] then {}
    else
      KeysFreed(steps[..|steps| - 1])
        + (if steps[|steps| - 1].FreeKeyString? then {steps[|steps| - 1].hash} else {})
  }

  class BytecodeObjectManager {
    var Globals: Option<map<uint32, Value>>
    var Sources: Option<map<uint32, seq<byte>>>
    var Strings: Option<map<uint32, Value>>
    var Tokens: Option<map<uint32, seq<byte>>>
    var TokensList: seq<seq<byte>>
    const Threads: array<Thread>
    var ThreadCount: nat
    var CurrentObjectName: seq<byte>
    var FunctionList: seq<LoadedFunction>
    var AllFunctionList: seq<LoadedFunction>
    /** `GarbageCollector::GarbageSize`, `NextGC` and `RootObject`. */
    var GarbageSize: size_t
    var NextGC: size_t
    var RootObject: Obj?
    /** How many times `GarbageCollector::Collect` has been called; what a
        collection does is not part of this model. */
    var Collections: nat
    const Sizes: HeaderSizes

    /** The state before `Init`: static storage, so every table pointer is
        NULL, the threads are zero, and `ThreadCount` has its initialiser. */
    constructor (sizes: HeaderSizes)
      ensures Threads.Length == THREAD_SLOTS && fresh(Threads)
      ensures Globals.None? && Sources.None? && Strings.None? && Tokens.None?
      ensures forall k :: 0 <= k < Threads.Length ==> Threads[k] == ZeroedThread
      ensures ThreadCount == 1 && FunctionList == [] && AllFunctionList == [] && TokensList == []
      ensures GarbageSize == 0 && NextGC == 0 && RootObject == null && Collections == 0
      ensures Sizes == sizes
    {
      Globals, Sources, Strings, Tokens := None, None, None, None;
      TokensList := [];
      Threads := new Thread[THREAD_SLOTS](_ => ZeroedThread);
      ThreadCount := 1;
      CurrentObjectName := [];
      FunctionList, AllFunctionList := [], [];
      GarbageSize, NextGC, RootObject, Collections := 0, 0, null, 0;
      Sizes := sizes;
    }

    /** `Init`: creates each table that does not exist yet, resets the
        collector, zeroes every thread and then gives each its index and
        empty stacks; one thread is running. */
    method Init()
      modifies this`Globals, this`Sources, this`Strings, this`Tokens
      modifies this`RootObject, this`NextGC, this`ThreadCount, Threads
      ensures old(Globals).Some? ==> Globals == old(Globals)
      ensures old(Globals).None? ==> Globals == Some(map[])
      ensures old(Sources).Some? ==> Sources == old(Sources)
      ensures old(Sources).None? ==> Sources == Some(map[])
      ensures old(Strings).Some? ==> Strings == old(Strings)
      ensures old(Strings).None? ==> Strings == Some(map[])
      ensures old(Tokens).Some? ==> Tokens == old(Tokens)
      ensures old(Tokens).None? ==> Tokens == Some(map[])
      ensures RootObject == null && NextGC == INITIAL_NEXT_GC
      ensures forall k :: 0 <= k < Threads.Length ==> Threads[k] == ReadyThread(k)
      ensures ThreadCount == 1
    {
      if Globals.None? {
        Globals := Some(map[]);
      }
      if Sources.None? {
        Sources := Some(map[]);
      }
      if Strings.None? {
        Strings := Some(map[]);
      }
      if Tokens.None? {
        Tokens := Some(map[]);
      }
      RootObject := null;
      NextGC := INITIAL_NEXT_GC;
      ResetThreads();
      ThreadCount := 1;
    }

    /** The thread part of `Init`: every slot is zeroed, then given its
        index and its three stack tops at their bases. */
    method ResetThreads()
      modifies Threads
      ensures forall k :: 0 <= k < Threads.Length ==> Threads[k] == ReadyThread(k)
    {
      forall k | 0 <= k < Threads.Length {
        Threads[k] := ZeroedThread;
      }
      var i := 0;
      while i < Threads.Length
        invariant 0 <= i <= Threads.Length
        invariant forall k :: 0 <= k < i ==> Threads[k] == ReadyThread(k)
        invariant forall k :: i <= k < Threads.Length ==> Threads[k] == ZeroedThread
      {
        Threads[i] := Threads[i].(ID := i, StackTop := Some(0),
          WithReceiverStackTop := Some(0), WithIteratorStackTop := Some(0));
        i := i + 1;
      }
    }

    /** `ForceGarbageCollection`: takes the lock (the model's lock is always
        free) and collects only when a single thread is running. */
    method ForceGarbageCollection()
      modifies this`Collections
      ensures ThreadCount > 1 ==> Collections == old(Collections)
      ensures ThreadCount <= 1 ==> Collections == old(Collections) + 1
    {
      var locked := true;
      if locked {
        if ThreadCount > 1 {
          return;
        }
        Collections := Collections + 1;
      }
    }

    /** `RequestGarbageCollection`: collects only once the garbage has grown
        past the threshold, and then only as `ForceGarbageCollection` does. */
    method RequestGarbageCollection()
      modifies this`Collections
      ensures Collections == old(Collections) + (if GarbageSize > NextGC && ThreadCount <= 1 then 1 else 0)
    {
      if GarbageSize > NextGC {
        ForceGarbageCollection();
      }
    }

    /** `RemoveGlobalableValue(hash, value)`. */
    method RemoveGlobalableValue(hash: uint32, value: Value)
      requires Globals.Some?
      modifies this`Globals
      ensures Globals.Some?
      ensures RemovedAsGlobalable(hash, value) ==> Globals.value == old(Globals.value) - {hash}
      ensures !RemovedAsGlobalable(hash, value) ==> Globals == old(Globals)
    {
      if value.Object? {
        match value.obj.Type {
          case ObjClass | ObjFunction | ObjNative =>
            if hash != 0 {
              Globals := Some(Globals.value - {hash});
            }
          case _ =>
        }
      }
    }

    /** `RemoveNonGlobalableValue(hash, value)`. */
    method RemoveNonGlobalableValue(hash: uint32, value: Value)
      requires Globals.Some?
      modifies this`Globals
      ensures Globals.Some?
      ensures RemovedAsNonGlobalable(hash, value) ==> Globals.value == old(Globals.value) - {hash}
      ensures !RemovedAsNonGlobalable(hash, value) ==> Globals == old(Globals)
    {
      if value.Object? {
        match value.obj.Type {
          case ObjClass | ObjFunction | ObjNative =>
          case _ =>
            if hash != 0 {
              Globals := Some(Globals.value - {hash});
            }
        }
      }
    }

    /** `Globals->ForAll(RemoveNonGlobalableValue)`, the first step of
        `Dispose`: every entry is visited once, in some order. */
    method SweepNonGlobalables()
      requires Globals.Some?
      modifies this`Globals
      ensures Globals == Some(WithoutNonGlobalables(old(Globals.value), old(Globals.value).Keys))
    {
      var g := Globals.value;
      var remaining := g.Keys;
      assert WithoutNonGlobalables(g, g.Keys - remaining) == g;
      while remaining != {}
        invariant remaining <= g.Keys
        invariant Globals == Some(WithoutNonGlobalables(g, g.Keys - remaining))
        decreases |remaining|
      {
        var h :| h in remaining;
        SweepStep(g, g.Keys - remaining, h);
        RemoveNonGlobalableValue(h, g[h]);
        assert g.Keys - (remaining - {h}) == (g.Keys - remaining) + {h};
        remaining := remaining - {h};
      }
      assert g.Keys - remaining == g.Keys;
    }

    /** The header size `FreeValue` subtracts for an object type. */
    function HeaderSize(t: ObjType): nat
      reads this
    {
      match t
      case ObjBoundMethod => Sizes.BoundMethod
      case ObjInstance => Sizes.Instance
      case ObjString => Sizes.String
      case ObjArray => Sizes.Array
      case ObjMap => Sizes.Map
      case _ => 0
    }

    /** `FreeValue`: releases a bound method, instance, string, array or
        map object and subtracts its header size (with `size_t`
        wrap-around, the header size of any other object type being 0);
        other values are left alone. An instance loses only
        its field table and an array only its element vector: the values
        they hold are not released. A map releases the string of every key
        once, then both tables. */
    method FreeValue(value: Value) returns (steps: seq<Release>)
      modifies this`GarbageSize, Owned(value)
      ensures !value.Object? ==> steps == [] && GarbageSize == old(GarbageSize)
      ensures value.Object? ==>
        GarbageSize == (old(GarbageSize) - HeaderSize(value.obj.Type)) % SIZE_T_LIMIT
      ensures value.Object? && value.obj.Type == ObjBoundMethod ==> steps == [FreeObject]
      ensures value.Object? && value.obj.Type == ObjInstance ==>
        steps == [DeleteFieldTable, FreeObject]
      ensures value.Object? && value.obj.Type == ObjString ==> steps == [FreeChars, FreeObject]
      ensures value.Object? && value.obj.Type == ObjArray ==>
        steps == [ClearValueVector, DeleteValueVector, FreeObject] && value.obj.Values == []
      ensures value.Object? && value.obj.Type == ObjMap ==>
        |steps| >= 5 && KeyReleases(steps[..|steps| - 5], old(value.obj.Keys).Keys)
        && steps[|steps| - 5..] == MAP_TABLE_STEPS
        && value.obj.Keys == map[] && value.obj.MapValues == map[]
      ensures value.Object? && value.obj.Type !in {ObjBoundMethod, ObjInstance, ObjString, ObjArray, ObjMap} ==>
        steps == []
    {
      steps := [];
      if !value.Object? {
        return;
      }
      var o := value.obj;
      match o.Type {
        case ObjBoundMethod =>
          steps := [FreeObject];
        case ObjInstance =>
          steps := [DeleteFieldTable, FreeObject];
        case ObjString =>
          steps := [FreeChars, FreeObject];
        case ObjArray =>
          o.Values := [];
          steps := [ClearValueVector, DeleteValueVector, FreeObject];
        case ObjMap =>
          steps := FreeMap(o);
        case _ =>
      }
      GarbageSize := (GarbageSize - HeaderSize(o.Type)) % SIZE_T_LIMIT;
    }

    /** The map case of `FreeValue`: every key string, then both tables. */
    method FreeMap(o: Obj) returns (steps: seq<Release>)
      modifies o`Keys, o`MapValues
      ensures |steps| >= 5 && KeyReleases(steps[..|steps| - 5], old(o.Keys).Keys)
      ensures steps[|steps| - 5..] == MAP_TABLE_STEPS
      ensures o.Keys == map[] && o.MapValues == map[]
    {
      var keySteps := FreeKeyStrings(o.Keys.Keys);
      o.Keys := map[];
      o.MapValues := map[];
      steps := keySteps + MAP_TABLE_STEPS;
      assert steps[..|steps| - 5] == keySteps;
    }

    /** `Globals->Put` when `klass` is NULL, else `klass->Methods->Put`. */
    method Put(klass: Obj?, hash: uint32, v: Value)
      requires klass == null ==> Globals.Some?
      modifies this`Globals, klass
      ensures klass == null ==> Globals == Some(old(Globals.value)[hash := v])
      ensures klass != null ==> klass.Methods == old(klass.Methods)[hash := v] && Globals == old(Globals)
      ensures KeepsOtherTables(klass)
    {
      if klass == null {
        Globals := Some(Globals.value[hash := v]);
      } else {
        klass.Methods := klass.Methods[hash := v];
      }
    }

    /** `DefineNative`: with a function, a class and a name, the class gets
        a new native object under that name; a missing one of the three
        changes nothing. A name is given by its hash, `None` for NULL; a
        function by its identifier, `None` for NULL. */
    method DefineNative(klass: Obj?, name: Option<uint32>, native: Option<nat>)
      modifies klass
      ensures KeepsOtherTables(klass)
      ensures native.None? || klass == null || name.None? ==>
        klass == null || klass.Methods == old(klass.Methods)
      ensures native.Some? && klass != null && name.Some? ==>
        name.value in klass.Methods
        && klass.Methods == old(klass.Methods)[name.value := klass.Methods[name.value]]
        && IsObjectOfType(klass.Methods[name.value], ObjNative)
        && fresh(klass.Methods[name.value].obj)
        && klass.Methods[name.value].obj.NativeFn == native.value
    {
      if native.None? {
        return;
      }
      if klass == null {
        return;
      }
      if name.None? {
        return;
      }
      var created := new Obj.Native(native.value);
      klass.Methods := klass.Methods[name.value := Object(created)];
    }

    /** `GlobalLinkInteger`: a named link to an engine `int`. */
    method GlobalLinkInteger(klass: Obj?, name: Option<uint32>, value: Cell<int32>)
      requires klass == null ==> Globals.Some?
      modifies this`Globals, klass
      ensures name.None? ==> Globals == old(Globals) && (klass == null || klass.Methods == old(klass.Methods))
      ensures name.Some? && klass == null ==> Globals == Some(old(Globals.value)[name.value := LinkedInteger(value)])
      ensures name.Some? && klass != null ==>
        klass.Methods == old(klass.Methods)[name.value := LinkedInteger(value)] && Globals == old(Globals)
      ensures KeepsOtherTables(klass)
    {
      if name.None? {
        return;
      }
      Put(klass, name.value, LinkedInteger(value));
    }

    /** `GlobalLinkDecimal`: a named link to an engine `float`. */
    method GlobalLinkDecimal(klass: Obj?, name: Option<uint32>, value: Cell<float>)
      requires klass == null ==> Globals.Some?
      modifies this`Globals, klass
      ensures name.None? ==> Globals == old(Globals) && (klass == null || klass.Methods == old(klass.Methods))
      ensures name.Some? && klass == null ==> Globals == Some(old(Globals.value)[name.value := LinkedDecimal(value)])
      ensures name.Some? && klass != null ==>
        klass.Methods == old(klass.Methods)[name.value := LinkedDecimal(value)] && Globals == old(Globals)
      ensures KeepsOtherTables(klass)
    {
      if name.None? {
        return;
      }
      Put(klass, name.value, LinkedDecimal(value));
    }

    /** `GlobalConstInteger`: a named integer constant. */
    method GlobalConstInteger(klass: Obj?, name: Option<uint32>, value: int32)
      requires klass == null ==> Globals.Some?
      modifies this`Globals, klass
      ensures name.None? ==> Globals == old(Globals) && (klass == null || klass.Methods == old(klass.Methods))
      ensures name.Some? && klass == null ==> Globals == Some(old(Globals.value)[name.value := Integer(value)])
      ensures name.Some? && klass != null ==>
        klass.Methods == old(klass.Methods)[name.value := Integer(value)] && Globals == old(Globals)
      ensures KeepsOtherTables(klass)
    {
      if name.None? {
        return;
      }
      Put(klass, name.value, Integer(value));
    }

    /** `GlobalConstDecimal`: a named decimal constant. */
    method GlobalConstDecimal(klass: Obj?, name: Option<uint32>, value: float)
      requires klass == null ==> Globals.Some?
      modifies this`Globals, klass
      ensures name.None? ==> Globals == old(Globals) && (klass == null || klass.Methods == old(klass.Methods))
      ensures name.Some? && klass == null ==> Globals == Some(old(Globals.value)[name.value := Decimal(value)])
      ensures name.Some? && klass != null ==>
        klass.Methods == old(klass.Methods)[name.value := Decimal(value)] && Globals == old(Globals)
      ensures KeepsOtherTables(klass)
    {
      if name.None? {
        return;
      }
      Put(klass, name.value, Decimal(value));
    }

    /** The token loop's stores: `Tokens->Put(hash, string)` and
        `TokensList.push_back(string)` for each token in order. */
    method RegisterTokens(tokens: seq<seq<byte>>, hash: seq<byte> -> uint32)
      requires Tokens.Some?
      modifies this`Tokens, this`TokensList
      ensures Tokens == Some(PutTokens(old(Tokens.value), tokens, hash))
      ensures TokensList == old(TokensList) + tokens
    {
      var t := 0;
      while t < |tokens|
        invariant 0 <= t <= |tokens|
        invariant Tokens == Some(PutTokens(old(Tokens.value), tokens[..t], hash))
        invariant TokensList == old(TokensList) + tokens[..t]
      {
        var token := tokens[t];
        assert tokens[..t + 1][..t] == tokens[..t];
        Tokens := Some(Tokens.value[hash(token) := token]);
        TokensList := TokensList + [token];
        t := t + 1;
      }
      assert tokens[..t] == tokens;
    }

    /** `RunFromIBC(head, size)`: clears `FunctionList`, then loads the
        buffer as `ParseIbc` reads it (the token table only when the
        line-number flag is set and the token table exists). On success the
        functions become `FunctionList`, the first of them is also appended
        to `AllFunctionList`, the tokens are stored, and chunk 0 is run. A
        refused buffer loads nothing. Token strings are hashed with
        `hash`. */
    method RunFromIBC(buf: seq<byte>, magic: seq<byte>, hash: seq<byte> -> uint32) returns (outcome: LoadOutcome)
      requires |magic| == 4
      modifies this`FunctionList, this`AllFunctionList, this`Tokens, this`TokensList
      ensures var r := ParseIbc(buf, magic, old(Tokens).Some?);
        if r.Err? then
          outcome == Rejected(r.error) && FunctionList == []
          && AllFunctionList == old(AllFunctionList)
          && Tokens == old(Tokens) && TokensList == old(TokensList)
        else
          FunctionList == Named(r.value.Functions, CurrentObjectName)
          && AllFunctionList == old(AllFunctionList) + FunctionList[..if FunctionList == [] then 0 else 1]
          && Tokens == (if old(Tokens).Some? then Some(PutTokens(old(Tokens).value, r.value.Tokens, hash)) else None)
          && TokensList == old(TokensList) + r.value.Tokens
          && outcome == (if FunctionList == [] then NoEntry else Ran(FunctionList[0]))
    {
      FunctionList := [];
      var image := ReadIbc(buf, magic, Tokens.Some?);
      if image.Err? {
        return Rejected(image.error);
      }
      if Tokens.Some? {
        RegisterTokens(image.value.Tokens, hash);
      }
      FunctionList := Named(image.value.Functions, CurrentObjectName);
      if FunctionList != [] {
        AllFunctionList := AllFunctionList + [FunctionList[0]];
        outcome := Ran(FunctionList[0]);
      } else {
        outcome := NoEntry;
      }
    }
  }

  /** A class object's tables other than its methods are as they were. */
  twostate predicate KeepsOtherTables(klass: Obj?)
    reads klass
  {
    klass != null ==>
      klass.Fields == old(klass.Fields) && klass.Values == old(klass.Values)
      && klass.Keys == old(klass.Keys) && klass.MapValues == old(klass.MapValues)
  }

  /** The table releases that end freeing a map, after its key strings. */
  const MAP_TABLE_STEPS := [ClearKeyTable, DeleteKeyTable, ClearValueTable, DeleteValueTable, FreeObject]

  /** `steps` frees the string of each key in `keys` exactly once, and
      nothing else. */
  predicate KeyReleases(steps: seq<Release>, keys: set<uint32>)
  {
    |steps| == |keys| && KeysFreed(steps) == keys
    && forall k :: 0 <= k < |steps| ==> steps[k].FreeKeyString?
  }

  /** `Keys->WithAll(free)`: one string release per key, in some order. */
  method FreeKeyStrings(keys: set<uint32>) returns (steps: seq<Release>)
    ensures KeyReleases(steps, keys)
  {
    steps := [];
    var remaining := keys;
    ghost var done: set<uint32> := {};
    while remaining != {}
      invariant done + remaining == keys && done !! remaining
      invariant |steps| == |done| && KeysFreed(steps) == done
      invariant forall k :: 0 <= k < |steps| ==> steps[k].FreeKeyString?
      decreases |remaining|
    {
      var h :| h in remaining;
      KeysFreedSnoc(steps, FreeKeyString(h));
      steps := steps + [FreeKeyString(h)];
      done := done + {h};
      remaining := remaining - {h};
    }
  }

  lemma KeysFreedSnoc(steps: seq<Release>, r: Release)
    ensures KeysFreed(steps + [r]) == KeysFreed(steps) + (if r.FreeKeyString? then {r.hash} else {})
  {
    assert (steps + [r])[..|steps|] == steps;
  }

  lemma SweepStep(g: map<uint32, Value>, visited: set<uint32>, h: uint32)
    requires h in g && h !in visited
    ensures RemovedAsNonGlobalable(h, g[h]) ==>
      WithoutNonGlobalables(g, visited + {h}) == WithoutNonGlobalables(g, visited) - {h}
    ensures !RemovedAsNonGlobalable(h, g[h]) ==>
      WithoutNonGlobalables(g, visited + {h}) == WithoutNonGlobalables(g, visited)
  {
  }
}
