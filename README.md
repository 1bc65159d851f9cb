# HatchGameEngine core in Dafny

A model of the integer and structural core of HatchGameEngine, a C++ 2D/3D game engine
with a bytecode scripting VM. Each source area is one module (one `.dfy` file):

- **Script values** (`values.dfy`, module `Values`). These are the VM's `VMValue`s: Null,
  Integer, Decimal, Object, and the two linked kinds, which point at engine-owned storage.
  Heap objects are a `class` with their mutable tables. Strict equality (`ValuesEqual`),
  loose equality (`ValuesSortaEqual`), `ValueFalsey`, `DelinkValue`, the two numeric casts
  and `Concatenate` are modelled. Decimals are IEEE 754 binary32 values, held as their
  fields (`floats.dfy`), and machine integers are in `machine.dfy`.
- **The object manager** (`objectmanager.dfy`). `BytecodeObjectManager`'s statics are one
  class. It covers `Init`, the garbage-collection gate, the two global filters,
  `FreeValue`, the registration of natives and constants, and `RunFromIBC`.
  - The compiled bytecode format (IBC) is a set of pure decoding functions (`ibc.dfy`),
    with an encoder and a round-trip theorem.
  - `RunFromIBC`'s reading loops (`loader.dfy`) are methods proved to read what those
    functions describe.
- **Script natives** (`stdlib_*.dfy`):
  - the argument checks and readers;
  - the `Array.*` natives;
  - resource-slot reuse;
  - the `Scene` tile-word natives, over the tile grid that `SceneLayer` allocates
    (`scenelayer.dfy`);
  - the `String.*` search, substring and case natives.
- **The software renderer**:
  - the colour arithmetic on `0x00RRGGBB` pixels (`colors.dfy`);
  - the grayscale filter (`grayscale.dfy`);
  - `DrawLine` (Bresenham) and `DrawRectangleStroke`, which return the pixels they plot,
    in order (`raster.dfy`).
- **The COLLADA model reader**. Its input is an XML tree given as a datatype.
  - `collada_text.dfy` has the in-place tokenizer and `atoi`.
  - `collada.dfy` has triangle and image parsing, id links and effect assignment.
  - `collada_convert.dfy` has `ProcessPrimitive` and `DoConversion` into an `IModel`
    (`imodel.dfy`).

Where the code does something its authors evidently did not intend, the model does two
things: it keeps the code as written, with a lemma showing the effect, and it proves the
intended property of a corrected definition (see "## Findings"). Where a plain
description of the engine and the code differ, the model follows the code. Three such
places:
- The string natives stop at the first NUL, because the text reaches the C library as a
  `char*`.
- `FloatStringToArray` ignores its text, so `ParseEffectColor` as written leaves every
  effect colour opaque white (`ParseEffectColorAsWritten`). `ParseEffectColor` is the
  corrected definition.
- `GetSprite`, `GetModel` and `GetVideo` admit an index equal to the list size.

## Model

| member | source | states |
|---|---|---|
| Values.ValuesEqualCases | source/Engine/Bytecode/BytecodeObjectManager.cpp:370-392 | strict equality: two unlinked values of different types are unequal; integer kinds compare as integers, decimal kinds as floats, objects by identity; Null equals Null and every linked value (a linked operand skips the type check) and nothing else |
| Values.ValuesEqualReflexive | source/Engine/Bytecode/BytecodeObjectManager.cpp:370-392 | every value is strictly equal to itself except a NaN decimal |
| Values.ValuesEqualSymmetric | source/Engine/Bytecode/BytecodeObjectManager.cpp:370-392 | strict equality is symmetric between unlinked values and between values of the same numeric kind |
| Values.ValueFalseyIsEqualToZero | source/Engine/Bytecode/BytecodeObjectManager.cpp:393-404 | Null is falsey, an object never is, and a number is falsey exactly when it is strictly equal to the zero of its kind |
| Values.DelinkValue | source/Engine/Bytecode/BytecodeObjectManager.cpp:406-413 | the result is never linked; an unlinked value is returned unchanged; a linked integer or decimal becomes the plain value its cell holds |
| Values.DelinkIdempotent | source/Engine/Bytecode/BytecodeObjectManager.cpp:406-413 | delinking twice is delinking once |
| Values.DelinkPreservesMeaning | source/Engine/Bytecode/BytecodeObjectManager.cpp:370-413 | delinking changes neither strict equality between numbers of one kind nor falsiness |
| Values.CastValueAsInteger | source/Engine/Bytecode/BytecodeObjectManager.cpp:301-317 | the result is Null or a plain integer; Null exactly for non-numbers; an integer is delinked and kept; a decimal, plain or linked, is truncated toward zero by the C `(int)` conversion |
| Values.CastValueAsDecimal | source/Engine/Bytecode/BytecodeObjectManager.cpp:318-334 | the result is Null or a plain decimal; Null exactly for non-numbers; a decimal is delinked and kept; an integer is widened with the float conversion |
| Values.CastRoundTrip | source/Engine/Bytecode/BytecodeObjectManager.cpp:301-334 | casting to integer after casting to decimal gives back any integer of magnitude below 2^24 |
| Values.CastsIdempotent | source/Engine/Bytecode/BytecodeObjectManager.cpp:301-334 | each cast applied twice equals the cast applied once |
| Values.ValuesSortaEqualCases | source/Engine/Bytecode/BytecodeObjectManager.cpp:348-369 | loose equality: integer against decimal compares the widened integer; two strings compare length and characters; two bound methods compare receiver strictly and method; everything else falls back to strict equality |
| Values.StrictImpliesLoose | source/Engine/Bytecode/BytecodeObjectManager.cpp:348-392 | strictly equal values are loosely equal, unless a bound method's receiver is not equal to itself |
| Values.StringsLooselyEqual | source/Engine/Bytecode/BytecodeObjectManager.cpp:348-392 | two distinct string objects with the same characters are loosely but not strictly equal |
| Values.IntegerLooselyEqualsWidening | source/Engine/Bytecode/BytecodeObjectManager.cpp:348-354 | an integer is loosely equal to its own decimal cast |
| Values.Concatenate | source/Engine/Bytecode/BytecodeObjectManager.cpp:335-346 | a fresh string object whose characters are the first operand's followed by the second's |
| ObjectManager.FiltersAreComplements | source/Engine/Bytecode/BytecodeObjectManager.cpp:177-205 | over object values with a non-zero hash exactly one of the two global filters drops the entry; both keep hash 0 and every non-object; a whole non-globalable sweep keeps exactly the entries that filter does not drop |
| ObjectManager.SweepKeepsGlobalables | source/Engine/Bytecode/BytecodeObjectManager.cpp:126-130 | after the non-globalable sweep an entry remains exactly when its hash is 0, its value is not an object, or it is a class, function or native, and it keeps its value |
| ObjectManager.SweepStep | source/Engine/Bytecode/BytecodeObjectManager.cpp:192-205 | visiting one more entry removes it from the swept table exactly when the filter drops it |
| ObjectManager.PutTokensKeys | source/Engine/Bytecode/BytecodeObjectManager.cpp:664-682 | after the token loop the token table's keys are its old keys plus the hash of every token |
| ObjectManager.PutTokensStores | source/Engine/Bytecode/BytecodeObjectManager.cpp:664-682 | a token that no later token collides with is stored under its own hash (on a collision the last token wins) |
| ObjectManager.PutTokensKeeps | source/Engine/Bytecode/BytecodeObjectManager.cpp:664-682 | an old entry whose key no token hashes to keeps its value |
| ObjectManager.Named | source/Engine/Bytecode/BytecodeObjectManager.cpp:614-621 | every loaded function keeps its chunk, in order, and records the object file being loaded as its source file name |
| ObjectManager.BytecodeObjectManager.constructor | source/Engine/Bytecode/BytecodeObjectManager.cpp:46-61 | the static state before `Init`: every table NULL, every thread zeroed, one thread counted, no functions, no garbage |
| ObjectManager.BytecodeObjectManager.Init | source/Engine/Bytecode/BytecodeObjectManager.cpp:102-125 | each table that exists is kept and each missing one is created empty; no root object; the next collection at 1 MiB; every thread has its own index and empty stacks; one thread running |
| ObjectManager.BytecodeObjectManager.ResetThreads | source/Engine/Bytecode/BytecodeObjectManager.cpp:117-123 | every one of the eight threads ends with its own index and its three stack tops at their bases |
| ObjectManager.BytecodeObjectManager.ForceGarbageCollection | source/Engine/Bytecode/BytecodeObjectManager.cpp:84-95 | a collection happens exactly when no more than one thread is running |
| ObjectManager.BytecodeObjectManager.RequestGarbageCollection | source/Engine/Bytecode/BytecodeObjectManager.cpp:71-83 | a collection happens exactly when the garbage size exceeds the threshold and no more than one thread is running |
| ObjectManager.BytecodeObjectManager.RemoveGlobalableValue | source/Engine/Bytecode/BytecodeObjectManager.cpp:177-191 | the globals lose the hash exactly when it is non-zero and the value is a class, function or native object; otherwise they are unchanged |
| ObjectManager.BytecodeObjectManager.RemoveNonGlobalableValue | source/Engine/Bytecode/BytecodeObjectManager.cpp:192-205 | the globals lose the hash exactly when it is non-zero and the value is any other object; otherwise they are unchanged |
| ObjectManager.BytecodeObjectManager.SweepNonGlobalables | source/Engine/Bytecode/BytecodeObjectManager.cpp:127-130 | visiting every global with the non-globalable filter leaves the filtered table, whatever the visiting order |
| ObjectManager.BytecodeObjectManager.FreeValue | source/Engine/Bytecode/BytecodeObjectManager.cpp:415-480 | non-objects are untouched; an object's header size is subtracted with size_t wrap-around; bound methods free the object; instances their field table; strings their characters; arrays clear and free their vector; maps free each key string once and then both tables; no value an object refers to is released |
| ObjectManager.BytecodeObjectManager.FreeMap | source/Engine/Bytecode/BytecodeObjectManager.cpp:459-475 | each key string is released exactly once, then both tables are cleared and deleted and the object freed |
| ObjectManager.FreeKeyStrings | source/Engine/Bytecode/BytecodeObjectManager.cpp:462-464 | exactly one string release per key, and nothing else |
| ObjectManager.KeysFreedSnoc | source/Engine/Bytecode/BytecodeObjectManager.cpp:462-464 | appending one release adds its key, if it has one, to the set of freed keys |
| ObjectManager.BytecodeObjectManager.Put | source/Engine/Bytecode/BytecodeObjectManager.cpp:505-538 | with no class the value is stored in the globals; with a class it is stored in the class's methods, and the rest of the class and the globals are unchanged |
| ObjectManager.BytecodeObjectManager.DefineNative | source/Engine/Bytecode/BytecodeObjectManager.cpp:498-504 | a missing function, class or name changes nothing; otherwise the class's methods gain a fresh native object with that function under the name, and no other entry changes; the class's fields, values and map tables are left as they were |
| ObjectManager.BytecodeObjectManager.GlobalLinkInteger | source/Engine/Bytecode/BytecodeObjectManager.cpp:505-514 | a missing name changes nothing; otherwise a linked integer to the engine variable is stored under the name, in the class if one is given and in the globals if not; the class's fields, values and map tables are left as they were |
| ObjectManager.BytecodeObjectManager.GlobalLinkDecimal | source/Engine/Bytecode/BytecodeObjectManager.cpp:515-524 | the same for a linked decimal; the class's fields, values and map tables are left as they were |
| ObjectManager.BytecodeObjectManager.GlobalConstInteger | source/Engine/Bytecode/BytecodeObjectManager.cpp:525-531 | the same for a plain integer constant; the class's fields, values and map tables are left as they were |
| ObjectManager.BytecodeObjectManager.GlobalConstDecimal | source/Engine/Bytecode/BytecodeObjectManager.cpp:532-539 | the same for a plain decimal constant; the class's fields, values and map tables are left as they were |
| ObjectManager.BytecodeObjectManager.RegisterTokens | source/Engine/Bytecode/BytecodeObjectManager.cpp:664-682 | the token table receives every token in order, and the token list grows by exactly the tokens |
| ObjectManager.BytecodeObjectManager.RunFromIBC | source/Engine/Bytecode/BytecodeObjectManager.cpp:588-685 | the function list is cleared; a refused buffer loads nothing and reports why; otherwise the list holds the decoded chunks named after the current object, the first is appended to the all-functions list and run, and the tokens are stored only when the token table exists |
| Machine.WrapInt32 | source/Engine/Bytecode/BytecodeObjectManager.cpp:610-612 | the 32-bit wrap of an integer differs from it by a multiple of 2^32 |
| Machine.AsUint32 | source/Engine/Bytecode/BytecodeObjectManager.cpp:612 | an int reinterpreted as Uint32 is itself, or itself plus 2^32 when negative |
| Machine.UInt32Bytes | source/Engine/Bytecode/BytecodeObjectManager.cpp:612 | four bytes whose little-endian reading is the given Uint32 |
| Machine.Int32Bytes | source/Engine/Bytecode/BytecodeObjectManager.cpp:608-611 | four bytes whose little-endian reading as an int is the given int |
| Floats.EqualProperties | source/Engine/Bytecode/BytecodeObjectManager.cpp:353 | C float equality is symmetric and transitive, holds for a value and itself exactly when it is not NaN, and never relates a zero to a non-zero |
| Floats.FromBits | source/Engine/Bytecode/BytecodeObjectManager.cpp:640 | the float read from a bit pattern has that bit pattern |
| Floats.FromToBits | source/Engine/Bytecode/BytecodeObjectManager.cpp:640 | a float's bit pattern read back as a float is that float |
| Floats.IntToFloat | source/Engine/Bytecode/BytecodeObjectManager.cpp:325-328 | the conversion (float)a is zero exactly for 0, negative exactly for negative a, and never NaN |
| Floats.FloatToInt | source/Engine/Bytecode/BytecodeObjectManager.cpp:304-307 | the conversion (int)a maps both zeros to 0 |
| Floats.ExactFloatToInt | source/Engine/Bytecode/BytecodeObjectManager.cpp:304-307 | truncating an exactly representable magnitude gives that signed magnitude back |
| Floats.IntFloatRoundTrip | source/Engine/Bytecode/BytecodeObjectManager.cpp:301-334 | (int)(float)i == i for every i of magnitude below 2^24 |
| Ibc.ReadInt | source/Engine/Bytecode/BytecodeObjectManager.cpp:608 | reading an int consumes exactly four bytes |
| Ibc.ReadUInt | source/Engine/Bytecode/BytecodeObjectManager.cpp:612 | reading a Uint32 consumes exactly four bytes |
| Ibc.ScanEnd | source/Engine/Bytecode/BytecodeObjectManager.cpp:645-646 | the string scan passes at least one byte, at most 4092, and never beyond the buffer |
| Ibc.ReadString | source/Engine/Bytecode/BytecodeObjectManager.cpp:645-650 | a string constant is shorter than 4092 bytes, and the scan consumes the string and one more byte |
| Ibc.ScanEndCapped | source/Engine/Bytecode/BytecodeObjectManager.cpp:646 | with no NUL before the cap the scan stops after exactly 4092 bytes |
| Ibc.LongStringTruncated | source/Engine/Bytecode/BytecodeObjectManager.cpp:645-650 | a string with no NUL in its first 4091 bytes comes back cut to 4091 bytes, and reading resumes after byte 4092 |
| Ibc.ParseConstant | source/Engine/Bytecode/BytecodeObjectManager.cpp:633-656 | one pool entry yields at most one constant (an unknown tag yields none) and consumes at least its tag byte |
| Ibc.ParseConstants | source/Engine/Bytecode/BytecodeObjectManager.cpp:631-657 | a pool of n entries yields at most n constants |
| Ibc.ParseLines | source/Engine/Bytecode/BytecodeObjectManager.cpp:626-629 | n line numbers consume exactly 4n bytes |
| Ibc.ParseLinesRest | source/Engine/Bytecode/BytecodeObjectManager.cpp:626-629 | after n line numbers reading resumes at byte 4n |
| Ibc.ParseChunkTail | source/Engine/Bytecode/BytecodeObjectManager.cpp:626-657 | the line table and constant pool after a chunk's code consume at least one byte |
| Ibc.ParseChunk | source/Engine/Bytecode/BytecodeObjectManager.cpp:610-657 | one chunk consumes at least one byte |
| Ibc.ParseChunks | source/Engine/Bytecode/BytecodeObjectManager.cpp:608-662 | a chunk count n yields exactly n functions, and a negative count yields none |
| Ibc.ParseTokens | source/Engine/Bytecode/BytecodeObjectManager.cpp:665-681 | a token count n yields exactly n strings |
| Ibc.ParseIbc | source/Engine/Bytecode/BytecodeObjectManager.cpp:588-682 | a buffer whose first four bytes differ from the magic is refused as such; an accepted buffer starts with the magic, its line-number flag is the sixth byte alone, and it has tokens only when that flag is set and the token table exists |
| Ibc.ReadIntOf | source/Engine/Bytecode/BytecodeObjectManager.cpp:608 | reading back the four bytes of an int gives that int and the following bytes |
| Ibc.ReadUIntOf | source/Engine/Bytecode/BytecodeObjectManager.cpp:612 | reading back the four bytes of a Uint32 gives it and the following bytes |
| Ibc.ScanEndOf | source/Engine/Bytecode/BytecodeObjectManager.cpp:645-646 | the scan over a stored string stops just after its NUL |
| Ibc.ReadStringOf | source/Engine/Bytecode/BytecodeObjectManager.cpp:645-650 | a NUL-free string shorter than 4092 bytes, stored with its NUL, reads back unchanged |
| Ibc.ParseConstantOf | source/Engine/Bytecode/BytecodeObjectManager.cpp:633-656 | every constant, stored with its tag, reads back unchanged |
| Ibc.ParseConstantsOf | source/Engine/Bytecode/BytecodeObjectManager.cpp:631-657 | a stored constant pool reads back unchanged |
| Ibc.ParseLinesOf | source/Engine/Bytecode/BytecodeObjectManager.cpp:626-629 | a stored line table reads back unchanged |
| Ibc.ParseChunkOf | source/Engine/Bytecode/BytecodeObjectManager.cpp:610-657 | a stored chunk reads back unchanged |
| Ibc.ParseChunkParts | source/Engine/Bytecode/BytecodeObjectManager.cpp:610-624 | a chunk is its header, its code and its tail read in that order |
| Ibc.ParseChunkTailOf | source/Engine/Bytecode/BytecodeObjectManager.cpp:626-657 | a stored chunk tail reads back unchanged |
| Ibc.ParseChunksStep | source/Engine/Bytecode/BytecodeObjectManager.cpp:609-662 | n + 1 chunks are the first chunk followed by n more |
| Ibc.ParseChunksOf | source/Engine/Bytecode/BytecodeObjectManager.cpp:608-662 | a stored list of chunks reads back unchanged |
| Ibc.ParseTokensOf | source/Engine/Bytecode/BytecodeObjectManager.cpp:665-681 | a stored list of token strings reads back unchanged |
| Ibc.TokenTableOf | source/Engine/Bytecode/BytecodeObjectManager.cpp:664-682 | a stored token table reads back exactly when line numbers are on |
| Ibc.RoundTrip | source/Engine/Bytecode/BytecodeObjectManager.cpp:588-682 | reading the buffer laid out for an image gives that image back |
| Ibc.LoadsIntegerConstant | source/Engine/Bytecode/BytecodeObjectManager.cpp:635-638 | a one-function buffer whose pool holds the integer 42 loads with that constant |
| Loader.ScanString | source/Engine/Bytecode/BytecodeObjectManager.cpp:645-646 | the byte-by-byte scan stops where the string-scan function says |
| Loader.ReadConstant | source/Engine/Bytecode/BytecodeObjectManager.cpp:633-656 | reading one pool entry in place agrees with ParseConstant and moves forward |
| Loader.ReadConstants | source/Engine/Bytecode/BytecodeObjectManager.cpp:631-657 | the constant loop agrees with ParseConstants |
| Loader.ReadChunkTail | source/Engine/Bytecode/BytecodeObjectManager.cpp:626-657 | reading a chunk's tail in place agrees with ParseChunkTail |
| Loader.ReadPool | source/Engine/Bytecode/BytecodeObjectManager.cpp:631-657 | reading the pool count and pool agrees with the functional reading |
| Loader.TailAfterLines | source/Engine/Bytecode/BytecodeObjectManager.cpp:626-631 | a chunk's tail is its line table followed by its pool |
| Loader.ReadChunk | source/Engine/Bytecode/BytecodeObjectManager.cpp:610-657 | reading one chunk in place agrees with ParseChunk and moves forward |
| Loader.ReadChunks | source/Engine/Bytecode/BytecodeObjectManager.cpp:608-662 | the chunk loop agrees with ParseChunks |
| Loader.ReadTokens | source/Engine/Bytecode/BytecodeObjectManager.cpp:665-681 | the token loop agrees with ParseTokens |
| Loader.ConstantsNext | source/Engine/Bytecode/BytecodeObjectManager.cpp:632 | one turn of the constant loop moves its entries from the parse to come to the entries read |
| Loader.ChunksNext | source/Engine/Bytecode/BytecodeObjectManager.cpp:609 | one turn of the chunk loop does the same for chunks |
| Loader.TokensNext | source/Engine/Bytecode/BytecodeObjectManager.cpp:666 | one turn of the token loop does the same for tokens |
| Loader.ReadIbc | source/Engine/Bytecode/BytecodeObjectManager.cpp:588-682 | the reading part of RunFromIBC gives exactly ParseIbc's result |
| NativeArgs.CheckArgCount | source/Engine/Bytecode/StandardLibrary.cpp:42-46 | no error exactly when the argument count is the expected one; otherwise the error names both counts |
| NativeArgs.CheckAtLeastArgCount | source/Engine/Bytecode/StandardLibrary.cpp:47-51 | no error exactly when there are at least the expected number of arguments; otherwise the error names both counts |
| NativeArgs.FirstError | source/Engine/Bytecode/StandardLibrary.cpp:42-86 | when a native reads several arguments, it reports the first error raised, and no error only when none was raised |
| NativeArgs.GetInteger | source/Engine/Bytecode/StandardLibrary.cpp:57-69 | an integer argument, plain or linked, is read without error; any other type is an error naming the 1-based position and reads as 0 |
| NativeArgs.GetDecimal | source/Engine/Bytecode/StandardLibrary.cpp:70-86 | a decimal is read as it is, an integer is widened with the decimal cast, and any other type is an error that reads as 0.0 |
| NativeArgs.GetDecimalAsInteger | source/Engine/Bytecode/StandardLibrary.cpp:2380-2381 | a decimal argument truncated to int raises GetDecimal's error, and gives back any integer argument of magnitude below 2^24 |
| NativeArgs.SmallIntegerSurvives | source/Engine/Bytecode/StandardLibrary.cpp:2380-2381 | an integer of magnitude below 2^24 survives widening and truncation |
| NativeArgs.GetString | source/Engine/Bytecode/StandardLibrary.cpp:88-100 | a string argument yields its characters; any other value is an error naming its position |
| NativeArgs.GetArray | source/Engine/Bytecode/StandardLibrary.cpp:101-115 | an array object is returned as it is; any other value is an error naming its position |
| NativeArgs.ListCheckAsWrittenAdmitsSize | source/Engine/Bytecode/StandardLibrary.cpp:147-156 | the written bounds check passes an index equal to the list size, which is not an index of the list |
| NativeArgs.ListCheckExact | source/Engine/Bytecode/StandardLibrary.cpp:147-176 | the intended check passes exactly the indexes of the list, and the written one passes those and the size too |
| NativeArgs.GetListEntry | source/Engine/Bytecode/StandardLibrary.cpp:147-176 | the lookup succeeds exactly for an integer argument that indexes the list, and then yields that entry (which may be an empty slot) |
| ArrayNatives.Nulls | source/Engine/Bytecode/StandardLibrary.cpp:236-238 | n nulls, and none for a negative n |
| ArrayNatives.Inserted | source/Engine/Bytecode/StandardLibrary.cpp:313 | one element longer, the value at the index, the elements before it unmoved and the ones after it moved up by one |
| ArrayNatives.Erased | source/Engine/Bytecode/StandardLibrary.cpp:331 | one element shorter, the elements before the index unmoved and the ones after it moved down by one |
| ArrayNatives.EraseUndoesInsert | source/Engine/Bytecode/StandardLibrary.cpp:307-335 | erasing at the index just inserted at gives the array back |
| ArrayNatives.InsertUndoesErase | source/Engine/Bytecode/StandardLibrary.cpp:307-335 | inserting an erased element back at its index gives the array back |
| ArrayNatives.Create | source/Engine/Bytecode/StandardLibrary.cpp:230-244 | a wrong argument count is an error; otherwise a fresh array holding as many nulls as the integer argument says (none when negative or not an integer, which is also reported) |
| ArrayNatives.Length | source/Engine/Bytecode/StandardLibrary.cpp:252-262 | the element count as an int (wrapped to 32 bits, equal to the count below 2^31), or the argument-count or type error |
| ArrayNatives.Push | source/Engine/Bytecode/StandardLibrary.cpp:270-279 | the array gains the value at its end; on an error nothing changes |
| ArrayNatives.Pop | source/Engine/Bytecode/StandardLibrary.cpp:287-298 | the array loses its last element, which is returned; on an error nothing changes |
| ArrayNatives.Insert | source/Engine/Bytecode/StandardLibrary.cpp:307-317 | the array becomes the old one with the value inserted at the index; on a count or type error nothing changes |
| ArrayNatives.Erase | source/Engine/Bytecode/StandardLibrary.cpp:325-335 | the array becomes the old one with the element at the index erased; on a count or type error nothing changes |
| ArrayNatives.Clear | source/Engine/Bytecode/StandardLibrary.cpp:342-351 | the array is left empty; on an error nothing changes |
| Resources.FirstMatch | source/Engine/Bytecode/StandardLibrary.cpp:1976-1988 | the first occupied entry whose file-name hash matches: it matches, none before it does, and no answer means no entry matches |
| Resources.FirstEmpty | source/Engine/Bytecode/StandardLibrary.cpp:1977-1982 | the first empty entry: it is empty, none before it is, and no answer means none is empty |
| Resources.Slot | source/Engine/Bytecode/StandardLibrary.cpp:1973-1990 | the slot a load ends in is an index of the list or the index just past it |
| Resources.GetResourceListSpace | source/Engine/Bytecode/StandardLibrary.cpp:1973-1990 | reports a match exactly when an occupied entry has the hash, with the index of the first such entry; otherwise reports whether an empty entry exists and gives the first empty index, or the list size |
| Resources.FirstMatchIs | source/Engine/Bytecode/StandardLibrary.cpp:1984-1987 | a matching entry with no match before it is the first match |
| Resources.NoMatch | source/Engine/Bytecode/StandardLibrary.cpp:1989 | a list with no matching entry has no first match |
| Resources.FirstEmptyIs | source/Engine/Bytecode/StandardLibrary.cpp:1977-1981 | an empty entry with no empty entry before it is the first empty entry |
| Resources.NoEmpty | source/Engine/Bytecode/StandardLibrary.cpp:1975 | a list with no empty entry has no first empty entry |
| Resources.PlacedHoldsHash | source/Engine/Bytecode/StandardLibrary.cpp:2006-2008 | after a load the reported slot holds the file's resource, every other entry is as it was, and the list grew by at most one |
| Resources.LoadingTwiceReusesSlot | source/Engine/Bytecode/StandardLibrary.cpp:1991-2012 | loading the same file again finds the slot the first load used and leaves the list unchanged |
| Resources.LoadSprite | source/Engine/Bytecode/StandardLibrary.cpp:1991-2012 | argument-count and file-name errors change nothing; otherwise the result is the file's slot; a file already listed keeps its entry, a new one is placed in the first empty slot or appended, holds a fresh sprite for the file and the given unload policy |
| Resources.ResourceType.constructor | source/Engine/Bytecode/StandardLibrary.cpp:1995-1997 | a new entry with the given file-name hash and unload policy and no sprite yet |
| TileNatives.IdOf | source/Engine/Bytecode/StandardLibrary.cpp:2385 | a tile's id is a number below 2^24 |
| TileNatives.FlagOf | source/Engine/Bytecode/StandardLibrary.cpp:2395 | a flip flag reads as 0 or 1 |
| TileNatives.TileWordReadsBack | source/Engine/Bytecode/StandardLibrary.cpp:2407-2445 | with collision values confined to the collision bits, the packed word reads back the low 24 bits of the id and exactly the flips given |
| TileNatives.WordBits | source/Engine/Bytecode/StandardLibrary.cpp:2429-2438 | the packed word's id bits are the id's, and each flip bit is set exactly when that flip was given |
| TileNatives.IdOfMasked | source/Engine/Bytecode/StandardLibrary.cpp:2385 | the id read depends on the id bits alone |
| TileNatives.DefaultCollisionsConfined | source/Engine/Bytecode/StandardLibrary.cpp:2304-2305 | the default collision values are disjoint from each other and from the id and flip bits |
| TileNatives.SidesReadBack | source/Engine/Bytecode/StandardLibrary.cpp:2446-2465 | setting sides from 0 to 3 keeps the id and both flips, and the sides read back from bits 28-29 and 26-27 |
| TileNatives.SideBits | source/Engine/Bytecode/StandardLibrary.cpp:2451-2460 | the word after the sides are set keeps the id and flip bits, and holds the sides at bits 28-29 and 26-27 |
| TileNatives.LastSidesWin | source/Engine/Bytecode/StandardLibrary.cpp:2446-2465 | setting the sides twice is setting them once, to the second values |
| TileNatives.ScriptSidesReadBack | source/Engine/Bytecode/StandardLibrary.cpp:2446-2465 | sides passed by a script as the integers 0 to 3 read back from the tile as those integers, the id and flips are kept, and a later call overrides them |
| TileNatives.SmallBits | source/Engine/Bytecode/StandardLibrary.cpp:2451-2452 | a side from 0 to 3 has as its 32 bits that value, with no bit set above its lowest two |
| TileNatives.TileIndex | source/Engine/Bytecode/StandardLibrary.cpp:2385 | the entry x + y * Width of a layer's grid lies in its tile array when the position is in bounds |
| TileNatives.GetTile | source/Engine/Bytecode/StandardLibrary.cpp:2377-2406 | a wrong argument count gives Null and the error; otherwise the result is Null exactly when the layer or position is out of bounds, and else the tile's id or flip bit; argument errors are reported in order |
| TileNatives.ReadTileWrite | source/Engine/Bytecode/StandardLibrary.cpp:2412-2425 | seven arguments use the seventh for both collision values; any count but seven and eight uses the two full collision masks |
| TileNatives.SetTile | source/Engine/Bytecode/StandardLibrary.cpp:2407-2445 | fewer than six arguments is an error and changes nothing; out of bounds changes nothing; otherwise exactly the addressed tile becomes the packed word, its batch (layer, x / 8, y / 8) is queued, and the scene is marked changed |
| TileNatives.SetTileCollisionSides | source/Engine/Bytecode/StandardLibrary.cpp:2446-2465 | a wrong count is an error; out of bounds changes nothing; otherwise exactly the addressed tile keeps its flips and id and takes the shifted sides, and the scene is marked changed |
| TileNatives.TileScene.constructor | source/Engine/Bytecode/StandardLibrary.cpp:2440-2442 | a scene with the given layers, no tile change and no queued batch updates |
| SceneLayers.SceneLayer.Empty | source/Engine/Scene/SceneLayer.cpp:7-54 | the default constructor leaves every field at its declared default, with no grid |
| SceneLayers.SceneLayer.constructor | source/Engine/Scene/SceneLayer.cpp:55-64 | a w by h grid of zero tiles and a separate zero backup of the same size, sixteen deform entries and sixteen zero scroll indexes per row, every other field at its declared default |
| SceneLayers.SceneLayer.Dispose | source/Engine/Scene/SceneLayer.cpp:65-77 | the freed buffers are exactly: the scroll-info buffer if it exists, then the split-index buffer if it exists, then the tile, backup, deform and scroll-index buffers in that order; so each buffer is freed at most once |
| SceneLayers.ZeroWords | source/Engine/Scene/SceneLayer.cpp:58-59 | a fresh zero-filled buffer of the requested number of tile words |
| SceneLayers.TileIndexInGrid | source/Engine/Scene/SceneLayer.cpp:55-59 | the entry x + y * w of an in-bounds position lies inside a w * h grid |
| StringNatives.CText | source/Engine/Bytecode/StandardLibrary.cpp:2819 | the text a native sees is the longest NUL-free prefix of the string's characters, stopped by a NUL when shorter |
| StringNatives.FindFrom | source/Engine/Bytecode/StandardLibrary.cpp:2802 | -1 exactly when the substring occurs nowhere from the start position on; otherwise a position where it occurs, with no earlier one |
| StringNatives.FindLast | source/Engine/Bytecode/StandardLibrary.cpp:2862-2881 | -1 or a position where the substring occurs, with no later one |
| StringNatives.FindLastBelow | source/Engine/Bytecode/StandardLibrary.cpp:2872-2877 | the downward scan from a start position finds the highest occurrence at or below it, or -1 when there is none |
| StringNatives.EmptyNeedle | source/Engine/Bytecode/StandardLibrary.cpp:2798-2881 | the empty substring is found first at 0 and last at the end of the text |
| StringNatives.FirstNotAfterLast | source/Engine/Bytecode/StandardLibrary.cpp:2798-2881 | the first search finds the substring exactly when the last search does, and never at a later position |
| StringNatives.IndexOf | source/Engine/Bytecode/StandardLibrary.cpp:2798-2806 | argument-count and type errors give Null; otherwise the first position of the substring in the text, or -1 |
| StringNatives.LastIndexOf | source/Engine/Bytecode/StandardLibrary.cpp:2862-2881 | argument-count and type errors give Null; otherwise the last position of the substring in the text, or -1 (also when it is longer than the text) |
| StringNatives.SubstringOf | source/Engine/Bytecode/StandardLibrary.cpp:2819-2825 | the copied characters start at the index; their length is the one given, or the rest of the text when the length is -1 or runs past the end |
| StringNatives.SubstringsJoin | source/Engine/Bytecode/StandardLibrary.cpp:2813-2829 | a cut from 0 with length -1 is the whole text, and the text before a cut, the cut and the rest after it join back into the text |
| StringNatives.Substring | source/Engine/Bytecode/StandardLibrary.cpp:2813-2829 | argument-count and string errors give Null; otherwise a fresh string holding the clamped cut, with any integer-argument error reported |
| StringNatives.Upper | source/Engine/Bytecode/StandardLibrary.cpp:2837-2840 | the same length, each ASCII lower-case letter made upper-case, everything else unchanged |
| StringNatives.Lower | source/Engine/Bytecode/StandardLibrary.cpp:2853-2856 | the same length, each ASCII upper-case letter made lower-case, everything else unchanged |
| StringNatives.CaseChanges | source/Engine/Bytecode/StandardLibrary.cpp:2830-2861 | re-casing is idempotent, each case change is overridden by the other, and non-letters are never changed |
| StringNatives.ChangeCase | source/Engine/Bytecode/StandardLibrary.cpp:2830-2861 | argument errors give Null; otherwise a fresh string holding the re-cased text |
| Colors.Rgb | source/Engine/Rendering/Software/SoftwareRenderer.cpp:1060 | packing three channels leaves the top byte clear, and each channel reads back |
| Colors.RgbOfChannels | source/Engine/Rendering/Software/SoftwareRenderer.cpp:1048-1060 | packing a colour's own three channels gives its low 24 bits |
| Colors.ChannelsOfLow24 | source/Engine/Rendering/Software/SoftwareRenderer.cpp:1048-1050 | a colour's channels are those of its low 24 bits |
| Colors.Scaled | source/Engine/Rendering/Software/SoftwareRenderer.cpp:1052-1054 | a channel scaled by percent and shifted right by 8, in Uint32 arithmetic, is below 2^24 |
| Colors.ScaledZero | source/Engine/Rendering/Software/SoftwareRenderer.cpp:1052-1054 | scaling by percent 0 gives 0 |
| Colors.ScaledFull | source/Engine/Rendering/Software/SoftwareRenderer.cpp:1052-1054 | scaling by percent 256 gives the low 24 bits back |
| Colors.AddChannel | source/Engine/Rendering/Software/SoftwareRenderer.cpp:1052-1058 | the channel never decreases; it is the sum when that fits in a byte and 0xFF otherwise |
| Colors.ColorAdd | source/Engine/Rendering/Software/SoftwareRenderer.cpp:1047-1061 | the channels do not interfere: each channel of the result is that channel of the first colour plus the scaled channel of the second, capped at 0xFF (so never darker), and the top byte is clear |
| Colors.ColorAddZero | source/Engine/Rendering/Software/SoftwareRenderer.cpp:1047-1061 | at percent 0 the result is the first colour without its top byte |
| Colors.ColorAddFull | source/Engine/Rendering/Software/SoftwareRenderer.cpp:1047-1061 | at percent 256 each channel is min(0xFF, c1 + c2) |
| Colors.AddChannelFull | source/Engine/Rendering/Software/SoftwareRenderer.cpp:1052-1058 | one channel at percent 256 is the saturating sum |
| Colors.ColorBlend | source/Engine/Rendering/Software/SoftwareRenderer.cpp:1062-1068 | the top byte of the result is clear (the inline blend at :67-73 is the same computation) |
| Colors.BlendLaneZero | source/Engine/Rendering/Software/SoftwareRenderer.cpp:1065-1066 | a lane blended at percent 0 is unchanged |
| Colors.ColorBlendZero | source/Engine/Rendering/Software/SoftwareRenderer.cpp:1062-1068 | at percent 0 the blend is the first colour without its top byte |
| Colors.BlendLaneFull | source/Engine/Rendering/Software/SoftwareRenderer.cpp:1065-1066 | a lane blended at percent 256 lands on the other lane |
| Colors.ColorBlendFull | source/Engine/Rendering/Software/SoftwareRenderer.cpp:1062-1068 | at percent 256 the blend is the second colour without its top byte |
| Colors.BlendLaneSelf | source/Engine/Rendering/Software/SoftwareRenderer.cpp:1065-1066 | a lane blended with itself is unchanged at any percent |
| Colors.ColorBlendSelf | source/Engine/Rendering/Software/SoftwareRenderer.cpp:1062-1068 | a colour blended with itself is that colour without its top byte, at any percent |
| Colors.OrLow | source/Engine/Rendering/Software/SoftwareRenderer.cpp:81 | OR-ing bits below a power of two into a multiple of it adds them |
| Colors.OrOfLanes | source/Engine/Rendering/Software/SoftwareRenderer.cpp:81 | OR-ing three channel lanes in place packs the colour |
| Colors.SubtractLaneAsWritten | source/Engine/Rendering/Software/SoftwareRenderer.cpp:75-80 | one lane of the inline subtraction as written: the difference when it is not negative, else 0, not masked back to its lane |
| Colors.SubtractChannel | source/Engine/Rendering/Software/SoftwareRenderer.cpp:74-82 | one channel of the intended subtraction never increases: the difference when the amount fits, else 0 |
| Colors.ColorSubtract | source/Engine/Rendering/Software/SoftwareRenderer.cpp:74-82 | the intended subtraction: each channel is that channel of the first colour less the scaled channel of the second, stopping at 0 (so never brighter), independently of the other channels, and the top byte is clear |
| Colors.FullRedLanes | source/Engine/Rendering/Software/SoftwareRenderer.cpp:75-77 | the masked lanes of full red are the red lane and two empty lanes |
| Colors.FullRedLaneDifference | source/Engine/Rendering/Software/SoftwareRenderer.cpp:75 | full red less 255/256 of itself leaves 0xFF00, which lies in the green lane |
| Colors.ColorSubtractAsWrittenSpills | source/Engine/Rendering/Software/SoftwareRenderer.cpp:74-82 | as written, taking full red at percent 255 from full red gives pure bright green |
| Colors.ColorSubtractLeavesRed | source/Engine/Rendering/Software/SoftwareRenderer.cpp:74-82 | the intended subtraction of the same colours at percent 255 leaves red at 1 and nothing else |
| Colors.SubtractLaneAtFull | source/Engine/Rendering/Software/SoftwareRenderer.cpp:75-80 | at percent 256 one lane as written is the clamped channel difference in its place |
| Colors.ColorSubtractAsWrittenAgreesAtFull | source/Engine/Rendering/Software/SoftwareRenderer.cpp:74-82 | at percent 256 the subtraction as written and the intended one agree |
| Colors.ColorSubtractAsWrittenZero | source/Engine/Rendering/Software/SoftwareRenderer.cpp:74-82 | at percent 0 the subtraction as written gives the first colour without its top byte |
| Colors.ColorSubtractZero | source/Engine/Rendering/Software/SoftwareRenderer.cpp:74-82 | at percent 0 the intended subtraction gives the first colour without its top byte |
| Colors.ColorSubtractSelfFull | source/Engine/Rendering/Software/SoftwareRenderer.cpp:74-82 | at percent 256 a colour taken from itself is black |
| Grayscale.FilterGrayscaleWith | source/Engine/Rendering/Software/SoftwareRenderer.cpp:87-94 | the result is a grey below 2^24: all three channels equal the low byte of the sum of the table entries of the pixel's channels |
| Grayscale.FilterGrayscaleAsWrittenIsBlack | source/Engine/Rendering/Software/SoftwareRenderer.cpp:49-94 | with the table left zero (its filling loop at :1319-1320 is commented out), every pixel filters to black |
| Grayscale.FilterGrayscaleAverages | source/Engine/Rendering/Software/SoftwareRenderer.cpp:87-94 | with the table of thirds the grey level is red/3 + green/3 + blue/3, with no wrap-around |
| Grayscale.FilterGrayscaleKeepsGrey | source/Engine/Rendering/Software/SoftwareRenderer.cpp:87-94 | a grey pixel of level v keeps level v - v mod 3 |
| Grayscale.FilterGrayscaleKeepsWhite | source/Engine/Rendering/Software/SoftwareRenderer.cpp:87-94 | white filters to white |
| Raster.DrawLine | source/Engine/Rendering/Software/SoftwareRenderer.cpp:255-268 | the pixels handed to SetPixel: one per step of the major axis plus one, from (x0, y0) to (x1, y1), each touching the next and each within half a pixel of the ideal segment inside the bounding box |
| Raster.OnSegmentDistance | source/Engine/Rendering/Software/SoftwareRenderer.cpp:256-258 | a plotted pixel's scaled distance from the ideal segment along the minor axis is at most half the major axis length |
| Raster.LineStep | source/Engine/Rendering/Software/SoftwareRenderer.cpp:263-266 | one loop turn short of the end keeps the error term in its band, steps the major axis, and steps no axis past its end |
| Raster.LineStarts | source/Engine/Rendering/Software/SoftwareRenderer.cpp:256-258 | the starting error term, half the major length truncated toward zero, puts the loop in its invariant state |
| Raster.LineTurn | source/Engine/Rendering/Software/SoftwareRenderer.cpp:260-266 | a turn that does not end the loop plots the current pixel and keeps the invariant, with at most one pixel per major step |
| Raster.LineEnds | source/Engine/Rendering/Software/SoftwareRenderer.cpp:261-262 | the turn at the end pixel plots it and leaves a complete line |
| Raster.NearSegment | source/Engine/Rendering/Software/SoftwareRenderer.cpp:258-266 | the error term places the current pixel on the segment within half a pixel |
| Raster.ProductIsMul | source/Engine/Rendering/Software/SoftwareRenderer.cpp:264-265 | the error term's repeated additions equal the product |
| Raster.Span | source/Engine/Rendering/Software/SoftwareRenderer.cpp:370-377 | the signed size covers exactly Abs(size) columns, starting at the origin for a positive size and ending one before it for a negative one |
| Raster.InRowPairs | source/Engine/Rendering/Software/SoftwareRenderer.cpp:379-382 | the row loop plots exactly the top and bottom pixels of the columns in its range |
| Raster.InColumnPairs | source/Engine/Rendering/Software/SoftwareRenderer.cpp:383-386 | the column loop plots exactly the left and right pixels of the rows in its range |
| Raster.DrawRectangleStroke | source/Engine/Rendering/Software/SoftwareRenderer.cpp:367-388 | the pixels handed to SetPixel are the rows loop's then the columns loop's, as Stroke lists them |
| Raster.StrokeIsBorder | source/Engine/Rendering/Software/SoftwareRenderer.cpp:367-388 | for non-zero sizes a pixel is plotted exactly when it lies on the border of the rectangle the signed size spans |
| Raster.StrokeOfZeroSize | source/Engine/Rendering/Software/SoftwareRenderer.cpp:367-388 | a zero height still plots rows y and y - 1, and a zero width columns x and x - 1 |
| ColladaText.CLength | source/Engine/ResourceTypes/ModelFormats/COLLADAReader.cpp:21 | strlen: the length is the index of the first NUL, or the whole text when it has none |
| ColladaText.CStr | source/Engine/ResourceTypes/ModelFormats/COLLADAReader.cpp:21 | the C string is the prefix of the buffer before its first NUL |
| ColladaText.WordsFromAreWords | source/Engine/ResourceTypes/ModelFormats/COLLADAReader.cpp:24-39 | every token is non-empty and holds no separator (NUL, space or newline) |
| ColladaText.WordsAreWords | source/Engine/ResourceTypes/ModelFormats/COLLADAReader.cpp:24-39 | every token of a text is non-empty and holds no separator |
| ColladaText.WordsFromTerminated | source/Engine/ResourceTypes/ModelFormats/COLLADAReader.cpp:24-28 | the terminating NUL the scan reaches at i == size adds no token |
| ColladaText.WordsFromWord | source/Engine/ResourceTypes/ModelFormats/COLLADAReader.cpp:24-39 | a token read so far followed by the rest of a token reads as the whole token |
| ColladaText.WordsOfJoin | source/Engine/ResourceTypes/ModelFormats/COLLADAReader.cpp:24-39 | tokenizing tokens joined by single spaces gives the tokens back |
| ColladaText.TokensFromWords | source/Engine/ResourceTypes/ModelFormats/COLLADAReader.cpp:24-39 | the scan by position and token start finds the tokens Words describes |
| ColladaText.ScanStarts | source/Engine/ResourceTypes/ModelFormats/COLLADAReader.cpp:21-24 | at i = 0, with the token starting at the buffer's start, nothing is found and all remains to find |
| ColladaText.ScanSeparator | source/Engine/ResourceTypes/ModelFormats/COLLADAReader.cpp:26-36 | at a separator the token read so far, when non-empty, is complete, and the next starts after it |
| ColladaText.ScanOther | source/Engine/ResourceTypes/ModelFormats/COLLADAReader.cpp:26-39 | any other character extends the token read so far |
| ColladaText.ScanEnds | source/Engine/ResourceTypes/ModelFormats/COLLADAReader.cpp:24-41 | once the scan passes the NUL, the tokens found are those of the C string |
| ColladaText.Tokenize | source/Engine/ResourceTypes/ModelFormats/COLLADAReader.cpp:45-67 | the shared scan loop: the tokens are those of the C string in the buffer, every separator up to the NUL becomes NUL, and the buffer after the NUL is unchanged |
| ColladaText.SkipSpaces | source/Engine/ResourceTypes/ModelFormats/COLLADAReader.cpp:57 | atoi's leading white space skip leaves a suffix that does not start with a space character |
| ColladaText.DigitRun | source/Engine/ResourceTypes/ModelFormats/COLLADAReader.cpp:57 | the longest run of digits at the front: a prefix of digits followed by a non-digit or the end |
| ColladaText.Digits | source/Engine/ResourceTypes/ModelFormats/COLLADAReader.cpp:57 | a number's decimal digits are a non-empty run of digits |
| ColladaText.DigitsValueOfDigits | source/Engine/ResourceTypes/ModelFormats/COLLADAReader.cpp:57 | the value of a number's decimal digits is the number |
| ColladaText.DigitRunOfDigits | source/Engine/ResourceTypes/ModelFormats/COLLADAReader.cpp:57 | a run made of digits alone is all read |
| ColladaText.AtoiOfDigits | source/Engine/ResourceTypes/ModelFormats/COLLADAReader.cpp:57 | atoi's digit run of a number's digits reads back the number |
| ColladaText.AtoiOfDecimal | source/Engine/ResourceTypes/ModelFormats/COLLADAReader.cpp:57 | atoi reads back any integer written in decimal with an optional minus sign (the model's integers are unbounded; see "## Left out") |
| ColladaText.DecimalIsWord | source/Engine/ResourceTypes/ModelFormats/COLLADAReader.cpp:57 | an integer written in decimal is one token |
| ColladaText.ParsedDecimals | source/Engine/ResourceTypes/ModelFormats/COLLADAReader.cpp:45-67 | integers written in decimal and joined by spaces are read back, in order, by the integer tokenizer |
| ColladaText.ParseIntegerArray | source/Engine/ResourceTypes/ModelFormats/COLLADAReader.cpp:45-67 | the tokens of the C string, read with atoi, are appended to the destination list in order, and the buffer is blanked up to its NUL |
| ColladaText.ParseFloatArray | source/Engine/ResourceTypes/ModelFormats/COLLADAReader.cpp:20-42 | the tokens of the C string, read with atof, are appended to the destination list in order, and the buffer is blanked up to its NUL |
| ColladaText.CopyText | source/Engine/ResourceTypes/ModelFormats/COLLADAReader.cpp:13-17 | the calloc'd copy of a token holds its text followed by a NUL |
| ColladaText.CLengthAppend | source/Engine/ResourceTypes/ModelFormats/COLLADAReader.cpp:21 | strlen of a concatenation stops in the first part when it holds a NUL |
| ColladaText.CopiedText | source/Engine/ResourceTypes/ModelFormats/COLLADAReader.cpp:13-17 | the copy holds a NUL and the same C string as the token's text |
| Collada.ColladaModel.constructor | source/Engine/ResourceTypes/ModelFormats/COLLADAReader.cpp:934 | a fresh document holds no meshes, materials, effects or images |
| Collada.ColladaModel.ParseImage | source/Engine/ResourceTypes/ModelFormats/COLLADAReader.cpp:321-363 | the image is appended, under the parent's id, with its path rewritten to the texture folder followed by the text after the path's last separator; an empty path or an empty file name appends nothing and leaves the images as they were |
| Collada.ColladaModel.AssignEffectsToMaterials | source/Engine/ResourceTypes/ModelFormats/COLLADAReader.cpp:549-564 | each material is linked to the first effect whose id is its effect link without the first character; a material with no such effect is left as it was; the number of materials is unchanged |
| Collada.IndexOf | source/Engine/ResourceTypes/ModelFormats/COLLADAReader.cpp:116-138 | the first position holding the name, none exactly when the name is absent |
| Collada.FindMeshSource | source/Engine/ResourceTypes/ModelFormats/COLLADAReader.cpp:116-126 | the first source whose id is the name, none exactly when no id matches |
| Collada.FindAccessorSource | source/Engine/ResourceTypes/ModelFormats/COLLADAReader.cpp:128-138 | the first float array whose id is the name, none exactly when no id matches |
| Collada.Linked | source/Engine/ResourceTypes/ModelFormats/COLLADAReader.cpp:554-561 | a material keeps its id, name and link, gets the first effect whose id matches the link less its first character, and stays as it was when none matches |
| Collada.FileName | source/Engine/ResourceTypes/ModelFormats/COLLADAReader.cpp:340-348 | the file name is the suffix after the last separator and holds no separator |
| Collada.FileNameAfter | source/Engine/ResourceTypes/ModelFormats/COLLADAReader.cpp:340-348 | the scan back from the end finds the file name after the last separator |
| Collada.FileNameOfPath | source/Engine/ResourceTypes/ModelFormats/COLLADAReader.cpp:337-362 | for a directory, a separator and a name without separators, the file name is that name |
| Collada.ReadInput | source/Engine/ResourceTypes/ModelFormats/COLLADAReader.cpp:223-259 | one input child: a VERTEX link to the mesh's vertices is expanded to their inputs when there are several, or replaced by the single one; any other input links to the first mesh source its source attribute names |
| Collada.ReadPrimitives | source/Engine/ResourceTypes/ModelFormats/COLLADAReader.cpp:263-274 | a p element's indices, read by the integer tokenizer, are appended to the primitives |
| Collada.ParseMeshTriangles | source/Engine/ResourceTypes/ModelFormats/COLLADAReader.cpp:214-276 | the triangles take the element's id and count; its inputs, in document order, are appended to the inputs and its p elements' indices to the primitives; the rest of the mesh is unchanged |
| Collada.InputsStep | source/Engine/ResourceTypes/ModelFormats/COLLADAReader.cpp:219-262 | one more child adds its input when it is an input element |
| Collada.PrimitivesStep | source/Engine/ResourceTypes/ModelFormats/COLLADAReader.cpp:219-275 | one more child adds its indices when it is a p element |
| Collada.InputsOfKinds | source/Engine/ResourceTypes/ModelFormats/COLLADAReader.cpp:235-252 | every triangles input is a VERTEX input expanded to two or more vertices inputs with no source, a copy of a vertices input, or an input with no children; there are no more inputs than children |
| Collada.PrimitivesOfIndices | source/Engine/ResourceTypes/ModelFormats/COLLADAReader.cpp:263-274 | a p element holding space-separated decimal indices gives those indices back |
| Collada.FloatsAsWritten | source/Engine/ResourceTypes/ModelFormats/COLLADAReader.cpp:69-87 | the slots the function leaves as written: always size of them |
| Collada.FloatsAsWrittenAreDefaults | source/Engine/ResourceTypes/ModelFormats/COLLADAReader.cpp:69-87 | as written, every slot holds the default whatever the text |
| Collada.FloatValuesOfWords | source/Engine/ResourceTypes/ModelFormats/COLLADAReader.cpp:69-87 | corrected, slot i holds the value of the i-th word of the text, and the default past the last word |
| Collada.FloatsAsWrittenLoseText | source/Engine/ResourceTypes/ModelFormats/COLLADAReader.cpp:69-87 | a text whose first value differs from the default is lost as written and read when corrected |
| Collada.FloatStringToArrayAsWritten | source/Engine/ResourceTypes/ModelFormats/COLLADAReader.cpp:69-87 | as written, the first size entries are the defaults and the rest of the array is unchanged |
| Collada.FloatStringToArray | source/Engine/ResourceTypes/ModelFormats/COLLADAReader.cpp:69-87 | corrected, the first size entries are the text's values then defaults, and the rest of the array is unchanged |
| Collada.ParseEffectColorAsWritten | source/Engine/ResourceTypes/ModelFormats/COLLADAReader.cpp:464-466 | as written, through the `FloatStringToArray` of :69-87: the four channels are 1.0 whatever the text says, and the rest of the array is untouched |
| Collada.ParseEffectColor | source/Engine/ResourceTypes/ModelFormats/COLLADAReader.cpp:464-466 | the corrected definition, through the corrected `FloatStringToArray`: the four channels are the text's values, 1.0 where the text gives none |
| ColladaConvert.PushAppends | source/Engine/ResourceTypes/ModelFormats/COLLADAReader.cpp:736 | a push appends the index to the live indices |
| ColladaConvert.Clear | source/Engine/ResourceTypes/ModelFormats/COLLADAReader.cpp:805-808 | clear leaves no live index and keeps the storage |
| ColladaConvert.CornersOf | source/Engine/ResourceTypes/ModelFormats/COLLADAReader.cpp:872-877 | a face reads slots 0 to 2, which are the first three live indices when three or more are live |
| ColladaConvert.Grown | source/Engine/ResourceTypes/ModelFormats/COLLADAReader.cpp:729-730 | resize keeps the existing entries and fills the growth with the default |
| ColladaConvert.PutWrites | source/Engine/ResourceTypes/ModelFormats/COLLADAReader.cpp:729-733 | after growing to fit, the value is written at the primitive's index and every other entry is kept or defaulted |
| ColladaConvert.ProcessPrimitive | source/Engine/ResourceTypes/ModelFormats/COLLADAReader.cpp:716-768 | the input's values at prim times stride are written at prim in the list of its semantic, grown first to the number of values, and prim is pushed on the matching index list; other meshes' lists are unchanged |
| ColladaConvert.OffsetIndex | source/Engine/ResourceTypes/ModelFormats/COLLADAReader.cpp:820-826 | the first input with the given offset, none exactly when no input has it |
| ColladaConvert.RouteByOffset | source/Engine/ResourceTypes/ModelFormats/COLLADAReader.cpp:819-828 | with one input every primitive goes to it; with several, to an input whose offset is the primitive's position modulo their number, none exactly when no input has that offset |
| ColladaConvert.MatchInput | source/Engine/ResourceTypes/ModelFormats/COLLADAReader.cpp:816-828 | the routing loop picks the input Route describes |
| ColladaConvert.StepCounted | source/Engine/ResourceTypes/ModelFormats/COLLADAReader.cpp:845-886 | a pass keeps the face count equal to the number of faces and fewer than three vertices waiting |
| ColladaConvert.FaceCountIsFaces | source/Engine/ResourceTypes/ModelFormats/COLLADAReader.cpp:813-887 | after any number of primitives the face count equals the number of faces pushed |
| ColladaConvert.PositionPushes | source/Engine/ResourceTypes/ModelFormats/COLLADAReader.cpp:727-736 | a POSITION input pushes the primitive on the vertex index list |
| ColladaConvert.SinglePositionStep | source/Engine/ResourceTypes/ModelFormats/COLLADAReader.cpp:848-886 | with a single POSITION input every primitive is a vertex, and the third makes a face from the live vertex indices |
| ColladaConvert.GroupedStep | source/Engine/ResourceTypes/ModelFormats/COLLADAReader.cpp:848-886 | one more primitive keeps the vertex indices grouped in threes into faces |
| ColladaConvert.SinglePositionRunStep | source/Engine/ResourceTypes/ModelFormats/COLLADAReader.cpp:813-887 | each primitive of a single POSITION input steps the conversion as a vertex |
| ColladaConvert.SinglePositionInputFaces | source/Engine/ResourceTypes/ModelFormats/COLLADAReader.cpp:813-887 | with a single POSITION input, face j joins the vertices of primitives 3j, 3j + 1 and 3j + 2 |
| ColladaConvert.ProcessSize | source/Engine/ResourceTypes/ModelFormats/COLLADAReader.cpp:716-768 | processing never shrinks a list, changes only the list of the input's semantic, and leaves that list non-empty |
| ColladaConvert.ProcessAllSize | source/Engine/ResourceTypes/ModelFormats/COLLADAReader.cpp:837-844 | the same for the children of an expanded VERTEX input |
| ColladaConvert.StepSize | source/Engine/ResourceTypes/ModelFormats/COLLADAReader.cpp:813-858 | a pass changes a list only through an input routed to it that writes it, and then leaves it non-empty |
| ColladaConvert.RunSize | source/Engine/ResourceTypes/ModelFormats/COLLADAReader.cpp:813-887 | the primitive at position k - 1 changes a list only when routed to an input that writes it |
| ColladaConvert.SizeIffTouched | source/Engine/ResourceTypes/ModelFormats/COLLADAReader.cpp:813-887 | after k primitives a list is non-empty exactly when one of them was routed to an input that writes it |
| ColladaConvert.BuildMaterial | source/Engine/ResourceTypes/ModelFormats/COLLADAReader.cpp:889-917 | the mesh's material: the default with no texture, or the effect's colours, scalars and diffuse image |
| ColladaConvert.MaterialWithoutEffect | source/Engine/ResourceTypes/ModelFormats/COLLADAReader.cpp:889-892 | a mesh without a material, or whose material has no effect, gets the default material and no texture |
| ColladaConvert.MaterialTexture | source/Engine/ResourceTypes/ModelFormats/COLLADAReader.cpp:912-914 | the material has a texture exactly when the effect's diffuse sampler reaches an image through its surface, and the texture is that image's path |
| ColladaConvert.ProcessChildren | source/Engine/ResourceTypes/ModelFormats/COLLADAReader.cpp:837-844 | the children of an expanded VERTEX input applied in order, as ProcessAll describes; other meshes are unchanged |
| ColladaConvert.GatherInput | source/Engine/ResourceTypes/ModelFormats/COLLADAReader.cpp:835-858 | the input step of the primitive loop, as Gather describes; other meshes are unchanged |
| ColladaConvert.EmitFace | source/Engine/ResourceTypes/ModelFormats/COLLADAReader.cpp:861-886 | the face step: a face from the four lists' first slots is pushed, the counters reset, the lists cleared and the face count incremented; other meshes are unchanged |
| ColladaConvert.ConvertPrimitive | source/Engine/ResourceTypes/ModelFormats/COLLADAReader.cpp:814-886 | one pass of the primitive loop, as Step describes; other meshes are unchanged |
| ColladaConvert.ConvertPrimitives | source/Engine/ResourceTypes/ModelFormats/COLLADAReader.cpp:790-887 | the mesh's faces, face count and lists are those of the whole run over its primitives; other meshes are unchanged |
| ColladaConvert.ConvertMesh | source/Engine/ResourceTypes/ModelFormats/COLLADAReader.cpp:787-918 | the mesh is converted as MeshConverted says, its material included; other meshes are unchanged |
| ColladaConvert.SizeModel | source/Engine/ResourceTypes/ModelFormats/COLLADAReader.cpp:773-784 | the mesh count is set and every list has one empty slot per mesh, every face count zero |
| ColladaConvert.DoConversion | source/Engine/ResourceTypes/ModelFormats/COLLADAReader.cpp:770-920 | the model has one slot per mesh in every list and each mesh converted with its material |
| ColladaConvert.ConvertedFaceCount | source/Engine/ResourceTypes/ModelFormats/COLLADAReader.cpp:861-886 | after conversion each mesh's face count is its number of faces |
| ColladaConvert.ConvertedTexture | source/Engine/ResourceTypes/IModel.cpp:56-62 | after conversion HasTextureInMesh holds exactly when the mesh's effect's diffuse sampler reaches an image |
| ColladaConvert.ConvertedLists | source/Engine/ResourceTypes/IModel.cpp:44-54 | after conversion HasColorsInMesh, HasTexturesInMesh and HasNormalsInMesh hold exactly when a primitive was routed to an input writing colours, texture coordinates or normals |
| IModels.IModel.constructor | source/Engine/ResourceTypes/IModel.cpp:27-29 | a model made without a file has every list empty |
| IModels.IModel.Load | source/Engine/ResourceTypes/IModel.cpp:31-42 | a model loaded from a file takes every list, the mesh count and the face counts of the converted model |

## Left out

- I/O, the clock, threads and the SDL mutex. `Lock` always succeeds and `Unlock` does nothing, so neither is modelled.
- `ThrowError`'s message formatting and logging. A fatal script error is a `NativeError` value that names the argument position and the expected type.
- `GarbageCollector::Collect`. `ForceGarbageCollection` and `RequestGarbageCollection` only count collections, because what a collection frees is not part of this model.
- `BytecodeObjectManager::Dispose` is modelled only as far as its first step, the sweep of non-globalable globals (`SweepNonGlobalables`). Its later steps free the function list and the four tables through `FreeGlobalValue` and `Memory::Free`. Those steps, and the reset of the four tables to NULL, are not modelled.
- `FreeGlobalValue`, `PrintHashTableValues`, `CastValueAsString` and `ResetStack`. These are memory release, logging, `sprintf` formatting and the thread's own stack code, which is not shown.
- `DefineMethod`, `SetCurrentObjectHash`, `SpawnFunction` and `GetSpawnFunction`. They act on the VM thread's stack and on entity objects, which are not part of this model. `LinkExtensions` is commented out in the source.
- `LinkStandardLibrary` and the natives not named in this model. Among the natives left out are `String.Split`, `CharAt`, `Length`, `Compare`, `Contains`, `ParseInteger` and `ParseDecimal`, plus the other resource loaders, which share `GetResourceListSpace` with `LoadSprite`.
- `RunFromIBC`: the bytecode execution that follows loading is represented only by the outcome `Ran(entry)` naming chunk 0. The code bytes are held as a value, so the source's aliasing of the buffer is not modelled.
- `RunFromIBC` and `Loader`: the model checks every read against the buffer length and reports the `Malformed` failure where the source would read past the end of its buffer. `RunFromIBC` therefore loads all or nothing.
- RunFromIBC: an image with no functions (a chunk count of 0 or less) gives the outcome `NoEntry`. The source calls `RunFunction(FunctionList[0], 0)` on the empty list anyway (BytecodeObjectManager.cpp:684), which is undefined behaviour, so the model does not follow it.
- Ibc.ParseChunk: a negative code count is rejected as `Malformed`. The source computes `head += count * 1` and `count * 4` (BytecodeObjectManager.cpp:623-627) and carries on with the read head moved backwards. The model does not follow that path.
- Ibc: the value-tag codes (Integer 0, Decimal 1, Object 2) come from the IBC format description. The header that defines them, Types.h, is not part of this model.
- Floats: decimal arithmetic is not modelled. The model has the binary32 fields, IEEE `==`, the bit pattern and the int↔float conversions (round-to-nearest-even one way, truncation the other way, with x86 behaviour out of range).
- Values.ValuesEqual: when exactly one side is linked, the source compares raw union bits across kinds. The model answers false there, except that Null equals any linked value, as the code defines.
- Values.Concatenate: requires two strings. Its callers in the VM, which are not part of this model, guarantee that.
- ArrayNatives.Pop: requires a non-empty array, because the source pops without checking.
- ArrayNatives.Insert: requires an index from 0 to the length, because the source inserts without checking.
- ArrayNatives.Erase: requires an index of an element, because the source erases without checking.
- ArrayNatives: after a failed array argument the source goes on to use the value as an array. The model returns Null together with the error instead.
- StringNatives.Substring: requires an index within the text and a length of -1 or more, because the source reads without checking.
- NativeArgs.GetString and NativeArgs.GetArray: after the type error the source goes on to read the value anyway. The model stops at the error.
- NativeArgs.GetListEntry: after the bounds error the source goes on to index the list. The model stops at the error.
- SceneLayers.SceneLayer.constructor: requires that `w * h` and `h * 16` fit in an `int`, because the source multiplies in `int`. The scroll-info tables' entries are not modelled.
- Colours: the inline `ColorAdd` (SoftwareRenderer.cpp:58-66) is not modelled. It adds masked channels in place, so low bits can spill into the next channel in the same way as the inline `ColorSubtract`. Only the static `ColorAdd`, which is channel-exact, is modelled.
- ColladaText.Atoi: the model's `atoi` returns an unbounded integer. C's `atoi` returns a 32-bit `int` and is undefined out of that range, so the 32-bit width is not modelled.
- ColladaText.AtoiOfDecimal: the read-back is stated for every integer. It holds in the source only for integers within the 32-bit `int` range.
- ColladaText.ParsedDecimals: the same. The read-back holds in the source only for integers within the 32-bit `int` range.
- Collada.PrimitivesOfIndices: the same. The indices read back only when each is within the 32-bit `int` range.
- Raster: `SetPixel`, whose body is commented out, is not modelled. The drawing methods return the pixels they would hand it. Coordinates are unbounded, so `int` overflow of far-apart endpoints is not modelled.
- COLLADA: the XML parser is foreign, so the tree is a datatype and `TokenToNumber` is a parameter. `atof` is also a parameter, and the file read in `COLLADAReader::Convert` is not modelled.
- COLLADA: `ParseAsset`, `ParseMeshSource`, `ParseGeometry`, `ParseMesh`, `ParseSurface`, `ParseSampler`, `ParsePhongComponent`, `ParseEffect`, `ParseEffectFloat`, `ParseMaterial`, the scene-node parsers and `ParseLibrary` are not modelled. They copy attributes into the document records that the model takes as given.
- Collada.ColladaModel.ParseImage: requires a separator in a non-empty path, because without one the source reads before the buffer and uses an uninitialised file name.
- Collada.ColladaModel.AssignEffectsToMaterials: requires non-empty effect links, because the source steps past the first character.
- Collada.ParseMeshTriangles: requires a `#` character in each input's source link, a vertices input wherever a VERTEX input copies one, and a text child in each `p` element. The source reads all of these without checking. The `Semantic == NULL` test is dropped, because `TokenToString` always allocates.
- ColladaConvert.ProcessPrimitive: requires the input's accessor and float array, the three (or two) values at `prim * stride`, and `prim` below the length of the float array, because the source reads all of these unchecked. The source needs only `prim` below the length of the list after the resize, which can be longer than the float array; the model asks for the smaller bound.
- ColladaConvert.DoConversion: requires what `ProcessPrimitive` requires for every primitive, plus the mesh's material and its effect's four-float colours. A face reads slots 0 to 2 of each index list, and the model keeps that storage, so an index list with fewer than three live entries yields the stale or zeroed slots, as in the source.
- IModels: `Dispose` and the rendering use of the model are not modelled. The `HasColorsInMesh`, `HasTexturesInMesh`, `HasNormalsInMesh` and `HasTextureInMesh` predicates are stated through the conversion lemmas `ConvertedLists` and `ConvertedTexture`.

## Findings

| source | as written | input that shows it | evidently intended | confidence | as-written member | corrected member |
|---|---|---|---|---|---|---|
| source/Engine/Bytecode/StandardLibrary.cpp:149 | `GetSprite` (and `GetModel`, `GetVideo`) rejects only an index below 0 or above the list size, then indexes the list | a sprite list of size 2 and index 2: the check passes and `SpriteList[2]` is read past the end | reject `where >= size` | high, not executed | NativeArgs.ListCheckAsWrittenAdmitsSize | NativeArgs.GetListEntry |
| source/Engine/Rendering/Software/SoftwareRenderer.cpp:87-94 | `FilterGrayscale` looks channels up in `DivideBy3Table`, whose filling loop (:1319-1320) is commented out, so the table stays zero. `FilterGrayscale`'s only call (:232) is commented out, so no live code reaches it | any pixel, e.g. white 0xFFFFFF, filters to black 0 | entry i is i / 3, so the grey level is the sum of the channel thirds | high, not executed | Grayscale.FilterGrayscaleAsWrittenIsBlack | Grayscale.FilterGrayscaleAverages |
| source/Engine/Rendering/Software/SoftwareRenderer.cpp:74-82 | the inline `ColorSubtract` subtracts a scaled masked lane without masking the difference back to its lane, so low bits spill into the next channel. The inline function has no call site in the file, so no live code reaches it | color1 = color2 = 0xFF0000 and percent 255: the result is 0x00FF00 (bright green) | each channel clamped on its own: red 1, green 0, blue 0 (0x010000) | high, not executed | Colors.ColorSubtractAsWrittenSpills | Colors.ColorSubtractLeavesRed |
| source/Engine/ResourceTypes/ModelFormats/COLLADAReader.cpp:69-87 | `FloatStringToArray` fills `size` defaults and then lets `ParseFloatArray` append the parsed values behind them, so only the defaults are copied out | an effect colour with text "0.5 0.5 0.5 1" stays 1.0 1.0 1.0 1.0 | the parsed values, with the default only where the text gives none | high, not executed | Collada.FloatsAsWrittenLoseText | Collada.FloatValuesOfWords |
