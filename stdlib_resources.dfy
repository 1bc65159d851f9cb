/** Resource-slot reuse for the scene's resource lists: the search
    `GetResourceListSpace` makes and the way `Resources.LoadSprite` uses it
    (an already loaded file keeps its slot, otherwise the first empty slot
    is filled, otherwise the list grows by one). */
module Resources {
  import opened Wrappers
  import opened Machine
  import opened Values
  import opened NativeArgs

  /** An entry of a resource list. The sprite is recorded by the file name
      it is loaded from; loading the image data is not part of this model. */
  class ResourceType {
    const FilenameHash: uint32
    const UnloadPolicy: int32
    var AsSprite: Option<seq<byte>>

    constructor (hash: uint32, policy: int32)
      ensures AsSprite.None?
      ensures FilenameHash == hash && UnloadPolicy == policy
    {
      FilenameHash := hash;
      UnloadPolicy := policy;
      AsSprite := None;
    }
  }

  /** The scene's sprite list, whose entries may be empty (`null`). */
  class Scene {
    var SpriteList: seq<ResourceType?>

    constructor (list: seq<ResourceType?>)
      ensures SpriteList == list
    {
      SpriteList := list;
    }
  }

  predicate Holds(entry: ResourceType?, hash: uint32)
  {
    entry != null && entry.FilenameHash == hash
  }

  /** The first occupied entry loaded from a file with this hash. */
  function FirstMatch(list: seq<ResourceType?>, hash: uint32): (r: Option<nat>)
    ensures r.Some? ==> r.value < |list| && Holds(list[r.value], hash)
    ensures r.Some? ==> forall k :: 0 <= k < r.value ==> !Holds(list[k], hash)
    ensures r.None? ==> forall k :: 0 <= k < |list| ==> !Holds(list[k], hash)
  {
    if |list| == 0 then None
    else if Holds(list[0], hash) then Some(0)
    else match FirstMatch(list[1..], hash)
      case Some(i) => Some(i + 1)
      case None => None
  }

  /** The first empty entry. */
  function FirstEmpty(list: seq<ResourceType?>): (r: Option<nat>)
    ensures r.Some? ==> r.value < |list| && list[r.value] == null
    ensures r.Some? ==> forall k :: 0 <= k < r.value ==> list[k] != null
    ensures r.None? ==> forall k :: 0 <= k < |list| ==> list[k] != null
  {
    if |list| == 0 then None
    else if list[0] == null then Some(0)
    else match FirstEmpty(list[1..])
      case Some(i) => Some(i + 1)
      case None => None
  }

  /** The slot a resource with this hash ends up in. */
  function Slot(list: seq<ResourceType?>, hash: uint32): (i: nat)
    ensures i <= |list|
  {
    match FirstMatch(list, hash)
    case Some(i) => i
    case None =>
      match FirstEmpty(list)
      case Some(j) => j
      case None => |list|
  }

  /** The list after a load of `res`, which has this hash. */
  function Placed(list: seq<ResourceType?>, hash: uint32, res: ResourceType): (r: seq<ResourceType?>)
  {
    if FirstMatch(list, hash).Some? then list
    else if FirstEmpty(list).Some? then list[FirstEmpty(list).value := res]
    else list + [res]
  }

  /** `GetResourceListSpace`: `found` when an occupied entry has the hash,
      `index` then being the first such entry; otherwise `index` is the
      first empty entry when there is one (`foundEmpty`), else the list
      size. */
  method GetResourceListSpace(list: seq<ResourceType?>, hash: uint32)
    returns (found: bool, index: nat, foundEmpty: bool)
    ensures found <==> FirstMatch(list, hash).Some?
    ensures found ==> index == FirstMatch(list, hash).value
    ensures !found ==> (foundEmpty <==> FirstEmpty(list).Some?)
    ensures !found ==> index == Slot(list, hash)
  {
    foundEmpty := false;
    index := |list|;
    var i := 0;
    while i < |list|
      invariant 0 <= i <= |list|
      invariant forall k :: 0 <= k < i ==> !Holds(list[k], hash)
      invariant foundEmpty <==> exists k :: 0 <= k < i && list[k] == null
      invariant foundEmpty ==> index < i && list[index] == null
      invariant foundEmpty ==> forall k :: 0 <= k < index ==> list[k] != null
      invariant !foundEmpty ==> index == |list|
    {
      if list[i] == null {
        if !foundEmpty {
          foundEmpty := true;
          index := i;
        }
        i := i + 1;
        continue;
      }
      if list[i].FilenameHash == hash {
        index := i;
        FirstMatchIs(list, hash, i);
        return true, index, foundEmpty;
      }
      i := i + 1;
    }
    NoMatch(list, hash);
    if foundEmpty {
      FirstEmptyIs(list, index);
    } else {
      NoEmpty(list);
    }
    found := false;
  }

  lemma FirstMatchIs(list: seq<ResourceType?>, hash: uint32, i: nat)
    requires i < |list| && Holds(list[i], hash)
    requires forall k :: 0 <= k < i ==> !Holds(list[k], hash)
    ensures FirstMatch(list, hash) == Some(i)
  {
  }

  lemma NoMatch(list: seq<ResourceType?>, hash: uint32)
    requires forall k :: 0 <= k < |list| ==> !Holds(list[k], hash)
    ensures FirstMatch(list, hash).None?
  {
  }

  lemma FirstEmptyIs(list: seq<ResourceType?>, i: nat)
    requires i < |list| && list[i] == null
    requires forall k :: 0 <= k < i ==> list[k] != null
    ensures FirstEmpty(list) == Some(i)
  {
  }

  lemma NoEmpty(list: seq<ResourceType?>)
    requires forall k :: 0 <= k < |list| ==> list[k] != null
    ensures FirstEmpty(list).None?
  {
  }

  /** After a load the slot the load reports holds the file's resource,
      every other entry is as it was, and the list grew by at most one. */
  lemma PlacedHoldsHash(list: seq<ResourceType?>, hash: uint32, res: ResourceType)
    requires res.FilenameHash == hash
    ensures Slot(list, hash) < |Placed(list, hash, res)|
    ensures Holds(Placed(list, hash, res)[Slot(list, hash)], hash)
    ensures |Placed(list, hash, res)| == |list| || |Placed(list, hash, res)| == |list| + 1
    ensures forall k :: 0 <= k < |list| && k != Slot(list, hash) ==> Placed(list, hash, res)[k] == list[k]
  {
  }

  /** Loading the same file again finds the slot the first load used and
      leaves the list alone. */
  lemma {:induction false} LoadingTwiceReusesSlot(list: seq<ResourceType?>, hash: uint32, res: ResourceType, again: ResourceType)
    requires res.FilenameHash == hash
    ensures FirstMatch(Placed(list, hash, res), hash) == Some(Slot(list, hash))
    ensures Placed(Placed(list, hash, res), hash, again) == Placed(list, hash, res)
  {
    var placed := Placed(list, hash, res);
    var slot := Slot(list, hash);
    if FirstMatch(list, hash).None? {
      forall k | 0 <= k < slot
        ensures !Holds(placed[k], hash)
      {
        assert placed[k] == list[k];
      }
      FirstMatchIs(placed, hash, slot);
    }
  }

  /** `Resources.LoadSprite(filename, unloadPolicy)`: the index of the
      sprite list's entry for the file (by the hash `crc` gives of its
      name). A file not yet in the list gets a new entry, which loads the
      sprite, in the first empty slot or at the end. An unreadable unload
      policy reads as 0, as `GetInteger` leaves it. */
  method LoadSprite(scene: Scene, args: seq<Value>, crc: seq<byte> -> uint32) returns (r: Value, err: Option<NativeError>)
    modifies scene`SpriteList
    ensures |args| != 2 ==> r == Null && err == CheckArgCount(args, 2) && scene.SpriteList == old(scene.SpriteList)
    ensures |args| == 2 && !IsString(args[0]) ==>
      r == Null && err == Some(GetString(args, 0).error) && scene.SpriteList == old(scene.SpriteList)
    ensures |args| == 2 && IsString(args[0]) ==>
      var hash := crc(args[0].obj.Chars);
      var slot := Slot(old(scene.SpriteList), hash);
      err == GetInteger(args, 1).1
      && r == Integer(WrapInt32(slot))
      && slot < |scene.SpriteList|
      && scene.SpriteList[slot] != null
      && scene.SpriteList == Placed(old(scene.SpriteList), hash, scene.SpriteList[slot])
      && (FirstMatch(old(scene.SpriteList), hash).None? ==>
            fresh(scene.SpriteList[slot])
            && scene.SpriteList[slot].AsSprite == Some(args[0].obj.Chars)
            && scene.SpriteList[slot].UnloadPolicy == GetInteger(args, 1).0)
  {
    err := CheckArgCount(args, 2);
    if err.Some? {
      return Null, err;
    }
    var filename := GetString(args, 0);
    if filename.Err? {
      return Null, Some(filename.error);
    }
    var (policy, e) := GetInteger(args, 1);
    err := e;
    var resource := new ResourceType(crc(filename.value), policy);
    var list := scene.SpriteList;
    var found, index, emptySlot := GetResourceListSpace(list, resource.FilenameHash);
    if found {
      return Integer(WrapInt32(index)), err;
    } else if emptySlot {
      scene.SpriteList := list[index := resource];
    } else {
      scene.SpriteList := list + [resource];
    }
    resource.AsSprite := Some(filename.value);
    r := Integer(WrapInt32(index));
  }
}
