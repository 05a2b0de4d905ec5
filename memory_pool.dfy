/** FastFusionMemoryPool: a pool of device images that hands out an
    available image of the requested type and dimensions when there is one,
    allocates otherwise, takes released images back, and frees available
    images, least recently released key first, while the pool is above its
    preferred size. Every method is proved against the function of the same
    operation in PoolSpec. */
module MemoryPool {
  import opened Images
  import opened Wrappers
  import opened PoolSpec

  class Pool {
    /** The preferred size limit in bytes. */
    var poolSize: int
    /** The bytes of all images the pool has allocated and not yet freed. */
    var currentSize: int
    /** Per key, the stack of images that are ready for reuse. */
    var available: map<Key, seq<Image>>
    var inUse: set<Image>
    /** The keys ordered by their last release, least recent first. */
    var access: seq<Key>
    /** The identity the device context gives the next allocation. */
    var nextId: nat
    /** Every image closed so far. */
    ghost var closed: set<Image>

    ghost function View(): State
      reads this
    {
      State(poolSize, currentSize, available, inUse, access, nextId, closed)
    }

    ghost predicate Valid()
      reads this
    {
      Inv(View())
    }

    constructor(poolSize: int)
      ensures View() == Empty(poolSize) && Valid()
    {
      this.poolSize := poolSize;
      currentSize := 0;
      available := map[];
      inUse := {};
      access := [];
      nextId := 0;
      closed := {};
      new;
      InitialInv(poolSize);
    }

    /** allocateImage: a fresh image from the device context, whose bytes are
        added to the current size. */
    method AllocateImage(key: Key) returns (img: Image)
      modifies this`nextId, this`currentSize
      ensures img == Image(old(nextId), key.dataType, key.dims) && KeyOf(img) == key
      ensures nextId == old(nextId) + 1 && currentSize == old(currentSize) + SizeInBytes(key)
    {
      img := Image(nextId, key.dataType, key.dims);
      nextId := nextId + 1;
      currentSize := currentSize + Bytes(img);
    }

    /** freeImage: the image's bytes leave the current size and it is closed. */
    method FreeImage(img: Image)
      modifies this`currentSize, this`closed
      ensures currentSize == old(currentSize) - Bytes(img) && closed == old(closed) + {img}
    {
      currentSize := currentSize - Bytes(img);
      closed := closed + {img};
    }

    /** freeMemIsNecessary: the pool is over its preferred limit; when it is
        not, eviction leaves the pool as it is. */
    function FreeMemIsNecessary(): (r: bool)
      reads this
      ensures r <==> View().currentSize > View().poolSize
      ensures Valid() && !r ==> PoolSpec.Evict(View()) == View()
    {
      currentSize > poolSize
    }

    /** getAvailableImagesCount: the sum of the stack sizes. */
    method GetAvailableImagesCount() returns (n: nat)
      ensures n == AvailableCount(available)
    {
      n := 0;
      var ks := available.Keys;
      while ks != {}
        invariant ks <= available.Keys
        invariant n + CountOver(available, ks) == AvailableCount(available)
        decreases ks
      {
        var k :| k in ks;
        CountOverRemove(available, ks, k);
        n := n + |available[k]|;
        ks := ks - {k};
      }
    }

    method FreeMemIsPossible() returns (b: bool)
      ensures b <==> AvailableCount(available) > 0
    {
      var n := GetAvailableImagesCount();
      b := n > 0;
    }

    /** freeMemIfNecessaryAndPossible: while above the limit, pop and free
        images, visiting the keys least recently released first. */
    method FreeMemIfNecessaryAndPossible()
      requires KeysKnown(available, access)
      modifies this`available, this`currentSize, this`closed
      ensures View() == Evict(old(View()))
    {
      if FreeMemIsNecessary() {
        var possible := FreeMemIsPossible();
        if possible {
          FreeInAccessOrder();
        }
      }
    }

    /** The loop over the access order. */
    method FreeInAccessOrder()
      requires KeysKnown(available, access)
      modifies this`available, this`currentSize, this`closed
      ensures var r := EvictKeys(old(available), old(currentSize), poolSize, access);
        available == r.available && currentSize == r.size && closed == old(closed) + r.freed
    {
      ghost var target := EvictKeys(available, currentSize, poolSize, access);
      ghost var closed0 := closed;
      var i := 0;
      while i < |access|
        invariant 0 <= i <= |access| && available.Keys == old(available).Keys
        invariant KeysKnown(available, access)
        invariant var r := EvictKeys(available, currentSize, poolSize, access[i..]);
          r.available == target.available && r.size == target.size && closed + r.freed == closed0 + target.freed
      {
        var k := access[i];
        assert access[i..][0] == k && access[i..][1..] == access[i + 1..];
        var stack := FreeFromStack(available[k]);
        available := available[k := stack];
        i := i + 1;
      }
      assert access[i..] == [];
    }

    /** The inner loop: pop and free while the stack is not empty and the
        pool is above its limit. */
    method FreeFromStack(stack: seq<Image>) returns (rest: seq<Image>)
      modifies this`currentSize, this`closed
      ensures var p := EvictStack(stack, old(currentSize), poolSize);
        rest == p.stack && currentSize == p.size && closed == old(closed) + p.freed
    {
      rest := stack;
      ghost var q := EvictStack(stack, currentSize, poolSize);
      while |rest| > 0 && currentSize > poolSize
        invariant var p := EvictStack(rest, currentSize, poolSize);
          p.stack == q.stack && p.size == q.size && closed + p.freed == old(closed) + q.freed
        decreases |rest|
      {
        var top := rest[|rest| - 1];
        EvictStackStep(rest, currentSize, poolSize);
        rest := rest[..|rest| - 1];
        FreeImage(top);
      }
    }

    /** requestImage: reuse the top of the key's stack, or allocate a new
        image and then free memory if needed. The image is in use afterwards
        and was not before. */
    method RequestImage(name: Option<string>, dataType: DataType, dims: seq<nat>) returns (img: Image)
      requires Valid()
      modifies this`available, this`inUse, this`nextId, this`currentSize, this`closed
      ensures var r := Request(old(View()), Key(dataType, dims));
        View() == r.state && img == r.image
      ensures Valid() && IsInUse(Some(img)) && img !in old(inUse)
    {
      var key := Key(dataType, dims);
      ghost var s := View();
      if key !in available || |available[key]| == 0 {
        RequestAllocates(s, key);
        img := AllocateImage(key);
        inUse := inUse + {img};
        assert View() == Allocate(s, key);
        FreeMemIfNecessaryAndPossible();
      } else {
        RequestReuses(s, key);
        var st := available[key];
        img := st[|st| - 1];
        available := available[key := st[..|st| - 1]];
        inUse := inUse + {img};
        assert View() == Pop(s, key);
      }
    }

    /** releaseImage: the image returns to its key's stack, its key becomes
        the most recently released, and memory is freed if needed. */
    method ReleaseImage(name: Option<string>, img: Image)
      requires Valid() && img in inUse
      modifies this`available, this`inUse, this`access, this`currentSize, this`closed
      ensures View() == Release(old(View()), img)
      ensures Valid() && !IsInUse(Some(img))
    {
      ReleaseProperties(View(), img);
      PushBack(img);
      FreeMemIfNecessaryAndPossible();
    }

    /** releaseImage up to its eviction. */
    method PushBack(img: Image)
      requires KeysKnown(available, access)
      modifies this`available, this`inUse, this`access
      ensures View() == Push(old(View()), img)
    {
      inUse := inUse - {img};
      var key := KeyOf(img);
      RecordAccess(key);
      if key !in available {
        available := available[key := []];
      }
      available := available[key := available[key] + [img]];
    }

    /** recordAccess: the key moves to the most recent end. */
    method RecordAccess(key: Key)
      modifies this`access
      ensures access == PoolSpec.RecordAccess(old(access), key)
    {
      access := Remove(access, key) + [key];
    }

    /** free(freeInUse): free every available image, forget the stacks and
        the access order, and with freeInUse free the images in use too. */
    method Free(freeInUse: bool)
      requires Valid()
      modifies this`available, this`access, this`inUse, this`currentSize, this`closed
      ensures View() == PoolSpec.Free(old(View()), freeInUse)
      ensures Valid()
    {
      FreeProperties(View(), freeInUse);
      FreeAvailable();
      available := map[];
      access := [];
      if freeInUse {
        FreeInUse();
      }
    }

    /** The loop over the stacks of free(): every available image is freed. */
    method FreeAvailable()
      modifies this`currentSize, this`closed
      ensures currentSize == old(currentSize) - Total(available)
      ensures closed == old(closed) + ImagesOf(available, available.Keys)
    {
      var ks := available.Keys;
      while ks != {}
        invariant ks <= available.Keys
        invariant currentSize == old(currentSize) - Total(available) + BytesOver(available, ks)
        invariant closed == old(closed) + ImagesOf(available, available.Keys - ks)
        decreases ks
      {
        var k :| k in ks;
        PopAll(available[k]);
        BytesOverRemove(available, ks, k);
        ImagesOfAdd(available, available.Keys - ks, k);
        assert available.Keys - ks + {k} == available.Keys - (ks - {k});
        ks := ks - {k};
      }
      assert available.Keys - {} == available.Keys;
    }

    /** The inner loop of free(): every image of the stack is freed. */
    method PopAll(stack: seq<Image>)
      modifies this`currentSize, this`closed
      ensures currentSize == old(currentSize) - StackBytes(stack)
      ensures closed == old(closed) + (set i | 0 <= i < |stack| :: stack[i])
    {
      var rest := stack;
      while |rest| > 0
        invariant |rest| <= |stack| && rest == stack[..|rest|]
        invariant currentSize == old(currentSize) - StackBytes(stack) + StackBytes(rest)
        invariant closed == old(closed) + (set i | |rest| <= i < |stack| :: stack[i])
        decreases |rest|
      {
        var top := rest[|rest| - 1];
        assert top == stack[|rest| - 1];
        assert (set i | |rest| - 1 <= i < |stack| :: stack[i]) == (set i | |rest| <= i < |stack| :: stack[i]) + {top};
        rest := rest[..|rest| - 1];
        FreeImage(top);
      }
    }

    /** The loop over the images in use of free(true). */
    method FreeInUse()
      modifies this`inUse, this`currentSize, this`closed
      ensures inUse == {} && currentSize == old(currentSize) - SetBytes(old(inUse))
      ensures closed == old(closed) + old(inUse)
    {
      while inUse != {}
        invariant inUse <= old(inUse)
        invariant currentSize == old(currentSize) - SetBytes(old(inUse)) + SetBytes(inUse)
        invariant closed == old(closed) + (old(inUse) - inUse)
        decreases inUse
      {
        var x :| x in inUse;
        SetBytesRemove(inUse, x);
        inUse := inUse - {x};
        FreeImage(x);
      }
    }

    /** close: free everything, the images in use included. */
    method Close()
      requires Valid()
      modifies this`available, this`access, this`inUse, this`currentSize, this`closed
      ensures View() == PoolSpec.Free(old(View()), true)
      ensures Valid() && currentSize == 0 && inUse == {} && available == map[]
    {
      FreeProperties(View(), true);
      Free(true);
    }

    /** setPreferredSizeLimit: only the limit changes; nothing is freed. */
    method SetPreferredSizeLimit(limit: int)
      requires Valid()
      modifies this`poolSize
      ensures View() == old(View()).(poolSize := limit) && Valid()
    {
      poolSize := limit;
    }

    /** isInUse: a missing image (null) is never in use. */
    function IsInUse(img: Option<Image>): (r: bool)
      reads this
      ensures r ==> img.Some?
      ensures Valid() && r ==> img.value.id < nextId
    {
      img.Some? && img.value in inUse
    }
  }

  /** prettyName: the name for the debug log, cut to `length` characters
      with a trailing "..." when longer. Java's substring throws unless
      length >= 3 when the name has to be cut. */
  function PrettyName(name: Option<string>, length: int): (r: string)
    requires name.None? || |name.value| <= length || length >= 3
    ensures name.None? ==> r == "<unnamed>"
    ensures name.Some? ==> |r| <= length && |r| == if |name.value| <= length then |name.value| else length
    ensures name.Some? && |name.value| <= length ==> r == name.value
    ensures name.Some? && |name.value| > length ==> r[..length - 3] == name.value[..length - 3] && r[length - 3..] == "..."
  {
    if name.None? then "<unnamed>"
    else if |name.value| <= length then name.value
    else name.value[..length - 3] + "..."
  }
}
