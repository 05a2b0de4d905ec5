/** The state of the device image pool (FastFusionMemoryPool) as a value,
    its invariant, and every operation on it as a function of the state.
    The class MemoryPool.Pool implements these step by step. */
module PoolSpec {
  import opened Images

  /** The pool: the preferred size limit and the bytes allocated now; per
      key a stack of available images (top at the end); the images in use;
      the keys in the order their images were last released (least recent
      first); the next fresh image identity; and every image closed so far. */
  datatype State = State(poolSize: int, currentSize: int, available: map<Key, seq<Image>>,
                         inUse: set<Image>, access: seq<Key>, nextId: nat, closed: set<Image>)

  /** The bytes of the images on a stack. */
  function StackBytes(st: seq<Image>): nat {
    if |st| == 0 then 0 else StackBytes(st[..|st| - 1]) + Bytes(st[|st| - 1])
  }

  /** The sum of the stack bytes of the keys ks, in no particular order. */
  ghost function BytesOver(m: map<Key, seq<Image>>, ks: set<Key>): nat
    requires ks <= m.Keys
    decreases ks
  {
    if ks == {} then 0 else var k :| k in ks; StackBytes(m[k]) + BytesOver(m, ks - {k})
  }

  /** The number of images on the stacks of the keys ks. */
  ghost function CountOver(m: map<Key, seq<Image>>, ks: set<Key>): nat
    requires ks <= m.Keys
    decreases ks
  {
    if ks == {} then 0 else var k :| k in ks; |m[k]| + CountOver(m, ks - {k})
  }

  /** The bytes of all available images. */
  ghost function Total(m: map<Key, seq<Image>>): nat {
    BytesOver(m, m.Keys)
  }

  /** getAvailableImagesCount: the number of available images. */
  ghost function AvailableCount(m: map<Key, seq<Image>>): nat {
    CountOver(m, m.Keys)
  }

  /** The bytes of a set of images, in no particular order. */
  ghost function SetBytes(s: set<Image>): nat
    decreases s
  {
    if s == {} then 0 else var x :| x in s; Bytes(x) + SetBytes(s - {x})
  }

  /** All images on the stacks of the keys ks. */
  ghost function ImagesOf(m: map<Key, seq<Image>>, ks: set<Key>): set<Image> {
    set k, i | k in ks && k in m && 0 <= i < |m[k]| :: m[k][i]
  }

  predicate NoDup(s: seq<Key>) {
    forall i, j :: 0 <= i < j < |s| ==> s[i] != s[j]
  }

  /** LinkedHashSet.remove on the access order. */
  function Remove(s: seq<Key>, k: Key): (r: seq<Key>)
    ensures forall x :: x in r <==> x in s && x != k
    ensures NoDup(s) ==> NoDup(r)
  {
    if |s| == 0 then []
    else
      var t := Remove(s[1..], k);
      assert NoDup(s) ==> s[0] !in s[1..] && NoDup(s[1..]) by {
        if NoDup(s) {
          forall i, j | 0 <= i < j < |s| - 1 ensures s[1..][i] != s[1..][j] {
            assert s[1..][i] == s[i + 1] && s[1..][j] == s[j + 1];
          }
        }
      }
      if s[0] == k then t
      else
        assert NoDup(s) ==> NoDup([s[0]] + t) by {
          if NoDup(s) {
            forall i, j | 0 <= i < j < |t| + 1 ensures ([s[0]] + t)[i] != ([s[0]] + t)[j] {
              assert ([s[0]] + t)[j] == t[j - 1];
              if i > 0 {
                assert ([s[0]] + t)[i] == t[i - 1];
              }
            }
          }
        }
        [s[0]] + t
  }

  /** recordAccess: the key moves to (or joins at) the most recent end. */
  function RecordAccess(s: seq<Key>, k: Key): (r: seq<Key>)
    ensures |r| >= 1 && r[|r| - 1] == k
    ensures forall x :: x in r <==> x in s || x == k
    ensures NoDup(s) ==> NoDup(r)
  {
    var t := Remove(s, k);
    assert NoDup(t) ==> NoDup(t + [k]) by {
      if NoDup(t) {
        forall i, j | 0 <= i < j < |t| + 1 ensures (t + [k])[i] != (t + [k])[j] {
          assert (t + [k])[i] == t[i];
          if j < |t| {
            assert (t + [k])[j] == t[j];
          } else {
            assert t[i] in t;
          }
        }
      }
    }
    t + [k]
  }

  /** Every key of the access order has a stack (the assertion in
      freeMemIfNecessaryAndPossible). */
  predicate KeysKnown(m: map<Key, seq<Image>>, keys: seq<Key>) {
    forall i :: 0 <= i < |keys| ==> keys[i] in m
  }

  /** A stack of key k: its images belong to k, none is in use or on the
      stack twice, and each was allocated by the pool. */
  predicate StackOk(k: Key, st: seq<Image>, inUse: set<Image>, nextId: nat) {
    && (forall i :: 0 <= i < |st| ==> KeyOf(st[i]) == k && st[i] !in inUse && st[i].id < nextId)
    && (forall i, j :: 0 <= i < j < |st| ==> st[i] != st[j])
  }

  ghost predicate StacksOk(s: State) {
    forall k :: k in s.available ==> StackOk(k, s.available[k], s.inUse, s.nextId)
  }

  /** The invariant of the pool: the access order lists each key with a
      stack exactly once, the stacks are well formed, the images in use were
      allocated by the pool, and the current size is the bytes of the images
      in use plus the bytes of the available ones. */
  ghost predicate Inv(s: State) {
    && NoDup(s.access)
    && (forall k :: k in s.available <==> k in s.access)
    && StacksOk(s)
    && (forall x :: x in s.inUse ==> x.id < s.nextId)
    && s.currentSize == SetBytes(s.inUse) + Total(s.available)
  }

  /** The pool the constructor creates. */
  function Empty(poolSize: int): State {
    State(poolSize, 0, map[], {}, [], 0, {})
  }

  /** The inner loop of freeMemIfNecessaryAndPossible on one stack: pop and
      free while the stack is not empty and the pool is over its limit. */
  datatype Popped = Popped(stack: seq<Image>, size: int, freed: set<Image>)

  function EvictStack(st: seq<Image>, size: int, limit: int): (r: Popped)
    ensures |r.stack| <= |st| && r.stack == st[..|r.stack|]
    ensures size + StackBytes(r.stack) == r.size + StackBytes(st)
    ensures r.size <= limit || r.stack == []
    ensures size <= limit ==> r == Popped(st, size, {})
    decreases |st|
  {
    if |st| == 0 || size <= limit then Popped(st, size, {})
    else
      var n := |st| - 1;
      var top := st[n];
      var r := EvictStack(st[..n], size - Bytes(top), limit);
      assert StackBytes(st) == StackBytes(st[..n]) + Bytes(top);
      assert st[..n][..|r.stack|] == st[..|r.stack|];
      Popped(r.stack, r.size, r.freed + {top})
  }

  /** Only images of the stack are freed. */
  lemma {:induction false} EvictStackFreed(st: seq<Image>, size: int, limit: int)
    ensures forall x :: x in EvictStack(st, size, limit).freed ==> x in st
    decreases |st|
  {
    if |st| > 0 && size > limit {
      var n := |st| - 1;
      EvictStackFreed(st[..n], size - Bytes(st[n]), limit);
      assert forall x :: x in st[..n] ==> x in st;
    }
  }

  /** One pop of the inner loop. */
  lemma EvictStackStep(st: seq<Image>, size: int, limit: int)
    requires |st| > 0 && size > limit
    ensures var r := EvictStack(st[..|st| - 1], size - Bytes(st[|st| - 1]), limit);
      EvictStack(st, size, limit) == Popped(r.stack, r.size, r.freed + {st[|st| - 1]})
  {
  }

  /** The outer loop: the stacks of the keys in the given order. */
  datatype Eviction = Eviction(available: map<Key, seq<Image>>, size: int, freed: set<Image>)

  function EvictKeys(m: map<Key, seq<Image>>, size: int, limit: int, keys: seq<Key>): (r: Eviction)
    requires KeysKnown(m, keys)
    ensures r.available.Keys == m.Keys
    decreases |keys|
  {
    if |keys| == 0 then Eviction(m, size, {})
    else
      var e := EvictStack(m[keys[0]], size, limit);
      var r := EvictKeys(m[keys[0] := e.stack], e.size, limit, keys[1..]);
      Eviction(r.available, r.size, e.freed + r.freed)
  }

  /** freeMemIfNecessaryAndPossible: only when the pool is over its limit and
      some image is available, the stacks are visited least recently
      released first. */
  ghost function Evict(s: State): (r: State)
    requires KeysKnown(s.available, s.access)
    ensures r.inUse == s.inUse && r.access == s.access && r.poolSize == s.poolSize && r.nextId == s.nextId
  {
    if s.currentSize > s.poolSize && AvailableCount(s.available) > 0 then
      var r := EvictKeys(s.available, s.currentSize, s.poolSize, s.access);
      s.(available := r.available, currentSize := r.size, closed := s.closed + r.freed)
    else s
  }

  /** The outcome of requestImage: the new state, the image handed out, and
      whether it was freshly allocated. */
  datatype Requested = Requested(state: State, image: Image, isNew: bool)

  /** The image allocateImage creates for a key. */
  function FreshImage(s: State, key: Key): Image {
    Image(s.nextId, key.dataType, key.dims)
  }

  /** allocateImage adds the new image's bytes to the current size;
      requestImage then puts the image in use. */
  function Allocate(s: State, key: Key): State {
    s.(nextId := s.nextId + 1, currentSize := s.currentSize + SizeInBytes(key),
       inUse := s.inUse + {FreshImage(s, key)})
  }

  /** requestImage on a key with an available image: pop it into use. */
  function Pop(s: State, key: Key): State
    requires key in s.available && |s.available[key]| > 0
  {
    var st := s.available[key];
    s.(available := s.available[key := st[..|st| - 1]], inUse := s.inUse + {st[|st| - 1]})
  }

  /** requestImage: pop the key's stack when it has an image; otherwise
      allocate a fresh image and then evict. */
  ghost function Request(s: State, key: Key): (r: Requested)
    requires KeysKnown(s.available, s.access)
    ensures r.image in r.state.inUse && r.state.access == s.access && r.state.poolSize == s.poolSize
  {
    if key !in s.available || |s.available[key]| == 0 then
      Requested(Evict(Allocate(s, key)), FreshImage(s, key), true)
    else
      var st := s.available[key];
      Requested(Pop(s, key), st[|st| - 1], false)
  }

  /** releaseImage before its eviction: the image leaves the in-use set, its
      key moves to the most recent end of the access order, and the image is
      pushed onto its key's stack (created when absent). */
  function Push(s: State, img: Image): (r: State)
    requires KeysKnown(s.available, s.access)
    ensures KeysKnown(r.available, r.access)
  {
    var k := KeyOf(img);
    var st := if k in s.available then s.available[k] else [];
    var access := RecordAccess(s.access, k);
    assert KeysKnown(s.available[k := st + [img]], access) by {
      forall i | 0 <= i < |access| ensures access[i] in s.available[k := st + [img]] {
        assert access[i] in access;
        if access[i] != k {
          var j :| 0 <= j < |s.access| && s.access[j] == access[i];
        }
      }
    }
    s.(inUse := s.inUse - {img}, access := access, available := s.available[k := st + [img]])
  }

  /** releaseImage: push the image back, then evict. */
  ghost function Release(s: State, img: Image): (r: State)
    requires KeysKnown(s.available, s.access) && img in s.inUse
    ensures r.inUse == s.inUse - {img} && |r.access| > 0 && r.access[|r.access| - 1] == KeyOf(img)
  {
    Evict(Push(s, img))
  }

  /** free(freeInUse): every available image is freed and the stacks and the
      access order are cleared; with freeInUse also every image in use. */
  ghost function Free(s: State, freeInUse: bool): (r: State)
    ensures r.poolSize == s.poolSize && r.nextId == s.nextId && r.available == map[] && r.access == []
    ensures r.inUse == (if freeInUse then {} else s.inUse)
  {
    s.(available := map[], access := [],
       inUse := if freeInUse then {} else s.inUse,
       currentSize := s.currentSize - Total(s.available) - (if freeInUse then SetBytes(s.inUse) else 0),
       closed := s.closed + ImagesOf(s.available, s.available.Keys) + (if freeInUse then s.inUse else {}))
  }

  // ---------------------------------------------------------------------
  // Sums

  lemma {:induction false} BytesOverRemove(m: map<Key, seq<Image>>, ks: set<Key>, k: Key)
    requires ks <= m.Keys && k in ks
    ensures BytesOver(m, ks) == StackBytes(m[k]) + BytesOver(m, ks - {k})
    decreases ks
  {
    var y :| y in ks && BytesOver(m, ks) == StackBytes(m[y]) + BytesOver(m, ks - {y});
    if y != k {
      BytesOverRemove(m, ks - {y}, k);
      BytesOverRemove(m, ks - {k}, y);
      assert ks - {y} - {k} == ks - {k} - {y};
    }
  }

  lemma {:induction false} CountOverRemove(m: map<Key, seq<Image>>, ks: set<Key>, k: Key)
    requires ks <= m.Keys && k in ks
    ensures CountOver(m, ks) == |m[k]| + CountOver(m, ks - {k})
    decreases ks
  {
    var y :| y in ks && CountOver(m, ks) == |m[y]| + CountOver(m, ks - {y});
    if y != k {
      CountOverRemove(m, ks - {y}, k);
      CountOverRemove(m, ks - {k}, y);
      assert ks - {y} - {k} == ks - {k} - {y};
    }
  }

  lemma {:induction false} BytesOverFrame(m: map<Key, seq<Image>>, ks: set<Key>, k: Key, st: seq<Image>)
    requires ks <= m.Keys && k !in ks
    ensures BytesOver(m[k := st], ks) == BytesOver(m, ks)
    decreases ks
  {
    if ks != {} {
      var y :| y in ks;
      BytesOverRemove(m[k := st], ks, y);
      BytesOverRemove(m, ks, y);
      BytesOverFrame(m, ks - {y}, k, st);
    }
  }

  /** Replacing or adding one stack changes the total by the difference on
      that stack. */
  lemma TotalUpdate(m: map<Key, seq<Image>>, k: Key, st: seq<Image>)
    ensures k in m ==> Total(m[k := st]) + StackBytes(m[k]) == Total(m) + StackBytes(st)
    ensures k !in m ==> Total(m[k := st]) == Total(m) + StackBytes(st)
  {
    var m' := m[k := st];
    BytesOverRemove(m', m'.Keys, k);
    assert m'.Keys - {k} == m.Keys - {k};
    BytesOverFrame(m, m.Keys - {k}, k, st);
    if k in m {
      BytesOverRemove(m, m.Keys, k);
    } else {
      assert m.Keys - {k} == m.Keys;
    }
  }

  lemma {:induction false} CountOverZero(m: map<Key, seq<Image>>, ks: set<Key>)
    requires ks <= m.Keys && forall k :: k in ks ==> m[k] == []
    ensures CountOver(m, ks) == 0
    decreases ks
  {
    if ks != {} {
      var y :| y in ks;
      CountOverRemove(m, ks, y);
      CountOverZero(m, ks - {y});
    }
  }

  lemma ImagesOfAdd(m: map<Key, seq<Image>>, ks: set<Key>, k: Key)
    requires k in m
    ensures ImagesOf(m, ks + {k}) == ImagesOf(m, ks) + (set i | 0 <= i < |m[k]| :: m[k][i])
  {
  }

  lemma {:induction false} SetBytesRemove(s: set<Image>, x: Image)
    requires x in s
    ensures SetBytes(s) == Bytes(x) + SetBytes(s - {x})
    decreases s
  {
    var y :| y in s && SetBytes(s) == Bytes(y) + SetBytes(s - {y});
    if y != x {
      SetBytesRemove(s - {y}, x);
      SetBytesRemove(s - {x}, y);
      assert s - {y} - {x} == s - {x} - {y};
    }
  }

  lemma SetBytesAdd(s: set<Image>, x: Image)
    requires x !in s
    ensures SetBytes(s + {x}) == SetBytes(s) + Bytes(x)
  {
    SetBytesRemove(s + {x}, x);
    assert s + {x} - {x} == s;
  }

  lemma StackBytesPush(st: seq<Image>, x: Image)
    ensures StackBytes(st + [x]) == StackBytes(st) + Bytes(x)
  {
    assert (st + [x])[..|st|] == st;
  }

  lemma StackOkPrefix(k: Key, st: seq<Image>, inUse: set<Image>, nextId: nat, n: nat)
    requires StackOk(k, st, inUse, nextId) && n <= |st|
    ensures StackOk(k, st[..n], inUse, nextId)
  {
    assert forall i :: 0 <= i < n ==> st[..n][i] == st[i];
  }

  lemma StackOkPop(k: Key, st: seq<Image>, inUse: set<Image>, nextId: nat)
    requires StackOk(k, st, inUse, nextId) && |st| > 0
    ensures StackOk(k, st[..|st| - 1], inUse + {st[|st| - 1]}, nextId)
  {
    var n := |st| - 1;
    forall i | 0 <= i < n ensures st[..n][i] != st[n] && st[..n][i] == st[i] {
    }
  }

  lemma StackOkPush(k: Key, st: seq<Image>, inUse: set<Image>, nextId: nat, img: Image)
    requires StackOk(k, st, inUse, nextId) && img in inUse && KeyOf(img) == k && img.id < nextId
    ensures StackOk(k, st + [img], inUse - {img}, nextId)
  {
    forall i | 0 <= i < |st| ensures (st + [img])[i] == st[i] && st[i] != img {
    }
  }

  lemma StackOkAdd(k: Key, st: seq<Image>, inUse: set<Image>, nextId: nat, x: Image, nextId': nat)
    requires StackOk(k, st, inUse, nextId) && x !in st && nextId <= nextId'
    ensures StackOk(k, st, inUse + {x}, nextId')
  {
  }

  lemma StackOkRemove(k: Key, st: seq<Image>, inUse: set<Image>, nextId: nat, x: Image)
    requires StackOk(k, st, inUse, nextId)
    ensures StackOk(k, st, inUse - {x}, nextId)
  {
  }

  // ---------------------------------------------------------------------
  // Eviction

  /** The keys visited: the stacks keep their keys, each keeps a prefix of
      its images, the stacks of keys not visited are untouched, and only
      stacked images are freed. */
  lemma {:induction false} EvictKeysShape(m: map<Key, seq<Image>>, size: int, limit: int, keys: seq<Key>)
    requires KeysKnown(m, keys)
    ensures var r := EvictKeys(m, size, limit, keys);
      && r.available.Keys == m.Keys
      && (forall k :: k in m ==> |r.available[k]| <= |m[k]| && r.available[k] == m[k][..|r.available[k]|])
      && (forall k :: k in m && k !in keys ==> r.available[k] == m[k])
    decreases |keys|
  {
    if |keys| > 0 {
      var k0 := keys[0];
      var e := EvictStack(m[k0], size, limit);
      var m1 := m[k0 := e.stack];
      assert KeysKnown(m1, keys[1..]);
      EvictKeysShape(m1, e.size, limit, keys[1..]);
      var r := EvictKeys(m1, e.size, limit, keys[1..]);
      forall k | k in m ensures |r.available[k]| <= |m[k]| && r.available[k] == m[k][..|r.available[k]|] {
        if k == k0 {
          assert m1[k0][..|r.available[k]|] == m[k0][..|r.available[k]|];
        }
      }
    }
  }

  /** Only stacked images are freed. */
  lemma {:induction false} EvictKeysFreed(m: map<Key, seq<Image>>, size: int, limit: int, keys: seq<Key>)
    requires KeysKnown(m, keys)
    ensures EvictKeys(m, size, limit, keys).freed <= ImagesOf(m, m.Keys)
    decreases |keys|
  {
    if |keys| > 0 {
      var k0 := keys[0];
      var e := EvictStack(m[k0], size, limit);
      var m1 := m[k0 := e.stack];
      assert KeysKnown(m1, keys[1..]);
      EvictKeysFreed(m1, e.size, limit, keys[1..]);
      var r := EvictKeys(m1, e.size, limit, keys[1..]);
      EvictStackFreed(m[k0], size, limit);
      forall x | x in e.freed ensures x in ImagesOf(m, m.Keys) {
        var j :| 0 <= j < |m[k0]| && m[k0][j] == x;
      }
      forall x | x in r.freed ensures x in ImagesOf(m, m.Keys) {
        var k, i :| k in m1 && 0 <= i < |m1[k]| && m1[k][i] == x;
        if k == k0 {
          assert m[k0][i] == x;
        }
      }
    }
  }

  /** The size drops by exactly the bytes freed from the stacks. */
  lemma {:induction false} EvictKeysAccounting(m: map<Key, seq<Image>>, size: int, limit: int, keys: seq<Key>)
    requires KeysKnown(m, keys)
    ensures var r := EvictKeys(m, size, limit, keys);
      size + Total(r.available) == r.size + Total(m)
    decreases |keys|
  {
    if |keys| > 0 {
      var k0 := keys[0];
      var e := EvictStack(m[k0], size, limit);
      var m1 := m[k0 := e.stack];
      TotalUpdate(m, k0, e.stack);
      assert m1.Keys == m.Keys;
      assert KeysKnown(m1, keys[1..]);
      EvictKeysAccounting(m1, e.size, limit, keys[1..]);
    }
  }

  /** Within the limit nothing is freed; afterwards the pool is within its
      limit or every visited stack is empty. */
  lemma {:induction false} EvictKeysBound(m: map<Key, seq<Image>>, size: int, limit: int, keys: seq<Key>)
    requires KeysKnown(m, keys)
    ensures var r := EvictKeys(m, size, limit, keys);
      && (size <= limit ==> r == Eviction(m, size, {}))
      && (r.size <= limit || forall k :: k in keys ==> r.available[k] == [])
      && r.size <= size
    decreases |keys|
  {
    if |keys| > 0 {
      var k0 := keys[0];
      var e := EvictStack(m[k0], size, limit);
      var m1 := m[k0 := e.stack];
      assert KeysKnown(m1, keys[1..]);
      EvictKeysBound(m1, e.size, limit, keys[1..]);
      EvictKeysShape(m1, e.size, limit, keys[1..]);
      var r := EvictKeys(m1, e.size, limit, keys[1..]);
      if size <= limit {
        assert m1 == m;
      }
      if r.size > limit {
        assert e.size > limit && e.stack == [];
        forall k | k in keys ensures r.available[k] == [] {
          if k != k0 {
            assert k in keys[1..];
          } else {
            assert r.available[k0] == m1[k0][..|r.available[k0]|];
          }
        }
      }
      assert size + StackBytes(e.stack) == e.size + StackBytes(m[k0]);
      assert |e.stack| <= |m[k0]| && e.stack == m[k0][..|e.stack|];
      StackBytesPrefix(m[k0], |e.stack|);
    }
  }

  lemma {:induction false} StackBytesPrefix(st: seq<Image>, n: nat)
    requires n <= |st|
    ensures StackBytes(st[..n]) <= StackBytes(st)
    decreases |st|
  {
    if n < |st| {
      assert st[..|st| - 1][..n] == st[..n];
      StackBytesPrefix(st[..|st| - 1], n);
    } else {
      assert st[..n] == st;
    }
  }

  /** Least recently released first: a stack is popped only after the stack
      of every key released before it has been emptied. */
  lemma {:induction false} EvictKeysOrder(m: map<Key, seq<Image>>, size: int, limit: int, keys: seq<Key>)
    requires KeysKnown(m, keys) && NoDup(keys)
    ensures var r := EvictKeys(m, size, limit, keys);
      forall i, j :: 0 <= i < j < |keys| && r.available[keys[j]] != m[keys[j]] ==> r.available[keys[i]] == []
    decreases |keys|
  {
    if |keys| > 0 {
      var k0 := keys[0];
      var e := EvictStack(m[k0], size, limit);
      var m1 := m[k0 := e.stack];
      var rest := keys[1..];
      assert KeysKnown(m1, rest) && NoDup(rest);
      assert k0 !in rest;
      EvictKeysOrder(m1, e.size, limit, rest);
      EvictKeysShape(m1, e.size, limit, rest);
      EvictKeysBound(m1, e.size, limit, rest);
      var r := EvictKeys(m1, e.size, limit, rest);
      forall i, j | 0 <= i < j < |keys| && r.available[keys[j]] != m[keys[j]] ensures r.available[keys[i]] == [] {
        assert keys[j] == rest[j - 1] && keys[j] != k0;
        if i == 0 {
          assert e.size > limit;
        } else {
          assert keys[i] == rest[i - 1];
        }
      }
    }
  }

  // ---------------------------------------------------------------------
  // The operations keep the invariant and do what the pool promises

  lemma InitialInv(poolSize: int)
    ensures Inv(Empty(poolSize)) && AvailableCount(Empty(poolSize).available) == 0
  {
  }

  /** Eviction keeps the invariant, the images in use and the access order,
      and frees only available images, never one in use. */
  lemma EvictKeepsInv(s: State)
    requires Inv(s)
    ensures KeysKnown(s.available, s.access)
    ensures var r := Evict(s);
      && Inv(r)
      && r.inUse == s.inUse && r.access == s.access && r.nextId == s.nextId && r.poolSize == s.poolSize
      && s.closed <= r.closed && r.closed - s.closed <= ImagesOf(s.available, s.available.Keys)
      && (r.closed - s.closed) !! s.inUse
  {
    assert KeysKnown(s.available, s.access);
    if s.currentSize > s.poolSize && AvailableCount(s.available) > 0 {
      var m := s.available;
      EvictKeysShape(m, s.currentSize, s.poolSize, s.access);
      EvictKeysFreed(m, s.currentSize, s.poolSize, s.access);
      EvictKeysAccounting(m, s.currentSize, s.poolSize, s.access);
      var r := Evict(s);
      forall k | k in r.available ensures StackOk(k, r.available[k], r.inUse, r.nextId) {
        StackOkPrefix(k, m[k], s.inUse, s.nextId, |r.available[k]|);
      }
      forall x | x in r.closed - s.closed ensures x !in s.inUse {
        var k, i :| k in m && 0 <= i < |m[k]| && m[k][i] == x;
      }
    }
  }

  /** Eviction is a no-op within the limit, and it leaves the pool within
      its limit or with nothing available. */
  lemma EvictBound(s: State)
    requires Inv(s)
    ensures KeysKnown(s.available, s.access)
    ensures var r := Evict(s);
      && (s.currentSize <= s.poolSize ==> r == s)
      && (r.currentSize <= r.poolSize || AvailableCount(r.available) == 0)
  {
    assert KeysKnown(s.available, s.access);
    if s.currentSize > s.poolSize && AvailableCount(s.available) > 0 {
      var m := s.available;
      EvictKeysBound(m, s.currentSize, s.poolSize, s.access);
      var e := EvictKeys(m, s.currentSize, s.poolSize, s.access);
      if e.size > s.poolSize {
        assert forall k :: k in e.available ==> k in s.access;
        CountOverZero(e.available, e.available.Keys);
      }
    }
  }

  /** Eviction empties the stacks least recently released first: a key's
      stack is popped only when the stack of every key earlier in the access
      order is empty. */
  lemma EvictOrder(s: State)
    requires Inv(s)
    ensures KeysKnown(s.available, s.access)
    ensures var r := Evict(s);
      forall i, j ::
        0 <= i < j < |s.access| && s.access[j] in r.available && r.available[s.access[j]] != s.available[s.access[j]]
        ==> s.access[i] in r.available && r.available[s.access[i]] == []
  {
    assert KeysKnown(s.available, s.access);
    if s.currentSize > s.poolSize && AvailableCount(s.available) > 0 {
      EvictKeysOrder(s.available, s.currentSize, s.poolSize, s.access);
    }
  }

  /** requestImage hands out an image of the key that was not in use and now
      is; it reuses (pops) exactly when the key's stack is not empty, and
      then neither the size changes nor anything is freed; otherwise the
      image is fresh and eviction may follow. */
  lemma RequestProperties(s: State, key: Key)
    requires Inv(s)
    ensures KeysKnown(s.available, s.access)
    ensures var r := Request(s, key);
      && Inv(r.state)
      && KeyOf(r.image) == key && r.image !in s.inUse && r.state.inUse == s.inUse + {r.image}
      && (r.isNew <==> key !in s.available || s.available[key] == [])
      && (r.isNew ==> r.image.id == s.nextId && (r.state.closed - s.closed) !! r.state.inUse)
      && (!r.isNew ==>
            && r.image == s.available[key][|s.available[key]| - 1]
            && r.state.available == s.available[key := s.available[key][..|s.available[key]| - 1]]
            && r.state.currentSize == s.currentSize && r.state.closed == s.closed)
  {
    assert KeysKnown(s.available, s.access);
    if key !in s.available || |s.available[key]| == 0 {
      RequestAllocates(s, key);
    } else {
      RequestReuses(s, key);
    }
  }

  lemma RequestAllocates(s: State, key: Key)
    requires Inv(s) && (key !in s.available || |s.available[key]| == 0)
    ensures KeysKnown(s.available, s.access)
    ensures var r := Request(s, key);
      && Inv(r.state) && r.isNew
      && r.image == FreshImage(s, key) && r.image !in s.inUse && r.state.inUse == s.inUse + {r.image}
      && (r.state.closed - s.closed) !! r.state.inUse
  {
    assert KeysKnown(s.available, s.access);
    AllocateKeepsInv(s, key);
    EvictKeepsInv(Allocate(s, key));
  }

  lemma AllocateKeepsInv(s: State, key: Key)
    requires Inv(s)
    ensures FreshImage(s, key) !in s.inUse && Inv(Allocate(s, key))
  {
    var img := FreshImage(s, key);
    var r := Allocate(s, key);
    assert img !in s.inUse;
    SetBytesAdd(s.inUse, img);
    forall k | k in r.available ensures StackOk(k, r.available[k], r.inUse, r.nextId) {
      assert StackOk(k, s.available[k], s.inUse, s.nextId);
      forall i | 0 <= i < |s.available[k]| ensures s.available[k][i] != img {
      }
      StackOkAdd(k, s.available[k], s.inUse, s.nextId, img, r.nextId);
    }
  }

  lemma RequestReuses(s: State, key: Key)
    requires Inv(s) && key in s.available && |s.available[key]| > 0
    ensures KeysKnown(s.available, s.access)
    ensures var r := Request(s, key);
      var st := s.available[key];
      && Inv(r.state) && !r.isNew && r.image == st[|st| - 1] && r.image !in s.inUse
      && r.state == s.(available := s.available[key := st[..|st| - 1]], inUse := s.inUse + {r.image})
  {
    assert KeysKnown(s.available, s.access);
    PopKeepsInv(s, key);
  }

  lemma PopKeepsInv(s: State, key: Key)
    requires Inv(s) && key in s.available && |s.available[key]| > 0
    ensures s.available[key][|s.available[key]| - 1] !in s.inUse && Inv(Pop(s, key))
  {
    assert StackOk(key, s.available[key], s.inUse, s.nextId);
    PopStacks(s, key);
    PopSize(s, key);
  }

  lemma PopStacks(s: State, key: Key)
    requires StacksOk(s) && key in s.available && |s.available[key]| > 0
    ensures StacksOk(Pop(s, key))
  {
    var r := Pop(s, key);
    var st := s.available[key];
    var img := st[|st| - 1];
    forall k | k in r.available ensures StackOk(k, r.available[k], r.inUse, r.nextId) {
      if k == key {
        StackOkPop(k, st, s.inUse, s.nextId);
      } else {
        assert StackOk(k, s.available[k], s.inUse, s.nextId);
        assert StackOk(key, st, s.inUse, s.nextId);
        forall i | 0 <= i < |s.available[k]| ensures s.available[k][i] != img {
        }
        StackOkAdd(k, s.available[k], s.inUse, s.nextId, img, r.nextId);
      }
    }
  }

  lemma PopSize(s: State, key: Key)
    requires s.currentSize == SetBytes(s.inUse) + Total(s.available)
    requires key in s.available && |s.available[key]| > 0 && s.available[key][|s.available[key]| - 1] !in s.inUse
    ensures var r := Pop(s, key); r.currentSize == SetBytes(r.inUse) + Total(r.available)
  {
    var st := s.available[key];
    var n := |st| - 1;
    SetBytesAdd(s.inUse, st[n]);
    TotalUpdate(s.available, key, st[..n]);
  }

  /** releaseImage keeps the invariant, takes the image out of use, moves its
      key to the most recent end and gives it a stack; eviction frees only
      images that are not in use. */
  lemma ReleaseProperties(s: State, img: Image)
    requires Inv(s) && img in s.inUse
    ensures KeysKnown(s.available, s.access)
    ensures var r := Release(s, img);
      && Inv(r)
      && r.inUse == s.inUse - {img}
      && r.access == RecordAccess(s.access, KeyOf(img))
      && KeyOf(img) in r.available
      && (r.closed - s.closed) !! r.inUse
  {
    assert KeysKnown(s.available, s.access);
    PushKeepsInv(s, img);
    EvictKeepsInv(Push(s, img));
  }

  lemma PushKeepsInv(s: State, img: Image)
    requires Inv(s) && img in s.inUse
    ensures KeysKnown(s.available, s.access) && Inv(Push(s, img))
  {
    assert KeysKnown(s.available, s.access);
    var k := KeyOf(img);
    var st := if k in s.available then s.available[k] else [];
    var s1 := Push(s, img);
    SetBytesRemove(s.inUse, img);
    StackBytesPush(st, img);
    TotalUpdate(s.available, k, st + [img]);
    assert Total(s1.available) == Total(s.available) + Bytes(img);
    forall k' | k' in s1.available ensures StackOk(k', s1.available[k'], s1.inUse, s1.nextId) {
      if k' == k {
        StackOkPush(k, st, s.inUse, s.nextId, img);
      } else {
        StackOkRemove(k', s.available[k'], s.inUse, s.nextId, img);
      }
    }
  }

  /** free(false) leaves only the images in use, accounted for exactly;
      free(true) leaves nothing and a current size of zero. The images
      closed are all available ones and, with freeInUse, those in use. */
  lemma FreeProperties(s: State, freeInUse: bool)
    requires Inv(s)
    ensures var r := Free(s, freeInUse);
      && Inv(r) && r.available == map[] && r.access == [] && AvailableCount(r.available) == 0
      && (freeInUse ==> r.inUse == {} && r.currentSize == 0)
      && (!freeInUse ==> r.inUse == s.inUse && r.currentSize == SetBytes(s.inUse))
      && r.closed == s.closed + ImagesOf(s.available, s.available.Keys) + (if freeInUse then s.inUse else {})
  {
  }
}
