/** Lua tables: an array part and a hash part, updated in place. */
module LuaTableObject {
  import opened Powers
  import opened HashPart
  import opened TableSizes

  const MIN_INT := -2147483648
  const MAX_INT := 2147483647

  /** arrayindex: whole numbers that fit an int, -1 for all other keys. */
  function ArrayIndex(k: Key): int { if k.IntKey? && MIN_INT <= k.n <= MAX_INT then k.n else -1 }

  predicate InArrayPart(k: Key, n: nat) { 1 <= ArrayIndex(k) <= n }

  /** What the two parts hold under a key. */
  ghost function RawOf(nodes: seq<Node>, arr: seq<Value>, k: Key): Value {
    if InArrayPart(k, |arr|) then arr[ArrayIndex(k) - 1] else At(nodes, k)
  }

  /** No key of the hash part belongs into the array part. */
  ghost predicate KeysFit(nodes: seq<Node>, n: nat) {
    forall i :: Keyed(nodes, i) ==> nodes[i].key != NaNKey && !InArrayPart(nodes[i].key, n)
  }

  /** Where a value is stored. */
  datatype Slot = InArray(i: nat) | InNode(i: nat)

  datatype Error = NoError | NilIndex | NaNIndex | Overflow

  ghost function Top(rank: seq<nat>): (t: nat)
    ensures forall i :: 0 <= i < |rank| ==> rank[i] < t
  {
    if rank == [] then 0
    else
      var t := Top(rank[1..]);
      assert forall i :: 1 <= i < |rank| ==> rank[i] == rank[1..][i-1];
      if rank[0] < t then t else rank[0] + 1
  }

  ghost predicate UsedAbove(nodes: seq<Node>, l: int) {
    forall i :: 0 <= i < |nodes| && l <= i ==> Keyed(nodes, i)
  }

  /** The key has come in, at node i, without a value yet. */
  ghost predicate Grown(nodes: seq<Node>, u: seq<Node>, k: Key, i: int) {
    && |u| == |nodes| && Keyed(u, i) && u[i].key == k && KeySet(u) <= KeySet(nodes) + {k}
    && forall x :: At(u, x) == At(nodes, x)
  }

  class Table {
    const hash: Hash
    var node: seq<Node>
    var dummy: bool        // the common node of tables without hash part
    var lastfree: int
    var arr: seq<Value>
    ghost var rank: seq<nat>

    ghost predicate Core()
      reads `node, `dummy, `arr, `rank
    {
      && HashOk(hash, node, rank) && |node| <= MAXASIZE && |arr| <= MAXASIZE && KeysFit(node, |arr|)
      && (dummy ==> node == [FREE])
    }

    /** Every node from l on is in use. */
    ghost predicate UsedFrom(l: int)
      reads `node
    {
      UsedAbove(node, l)
    }

    ghost predicate Valid()
      reads `node, `dummy, `arr, `rank, `lastfree
    {
      Core() && -1 <= lastfree <= |node| && if dummy then lastfree <= 0 else UsedFrom(lastfree)
    }

    ghost function Raw(k: Key): Value
      reads `node, `arr
    {
      RawOf(node, arr, k)
    }

    /** The table as a map of all keys. */
    ghost function Contents(): (m: imap<Key, Value>)
      reads `node, `arr
      ensures forall k :: k in m && m[k] == Raw(k)
    {
      imap k: Key :: Raw(k)
    }

    ghost predicate SlotOf(slot: Slot, k: Key)
      reads `node, `arr
    {
      match slot
      case InArray(i) => i < |arr| && ArrayIndex(k) == i + 1
      case InNode(i) => Keyed(node, i) && node[i].key == k && !InArrayPart(k, |arr|)
    }

    /** There is a place for one more key in the hash part. */
    ghost predicate Room(k: Key)
      requires |node| > 0
      reads `node, `dummy
    {
      !dummy && (node[Main(hash, node, k)].val == Nil || exists i :: 0 <= i < |node| && !Keyed(node, i))
    }

    // ---------- Search ----------

    /** The walk along the chain of the key's main position. */
    method FindNode(k: Key) returns (i: int)
      requires Valid() && k != NilKey
      ensures if i == NULL then !Has(node, k) else Keyed(node, i) && node[i].key == k
    {
      var n: int := Main(hash, node, k);
      while n != NULL
        invariant n == NULL || 0 <= n < |node|
        invariant forall j :: Keyed(node, j) && node[j].key == k ==> Reach(node, n, j)
        decreases if n == NULL then 0 else 1 + Top(rank) - rank[n]
      {
        if node[n].key == k {
          return n;
        }
        ghost var a := n;
        n := node[n].next;
        forall j | Keyed(node, j) && node[j].key == k
          ensures Reach(node, n, j)
        {
          ReachStep(node, a, j);
        }
      }
      forall j | Keyed(node, j) && node[j].key == k
        ensures false
      {
        ReachStep(node, n, j);
      }
      return NULL;
    }

    method FindSlot(k: Key) returns (found: bool, slot: Slot)
      requires Valid()
      ensures found ==> SlotOf(slot, k) && k != NilKey && k != NaNKey
      ensures !found ==> !InArrayPart(k, |arr|) && !Has(node, k)
    {
      slot := InArray(0);
      if k == NilKey {
        return false, slot;
      }
      if InArrayPart(k, |arr|) {
        return true, InArray(ArrayIndex(k) - 1);
      }
      var i := FindNode(k);
      if i == NULL {
        return false, slot;
      }
      return true, InNode(i);
    }

    /** luaH_get. */
    method Get(k: Key) returns (v: Value)
      requires Valid()
      ensures v == Raw(k)
    {
      var found, slot := FindSlot(k);
      if !found {
        return Nil;
      }
      match slot {
        case InArray(i) => v := arr[i];
        case InNode(i) =>
          v := node[i].val;
          AtIs(node, i);
      }
    }

    /** The assignment to a slot that luaH_set has handed out. */
    method Write(slot: Slot, ghost k: Key, v: Value)
      requires Valid() && SlotOf(slot, k)
      modifies `node, `arr
      ensures Valid() && Raw(k) == v && forall x :: x != k ==> Raw(x) == old(Raw(x))
      ensures |node| == |old(node)| && |arr| == |old(arr)| && KeySet(node) == old(KeySet(node))
    {
      match slot {
        case InArray(i) =>
          arr := arr[i := v];
          forall x | x != k
            ensures Raw(x) == old(Raw(x))
          {
            assert ArrayIndex(x) == i + 1 ==> x == k;
          }
        case InNode(i) =>
          ghost var nodes := node;
          node := node[i := node[i].(val := v)];
          WriteOk(hash, nodes, rank, i, v);
      }
    }

    // ---------- Insertion ----------

    /** getfreepos: free nodes are taken from the end. */
    method GetFreePos() returns (n: int)
      requires Valid()
      modifies `lastfree
      ensures -1 <= n < |node| && lastfree == n
      ensures if n == NULL then dummy || forall i :: 0 <= i < |node| ==> Keyed(node, i)
              else !dummy && !Keyed(node, n) && UsedFrom(n + 1)
    {
      hide HashOk, KeysFit;
      while lastfree > 0
        invariant -1 <= lastfree <= |node| && if dummy then lastfree <= 0 else UsedFrom(lastfree)
        decreases lastfree
      {
        lastfree := lastfree - 1;
        if node[lastfree].key == NilKey {
          return lastfree;
        }
      }
      lastfree := -1;
      return NULL;
    }

    /** The key goes into its main position, which holds no value. */
    method PutHere(m: nat, k: Key)
      requires Valid() && !dummy && k != NilKey && k != NaNKey && !Has(node, k) && !InArrayPart(k, |arr|)
      requires m == Main(hash, node, k) && node[m].val == Nil
      modifies `node
      ensures Valid() && Inserted(old(node), k, m)
    {
      assert |node| > 0;
      hide HashOk, KeysFit, Grown, UsedAbove, Has, Main;
      PutGrown(hash, node, rank, m, k, |arr|, lastfree);
      node := node[m := node[m].(key := k)];
      hide *;
      ValidNow();
    }

    /** From before to now the key has come in, at node i, without a value yet. */
    ghost predicate Inserted(before: seq<Node>, k: Key, i: int)
      reads `node
    {
      Grown(before, node, k, i)
    }

    lemma ValidNow()
      requires HashOk(hash, node, rank) && |node| <= MAXASIZE && |arr| <= MAXASIZE && KeysFit(node, |arr|)
      requires !dummy && -1 <= lastfree <= |node| && UsedAbove(node, lastfree)
      ensures Valid()
    {}

    /** The main position is taken by one of its own keys: the new key goes into the free node. */
    method ChainBehind(m: nat, n: nat, k: Key)
      requires Core() && !dummy && k != NilKey && k != NaNKey && !Has(node, k) && !InArrayPart(k, |arr|)
      requires m == Main(hash, node, k) && Owned(hash, node, m) && n < |node| && !Keyed(node, n)
      requires lastfree == n && UsedFrom(n + 1)
      modifies `node, `rank
      ensures Valid() && Inserted(old(node), k, n)
    {
      ghost var u, q := InsertAfter(node, m, n, k), InsertRank(rank, m, n);
      hide HashOk, KeysFit, Grown, UsedAbove, Has, Main, InsertRank, Owned;
      ChainGrown(hash, node, rank, m, n, k, |arr|);
      node := node[n := node[n].(next := node[m].next)];
      node := node[m := node[m].(next := n)];
      node := node[n := node[n].(key := k)];
      assert node == u;
      rank := q;
      hide *;
      ValidNow();
    }

    /** The node that links to m, on the chain of the key that m holds. */
    method FindPrevious(other: nat, m: nat) returns (p: nat)
      requires Core() && Keyed(node, m) && other == Main(hash, node, node[m].key) && other != m
      ensures p < |node| && node[p].next == m && p != m
    {
      p := other;
      while node[p].next != m
        invariant p < |node| && p != m && Reach(node, p, m)
        decreases Top(rank) - rank[p]
      {
        ReachStep(node, p, m);
        ghost var a := p;
        assert Reach(node, node[p].next, m);
        ReachStep(node, node[p].next, m);
        p := node[p].next;
      }
    }

    /** The main position is taken by a key of another: that one moves into the free node. */
    method MoveForeign(m: nat, n: nat, p: nat, k: Key)
      requires Core() && !dummy && k != NilKey && k != NaNKey && !Has(node, k) && !InArrayPart(k, |arr|)
      requires m == Main(hash, node, k) && !Owned(hash, node, m)
      requires MoveReady(node, m, n, p) && lastfree == n && UsedFrom(n + 1)
      modifies `node, `rank
      ensures Valid() && Inserted(old(node), k, m)
    {
      ghost var u, q := MoveAway(node, m, n, p, k), MoveRank(rank, m, n);
      hide HashOk, KeysFit, Grown, UsedAbove, Has, Main, MoveRank, MoveReady, Owned;
      MoveGrown(hash, node, rank, m, n, p, k, |arr|);
      node := node[p := node[p].(next := n)];
      node := node[n := node[m]];
      node := node[m := Node(k, Nil, NULL)];
      assert node == u;
      rank := q;
      hide *;
      ValidNow();
    }

    // ---------- Counting the keys in use ----------

    /** numusearray: the used slots of the array part, slice by slice. */
    method NumUseArray(nums0: seq<int>) returns (nums: seq<int>, ause: nat)
      requires |arr| <= MAXASIZE && Counted(nums0, {})
      ensures Counted(nums, UsedBelow(arr, |arr| + 1)) && ause == |UsedBelow(arr, |arr| + 1)|
    {
      hide Counted, UsedBelow;
      nums, ause := nums0, 0;
      var lg, ttlg, i := 0, 1, 1;
      NoneBelow(arr);
      while lg <= MAXBITS
        invariant 0 <= lg <= MAXBITS + 1 && ttlg == Pow2(lg) && 1 <= i <= |arr| + 1
        invariant lg == 0 ==> i == 1
        invariant lg > 0 ==> i == if Pow2(lg - 1) <= |arr| then Pow2(lg - 1) + 1 else |arr| + 1
        invariant Counted(nums, UsedBelow(arr, i)) && ause == |UsedBelow(arr, i)|
        decreases MAXBITS + 1 - lg
      {
        var lim := ttlg;
        if lim > |arr| {
          lim := |arr|;
          if i > lim {
            break;
          }
        }
        nums, ause, i := NumUseSlice(nums, ause, i, lim, lg);
        lg := lg + 1;
        ttlg := ttlg * 2;
      }
      MaxIs();
    }

    /** The used slots from i to lim, all in slice lg. */
    method NumUseSlice(nums0: seq<int>, ause0: nat, i0: nat, lim: nat, lg: nat) returns (nums: seq<int>, ause: nat, i: nat)
      requires lg <= MAXBITS && 1 <= i0 <= lim + 1 && lim <= |arr| <= MAXASIZE && lim <= Pow2(lg)
      requires lg > 0 ==> Pow2(lg - 1) < i0
      requires Counted(nums0, UsedBelow(arr, i0)) && ause0 == |UsedBelow(arr, i0)|
      ensures i == lim + 1 && Counted(nums, UsedBelow(arr, i)) && ause == |UsedBelow(arr, i)|
    {
      var lc := 0;
      i := i0;
      CountedSize(nums0, UsedBelow(arr, i0));
      assert nums0[lg := nums0[lg] + 0] == nums0;
      hide Counted, UsedBelow, CeilLog2, Pow2;
      while i <= lim
        invariant i0 <= i <= lim + 1
        invariant Counted(nums0[lg := nums0[lg] + lc], UsedBelow(arr, i)) && ause0 + lc == |UsedBelow(arr, i)|
      {
        SliceNext(nums0, lg, lc, arr, i);
        if arr[i-1] != Nil {
          lc := lc + 1;
        }
        i := i + 1;
      }
      nums := nums0[lg := nums0[lg] + lc];
      ause := ause0 + lc;
    }

    /** countint: counts the key when it may live in an array part. */
    method CountInt(k: Key, nums0: seq<int>, ghost ints: set<int>) returns (nums: seq<int>, used: bool)
      requires Counted(nums0, ints) && ArrayIndex(k) !in ints
      ensures used == (1 <= ArrayIndex(k) <= MAXASIZE)
      ensures Counted(nums, ints + IntsOf({k})) && |ints + IntsOf({k})| == |ints| + if used then 1 else 0
    {
      var n := ArrayIndex(k);
      used := 1 <= n <= MAXASIZE;
      IntOf(k);
      if used {
        CountedAdd(nums0, ints, n);
        var log := Log2(n - 1);
        nums := nums0[log + 1 := nums0[log + 1] + 1];
      } else {
        assert ints + {} == ints;
        nums := nums0;
      }
    }

    /** numusehash: the keys with a value in the hash part; ints are those counted before. */
    method NumUseHash(nums0: seq<int>, ghost ints: set<int>) returns (nums: seq<int>, totaluse: nat, ause: nat)
      requires Distinct(node) && Counted(nums0, ints)
      requires forall i :: 0 <= i < |node| ==> (Keyed(node, i) ==> ArrayIndex(node[i].key) !in ints) && (node[i].val != Nil ==> Keyed(node, i))
      ensures Counted(nums, ints + IntsOf(LiveFrom(node, 0))) && |ints + IntsOf(LiveFrom(node, 0))| == |ints| + ause
      ensures totaluse == |LiveFrom(node, 0)|
    {
      hide Counted, LiveFrom, IntsOf;
      nums, totaluse, ause := nums0, 0, 0;
      var i := |node|;
      LiveNone(node, ints);
      while i > 0
        invariant 0 <= i <= |node|
        invariant Counted(nums, ints + IntsOf(LiveFrom(node, i))) && |ints + IntsOf(LiveFrom(node, i))| == |ints| + ause
        invariant totaluse == |LiveFrom(node, i)|
      {
        i := i - 1;
        LiveNext(node, ints, i);
        if node[i].val != Nil {
          var used: bool;
          nums, used := CountInt(node[i].key, nums, ints + IntsOf(LiveFrom(node, i + 1)));
          if used {
            ause := ause + 1;
          }
          totaluse := totaluse + 1;
        }
      }
    }

    // ---------- Setting keys, growing the table ----------

    /** setnodevector: fresh nodes, a power of two of them, all free. */
    method SetNodeVector(size: nat) returns (ok: bool)
      modifies `node, `dummy, `lastfree, `rank
      ensures ok == (size == 0 || CeilLog2(size) <= MAXBITS)
      ensures ok ==> |node| >= size && |node| > 0 && node == seq(|node|, _ => FREE) && dummy == (size == 0)
      ensures ok ==> lastfree == (if dummy then 0 else |node|) && rank == seq(|node|, _ => 0) && (dummy ==> node == [FREE])
      ensures ok && size > 0 ==> |node| == Pow2(CeilLog2(size))
      ensures ok ==> |node| <= MAXASIZE
    {
      if size == 0 {
        node, dummy, lastfree := [FREE], true, 0;
        rank := [0];
        return true;
      }
      var log := Log2(size - 1);
      var lsize := log + 1;
      if lsize > MAXBITS {
        return false;
      }
      CeilLog2Is(size);
      MaxIs();
      Pow2Grows(lsize, MAXBITS);
      var n := Pow2(lsize);
      node, dummy, lastfree := seq(n, _ => FREE), false, n;
      rank := seq(n, _ => 0);
      return true;
    }

    /** luaH_set: the slot of the key, made when there is none.  With room for the key the table
        does not grow; this is what makes the recursion through rehash end. */
    method SetSlot(k: Key, ghost room: bool) returns (err: Error, slot: Slot)
      requires Valid() && (room ==> k != NilKey && k != NaNKey && (InArrayPart(k, |arr|) || Has(node, k) || Room(k)))
      modifies `node, `dummy, `lastfree, `arr, `rank
      ensures err == NilIndex <==> k == NilKey
      ensures err == NaNIndex <==> k == NaNKey
      ensures err == NoError ==> Valid() && SlotOf(slot, k) && forall x :: Raw(x) == old(Raw(x))
      ensures err == Overflow ==> TooMany(old(node), old(arr))
      ensures room ==> err == NoError && |arr| == |old(arr)| && |node| == |old(node)| && dummy == old(dummy)
                       && KeySet(node) <= old(KeySet(node)) + {k}
      decreases if room then 0 else 3, 1
    {
      hide HashOk, KeysFit, KeySet, At, Has, TooMany;
      var found: bool;
      found, slot := FindSlot(k);
      if found {
        return NoError, slot;
      }
      if k == NilKey {
        return NilIndex, slot;
      } else if k == NaNKey {
        return NaNIndex, slot;
      }
      err, slot := NewKey(k, room);
    }

    /** newkey: Brent's variation. */
    method NewKey(k: Key, ghost room: bool) returns (err: Error, slot: Slot)
      requires Valid() && k != NilKey && k != NaNKey && !Has(node, k) && !InArrayPart(k, |arr|)
      requires room ==> Room(k)
      modifies `node, `dummy, `lastfree, `arr, `rank
      ensures err == NoError || (err == Overflow && TooMany(old(node), old(arr)))
      ensures err == NoError ==> Valid() && SlotOf(slot, k) && forall x :: Raw(x) == old(Raw(x))
      ensures room ==> err == NoError && |arr| == |old(arr)| && |node| == |old(node)| && dummy == old(dummy)
                       && KeySet(node) <= old(KeySet(node)) + {k}
      decreases if room then 0 else 3, 0
    {
      MainIn(k);
      ghost var nodes := node;
      var m := Main(hash, node, k);
      hide *;
      if node[m].val == Nil && !dummy {
        PutHere(m, k);
        InsertedSlot(nodes, k, m);
        return NoError, InNode(m);
      }
      var n := GetFreePos();
      if n == NULL {
        NoRoom(k);
        var ok := Rehash(k);
        if !ok {
          return Overflow, InArray(0);
        }
        err, slot := SetSlot(k, true);
        return;
      }
      MainTaken(m);
      var other := Main(hash, node, node[m].key);
      if other != m {
        var p := FindPrevious(other, m);
        MoveIsReady(hash, node, rank, m, n, p);
        MoveForeign(m, n, p, k);
        InsertedSlot(nodes, k, m);
        return NoError, InNode(m);
      } else {
        ChainBehind(m, n, k);
        InsertedSlot(nodes, k, n);
        return NoError, InNode(n);
      }
    }

    lemma MainIn(k: Key)
      requires Valid()
      ensures Core() && |node| > 0
    {}

    /** With every node in use there is no room. */
    lemma NoRoom(k: Key)
      requires Valid() && |node| > 0 && (node[Main(hash, node, k)].val == Nil ==> dummy)
      requires dummy || forall i :: 0 <= i < |node| ==> Keyed(node, i)
      ensures !Room(k)
    {}

    /** A node with a value has a key, and is owned exactly when it is the main position of its key. */
    lemma MainTaken(m: nat)
      requires Core() && m < |node| && node[m].val != Nil
      ensures Keyed(node, m) && (Owned(hash, node, m) <==> Main(hash, node, node[m].key) == m)
    {}

    lemma InsertedSlot(before: seq<Node>, k: Key, i: nat)
      requires Valid() && Inserted(before, k, i) && !InArrayPart(k, |arr|)
      ensures SlotOf(InNode(i), k) && forall x :: Raw(x) == RawOf(before, arr, x)
      ensures |node| == |before| && KeySet(node) <= KeySet(before) + {k}
    {
      hide HashOk, KeysFit, KeySet, At;
    }

    /** rehash: counts the keys in use and the new one, and resizes so that it has room. */
    method Rehash(k: Key) returns (ok: bool)
      requires Core() && k != NilKey && k != NaNKey && !Has(node, k) && !InArrayPart(k, |arr|)
      modifies `node, `dummy, `lastfree, `arr, `rank
      ensures ok ==> Valid() && (InArrayPart(k, |arr|) || Room(k)) && forall x :: Raw(x) == old(Raw(x))
      ensures ok ==> BestSize(KeysInUse(old(node), old(arr), k), |arr|)
      ensures !ok ==> TooMany(old(node), old(arr))
      decreases 2
    {
      hide Separate, HashOk, KeysFit, KeySet, At, Has, Counted, BestSize, LiveFrom, IntsOf, UsedBelow, Distinct, KeysInUse, Outside,
        UsedKeys, Count, LiveAre, FreeEmpty, Indices, InArrayPart, CeilLog2, TooMany;
      SeparateNow(hash, node, rank, arr, k);
      SeparateParts(node, arr, k);
      var nums, nasize, totaluse := CountKeys(k);
      ghost var ints := KeysInUse(node, arr, k);
      UsedIndices(node, arr, k);
      var n, na := ComputeSizes(nums, nasize, ints);
      BestBound(ints, n);
      HashShare(node, arr, k, n);
      ghost var live := Outside(UsedKeys(node, arr), n);
      UsedAre(node, arr, n);
      NotLive(node, arr, k, n, live);
      NeedBound(node, arr, k, n, totaluse - na);
      ok := Resize(n, totaluse - na, live);
      if ok && !InArrayPart(k, |arr|) {
        RoomLeft(hash, node, rank, live, k);
      }
    }

    lemma CountReady(k: Key)
      requires Separate(node, arr, k)
      ensures |arr| <= MAXASIZE && Distinct(node)
      ensures forall i :: 0 <= i < |node| ==>
        (Keyed(node, i) ==> ArrayIndex(node[i].key) !in UsedBelow(arr, |arr| + 1)) && (node[i].val != Nil ==> Keyed(node, i))
    {}

    /** The keys in use: their slices, how many there are, and how many may live in an array part. */
    method CountUsed(ghost k: Key) returns (nums: seq<int>, nasize: nat, totaluse: nat)
      requires Separate(node, arr, k)
      ensures Counted(nums, UsedBelow(arr, |arr| + 1) + IntsOf(LiveFrom(node, 0)))
      ensures nasize == |UsedBelow(arr, |arr| + 1) + IntsOf(LiveFrom(node, 0))|
      ensures totaluse == |UsedBelow(arr, |arr| + 1)| + |LiveFrom(node, 0)|
    {
      nums := seq(MAXBITS + 1, _ => 0);
      CountedNone(nums);
      CountReady(k);
      hide *;
      nums, nasize := NumUseArray(nums);
      var n, hused: nat;
      nums, n, hused := NumUseHash(nums, UsedBelow(arr, |arr| + 1));
      totaluse := nasize + n;
      nasize := nasize + hused;
    }

    /** The first half of rehash: the keys in use and the new one. */
    method CountKeys(k: Key) returns (nums: seq<int>, nasize: nat, totaluse: nat)
      requires Separate(node, arr, k)
      ensures Counted(nums, KeysInUse(node, arr, k)) && nasize == |KeysInUse(node, arr, k)|
      ensures totaluse == |UsedBelow(arr, |arr| + 1)| + |LiveFrom(node, 0)| + 1
    {
      hide *;
      ghost var ints := UsedBelow(arr, |arr| + 1) + IntsOf(LiveFrom(node, 0));
      NewIndex(node, arr, k);
      UsedIs(node, arr, k, ints);
      nums, nasize, totaluse := CountUsed(k);
      var used: bool;
      nums, used := CountInt(k, nums, ints);
      if used {
        nasize := nasize + 1;
      }
      totaluse := totaluse + 1;
    }

    /** resize: the parts get new sizes, and every key in use is put in again. */
    method Resize(nasize: nat, nhsize: nat, ghost live: set<Key>) returns (ok: bool)
      requires Core() && nasize <= MAXASIZE && LiveAre(node, arr, nasize, live) && |live| <= nhsize
      modifies `node, `dummy, `lastfree, `arr, `rank
      ensures ok == (nhsize == 0 || CeilLog2(nhsize) <= MAXBITS)
      ensures ok ==> Valid() && |arr| == nasize && KeySet(node) <= live && |node| >= nhsize && dummy == (nhsize == 0)
      ensures ok ==> forall x :: Raw(x) == old(Raw(x))
      decreases 1
    {
      hide HashOk, KeysFit, KeySet, At, Has, Distinct, LiveAre, SoFar, CeilLog2;
      CoreNow(hash, node, rank, arr);
      var nold, aold := node, arr;
      if nasize > |arr| {
        arr := arr + seq(nasize - |arr|, _ => Nil);
      }
      ok := SetNodeVector(nhsize);
      if !ok {
        return;
      }
      FreshOk(hash, node, rank, nasize);
      ghost var low := if nasize < |aold| then nasize else |aold|;
      if nasize < |aold| {
        arr := arr[..nasize];
      }
      StartOver(node, arr, nold, aold, nasize);
      var i := nasize;
      while i < |aold|
        invariant nasize <= i && (i <= |aold| || i == nasize)
        invariant Valid() && |arr| == nasize && |node| >= nhsize && dummy == (nhsize == 0) && KeySet(node) <= live
        invariant forall x :: Raw(x) == if SoFar(nold, aold, if i < |aold| then i else |aold|, |nold|, x) then RawOf(nold, aold, x) else Nil
      {
        ArrayStep(nold, aold, i, nasize, live);
        if aold[i] != Nil {
          Reinsert(IntKey(i + 1), aold[i], live);
        }
        i := i + 1;
      }
      ReinsertNodes(nold, aold, nasize, nhsize, live);
    }

    /** The loop of resize over the old hash part, from its end. */
    method ReinsertNodes(nold: seq<Node>, aold: seq<Value>, nasize: nat, ghost nhsize: nat, ghost live: set<Key>)
      requires Valid() && |arr| == nasize && |node| >= nhsize && dummy == (nhsize == 0) && KeySet(node) <= live
      requires Distinct(nold) && KeysFit(nold, |aold|) && |aold| <= MAXASIZE
      requires LiveAre(nold, aold, nasize, live) && |live| <= nhsize && nasize <= MAXASIZE
      requires forall x :: Raw(x) == if SoFar(nold, aold, |aold|, |nold|, x) then RawOf(nold, aold, x) else Nil
      requires forall j :: 0 <= j < |nold| && nold[j].val != Nil ==> Keyed(nold, j)
      modifies `node, `dummy, `lastfree, `arr, `rank
      ensures Valid() && |arr| == nasize && |node| >= nhsize && dummy == (nhsize == 0) && KeySet(node) <= live
      ensures forall x :: Raw(x) == RawOf(nold, aold, x)
      decreases 1, 0
    {
      hide HashOk, KeysFit, KeySet, At, Has, Distinct, LiveAre, SoFar;
      var i := |nold|;
      while i > 0
        invariant 0 <= i <= |nold|
        invariant Valid() && |arr| == nasize && |node| >= nhsize && dummy == (nhsize == 0) && KeySet(node) <= live
        invariant forall x :: Raw(x) == if SoFar(nold, aold, |aold|, i, x) then RawOf(nold, aold, x) else Nil
      {
        i := i - 1;
        NodeStep(nold, aold, i, nasize, live);
        if nold[i].val != Nil {
          Reinsert(nold[i].key, nold[i].val, live);
        }
      }
      AllBack(nold, aold);
    }

    /** setobj on the slot luaH_set returns: the keys to put in are counted, so there is room. */
    method Reinsert(k: Key, v: Value, ghost live: set<Key>)
      requires Valid() && k != NilKey && k != NaNKey && KeySet(node) <= live && |live| <= |node| && (live != {} ==> !dummy)
      requires InArrayPart(k, |arr|) || k in live
      modifies `node, `dummy, `lastfree, `arr, `rank
      ensures Valid() && Raw(k) == v && forall x :: x != k ==> Raw(x) == old(Raw(x))
      ensures |arr| == |old(arr)| && |node| == |old(node)| && dummy == old(dummy) && KeySet(node) <= live
      decreases 0, 2
    {
      if !InArrayPart(k, |arr|) {
        RoomIn(hash, node, rank, live, k);
      }
      hide HashOk, KeysFit, KeySet, At, Has;
      var err, slot := SetSlot(k, true);
      Write(slot, k, v);
    }

    /** lua_rawset and the like. */
    method Set(k: Key, v: Value) returns (err: Error)
      requires Valid()
      modifies `node, `dummy, `lastfree, `arr, `rank
      ensures err == NilIndex <==> k == NilKey
      ensures err == NaNIndex <==> k == NaNKey
      ensures err == NoError ==> Valid() && Raw(k) == v && forall x :: x != k ==> Raw(x) == old(Raw(x))
      ensures err == Overflow ==> TooMany(old(node), old(arr))
    {
      hide HashOk, KeysFit, KeySet, At, Has, TooMany;
      var slot: Slot;
      err, slot := SetSlot(k, false);
      if err == NoError {
        Write(slot, k, v);
      }
    }

    /** luaH_new. */
    constructor (h: Hash, narray: nat, nhash: nat)
      requires narray <= MAXASIZE && (nhash == 0 || CeilLog2(nhash) <= MAXBITS)
      ensures Valid() && |arr| == narray && |node| >= nhash && forall k :: Raw(k) == Nil
    {
      hash := h;
      arr := seq(narray, _ => Nil);
      node, dummy, lastfree, rank := [FREE], true, 0, [0];
      new;
      var ok := SetNodeVector(nhash);
      FreshOk(hash, node, rank, narray);
      hide HashOk, KeysFit, At;
    }

    // ---------- Traversal ----------

    /** Keys in the order of a traversal: the array part, then the nodes. */
    ghost function KeyAt(j: int): Key
      requires 0 <= j < |arr| + |node|
      reads `node, `arr
    {
      if j < |arr| then IntKey(j + 1) else node[j - |arr|].key
    }

    ghost function ValAt(j: int): Value
      requires 0 <= j < |arr| + |node|
      reads `node, `arr
    {
      if j < |arr| then arr[j] else node[j - |arr|].val
    }

    /** Where a key stands in the traversal; nil stands before all. */
    ghost predicate StandsAt(k: Key, j: int)
      reads `node, `arr
    {
      if k == NilKey then j == -1 else 0 <= j < |arr| + |node| && KeyAt(j) == k
    }

    lemma StandsOnce(k: Key, a: int, b: int)
      requires Core() && StandsAt(k, a) && StandsAt(k, b)
      ensures a == b
    {}

    /** findindex; a key that is not in the table is an error. */
    method FindIndex(k: Key) returns (found: bool, i: int)
      requires Valid()
      ensures found ==> StandsAt(k, i)
      ensures !found ==> k != NilKey && !InArrayPart(k, |arr|) && !Has(node, k)
    {
      hide HashOk, KeysFit, Has;
      if k == NilKey {
        return true, -1;
      }
      if InArrayPart(k, |arr|) {
        return true, ArrayIndex(k) - 1;
      }
      i := FindNode(k);
      if i == NULL {
        return false, i;
      }
      return true, i + |arr|;
    }

    /** luaH_next: the first place behind the key that has a value. */
    method Next(k: Key) returns (known: bool, more: bool, key: Key, val: Value, ghost i: int, ghost j: int)
      requires Valid()
      ensures known ==> StandsAt(k, i)
      ensures known && more ==> i < j < |arr| + |node| && val == ValAt(j) != Nil && key == KeyAt(j)
      ensures known && more ==> forall l :: i < l < j ==> ValAt(l) == Nil
      ensures known && !more ==> forall l :: i < l < |arr| + |node| ==> ValAt(l) == Nil
      ensures !known ==> k != NilKey && !InArrayPart(k, |arr|) && !Has(node, k)
    {
      hide HashOk, KeysFit;
      var at: int;
      known, at := FindIndex(k);
      i, j, more, key, val := at, at, false, k, Nil;
      if !known {
        return;
      }
      at := at + 1;
      while at < |arr|
        invariant i < at && (at <= |arr| || at == i + 1)
        invariant forall l :: i < l < at && l < |arr| ==> ValAt(l) == Nil
      {
        if arr[at] != Nil {
          j := at;
          return true, true, IntKey(at + 1), arr[at], i, j;
        }
        at := at + 1;
      }
      at := at - |arr|;
      while at < |node|
        invariant 0 <= at && i < at + |arr|
        invariant forall l :: i < l < at + |arr| && l < |arr| + |node| ==> ValAt(l) == Nil
      {
        if node[at].val != Nil {
          j := at + |arr|;
          return true, true, node[at].key, node[at].val, i, j;
        }
        at := at + 1;
      }
    }

    /** What the value at a place says about its key. */
    lemma ValIs(j: int)
      requires Core() && 0 <= j < |arr| + |node| && ValAt(j) != Nil
      ensures KeyAt(j) != NilKey && Raw(KeyAt(j)) == ValAt(j)
    {
      if j >= |arr| {
        AtIs(node, j - |arr|);
      }
    }

    lemma RawStands(k: Key) returns (j: int)
      requires Core() && Raw(k) != Nil
      ensures 0 <= j < |arr| + |node| && KeyAt(j) == k && ValAt(j) == Raw(k)
    {
      hide HashOk, KeysFit;
      if InArrayPart(k, |arr|) {
        j := ArrayIndex(k) - 1;
      } else {
        var i :| Keyed(node, i) && node[i].key == k;
        DistinctNow(hash, node, rank);
        hide Distinct;
        AtIs(node, i);
        j := i + |arr|;
      }
    }

    /** The keys listed are those with a value up to a place, each once. */
    ghost predicate Listed(keys: seq<Key>, at: int)
      reads `node, `arr
    {
      && -1 <= at < |arr| + |node|
      && (forall l :: 0 <= l <= at && ValAt(l) != Nil ==> KeyAt(l) in keys)
      && (forall x :: x in keys ==> exists l :: 0 <= l <= at && KeyAt(l) == x && ValAt(l) != Nil)
      && forall a, b :: 0 <= a < b < |keys| ==> keys[a] != keys[b]
    }

    lemma ListedMore(keys: seq<Key>, at: int, j: int)
      requires Core() && Listed(keys, at) && at < j < |arr| + |node| && ValAt(j) != Nil
      requires forall l :: at < l < j ==> ValAt(l) == Nil
      ensures Listed(keys + [KeyAt(j)], j) && StandsAt(KeyAt(j), j)
    {
      NewAt(keys, at, j);
      ValIs(j);
      hide HashOk, KeysFit;
      var more := keys + [KeyAt(j)];
      assert forall x :: x in more <==> x in keys || x == KeyAt(j);
      forall x | x in more
        ensures exists l :: 0 <= l <= j && KeyAt(l) == x && ValAt(l) != Nil
      {
        if x in keys {
          var l :| 0 <= l <= at && KeyAt(l) == x && ValAt(l) != Nil;
          assert 0 <= l <= j;
        }
      }
    }

    lemma ListedAll(keys: seq<Key>, at: int)
      requires Core() && Listed(keys, at) && forall l :: at < l < |arr| + |node| ==> ValAt(l) == Nil
      ensures forall k :: k in keys <==> Raw(k) != Nil
    {
      forall x
        ensures x in keys <==> Raw(x) != Nil
      {
        if x in keys {
          var l :| 0 <= l <= at && KeyAt(l) == x && ValAt(l) != Nil;
          ValIs(l);
        }
        if Raw(x) != Nil {
          var l := RawStands(x);
        }
      }
    }

    /** The loop of every traversal: the keys with a value, each exactly once. */
    method Pairs() returns (keys: seq<Key>)
      requires Valid()
      ensures forall k :: k in keys <==> Raw(k) != Nil
      ensures forall a, b :: 0 <= a < b < |keys| ==> keys[a] != keys[b]
    {
      hide HashOk, KeysFit, Has, RawOf;
      keys := [];
      var k := NilKey;
      ghost var at := -1;
      var more := true;
      while more
        invariant Listed(keys, at) && (more ==> StandsAt(k, at))
        invariant !more ==> forall l :: at < l < |arr| + |node| ==> ValAt(l) == Nil
        decreases |arr| + |node| - at, more
      {
        StandsKnown(k, at);
        var known, key, val;
        ghost var i, j;
        known, more, key, val, i, j := Next(k);
        StandsOnce(k, i, at);
        if more {
          ListedMore(keys, at, j);
          keys := keys + [key];
          k, at := key, j;
        }
      }
      ListedAll(keys, at);
    }

    lemma StandsKnown(k: Key, at: int)
      requires Core() && StandsAt(k, at)
      ensures k == NilKey || InArrayPart(k, |arr|) || Has(node, k)
    {
      if k != NilKey && at >= |arr| {
        assert Keyed(node, at - |arr|);
      }
    }

    /** A key behind all those listed is not yet listed. */
    lemma NewAt(keys: seq<Key>, at: int, j: int)
      requires Core() && at < j < |arr| + |node| && 0 <= j && ValAt(j) != Nil
      requires forall x :: x in keys ==> exists l :: 0 <= l <= at && KeyAt(l) == x && ValAt(l) != Nil
      ensures KeyAt(j) !in keys
    {
      if KeyAt(j) in keys {
        var l :| 0 <= l <= at && KeyAt(l) == KeyAt(j) && ValAt(l) != Nil;
        ValIs(j);
        StandsOnce(KeyAt(j), l, j);
      }
    }

    // ---------- Length ----------

    ghost predicate Present(n: int)
      reads `node, `arr
    {
      Raw(IntKey(n)) != Nil
    }

    /** A boundary: n is zero or present, and n + 1 is not. */
    ghost predicate Border(n: int)
      reads `node, `arr
    {
      n >= 0 && (n == 0 || Present(n)) && !Present(n + 1)
    }

    /** luaH_getnum. */
    method IsNil(n: int) returns (absent: bool)
      requires Valid()
      ensures absent == !Present(n)
    {
      var v := Get(IntKey(n));
      absent := v == Nil;
    }

    /** unbound_search. */
    method UnboundSearch(j0: nat) returns (n: int)
      requires Valid() && j0 <= MAXASIZE && (j0 == 0 || Present(j0))
      ensures Border(n)
    {
      hide HashOk, KeysFit, RawOf;
      var i, j := j0, j0 + 1;
      var absent := IsNil(j);
      while !absent
        invariant 0 <= i < j <= MAX_INT && (i == 0 || Present(i)) && absent == !Present(j)
        decreases MAX_INT - j
      {
        i := j;
        j := j * 2;
        if j > MAX_INT {
          n := LinearSearch();
          return;
        }
        absent := IsNil(j);
      }
      while j - i > 1
        invariant 0 <= i < j && (i == 0 || Present(i)) && !Present(j)
        decreases j - i
      {
        var m := (i + j) / 2;
        absent := IsNil(m);
        if absent {
          j := m;
        } else {
          i := m;
        }
      }
      n := i;
    }

    /** The last resort when doubling would overflow. */
    method LinearSearch() returns (n: int)
      requires Valid()
      ensures Border(n)
    {
      hide HashOk, KeysFit, RawOf;
      var i: nat := 1;
      var absent := IsNil(i);
      FirstBound(0);
      while !absent
        invariant 1 <= i <= |arr| + |node| + 1 && absent == !Present(i)
        invariant forall x :: 1 <= x < i ==> Present(x)
        decreases |arr| + |node| + 1 - i
      {
        FirstBound(i);
        i := i + 1;
        absent := IsNil(i);
      }
      n := i - 1;
      assert n > 0 ==> Present(n);
      assert !Present(n + 1);
    }

    /** Only so many of the first numbers can be present. */
    lemma FirstBound(i: nat)
      requires Core() && forall x :: 1 <= x <= i ==> Present(x)
      ensures i <= |arr| + |node|
    {
      ghost var keys := set x | 1 <= x <= i :: IntKey(x);
      FirstKeys(i);
      PlacesBound(node, arr);
      hide RawOf, HashOk, KeysFit;
      assert keys <= UsedKeys(node, arr) by {
        forall x: nat | 1 <= x <= i
          ensures IntKey(x) in UsedKeys(node, arr)
        {
          assert Present(x);
          PresentUsed(hash, node, rank, arr, IntKey(x));
        }
      }
      Subset(keys, UsedKeys(node, arr));
    }

    /** luaH_getn. */
    method GetN() returns (n: int)
      requires Valid()
      ensures Border(n)
    {
      var j := |arr|;
      if j > 0 && arr[j-1] == Nil {
        var i := 0;
        while j - i > 1
          invariant 0 <= i < j <= |arr| && arr[j-1] == Nil && (i > 0 ==> arr[i-1] != Nil)
        {
          var m := (i + j) / 2;
          if arr[m-1] == Nil {
            j := m;
          } else {
            i := m;
          }
        }
        return i;
      } else if dummy {
        return j;
      } else {
        n := UnboundSearch(j);
      }
    }
  }

  // ---------- Sets of keys in use ----------

  predicate UsedAt(arr: seq<Value>, i: int) { 1 <= i <= |arr| && arr[i-1] != Nil }

  ghost function UsedBelow(arr: seq<Value>, n: int): set<int> { set i | 1 <= i < n && UsedAt(arr, i) }

  /** The keys with a value in nodes from i on. */
  ghost function LiveFrom(nodes: seq<Node>, i: int): set<Key> {
    set j | i <= j && 0 <= j < |nodes| && Keyed(nodes, j) && nodes[j].val != Nil :: nodes[j].key
  }

  ghost function IntsOf(keys: set<Key>): set<int> {
    set k | k in keys && InArrayPart(k, MAXASIZE) :: ArrayIndex(k)
  }

  lemma NoneBelow(arr: seq<Value>)
    ensures UsedBelow(arr, 1) == {}
  {}

  lemma NextBelow(arr: seq<Value>, i: nat)
    requires 1 <= i <= |arr|
    ensures UsedBelow(arr, i + 1) == if arr[i-1] != Nil then UsedBelow(arr, i) + {i as int} else UsedBelow(arr, i)
    ensures i !in UsedBelow(arr, i)
  {}

  /** One more slot of slice lg looked at, lc of it used before. */
  lemma SliceNext(nums: seq<int>, lg: nat, lc: nat, arr: seq<Value>, i: nat)
    requires lg <= MAXBITS < |nums| && 1 <= i <= |arr| <= MAXASIZE && i <= Pow2(lg) && (lg > 0 ==> Pow2(lg - 1) < i)
    requires Counted(nums[lg := nums[lg] + lc], UsedBelow(arr, i))
    ensures var n := if arr[i-1] != Nil then 1 else 0;
      && Counted(nums[lg := nums[lg] + (lc + n)], UsedBelow(arr, i + 1)) && |UsedBelow(arr, i + 1)| == |UsedBelow(arr, i)| + n
  {
    NextBelow(arr, i);
    hide Counted, UsedBelow, Pow2;
    if arr[i-1] != Nil {
      SliceIs(i, lg);
      CountedAdd(nums[lg := nums[lg] + lc], UsedBelow(arr, i), i);
      assert nums[lg := nums[lg] + lc][lg := nums[lg] + lc + 1] == nums[lg := nums[lg] + (lc + 1)];
    }
  }

  lemma CountedSize(nums: seq<int>, keys: set<int>)
    requires Counted(nums, keys)
    ensures |nums| == MAXBITS + 1
  {}

  lemma IntOf(k: Key)
    ensures IntsOf({k}) == if InArrayPart(k, MAXASIZE) then {ArrayIndex(k)} else {}
  {
    assert k in {k};
  }

  lemma LiveNone(nodes: seq<Node>, ints: set<int>)
    ensures LiveFrom(nodes, |nodes|) == {} && IntsOf({}) == {} && ints + IntsOf(LiveFrom(nodes, |nodes|)) == ints
  {}

  /** An array index determines its key. */
  lemma IndexOnce(a: Key, b: Key)
    requires InArrayPart(a, MAXASIZE) && ArrayIndex(a) == ArrayIndex(b)
    ensures a == b
  {}

  lemma LiveNext(nodes: seq<Node>, ints: set<int>, i: nat)
    requires i < |nodes| && Distinct(nodes) && (Keyed(nodes, i) ==> ArrayIndex(nodes[i].key) !in ints)
    requires nodes[i].val != Nil ==> Keyed(nodes, i)
    ensures nodes[i].val == Nil ==> LiveFrom(nodes, i) == LiveFrom(nodes, i + 1)
    ensures nodes[i].val != Nil ==>
      && nodes[i].key !in LiveFrom(nodes, i + 1) && LiveFrom(nodes, i) == LiveFrom(nodes, i + 1) + {nodes[i].key}
      && ArrayIndex(nodes[i].key) !in ints + IntsOf(LiveFrom(nodes, i + 1))
      && ints + IntsOf(LiveFrom(nodes, i)) == ints + IntsOf(LiveFrom(nodes, i + 1)) + IntsOf({nodes[i].key})
  {
    var k := nodes[i].key;
    LiveStep(nodes, i);
    if nodes[i].val != Nil {
      var s := LiveFrom(nodes, i + 1);
      assert IntsOf(s + {k}) == IntsOf(s) + IntsOf({k}) by { IntsJoin(s, {k}); }
      if ArrayIndex(k) in IntsOf(s) {
        var x :| x in s && InArrayPart(x, MAXASIZE) && ArrayIndex(x) == ArrayIndex(k);
        IndexOnce(x, k);
      }
    }
  }

  lemma LiveStep(nodes: seq<Node>, i: nat)
    requires i < |nodes| && Distinct(nodes) && (nodes[i].val != Nil ==> Keyed(nodes, i))
    ensures LiveFrom(nodes, i) == if nodes[i].val == Nil then LiveFrom(nodes, i + 1) else LiveFrom(nodes, i + 1) + {nodes[i].key}
    ensures nodes[i].val != Nil ==> nodes[i].key !in LiveFrom(nodes, i + 1)
  {}

  lemma IntsJoin(a: set<Key>, b: set<Key>)
    ensures IntsOf(a + b) == IntsOf(a) + IntsOf(b)
  {
    forall n | n in IntsOf(a) + IntsOf(b)
      ensures n in IntsOf(a + b)
    {
      var k :| (k in a || k in b) && InArrayPart(k, MAXASIZE) && ArrayIndex(k) == n;
      assert k in a + b;
    }
  }

  // ---------- Resizing ----------

  /** The integer keys that count for the array part: those in use and the new one. */
  ghost function KeysInUse(nodes: seq<Node>, arr: seq<Value>, k: Key): set<int> {
    UsedBelow(arr, |arr| + 1) + IntsOf(LiveFrom(nodes, 0)) + IntsOf({k})
  }

  ghost function ArrayKeys(arr: seq<Value>): set<Key> { set i | i in UsedBelow(arr, |arr| + 1) :: IntKey(i) }

  ghost function UsedKeys(nodes: seq<Node>, arr: seq<Value>): set<Key> { ArrayKeys(arr) + LiveFrom(nodes, 0) }

  ghost function Outside(s: set<Key>, n: nat): set<Key> { set x | x in s && !InArrayPart(x, n) }

  ghost function Inside(s: set<Key>, n: nat): set<Key> { set x | x in s && InArrayPart(x, n) }

  /** The keys with a value that have no place in an array part of size n. */
  ghost predicate LiveAre(nodes: seq<Node>, arr: seq<Value>, n: nat, live: set<Key>) {
    forall x :: x in live <==> RawOf(nodes, arr, x) != Nil && !InArrayPart(x, n)
  }

  /** Keys already put in again: array slots below i, nodes from j on. */
  ghost predicate SoFar(nold: seq<Node>, aold: seq<Value>, i: nat, j: nat, x: Key) {
    InArrayPart(x, i) || exists l :: j <= l < |nold| && Keyed(nold, l) && nold[l].key == x
  }

  lemma FreshIndex(t: set<Key>, x: Key)
    requires x !in t && InArrayPart(x, MAXASIZE)
    ensures ArrayIndex(x) !in IntsOf(t)
  {
    forall y | y in t && InArrayPart(y, MAXASIZE)
      ensures ArrayIndex(y) != ArrayIndex(x)
    {
      if ArrayIndex(y) == ArrayIndex(x) {
        IndexOnce(y, x);
      }
    }
  }

  lemma InsideOne(t: set<Key>, x: Key, n: nat)
    requires x !in t && n <= MAXASIZE && |Inside(t, n)| == Count(IntsOf(t), n)
    ensures |Inside(t + {x}, n)| == Count(IntsOf(t + {x}), n)
  {
    var s := t + {x};
    IntsJoin(t, {x});
    IntOf(x);
    assert Inside(s, n) == if InArrayPart(x, n) then Inside(t, n) + {x} else Inside(t, n);
    if InArrayPart(x, MAXASIZE) {
      FreshIndex(t, x);
      hide IntsOf, Count;
      CountAdd(IntsOf(t), ArrayIndex(x), n);
    } else {
      assert IntsOf(s) == IntsOf(t);
    }
  }

  lemma {:induction false} InsideSize(s: set<Key>, n: nat)
    requires n <= MAXASIZE
    ensures |Inside(s, n)| == Count(IntsOf(s), n)
    decreases |s|
  {
    if s == {} {
      assert Inside(s, n) == {};
      CountGrows(IntsOf(s), n, n);
    } else {
      var x :| x in s;
      var t := s - {x};
      assert s == t + {x};
      InsideSize(t, n);
      InsideOne(t, x, n);
    }
  }

  lemma SplitSize(s: set<Key>, n: nat)
    ensures |Outside(s, n)| + |Inside(s, n)| == |s|
  {
    assert s == Outside(s, n) + Inside(s, n);
  }

  lemma ArrayKeysAre(arr: seq<Value>)
    requires |arr| <= MAXASIZE
    ensures IntsOf(ArrayKeys(arr)) == UsedBelow(arr, |arr| + 1) && |ArrayKeys(arr)| == |UsedBelow(arr, |arr| + 1)|
  {
    var a, s := UsedBelow(arr, |arr| + 1), ArrayKeys(arr);
    forall i | i in a
      ensures i in IntsOf(s)
    {
      assert IntKey(i) in s && InArrayPart(IntKey(i), MAXASIZE);
    }
    assert IntsOf(s) == a;
    InsideSize(s, MAXASIZE);
    assert Inside(s, MAXASIZE) == s;
    CountAll(a, MAXASIZE);
  }

  /** Free nodes hold no value. */
  ghost predicate FreeEmpty(nodes: seq<Node>) {
    forall j :: 0 <= j < |nodes| && nodes[j].val != Nil ==> Keyed(nodes, j)
  }

  /** The new key is in neither part, and no key is in both. */
  ghost predicate Separate(nodes: seq<Node>, arr: seq<Value>, k: Key) {
    Distinct(nodes) && KeysFit(nodes, |arr|) && |arr| <= MAXASIZE && FreeEmpty(nodes) && !Has(nodes, k) && !InArrayPart(k, |arr|)
  }

  lemma UsedDisjoint(nodes: seq<Node>, arr: seq<Value>, k: Key)
    requires Separate(nodes, arr, k)
    ensures ArrayKeys(arr) !! LiveFrom(nodes, 0) && k !in UsedKeys(nodes, arr)
  {
    forall x | x in ArrayKeys(arr)
      ensures InArrayPart(x, |arr|)
    {
      var i :| i in UsedBelow(arr, |arr| + 1) && IntKey(i) == x;
    }
  }

  lemma NewIndex(nodes: seq<Node>, arr: seq<Value>, k: Key)
    requires Separate(nodes, arr, k)
    ensures ArrayIndex(k) !in UsedBelow(arr, |arr| + 1) + IntsOf(LiveFrom(nodes, 0))
    ensures forall i :: Keyed(nodes, i) ==> ArrayIndex(nodes[i].key) !in UsedBelow(arr, |arr| + 1)
  {
    if ArrayIndex(k) in IntsOf(LiveFrom(nodes, 0)) {
      var x :| x in LiveFrom(nodes, 0) && InArrayPart(x, MAXASIZE) && ArrayIndex(x) == ArrayIndex(k);
      IndexOnce(x, k);
    }
  }

  lemma UsedIndices(nodes: seq<Node>, arr: seq<Value>, k: Key)
    requires |arr| <= MAXASIZE
    ensures Indices(KeysInUse(nodes, arr, k))
    ensures KeysInUse(nodes, arr, k) == UsedBelow(arr, |arr| + 1) + IntsOf(LiveFrom(nodes, 0)) + IntsOf({k})
  {}

  lemma UsedIs(nodes: seq<Node>, arr: seq<Value>, k: Key, ints: set<int>)
    requires ints == UsedBelow(arr, |arr| + 1) + IntsOf(LiveFrom(nodes, 0))
    ensures KeysInUse(nodes, arr, k) == ints + IntsOf({k})
  {}

  lemma BestBound(keys: set<int>, n: nat)
    requires BestSize(keys, n)
    ensures n <= MAXASIZE
  {
    MaxIs();
    if n > 0 {
      var i :| 0 <= i <= MAXBITS && n == Pow2(i);
      Pow2Grows(i, MAXBITS);
    }
  }

  lemma UsedSize(nodes: seq<Node>, arr: seq<Value>, k: Key)
    requires Separate(nodes, arr, k)
    ensures |UsedKeys(nodes, arr) + {k}| == |UsedBelow(arr, |arr| + 1)| + |LiveFrom(nodes, 0)| + 1
    ensures IntsOf(UsedKeys(nodes, arr) + {k}) == KeysInUse(nodes, arr, k)
  {
    UsedDisjoint(nodes, arr, k);
    assert |arr| <= MAXASIZE;
    hide Separate, UsedBelow, LiveFrom, ArrayKeys, IntsOf, Has, KeysFit, Distinct;
    ArrayKeysAre(arr);
    UnionSize(ArrayKeys(arr), LiveFrom(nodes, 0), k);
    IntsJoin(ArrayKeys(arr), LiveFrom(nodes, 0));
    IntsJoin(UsedKeys(nodes, arr), {k});
  }

  lemma UnionSize(a: set<Key>, b: set<Key>, k: Key)
    requires a !! b && k !in a + b
    ensures |a + b + {k}| == |a| + |b| + 1
  {}

  lemma OutsideAdd(s: set<Key>, k: Key, n: nat)
    requires k !in s
    ensures |Outside(s + {k}, n)| == |Outside(s, n)| + if InArrayPart(k, n) then 0 else 1
  {
    assert Outside(s + {k}, n) == if InArrayPart(k, n) then Outside(s, n) else Outside(s, n) + {k};
  }

  /** What is left for the hash part is exactly what the sizes leave it. */
  lemma HashShare(nodes: seq<Node>, arr: seq<Value>, k: Key, n: nat)
    requires Separate(nodes, arr, k) && n <= MAXASIZE
    ensures |Outside(UsedKeys(nodes, arr), n)| + (if InArrayPart(k, n) then 0 else 1) ==
            |UsedBelow(arr, |arr| + 1)| + |LiveFrom(nodes, 0)| + 1 - Count(KeysInUse(nodes, arr, k), n)
  {
    UsedDisjoint(nodes, arr, k);
    hide Separate, UsedBelow, LiveFrom, UsedKeys, IntsOf, KeysInUse, Outside, Inside, Count, InArrayPart;
    var u := UsedKeys(nodes, arr);
    UsedSize(nodes, arr, k);
    InsideSize(u + {k}, n);
    SplitSize(u + {k}, n);
    OutsideAdd(u, k, n);
  }

  /** More keys in use than a hash part can have nodes. */
  ghost predicate TooMany(nodes: seq<Node>, arr: seq<Value>) { |UsedKeys(nodes, arr)| >= MAXASIZE }

  lemma NeedBound(nodes: seq<Node>, arr: seq<Value>, k: Key, n: nat, need: int)
    requires need == |Outside(UsedKeys(nodes, arr), n)| + if InArrayPart(k, n) then 0 else 1
    ensures need > 0 && CeilLog2(need) > MAXBITS ==> TooMany(nodes, arr)
  {
    Subset(Outside(UsedKeys(nodes, arr), n), UsedKeys(nodes, arr));
    if need > 0 && CeilLog2(need) > MAXBITS {
      CeilLog2Is(need);
      MaxIs();
      Pow2Grows(MAXBITS, CeilLog2(need) - 1);
    }
  }

  lemma {:induction false} FirstKeys(i: nat)
    ensures |set x | 1 <= x <= i :: IntKey(x)| == i
    decreases i
  {
    if i > 0 {
      FirstKeys(i - 1);
      assert (set x | 1 <= x <= i :: IntKey(x)) == (set x | 1 <= x <= i - 1 :: IntKey(x)) + {IntKey(i)};
    } else {
      assert (set x | 1 <= x <= i :: IntKey(x)) == {};
    }
  }

  lemma {:induction false} LiveBound(nodes: seq<Node>, i: nat)
    requires i <= |nodes|
    ensures |LiveFrom(nodes, i)| <= |nodes| - i
    decreases |nodes| - i
  {
    if i < |nodes| {
      LiveBound(nodes, i + 1);
      var s := LiveFrom(nodes, i + 1);
      assert LiveFrom(nodes, i) <= s + {nodes[i].key};
      Subset(LiveFrom(nodes, i), s + {nodes[i].key});
    } else {
      assert LiveFrom(nodes, i) == {};
    }
  }

  lemma {:induction false} BelowBound(arr: seq<Value>, n: nat)
    requires 1 <= n
    ensures |UsedBelow(arr, n)| <= n - 1
    decreases n
  {
    if n == 1 {
      assert UsedBelow(arr, n) == {};
    } else {
      BelowBound(arr, n - 1);
      assert UsedBelow(arr, n) <= UsedBelow(arr, n - 1) + {n - 1};
      Subset(UsedBelow(arr, n), UsedBelow(arr, n - 1) + {n - 1});
    }
  }

  /** No more keys in use than there are places. */
  lemma PlacesBound(nodes: seq<Node>, arr: seq<Value>)
    requires |arr| <= MAXASIZE
    ensures |UsedKeys(nodes, arr)| <= |arr| + |nodes|
  {
    ArrayKeysAre(arr);
    BelowBound(arr, |arr| + 1);
    LiveBound(nodes, 0);
    hide ArrayKeys, LiveFrom, UsedBelow;
    UnionBound(ArrayKeys(arr), LiveFrom(nodes, 0));
  }

  lemma UnionBound(a: set<Key>, b: set<Key>)
    ensures |a + b| <= |a| + |b|
  {
    assert a + b == a + (b - a);
    Subset(b - a, b);
  }

  lemma PresentUsed(h: Hash, nodes: seq<Node>, rank: seq<nat>, arr: seq<Value>, k: Key)
    requires HashOk(h, nodes, rank) && |arr| <= MAXASIZE && RawOf(nodes, arr, k) != Nil
    ensures k in UsedKeys(nodes, arr)
  {
    LiveHas(nodes, k);
    ArrayHas(arr, k);
  }

  lemma NotLive(nodes: seq<Node>, arr: seq<Value>, k: Key, n: nat, live: set<Key>)
    requires Separate(nodes, arr, k) && LiveAre(nodes, arr, n, live)
    ensures k !in live
  {}

  lemma LiveHas(nodes: seq<Node>, x: Key)
    requires Distinct(nodes)
    ensures x in LiveFrom(nodes, 0) <==> At(nodes, x) != Nil
  {
    if Has(nodes, x) {
      var i :| Keyed(nodes, i) && nodes[i].key == x;
      AtIs(nodes, i);
    }
  }

  lemma UsedAre(nodes: seq<Node>, arr: seq<Value>, n: nat)
    requires Distinct(nodes) && KeysFit(nodes, |arr|) && |arr| <= MAXASIZE
    ensures LiveAre(nodes, arr, n, Outside(UsedKeys(nodes, arr), n))
  {
    forall x
      ensures x in UsedKeys(nodes, arr) <==> RawOf(nodes, arr, x) != Nil
    {
      LiveHas(nodes, x);
      ArrayHas(arr, x);
      FitsLive(nodes, |arr|, x);
    }
  }

  lemma ArrayHas(arr: seq<Value>, x: Key)
    requires |arr| <= MAXASIZE
    ensures x in ArrayKeys(arr) <==> InArrayPart(x, |arr|) && arr[ArrayIndex(x) - 1] != Nil
  {
    if InArrayPart(x, |arr|) && arr[ArrayIndex(x) - 1] != Nil {
      assert UsedAt(arr, ArrayIndex(x)) && ArrayIndex(x) in UsedBelow(arr, |arr| + 1);
      assert x == IntKey(ArrayIndex(x));
    }
  }

  lemma FitsLive(nodes: seq<Node>, n: nat, x: Key)
    requires KeysFit(nodes, n)
    ensures x in LiveFrom(nodes, 0) ==> !InArrayPart(x, n)
  {}

  /** The new key finds a free node. */
  lemma RoomLeft(h: Hash, nodes: seq<Node>, rank: seq<nat>, live: set<Key>, k: Key)
    requires HashOk(h, nodes, rank) && KeySet(nodes) <= live && k !in live && |live| + 1 <= |nodes|
    ensures exists i :: 0 <= i < |nodes| && !Keyed(nodes, i)
  {
    assert Distinct(nodes) && k !in KeySet(nodes);
    hide HashOk, KeySet, Distinct;
    SomeFree(nodes, live + {k}, k);
  }

  lemma RoomIn(h: Hash, nodes: seq<Node>, rank: seq<nat>, live: set<Key>, k: Key)
    requires HashOk(h, nodes, rank) && KeySet(nodes) <= live && k in live && |live| <= |nodes|
    ensures Has(nodes, k) || exists i :: 0 <= i < |nodes| && !Keyed(nodes, i)
  {
    assert Distinct(nodes);
    assert k in KeySet(nodes) ==> Has(nodes, k);
    hide HashOk, KeySet, Distinct, Has;
    if k !in KeySet(nodes) {
      SomeFree(nodes, live, k);
    }
  }

  lemma FreshOk(h: Hash, nodes: seq<Node>, rank: seq<nat>, n: nat)
    requires |nodes| > 0 && nodes == seq(|nodes|, _ => FREE) && rank == seq(|nodes|, _ => 0)
    ensures HashOk(h, nodes, rank) && KeysFit(nodes, n) && KeySet(nodes) == {} && Distinct(nodes)
    ensures forall x :: At(nodes, x) == Nil
  {
    assert forall i :: 0 <= i < |nodes| ==> nodes[i] == FREE && !Keyed(nodes, i);
  }

  lemma CoreNow(h: Hash, nodes: seq<Node>, rank: seq<nat>, arr: seq<Value>)
    requires HashOk(h, nodes, rank)
    ensures Distinct(nodes) && FreeEmpty(nodes)
  {}

  lemma SeparateNow(h: Hash, nodes: seq<Node>, rank: seq<nat>, arr: seq<Value>, k: Key)
    requires HashOk(h, nodes, rank) && KeysFit(nodes, |arr|) && |arr| <= MAXASIZE && !Has(nodes, k) && !InArrayPart(k, |arr|)
    ensures Separate(nodes, arr, k)
  {}

  lemma SeparateParts(nodes: seq<Node>, arr: seq<Value>, k: Key)
    requires Separate(nodes, arr, k)
    ensures Distinct(nodes) && KeysFit(nodes, |arr|) && |arr| <= MAXASIZE
  {}

  /** With fresh nodes, what is left of the old values is the low part of the array. */
  lemma StartOver(nodes: seq<Node>, arr: seq<Value>, nold: seq<Node>, aold: seq<Value>, nasize: nat)
    requires |arr| == nasize && (forall x :: At(nodes, x) == Nil)
    requires forall i :: 0 <= i < nasize ==> arr[i] == if i < |aold| then aold[i] else Nil
    ensures var low := if nasize < |aold| then nasize else |aold|;
            forall x :: RawOf(nodes, arr, x) == if SoFar(nold, aold, low, |nold|, x) then RawOf(nold, aold, x) else Nil
  {}

  /** One slot of the array part that goes away. */
  lemma ArrayStep(nold: seq<Node>, aold: seq<Value>, i: nat, nasize: nat, live: set<Key>)
    requires nasize <= i < |aold| <= MAXASIZE && LiveAre(nold, aold, nasize, live)
    ensures var k := IntKey(i + 1);
      && RawOf(nold, aold, k) == aold[i] && (aold[i] != Nil ==> k in live)
      && forall x :: SoFar(nold, aold, i + 1, |nold|, x) <==> x == k || SoFar(nold, aold, i, |nold|, x)
  {
    forall x
      ensures SoFar(nold, aold, i + 1, |nold|, x) <==> x == IntKey(i + 1) || SoFar(nold, aold, i, |nold|, x)
    {
      NextIndex(x, i);
    }
  }

  lemma NextIndex(x: Key, i: nat)
    requires i < MAXASIZE
    ensures InArrayPart(x, i + 1) <==> x == IntKey(i + 1) || InArrayPart(x, i)
  {}

  /** One node of the old hash part. */
  lemma NodeStep(nold: seq<Node>, aold: seq<Value>, j: nat, nasize: nat, live: set<Key>)
    requires j < |nold| && Distinct(nold) && KeysFit(nold, |aold|) && LiveAre(nold, aold, nasize, live)
    requires nold[j].val != Nil ==> Keyed(nold, j)
    ensures Keyed(nold, j) ==> RawOf(nold, aold, nold[j].key) == nold[j].val
    ensures nold[j].val != Nil ==> nold[j].key != NaNKey && (InArrayPart(nold[j].key, nasize) || nold[j].key in live)
    ensures forall x :: SoFar(nold, aold, |aold|, j, x) <==> (Keyed(nold, j) && x == nold[j].key) || SoFar(nold, aold, |aold|, j + 1, x)
  {
    if Keyed(nold, j) {
      AtIs(nold, j);
    }
  }

  lemma AllBack(nold: seq<Node>, aold: seq<Value>)
    ensures forall x :: !SoFar(nold, aold, |aold|, 0, x) ==> RawOf(nold, aold, x) == Nil
  {
    forall x | !SoFar(nold, aold, |aold|, 0, x)
      ensures !Has(nold, x)
    {}
  }

  lemma PutUses(nodes: seq<Node>, m: nat, k: Key)
    requires m < |nodes| && k != NilKey
    ensures forall i :: Keyed(nodes, i) ==> Keyed(PutAt(nodes, m, k), i)
    ensures Keyed(PutAt(nodes, m, k), m) && PutAt(nodes, m, k)[m].key == k && |PutAt(nodes, m, k)| == |nodes|
  {}

  lemma MoveUses(nodes: seq<Node>, m: nat, n: nat, p: nat, k: Key)
    requires MoveReady(nodes, m, n, p) && k != NilKey
    ensures forall i :: Keyed(nodes, i) ==> Keyed(MoveAway(nodes, m, n, p, k), i)
    ensures var u := MoveAway(nodes, m, n, p, k);
      Keyed(u, n) && |u| == |nodes| && Keyed(u, m) && u[m].key == k
  {
    MoveFacts(nodes, m, n, p, k);
    hide MoveAway, Linked;
  }

  lemma DistinctNow(h: Hash, nodes: seq<Node>, rank: seq<nat>)
    requires HashOk(h, nodes, rank)
    ensures Distinct(nodes)
  {}

  lemma MoveIsReady(h: Hash, nodes: seq<Node>, rank: seq<nat>, m: nat, n: nat, p: nat)
    requires HashOk(h, nodes, rank) && Keyed(nodes, m) && n < |nodes| && !Keyed(nodes, n)
    requires p < |nodes| && nodes[p].next == m && p != m
    ensures MoveReady(nodes, m, n, p)
  {}

  /** What the three ways to put a key in have in common. */
  lemma GrownFits(h: Hash, nodes: seq<Node>, u: seq<Node>, q: seq<nat>, k: Key, i: int, n: nat)
    requires HashOk(h, u, q) && KeysFit(nodes, n) && Grown(nodes, u, k, i) && k != NaNKey && !InArrayPart(k, n)
    ensures KeysFit(u, n)
  {
    hide HashOk, KeysFit, KeySet, At;
    FitsAfter(nodes, u, k, n);
  }

  lemma PutGrown(h: Hash, nodes: seq<Node>, rank: seq<nat>, m: nat, k: Key, n: nat, free: int)
    requires HashOk(h, nodes, rank) && KeysFit(nodes, n) && k != NilKey && k != NaNKey && !Has(nodes, k) && !InArrayPart(k, n)
    requires |nodes| > 0 && m == Main(h, nodes, k) && nodes[m].val == Nil && UsedAbove(nodes, free)
    ensures var u := PutAt(nodes, m, k);
      HashOk(h, u, rank) && KeysFit(u, n) && Grown(nodes, u, k, m) && UsedAbove(u, free)
  {
    hide HashOk, KeysFit, KeySet, At, Distinct, Has, Main, PutAt;
    PutAtOk(h, nodes, rank, m, k);
    DistinctNow(h, nodes, rank);
    DistinctNow(h, PutAt(nodes, m, k), rank);
    PutKeeps(nodes, m, k);
    PutUses(nodes, m, k);
    GrownFits(h, nodes, PutAt(nodes, m, k), rank, k, m, n);
  }

  lemma ChainUses(nodes: seq<Node>, m: nat, n: nat, k: Key)
    requires Keyed(nodes, m) && n < |nodes| && !Keyed(nodes, n) && k != NilKey
    ensures var u := InsertAfter(nodes, m, n, k);
      |u| == |nodes| && Keyed(u, n) && u[n].key == k && forall i :: Keyed(nodes, i) ==> Keyed(u, i)
  {}

  lemma ChainGrown(h: Hash, nodes: seq<Node>, rank: seq<nat>, m: nat, n: nat, k: Key, size: nat)
    requires HashOk(h, nodes, rank) && KeysFit(nodes, size) && k != NilKey && k != NaNKey && !Has(nodes, k) && !InArrayPart(k, size)
    requires |nodes| > 0 && m == Main(h, nodes, k) && Owned(h, nodes, m) && n < |nodes| && !Keyed(nodes, n)
    requires UsedAbove(nodes, n + 1)
    ensures var u := InsertAfter(nodes, m, n, k);
      HashOk(h, u, InsertRank(rank, m, n)) && KeysFit(u, size) && Grown(nodes, u, k, n) && UsedAbove(u, n)
  {
    ghost var u := InsertAfter(nodes, m, n, k);
    InsertAfterOk(h, nodes, rank, m, n, k);
    hide HashOk, KeysFit, KeySet, At, Distinct, Has, Main, InsertAfter, InsertRank;
    DistinctNow(h, nodes, rank);
    DistinctNow(h, u, InsertRank(rank, m, n));
    InsertKeeps(nodes, m, n, k);
    ChainUses(nodes, m, n, k);
    GrownFits(h, nodes, u, InsertRank(rank, m, n), k, n, size);
  }

  lemma MoveGrown(h: Hash, nodes: seq<Node>, rank: seq<nat>, m: nat, n: nat, p: nat, k: Key, size: nat)
    requires HashOk(h, nodes, rank) && KeysFit(nodes, size) && k != NilKey && k != NaNKey && !Has(nodes, k) && !InArrayPart(k, size)
    requires |nodes| > 0 && m == Main(h, nodes, k) && !Owned(h, nodes, m) && MoveReady(nodes, m, n, p)
    requires UsedAbove(nodes, n + 1)
    ensures var u := MoveAway(nodes, m, n, p, k);
      HashOk(h, u, MoveRank(rank, m, n)) && KeysFit(u, size) && Grown(nodes, u, k, m) && UsedAbove(u, n)
  {
    ghost var u := MoveAway(nodes, m, n, p, k);
    MoveAwayOk(h, nodes, rank, m, n, p, k);
    hide HashOk, KeysFit, KeySet, At, Distinct, Has, Main, MoveAway, MoveRank, MoveReady, Owned;
    DistinctNow(h, nodes, rank);
    DistinctNow(h, u, MoveRank(rank, m, n));
    MoveKeeps(nodes, m, n, p, k);
    MoveUses(nodes, m, n, p, k);
    GrownFits(h, nodes, u, MoveRank(rank, m, n), k, m, size);
  }

  /** One more key that does not belong into the array part. */
  lemma FitsAfter(nodes: seq<Node>, u: seq<Node>, k: Key, n: nat)
    requires KeysFit(nodes, n) && KeySet(u) <= KeySet(nodes) + {k} && k != NaNKey && !InArrayPart(k, n)
    ensures KeysFit(u, n)
  {
    forall i | Keyed(u, i)
      ensures u[i].key != NaNKey && !InArrayPart(u[i].key, n)
    {
      assert u[i].key in KeySet(u);
    }
  }

  lemma WriteLinks(nodes: seq<Node>, u: seq<Node>, rank: seq<nat>)
    requires Ranked(nodes, rank) && Linked(nodes) && Distinct(nodes) && |u| == |nodes|
    requires forall j :: 0 <= j < |u| ==> u[j].key == nodes[j].key && u[j].next == nodes[j].next && (Keyed(nodes, j) || u[j] == nodes[j])
    ensures Ranked(u, rank) && Linked(u) && Distinct(u) && forall j :: Keyed(u, j) <==> Keyed(nodes, j)
  {
    assert forall j :: Keyed(u, j) <==> Keyed(nodes, j);
  }

  lemma SamePlaces(h: Hash, nodes: seq<Node>, u: seq<Node>)
    requires 0 < |nodes| == |u| && Placed(h, nodes)
    requires forall j :: 0 <= j < |u| ==> u[j].key == nodes[j].key && u[j].next == nodes[j].next
    ensures Placed(h, u)
  {
    hide Reach, MainPosition;
    forall j | Keyed(u, j)
      ensures Reach(u, Main(h, u, u[j].key), j)
    {
      assert Keyed(nodes, j);
      ReachSame(nodes, u, Main(h, nodes, nodes[j].key), j);
    }
    forall j | Keyed(u, j)
      ensures Owned(h, u, Main(h, u, u[j].key))
    {
      assert Keyed(nodes, j) && Owned(h, nodes, Main(h, nodes, nodes[j].key));
    }
  }

  /** Changing a value changes no key and no link. */
  lemma WriteHash(h: Hash, nodes: seq<Node>, rank: seq<nat>, i: nat, v: Value)
    requires HashOk(h, nodes, rank) && Keyed(nodes, i)
    ensures HashOk(h, nodes[i := nodes[i].(val := v)], rank)
  {
    var u := nodes[i := nodes[i].(val := v)];
    assert forall j :: 0 <= j < |u| ==> u[j].key == nodes[j].key && u[j].next == nodes[j].next;
    WriteLinks(nodes, u, rank);
    SamePlaces(h, nodes, u);
    hide Ranked, Linked, Distinct, Placed;
  }

  lemma WriteAt(nodes: seq<Node>, i: nat, v: Value, x: Key)
    requires Keyed(nodes, i) && Distinct(nodes) && Distinct(nodes[i := nodes[i].(val := v)]) && x != nodes[i].key
    ensures At(nodes[i := nodes[i].(val := v)], x) == At(nodes, x)
  {
    var u := nodes[i := nodes[i].(val := v)];
    forall j | Keyed(nodes, j) && nodes[j].key == x && nodes[j].val != Nil
      ensures Holds(u, x, nodes[j].val)
    {
      HoldsAt(u, j);
    }
    forall j | Keyed(u, j) && u[j].key == x && u[j].val != Nil
      ensures Holds(nodes, x, u[j].val)
    {
      HoldsAt(nodes, j);
    }
    AtSame(nodes, u, x);
  }

  lemma WriteOk(h: Hash, nodes: seq<Node>, rank: seq<nat>, i: nat, v: Value)
    requires HashOk(h, nodes, rank) && Keyed(nodes, i)
    ensures var u := nodes[i := nodes[i].(val := v)];
      && HashOk(h, u, rank) && KeySet(u) == KeySet(nodes) && At(u, nodes[i].key) == v
      && (forall x :: x != nodes[i].key ==> At(u, x) == At(nodes, x))
      && (forall j :: Keyed(u, j) <==> Keyed(nodes, j)) && forall j :: Keyed(u, j) ==> u[j].key == nodes[j].key
  {
    var u := nodes[i := nodes[i].(val := v)];
    WriteHash(h, nodes, rank, i, v);
    assert forall j :: 0 <= j < |u| ==> u[j].key == nodes[j].key;
    WriteKeys(nodes, u);
    assert Distinct(u) && Distinct(nodes);
    hide HashOk, Distinct, At;
    AtIs(u, i);
    forall x | x != nodes[i].key
      ensures At(u, x) == At(nodes, x)
    {
      WriteAt(nodes, i, v, x);
    }
  }

  lemma WriteKeys(nodes: seq<Node>, u: seq<Node>)
    requires |u| == |nodes| && forall j :: 0 <= j < |u| ==> u[j].key == nodes[j].key
    ensures KeySet(u) == KeySet(nodes)
  {
    assert forall j :: 0 <= j < |u| ==> (Keyed(u, j) <==> Keyed(nodes, j));
  }
}
