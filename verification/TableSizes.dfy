/** How many integer keys there are, slice by slice, and the best size for the array part. */
module TableSizes {
  import opened Powers

  const MAXBITS := 26
  const MAXASIZE := 67108864

  lemma MaxIs()
    ensures Pow2(MAXBITS) == MAXASIZE
  {
    assert Pow2(5) == 32;
    assert Pow2(10) == 1024;
    assert Pow2(15) == 32768;
    assert Pow2(20) == 1048576;
    assert Pow2(25) == 33554432;
  }

  // ---------- Binary logarithms ----------

  /** The table of luaO_log2: the number of bits of a byte. */
  function Bits(x: nat): nat { if x == 0 then 0 else 1 + Bits(x / 2) }

  lemma {:induction false} BitsBound(x: nat)
    ensures x < Pow2(Bits(x)) && (x > 0 ==> Bits(x) > 0 && Pow2(Bits(x) - 1) <= x)
    decreases x
  {
    if x > 0 {
      BitsBound(x / 2);
    }
  }

  lemma BitsShift(x: nat)
    requires x >= 256
    ensures Bits(x) == 8 + Bits(x / 256)
  {
    BitsFour(x);
    BitsFour(x / 16);
    assert x / 16 / 16 == x / 256;
  }

  lemma BitsFour(x: nat)
    requires x >= 8
    ensures Bits(x) == 4 + Bits(x / 16)
  {
    var a := x / 2;
    var b := a / 2;
    var c := b / 2;
    assert Bits(x) == 1 + Bits(a) && Bits(a) == 1 + Bits(b);
    assert Bits(b) == 1 + Bits(c) && Bits(c) == 1 + Bits(c / 2);
    assert c / 2 == x / 16;
  }

  /** luaO_log2: -1 for zero. */
  method Log2(x: nat) returns (l: int)
    ensures l == Bits(x) - 1
  {
    l := -1;
    var y := x;
    while y >= 256
      invariant l + Bits(y) == Bits(x) - 1
    {
      BitsShift(y);
      l := l + 8;
      y := y / 256;
    }
    l := l + Bits(y);
  }

  /** ceillog2. */
  function CeilLog2(x: nat): nat
    requires x > 0
  {
    Bits(x - 1)
  }

  lemma CeilLog2Is(x: nat)
    requires x > 0
    ensures x <= Pow2(CeilLog2(x)) && (x > 1 ==> CeilLog2(x) > 0 && Pow2(CeilLog2(x) - 1) < x)
  {
    BitsBound(x - 1);
  }

  /** The slice that a number lies in. */
  lemma SliceIs(x: nat, i: nat)
    requires 0 < x <= Pow2(i) && (i > 0 ==> Pow2(i - 1) < x)
    ensures CeilLog2(x) == i
  {
    CeilLog2Is(x);
    var c := CeilLog2(x);
    if c < i {
      Pow2Grows(c, i - 1);
    } else if c > i {
      Pow2Grows(i, c - 1);
    }
  }

  // ---------- Counting keys ----------

  /** How many of the keys are at most n. */
  ghost function Count(keys: set<int>, n: int): nat { |set k | k in keys && k <= n| }

  ghost predicate Indices(keys: set<int>) { forall k :: k in keys ==> 1 <= k <= MAXASIZE }

  lemma {:induction false} CountBound(keys: set<int>, n: nat)
    requires Indices(keys)
    ensures Count(keys, n) <= n
    decreases n
  {
    var s := set k | k in keys && k <= n;
    if n == 0 {
      assert s == {};
    } else {
      CountBound(keys, n - 1);
      var t := set k | k in keys && k <= n - 1;
      assert s == if n in keys then t + {n} else t;
    }
  }

  lemma CountAdd(keys: set<int>, k: int, n: int)
    requires k !in keys
    ensures Count(keys + {k}, n) == Count(keys, n) + if k <= n then 1 else 0
  {
    var s := set x | x in keys && x <= n;
    var t := set x | x in keys + {k} && x <= n;
    assert t == if k <= n then s + {k} else s;
  }

  lemma CountAll(keys: set<int>, n: int)
    requires forall k :: k in keys ==> k <= n
    ensures Count(keys, n) == |keys|
  {
    assert keys == (set k | k in keys && k <= n);
  }

  lemma CountGrows(keys: set<int>, m: int, n: int)
    requires m <= n
    ensures Count(keys, m) <= Count(keys, n) <= |keys|
  {
    Subset((set k | k in keys && k <= m), (set k | k in keys && k <= n));
    Subset((set k | k in keys && k <= n), keys);
  }

  lemma {:induction false} Subset<T>(a: set<T>, b: set<T>)
    requires a <= b
    ensures |a| <= |b|
    decreases a
  {
    if a != {} {
      var x :| x in a;
      Subset(a - {x}, b - {x});
    }
  }

  /** The number of keys up to and including slice i. */
  ghost function UpTo(keys: set<int>, i: int): nat { if i < 0 then 0 else Count(keys, Pow2(i)) }

  /** nums[i] is the number of keys k with 2^(i-1) < k <= 2^i. */
  ghost predicate Counted(nums: seq<int>, keys: set<int>) {
    |nums| == MAXBITS + 1 && forall i :: 0 <= i <= MAXBITS ==> nums[i] == UpTo(keys, i) - UpTo(keys, i - 1)
  }

  lemma CountedNone(nums: seq<int>)
    requires |nums| == MAXBITS + 1 && forall i :: 0 <= i <= MAXBITS ==> nums[i] == 0
    ensures Counted(nums, {})
  {
    forall n: int
      ensures Count({}, n) == 0
    {
      CountGrows({}, n, n);
    }
  }

  lemma SliceSide(k: nat, i: int)
    requires k > 0
    ensures i >= 0 ==> (k <= Pow2(i) <==> CeilLog2(k) <= i)
  {
    CeilLog2Is(k);
    var c := CeilLog2(k);
    if 0 <= i < c {
      Pow2Grows(i, c - 1);
    } else if i >= c {
      Pow2Grows(c, i);
    }
  }

  lemma UpToAdd(keys: set<int>, k: nat, i: int)
    requires k !in keys && k > 0
    ensures UpTo(keys + {k}, i) == UpTo(keys, i) + if CeilLog2(k) <= i then 1 else 0
  {
    if i >= 0 {
      SliceSide(k, i);
      CountAdd(keys, k, Pow2(i));
    }
  }

  /** countint on a key that is an array index. */
  lemma CountedAdd(nums: seq<int>, keys: set<int>, k: int)
    requires Counted(nums, keys) && k !in keys && 1 <= k <= MAXASIZE
    ensures CeilLog2(k) <= MAXBITS
    ensures Counted(nums[CeilLog2(k) := nums[CeilLog2(k)] + 1], keys + {k})
  {
    MaxIs();
    SliceSide(k, MAXBITS);
    var c := CeilLog2(k);
    var u := nums[c := nums[c] + 1];
    hide CeilLog2, UpTo, Pow2;
    forall i | 0 <= i <= MAXBITS
      ensures u[i] == UpTo(keys + {k}, i) - UpTo(keys + {k}, i - 1)
    {
      assert nums[i] == UpTo(keys, i) - UpTo(keys, i - 1);
      UpToAdd(keys, k, i);
      UpToAdd(keys, k, i - 1);
    }
  }

  // ---------- computesizes ----------

  /** More than half of the slots 1 to n are in use. */
  ghost predicate MoreThanHalf(keys: set<int>, n: nat) { Count(keys, n) > n / 2 }

  /** n is the largest power of two with more than half of its slots in use, or zero. */
  ghost predicate BestSize(keys: set<int>, n: nat) {
    && (n == 0 || (MoreThanHalf(keys, n) && exists i :: 0 <= i <= MAXBITS && n == Pow2(i)))
    && forall i :: 0 <= i <= MAXBITS && MoreThanHalf(keys, Pow2(i)) ==> Pow2(i) <= n
  }

  /** Slice i cannot bring more than half when it is empty, or when all keys are in earlier ones. */
  lemma NotHalf(keys: set<int>, i: nat, j: nat)
    requires Indices(keys) && i < j && Count(keys, Pow2(j)) == Count(keys, Pow2(i))
    ensures !MoreThanHalf(keys, Pow2(j))
  {
    CountBound(keys, Pow2(i));
    Pow2Grows(i, j);
  }

  ghost predicate Settled(keys: set<int>, n: nat, i: nat) {
    && (n == 0 || (MoreThanHalf(keys, n) && exists j :: 0 <= j <= MAXBITS && n == Pow2(j)))
    && (forall j :: 0 <= j < i && j <= MAXBITS && MoreThanHalf(keys, Pow2(j)) ==> Pow2(j) <= n)
    && (i > 0 ==> n <= Pow2(i - 1)) && (i == 0 ==> n == 0)
  }

  lemma SettledMore(keys: set<int>, n: nat, i: nat)
    requires Settled(keys, n, i) && i <= MAXBITS && MoreThanHalf(keys, Pow2(i))
    ensures Settled(keys, Pow2(i), i + 1)
  {
    forall j | 0 <= j < i + 1
      ensures Pow2(j) <= Pow2(i)
    {
      Pow2Grows(j, i);
    }
  }

  lemma SettledLess(keys: set<int>, n: nat, i: nat)
    requires Settled(keys, n, i) && i <= MAXBITS && !MoreThanHalf(keys, Pow2(i))
    ensures Settled(keys, n, i + 1)
  {
    if i > 0 {
      Pow2Grows(i - 1, i);
    }
  }

  /** One slice of the loop. */
  lemma SettledNext(keys: set<int>, n: nat, i: nat, nums: seq<int>)
    requires Settled(keys, n, i) && Indices(keys) && Counted(nums, keys) && i <= MAXBITS
    ensures Settled(keys, if nums[i] > 0 && UpTo(keys, i) > Pow2(i) / 2 then Pow2(i) else n, i + 1)
    ensures nums[i] >= 0
  {
    hide Settled;
    assert nums[i] == UpTo(keys, i) - UpTo(keys, i - 1);
    if i > 0 {
      Pow2Grows(i - 1, i);
      CountGrows(keys, Pow2(i - 1), Pow2(i));
      if nums[i] == 0 {
        NotHalf(keys, i - 1, i);
      }
    }
    if MoreThanHalf(keys, Pow2(i)) {
      SettledMore(keys, n, i);
    } else {
      SettledLess(keys, n, i);
    }
  }

  /** Nothing more can come once all keys are counted, or the slices outgrow their number. */
  lemma SettledBest(keys: set<int>, n: nat, i: nat)
    requires Settled(keys, n, i) && Indices(keys) && i <= MAXBITS + 1
    requires |keys| <= Pow2(i) / 2 || (i > 0 && Count(keys, Pow2(i - 1)) == |keys|)
    ensures BestSize(keys, n)
  {
    forall j | i <= j <= MAXBITS
      ensures !MoreThanHalf(keys, Pow2(j))
    {
      Pow2Grows(i, j);
      CountGrows(keys, Pow2(j), Pow2(j));
      if i > 0 && Count(keys, Pow2(i - 1)) == |keys| {
        Pow2Grows(i - 1, j);
        CountGrows(keys, Pow2(i - 1), Pow2(j));
        NotHalf(keys, i - 1, j);
      }
    }
  }

  method ComputeSizes(nums: seq<int>, narray: nat, ghost keys: set<int>) returns (n: nat, na: nat)
    requires Indices(keys) && Counted(nums, keys) && narray == |keys|
    ensures BestSize(keys, n) && na == Count(keys, n)
  {
    var i, twotoi, a := 0, 1, 0;
    n, na := 0, 0;
    MaxIs();
    CountAll(keys, MAXASIZE);
    CountBound(keys, MAXASIZE);
    CountBound(keys, 0);
    while twotoi / 2 < narray
      invariant 0 <= i <= MAXBITS + 1 && twotoi == Pow2(i) && a == UpTo(keys, i - 1)
      invariant Settled(keys, n, i) && na == Count(keys, n)
      decreases MAXBITS + 1 - i
    {
      if i == MAXBITS + 1 {
        assert false;
      }
      SettledNext(keys, n, i, nums);
      if nums[i] > 0 {
        a := a + nums[i];
        if a > twotoi / 2 {
          n := twotoi;
          na := a;
        }
      }
      i := i + 1;
      twotoi := twotoi * 2;
      if a == narray {
        SettledBest(keys, n, i);
        return;
      }
    }
    SettledBest(keys, n, i);
  }
}
