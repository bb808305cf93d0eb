/** The compile-time list helpers of Empirical's meta header, read as
    functions over a list of types. A parameter pack `Ts...` is a
    `seq<T>`; `std::is_same` is equality on `T`. */
module Meta {

  // ---------------------------------------------------------------------
  // Positional access: pack_id, first/second/third_type, last_type
  // ---------------------------------------------------------------------

  /** The ID-th type of a pack, by peeling one type per step. The pack
      must have more than ID types or the alias does not resolve. */
  function PackId<T>(id: nat, ts: seq<T>): T
    requires id < |ts|
    decreases id
  {
    if id == 0 then ts[0] else PackId(id - 1, ts[1..])
  }

  lemma {:induction false} PackIdIsIndex<T>(id: nat, ts: seq<T>)
    requires id < |ts|
    ensures PackId(id, ts) == ts[id]
    decreases id
  {
    if id > 0 {
      PackIdIsIndex(id - 1, ts[1..]);
    }
  }

  function FirstType<T>(ts: seq<T>): T
    requires |ts| >= 1
  {
    ts[0]
  }

  function SecondType<T>(ts: seq<T>): T
    requires |ts| >= 2
  {
    ts[1]
  }

  function ThirdType<T>(ts: seq<T>): T
    requires |ts| >= 3
  {
    ts[2]
  }

  /** The last type, as the pack index one below the pack's size. */
  function LastType<T>(ts: seq<T>): T
    requires |ts| >= 1
  {
    PackId(|ts| - 1, ts)
  }

  /** The trimming aliases agree with indexing the pack. */
  lemma PositionalTypes<T>(ts: seq<T>)
    requires |ts| >= 1
    ensures LastType(ts) == ts[|ts| - 1]
    ensures FirstType(ts) == PackId(0, ts)
    ensures |ts| >= 2 ==> SecondType(ts) == PackId(1, ts)
    ensures |ts| >= 3 ==> ThirdType(ts) == PackId(2, ts)
  {
    PackIdIsIndex(|ts| - 1, ts);
    if |ts| >= 2 {
      PackIdIsIndex(1, ts);
    }
    if |ts| >= 3 {
      PackIdIsIndex(2, ts);
    }
  }

  // ---------------------------------------------------------------------
  // Membership, counting and search
  // ---------------------------------------------------------------------

  /** has_type: the first type matches, or the rest of the pack has it. */
  predicate HasType<T(==)>(t: T, ts: seq<T>)
  {
    |ts| > 0 && (t == ts[0] || HasType(t, ts[1..]))
  }

  lemma {:induction false} HasTypeIsMember<T>(t: T, ts: seq<T>)
    ensures HasType(t, ts) <==> t in ts
  {
    if |ts| > 0 {
      HasTypeIsMember(t, ts[1..]);
      assert ts == [ts[0]] + ts[1..];
    }
  }

  /** count_type: the count over the rest plus one when the first matches. */
  function CountType<T(==)>(t: T, ts: seq<T>): nat
  {
    if |ts| == 0 then 0 else CountType(t, ts[1..]) + (if t == ts[0] then 1 else 0)
  }

  lemma {:induction false} CountTypeIsMultiplicity<T>(t: T, ts: seq<T>)
    ensures CountType(t, ts) == multiset(ts)[t]
    ensures CountType(t, ts) > 0 <==> HasType(t, ts)
  {
    HasTypeIsMember(t, ts);
    if |ts| > 0 {
      CountTypeIsMultiplicity(t, ts[1..]);
      assert ts == [ts[0]] + ts[1..];
    }
  }

  /** get_type_index: 0 when the first type matches, -1 when the rest does
      not have it, and one past the rest's index otherwise. */
  function TypeIndex<T(==)>(t: T, ts: seq<T>): int
  {
    if |ts| == 0 then -1
    else if t == ts[0] then 0
    else
      var next := TypeIndex(t, ts[1..]);
      if next < 0 then -1 else next + 1
  }

  lemma {:induction false} TypeIndexIsFirst<T>(t: T, ts: seq<T>)
    ensures var i := TypeIndex(t, ts);
      && (i == -1 <==> t !in ts)
      && (i != -1 ==> 0 <= i < |ts| && ts[i] == t && forall j :: 0 <= j < i ==> ts[j] != t)
  {
    if |ts| > 0 && t != ts[0] {
      TypeIndexIsFirst(t, ts[1..]);
      assert ts == [ts[0]] + ts[1..];
      var i := TypeIndex(t, ts);
      if i != -1 {
        forall j | 0 <= j < i
          ensures ts[j] != t
        {
          if j > 0 {
            assert ts[j] == ts[1..][j - 1];
          }
        }
      }
    }
  }

  // ---------------------------------------------------------------------
  // Uniqueness
  // ---------------------------------------------------------------------

  /** has_unique_first_type: the first type differs from the second, and
      from everything after it, found by dropping the second. */
  predicate HasUniqueFirstType<T(==)>(ts: seq<T>)
    requires |ts| >= 1
    decreases |ts|
  {
    |ts| == 1 || (ts[0] != ts[1] && HasUniqueFirstType([ts[0]] + ts[2..]))
  }

  lemma {:induction false} UniqueFirstIsNotInTail<T>(ts: seq<T>)
    requires |ts| >= 1
    ensures HasUniqueFirstType(ts) <==> ts[0] !in ts[1..]
    decreases |ts|
  {
    if |ts| > 1 {
      var rest := [ts[0]] + ts[2..];
      UniqueFirstIsNotInTail(rest);
      assert rest[1..] == ts[2..];
      assert ts[1..] == [ts[1]] + ts[2..];
    }
  }

  /** has_unique_types: the first type is unique, and so are the rest. */
  predicate HasUniqueTypes<T(==)>(ts: seq<T>)
    requires |ts| >= 1
  {
    |ts| == 1 || (HasUniqueFirstType(ts) && HasUniqueTypes(ts[1..]))
  }

  predicate PairwiseDistinct<T(==)>(ts: seq<T>)
  {
    forall i, j :: 0 <= i < j < |ts| ==> ts[i] != ts[j]
  }

  lemma {:induction false} UniqueTypesAreDistinct<T>(ts: seq<T>)
    requires |ts| >= 1
    ensures HasUniqueTypes(ts) <==> PairwiseDistinct(ts)
  {
    if |ts| > 1 {
      UniqueFirstIsNotInTail(ts);
      UniqueTypesAreDistinct(ts[1..]);
      if PairwiseDistinct(ts) {
        assert PairwiseDistinct(ts[1..]) by {
          forall i, j | 0 <= i < j < |ts[1..]|
            ensures ts[1..][i] != ts[1..][j]
          {
            assert ts[1..][i] == ts[i + 1] && ts[1..][j] == ts[j + 1];
          }
        }
        assert ts[0] !in ts[1..];
      }
      if HasUniqueTypes(ts) {
        forall i, j | 0 <= i < j < |ts|
          ensures ts[i] != ts[j]
        {
          assert ts[j] == ts[1..][j - 1];
          if i > 0 {
            assert ts[i] == ts[1..][i - 1];
          }
        }
      }
    }
  }

  // ---------------------------------------------------------------------
  // tIntMath
  // ---------------------------------------------------------------------

  /** tIntMath::Sum over a non-empty list of integers. */
  function Sum(xs: seq<int>): int
    requires |xs| >= 1
  {
    if |xs| == 1 then xs[0] else xs[0] + Sum(xs[1..])
  }

  /** tIntMath::Product over a non-empty list of integers. */
  function Product(xs: seq<int>): int
    requires |xs| >= 1
  {
    if |xs| == 1 then xs[0] else xs[0] * Product(xs[1..])
  }

  /** Sum and product split over concatenation: the fold's grouping does
      not matter. */
  lemma {:induction false} SumProductSplit(xs: seq<int>, ys: seq<int>)
    requires |xs| >= 1 && |ys| >= 1
    ensures Sum(xs + ys) == Sum(xs) + Sum(ys)
    ensures Product(xs + ys) == Product(xs) * Product(ys)
    decreases |xs|
  {
    if |xs| == 1 {
      assert (xs + ys)[1..] == ys;
    } else {
      SumProductSplit(xs[1..], ys);
      assert (xs + ys)[1..] == xs[1..] + ys;
      calc {
        Product(xs + ys);
        xs[0] * Product(xs[1..] + ys);
        xs[0] * (Product(xs[1..]) * Product(ys));
        (xs[0] * Product(xs[1..])) * Product(ys);
      }
    }
  }

  /** The product is zero exactly when some entry is zero. */
  lemma {:induction false} ProductZero(xs: seq<int>)
    requires |xs| >= 1
    ensures Product(xs) == 0 <==> 0 in xs
  {
    if |xs| > 1 {
      ProductZero(xs[1..]);
      assert xs == [xs[0]] + xs[1..];
    }
  }

  // ---------------------------------------------------------------------
  // CombineHash
  // ---------------------------------------------------------------------

  const WordRange := 0x1_0000_0000_0000_0000

  /** A `std::size_t` value: 64 bits, arithmetic wraps. */
  type Word = x: int | 0 <= x < WordRange

  /** One combining step: the first key's hash, plus the golden-ratio
      constant, plus the rest's hash shifted left by 19 (dropping the bits
      pushed out) and right by 13, all modulo 2^64. */
  function Mix(h1: Word, h2: Word): Word
  {
    (h1 + 0x9e3779b9 + (h2 * 0x8_0000) % WordRange + h2 / 0x2000) % WordRange
  }

  /** CombineHash: a single key is hashed; otherwise the first key's hash
      is mixed with the combined hash of the rest. `hash` stands for
      `std::hash` of the key type. */
  function CombineHash<T>(hash: T -> Word, xs: seq<T>): Word
    requires |xs| >= 1
  {
    if |xs| == 1 then hash(xs[0]) else Mix(hash(xs[0]), CombineHash(hash, xs[1..]))
  }

  /** Mixes the keys `xs`, right to left, onto an already combined value. */
  function MixOnto<T>(hash: T -> Word, xs: seq<T>, seed: Word): Word
  {
    if |xs| == 0 then seed else Mix(hash(xs[0]), MixOnto(hash, xs[1..], seed))
  }

  /** Combining a longer key list is combining its tail first and then
      mixing in the leading keys one at a time: the fold is a right fold. */
  lemma {:induction false} CombineHashIsRightFold<T>(hash: T -> Word, xs: seq<T>, ys: seq<T>)
    requires |ys| >= 1
    ensures CombineHash(hash, xs + ys) == MixOnto(hash, xs, CombineHash(hash, ys))
  {
    if |xs| > 0 {
      CombineHashIsRightFold(hash, xs[1..], ys);
      assert (xs + ys)[1..] == xs[1..] + ys;
      assert (xs + ys)[0] == xs[0];
    } else {
      assert xs + ys == ys;
    }
  }

  /** The left shift drops every bit at or above position 45 of the rest's
      hash, and the right shift keeps only its top 51 bits. */
  lemma MixShiftBounds(h2: Word)
    ensures (h2 * 0x8_0000) % WordRange == (h2 % 0x2000_0000_0000) * 0x8_0000
    ensures h2 / 0x2000 < 0x8_0000_0000_0000
  {
  }

  // ---------------------------------------------------------------------
  // TruncateCall
  // ---------------------------------------------------------------------

  /** TruncateCall: call `fun`, which takes `arity` arguments, with the
      first `arity` of `args`; the call does not compile with fewer. */
  function TruncateCall<A, R>(fun: seq<A> -> R, arity: nat, args: seq<A>): R
    requires arity <= |args|
  {
    fun(args[..arity])
  }

  /** Extra trailing arguments never reach the function, and with exactly
      `arity` arguments the call is a plain call. */
  lemma TruncateIgnoresExtra<A, R>(fun: seq<A> -> R, args: seq<A>, extra: seq<A>)
    ensures TruncateCall(fun, |args|, args + extra) == fun(args)
    ensures TruncateCall(fun, |args|, args) == fun(args)
  {
    assert (args + extra)[..|args|] == args;
    assert args[..|args|] == args;
  }
}
