/**
 * The key/value table of a thread group (kernel/kv_store.c): 1024 chained buckets, one spinlock
 * each, read and written by any number of threads. Memory returned by kmalloc is named by nothing:
 * only whether the allocation succeeds matters.
 */
module KvStore {

  import opened Wrappers

  const BUCKETS: nat := 1024
  const ENOMEM := 12

  /** A C int. */
  type CInt = i: int | -0x8000_0000 <= i < 0x8000_0000

  datatype Entry = Entry(key: CInt, value: CInt)

  type Bucket = seq<Entry>

  // ------------------------------------------------------------------------------------------
  // The bucket of a key.

  /** The bits of a C int, read as an unsigned number. */
  function Bits(k: CInt): nat {
    if 0 <= k then k else k + 0x1_0000_0000
  }

  /** The & operator on unsigned numbers. */
  function And(a: nat, b: nat): nat {
    if a == 0 || b == 0 then 0 else a % 2 * (b % 2) + 2 * And(a / 2, b / 2)
  }

  /** What is left of `a` above the bits of the mask `m`. */
  function Above(a: nat, m: nat): nat {
    if m == 0 then a else Above(a / 2, m / 2)
  }

  /** A mask of low ones splits a number into the bits it keeps and the rest. */
  lemma {:induction false} MaskSplits(a: nat, m: nat)
    requires m in {0, 1, 3, 7, 15, 31, 63, 127, 255, 511, 1023}
    ensures And(a, m) <= m && And(a, m) + (m + 1) * Above(a, m) == a
  {
    if m > 0 {
      MaskSplits(a / 2, m / 2);
      var rest := Above(a, m);
      assert m == 2 * (m / 2) + 1;
      assert (m + 1) * rest == 2 * ((m / 2 + 1) * rest);
      if a == 0 {
        assert And(a / 2, m / 2) == 0;
      } else {
        assert a % 2 * (m % 2) == a % 2;
      }
    }
  }

  /** k & 0x3FF. */
  function Hash(k: CInt): (h: nat)
    ensures h < BUCKETS
  {
    HashIsRemainder(k);
    And(Bits(k), 0x3FF)
  }

  /** The bucket of a key is its remainder modulo 1024, between 0 and 1023 also when the key is negative. */
  lemma HashIsRemainder(k: CInt)
    ensures And(Bits(k), 0x3FF) == k % 1024 < BUCKETS
  {
    MaskSplits(Bits(k), 0x3FF);
    var r, q: int := And(Bits(k), 0x3FF), Above(Bits(k), 0x3FF);
    Remainder(k, r, if 0 <= k then q else q - 0x40_0000);
  }

  lemma Remainder(k: int, r: nat, q: int)
    requires r < 1024 && k == r + 1024 * q
    ensures k % 1024 == r
  {
  }

  // ------------------------------------------------------------------------------------------
  // One bucket.

  /** The value of the first entry with the key. */
  function Find(b: Bucket, k: CInt): Option<CInt> {
    if b == [] then None else if b[0].key == k then Some(b[0].value) else Find(b[1..], k)
  }

  ghost predicate Absent(b: Bucket, k: CInt) {
    forall i | 0 <= i < |b| :: b[i].key != k
  }

  lemma {:induction false} FindAbsent(b: Bucket, k: CInt)
    ensures Find(b, k).None? <==> Absent(b, k)
  {
    if b != [] {
      FindAbsent(b[1..], k);
      assert forall i | 0 < i < |b| :: b[i] == b[1..][i - 1];
    }
  }

  lemma {:induction false} FindAt(b: Bucket, i: nat, k: CInt)
    requires i < |b| && b[i].key == k && Absent(b[..i], k)
    ensures Find(b, k) == Some(b[i].value)
  {
    if i > 0 {
      assert b[..i][0] == b[0] && b[1..][..i - 1] == b[..i][1..];
      FindAt(b[1..], i - 1, k);
    }
  }

  lemma {:induction false} FindUpdate(b: Bucket, i: nat, v: CInt, k: CInt)
    requires i < |b| && Absent(b[..i], b[i].key)
    ensures Find(b[i := Entry(b[i].key, v)], k) == if k == b[i].key then Some(v) else Find(b, k)
  {
    var c := b[i := Entry(b[i].key, v)];
    if i > 0 {
      assert b[..i][0] == b[0] && b[1..][..i - 1] == b[..i][1..];
      assert c[1..] == b[1..][i - 1 := Entry(b[i].key, v)];
      FindUpdate(b[1..], i - 1, v, k);
    } else {
      assert c[1..] == b[1..];
    }
  }

  /** No key twice, and only keys that belong into bucket `h`. */
  ghost predicate BucketOk(b: Bucket, h: nat) {
    && (forall i, j | 0 <= i < j < |b| :: b[i].key != b[j].key)
    && (forall i | 0 <= i < |b| :: Hash(b[i].key) == h)
  }

  // ------------------------------------------------------------------------------------------
  // The table as a plain map.

  type Plain = map<CInt, CInt>

  datatype Op = WriteKv(k: CInt, v: CInt) | ReadKv(k: CInt)

  ghost predicate Shares(m: Plain, k: CInt) {
    exists j: CInt :: j in m && Hash(j) == Hash(k)
  }

  /** What read_kv answers: the value, -2 for a missing key, -3 when no key of its bucket is present. */
  ghost function ReadAnswer(m: Plain, k: CInt): CInt {
    if k in m then m[k] else if Shares(m, k) then -2 else -3
  }

  /** The answers an operation on a plain map may give; a new key may fail to be allocated. */
  ghost predicate Allowed(m: Plain, op: Op, ret: CInt) {
    match op
    case ReadKv(k) => ret == ReadAnswer(m, k)
    case WriteKv(k, _) => ret == 0 || (ret == -ENOMEM && k !in m)
  }

  ghost function Effect(m: Plain, op: Op, ret: CInt): Plain {
    if op.WriteKv? && ret == 0 then m[op.k := op.v] else m
  }

  ghost predicate TableOk(t: seq<Bucket>) {
    |t| == BUCKETS && forall h | 0 <= h < BUCKETS :: BucketOk(t[h], h)
  }

  ghost predicate Refines(t: seq<Bucket>, m: Plain)
    requires |t| == BUCKETS
  {
    forall k: CInt :: Find(t[Hash(k)], k) == if k in m then Some(m[k]) else None
  }

  /** A bucket is empty exactly when no key of the map belongs into it. */
  lemma EmptyBucket(t: seq<Bucket>, m: Plain, k: CInt)
    requires TableOk(t) && Refines(t, m)
    ensures t[Hash(k)] == [] <==> !Shares(m, k)
  {
    var b := t[Hash(k)];
    if b != [] {
      var j := b[0].key;
      assert Hash(j) == Hash(k) && Find(t[Hash(j)], j).Some?;
    }
    if Shares(m, k) {
      var j: CInt :| j in m && Hash(j) == Hash(k);
      assert Find(t[Hash(j)], j).Some?;
    }
  }

  /** Overwriting the entry of a key is the map update. */
  lemma OverwriteRefines(t: seq<Bucket>, m: Plain, k: CInt, i: nat, v: CInt)
    requires TableOk(t) && Refines(t, m)
    requires i < |t[Hash(k)]| && t[Hash(k)][i].key == k
    ensures var u := t[Hash(k) := t[Hash(k)][i := Entry(k, v)]];
            TableOk(u) && Refines(u, m[k := v])
  {
    var b := t[Hash(k)];
    var u := t[Hash(k) := b[i := Entry(k, v)]];
    assert BucketOk(b, Hash(k));
    forall j: CInt ensures Find(u[Hash(j)], j) == if j in m[k := v] then Some(m[k := v][j]) else None {
      FindUpdate(b, i, v, j);
      assert Find(t[Hash(j)], j) == if j in m then Some(m[j]) else None;
    }
  }

  /** Putting an entry for a missing key in front of its bucket is the map update. */
  lemma InsertRefines(t: seq<Bucket>, m: Plain, k: CInt, v: CInt)
    requires TableOk(t) && Refines(t, m) && Absent(t[Hash(k)], k)
    ensures var u := t[Hash(k) := [Entry(k, v)] + t[Hash(k)]];
            TableOk(u) && Refines(u, m[k := v])
  {
    var b := t[Hash(k)];
    var c := [Entry(k, v)] + b;
    var u := t[Hash(k) := c];
    assert BucketOk(b, Hash(k)) && c[1..] == b;
    forall j: CInt ensures Find(u[Hash(j)], j) == if j in m[k := v] then Some(m[k := v][j]) else None {
      assert Find(t[Hash(j)], j) == if j in m then Some(m[j]) else None;
    }
  }

  /** The three ways a search under the bucket lock ends. */
  lemma SearchAnswers(t: seq<Bucket>, m: Plain, k: CInt, i: nat)
    requires TableOk(t) && Refines(t, m) && i <= |t[Hash(k)]| && Absent(t[Hash(k)][..i], k)
    ensures i < |t[Hash(k)]| && t[Hash(k)][i].key == k ==> k in m && m[k] == t[Hash(k)][i].value
    ensures i == |t[Hash(k)]| ==> k !in m && Absent(t[Hash(k)], k)
    ensures k !in m ==> ReadAnswer(m, k) == if t[Hash(k)] == [] then -3 else -2
  {
    var b := t[Hash(k)];
    assert Find(b, k) == if k in m then Some(m[k]) else None;
    EmptyBucket(t, m, k);
    if i < |b| && b[i].key == k {
      FindAt(b, i, k);
    }
    if i == |b| {
      assert b[..i] == b;
      FindAbsent(b, k);
    }
  }

  // ------------------------------------------------------------------------------------------
  // The calls, run alone.

  class KvTable {
    var buckets: seq<Bucket>

    ghost predicate Holds(m: Plain)
      reads this
    {
      TableOk(buckets) && Refines(buckets, m)
    }

    /** A new process: every bucket is empty. */
    constructor ()
      ensures Holds(map[])
    {
      buckets := seq(BUCKETS, i => []);
    }

    /** write_kv: overwrites the entry of the key, or puts a new one in front if kmalloc succeeds. */
    method WriteKv(k: CInt, v: CInt, kmallocOk: bool, ghost m: Plain) returns (ret: CInt)
      requires Holds(m)
      modifies this
      ensures Allowed(m, Op.WriteKv(k, v), ret)
      ensures Holds(Effect(m, Op.WriteKv(k, v), ret))
      ensures ret == 0 <==> k in m || kmallocOk
    {
      var hash := Hash(k);
      var i := 0;
      while i < |buckets[hash]|
        invariant Holds(m) && i <= |buckets[hash]| && Absent(buckets[hash][..i], k)
      {
        if buckets[hash][i].key == k {
          SearchAnswers(buckets, m, k, i);
          OverwriteRefines(buckets, m, k, i, v);
          buckets := buckets[hash := buckets[hash][i := Entry(k, v)]];
          return 0;
        }
        i := i + 1;
      }
      SearchAnswers(buckets, m, k, i);
      if !kmallocOk {
        return -ENOMEM;
      }
      InsertRefines(buckets, m, k, v);
      buckets := buckets[hash := [Entry(k, v)] + buckets[hash]];
      return 0;
    }

    /** read_kv. */
    method ReadKv(k: CInt, ghost m: Plain) returns (v: CInt)
      requires Holds(m)
      ensures v == ReadAnswer(m, k)
    {
      var hash := Hash(k);
      v := -2;
      if buckets[hash] == [] {
        SearchAnswers(buckets, m, k, 0);
        return -3;
      }
      var i := 0;
      while i < |buckets[hash]|
        invariant i <= |buckets[hash]| && Absent(buckets[hash][..i], k) && v == -2
      {
        if buckets[hash][i].key == k {
          SearchAnswers(buckets, m, k, i);
          return buckets[hash][i].value;
        }
        i := i + 1;
      }
      SearchAnswers(buckets, m, k, i);
    }
  }
}
