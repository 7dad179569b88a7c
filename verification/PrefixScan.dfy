/** The key scan by prefix over a bucket's cursor: keys in byte order, a seek to the first key not below the prefix,
    then next while the prefix matches. */
module PrefixScan {
  import opened Wrappers

  type Byte = b: int | 0 <= b < 256

  type Key = seq<Byte>

  /** Byte order: a proper prefix comes first. */
  predicate Less(a: Key, b: Key) {
    b != [] && (a == [] || a[0] < b[0] || (a[0] == b[0] && Less(a[1..], b[1..])))
  }

  predicate HasPrefix(key: Key, prefix: Key) {
    |prefix| <= |key| && key[..|prefix|] == prefix
  }

  /** A bucket holds distinct keys, none of them empty, and its cursor walks them in byte order. */
  predicate IsBucket(keys: seq<Key>) {
    && (forall i, j :: 0 <= i < j < |keys| ==> Less(keys[i], keys[j]))
    && (forall i :: 0 <= i < |keys| ==> keys[i] != [])
  }

  /** The specification: the keys that have the prefix, in order, once each. */
  function Matching(keys: seq<Key>, prefix: Key): seq<Key> {
    if keys == [] then []
    else (if HasPrefix(keys[0], prefix) then [keys[0]] else []) + Matching(keys[1..], prefix)
  }

  // ---- Byte order ----

  /** Up to place n the keys are the same, and there the first one has ended or has the smaller byte. */
  predicate SmallerAt(a: Key, b: Key, n: nat) {
    n <= |a| && n < |b| && a[..n] == b[..n] && (n == |a| || a[n] < b[n])
  }

  /** Byte order: the smaller key is the one that ends first, or has the smaller byte, where the two first differ. */
  lemma LessMeans(a: Key, b: Key)
    ensures Less(a, b) <==> exists n: nat :: SmallerAt(a, b, n)
  {
    if Less(a, b) {
      var n := FirstDifference(a, b);
    }
    forall n: nat | SmallerAt(a, b, n) ensures Less(a, b) {
      SmallerIsLess(a, b, n);
    }
  }

  lemma {:induction false} FirstDifference(a: Key, b: Key) returns (n: nat)
    requires Less(a, b)
    ensures SmallerAt(a, b, n)
  {
    n := 0;
    if a != [] && a[0] == b[0] {
      var m := FirstDifference(a[1..], b[1..]);
      n := m + 1;
      assert a[..n] == [a[0]] + a[1..][..n - 1] && b[..n] == [b[0]] + b[1..][..n - 1];
    }
  }

  lemma {:induction false} SmallerIsLess(a: Key, b: Key, n: nat)
    requires SmallerAt(a, b, n)
    ensures Less(a, b)
    decreases n
  {
    if n > 0 {
      assert a[0] == a[..n][0] == b[..n][0] == b[0];
      assert a[1..][..n - 1] == a[..n][1..] && b[1..][..n - 1] == b[..n][1..];
      SmallerIsLess(a[1..], b[1..], n - 1);
    }
  }

  lemma {:induction false} LessTransitive(a: Key, b: Key, c: Key)
    requires Less(a, b) && Less(b, c)
    ensures Less(a, c)
  {
    if a != [] && a[0] == b[0] == c[0] {
      LessTransitive(a[1..], b[1..], c[1..]);
    }
  }

  /** A key is never below a prefix of its own. */
  lemma {:induction false} PrefixNotAbove(key: Key, prefix: Key)
    requires HasPrefix(key, prefix)
    ensures !Less(key, prefix)
  {
    if prefix != [] {
      assert key[0] == prefix[0];
      assert key[1..][..|prefix| - 1] == key[..|prefix|][1..];
      PrefixNotAbove(key[1..], prefix[1..]);
    }
  }

  /** Between the prefix and a key that has it lie only keys that have it. */
  lemma {:induction false} PrefixConvex(prefix: Key, between: Key, key: Key)
    requires HasPrefix(key, prefix) && !Less(between, prefix) && Less(between, key)
    ensures HasPrefix(between, prefix)
  {
    if prefix != [] {
      assert key[0] == prefix[0] == between[0];
      assert key[1..][..|prefix| - 1] == key[..|prefix|][1..];
      PrefixConvex(prefix[1..], between[1..], key[1..]);
      assert between[..|prefix|] == [between[0]] + between[1..][..|prefix| - 1];
    }
  }

  // ---- The block of matching keys ----

  lemma {:induction false} MatchingConcat(a: seq<Key>, b: seq<Key>, prefix: Key)
    ensures Matching(a + b, prefix) == Matching(a, prefix) + Matching(b, prefix)
  {
    if a == [] {
      assert a + b == b;
    } else {
      assert (a + b)[1..] == a[1..] + b;
      MatchingConcat(a[1..], b, prefix);
    }
  }

  lemma {:induction false} MatchingNone(keys: seq<Key>, prefix: Key)
    requires forall i :: 0 <= i < |keys| ==> !HasPrefix(keys[i], prefix)
    ensures Matching(keys, prefix) == []
  {
    if keys != [] {
      MatchingNone(keys[1..], prefix);
    }
  }

  lemma {:induction false} MatchingAll(keys: seq<Key>, prefix: Key)
    requires forall i :: 0 <= i < |keys| ==> HasPrefix(keys[i], prefix)
    ensures Matching(keys, prefix) == keys
  {
    if keys != [] {
      MatchingAll(keys[1..], prefix);
    }
  }

  /** Where a seek lands: below it every key is less than the sought one, from it on none is. */
  predicate IsLowerBound(keys: seq<Key>, seek: Key, pos: nat) {
    && pos <= |keys|
    && (forall i :: 0 <= i < pos ==> Less(keys[i], seek))
    && (forall i :: pos <= i < |keys| ==> !Less(keys[i], seek))
  }

  lemma NoneBelow(keys: seq<Key>, prefix: Key, lo: nat)
    requires IsLowerBound(keys, prefix, lo)
    ensures Matching(keys[..lo], prefix) == []
  {
    forall i | 0 <= i < lo ensures !HasPrefix(keys[i], prefix) {
      if HasPrefix(keys[i], prefix) {
        PrefixNotAbove(keys[i], prefix);
      }
    }
    MatchingNone(keys[..lo], prefix);
  }

  lemma NoneAbove(keys: seq<Key>, prefix: Key, lo: nat, hi: nat)
    requires IsBucket(keys) && IsLowerBound(keys, prefix, lo) && lo <= hi <= |keys|
    requires hi < |keys| ==> !HasPrefix(keys[hi], prefix)
    ensures Matching(keys[hi..], prefix) == []
  {
    forall i | hi <= i < |keys| ensures !HasPrefix(keys[i], prefix) {
      if hi < i && HasPrefix(keys[i], prefix) {
        PrefixConvex(prefix, keys[hi], keys[i]);
      }
    }
    MatchingNone(keys[hi..], prefix);
  }

  lemma AllBetween(keys: seq<Key>, prefix: Key, lo: nat, hi: nat)
    requires lo <= hi <= |keys| && forall i :: lo <= i < hi ==> HasPrefix(keys[i], prefix)
    ensures Matching(keys[lo..hi], prefix) == keys[lo..hi]
  {
    var block := keys[lo..hi];
    assert forall i :: 0 <= i < |block| ==> block[i] == keys[lo + i];
    MatchingAll(block, prefix);
  }

  lemma MatchingSplit(keys: seq<Key>, prefix: Key, lo: nat, hi: nat)
    requires lo <= hi <= |keys|
    ensures Matching(keys, prefix)
         == Matching(keys[..lo], prefix) + Matching(keys[lo..hi], prefix) + Matching(keys[hi..], prefix)
  {
    assert keys == keys[..hi] + keys[hi..] && keys[..hi] == keys[..lo] + keys[lo..hi];
    MatchingConcat(keys[..hi], keys[hi..], prefix);
    MatchingConcat(keys[..lo], keys[lo..hi], prefix);
  }

  /** The matching keys are one contiguous block that starts at the lower bound: a run of matches from there
      that cannot be extended is all of them. */
  lemma BlockIsComplete(keys: seq<Key>, prefix: Key, lo: nat, hi: nat)
    requires IsBucket(keys) && IsLowerBound(keys, prefix, lo) && lo <= hi <= |keys|
    requires forall i :: lo <= i < hi ==> HasPrefix(keys[i], prefix)
    requires hi < |keys| ==> !HasPrefix(keys[hi], prefix)
    ensures Matching(keys, prefix) == keys[lo..hi]
  {
    MatchingSplit(keys, prefix, lo, hi);
    NoneBelow(keys, prefix, lo);
    NoneAbove(keys, prefix, lo, hi);
    AllBetween(keys, prefix, lo, hi);
    assert Matching(keys, prefix) == [] + keys[lo..hi] + [];
  }

  /** What the specification means: exactly the keys with the prefix, in the bucket's order, none twice. */
  lemma {:induction false} MatchingMeans(keys: seq<Key>, prefix: Key)
    requires IsBucket(keys)
    ensures forall k :: k in Matching(keys, prefix) <==> k in keys && HasPrefix(k, prefix)
    ensures IsBucket(Matching(keys, prefix))
    ensures multiset(Matching(keys, prefix)) <= multiset(keys)
  {
    if keys != [] {
      var rest := Matching(keys[1..], prefix);
      MatchingMeans(keys[1..], prefix);
      assert keys == [keys[0]] + keys[1..];
      forall i | 0 <= i < |rest| ensures Less(keys[0], rest[i]) {
        assert rest[i] in keys[1..];
        var j :| 0 <= j < |keys[1..]| && keys[1..][j] == rest[i];
        assert keys[j + 1] == rest[i];
      }
    }
  }

  // ---- The scan ----

  /** How a scan ends. One that is endless never comes back. */
  datatype Lookup<T> = Found(value: T) | DbNotFound | Endless

  /** Past its last key the cursor yields the nil key, which reads as an empty one. */
  function KeyAt(keys: seq<Key>, pos: nat): Key {
    if pos < |keys| then keys[pos] else []
  }

  method Seek(keys: seq<Key>, seek: Key) returns (pos: nat)
    requires IsBucket(keys)
    ensures IsLowerBound(keys, seek, pos)
  {
    pos := 0;
    while pos < |keys| && Less(keys[pos], seek)
      invariant pos <= |keys|
      invariant forall i :: 0 <= i < pos ==> Less(keys[i], seek)
    {
      pos := pos + 1;
    }
    forall i | pos < i < |keys| ensures !Less(keys[i], seek) {
      if Less(keys[i], seek) {
        LessTransitive(keys[pos], keys[i], seek);
      }
    }
  }

  /** The keys of a bucket that start with the prefix; a missing bucket is an error. With an empty prefix the loop has
      no end: see ScanEndsExactlyForNonEmptyPrefix. */
  method GetAllKeysByPrefix(bucket: Option<seq<Key>>, prefix: Key) returns (data: seq<Key>, result: Lookup<seq<Key>>)
    requires bucket.Some? ==> IsBucket(bucket.value)
    ensures bucket.None? ==> data == [] && result == DbNotFound
    ensures bucket.Some? && prefix != [] ==> data == Matching(bucket.value, prefix) && result == Found(data)
    ensures bucket.Some? && prefix == [] ==> result == Endless
  {
    data := [];
    if bucket.None? {
      return data, DbNotFound;
    }
    var keys := bucket.value;
    var pos := Seek(keys, prefix);
    ghost var start := pos;
    if prefix == [] {
      return data, Endless;
    }
    while HasPrefix(KeyAt(keys, pos), prefix)
      invariant start <= pos <= |keys|
      invariant data == keys[start..pos]
      invariant forall i :: start <= i < pos ==> HasPrefix(keys[i], prefix)
      decreases |keys| - pos
    {
      data := data + [KeyAt(keys, pos)];
      pos := pos + 1;
    }
    BlockIsComplete(keys, prefix, start, pos);
    result := Found(data);
  }

  /** The cursor's position after n calls of next: it stays behind the last key. */
  function Advanced(keys: seq<Key>, pos: nat, n: nat): nat {
    if pos + n < |keys| then pos + n else |keys|
  }

  /** The loop test fails after some number of turns exactly when the prefix is not empty:
      with an empty prefix the nil key keeps matching for ever. */
  lemma ScanEndsExactlyForNonEmptyPrefix(keys: seq<Key>, prefix: Key, start: nat)
    requires IsBucket(keys) && IsLowerBound(keys, prefix, start)
    ensures (exists n: nat :: !HasPrefix(KeyAt(keys, Advanced(keys, start, n)), prefix)) <==> prefix != []
  {
    if prefix != [] {
      assert !HasPrefix(KeyAt(keys, Advanced(keys, start, |keys|)), prefix);
    }
  }
}
