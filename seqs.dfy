/**
 * The TArray operations the translators use (Insert, RemoveAt, SetNumZeroed)
 * and the selection of the elements whose key equals a given key, which is
 * how transforms are grouped by variation, by attribute value or by object id.
 */
module Seqs {

  /** `TArray::Insert(x, i)`. */
  function InsertAt<T>(s: seq<T>, i: nat, x: T): (r: seq<T>)
    requires i <= |s|
    ensures |r| == |s| + 1 && r[i] == x
    ensures forall k :: 0 <= k < i ==> r[k] == s[k]
    ensures forall k :: i < k < |r| ==> r[k] == s[k - 1]
  {
    s[..i] + [x] + s[i..]
  }

  /** `TArray::RemoveAt(i)`. */
  function RemoveAt<T>(s: seq<T>, i: nat): (r: seq<T>)
    requires i < |s|
    ensures |r| == |s| - 1
    ensures forall k :: 0 <= k < i ==> r[k] == s[k]
    ensures forall k :: i <= k < |r| ==> r[k] == s[k + 1]
  {
    s[..i] + s[i + 1..]
  }

  /** `TArray::SetNumZeroed(n)`: keeps the first entries, zero-fills growth. */
  function ResizeZeroed(s: seq<int>, n: nat): (r: seq<int>)
    ensures |r| == n
    ensures forall k :: 0 <= k < n && k < |s| ==> r[k] == s[k]
    ensures forall k :: |s| <= k < n ==> r[k] == 0
  {
    if n <= |s| then s[..n] else s + seq(n - |s|, _ => 0)
  }

  /** The elements of `s` whose mark is false, in order. */
  function Drop<T>(s: seq<T>, marks: seq<bool>): (r: seq<T>)
    requires |marks| == |s|
    ensures |r| <= |s|
    decreases |s|
  {
    if |s| == 0 then []
    else (if marks[0] then [] else [s[0]]) + Drop(s[1..], marks[1..])
  }

  lemma {:induction false} DropUnmarked<T>(s: seq<T>, marks: seq<bool>)
    requires |marks| == |s|
    requires forall k :: 0 <= k < |s| ==> !marks[k]
    ensures Drop(s, marks) == s
    decreases |s|
  {
    if |s| > 0 {
      DropUnmarked(s[1..], marks[1..]);
    }
  }

  /** Removing the first entries when they are unmarked keeps them. */
  lemma {:induction false} DropSplit<T>(s: seq<T>, marks: seq<bool>, b: nat)
    requires |marks| == |s| && b <= |s|
    requires forall k :: 0 <= k < b ==> !marks[k]
    ensures Drop(s, marks) == s[..b] + Drop(s[b..], marks[b..])
    decreases b
  {
    if b > 0 {
      DropSplit(s[1..], marks[1..], b - 1);
      calc {
        Drop(s, marks);
        [s[0]] + Drop(s[1..], marks[1..]);
        { assert s[1..][..b - 1] == s[1..b];
          assert s[1..][b - 1..] == s[b..];
          assert marks[1..][b - 1..] == marks[b..]; }
        [s[0]] + (s[1..b] + Drop(s[b..], marks[b..]));
        { assert s[..b] == [s[0]] + s[1..b]; }
        s[..b] + Drop(s[b..], marks[b..]);
      }
    }
  }

  lemma {:induction false} DropLength<T>(s: seq<T>, marks: seq<bool>)
    requires |marks| == |s|
    ensures |Drop(s, marks)| == |s| <==> forall k :: 0 <= k < |s| ==> !marks[k]
    decreases |s|
  {
    if |s| > 0 {
      DropLength(s[1..], marks[1..]);
      if marks[0] {
        assert |Drop(s, marks)| < |s|;
      } else {
        forall k | 1 <= k < |s| ensures marks[k] == marks[1..][k - 1] { }
      }
    }
  }

  /** The entries `s[k]`, `k < n`, whose key `keys[k]` equals `v`, in order. */
  function SelectUpTo<T, K(==)>(s: seq<T>, keys: seq<K>, v: K, n: nat): (r: seq<T>)
    requires n <= |s| && n <= |keys|
    ensures |r| <= n
  {
    if n == 0 then []
    else SelectUpTo(s, keys, v, n - 1) + (if keys[n - 1] == v then [s[n - 1]] else [])
  }

  /** Each selected entry is an entry of `s` at a position whose key is `v`. */
  lemma {:induction false} SelectUpToSound<T, K>(s: seq<T>, keys: seq<K>, v: K, n: nat, j: nat)
    requires n <= |s| && n <= |keys| && j < |SelectUpTo(s, keys, v, n)|
    ensures exists k :: 0 <= k < n && keys[k] == v && s[k] == SelectUpTo(s, keys, v, n)[j]
  {
    var prev := SelectUpTo(s, keys, v, n - 1);
    if j < |prev| {
      SelectUpToSound(s, keys, v, n - 1, j);
    } else {
      assert keys[n - 1] == v && SelectUpTo(s, keys, v, n)[j] == s[n - 1];
    }
  }

  /** With no key equal to `v`, nothing is selected; with all keys equal, everything is. */
  lemma {:induction false} SelectUpToAll<T, K>(s: seq<T>, keys: seq<K>, v: K, n: nat)
    requires n <= |s| && n <= |keys|
    requires forall k :: 0 <= k < n ==> keys[k] == v
    ensures SelectUpTo(s, keys, v, n) == s[..n]
  {
    if n > 0 {
      SelectUpToAll(s, keys, v, n - 1);
      assert s[..n] == s[..n - 1] + [s[n - 1]];
    }
  }

  /** The selections for `groups`, one after the other. */
  function ConcatSelected<T, K(==)>(s: seq<T>, keys: seq<K>, groups: seq<K>, n: nat): seq<T>
    requires n <= |s| && n <= |keys|
  {
    if |groups| == 0 then []
    else ConcatSelected(s, keys, groups[..|groups| - 1], n) + SelectUpTo(s, keys, groups[|groups| - 1], n)
  }

  predicate Distinct<K(==)>(g: seq<K>)
  {
    forall i, j :: 0 <= i < j < |g| ==> g[i] != g[j]
  }

  lemma {:induction false} ConcatSelectedStep<T, K>(s: seq<T>, keys: seq<K>, groups: seq<K>, n: nat)
    requires n < |s| && n < |keys| && Distinct(groups)
    ensures multiset(ConcatSelected(s, keys, groups, n + 1))
         == multiset(ConcatSelected(s, keys, groups, n)) + (if keys[n] in groups then multiset{s[n]} else multiset{})
  {
    if |groups| > 0 {
      var init := groups[..|groups| - 1];
      var last := groups[|groups| - 1];
      assert Distinct(init);
      ConcatSelectedStep(s, keys, init, n);
      assert keys[n] in groups <==> keys[n] in init || keys[n] == last;
      assert keys[n] == last ==> keys[n] !in init;
    }
  }

  /** One more element of a prefix. */
  lemma PrefixSnoc<T>(s: seq<T>, m: nat)
    requires m < |s|
    ensures multiset(s[..m + 1]) == multiset(s[..m]) + multiset{s[m]}
  {
    assert s[..m + 1] == s[..m] + [s[m]];
  }

  /** When every key is one of the distinct `groups`, the groups partition `s[..n]`. */
  lemma {:induction false} SelectionsPartition<T, K>(s: seq<T>, keys: seq<K>, groups: seq<K>, n: nat)
    requires n <= |s| && n <= |keys| && Distinct(groups)
    requires forall k :: 0 <= k < n ==> keys[k] in groups
    ensures multiset(ConcatSelected(s, keys, groups, n)) == multiset(s[..n])
  {
    if n == 0 {
      ConcatSelectedEmpty(s, keys, groups);
    } else {
      var m := n - 1;
      SelectionsPartition(s, keys, groups, m);
      assert multiset(ConcatSelected(s, keys, groups, n))
          == multiset(ConcatSelected(s, keys, groups, m)) + multiset{s[m]} by {
        ConcatSelectedStep(s, keys, groups, m);
        assert keys[m] in groups;
      }
      PrefixSnoc(s, m);
    }
  }

  lemma {:induction false} ConcatSelectedEmpty<T, K>(s: seq<T>, keys: seq<K>, groups: seq<K>)
    ensures ConcatSelected(s, keys, groups, 0) == []
  {
    if |groups| > 0 {
      ConcatSelectedEmpty(s, keys, groups[..|groups| - 1]);
    }
  }

  /** `[0, 1, ..., n - 1]`. */
  function Range(n: nat): (r: seq<int>)
    ensures |r| == n && Distinct(r)
    ensures forall k :: 0 <= k < n ==> r[k] == k
  {
    seq(n, k => k)
  }

  /** Indices below `n` are all in `Range(n)`. */
  lemma InRange(ix: seq<int>, n: nat)
    requires forall k :: 0 <= k < |ix| ==> 0 <= ix[k] < n
    ensures forall k :: 0 <= k < |ix| ==> ix[k] in Range(n)
  {
    var r := Range(n);
    forall k | 0 <= k < |ix| ensures ix[k] in r {
      assert r[ix[k]] == ix[k];
    }
  }

  /** The concatenation of all the inner sequences. */
  function Flatten<T>(ss: seq<seq<T>>): seq<T>
  {
    if |ss| == 0 then [] else Flatten(ss[..|ss| - 1]) + ss[|ss| - 1]
  }

  lemma FlattenAppend<T>(ss: seq<seq<T>>, s: seq<T>)
    ensures Flatten(ss + [s]) == Flatten(ss) + s
  {
    assert (ss + [s])[..|ss|] == ss;
  }

  lemma {:induction false} FlattenConcat<T>(a: seq<seq<T>>, b: seq<seq<T>>)
    ensures Flatten(a + b) == Flatten(a) + Flatten(b)
    decreases |b|
  {
    if |b| > 0 {
      var b' := b[..|b| - 1];
      FlattenConcat(a, b');
      assert a + b == (a + b') + [b[|b| - 1]];
      FlattenAppend(a + b', b[|b| - 1]);
      assert b == b' + [b[|b| - 1]];
      FlattenAppend(b', b[|b| - 1]);
    } else {
      assert a + b == a;
    }
  }
}
