/** Shared vocabulary of the model: bytes, 64-bit integers, and the Option and
    Result wrappers that stand for Go's nil pointers and (value, error) pairs. */
module Base {

  /** One byte of a Go string or byte slice. */
  type Byte = c: char | c as int < 256

  /** A Go `string` or `[]byte`, byte by byte. */
  type Bytes = seq<Byte>

  /** Go's `int` and `int64` (the source targets 64-bit platforms). */
  type Int64 = x: int | -0x8000_0000_0000_0000 <= x < 0x8000_0000_0000_0000

  /** strconv.AppendFloat(b, x, 'f', -1, 64): the shortest decimal text of a float64.
      It is not part of this model, so every encoder that prints a float receives it. */
  type FloatFormat = real -> Bytes

  /** Concatenation regrouped, stated apart so that a proof can use it in a small context. */
  lemma Regroup(a: Bytes, b: Bytes, c: Bytes)
    ensures a + b + c == a + (b + c)
  {
  }

  lemma Regroup4(a: Bytes, b: Bytes, c: Bytes, d: Bytes)
    ensures a + b + c + d == a + (b + c + d)
  {
  }

  lemma Regroup6(a: Bytes, b: Bytes, c: Bytes, d: Bytes, e: Bytes, f: Bytes)
    ensures a + b + c + d + e + f == a + (b + c + d + e + f)
  {
  }

  /** A non-empty sequence is its front followed by its last element. */
  lemma FrontLast(ts: seq<Bytes>)
    requires ts != []
    ensures ts[..|ts| - 1] + [ts[|ts| - 1]] == ts
  {
  }

  datatype Option<+T> = None | Some(value: T)

  datatype Result<+T, +E> = Ok(value: T) | Err(error: E)

  /** order lists each index below n exactly once: a permutation of 0 .. n - 1. */
  predicate IsOrder(order: seq<nat>, n: nat) {
    && |order| == n
    && (forall i :: 0 <= i < n ==> order[i] < n)
    && (forall i, j :: 0 <= i < j < n ==> order[i] != order[j])
    && (forall k :: 0 <= k < n ==> k in order)
  }

  /** s read in the given order. */
  function Permuted<T>(s: seq<T>, order: seq<nat>): (p: seq<T>)
    requires IsOrder(order, |s|)
    ensures |p| == |s|
  {
    seq(|s|, i requires 0 <= i < |s| => s[order[i]])
  }

  /** Taking the last index out of a permutation leaves a permutation of the rest. */
  lemma DropLast(order: seq<nat>, n: nat) returns (j: nat, order': seq<nat>)
    requires IsOrder(order, n) && n > 0
    ensures j < n && order[j] == n - 1 && order' == order[..j] + order[j + 1..]
    ensures IsOrder(order', n - 1)
  {
    assert n - 1 in order;
    j :| 0 <= j < n && order[j] == n - 1;
    order' := order[..j] + order[j + 1..];
    forall i | 0 <= i < n - 1
      ensures order'[i] == order[if i < j then i else i + 1] < n - 1
    {
    }
    forall a, b | 0 <= a < b < n - 1
      ensures order'[a] != order'[b]
    {
      assert order'[a] == order[if a < j then a else a + 1];
      assert order'[b] == order[if b < j then b else b + 1];
    }
    forall k | 0 <= k < n - 1
      ensures k in order'
    {
      assert k in order;
      var i :| 0 <= i < n && order[i] == k;
      if i < j {
        assert order'[i] == k;
      } else {
        assert order'[i - 1] == k;
      }
    }
  }

  /** Reading a sequence in the order of a permutation keeps its multiset. */
  lemma {:induction false} PermutedMultiset<T>(s: seq<T>, order: seq<nat>)
    requires IsOrder(order, |s|)
    ensures multiset(Permuted(s, order)) == multiset(s)
    decreases |s|
  {
    var n := |s|;
    if n > 0 {
      var j, order' := DropLast(order, n);
      var s' := s[..n - 1];
      PermutedMultiset(s', order');
      var p' := Permuted(s', order');
      PermutedSplit(s, order, j, order');
      assert p'[..j] + p'[j..] == p';
      assert s' + [s[n - 1]] == s;
      assert multiset(Permuted(s, order)) == multiset(p'[..j]) + multiset([s[n - 1]]) + multiset(p'[j..]);
      calc {
        multiset(p'[..j]) + multiset([s[n - 1]]) + multiset(p'[j..]);
        multiset(p') + multiset([s[n - 1]]);
        multiset(s);
      }
    }
  }

  /** The last element's place in the permuted sequence, the rest read in the smaller order. */
  lemma PermutedSplit<T>(s: seq<T>, order: seq<nat>, j: nat, order': seq<nat>)
    requires IsOrder(order, |s|) && |s| > 0 && IsOrder(order', |s| - 1)
    requires j < |s| && order[j] == |s| - 1 && order' == order[..j] + order[j + 1..]
    ensures var p' := Permuted(s[..|s| - 1], order');
            Permuted(s, order) == p'[..j] + [s[|s| - 1]] + p'[j..]
  {
  }
}
