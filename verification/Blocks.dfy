/** Sequences put together from pieces, and pieces of equal size found again. */
module Blocks {
  function Joined<T>(blocks: seq<seq<T>>): seq<T> {
    if blocks == [] then [] else blocks[0] + Joined(blocks[1..])
  }

  lemma {:induction false} JoinedSnoc<T>(blocks: seq<seq<T>>, block: seq<T>)
    ensures Joined(blocks + [block]) == Joined(blocks) + block
  {
    if blocks == [] {
      assert (blocks + [block])[1..] == [];
    } else {
      JoinedSnoc(blocks[1..], block);
      assert (blocks + [block])[1..] == blocks[1..] + [block];
    }
  }

  /** Where the n-th of equal pieces starts: n * size. */
  function Start(size: nat, n: nat): nat {
    if n == 0 then 0 else Start(size, n - 1) + size
  }

  lemma {:induction false} StartIsProduct(size: nat, n: nat)
    ensures Start(size, n) == n * size
  {
    if n > 0 {
      StartIsProduct(size, n - 1);
    }
  }

  lemma {:induction false} StartInside(size: nat, m: nat, n: nat)
    requires m < n
    ensures Start(size, m) + size <= Start(size, n)
  {
    if m < n - 1 {
      StartInside(size, m, n - 1);
    }
  }

  predicate AllOfSize<T>(blocks: seq<seq<T>>, size: nat) {
    forall i :: 0 <= i < |blocks| ==> |blocks[i]| == size
  }

  lemma {:induction false} JoinedSize<T>(blocks: seq<seq<T>>, size: nat)
    requires AllOfSize(blocks, size)
    ensures |Joined(blocks)| == Start(size, |blocks|)
  {
    if blocks != [] {
      var n := |blocks| - 1;
      JoinedSize(blocks[..n], size);
      JoinedSnoc(blocks[..n], blocks[n]);
      assert blocks == blocks[..n] + [blocks[n]];
    }
  }

  lemma {:induction false} JoinedAt<T>(blocks: seq<seq<T>>, size: nat, i: nat)
    requires AllOfSize(blocks, size) && i < |blocks|
    ensures Start(size, i) + size <= |Joined(blocks)|
    ensures Joined(blocks)[Start(size, i)..Start(size, i) + size] == blocks[i]
    decreases |blocks|
  {
    var n := |blocks| - 1;
    var before, at := Joined(blocks[..n]), Start(size, i);
    JoinedSize(blocks[..n], size);
    JoinedSnoc(blocks[..n], blocks[n]);
    assert blocks == blocks[..n] + [blocks[n]];
    if i < n {
      JoinedAt(blocks[..n], size, i);
      assert (before + blocks[n])[at..at + size] == before[at..at + size];
    } else {
      assert (before + blocks[n])[at..at + size] == blocks[n];
    }
  }

  lemma Reslice<T>(a: seq<T>, i: nat, j: nat, k: nat, m: nat)
    requires i <= j <= |a| && k <= m <= j - i
    ensures a[i..j][k..m] == a[i + k..i + m]
  {
    assert forall x :: 0 <= x < m - k ==> a[i..j][k..m][x] == a[i..j][k + x] == a[i + k + x];
  }
}
