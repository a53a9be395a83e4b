// Vocabulary shared by every part of the model.
module Common {
  datatype Option<+T> = None | Some(value: T)

  // Identities. A thread id stands for std::thread::id, a fiber id for a Fiber
  // object, a callback id for a std::function value that is not empty.
  type Tid = nat
  type Fid = nat
  type CbId = nat

  datatype FiberState = READY | RUNNING | TERM

  // An invariant written `forall n {:trigger Unfold(n)} :: Unfold(n) ==> P` is
  // unfolded only where a proof mentions Unfold, so its parts stay out of proofs
  // that merely pass it on.
  predicate Unfold(n: nat) { true }
  predicate UnfoldIndex(n: nat) { true }

  function RemoveAt<T>(q: seq<T>, k: nat): (r: seq<T>)
    requires k < |q|
    ensures |r| == |q| - 1
    ensures forall i :: 0 <= i < k ==> r[i] == q[i]
    ensures forall i :: k <= i < |r| ==> r[i] == q[i + 1]
  {
    q[..k] + q[k + 1..]
  }

  // Removing one position keeps every other element, and nothing else.
  lemma RemoveAtMembers<T>(q: seq<T>, k: nat, x: T)
    requires k < |q|
    ensures x in RemoveAt(q, k) ==> x in q
    ensures x in q && x != q[k] ==> x in RemoveAt(q, k)
  {
    var r := RemoveAt(q, k);
    if x in r {
      var i :| 0 <= i < |r| && r[i] == x;
      assert q[if i < k then i else i + 1] == x;
    }
    if x in q && x != q[k] {
      var i :| 0 <= i < |q| && q[i] == x;
      assert r[if i < k then i else i - 1] == x;
    }
  }

  lemma UpdateTwice<K, V>(m: map<K, V>, k: K, x: V, y: V)
    ensures m[k := x][k := y] == m[k := y]
  {
  }

  // The sum of w over a sequence. With a w that counts how often one item occurs
  // in an element, it counts the places of that item.
  function Total<T>(q: seq<T>, w: T -> nat): nat {
    if q == [] then 0 else Total(q[..|q| - 1], w) + w(q[|q| - 1])
  }

  lemma TotalSnoc<T>(q: seq<T>, y: T, w: T -> nat)
    ensures Total(q + [y], w) == Total(q, w) + w(y)
  {
    assert (q + [y])[..|q|] == q;
  }

  lemma {:induction false} TotalUpdate<T>(q: seq<T>, k: nat, y: T, w: T -> nat)
    requires k < |q|
    ensures Total(q[k := y], w) + w(q[k]) == Total(q, w) + w(y)
    decreases |q|
  {
    var n := |q| - 1;
    if k == n {
      assert q[k := y][..n] == q[..n];
    } else {
      TotalUpdate(q[..n], k, y, w);
      assert q[k := y][..n] == q[..n][k := y];
    }
  }

  lemma {:induction false} TotalRemoveAt<T>(q: seq<T>, k: nat, w: T -> nat)
    requires k < |q|
    ensures Total(q, w) == Total(RemoveAt(q, k), w) + w(q[k])
    decreases |q|
  {
    var n := |q| - 1;
    if k == n {
      assert RemoveAt(q, k) == q[..n];
    } else {
      TotalRemoveAt(q[..n], k, w);
      assert RemoveAt(q, k) == RemoveAt(q[..n], k) + [q[n]];
      TotalSnoc(RemoveAt(q[..n], k), q[n], w);
    }
  }

  lemma {:induction false} TotalNothing<T>(q: seq<T>, w: T -> nat)
    requires forall i :: 0 <= i < |q| ==> w(q[i]) == 0
    ensures Total(q, w) == 0
  {
    if q != [] {
      TotalNothing(q[..|q| - 1], w);
    }
  }

  lemma {:induction false} TotalAtLeast<T>(q: seq<T>, k: nat, w: T -> nat)
    requires k < |q|
    ensures Total(q, w) >= w(q[k])
  {
    TotalRemoveAt(q, k, w);
  }
}
