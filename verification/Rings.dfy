/**
 Circular doubly linked lists threaded through chunk memory by the words `fd` and `bk`.
 A ring is the sequence of its nodes, starting anywhere.
 */
module Rings {

  predicate Distinct(s: seq<nat>) {
    forall i, j :: 0 <= i < j < |s| ==> s[i] != s[j]
  }

  function Succ(s: seq<nat>, k: nat): nat
    requires k < |s|
  {
    if k + 1 < |s| then s[k + 1] else s[0]
  }

  function Pred(s: seq<nat>, k: nat): nat
    requires k < |s|
  {
    if k > 0 then s[k - 1] else s[|s| - 1]
  }

  predicate Points(fd: map<nat, nat>, s: seq<nat>, k: nat) {
    k < |s| ==> s[k] in fd && fd[s[k]] == Succ(s, k)
  }

  predicate PointsBack(bk: map<nat, nat>, s: seq<nat>, k: nat) {
    k < |s| ==> s[k] in bk && bk[s[k]] == Pred(s, k)
  }

  ghost predicate Forward(fd: map<nat, nat>, s: seq<nat>) {
    forall k {:trigger Points(fd, s, k)} :: Points(fd, s, k)
  }

  ghost predicate Backward(bk: map<nat, nat>, s: seq<nat>) {
    forall k {:trigger PointsBack(bk, s, k)} :: PointsBack(bk, s, k)
  }

  /** The ring `s` is linked in memory. */
  ghost predicate Ring(fd: map<nat, nat>, bk: map<nat, nat>, s: seq<nat>) {
    s != [] && Distinct(s) && Forward(fd, s) && Backward(bk, s)
  }

  /** Two memories agree on the links of the nodes of `s`. */
  predicate SameLinks(fd: map<nat, nat>, bk: map<nat, nat>, fd': map<nat, nat>, bk': map<nat, nat>, s: seq<nat>) {
    forall k :: 0 <= k < |s| && s[k] in fd && s[k] in bk ==>
      s[k] in fd' && s[k] in bk' && fd'[s[k]] == fd[s[k]] && bk'[s[k]] == bk[s[k]]
  }

  lemma RingFrame(fd: map<nat, nat>, bk: map<nat, nat>, fd': map<nat, nat>, bk': map<nat, nat>, s: seq<nat>)
    requires Ring(fd, bk, s) && SameLinks(fd, bk, fd', bk', s)
    ensures Ring(fd', bk', s)
  {
    forall k: nat
      ensures Points(fd', s, k) && PointsBack(bk', s, k)
    {
      assert Points(fd, s, k) && PointsBack(bk, s, k);
    }
  }

  /** `x` placed right after the first node. */
  function InsertSecond(s: seq<nat>, x: nat): seq<nat>
    requires s != []
  {
    [s[0], x] + s[1..]
  }

  /** Linking `x` behind the first node, as insert_small_chunk and insert_large_chunk do. */
  lemma LinkSecond(fd: map<nat, nat>, bk: map<nat, nat>, s: seq<nat>, x: nat)
    requires Ring(fd, bk, s) && x !in s
    ensures s[0] in fd
    ensures var f := fd[s[0]];
            Ring(fd[s[0] := x][x := f], bk[f := x][x := s[0]], InsertSecond(s, x))
  {
    assert Points(fd, s, 0);
    LinkForward(fd, s, x);
    LinkBackward(bk, s, x);
    LinkDistinct(s, x);
  }

  lemma LinkDistinct(s: seq<nat>, x: nat)
    requires s != [] && Distinct(s) && x !in s
    ensures Distinct(InsertSecond(s, x))
  {
    var t := InsertSecond(s, x);
    forall i, j | 0 <= i < j < |t|
      ensures t[i] != t[j]
    {
      assert j >= 2 ==> t[j] == s[j - 1];
      assert i >= 2 ==> t[i] == s[i - 1];
    }
  }

  lemma LinkForward(fd: map<nat, nat>, s: seq<nat>, x: nat)
    requires s != [] && Distinct(s) && Forward(fd, s) && x !in s
    ensures s[0] in fd && fd[s[0]] == Succ(s, 0)
    ensures Forward(fd[s[0] := x][x := Succ(s, 0)], InsertSecond(s, x))
  {
    var t, fd' := InsertSecond(s, x), fd[s[0] := x][x := Succ(s, 0)];
    assert Points(fd, s, 0);
    forall k: nat
      ensures Points(fd', t, k)
    {
      if 2 <= k < |t| {
        assert t[k] == s[k - 1] && s[k - 1] != s[0] && Points(fd, s, k - 1);
      }
    }
  }

  lemma LinkBackward(bk: map<nat, nat>, s: seq<nat>, x: nat)
    requires s != [] && Distinct(s) && Backward(bk, s) && x !in s
    ensures Backward(bk[Succ(s, 0) := x][x := s[0]], InsertSecond(s, x))
  {
    var t, bk' := InsertSecond(s, x), bk[Succ(s, 0) := x][x := s[0]];
    forall k: nat
      ensures PointsBack(bk', t, k)
    {
      if k != 1 && k < |t| {
        var j := if k == 0 then 0 else k - 1;
        assert t[k] == s[j] && PointsBack(bk, s, j);
        assert s[j] == Succ(s, 0) <==> j == if |s| > 1 then 1 else 0;
      }
    }
  }

  function Without(s: seq<nat>, k: nat): seq<nat>
    requires k < |s|
  {
    s[..k] + s[k + 1..]
  }

  /** Unlinking node `k` by joining its neighbours. */
  lemma Unlink(fd: map<nat, nat>, bk: map<nat, nat>, s: seq<nat>, k: nat)
    requires Ring(fd, bk, s) && |s| > 1 && k < |s|
    ensures s[k] in fd && s[k] in bk
    ensures var x := s[k];
            Ring(fd[bk[x] := fd[x]], bk[fd[x] := bk[x]], Without(s, k))
  {
    assert Points(fd, s, k) && PointsBack(bk, s, k);
    UnlinkDistinct(s, k);
    UnlinkForward(fd, s, k);
    UnlinkBackward(bk, s, k);
  }

  lemma UnlinkDistinct(s: seq<nat>, k: nat)
    requires k < |s| && Distinct(s)
    ensures Distinct(Without(s, k))
    ensures forall a :: a in Without(s, k) <==> a in s && a != s[k]
  {
    var t := Without(s, k);
    assert forall j :: 0 <= j < |t| ==> t[j] == s[if j < k then j else j + 1];
    forall a | a in s && a != s[k]
      ensures a in t
    {
      var i :| 0 <= i < |s| && s[i] == a;
      assert t[if i < k then i else i - 1] == a;
    }
  }

  lemma UnlinkForward(fd: map<nat, nat>, s: seq<nat>, k: nat)
    requires |s| > 1 && k < |s| && Distinct(s) && Forward(fd, s)
    ensures Forward(fd[Pred(s, k) := Succ(s, k)], Without(s, k))
  {
    var t, fd' := Without(s, k), fd[Pred(s, k) := Succ(s, k)];
    forall j: nat
      ensures Points(fd', t, j)
    {
      if j < |t| {
        var i := if j < k then j else j + 1;
        assert t[j] == s[i] && Points(fd, s, i);
        assert s[i] == Pred(s, k) <==> i == (if k > 0 then k - 1 else |s| - 1);
      }
    }
  }

  lemma UnlinkBackward(bk: map<nat, nat>, s: seq<nat>, k: nat)
    requires |s| > 1 && k < |s| && Distinct(s) && Backward(bk, s)
    ensures Backward(bk[Succ(s, k) := Pred(s, k)], Without(s, k))
  {
    var t, bk' := Without(s, k), bk[Succ(s, k) := Pred(s, k)];
    forall j: nat
      ensures PointsBack(bk', t, j)
    {
      if j < |t| {
        var i := if j < k then j else j + 1;
        assert t[j] == s[i] && PointsBack(bk, s, i);
        assert s[i] == Succ(s, k) <==> i == (if k + 1 < |s| then k + 1 else 0);
      }
    }
  }

  /** The ring read from its last node. */
  function FromLast(s: seq<nat>): seq<nat>
    requires s != []
  {
    [s[|s| - 1]] + s[..|s| - 1]
  }

  lemma Rotate(fd: map<nat, nat>, bk: map<nat, nat>, s: seq<nat>)
    requires Ring(fd, bk, s)
    ensures Ring(fd, bk, FromLast(s))
  {
    var t := FromLast(s);
    assert |t| == |s| && forall k :: 0 < k < |t| ==> t[k] == s[k - 1];
    forall k: nat
      ensures Points(fd, t, k) && PointsBack(bk, t, k)
    {
      if k < |t| {
        var i := if k == 0 then |s| - 1 else k - 1;
        assert t[k] == s[i] && Points(fd, s, i) && PointsBack(bk, s, i);
      }
    }
  }

  lemma FromLastElements(s: seq<nat>)
    requires s != []
    ensures forall a :: a in FromLast(s) <==> a in s
  {
    assert s == s[..|s| - 1] + [s[|s| - 1]];
  }
}
