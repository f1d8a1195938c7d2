/**
 The top-k insertion over the logits, on its two parallel arrays.

 Source: src/geistd.c:253-285 and 515, 551. The logits are totally ordered (no NaN).
 */
module TopK {

  const TOPK_MAX := 256

  /** The order of the result: greater value first, then smaller index. */
  predicate Precedes(x: seq<real>, a: nat, b: nat)
    requires a < |x| && b < |x|
  {
    x[a] > x[b] || (x[a] == x[b] && a < b)
  }

  ghost predicate Indices(ids: seq<nat>, n: nat) {
    forall j :: 0 <= j < |ids| ==> ids[j] < n
  }

  ghost predicate Ranked(x: seq<real>, ids: seq<nat>)
    requires Indices(ids, |x|)
  {
    forall j, l :: 0 <= j < l < |ids| ==> Precedes(x, ids[j], ids[l])
  }

  /** `ids` are the first min(k, n) of the indices below `n`; whoever is left out comes after the last of them. */
  ghost predicate IsTop(x: seq<real>, n: nat, k: nat, ids: seq<nat>)
    requires n <= |x|
  {
    && |ids| == (if k < n then k else n)
    && Indices(ids, n)
    && Ranked(x, ids)
    && forall i: nat :: i < n ==> i in ids || (0 < |ids| && |ids| == k && Precedes(x, ids[k - 1], i))
  }

  /** The specification leaves no choice. */
  lemma TopUnique(x: seq<real>, n: nat, k: nat, a: seq<nat>, b: seq<nat>)
    requires n <= |x| && IsTop(x, n, k, a) && IsTop(x, n, k, b)
    ensures a == b
  {
    var j := 0;
    while j < |a|
      invariant j <= |a| && a[..j] == b[..j]
    {
      if a[j] != b[j] {
        if Precedes(x, a[j], b[j]) {
          NotFirst(x, n, k, a, b, j);
        } else {
          NotFirst(x, n, k, b, a, j);
        }
        assert false;
      }
      j := j + 1;
    }
  }

  /** The earlier element at the first difference would be missing in the other sequence. */
  lemma NotFirst(x: seq<real>, n: nat, k: nat, a: seq<nat>, b: seq<nat>, j: nat)
    requires n <= |x| && IsTop(x, n, k, a) && IsTop(x, n, k, b)
    requires j < |a| && a[..j] == b[..j] && a[j] != b[j]
    ensures !Precedes(x, a[j], b[j])
  {
    if Precedes(x, a[j], b[j]) && a[j] in b {
      var p :| 0 <= p < |b| && b[p] == a[j];
    }
  }

  /** One more index enters at its place; the last one leaves when the result was full. */
  lemma InsertTop(x: seq<real>, i: nat, k: nat, was: seq<nat>, p: nat)
    requires i < |x| && 0 < k && IsTop(x, i, k, was)
    requires p <= |was| && p < k
    requires forall q :: 0 <= q < p ==> x[was[q]] >= x[i]
    requires forall q :: p <= q < |was| ==> x[was[q]] < x[i]
    ensures IsTop(x, i + 1, k, was[..p] + [i] + was[p..if |was| < k then |was| else k - 1])
  {
    var end := if |was| < k then |was| else k - 1;
    var now := was[..p] + [i] + was[p..end];
    forall c: nat | c < i + 1 ensures c in now || (|now| == k && Precedes(x, now[k - 1], c)) {
      InsertCovers(x, i, k, was, p, c);
    }
    forall j, l | 0 <= j < l < |now| ensures Precedes(x, now[j], now[l]) {
      assert now[j] == (if j < p then was[j] else if j == p then i else was[j - 1]);
      assert now[l] == (if l < p then was[l] else if l == p then i else was[l - 1]);
    }
  }

  lemma InsertCovers(x: seq<real>, i: nat, k: nat, was: seq<nat>, p: nat, c: nat)
    requires i < |x| && 0 < k && IsTop(x, i, k, was)
    requires p <= |was| && p < k && c < i + 1
    requires forall q :: 0 <= q < p ==> x[was[q]] >= x[i]
    requires forall q :: p <= q < |was| ==> x[was[q]] < x[i]
    ensures var now := was[..p] + [i] + was[p..if |was| < k then |was| else k - 1];
      c in now || (|now| == k && now[k - 1] <= i && Precedes(x, now[k - 1], c))
  {
    var end := if |was| < k then |was| else k - 1;
    var now := was[..p] + [i] + was[p..end];
    if c == i {
      assert now[p] == i;
    } else if c in was {
      var q :| 0 <= q < |was| && was[q] == c;
      if q < p {
        assert now[q] == c;
      } else if q < end {
        assert now[q + 1] == c;
      }
    }
  }

  /** The values beside the indices. */
  ghost predicate Valued(x: seq<real>, ids: seq<nat>, vals: seq<real>) {
    |vals| == |ids| && forall j :: 0 <= j < |ids| ==> ids[j] < |x| && vals[j] == x[ids[j]]
  }

  /** topk: the result fills the front of the two arrays. */
  method Top(x: seq<real>, k: nat, ids: array<nat>, vals: array<real>) returns (m: nat)
    requires 0 < k <= ids.Length <= vals.Length
    modifies ids, vals
    ensures m <= k && IsTop(x, |x|, k, ids[..m])
    ensures Valued(x, ids[..m], vals[..m])
  {
    m := 0;
    var i := 0;
    while i < |x|
      invariant i <= |x| && m == (if k < i then k else i)
      invariant IsTop(x, i, k, ids[..m])
      invariant Valued(x, ids[..m], vals[..m])
    {
      if m == k && x[i] <= vals[m - 1] {
        Skip(x, i, k, ids[..m]);
        i := i + 1;
        continue;
      }
      m := Insert(x, i, k, m, ids, vals);
      i := i + 1;
    }
  }

  lemma Skip(x: seq<real>, i: nat, k: nat, was: seq<nat>)
    requires i < |x| && 0 < k && IsTop(x, i, k, was) && |was| == k && x[i] <= x[was[k - 1]]
    ensures IsTop(x, i + 1, k, was)
  {
  }

  /** The entries with a smaller value than `v` move up by one, and index `i` takes the free place `j`. */
  method ShiftIn(i: nat, v: real, top: nat, ids: array<nat>, vals: array<real>) returns (j: nat)
    requires top < ids.Length <= vals.Length
    modifies ids, vals
    ensures j <= top && (j > 0 ==> old(vals[..top])[j - 1] >= v)
    ensures forall q :: j <= q < top ==> old(vals[..top])[q] < v
    ensures ids[..top + 1] == old(ids[..top])[..j] + [i] + old(ids[..top])[j..]
    ensures vals[..top + 1] == old(vals[..top])[..j] + [v] + old(vals[..top])[j..]
  {
    ghost var was, values := ids[..top], vals[..top];
    j := top;
    while j > 0 && vals[j - 1] < v
      invariant j <= top
      invariant forall q :: 0 <= q < j ==> ids[q] == was[q] && vals[q] == values[q]
      invariant forall q :: j < q <= top ==> ids[q] == was[q - 1] && vals[q] == values[q - 1]
      invariant forall q :: j <= q < top ==> values[q] < v
    {
      vals[j] := vals[j - 1];
      ids[j] := ids[j - 1];
      j := j - 1;
    }
    vals[j] := v;
    ids[j] := i;
    Spliced(ids[..top + 1], was, j, i);
    Spliced(vals[..top + 1], values, j, v);
  }

  lemma Spliced<T>(now: seq<T>, was: seq<T>, j: nat, e: T)
    requires j <= |was| && |now| == |was| + 1 && now[j] == e
    requires forall q :: 0 <= q < j ==> now[q] == was[q]
    requires forall q :: j < q < |now| ==> now[q] == was[q - 1]
    ensures now == was[..j] + [e] + was[j..]
  {
  }

  /** The insertion of one index. */
  method Insert(x: seq<real>, i: nat, k: nat, m: nat, ids: array<nat>, vals: array<real>) returns (more: nat)
    requires 0 < k <= ids.Length <= vals.Length && i < |x| && m <= k
    requires IsTop(x, i, k, ids[..m])
    requires Valued(x, ids[..m], vals[..m])
    requires m == k ==> x[i] > vals[m - 1]
    modifies ids, vals
    ensures more == (if m < k then m + 1 else m)
    ensures IsTop(x, i + 1, k, ids[..more])
    ensures Valued(x, ids[..more], vals[..more])
  {
    ghost var was, values := ids[..m], vals[..m];
    var top := if m < k then m else k - 1;
    assert ids[..top] == was[..top] && vals[..top] == values[..top];
    var j := ShiftIn(i, x[i], top, ids, vals);
    more := if m < k then m + 1 else m;
    Place(x, i, k, was, values, j, top);
  }

  /** The free place is the right one. */
  lemma Place(x: seq<real>, i: nat, k: nat, was: seq<nat>, values: seq<real>, j: nat, top: nat)
    requires i < |x| && 0 < k && IsTop(x, i, k, was) && |values| == |was|
    requires Valued(x, was, values)
    requires top == if |was| < k then |was| else k - 1
    requires |was| == k ==> values[k - 1] < x[i]
    requires j <= top && (j > 0 ==> values[j - 1] >= x[i]) && forall q :: j <= q < top ==> values[q] < x[i]
    ensures IsTop(x, i + 1, k, was[..top][..j] + [i] + was[..top][j..])
    ensures Valued(x, was[..top][..j] + [i] + was[..top][j..], values[..top][..j] + [x[i]] + values[..top][j..])
  {
    assert was[..top][..j] == was[..j] && was[..top][j..] == was[j..top];
    forall q | 0 <= q < j ensures x[was[q]] >= x[i] {
      if q < j - 1 {
        assert Precedes(x, was[q], was[j - 1]);
      }
    }
    InsertTop(x, i, k, was, j);
  }

  // ------------------------------------------------------------------ the request

  /** The entries that a request with the number `k` above zero asks for: cut to a whole number, and bounded. */
  function Asked(k: real): nat
    requires k > 0.0
  {
    if k.Floor > TOPK_MAX then TOPK_MAX else k.Floor
  }

  /** Turn `i` of topk touches its arrays only where they are: the last entry when full, and the last free place. */
  predicate TurnInside(k: nat, i: nat) {
    var m := if k < i then k else i;
    (m == k ==> 0 <= m - 1 < TOPK_MAX) && 0 <= (if m < k then m else k - 1) < TOPK_MAX
  }

  /** Every request is served inside the arrays exactly when it asks for at least one entry. */
  lemma InsideIff(k: real, n: nat)
    requires k > 0.0 && 0 < n
    ensures (forall i: nat :: i < n ==> TurnInside(Asked(k), i)) <==> k >= 1.0
  {
    if k < 1.0 {
      assert !TurnInside(Asked(k), 0);
    }
  }

  function Least(a: nat, b: nat, c: nat): nat {
    if a <= b && a <= c then a else if b <= c then b else c
  }

  /** sb_topk: the reply has as many entries as the whole part of the number says, 256 and the vocabulary permitting. */
  method SbTopk(x: seq<real>, k: real) returns (ids: seq<nat>, vals: seq<real>)
    requires k >= 1.0
    ensures IsTop(x, |x|, Asked(k), ids)
    ensures Valued(x, ids, vals)
    ensures forall n: nat :: n as real <= k < (n + 1) as real ==> |ids| == Least(n, 256, |x|)
  {
    var idArray, valArray := new nat[TOPK_MAX], new real[TOPK_MAX];
    var m := Top(x, Asked(k), idArray, valArray);
    ids, vals := idArray[..m], valArray[..m];
  }
}
