/** Nested tensors as the Python side holds them, their flat C layouts, and integer sums. */
module Tensors {
  import opened Bits

  type T2 = seq<seq<int>>
  type T3 = seq<seq<seq<int>>>
  type T4 = seq<seq<seq<seq<int>>>>

  /** Joins the rows of a matrix. Joining twice lays a height x width x channel tensor out with
      the channel varying fastest. */
  function Flatten<A>(t: seq<seq<A>>): seq<A>
  {
    if t == [] then [] else Flatten(t[..|t| - 1]) + t[|t| - 1]
  }

  predicate Rows<A>(t: seq<seq<A>>, n: nat, m: nat)
  {
    |t| == n && forall i | 0 <= i < n :: |t[i]| == m
  }

  predicate Shape3(t: T3, h: nat, w: nat, c: nat)
  {
    |t| == h && forall i | 0 <= i < h :: Rows(t[i], w, c)
  }

  predicate Shape4(t: T4, o: nat, h: nat, w: nat, c: nat)
  {
    |t| == o && forall i | 0 <= i < o :: Shape3(t[i], h, w, c)
  }

  function Flat3(t: T3): seq<int> { Flatten(Flatten(t)) }
  function Flat4(t: T4): seq<int> { Flatten(Flatten(Flatten(t))) }

  lemma {:induction false} FlattenAt<A>(t: seq<seq<A>>, n: nat, m: nat, i: nat, j: nat)
    requires Rows(t, n, m) && i < n && j < m
    ensures |Flatten(t)| == n * m && 0 <= i * m + j < n * m
    ensures Flatten(t)[i * m + j] == t[i][j]
  {
    FlattenLength(t, n, m);
    InsideFlat(i, j, n, m);
    var init := t[..n - 1];
    FlattenLength(init, n - 1, m);
    assert n * m == (n - 1) * m + m;
    if i < n - 1 {
      FlattenAt(init, n - 1, m, i, j);
    }
  }

  lemma {:induction false} FlattenLength<A>(t: seq<seq<A>>, n: nat, m: nat)
    requires Rows(t, n, m)
    ensures |Flatten(t)| == n * m
  {
    if n > 0 {
        FlattenLength(t[..n - 1], n - 1, m);
      assert n * m == (n - 1) * m + m;
    }
  }

  lemma InsideFlat(i: nat, j: nat, n: nat, m: nat)
    requires i < n && j < m
    ensures 0 <= i * m + j < n * m
  {
    MulMonotone(i + 1, n, m);
    assert (i + 1) * m == i * m + m;
  }

  lemma FlattenSnoc<A>(t: seq<seq<A>>, r: seq<A>)
    ensures Flatten(t + [r]) == Flatten(t) + r
  {
    assert (t + [r])[..|t|] == t;
  }

  lemma {:induction false} FlattenRows3(t: T3, h: nat, w: nat, c: nat)
    requires Shape3(t, h, w, c)
    ensures Rows(Flatten(t), h * w, c)
    ensures |Flat3(t)| == h * w * c
  {
    FlattenLength(t, h, w);
    FlattenMembers(t, c);
    FlattenLength(Flatten(t), h * w, c);
  }

  lemma {:induction false} FlattenMembers(t: T3, c: nat)
    requires forall i | 0 <= i < |t| :: forall j | 0 <= j < |t[i]| :: |t[i][j]| == c
    ensures forall k | 0 <= k < |Flatten(t)| :: |Flatten(t)[k]| == c
  {
    if t != [] {
      FlattenMembers(t[..|t| - 1], c);
    }
  }

  /** The flat index of the C code: ((y * w) + x) * c + k. */
  lemma Flat3At(t: T3, h: nat, w: nat, c: nat, y: nat, x: nat, k: nat)
    requires Shape3(t, h, w, c) && y < h && x < w && k < c
    ensures |Flat3(t)| == h * w * c && 0 <= y * w + x && 0 <= (y * w + x) * c + k < h * w * c
    ensures Flat3(t)[(y * w + x) * c + k] == t[y][x][k]
  {
    FlattenRows3(t, h, w, c);
    FlattenAt(t, h, w, y, x);
    FlattenAt(Flatten(t), h * w, c, y * w + x, k);
  }

  lemma {:induction false} FlattenRows4(t: T4, o: nat, h: nat, w: nat, c: nat)
    requires Shape4(t, o, h, w, c)
    ensures Shape3(Flatten(t), o * h, w, c)
  {
    if o > 0 {
      var init := t[..o - 1];
      FlattenRows4(init, o - 1, h, w, c);
      assert o * h == (o - 1) * h + h;
    }
  }

  lemma Flat4At(t: T4, o: nat, h: nat, w: nat, c: nat, n: nat, y: nat, x: nat, k: nat)
    requires Shape4(t, o, h, w, c) && n < o && y < h && x < w && k < c
    ensures Shape3(t[n], h, w, c) && Rows(t[n][y], w, c)
    ensures 0 <= n * h + y && 0 <= (n * h + y) * w + x && 0 <= ((n * h + y) * w + x) * c + k < |Flat4(t)|
    ensures Flat4(t)[((n * h + y) * w + x) * c + k] == t[n][y][x][k]
  {
    FlattenRows4(t, o, h, w, c);
    forall i | 0 <= i < o
      ensures |t[i]| == h
    {
      assert Shape3(t[i], h, w, c);
    }
    assert Shape3(t[n], h, w, c);
    FlattenAt(t, o, h, n, y);
    Flat3At(Flatten(t), o * h, w, c, n * h + y, x, k);
  }

  function Sum(n: nat, f: int -> int): int
  {
    if n == 0 then 0 else Sum(n - 1, f) + f(n - 1)
  }

  lemma SumStep(n: nat, f: int -> int)
    ensures Sum(0, f) == 0
    ensures Sum(n + 1, f) == Sum(n, f) + f(n)
  {}

  lemma {:induction false} SumZero(n: nat, f: int -> int)
    requires forall i | 0 <= i < n :: f(i) == 0
    ensures Sum(n, f) == 0
  {
    if n > 0 {
      SumZero(n - 1, f);
    }
  }

  lemma {:induction false} SumSingle(n: nat, f: int -> int, i: nat)
    requires i < n && forall j | 0 <= j < n && j != i :: f(j) == 0
    ensures Sum(n, f) == f(i)
  {
    if i == n - 1 {
      SumZero(n - 1, f);
    } else {
      SumSingle(n - 1, f, i);
    }
  }
}
