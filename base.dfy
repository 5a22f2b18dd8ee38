/** Value types shared by every part of the model: optional values, the C#
    32-bit integer range and its `int.MinValue` sentinel, vectors over exact
    reals, and the few numeric helpers the source takes from `Mathf`. */
module Base {

  /** A value that may be missing; stands for C# `null` and for `TryParse`
      results. */
  datatype Option<+T> = None | Some(value: T)

  /** `int.MinValue` / `int.MaxValue` of C#. The recorder and the replayers use
      `int.MinValue` as a "no frame" sentinel. */
  const IntMin: int := -2147483648
  const IntMax: int := 2147483647

  predicate IsInt32(i: int) { IntMin <= i <= IntMax }

  /** No element of `s` occurs twice. */
  predicate Distinct(s: seq<int>)
  {
    forall j, k :: 0 <= j < k < |s| ==> s[j] != s[k]
  }

  /** A map being rewritten key by key in the order of `order`: the first
      `i` listed keys already hold their `target` values, the others their
      `base` values. */
  predicate UpdatedUpTo<V(==)>(ms: map<int, V>, base: map<int, V>, target: map<int, V>, order: seq<int>, i: nat)
    requires i <= |order|
  {
    && ms.Keys == base.Keys && target.Keys == base.Keys
    && forall id :: id in base ==> ms[id] == if id in order[..i] then target[id] else base[id]
  }

  /** Rewriting the next listed key. */
  lemma UpdateNext<V>(ms: map<int, V>, base: map<int, V>, target: map<int, V>, order: seq<int>, i: nat, v: V)
    requires Distinct(order) && i < |order| && order[i] in base
    requires UpdatedUpTo(ms, base, target, order, i) && v == target[order[i]]
    ensures UpdatedUpTo(ms[order[i] := v], base, target, order, i + 1)
  {
    var id := order[i];
    assert id !in order[..i];
    assert forall k :: k in order[..i + 1] <==> k in order[..i] || k == id;
  }

  /** Once every key is listed and rewritten, the map is the target. */
  lemma UpdateDone<V>(ms: map<int, V>, base: map<int, V>, target: map<int, V>, order: seq<int>)
    requires UpdatedUpTo(ms, base, target, order, |order|) && forall id :: id in base ==> id in order
    ensures ms == target
  {
    assert order[..|order|] == order;
    forall id | id in ms ensures ms[id] == target[id] {
      assert id in order;
    }
  }

  // ----------------------------------------------------------------------
  // Line-by-line loading: each input parsed on its own, failures skipped

  lemma AppendAssoc<A>(a: seq<A>, b: seq<A>, c: seq<A>)
    ensures (a + b) + c == a + (b + c)
  {
  }

  lemma SliceSnoc<A>(s: seq<A>, lo: int, hi: int)
    requires 0 <= lo <= hi < |s|
    ensures s[lo..hi + 1] == s[lo..hi] + [s[hi]]
  {
  }

  /** `f` applied to each element of `xs`, in order. */
  function MapSeq<A, B>(f: A -> B, xs: seq<A>): (r: seq<B>)
    ensures |r| == |xs|
  {
    if xs == [] then [] else var k := |xs| - 1; MapSeq(f, xs[..k]) + [f(xs[k])]
  }

  lemma {:induction false} MapSeqAt<A, B>(f: A -> B, xs: seq<A>)
    ensures forall i :: 0 <= i < |xs| ==> MapSeq(f, xs)[i] == f(xs[i])
  {
    if xs != [] {
      var k := |xs| - 1;
      MapSeqAt(f, xs[..k]);
      assert forall i :: 0 <= i < k ==> xs[..k][i] == xs[i];
    }
  }

  /** The results of `f` on the elements of `xs` that it accepts, in order. */
  function FilterMap<A, B>(f: A -> Option<B>, xs: seq<A>): (r: seq<B>)
    ensures |r| <= |xs|
  {
    if xs == [] then []
    else
      var k := |xs| - 1;
      FilterMap(f, xs[..k]) + (if f(xs[k]).Some? then [f(xs[k]).value] else [])
  }

  /** One more element adds its result, if it is accepted. */
  lemma FilterMapSnoc<A, B>(f: A -> Option<B>, xs: seq<A>, x: A)
    ensures FilterMap(f, xs + [x]) == FilterMap(f, xs) + (if f(x).Some? then [f(x).value] else [])
  {
    assert (xs + [x])[..|xs|] == xs;
  }

  /** Each element is handled on its own: the results for two runs are the
      results of each, one after the other. */
  lemma {:induction false} FilterMapAppend<A, B>(f: A -> Option<B>, a: seq<A>, b: seq<A>)
    ensures FilterMap(f, a + b) == FilterMap(f, a) + FilterMap(f, b)
    decreases |b|
  {
    if b == [] {
      assert a + b == a;
    } else {
      var k := |b| - 1;
      FilterMapAppend(f, a, b[..k]);
      assert (a + b)[..|a + b| - 1] == a + b[..k];
    }
  }

  /** A rejected element is skipped and the rest go on as if it were
      absent. */
  lemma FilterMapSkip<A, B>(f: A -> Option<B>, a: seq<A>, x: A, b: seq<A>)
    requires f(x).None?
    ensures FilterMap(f, a + [x] + b) == FilterMap(f, a) + FilterMap(f, b)
  {
    FilterMapAppend(f, a + [x], b);
    FilterMapAppend(f, a, [x]);
    assert [x][..0] == [];
    assert FilterMap(f, [x]) == [];
  }

  /** An accepted element contributes exactly its result. */
  lemma FilterMapKeep<A, B>(f: A -> Option<B>, a: seq<A>, x: A, b: seq<A>)
    requires f(x).Some?
    ensures FilterMap(f, a + [x] + b) == FilterMap(f, a) + [f(x).value] + FilterMap(f, b)
  {
    FilterMapAppend(f, a + [x], b);
    FilterMapAppend(f, a, [x]);
    assert [x][..0] == [];
  }

  /** Every result is the result of some element. */
  lemma {:induction false} FilterMapFrom<A, B>(f: A -> Option<B>, xs: seq<A>)
    ensures forall y :: y in FilterMap(f, xs) ==> exists i :: 0 <= i < |xs| && f(xs[i]) == Some(y)
  {
    if xs != [] {
      var k := |xs| - 1;
      FilterMapFrom(f, xs[..k]);
      forall y | y in FilterMap(f, xs)
        ensures exists i :: 0 <= i < |xs| && f(xs[i]) == Some(y)
      {
        if y in FilterMap(f, xs[..k]) {
          var i :| 0 <= i < k && f(xs[..k][i]) == Some(y);
          assert xs[i] == xs[..k][i];
        } else {
          assert f(xs[k]) == Some(y);
        }
      }
    }
  }

  /** The entries of `g` at `keys` whose value `p` accepts, each mapped by
      `f`. */
  function MapWhere<V, W>(f: (int, V) -> W, p: V -> bool, g: map<int, V>, keys: seq<int>): map<int, W>
  {
    map k | k in keys && k in g && p(g[k]) :: f(k, g[k])
  }

  /** Taking in one more key adds its entry exactly when `p` accepts it. */
  lemma MapWhereNext<V, W>(f: (int, V) -> W, p: V -> bool, g: map<int, V>, keys: seq<int>, i: int)
    requires 0 <= i < |keys| && keys[i] in g
    ensures var k := keys[i];
            MapWhere(f, p, g, keys[..i + 1])
            == if p(g[k]) then MapWhere(f, p, g, keys[..i])[k := f(k, g[k])] else MapWhere(f, p, g, keys[..i])
  {
    assert keys[..i + 1] == keys[..i] + [keys[i]];
  }

  /** Adding entries to an empty map gives those entries. */
  lemma MergeEmpty<K, V>(m: map<K, V>)
    ensures map[] + m == m
  {
  }

  /** `f` of every element, or nothing as soon as one element fails. */
  function MapAll<A, B>(f: A -> Option<B>, xs: seq<A>): (r: Option<seq<B>>)
    ensures r.Some? ==> |r.value| == |xs|
  {
    if xs == [] then Some([])
    else
      var k := |xs| - 1;
      var p := MapAll(f, xs[..k]);
      var x := f(xs[k]);
      if p.None? || x.None? then None else Some(p.value + [x.value])
  }

  /** The elements all pass exactly when there is a result, and then the
      result holds each element's value. */
  lemma {:induction false} MapAllSome<A, B>(f: A -> Option<B>, xs: seq<A>)
    ensures MapAll(f, xs).Some? <==> forall i :: 0 <= i < |xs| ==> f(xs[i]).Some?
    ensures MapAll(f, xs).Some? ==> forall i :: 0 <= i < |xs| ==> f(xs[i]) == Some(MapAll(f, xs).value[i])
  {
    if xs != [] {
      var k := |xs| - 1;
      MapAllSome(f, xs[..k]);
      assert forall i :: 0 <= i < k ==> xs[..k][i] == xs[i];
    }
  }

  /** Unity's `Vector2` / `Vector3`, with exact reals in place of floats. */
  datatype Vec2 = Vec2(x: real, y: real)
  datatype Vec3 = Vec3(x: real, y: real, z: real)

  const Zero3: Vec3 := Vec3(0.0, 0.0, 0.0)

  function Add(a: Vec3, b: Vec3): Vec3 { Vec3(a.x + b.x, a.y + b.y, a.z + b.z) }
  function Sub(a: Vec3, b: Vec3): Vec3 { Vec3(a.x - b.x, a.y - b.y, a.z - b.z) }
  function Scale(a: Vec3, k: real): Vec3 { Vec3(a.x * k, a.y * k, a.z * k) }
  function Dot(a: Vec3, b: Vec3): real { a.x * b.x + a.y * b.y + a.z * b.z }
  function SqrMagnitude(a: Vec3): real { Dot(a, a) }

  /** `Vector3 / float`. */
  function Div(a: Vec3, k: real): Vec3
    requires k != 0.0
  {
    Vec3(a.x / k, a.y / k, a.z / k)
  }

  /** Unity's vector length, angle and the `normalized` property involve square
      roots and arc-cosines, which have no exact definition over reals here, so
      the model takes them as parameters: `mag` is `Vector3.magnitude` (and so
      `Vector3.Distance(a, b)` is `mag(a - b)`), `angle` is `Vector3.Angle` in
      degrees. */
  datatype Geometry = Geometry(mag: Vec3 -> real, angle: (Vec3, Vec3) -> real)

  function Distance(g: Geometry, a: Vec3, b: Vec3): real { g.mag(Sub(a, b)) }

  /** `Vector3.normalized`: Unity returns the zero vector when the length is
      at most 1e-5. */
  function Normalized(g: Geometry, v: Vec3): Vec3
  {
    var m := g.mag(v);
    if m > 0.00001 then Div(v, m) else Zero3
  }

  function Abs(r: real): real { if r < 0.0 then -r else r }
  function MaxR(a: real, b: real): real { if a >= b then a else b }
  function MinR(a: real, b: real): real { if a <= b then a else b }
  function MaxI(a: int, b: int): int { if a >= b then a else b }
  function MinI(a: int, b: int): int { if a <= b then a else b }

  /** `Mathf.Clamp` on integers. */
  function ClampI(v: int, lo: int, hi: int): int
  {
    if v < lo then lo else if v > hi then hi else v
  }

  /** `Mathf.Clamp01`. */
  function Clamp01(t: real): real { if t < 0.0 then 0.0 else if t > 1.0 then 1.0 else t }

  /** `Mathf.Repeat(t, length)`: `t` less a whole number of lengths,
      clamped into [0, length]. */
  function Repeat(t: real, length: real): real
    requires length > 0.0
  {
    var r := t - (t / length).Floor as real * length;
    if r < 0.0 then 0.0 else if r > length then length else r
  }

  /** The turn `Mathf.LerpAngle` takes from `a` to `b`: the difference
      brought into one turn and then to the shorter way round. */
  function ShortTurn(a: real, b: real): real
  {
    var d := Repeat(b - a, 360.0);
    if d > 180.0 then d - 360.0 else d
  }

  /** `Mathf.LerpAngle`: the shorter way round, with `t` clamped. */
  function LerpAngle(a: real, b: real, t: real): real
  {
    a + ShortTurn(a, b) * Clamp01(t)
  }

  /** `Mathf.Epsilon` on a CPU with denormals. */
  const FloatEpsilon: real := 1.401298e-45

  /** `Mathf.Approximately(a, b)`, read over exact reals. */
  predicate Approximately(a: real, b: real)
  {
    Abs(b - a) < MaxR(0.000001 * MaxR(Abs(a), Abs(b)), 8.0 * FloatEpsilon)
  }

  /** C#'s `(int)` cast of a float: truncation toward zero. */
  function Truncate(r: real): int
  {
    if r >= 0.0 then r.Floor else -((-r).Floor)
  }

  /** `Math.Round` / `Convert.ToInt32(double)`: to the nearest integer, ties
      to even. */
  function RoundHalfEven(r: real): (n: int)
    ensures Abs(r - n as real) <= 0.5
  {
    var f := r.Floor;
    var frac := r - f as real;
    if frac < 0.5 then f
    else if frac > 0.5 then f + 1
    else if f % 2 == 0 then f else f + 1
  }

  function Pow10(k: nat): (p: nat)
    ensures p >= 1
  {
    if k == 0 then 1 else 10 * Pow10(k - 1)
  }

  /** The homography of the source: a row-major 3x3 matrix. */
  datatype Matrix3 = Matrix3(m00: real, m01: real, m02: real,
                             m10: real, m11: real, m12: real,
                             m20: real, m21: real, m22: real)

  const Identity3: Matrix3 := Matrix3(1.0, 0.0, 0.0, 0.0, 1.0, 0.0, 0.0, 0.0, 1.0)

  /** A 3x3 matrix from nine values in row-major order. */
  function MatrixOf(v: seq<real>): Matrix3
    requires |v| == 9
  {
    Matrix3(v[0], v[1], v[2], v[3], v[4], v[5], v[6], v[7], v[8])
  }

  // ----------------------------------------------------------------------
  // Running bounds and vectors read from arrays

  /** `ToV3`: the first three entries, or zero for a missing or short array. */
  function ToV3(arr: Option<seq<real>>): Vec3
  {
    if arr.None? || |arr.value| < 3 then Zero3 else Vec3(arr.value[0], arr.value[1], arr.value[2])
  }

  /** The running minimum from `int.MaxValue`. */
  function Low(fs: seq<int>): int
  {
    if fs == [] then IntMax else MinI(Low(fs[..|fs| - 1]), fs[|fs| - 1])
  }

  /** The running maximum from `int.MinValue`. */
  function High(fs: seq<int>): int
  {
    if fs == [] then IntMin else MaxI(High(fs[..|fs| - 1]), fs[|fs| - 1])
  }

  /** The running minimum bounds every frame and is one of them, unless it
      is still its start value. */
  lemma {:induction false} LowBounds(fs: seq<int>)
    ensures Low(fs) <= IntMax && forall i :: 0 <= i < |fs| ==> Low(fs) <= fs[i]
    ensures Low(fs) == IntMax || Low(fs) in fs
  {
    if fs != [] {
      var n := |fs| - 1;
      LowBounds(fs[..n]);
      assert forall i :: 0 <= i < n ==> fs[..n][i] == fs[i];
      assert Low(fs[..n]) in fs[..n] ==> Low(fs[..n]) in fs;
    }
  }

  lemma {:induction false} HighBounds(fs: seq<int>)
    ensures High(fs) >= IntMin && forall i :: 0 <= i < |fs| ==> High(fs) >= fs[i]
    ensures High(fs) == IntMin || High(fs) in fs
  {
    if fs != [] {
      var n := |fs| - 1;
      HighBounds(fs[..n]);
      assert forall i :: 0 <= i < n ==> fs[..n][i] == fs[i];
      assert High(fs[..n]) in fs[..n] ==> High(fs[..n]) in fs;
    }
  }

  lemma {:induction false} LowAppend(a: seq<int>, b: seq<int>)
    ensures Low(a + b) == MinI(Low(a), Low(b))
  {
    if b == [] {
      LowBounds(a);
      assert a + b == a;
    } else {
      var n := |b| - 1;
      assert (a + b)[..|a + b| - 1] == a + b[..n];
      LowAppend(a, b[..n]);
    }
  }

  lemma {:induction false} HighAppend(a: seq<int>, b: seq<int>)
    ensures High(a + b) == MaxI(High(a), High(b))
  {
    if b == [] {
      HighBounds(a);
      assert a + b == a;
    } else {
      var n := |b| - 1;
      assert (a + b)[..|a + b| - 1] == a + b[..n];
      HighAppend(a, b[..n]);
    }
  }

  /** The frames `lo..hi`, ascending. */
  function FrameRange(lo: int, hi: int): (r: seq<int>)
    ensures |r| == if lo <= hi then hi - lo + 1 else 0
    ensures forall k :: 0 <= k < |r| ==> r[k] == lo + k
  {
    if lo > hi then [] else seq(hi - lo + 1, k => lo + k)
  }

  /** A C# `int` result of exact value `x`: wrapped into the 32-bit range. */
  function Wrap32(x: int): (r: int)
    ensures IsInt32(r)
    ensures IsInt32(x) ==> r == x
  {
    (x - IntMin) % 0x1_0000_0000 + IntMin
  }

  /** The difference of two `int`s past `int.MaxValue` wraps to a negative
      value, 2^32 below the exact one. */
  lemma WrapNegative(x: int)
    requires IntMax < x <= IntMax - IntMin
    ensures Wrap32(x) == x - 0x1_0000_0000 && Wrap32(x) < 0
  {
    var y := x - IntMin - 0x1_0000_0000;
    assert 0 <= y < 0x1_0000_0000;
    assert x - IntMin == 0x1_0000_0000 + y;
  }
}
