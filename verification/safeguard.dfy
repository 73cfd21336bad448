/** The current safeguard of communication/data_manager.py: a quadratic model of the current
    each actuator draws, a 99 A budget, and a rescaling of every non-idle command to the
    root of the quadratic nearer to it when the predicted total exceeds the budget.

    The square root is the library's `math.sqrt`, which is not part of this model: every
    operation that needs it takes it as a parameter `sqrt`, required to satisfy `IsSqrt`. */
module Safeguard {
  import opened Common

  // The fitted model current(x) = A * x^2 + B * x + C, in amperes over PWM values.
  const A: real := 0.00009537964
  const B: real := -0.2864872
  const C: real := 214.9513

  const AmpLimit: real := 99.0

  /** The one value exempt from rescaling (the idle PWM command). */
  const IdleValue: real := 1500.0

  const SafeguardKeys: set<string> :=
    {"Thr_FP", "Thr_FS", "Thr_AP", "Thr_AS", "Thr_TFP", "Thr_TFS", "Thr_TAP", "Thr_TAS", "Mot_F", "Mot_G"}

  /** No key occurs twice in `order`. */
  predicate NoRepeats(order: seq<string>)
  {
    forall i, j | 0 <= i < j < |order| :: order[i] != order[j]
  }

  /** `order` lists every key of `keys` exactly once. The source sums the currents in the
      iteration order of a Python set of strings, which depends on string hashing, so the
      order is a parameter wherever a total is taken. */
  predicate Enumerates(order: seq<string>, keys: set<string>)
  {
    && (forall i | 0 <= i < |order| :: order[i] in keys)
    && (forall k | k in keys :: k in order)
    && NoRepeats(order)
  }

  // ------------------------------------------------ quadratics in general

  /** The quadratic a * x^2 + b * x + c. */
  function Quad(a: real, b: real, c: real, x: real): real
  {
    a * x * x + b * x + c
  }

  function VertexOf(a: real, b: real): real
    requires a != 0.0
  {
    -b / (2.0 * a)
  }

  function MinOf(a: real, b: real, c: real): real
    requires a != 0.0
  {
    c - b * b / (4.0 * a)
  }

  /** The discriminant of a * x^2 + b * x + (c - t) = 0. */
  function DiscOf(a: real, b: real, c: real, t: real): real
  {
    b * b - 4.0 * a * (c - t)
  }

  /** Completing the square: an upward parabola never drops below its vertex value. */
  lemma QuadAroundVertex(a: real, b: real, c: real, x: real)
    requires a > 0.0
    ensures Quad(a, b, c, x) == a * (x - VertexOf(a, b)) * (x - VertexOf(a, b)) + MinOf(a, b, c)
    ensures Quad(a, b, c, x) >= MinOf(a, b, c)
  {
    var e := x - VertexOf(a, b);
    assert a * e * e >= 0.0;
  }

  lemma DiscIdentity(a: real, b: real, c: real, t: real)
    requires a > 0.0
    ensures DiscOf(a, b, c, t) == 4.0 * a * (t - MinOf(a, b, c))
  {
  }

  lemma MulNonNeg(p: real, q: real)
    requires p >= 0.0 && q >= 0.0
    ensures p * q >= 0.0
  {
  }

  /** Scaling a value that is at least a negative bound by a ratio in (0, 1) keeps it there. */
  lemma ScaledAboveMin(m: real, y: real, ratio: real)
    requires m < 0.0 && y >= m && 0.0 < ratio < 1.0
    ensures y * ratio >= m
  {
    if y < 0.0 {
      MulNonNeg(-y, 1.0 - ratio);
      assert y * ratio - y == (-y) * (1.0 - ratio);
    } else {
      MulNonNeg(y, ratio);
    }
  }

  /** a * h^2 with h = s / 2a is s^2 / 4a. */
  lemma HalfWidth(a: real, s: real)
    requires a > 0.0
    ensures a * (s / (2.0 * a)) * (s / (2.0 * a)) == s * s / (4.0 * a)
  {
    var h := s / (2.0 * a);
    assert s == 2.0 * a * h;
    assert s * s == 4.0 * a * (a * h * h);
  }

  /** Both points at distance s / 2a from the vertex solve Quad(a, b, c, x) == t. */
  lemma RootSolves(a: real, b: real, c: real, t: real, s: real, x: real)
    requires a > 0.0 && s * s == DiscOf(a, b, c, t)
    requires x - VertexOf(a, b) == s / (2.0 * a) || x - VertexOf(a, b) == -s / (2.0 * a)
    ensures Quad(a, b, c, x) == t
  {
    QuadAroundVertex(a, b, c, x);
    DiscIdentity(a, b, c, t);
    HalfWidth(a, s);
    var e := x - VertexOf(a, b);
    assert e * e == (s / (2.0 * a)) * (s / (2.0 * a));
  }

  lemma ZeroProduct(p: real, q: real)
    requires p * q == 0.0
    ensures p == 0.0 || q == 0.0
  {
    if p != 0.0 {
      assert q == (p * q) / p;
    }
  }

  lemma SquaresEqual(e: real, h: real)
    requires e * e == h * h
    ensures e == h || e == -h
  {
    assert (e - h) * (e + h) == e * e - h * h;
    ZeroProduct(e - h, e + h);
  }

  /** No other point solves Quad(a, b, c, x) == t. */
  lemma OnlyRoots(a: real, b: real, c: real, t: real, s: real, x: real)
    requires a > 0.0 && s * s == DiscOf(a, b, c, t)
    requires Quad(a, b, c, x) == t
    ensures x - VertexOf(a, b) == s / (2.0 * a) || x - VertexOf(a, b) == -(s / (2.0 * a))
  {
    QuadAroundVertex(a, b, c, x);
    DiscIdentity(a, b, c, t);
    HalfWidth(a, s);
    var e := x - VertexOf(a, b);
    var h := s / (2.0 * a);
    var d := DiscOf(a, b, c, t);
    assert d / (4.0 * a) == t - MinOf(a, b, c);
    assert a * h * h == t - MinOf(a, b, c);
    assert a * e * e == t - MinOf(a, b, c);
    assert e * e == (a * e * e) / a;
    assert h * h == (a * h * h) / a;
    SquaresEqual(e, h);
  }

  /** (-b + s) / 2a and (-b - s) / 2a, with s the square root of the discriminant, are the
      solutions of Quad(a, b, c, x) == t and no other value is. */
  lemma QuadRoots(a: real, b: real, c: real, t: real, s: real)
    requires a > 0.0 && 0.0 <= s && s * s == DiscOf(a, b, c, t)
    ensures Quad(a, b, c, (-b + s) / (2.0 * a)) == t
    ensures Quad(a, b, c, (-b - s) / (2.0 * a)) == t
    ensures (-b - s) / (2.0 * a) <= VertexOf(a, b) <= (-b + s) / (2.0 * a)
    ensures forall x :: Quad(a, b, c, x) == t ==> x == (-b + s) / (2.0 * a) || x == (-b - s) / (2.0 * a)
  {
    var v := VertexOf(a, b);
    var h := s / (2.0 * a);
    var r0 := (-b + s) / (2.0 * a);
    var r1 := (-b - s) / (2.0 * a);
    assert r0 - v == h;
    assert r1 - v == -h;
    assert h >= 0.0;
    RootSolves(a, b, c, t, s, r0);
    RootSolves(a, b, c, t, s, r1);
    forall x | Quad(a, b, c, x) == t
      ensures x == r0 || x == r1
    {
      OnlyRoots(a, b, c, t, s, x);
    }
  }

  /** A square root function on the non-negative reals. */
  ghost predicate IsSqrt(sqrt: real -> real)
  {
    forall x :: 0.0 <= x ==> 0.0 <= sqrt(x) && sqrt(x) * sqrt(x) == x
  }

  // ------------------------------------------------------- the fitted model

  /** Predicted current of a command. */
  function Amp(x: real): real
  {
    Quad(A, B, C, x)
  }

  /** The predicted current is never below the parabola's minimum and reaches it only at the
      vertex. */
  lemma AmpAboveMinimum(x: real)
    ensures Amp(x) >= MinOf(A, B, C)
    ensures Amp(x) == MinOf(A, B, C) <==> x == VertexOf(A, B)
  {
    QuadAroundVertex(A, B, C, x);
    var e := x - VertexOf(A, B);
    if Amp(x) == MinOf(A, B, C) {
      assert A * e * e == 0.0;
      ZeroProduct(A * e, e);
      if A * e == 0.0 {
        ZeroProduct(A, e);
      }
    }
  }

  /** The commands never rescaled. */
  const IdleValues: set<real> := {IdleValue}

  /** The fitted parabola's minimum lies at -B / 2A, about 1501.84 rather than at the idle
      command, and its value there, C - B^2 / 4A, is about -0.1758. */
  lemma FittedVertex()
    ensures 1501.8 < VertexOf(A, B) < 1501.9
    ensures -0.176 < MinOf(A, B, C) < -0.175
  {
  }

  /** An idle command is predicted to draw a small negative current (about -0.175 A). */
  lemma AmpAtIdle()
    ensures -0.18 < Amp(IdleValue) < -0.17
  {
  }

  /** A scaled target `Amp(v) * ratio` with 0 < ratio < 1 lies between 0 and `Amp(v)`, both
      at least the parabola's minimum, so its discriminant is never negative and the square
      root the source takes is always defined. */
  lemma DiscriminantNonNegative(v: real, ratio: real)
    requires 0.0 < ratio < 1.0
    ensures DiscOf(A, B, C, Amp(v) * ratio) >= 0.0
  {
    QuadAroundVertex(A, B, C, v);
    FittedVertex();
    ScaledAboveMin(MinOf(A, B, C), Amp(v), ratio);
    DiscIdentity(A, B, C, Amp(v) * ratio);
  }

  /** The pair the source's scaling function returns: the two solutions of Amp(x) == t, the
      `+sqrt` root first. */
  function Roots(t: real, sqrt: real -> real): (r: (real, real))
    requires IsSqrt(sqrt) && DiscOf(A, B, C, t) >= 0.0
    ensures Amp(r.0) == t && Amp(r.1) == t
    ensures r.1 <= VertexOf(A, B) <= r.0
    ensures r.0 + r.1 == 2.0 * VertexOf(A, B)
    ensures forall x :: Amp(x) == t ==> x == r.0 || x == r.1
  {
    var s := sqrt(DiscOf(A, B, C, t));
    QuadRoots(A, B, C, t, s);
    ((-B + s) / (2.0 * A), (-B - s) / (2.0 * A))
  }

  /** The solution of Amp(x) == t nearer to `v`; on a tie the `+sqrt` root. */
  function Nearer(v: real, t: real, sqrt: real -> real): (r: real)
    requires IsSqrt(sqrt) && DiscOf(A, B, C, t) >= 0.0
    ensures Amp(r) == t
    ensures forall x :: Amp(x) == t ==> AbsReal(v - r) <= AbsReal(v - x)
    ensures AbsReal(v - Roots(t, sqrt).0) == AbsReal(v - Roots(t, sqrt).1) ==> r == Roots(t, sqrt).0
    // the command stays on its side of the parabola's vertex
    ensures v >= VertexOf(A, B) ==> r >= VertexOf(A, B)
    ensures v < VertexOf(A, B) ==> r <= VertexOf(A, B)
  {
    var (r0, r1) := Roots(t, sqrt);
    if AbsReal(v - r0) <= AbsReal(v - r1) then r0 else r1
  }

  /** The new value of one entry: an idle command stays, any other is moved to the nearest
      command drawing `ratio` times its current. */
  function RescaledEntry(v: real, ratio: real, sqrt: real -> real): (r: real)
    requires IsSqrt(sqrt) && 0.0 < ratio < 1.0
    ensures v in IdleValues ==> r == v
    ensures v !in IdleValues ==> Amp(r) == Amp(v) * ratio
    ensures v !in IdleValues ==> forall x :: Amp(x) == Amp(v) * ratio ==> AbsReal(v - r) <= AbsReal(v - x)
  {
    if v in IdleValues then v
    else
      DiscriminantNonNegative(v, ratio);
      Nearer(v, Amp(v) * ratio, sqrt)
  }

  /** Predicted current of the entries of `m` named in `keys`. */
  function TotalAmp(keys: seq<string>, m: map<string, real>): real
    decreases |keys|
  {
    if |keys| == 0 then 0.0
    else (if keys[0] in m then Amp(m[keys[0]]) else 0.0) + TotalAmp(keys[1..], m)
  }

  /** The total over two key lists placed end to end is the sum of their totals. */
  lemma {:induction false} TotalAmpAppend(a: seq<string>, b: seq<string>, m: map<string, real>)
    ensures TotalAmp(a + b, m) == TotalAmp(a, m) + TotalAmp(b, m)
    decreases |a|
  {
    if |a| == 0 {
      assert a + b == b;
    } else {
      assert (a + b)[0] == a[0];
      assert (a + b)[1..] == a[1..] + b;
      TotalAmpAppend(a[1..], b, m);
    }
  }

  /** Reordering the key list does not change the total. */
  lemma {:induction false} TotalAmpPermutation(p: seq<string>, q: seq<string>, m: map<string, real>)
    requires multiset(p) == multiset(q)
    ensures TotalAmp(p, m) == TotalAmp(q, m)
    decreases |p|
  {
    if |p| == 0 {
      assert |q| == |multiset(q)| == 0;
    } else {
      var k := p[0];
      assert k in multiset(q);
      var j :| 0 <= j < |q| && q[j] == k;
      var rest := q[..j] + q[j + 1..];
      assert q == q[..j] + [k] + q[j + 1..];
      assert p == [k] + p[1..];
      assert multiset(p[1..]) == multiset(p) - multiset{k} by {
        assert multiset(p) == multiset{k} + multiset(p[1..]);
      }
      assert multiset(rest) == multiset(q) - multiset{k} by {
        assert multiset(q) == multiset(q[..j]) + multiset{k} + multiset(q[j + 1..]);
      }
      TotalAmpPermutation(p[1..], rest, m);
      TotalAmpAppend([k], p[1..], m);
      TotalAmpAppend(q[..j], [k], m);
      TotalAmpAppend(q[..j] + [k], q[j + 1..], m);
      TotalAmpAppend(q[..j], q[j + 1..], m);
    }
  }

  /** A key list without repeats holds each of its keys once. */
  lemma {:induction false} CountOnce(s: seq<string>, x: string)
    requires NoRepeats(s)
    ensures multiset(s)[x] == if x in s then 1 else 0
    decreases |s|
  {
    if |s| > 0 {
      var t := s[1..];
      assert s == [s[0]] + t;
      assert NoRepeats(t) by {
        forall i, j | 0 <= i < j < |t|
          ensures t[i] != t[j]
        {
          assert t[i] == s[i + 1] && t[j] == s[j + 1];
        }
      }
      CountOnce(t, x);
      if x == s[0] {
        forall i | 0 <= i < |t|
          ensures t[i] != x
        {
          assert t[i] == s[i + 1];
        }
      }
    }
  }

  /** Any two orders that list the same keys once each give the same total, so the model's
      choice of summation order is immaterial. */
  lemma TotalAmpOrderFree(o1: seq<string>, o2: seq<string>, keys: set<string>, m: map<string, real>)
    requires Enumerates(o1, keys) && Enumerates(o2, keys)
    ensures TotalAmp(o1, m) == TotalAmp(o2, m)
  {
    forall x
      ensures multiset(o1)[x] == multiset(o2)[x]
    {
      CountOnce(o1, x);
      CountOnce(o2, x);
    }
    assert multiset(o1) == multiset(o2);
    TotalAmpPermutation(o1, o2, m);
  }

  // ------------------------------------------------------- the safeguard

  /** The loop over the entries: every entry replaced by its rescaled value, each computed
      from the original entry, in whatever order the keys are visited. */
  method RescaleAll(data: map<string, real>, ratio: real, sqrt: real -> real)
    returns (r: map<string, real>)
    requires IsSqrt(sqrt) && 0.0 < ratio < 1.0
    ensures r.Keys == data.Keys
    ensures forall k | k in data && data[k] in IdleValues :: r[k] == data[k]
    ensures forall k | k in data && data[k] !in IdleValues :: Amp(r[k]) == Amp(data[k]) * ratio
    // each entry is the rescaled value of the original one, whatever the visiting order
    ensures forall k {:trigger RescaledEntry(data[k], ratio, sqrt)} | k in data ::
      r[k] == RescaledEntry(data[k], ratio, sqrt)
  {
    r := data;
    var todo := data.Keys;
    while todo != {}
      invariant todo <= data.Keys && r.Keys == data.Keys
      invariant forall k | k in todo :: r[k] == data[k]
      invariant forall k | k in data && k !in todo :: r[k] == RescaledEntry(data[k], ratio, sqrt)
      decreases |todo|
    {
      var k :| k in todo;
      r := r[k := RescaledEntry(data[k], ratio, sqrt)];
      todo := todo - {k};
    }
  }

  lemma RatioInUnit(limit: real, total: real)
    requires 0.0 < limit < total
    ensures 0.0 < limit / total < 1.0
    ensures total * (limit / total) == limit
  {
    var r := limit / total;
    assert r * total == limit;
    if r >= 1.0 {
      MulNonNeg(r - 1.0, total);
    }
  }

  /** The share `limit / total` of the current each command may keep. */
  method Share(limit: real, total: real) returns (ratio: real)
    requires 0.0 < limit < total
    ensures 0.0 < ratio < 1.0 && total * ratio == limit
  {
    RatioInUnit(limit, total);
    ratio := limit / total;
  }

  /** Under the fitted model an idle command draws a negative current. */
  lemma FittedIdle()
    ensures forall i | i in IdleValues :: Amp(i) < 0.0
  {
    AmpAtIdle();
  }

  /** Commands all at idle draw a negative estimated current each, so their total never
      exceeds any positive limit and the safeguard passes them through. */
  lemma {:induction false} IdleTotalNonPositive(keys: seq<string>, data: map<string, real>)
    requires forall k | k in data :: data[k] in IdleValues
    ensures TotalAmp(keys, data) <= 0.0
    decreases |keys|
  {
    if |keys| > 0 {
      FittedIdle();
      IdleTotalNonPositive(keys[1..], data);
    }
  }

  /** A non-positive current is at most `ratio` times itself. */
  lemma IdleWithinShare(y: real, ratio: real)
    requires y <= 0.0 && 0.0 < ratio < 1.0
    ensures y <= y * ratio
  {
    MulNonNeg(-y, 1.0 - ratio);
    assert y * ratio - y == (-y) * (1.0 - ratio);
  }

  /** If every entry of `r` draws at most `ratio` times the current of the same entry of
      `data`, so does the total over any key list. */
  lemma {:induction false} TotalWithinShare(keys: seq<string>, r: map<string, real>,
                                            data: map<string, real>, ratio: real)
    requires r.Keys == data.Keys
    requires forall k | k in data :: Amp(r[k]) <= Amp(data[k]) * ratio
    ensures TotalAmp(keys, r) <= TotalAmp(keys, data) * ratio
    decreases |keys|
  {
    if |keys| > 0 {
      TotalWithinShare(keys[1..], r, data, ratio);
      var p := if keys[0] in data then Amp(data[keys[0]]) else 0.0;
      var q := if keys[0] in r then Amp(r[keys[0]]) else 0.0;
      var rest := TotalAmp(keys[1..], data);
      assert q <= p * ratio;
      assert (p + rest) * ratio == p * ratio + rest * ratio;
    }
  }

  /** With equality entrywise, the totals are in the same proportion. */
  lemma {:induction false} TotalAtShare(keys: seq<string>, r: map<string, real>,
                                        data: map<string, real>, ratio: real)
    requires r.Keys == data.Keys
    requires forall k | k in data :: Amp(r[k]) == Amp(data[k]) * ratio
    ensures TotalAmp(keys, r) == TotalAmp(keys, data) * ratio
    decreases |keys|
  {
    if |keys| > 0 {
      TotalAtShare(keys[1..], r, data, ratio);
      var p := if keys[0] in data then Amp(data[keys[0]]) else 0.0;
      var q := if keys[0] in r then Amp(r[keys[0]]) else 0.0;
      var rest := TotalAmp(keys[1..], data);
      assert q == p * ratio;
      assert (p + rest) * ratio == p * ratio + rest * ratio;
    }
  }

  lemma ShareOfTotal(y: real, x: real, ratio: real, total: real, limit: real)
    requires y == x * ratio && total * ratio == limit
    ensures y * total == x * limit
  {
  }

  /** Every entry after the rescaling loop draws at most `ratio` times its former current. */
  lemma EntriesWithinShare(data: map<string, real>, r: map<string, real>, ratio: real)
    requires (forall i | i in IdleValues :: Amp(i) < 0.0) && 0.0 < ratio < 1.0
    requires r.Keys == data.Keys
    requires forall k | k in data && data[k] in IdleValues :: r[k] == data[k]
    requires forall k | k in data && data[k] !in IdleValues :: Amp(r[k]) == Amp(data[k]) * ratio
    ensures forall k | k in data :: Amp(r[k]) <= Amp(data[k]) * ratio
  {
    forall k | k in data
      ensures Amp(r[k]) <= Amp(data[k]) * ratio
    {
      if data[k] in IdleValues {
        IdleWithinShare(Amp(data[k]), ratio);
      }
    }
  }

  /** Every non-idle entry of `r` draws the share `limit / total` of the current the same
      entry of `data` draws. */
  predicate DrawsShare(data: map<string, real>, r: map<string, real>, limit: real, total: real)
  {
    forall k | k in data && k in r && data[k] !in IdleValues :: Amp(r[k]) * total == Amp(data[k]) * limit
  }

  /** Each non-idle entry after the rescaling loop draws `limit / total` of its former current. */
  lemma ScaledShares(data: map<string, real>, r: map<string, real>, ratio: real, total: real, limit: real)
    requires total * ratio == limit
    requires r.Keys == data.Keys
    requires forall k | k in data && data[k] !in IdleValues :: Amp(r[k]) == Amp(data[k]) * ratio
    ensures DrawsShare(data, r, limit, total)
  {
    forall k | k in data && data[k] !in IdleValues
      ensures Amp(r[k]) * total == Amp(data[k]) * limit
    {
      ShareOfTotal(Amp(r[k]), Amp(data[k]), ratio, total, limit);
    }
  }

  /** After the rescaling loop with the share `ratio`, where `ratio` times the former total is
      the budget, the new total is within the budget, and meets it when nothing is idle. */
  lemma BudgetKept(order: seq<string>, data: map<string, real>, r: map<string, real>,
                   ratio: real, limit: real)
    requires 0.0 < ratio < 1.0 && TotalAmp(order, data) * ratio == limit
    requires r.Keys == data.Keys
    requires forall k | k in data && data[k] in IdleValues :: r[k] == data[k]
    requires forall k | k in data && data[k] !in IdleValues :: Amp(r[k]) == Amp(data[k]) * ratio
    ensures TotalAmp(order, r) <= limit
    ensures (forall k | k in data :: data[k] !in IdleValues) ==> TotalAmp(order, r) == limit
  {
    FittedIdle();
    EntriesWithinShare(data, r, ratio);
    TotalWithinShare(order, r, data, ratio);
    if forall k | k in data :: data[k] !in IdleValues {
      TotalAtShare(order, r, data, ratio);
    }
  }

  /** The safeguard over the selected commands, for a budget `limit` and the current summed
      over the keys `order`: untouched within the budget; otherwise every non-idle command
      moved to a command drawing the share `limit / total` of its former current, which
      brings the predicted total within the budget. The data manager runs it with the fitted
      model, `AmpLimit` and the keys' iteration order. */
  method Safeguard(limit: real, order: seq<string>, data: map<string, real>,
                   sqrt: real -> real)
    returns (r: map<string, real>)
    requires IsSqrt(sqrt) && limit > 0.0
    // the total runs over every command, each counted once
    requires (forall k | k in data :: k in order) && NoRepeats(order)
    ensures r.Keys == data.Keys
    ensures TotalAmp(order, data) <= limit ==> r == data
    ensures forall k | k in data && data[k] in IdleValues :: r[k] == data[k]
    ensures TotalAmp(order, data) > limit ==> DrawsShare(data, r, limit, TotalAmp(order, data))
    // over budget, every command is the rescaled value of its own entry: the nearer root
    ensures TotalAmp(order, data) > limit ==>
      var ratio := limit / TotalAmp(order, data);
      && 0.0 < ratio < 1.0
      && forall k {:trigger RescaledEntry(data[k], ratio, sqrt)} | k in data ::
           r[k] == RescaledEntry(data[k], ratio, sqrt)
    // the budget: met when over it (within it, nothing changes), exactly when nothing is idle
    ensures TotalAmp(order, data) > limit ==> TotalAmp(order, r) <= limit
    ensures TotalAmp(order, data) > limit && (forall k | k in data :: data[k] !in IdleValues) ==>
      TotalAmp(order, r) == limit
  {
    var total := TotalAmp(order, data);
    if total <= limit {
      return data;
    }
    var ratio := Share(limit, total);
    assert ratio == limit / total;
    r := RescaleAll(data, ratio, sqrt);
    ScaledShares(data, r, ratio, total, limit);
    BudgetKept(order, data, r, ratio, limit);
  }
}
