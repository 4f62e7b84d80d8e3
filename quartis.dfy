/** Quartiles as pandas computes them for `Series.quantile(p)`: the
    non-missing values sorted, then linear interpolation between the two
    order statistics around position `p * (n - 1)`. */
module Quartis {

  predicate Ordenada(s: seq<real>) {
    forall i, j :: 0 <= i < j < |s| ==> s[i] <= s[j]
  }

  /** Putting in front of a sorted sequence a value no larger than any of
      its elements keeps it sorted. */
  lemma OrdenadaComCabeca(x: real, s: seq<real>)
    requires Ordenada(s)
    requires forall k :: 0 <= k < |s| ==> x <= s[k]
    ensures Ordenada([x] + s)
  {
    var r := [x] + s;
    forall i, j | 0 <= i < j < |r| ensures r[i] <= r[j] {
      if i == 0 { assert r[j] == s[j - 1]; } else { assert r[i] == s[i - 1] && r[j] == s[j - 1]; }
    }
  }

  /** Inserts `x` before the first element not smaller than it. */
  function Inserir(x: real, s: seq<real>): (r: seq<real>)
    ensures multiset(r) == multiset(s) + multiset{x}
  {
    if s == [] || x <= s[0] then [x] + s
    else
      assert s == [s[0]] + s[1..];
      [s[0]] + Inserir(x, s[1..])
  }

  /** Inserting into a sorted sequence keeps it sorted. */
  lemma {:induction false} InserirOrdena(x: real, s: seq<real>)
    requires Ordenada(s)
    ensures Ordenada(Inserir(x, s))
  {
    if s == [] || x <= s[0] {
      forall k | 0 <= k < |s| ensures x <= s[k] {
        if k > 0 { assert s[0] <= s[k]; }
      }
      OrdenadaComCabeca(x, s);
    } else {
      Cauda(s);
      InserirOrdena(x, s[1..]);
      var t := Inserir(x, s[1..]);
      forall k | 0 <= k < |t| ensures s[0] <= t[k] {
        assert t[k] in multiset(t);
        if t[k] != x {
          assert t[k] in multiset(s);
          CabecaMinima(s, t[k]);
        }
      }
      OrdenadaComCabeca(s[0], t);
    }
  }

  /** The sorted copy of `s` (insertion sort). */
  function Ordenar(s: seq<real>): (r: seq<real>)
    ensures Ordenada(r)
    ensures multiset(r) == multiset(s)
    ensures |r| == |s|
  {
    if s == [] then []
    else
      assert s == [s[0]] + s[1..];
      InserirOrdena(s[0], Ordenar(s[1..]));
      var r := Inserir(s[0], Ordenar(s[1..]));
      assert |multiset(r)| == |multiset(s)|;
      r
  }

  lemma ProdutoNaoNegativo(x: real, y: real)
    requires x >= 0.0 && y >= 0.0
    ensures x * y >= 0.0
  {
    if x > 0.0 && y > 0.0 { assert x * y > 0.0 * y; }
  }

  /** `a + (b - a) * f`: the point a fraction `f` of the way from `a` to `b`. */
  function Interpolar(a: real, b: real, f: real): (r: real)
    requires a <= b && 0.0 <= f <= 1.0
    ensures a <= r <= b
  {
    var d := b - a;
    ProdutoNaoNegativo(d, f);
    ProdutoNaoNegativo(d, 1.0 - f);
    assert d - d * f == d * (1.0 - f);
    a + d * f
  }

  /** Sorting a sorted sequence leaves it as it is. */
  lemma OrdenarOrdenada(s: seq<real>)
    requires Ordenada(s)
    ensures Ordenar(s) == s
  {
    OrdenadasIguais(Ordenar(s), s);
  }

  /** The first element of a non-empty sorted sequence is its least element. */
  lemma CabecaMinima(a: seq<real>, y: real)
    requires Ordenada(a) && y in multiset(a)
    ensures a[0] <= y
  {
    var k :| 0 <= k < |a| && a[k] == y;
    if k > 0 { assert a[0] <= a[k]; }
  }

  /** Dropping the first element of a sorted sequence leaves it sorted and
      takes one copy of that element out of its multiset. */
  lemma Cauda(a: seq<real>)
    requires Ordenada(a) && |a| > 0
    ensures Ordenada(a[1..])
    ensures multiset(a[1..]) == multiset(a) - multiset{a[0]}
  {
    assert a == [a[0]] + a[1..];
    var r := a[1..];
    forall i, j | 0 <= i < j < |r| ensures r[i] <= r[j] {
      assert r[i] == a[i + 1] && r[j] == a[j + 1];
    }
  }

  /** Two sorted sequences with the same elements are equal. */
  lemma {:induction false} OrdenadasIguais(a: seq<real>, b: seq<real>)
    requires Ordenada(a) && Ordenada(b) && multiset(a) == multiset(b)
    ensures a == b
  {
    assert |a| == |multiset(a)| == |multiset(b)| == |b|;
    if a != [] {
      assert a[0] in multiset(a) && b[0] in multiset(b);
      CabecaMinima(a, b[0]);
      CabecaMinima(b, a[0]);
      assert a[0] == b[0];
      Cauda(a);
      Cauda(b);
      assert multiset(a[1..]) == multiset(b[1..]);
      OrdenadasIguais(a[1..], b[1..]);
      forall i | 0 <= i < |a| ensures a[i] == b[i] {
        if i > 0 { assert a[i] == a[1..][i - 1] && b[i] == b[1..][i - 1]; }
      }
    }
  }

  /** The fractional position `p * m` of the `p` quantile among `m + 1` sorted values. */
  function Posicao(p: real, m: nat): (pos: real)
    requires 0.0 <= p <= 1.0
    ensures 0.0 <= pos <= m as real
    ensures 0 <= pos.Floor <= m
  {
    ProdutoNaoNegativo(p, m as real);
    ProdutoNaoNegativo(1.0 - p, m as real);
    assert m as real - p * m as real == (1.0 - p) * m as real;
    p * m as real
  }

  /** The position grows with `p`. */
  lemma PosicaoMonotona(p1: real, p2: real, m: nat)
    requires 0.0 <= p1 <= p2 <= 1.0
    ensures Posicao(p1, m) <= Posicao(p2, m)
    ensures Posicao(p1, m).Floor <= Posicao(p2, m).Floor
  {
    assert (p2 - p1) * m as real >= 0.0;
  }

  /** `Series.quantile(p)` with linear interpolation, on the sorted values. */
  function Quantil(s: seq<real>, p: real): (q: real)
    requires Ordenada(s) && |s| > 0 && 0.0 <= p <= 1.0
    ensures s[0] <= q <= s[|s| - 1]
  {
    var pos := Posicao(p, |s| - 1);
    var i := pos.Floor;
    if i + 1 < |s| then Interpolar(s[i], s[i + 1], pos - i as real) else s[i]
  }

  /** Moving further from `a` towards `b` never gives a smaller point. */
  lemma InterpolarMonotono(a: real, b: real, f1: real, f2: real)
    requires a <= b && 0.0 <= f1 <= f2 <= 1.0
    ensures Interpolar(a, b, f1) <= Interpolar(a, b, f2)
  {
    var d := b - a;
    assert d * f2 - d * f1 == d * (f2 - f1);
    ProdutoNaoNegativo(d, f2 - f1);
    assert Interpolar(a, b, f1) == a + d * f1;
    assert Interpolar(a, b, f2) == a + d * f2;
  }

  /** A larger `p` never gives a smaller quantile. */
  lemma {:induction false} QuantilMonotono(s: seq<real>, p1: real, p2: real)
    requires Ordenada(s) && |s| > 0 && 0.0 <= p1 <= p2 <= 1.0
    ensures Quantil(s, p1) <= Quantil(s, p2)
  {
    var m := |s| - 1;
    PosicaoMonotona(p1, p2, m);
    var pos1, pos2 := Posicao(p1, m), Posicao(p2, m);
    var i1, i2 := pos1.Floor, pos2.Floor;
    if i1 == i2 {
      if i1 + 1 < |s| {
        InterpolarMonotono(s[i1], s[i1 + 1], pos1 - i1 as real, pos2 - i2 as real);
      }
    } else {
      assert Quantil(s, p1) <= s[i1 + 1];
      assert s[i1 + 1] <= s[i2];
      assert s[i2] <= Quantil(s, p2);
    }
  }

  /** Q1, the 0.25 quantile of the non-missing values. */
  function Q1(valores: seq<real>): (q: real)
    requires |valores| > 0
    ensures exists x :: x in valores && x <= q
    ensures exists x :: x in valores && q <= x
  {
    ExtremosPresentes(valores);
    Quantil(Ordenar(valores), 0.25)
  }

  /** The smallest and the largest sorted values are values of the input. */
  lemma ExtremosPresentes(valores: seq<real>)
    requires |valores| > 0
    ensures |Ordenar(valores)| == |valores|
    ensures Ordenar(valores)[0] in valores && Ordenar(valores)[|valores| - 1] in valores
  {
    var s := Ordenar(valores);
    assert s[0] in multiset(s) && s[|s| - 1] in multiset(s);
  }

  /** Q3, the 0.75 quantile of the non-missing values. */
  function Q3(valores: seq<real>): (q: real)
    requires |valores| > 0
    ensures exists x :: x in valores && x <= q
    ensures exists x :: x in valores && q <= x
  {
    ExtremosPresentes(valores);
    Quantil(Ordenar(valores), 0.75)
  }

  /** For four values, Q1 lies three quarters of the way from the smallest
      to the second and Q3 a quarter of the way from the third to the largest. */
  lemma QuartisDeQuatro(v: seq<real>)
    requires |v| == 4 && Ordenada(v)
    ensures Q1(v) == v[0] + (v[1] - v[0]) * 0.75
    ensures Q3(v) == v[2] + (v[3] - v[2]) * 0.25
  {
    OrdenarOrdenada(v);
    QuantisDeQuatro(v);
  }

  lemma QuantisDeQuatro(s: seq<real>)
    requires |s| == 4 && Ordenada(s)
    ensures Quantil(s, 0.25) == s[0] + (s[1] - s[0]) * 0.75
    ensures Quantil(s, 0.75) == s[2] + (s[3] - s[2]) * 0.25
  {
    assert Posicao(0.25, 3) == 0.75 && (0.75).Floor == 0;
    assert Posicao(0.75, 3) == 2.25 && (2.25).Floor == 2;
  }

  /** Q1 <= Q3, so the interquartile range is never negative, and some
      value lies at or below Q1 and some at or above Q3. */
  lemma QuartisOrdenados(valores: seq<real>)
    requires |valores| > 0
    ensures Q1(valores) <= Q3(valores)
    ensures exists x :: x in valores && x <= Q1(valores)
    ensures exists x :: x in valores && Q3(valores) <= x
  {
    var s := Ordenar(valores);
    QuantilMonotono(s, 0.25, 0.75);
    assert s[0] in multiset(valores) && s[|s| - 1] in multiset(valores);
    assert s[0] in valores && s[0] <= Q1(valores);
    assert s[|s| - 1] in valores && Q3(valores) <= s[|s| - 1];
  }
}
