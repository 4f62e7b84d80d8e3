/** The discrete analyses of `Assistente` and its answer formatter:
    dtypes, min/max per numeric column, value counts per text column, IQR
    outliers per numeric column, the suggested questions and
    `formatar_resposta`. */
module Assistente {
  import opened Dados
  import opened Quartis

  // ---------------------------------------------------------------------
  // Column selection
  // ---------------------------------------------------------------------

  /** The dtype filters the analyses apply to `df.columns`. */
  datatype Selecao = SoNumericas | SoObjetos | SemObjetos

  predicate Seleciona(sel: Selecao, t: DType) {
    match sel
    case SoNumericas => Numerico(t)
    case SoObjetos => t == Object
    case SemObjetos => t != Object
  }

  /** The columns whose dtype the filter accepts, in frame order. */
  function Selecionar(cols: seq<Coluna>, sel: Selecao): (r: seq<Coluna>)
    ensures |r| <= |cols|
  {
    if cols == [] then []
    else
      var c := cols[|cols| - 1];
      Selecionar(cols[..|cols| - 1], sel) + (if Seleciona(sel, c.dtype) then [c] else [])
  }

  /** Selection keeps the frame's column order: selecting from two runs of
      columns is selecting from each, in turn. */
  lemma {:induction false} SelecionarConcatena(a: seq<Coluna>, b: seq<Coluna>, sel: Selecao)
    ensures Selecionar(a + b, sel) == Selecionar(a, sel) + Selecionar(b, sel)
  {
    if b != [] {
      var b' := b[..|b| - 1];
      assert (a + b)[..|a + b| - 1] == a + b';
      SelecionarConcatena(a, b', sel);
    } else {
      assert a + b == a;
    }
  }

  /** The selection keeps exactly the columns whose dtype the filter accepts. */
  lemma {:induction false} SelecionarFiltra(cols: seq<Coluna>, sel: Selecao)
    ensures forall c :: c in Selecionar(cols, sel) <==> c in cols && Seleciona(sel, c.dtype)
  {
    if cols != [] {
      var c := cols[|cols| - 1];
      assert cols == cols[..|cols| - 1] + [c];
      SelecionarFiltra(cols[..|cols| - 1], sel);
    }
  }

  /** Every column is either of dtype object or not, so the two filters
      together keep every column once. */
  lemma {:induction false} ObjetosMaisNaoObjetos(cols: seq<Coluna>)
    ensures |Selecionar(cols, SemObjetos)| + |Selecionar(cols, SoObjetos)| == |cols|
  {
    if cols != [] {
      ObjetosMaisNaoObjetos(cols[..|cols| - 1]);
    }
  }

  // ---------------------------------------------------------------------
  // tipos_de_dados: df.dtypes.to_dict()
  // ---------------------------------------------------------------------

  /** One entry per column, keyed by the column name, holding its dtype's name. */
  function TiposDeDados(df: DataFrame): (r: seq<(string, Celula)>)
    ensures Chaves(r) == Nomes(df.colunas)
    ensures Distintas(Chaves(r)) && |r| == |df.colunas|
    ensures forall i :: 0 <= i < |r| ==> r[i].1 == Str(NomeDType(df.colunas[i].dtype))
  {
    seq(|df.colunas|, i requires 0 <= i < |df.colunas| =>
      (df.colunas[i].nome, Str(NomeDType(df.colunas[i].dtype))))
  }

  // ---------------------------------------------------------------------
  // intervalo_variaveis: df.describe().loc[["min", "max"]].to_dict()
  // ---------------------------------------------------------------------

  /** The smallest value. */
  function Minimo(s: seq<real>): (m: real)
    requires |s| > 0
    ensures m in s
    ensures forall x :: x in s ==> m <= x
  {
    if |s| == 1 then s[0]
    else
      var t := Minimo(s[1..]);
      assert s == [s[0]] + s[1..];
      if s[0] <= t then s[0] else t
  }

  /** The largest value. */
  function Maximo(s: seq<real>): (m: real)
    requires |s| > 0
    ensures m in s
    ensures forall x :: x in s ==> x <= m
  {
    if |s| == 1 then s[0]
    else
      var t := Maximo(s[1..]);
      assert s == [s[0]] + s[1..];
      if s[0] >= t then s[0] else t
  }

  /** The "min" and "max" rows of `describe()` for one numeric column: NaN
      when the column has no value, otherwise two values of the column with
      every value between them. */
  function Faixa(valores: seq<real>): (r: seq<(string, Celula)>)
    ensures |r| == 2 && r[0].0 == "min" && r[1].0 == "max"
    ensures valores == [] ==> r[0].1 == Nulo && r[1].1 == Nulo
    ensures valores != [] ==>
      && r[0].1.Num? && r[1].1.Num?
      && r[0].1.x in valores && r[1].1.x in valores
      && r[0].1.x <= r[1].1.x
      && (forall x :: x in valores ==> r[0].1.x <= x <= r[1].1.x)
  {
    if valores == [] then [("min", Nulo), ("max", Nulo)]
    else [("min", Num(Minimo(valores))), ("max", Num(Maximo(valores)))]
  }

  /** `describe()` of a frame without columns raises ValueError; of a frame
      without numeric columns it describes the text columns, which have no
      "min" row, so `.loc` raises KeyError; otherwise one entry per numeric
      column, in frame order. */
  function IntervaloVariaveis(df: DataFrame): (r: Result<seq<(string, seq<(string, Celula)>)>>)
    ensures df.colunas == [] ==> r == Err(ValueError)
    ensures df.colunas != [] && Selecionar(df.colunas, SoNumericas) == [] ==> r == Err(KeyError)
    ensures r.Ok? <==> Selecionar(df.colunas, SoNumericas) != []
    ensures r.Ok? ==>
      var nums := Selecionar(df.colunas, SoNumericas);
      && Chaves(r.value) == Nomes(nums)
      && forall i :: 0 <= i < |r.value| ==> r.value[i].1 == Faixa(Valores(nums[i].celulas))
  {
    var nums := Selecionar(df.colunas, SoNumericas);
    if df.colunas == [] then Err(ValueError)
    else if nums == [] then Err(KeyError)
    else Ok(seq(|nums|, i requires 0 <= i < |nums| => (nums[i].nome, Faixa(Valores(nums[i].celulas)))))
  }

  // ---------------------------------------------------------------------
  // frequencias: {col: df[col].value_counts().to_dict() for object columns}
  // ---------------------------------------------------------------------

  /** The distinct values of `xs`, in order of first occurrence. */
  function Distintos(xs: seq<string>): (d: seq<string>)
    ensures Distintas(d)
    ensures forall v :: v in d <==> v in xs
  {
    if xs == [] then []
    else
      var x := xs[|xs| - 1];
      assert xs == xs[..|xs| - 1] + [x];
      var d := Distintos(xs[..|xs| - 1]);
      if x in d then d else d + [x]
  }

  /** Each value of `d` paired with its multiplicity in `m`. */
  function Contagens(d: seq<string>, m: multiset<string>): (r: seq<(string, nat)>)
    ensures Chaves(r) == d
    ensures forall i :: 0 <= i < |r| ==> r[i].1 == m[d[i]]
  {
    if d == [] then []
    else Contagens(d[..|d| - 1], m) + [(d[|d| - 1], m[d[|d| - 1]])]
  }

  /** The sum of the counts of a `value_counts()` result. */
  function Soma(c: seq<(string, nat)>): nat {
    if c == [] then 0 else Soma(c[..|c| - 1]) + c[|c| - 1].1
  }

  /** Adding one occurrence of `x` adds one to the total exactly when `x` is
      one of the counted values. */
  lemma {:induction false} SomaAcrescenta(d: seq<string>, m: multiset<string>, x: string)
    requires Distintas(d)
    ensures Soma(Contagens(d, m + multiset{x})) == Soma(Contagens(d, m)) + (if x in d then 1 else 0)
  {
    if d != [] {
      var e := d[..|d| - 1];
      assert d == e + [d[|d| - 1]];
      SomaAcrescenta(e, m, x);
    }
  }

  /** The counts over the distinct values add up to the number of values. */
  lemma {:induction false} SomaDasContagens(xs: seq<string>)
    ensures Soma(Contagens(Distintos(xs), multiset(xs))) == |xs|
  {
    if xs != [] {
      var ys, x := xs[..|xs| - 1], xs[|xs| - 1];
      assert xs == ys + [x];
      var d, m := Distintos(ys), multiset(ys);
      assert multiset(xs) == m + multiset{x};
      SomaDasContagens(ys);
      SomaAcrescenta(d, m, x);
      if x in d {
        assert Distintos(xs) == d;
      } else {
        var d' := d + [x];
        assert Distintos(xs) == d';
        assert d'[..|d'| - 1] == d;
        assert Contagens(d', m + multiset{x}) == Contagens(d, m + multiset{x}) + [(x, (m + multiset{x})[x])];
        assert x !in ys;
        assert m[x] == 0;
      }
    }
  }

  /** `c` is what `value_counts().to_dict()` holds for the non-missing values
      `xs` of a column: each distinct value once, with the number of rows
      holding it (at least one), and the counts summing to the number of
      non-missing rows. */
  ghost predicate ContagemFiel(c: seq<(string, nat)>, xs: seq<string>) {
    && Distintas(Chaves(c))
    && (forall v :: v in Chaves(c) <==> v in xs)
    && (forall i :: 0 <= i < |c| ==> c[i].1 == multiset(xs)[c[i].0] && c[i].1 >= 1)
    && Soma(c) == |xs|
  }

  /** `Series.value_counts()` of the non-missing values `xs`. */
  function ContagemDeValores(xs: seq<string>): (r: seq<(string, nat)>)
    ensures ContagemFiel(r, xs)
  {
    SomaDasContagens(xs);
    var d := Distintos(xs);
    var r := Contagens(d, multiset(xs));
    assert forall i :: 0 <= i < |r| ==> r[i].0 == d[i] && d[i] in xs;
    r
  }

  /** One entry per object column, in frame order, with its value counts. */
  function Frequencias(df: DataFrame): (r: seq<(string, seq<(string, nat)>)>)
    ensures Chaves(r) == Nomes(Selecionar(df.colunas, SoObjetos))
    ensures forall i :: 0 <= i < |r| ==>
      ContagemFiel(r[i].1, Textos(Selecionar(df.colunas, SoObjetos)[i].celulas))
  {
    var objs := Selecionar(df.colunas, SoObjetos);
    seq(|objs|, i requires 0 <= i < |objs| => (objs[i].nome, ContagemDeValores(Textos(objs[i].celulas))))
  }

  /** Against the cells themselves: every count of `frequencias` is at
      least one and is the number of rows of that object column holding the
      value. */
  lemma FrequenciasContamLinhas(df: DataFrame, i: nat, j: nat)
    requires i < |Frequencias(df)| && j < |Frequencias(df)[i].1|
    ensures Frequencias(df)[i].1[j].1 >= 1
    ensures Frequencias(df)[i].1[j].1 ==
      multiset(Selecionar(df.colunas, SoObjetos)[i].celulas)[Str(Frequencias(df)[i].1[j].0)]
  {
    var c := Selecionar(df.colunas, SoObjetos)[i].celulas;
    var contagem := Frequencias(df)[i].1;
    assert contagem[j].1 == multiset(Textos(c))[contagem[j].0];
  }

  // ---------------------------------------------------------------------
  // detectar_outliers: the 1.5 * IQR rule per numeric column
  // ---------------------------------------------------------------------

  /** The values strictly below `baixo` or strictly above `alto`, in order. */
  function Atipicos(xs: seq<real>, baixo: real, alto: real): (r: seq<real>)
    ensures |r| <= |xs|
    ensures forall x :: x in r <==> x in xs && (x < baixo || x > alto)
  {
    if xs == [] then []
    else
      var x := xs[|xs| - 1];
      assert xs == xs[..|xs| - 1] + [x];
      Atipicos(xs[..|xs| - 1], baixo, alto) + (if x < baixo || x > alto then [x] else [])
  }

  /** Duplicates are kept: a value outside the fences is listed as many
      times as it occurs, and any other value not at all. */
  lemma {:induction false} AtipicosRepeticoes(xs: seq<real>, baixo: real, alto: real)
    ensures forall x :: multiset(Atipicos(xs, baixo, alto))[x] == if x < baixo || x > alto then multiset(xs)[x] else 0
  {
    if xs != [] {
      var n := |xs| - 1;
      AtipicosRepeticoes(xs[..n], baixo, alto);
      assert xs == xs[..n] + [xs[n]];
      assert multiset(xs) == multiset(xs[..n]) + multiset{xs[n]};
    }
  }

  /** The positions of the values strictly outside `[baixo, alto]`, in order. */
  function PosicoesAtipicas(xs: seq<real>, baixo: real, alto: real): seq<nat> {
    if xs == [] then []
    else
      var n := |xs| - 1;
      PosicoesAtipicas(xs[..n], baixo, alto) + (if xs[n] < baixo || xs[n] > alto then [n] else [])
  }

  lemma {:induction false} PosicoesCrescentes(xs: seq<real>, baixo: real, alto: real)
    ensures forall k :: 0 <= k < |PosicoesAtipicas(xs, baixo, alto)| ==>
      PosicoesAtipicas(xs, baixo, alto)[k] < |xs|
    ensures forall a, b :: 0 <= a < b < |PosicoesAtipicas(xs, baixo, alto)| ==>
      PosicoesAtipicas(xs, baixo, alto)[a] < PosicoesAtipicas(xs, baixo, alto)[b]
  {
    if xs != [] {
      var n := |xs| - 1;
      PosicoesCrescentes(xs[..n], baixo, alto);
      var p := PosicoesAtipicas(xs[..n], baixo, alto);
      assert forall k :: 0 <= k < |p| ==> p[k] < n;
      assert PosicoesAtipicas(xs, baixo, alto) == p + (if xs[n] < baixo || xs[n] > alto then [n] else []);
    }
  }

  lemma {:induction false} PosicoesExatas(xs: seq<real>, baixo: real, alto: real)
    ensures forall j :: 0 <= j < |xs| ==>
      (j in PosicoesAtipicas(xs, baixo, alto) <==> xs[j] < baixo || xs[j] > alto)
  {
    if xs != [] {
      var n := |xs| - 1;
      var ys := xs[..n];
      PosicoesExatas(ys, baixo, alto);
      PosicoesCrescentes(ys, baixo, alto);
      var p := PosicoesAtipicas(ys, baixo, alto);
      assert forall k :: 0 <= k < |p| ==> p[k] < n;
      assert n !in p;
      assert PosicoesAtipicas(xs, baixo, alto) == p + (if xs[n] < baixo || xs[n] > alto then [n] else []);
      forall j | 0 <= j < |xs|
        ensures j in PosicoesAtipicas(xs, baixo, alto) <==> xs[j] < baixo || xs[j] > alto
      {
        if j < n { assert xs[j] == ys[j]; }
      }
    }
  }

  lemma {:induction false} AtipicosNasPosicoes(xs: seq<real>, baixo: real, alto: real)
    ensures var pos := PosicoesAtipicas(xs, baixo, alto);
      && |Atipicos(xs, baixo, alto)| == |pos|
      && (forall k :: 0 <= k < |pos| ==> pos[k] < |xs| && Atipicos(xs, baixo, alto)[k] == xs[pos[k]])
  {
    PosicoesCrescentes(xs, baixo, alto);
    if xs != [] {
      var n := |xs| - 1;
      var ys := xs[..n];
      AtipicosNasPosicoes(ys, baixo, alto);
      var p := PosicoesAtipicas(ys, baixo, alto);
      var a := Atipicos(ys, baixo, alto);
      assert forall k :: 0 <= k < |p| ==> p[k] < n && a[k] == ys[p[k]] == xs[p[k]];
    }
  }

  /** The positions `Atipicos` keeps: increasing, exactly those whose value
      lies outside `[baixo, alto]`, and the result reads `xs` at them; so the
      result is a subsequence of `xs` that keeps row order and duplicates. */
  lemma AtipicosSaoFiltro(xs: seq<real>, baixo: real, alto: real)
    returns (pos: seq<nat>)
    ensures forall a, b :: 0 <= a < b < |pos| ==> pos[a] < pos[b]
    ensures forall k :: 0 <= k < |pos| ==> pos[k] < |xs|
    ensures forall j :: 0 <= j < |xs| ==> (j in pos <==> xs[j] < baixo || xs[j] > alto)
    ensures |Atipicos(xs, baixo, alto)| == |pos|
    ensures forall k :: 0 <= k < |pos| ==> Atipicos(xs, baixo, alto)[k] == xs[pos[k]]
  {
    pos := PosicoesAtipicas(xs, baixo, alto);
    PosicoesCrescentes(xs, baixo, alto);
    PosicoesExatas(xs, baixo, alto);
    AtipicosNasPosicoes(xs, baixo, alto);
  }

  /** The lower fence Q1 - 1.5 * IQR of non-missing values. */
  function CercaBaixa(v: seq<real>): (c: real)
    requires |v| > 0
    ensures c <= Q1(v)
  {
    QuartisOrdenados(v);
    Q1(v) - 1.5 * (Q3(v) - Q1(v))
  }

  /** The upper fence Q3 + 1.5 * IQR of non-missing values. */
  function CercaAlta(v: seq<real>): (c: real)
    requires |v| > 0
    ensures Q3(v) <= c
  {
    QuartisOrdenados(v);
    Q3(v) + 1.5 * (Q3(v) - Q1(v))
  }

  /** The outliers of one column: with Q1 and Q3 the quartiles of its
      non-missing values and IQR = Q3 - Q1, the values strictly below
      Q1 - 1.5 * IQR or strictly above Q3 + 1.5 * IQR. A column with no
      value has NaN quartiles, every comparison is false, and no outlier. */
  function OutliersDaColuna(celulas: seq<Celula>): (r: seq<real>)
    ensures Valores(celulas) == [] ==> r == []
    ensures forall x :: x in r ==> Num(x) in celulas
  {
    var v := Valores(celulas);
    if v == [] then []
    else Atipicos(v, CercaBaixa(v), CercaAlta(v))
  }

  /** A value is an outlier of its column exactly when it lies strictly
      outside the fences, and then it is listed once per row holding it; a
      value on a fence, or between Q1 and Q3, never is. A column without
      numbers has none. */
  lemma OutliersExatos(celulas: seq<Celula>, x: real)
    ensures Valores(celulas) == [] ==> OutliersDaColuna(celulas) == []
    ensures Valores(celulas) != [] ==>
      CercaBaixa(Valores(celulas)) <= Q1(Valores(celulas)) <= Q3(Valores(celulas)) <= CercaAlta(Valores(celulas))
    ensures Valores(celulas) != [] ==>
      (x in OutliersDaColuna(celulas) <==>
         Num(x) in celulas && (x < CercaBaixa(Valores(celulas)) || x > CercaAlta(Valores(celulas))))
    ensures Valores(celulas) != [] ==>
      multiset(OutliersDaColuna(celulas))[x] ==
        if x < CercaBaixa(Valores(celulas)) || x > CercaAlta(Valores(celulas)) then multiset(celulas)[Num(x)] else 0
  {
    var v := Valores(celulas);
    if v != [] {
      QuartisOrdenados(v);
      AtipicosRepeticoes(v, CercaBaixa(v), CercaAlta(v));
    }
  }

  /** The ages 20, 30, 40 and 1000: Q1 = 27.5, Q3 = 280, IQR = 252.5, the
      upper fence is 658.75 and 1000 is the only outlier. */
  lemma OutliersDeIdades(c: seq<Celula>)
    requires c == [Num(20.0), Num(30.0), Num(40.0), Num(1000.0)]
    ensures OutliersDaColuna(c) == [1000.0]
  {
    var v := Valores(c);
    ValoresDeIdades(c);
    OrdenadaDeQuatro(v);
    QuartisDeQuatro(v);
    var q1, q3 := Q1(v), Q3(v);
    assert q1 == 27.5 && q3 == 280.0;
    var baixo, alto := CercaBaixa(v), CercaAlta(v);
    assert baixo == q1 - 1.5 * (q3 - q1) && alto == q3 + 1.5 * (q3 - q1);
    assert OutliersDaColuna(c) == Atipicos(v, baixo, alto);
    SoOUltimoAtipico(v, baixo, alto);
  }

  lemma ValoresDeIdades(c: seq<Celula>)
    requires c == [Num(20.0), Num(30.0), Num(40.0), Num(1000.0)]
    ensures var v := Valores(c);
      |v| == 4 && v[0] == 20.0 && v[1] == 30.0 && v[2] == 40.0 && v[3] == 1000.0
  {
    ValoresSemFaltas(c);
  }

  lemma OrdenadaDeQuatro(v: seq<real>)
    requires |v| == 4 && v[0] <= v[1] <= v[2] <= v[3]
    ensures Ordenada(v)
  {
  }

  /** Of four values, when the first three lie within the fences and the
      last above them, the last is the only outlier. */
  lemma SoOUltimoAtipico(v: seq<real>, baixo: real, alto: real)
    requires |v| == 4
    requires forall k :: 0 <= k < 3 ==> baixo <= v[k] <= alto
    requires v[3] > alto
    ensures Atipicos(v, baixo, alto) == [v[3]]
  {
    assert v[..3][..2][..1][..0] == [];
    assert Atipicos(v[..1], baixo, alto) == [] by { assert v[..1][0] == v[0]; }
    assert Atipicos(v[..2], baixo, alto) == [] by { assert v[..2][..1] == v[..1]; assert v[..2][1] == v[1]; }
    assert Atipicos(v[..3], baixo, alto) == [] by { assert v[..3][..2] == v[..2]; assert v[..3][2] == v[2]; }
    assert v[..3] == v[..|v| - 1];
  }

  /** One entry per numeric column, in frame order, with its outliers. */
  function OutliersPorColuna(cols: seq<Coluna>): (r: seq<(string, seq<real>)>)
    ensures Chaves(r) == Nomes(Selecionar(cols, SoNumericas))
    ensures forall i :: 0 <= i < |r| ==>
      r[i].1 == OutliersDaColuna(Selecionar(cols, SoNumericas)[i].celulas)
  {
    if cols == [] then []
    else
      var c := cols[|cols| - 1];
      var init := cols[..|cols| - 1];
      var antes := OutliersPorColuna(init);
      var nums := Selecionar(init, SoNumericas);
      assert Selecionar(cols, SoNumericas) == nums + (if Numerico(c.dtype) then [c] else []);
      var todas := Selecionar(cols, SoNumericas);
      var r := antes + (if Numerico(c.dtype) then [(c.nome, OutliersDaColuna(c.celulas))] else []);
      assert |r| == |todas|;
      forall i | 0 <= i < |r|
        ensures r[i].0 == todas[i].nome
        ensures r[i].1 == OutliersDaColuna(todas[i].celulas)
      {
        if i < |antes| {
          assert r[i] == antes[i] && todas[i] == nums[i];
          assert Chaves(antes)[i] == Nomes(nums)[i];
        }
      }
      assert forall i :: 0 <= i < |r| ==> Chaves(r)[i] == Nomes(todas)[i];
      r
  }

  /** `detectar_outliers`: the loop over the numeric columns filling the dict. */
  method DetectarOutliers(df: DataFrame) returns (outliers: seq<(string, seq<real>)>)
    ensures outliers == OutliersPorColuna(df.colunas)
  {
    var cols := df.colunas;
    outliers := [];
    var i := 0;
    while i < |cols|
      invariant 0 <= i <= |cols|
      invariant outliers == OutliersPorColuna(cols[..i])
    {
      var col := cols[i];
      assert cols[..i + 1] == cols[..i] + [col];
      if Numerico(col.dtype) {
        outliers := outliers + [(col.nome, OutliersDaColuna(col.celulas))];
      }
      i := i + 1;
    }
    assert cols[..|cols|] == cols;
  }

  // ---------------------------------------------------------------------
  // sugestoes_perguntas
  // ---------------------------------------------------------------------

  const PrefixoMedia := "Qual a média da coluna "
  const PrefixoFrequencia := "Quais os valores mais frequentes na coluna "

  function PerguntaMedia(nome: string): string {
    PrefixoMedia + nome + "?"
  }

  function PerguntaFrequencia(nome: string): string {
    PrefixoFrequencia + nome + "?"
  }

  /** The mean questions for `medias` followed by the frequency questions
      for `objs`, at most six in all. */
  function Sugerir(medias: seq<Coluna>, objs: seq<Coluna>): (r: seq<string>)
    ensures |r| == if |medias| + |objs| < 6 then |medias| + |objs| else 6
    ensures forall i :: 0 <= i < |r| && i < |medias| ==> r[i] == PerguntaMedia(medias[i].nome)
    ensures forall i :: |medias| <= i < |r| ==> r[i] == PerguntaFrequencia(objs[i - |medias|].nome)
  {
    var n := if |medias| + |objs| < 6 then |medias| + |objs| else 6;
    seq(n, i requires 0 <= i < n =>
      if i < |medias| then PerguntaMedia(medias[i].nome) else PerguntaFrequencia(objs[i - |medias|].nome))
  }

  /** `sugestoes_perguntas`: the mean questions for the columns that are not
      of dtype object, then the frequency questions for the object columns,
      cut to six. */
  function SugestoesPerguntas(df: DataFrame): (r: seq<string>)
    ensures |r| == if |df.colunas| < 6 then |df.colunas| else 6
    ensures forall i :: 0 <= i < |r| && i < |Selecionar(df.colunas, SemObjetos)| ==>
      r[i] == PerguntaMedia(Selecionar(df.colunas, SemObjetos)[i].nome)
    ensures forall i ::
      && |Selecionar(df.colunas, SemObjetos)| <= i < |r|
      && i - |Selecionar(df.colunas, SemObjetos)| < |Selecionar(df.colunas, SoObjetos)|
      ==> r[i] == PerguntaFrequencia(Selecionar(df.colunas, SoObjetos)[i - |Selecionar(df.colunas, SemObjetos)|].nome)
  {
    ObjetosMaisNaoObjetos(df.colunas);
    Sugerir(Selecionar(df.colunas, SemObjetos), Selecionar(df.colunas, SoObjetos))
  }

  // ---------------------------------------------------------------------
  // formatar_resposta: pd.DataFrame(resposta).T.reset_index(), first column
  // renamed "Variável"; a non-dict becomes a one-cell table
  // ---------------------------------------------------------------------

  /** Appends the keys of `ks` that are not yet in `acc`, in order. */
  function AcrescentarNovas(acc: seq<string>, ks: seq<string>): (r: seq<string>)
    requires Distintas(acc)
    ensures Distintas(r)
    ensures forall k :: k in r <==> k in acc || k in ks
  {
    if ks == [] then acc
    else
      var k := ks[|ks| - 1];
      assert ks == ks[..|ks| - 1] + [k];
      var a := AcrescentarNovas(acc, ks[..|ks| - 1]);
      if k in a then a else a + [k]
  }

  /** The union of the inner keys of a dict of dicts: pandas' row index
      before the transpose. */
  function UniaoDasChaves(dicts: seq<(string, seq<(string, Celula)>)>): (u: seq<string>)
    ensures Distintas(u)
    ensures forall k :: k in u <==> exists i :: 0 <= i < |dicts| && k in Chaves(dicts[i].1)
  {
    if dicts == [] then []
    else
      var n := |dicts| - 1;
      var u := AcrescentarNovas(UniaoDasChaves(dicts[..n]), Chaves(dicts[n].1));
      assert forall i :: 0 <= i < n ==> dicts[..n][i] == dicts[i];
      u
  }

  /** The cell a dict holds under `k`, NaN when it has none. */
  function Consultar(d: seq<(string, Celula)>, k: string): (c: Celula)
    ensures k !in Chaves(d) ==> c == Nulo
    ensures Distintas(Chaves(d)) ==> forall i :: 0 <= i < |d| && d[i].0 == k ==> c == d[i].1
  {
    if d == [] then Nulo
    else if d[|d| - 1].0 == k then
      assert Chaves(d)[|d| - 1] == k;
      assert forall i :: 0 <= i < |d| - 1 ==> Chaves(d)[i] == d[i].0;
      d[|d| - 1].1
    else
      var e := d[..|d| - 1];
      assert forall i :: 0 <= i < |e| ==> e[i] == d[i] && Chaves(e)[i] == Chaves(d)[i];
      assert Chaves(d) == Chaves(e) + [d[|d| - 1].0];
      Consultar(e, k)
  }

  /** All lists of a dict of lists have the same length. */
  predicate MesmoComprimento(listas: seq<(string, seq<Celula>)>) {
    forall i, j :: 0 <= i < |listas| && 0 <= j < |listas| ==> |listas[i].1| == |listas[j].1|
  }

  /** The outer keys of a dict-shaped result. */
  function ChavesExternas(resposta: Resultado): seq<string> {
    match resposta
    case Escalar(_) => []
    case DictEscalar(e) => Chaves(e)
    case DictLista(l) => Chaves(l)
    case DictDict(d) => Chaves(d)
  }

  /** `reset_index` names the recovered index column "index", or "level_0"
      when a column is already called "index"; it raises ValueError when the
      name it picked is taken too. The columns of a transposed dict of dicts
      are its inner keys. */
  predicate RotulosEmConflito(colunas: seq<string>) {
    "index" in colunas && "level_0" in colunas
  }

  /** `formatar_resposta(resposta, titulo)`. There is no fallback: pandas
      refuses a non-empty dict of scalars, a dict of lists of unequal
      lengths and a dict of dicts whose inner keys include both "index" and
      "level_0" with ValueError, and so does the model. */
  function FormatarResposta(resposta: Resultado, titulo: string := "Resumo"): (r: Result<Tabela>)
    ensures r.Ok? ==> r.value.Retangular()
    ensures resposta.Escalar? ==>
      r == Ok(Tabela([Nome(titulo)], [[Str(resposta.texto)]]))
    ensures !resposta.Escalar? && r.Ok? ==>
      && |r.value.colunas| >= 1 && r.value.colunas[0] == Nome("Variável")
      && |r.value.linhas| == |ChavesExternas(resposta)|
      && forall i :: 0 <= i < |r.value.linhas| ==> r.value.linhas[i][0] == Str(ChavesExternas(resposta)[i])
    ensures resposta.DictEscalar? ==> (r.Ok? <==> resposta.escalares == [])
    ensures resposta.DictLista? ==> (r.Ok? <==> MesmoComprimento(resposta.listas))
    ensures resposta.DictDict? ==> (r.Ok? <==> !RotulosEmConflito(UniaoDasChaves(resposta.dicts)))
    ensures r.Err? ==> r.erro == ValueError
  {
    match resposta
    case Escalar(texto) => Ok(Tabela([Nome(titulo)], [[Str(texto)]]))
    case DictEscalar(e) =>
      if e == [] then Ok(Tabela([Nome("Variável")], [])) else Err(ValueError)
    case DictLista(l) =>
      if !MesmoComprimento(l) then Err(ValueError)
      else
        Ok(TabelaDeListas(l))
    case DictDict(d) =>
      if RotulosEmConflito(UniaoDasChaves(d)) then Err(ValueError) else Ok(TabelaDeDicts(d))
  }

  /** The transposed frame of a dict of lists of one length n: the key
      column "Variável", then the positions 0 .. n-1. */
  function TabelaDeListas(l: seq<(string, seq<Celula>)>): (t: Tabela)
    requires MesmoComprimento(l)
    ensures t.Retangular()
    ensures |t.colunas| >= 1 && t.colunas[0] == Nome("Variável")
    ensures forall i :: 0 <= i < |l| ==> t.colunas[1..] == seq(|l[i].1|, j requires 0 <= j < |l[i].1| => Posicao(j))
    ensures |t.linhas| == |l|
    ensures forall i :: 0 <= i < |l| ==> t.linhas[i] == [Str(l[i].0)] + l[i].1
  {
    var n := if l == [] then 0 else |l[0].1|;
    Tabela([Nome("Variável")] + seq(n, j requires 0 <= j < n => Posicao(j)),
           seq(|l|, i requires 0 <= i < |l| => [Str(l[i].0)] + l[i].1))
  }

  /** The transposed frame of a dict of dicts: the key column "Variável",
      then one column per key of `UniaoDasChaves`; the cell of row `i` and
      column `j` is row `i`'s value under that key, NaN when it lacks it. */
  function TabelaDeDicts(d: seq<(string, seq<(string, Celula)>)>): (t: Tabela)
    ensures t.Retangular()
    ensures |t.colunas| == |UniaoDasChaves(d)| + 1 && t.colunas[0] == Nome("Variável")
    ensures forall j :: 1 <= j < |t.colunas| ==> t.colunas[j] == Nome(UniaoDasChaves(d)[j - 1])
    ensures |t.linhas| == |d|
    ensures forall i :: 0 <= i < |d| ==> t.linhas[i][0] == Str(d[i].0)
    ensures forall i, j :: 0 <= i < |d| && 1 <= j < |t.colunas| ==>
      t.linhas[i][j] == Consultar(d[i].1, UniaoDasChaves(d)[j - 1])
  {
    var u := UniaoDasChaves(d);
    var colunas := [Nome("Variável")] + seq(|u|, j requires 0 <= j < |u| => Nome(u[j]));
    var linhas := seq(|d|, i requires 0 <= i < |d| => LinhaDeDict(d[i].0, d[i].1, u));
    assert forall j :: 1 <= j < |colunas| ==> colunas[j] == Nome(u[j - 1]);
    Tabela(colunas, linhas)
  }

  /** One row of the transposed frame: the outer key, then the inner dict's
      value under each key of `u`, NaN where it has none. */
  function LinhaDeDict(chave: string, d: seq<(string, Celula)>, u: seq<string>): (r: seq<Celula>)
    ensures |r| == |u| + 1 && r[0] == Str(chave)
    ensures forall j :: 1 <= j < |r| ==> r[j] == Consultar(d, u[j - 1])
  {
    var valores := seq(|u|, j requires 0 <= j < |u| => Consultar(d, u[j]));
    assert forall j :: 1 <= j < |valores| + 1 ==> ([Str(chave)] + valores)[j] == valores[j - 1];
    [Str(chave)] + valores
  }

  /** A dict of dicts becomes one row per outer key and one column per key
      found in any inner dict, each column once; a cell holds the inner
      dict's value for its column, or NaN when that dict lacks the key. */
  lemma FormatoDictDict(d: seq<(string, seq<(string, Celula)>)>, i: nat, j: nat)
    requires FormatarResposta(DictDict(d)).Ok?
    requires 0 <= i < |d| && 1 <= j < |FormatarResposta(DictDict(d)).value.colunas|
    requires forall k :: 0 <= k < |d| ==> Distintas(Chaves(d[k].1))
    ensures var t := FormatarResposta(DictDict(d)).value;
      && t.colunas[j].Nome?
      && (exists k :: 0 <= k < |d| && t.colunas[j].nome in Chaves(d[k].1))
      && (forall j' :: 1 <= j' < |t.colunas| && j' != j ==> t.colunas[j'] != t.colunas[j])
      && (t.colunas[j].nome !in Chaves(d[i].1) ==> t.linhas[i][j] == Nulo)
      && (forall m :: 0 <= m < |d[i].1| && d[i].1[m].0 == t.colunas[j].nome ==>
            t.linhas[i][j] == d[i].1[m].1)
  {
    var u := UniaoDasChaves(d);
    var t := TabelaDeDicts(d);
    assert FormatarResposta(DictDict(d)).value == t;
    var k := u[j - 1];
    assert k in u && t.colunas[j] == Nome(k);
    assert t.linhas[i][j] == Consultar(d[i].1, k);
    forall j' | 1 <= j' < |t.colunas| && j' != j
      ensures t.colunas[j'] != t.colunas[j]
    {
      assert t.colunas[j'] == Nome(u[j' - 1]);
    }
  }

  /** Every inner key of a dict of dicts names a column of the formatted table. */
  lemma FormatoDictDictCobre(d: seq<(string, seq<(string, Celula)>)>, i: nat, k: string)
    requires 0 <= i < |d| && k in Chaves(d[i].1)
    ensures FormatarResposta(DictDict(d)).Ok? ==> Nome(k) in FormatarResposta(DictDict(d)).value.colunas[1..]
  {
    var u := UniaoDasChaves(d);
    assert k in u;
    var j :| 0 <= j < |u| && u[j] == k;
    var t := TabelaDeDicts(d);
    assert t.colunas[1..][j] == t.colunas[j + 1] == Nome(k);
  }

  /** A column of value counts holding both "index" and "level_0" cannot be
      formatted: the recovered index column has no free name. */
  lemma ConflitoDeRotulos()
    ensures FormatarResposta(DictDict([("c", [("index", Num(2.0)), ("level_0", Num(1.0))])])) == Err(ValueError)
  {
    var d := [("c", [("index", Num(2.0)), ("level_0", Num(1.0))])];
    assert Chaves(d[0].1) == ["index", "level_0"];
    assert "index" in UniaoDasChaves(d) && "level_0" in UniaoDasChaves(d);
  }

  /** A dict of lists of one length n becomes the columns 0 .. n-1 after
      "Variável", and row i is the i-th key followed by its list. */
  lemma FormatoDictLista(l: seq<(string, seq<Celula>)>, i: nat)
    requires MesmoComprimento(l) && 0 <= i < |l|
    ensures var t := FormatarResposta(DictLista(l)).value;
      && t.colunas[1..] == seq(|l[i].1|, j requires 0 <= j < |l[i].1| => Posicao(j))
      && t.linhas[i] == [Str(l[i].0)] + l[i].1
  {
  }
}
