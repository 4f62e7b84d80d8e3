/** The values the analysis engine works on: pandas columns and frames,
    the duck-typed results of the analyses (Python dicts, modelled as
    ordered association lists because a dict keeps insertion order), the
    formatted answer table, and the exceptions the modelled paths raise. */
module Dados {

  datatype Option<T> = None | Some(value: T)

  /** The exceptions raised on the modelled paths. */
  datatype Erro =
    | KeyError      // `.loc` with a label the frame does not have
    | ValueError    // pandas refusing its input
    | IndexError    // a position past the end of a pandas Index
    | ErroDoModelo  // the secondary generative backend raised after the primary failed
    | ErroExterno   // an analysis this model does not compute raised

  datatype Result<T> = Ok(value: T) | Err(erro: Erro)

  /** The column dtypes the code distinguishes. */
  datatype DType = Int64 | Float64 | Bool | Object

  /** The text pandas prints for a dtype. */
  function NomeDType(t: DType): string {
    match t
    case Int64 => "int64"
    case Float64 => "float64"
    case Bool => "bool"
    case Object => "object"
  }

  /** `select_dtypes(include=["float64", "int64"])`. */
  predicate Numerico(t: DType) {
    t == Int64 || t == Float64
  }

  /** One cell; `Nulo` is a missing value (NaN). */
  datatype Celula = Num(x: real) | Str(s: string) | Logico(b: bool) | Nulo

  /** A cell fits its column's dtype: an int64 column holds integers and no
      NaN, a float64 column reals or NaN, a bool column booleans, an object
      column strings or NaN. */
  predicate CabeNoTipo(c: Celula, t: DType) {
    match t
    case Int64 => c.Num? && c.x.Floor as real == c.x
    case Float64 => c.Num? || c.Nulo?
    case Bool => c.Logico?
    case Object => c.Str? || c.Nulo?
  }

  datatype Coluna = Coluna(nome: string, dtype: DType, celulas: seq<Celula>)

  predicate Distintas<T(==)>(s: seq<T>) {
    forall i, j :: 0 <= i < j < |s| ==> s[i] != s[j]
  }

  function Nomes(cols: seq<Coluna>): (r: seq<string>)
    ensures |r| == |cols|
  {
    seq(|cols|, i requires 0 <= i < |cols| => cols[i].nome)
  }

  datatype Quadro = Quadro(colunas: seq<Coluna>) {
    /** Column names are distinct, all columns have the same number of rows
        and every cell fits its column's dtype. */
    predicate Valido() {
      && Distintas(Nomes(colunas))
      && (forall i, j :: 0 <= i < |colunas| && 0 <= j < |colunas| ==>
            |colunas[i].celulas| == |colunas[j].celulas|)
      && (forall i, k :: 0 <= i < |colunas| && 0 <= k < |colunas[i].celulas| ==>
            CabeNoTipo(colunas[i].celulas[k], colunas[i].dtype))
    }
  }

  /** A pandas DataFrame. */
  type DataFrame = q: Quadro | q.Valido() witness Quadro([])

  /** The non-missing numbers of a column, in row order: each number as
      many times as its cell occurs. */
  function Valores(celulas: seq<Celula>): (r: seq<real>)
    ensures |r| <= |celulas|
    ensures forall x :: x in r <==> Num(x) in celulas
    ensures forall x :: multiset(r)[x] == multiset(celulas)[Num(x)]
  {
    if celulas == [] then []
    else
      var resto := Valores(celulas[..|celulas| - 1]);
      var ultima := celulas[|celulas| - 1];
      assert celulas == celulas[..|celulas| - 1] + [ultima];
      assert multiset(celulas) == multiset(celulas[..|celulas| - 1]) + multiset{ultima};
      if ultima.Num? then resto + [ultima.x] else resto
  }

  /** Row order is kept: the numbers of two stretches of rows are those of
      the first followed by those of the second. */
  lemma {:induction false} ValoresConcatena(a: seq<Celula>, b: seq<Celula>)
    ensures Valores(a + b) == Valores(a) + Valores(b)
  {
    if b != [] {
      var b' := b[..|b| - 1];
      assert (a + b)[..|a + b| - 1] == a + b';
      ValoresConcatena(a, b');
    } else {
      assert a + b == a;
    }
  }

  /** A column without missing cells gives its numbers one for one, in
      row order. */
  lemma {:induction false} ValoresSemFaltas(celulas: seq<Celula>)
    requires forall k :: 0 <= k < |celulas| ==> celulas[k].Num?
    ensures |Valores(celulas)| == |celulas|
    ensures forall k :: 0 <= k < |celulas| ==> Valores(celulas)[k] == celulas[k].x
  {
    if celulas != [] {
      var n := |celulas| - 1;
      ValoresSemFaltas(celulas[..n]);
      assert Valores(celulas) == Valores(celulas[..n]) + [celulas[n].x];
    }
  }

  /** The non-missing strings of a column, in row order: each string as
      many times as its cell occurs. */
  function Textos(celulas: seq<Celula>): (r: seq<string>)
    ensures |r| <= |celulas|
    ensures forall s :: s in r <==> Str(s) in celulas
    ensures forall s :: multiset(r)[s] == multiset(celulas)[Str(s)]
  {
    if celulas == [] then []
    else
      var resto := Textos(celulas[..|celulas| - 1]);
      var ultima := celulas[|celulas| - 1];
      assert celulas == celulas[..|celulas| - 1] + [ultima];
      assert multiset(celulas) == multiset(celulas[..|celulas| - 1]) + multiset{ultima};
      if ultima.Str? then resto + [ultima.s] else resto
  }

  /** Row order is kept for the strings as well. */
  lemma {:induction false} TextosConcatena(a: seq<Celula>, b: seq<Celula>)
    ensures Textos(a + b) == Textos(a) + Textos(b)
  {
    if b != [] {
      var b' := b[..|b| - 1];
      assert (a + b)[..|a + b| - 1] == a + b';
      TextosConcatena(a, b');
    } else {
      assert a + b == a;
    }
  }

  /** The keys of an ordered dict. */
  function Chaves<V>(entradas: seq<(string, V)>): (r: seq<string>)
    ensures |r| == |entradas|
  {
    seq(|entradas|, i requires 0 <= i < |entradas| => entradas[i].0)
  }

  /** The raw result of an analysis, by the shape the formatter probes for:
      a value that is not a dict (rendered by `str`), a dict of scalars, a
      dict of lists, a dict of dicts. */
  datatype Resultado =
    | Escalar(texto: string)
    | DictEscalar(escalares: seq<(string, Celula)>)
    | DictLista(listas: seq<(string, seq<Celula>)>)
    | DictDict(dicts: seq<(string, seq<(string, Celula)>)>)

  /** A column label of a formatted table: a name, or a position 0, 1, ...
      (pandas' default labels). */
  datatype Rotulo = Nome(nome: string) | Posicao(pos: nat)

  /** A formatted answer: column labels and rows of cells. */
  datatype Tabela = Tabela(colunas: seq<Rotulo>, linhas: seq<seq<Celula>>) {
    predicate Retangular() {
      forall i :: 0 <= i < |linhas| ==> |linhas[i]| == |colunas|
    }
  }
}
