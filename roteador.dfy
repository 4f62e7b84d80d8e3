/** `roteador_de_pergunta`: the question, lower-cased, is tested against
    eight ordered groups of keywords by plain substring search; the first
    group with a keyword in the question picks one analysis and the tag
    "assistente", and a question no group matches gets `(None, "modelo")`. */
module Roteador {
  import opened Dados
  import opened Texto
  import Assistente

  /** The analyses the router can pick, one per keyword group. */
  datatype Analise =
    | PedeTipos
    | PedeIntervalo
    | PedeTendencia
    | PedeVariabilidade
    | PedeFrequencias
    | PedeOutliers
    | PedeCorrelacoes
    | PedeAgrupamento

  /** The keyword groups in the order the elif chain tests them. */
  const Grupos: seq<(seq<string>, Analise)> := [
    (["tipo de dado", "tipos de dados"], PedeTipos),
    (["intervalo", "mínimo", "minimo", "min", "max", "maximo", "máximo"], PedeIntervalo),
    (["média", "mediana"], PedeTendencia),
    (["desvio padrão", "desvio padrao", "variancia", "variância"], PedeVariabilidade),
    (["frequente", "menos frequente"], PedeFrequencias),
    (["outlier", "atipico", "valor atípico"], PedeOutliers),
    (["correlação", "correlacao", "relacionadas"], PedeCorrelacoes),
    (["cluster", "agrupamento"], PedeAgrupamento)
  ]

  /** Some keyword of the group occurs in the text. */
  predicate Menciona(texto: string, palavras: seq<string>) {
    exists i | 0 <= i < |palavras| :: Contem(texto, palavras[i])
  }

  /** The index of the first group that the text mentions. */
  function PrimeiroGrupo(grupos: seq<(seq<string>, Analise)>, texto: string): (r: Option<nat>)
    ensures r.Some? ==>
      && r.value < |grupos| && Menciona(texto, grupos[r.value].0)
      && forall k :: 0 <= k < r.value ==> !Menciona(texto, grupos[k].0)
    ensures r.None? ==> forall k :: 0 <= k < |grupos| ==> !Menciona(texto, grupos[k].0)
  {
    if grupos == [] then None
    else if Menciona(texto, grupos[0].0) then Some(0)
    else
      match PrimeiroGrupo(grupos[1..], texto)
      case None => None
      case Some(i) => Some(i + 1)
  }

  /** The analysis the question selects, or None when it goes to the model. */
  function Classificar(pergunta: string): (r: Option<Analise>)
    ensures r.None? ==> forall k :: 0 <= k < |Grupos| ==> !Menciona(Minuscula(pergunta), Grupos[k].0)
    ensures r.Some? ==> exists k :: 0 <= k < |Grupos| && r.value == Grupos[k].1 && Menciona(Minuscula(pergunta), Grupos[k].0)
  {
    match PrimeiroGrupo(Grupos, Minuscula(pergunta))
    case None => None
    case Some(i) =>
      assert Menciona(Minuscula(pergunta), Grupos[i].0);
      Some(Grupos[i].1)
  }

  /** Each group selects a different analysis. */
  lemma AnalisesDistintas()
    ensures forall i, j :: 0 <= i < j < |Grupos| ==> Grupos[i].1 != Grupos[j].1
  {
  }

  /** First match wins: the question selects the analysis of group `k`
      exactly when the lower-cased question mentions group `k` and none
      of the groups before it. */
  lemma {:induction false} Prioridade(pergunta: string, k: nat)
    requires k < |Grupos|
    ensures Classificar(pergunta) == Some(Grupos[k].1) <==>
      && Menciona(Minuscula(pergunta), Grupos[k].0)
      && forall j :: 0 <= j < k ==> !Menciona(Minuscula(pergunta), Grupos[j].0)
  {
    AnalisesDistintas();
    var r := PrimeiroGrupo(Grupos, Minuscula(pergunta));
    if r.Some? && r.value != k {
      assert Grupos[r.value].1 != Grupos[k].1;
    }
  }

  /** A question that mentions no keyword of any group goes to the model,
      and one that mentions some keyword goes to an analysis. */
  lemma PadraoModelo(pergunta: string)
    ensures Classificar(pergunta).None? <==>
      forall k :: 0 <= k < |Grupos| ==> !Menciona(Minuscula(pergunta), Grupos[k].0)
  {
  }

  /** Only the lower-cased question is inspected, so a question and its
      lower-cased form select the same analysis. */
  lemma SemDiferencaDeCaixa(pergunta: string)
    ensures Classificar(pergunta) == Classificar(Minuscula(pergunta))
  {
    MinusculaIdempotente(pergunta);
  }

  /** "frequente" occurs in "menos frequente". */
  lemma FrequenteEmMenosFrequente()
    ensures Contem("menos frequente", "frequente")
  {
    assert OcorreEm("menos frequente", "frequente", 6);
  }

  /** The frequency group's condition is just "frequente" being a substring,
      because its other keyword contains it. */
  lemma GrupoDeFrequencia(texto: string)
    ensures Menciona(texto, Grupos[4].0) <==> Contem(texto, "frequente")
  {
    var palavras := Grupos[4].0;
    assert palavras == ["frequente", "menos frequente"];
    if Menciona(texto, palavras) {
      var i :| 0 <= i < |palavras| && Contem(texto, palavras[i]);
      if i == 1 {
        FrequenteEmMenosFrequente();
        ContemTransitivo(texto, "menos frequente", "frequente");
      }
    } else {
      assert !Contem(texto, palavras[0]);
    }
  }

  /** "min" occurs in "dominante". */
  lemma MinEmDominante()
    ensures Contem("dominante", "min")
  {
    assert OcorreEm("dominante", "min", 2);
  }

  /** Matching is by substring, not by word: a question containing
      "dominante" and no data-type keyword selects the min/max analysis,
      whatever else it mentions. */
  lemma DominanteVaiParaIntervalo(pergunta: string)
    requires Contem(Minuscula(pergunta), "dominante")
    requires !Menciona(Minuscula(pergunta), Grupos[0].0)
    ensures Classificar(pergunta) == Some(PedeIntervalo)
  {
    var texto := Minuscula(pergunta);
    MinEmDominante();
    ContemTransitivo(texto, "dominante", "min");
    var palavras := Grupos[1].0;
    assert palavras[3] == "min";
    assert Menciona(texto, palavras);
    Prioridade(pergunta, 1);
  }

  /** A question mentioning both "média" and "outlier", and neither a
      data-type nor a min/max keyword, selects the central tendency
      analysis: its group comes before the outliers group. */
  lemma MediaAntesDeOutlier(pergunta: string)
    requires Contem(Minuscula(pergunta), "média") && Contem(Minuscula(pergunta), "outlier")
    requires !Menciona(Minuscula(pergunta), Grupos[0].0)
    requires !Menciona(Minuscula(pergunta), Grupos[1].0)
    ensures Classificar(pergunta) == Some(PedeTendencia)
  {
    var texto := Minuscula(pergunta);
    assert Grupos[2].0[0] == "média";
    assert Menciona(texto, Grupos[2].0);
    Prioridade(pergunta, 2);
  }

  /** What the analyses outside this model return, as supplied by the
      caller: `medidas_tendencia`, `variabilidade` and `correlacoes` give a
      dict of dicts and `agrupamento_kmeans` a dict of counts by cluster
      label; each may raise instead. */
  datatype Externos = Externos(
    tendencia: Result<seq<(string, seq<(string, Celula)>)>>,
    variabilidade: Result<seq<(string, seq<(string, Celula)>)>>,
    correlacoes: Result<seq<(string, seq<(string, Celula)>)>>,
    agrupamento: Result<seq<(string, Celula)>>)

  /** The value counts of each text column, as cells. */
  function FrequenciasComoCelulas(f: seq<(string, seq<(string, nat)>)>): (r: seq<(string, seq<(string, Celula)>)>)
    ensures Chaves(r) == Chaves(f)
    ensures forall i :: 0 <= i < |r| ==> Chaves(r[i].1) == Chaves(f[i].1) && |r[i].1| == |f[i].1|
    ensures forall i, j :: 0 <= i < |r| && 0 <= j < |r[i].1| ==> r[i].1[j].1 == Num(f[i].1[j].1 as real)
  {
    seq(|f|, i requires 0 <= i < |f| =>
      (f[i].0, seq(|f[i].1|, j requires 0 <= j < |f[i].1| => (f[i].1[j].0, Num(f[i].1[j].1 as real)))))
  }

  /** The outliers of each numeric column, as cells. */
  function OutliersComoCelulas(o: seq<(string, seq<real>)>): (r: seq<(string, seq<Celula>)>)
    ensures Chaves(r) == Chaves(o)
    ensures forall i :: 0 <= i < |r| ==> |r[i].1| == |o[i].1|
    ensures forall i, j :: 0 <= i < |r| && 0 <= j < |r[i].1| ==> r[i].1[j] == Num(o[i].1[j])
  {
    seq(|o|, i requires 0 <= i < |o| =>
      (o[i].0, seq(|o[i].1|, j requires 0 <= j < |o[i].1| => Num(o[i].1[j]))))
  }

  /** Runs the selected analysis on the frame; an exception it raises
      propagates. */
  function Executar(a: Analise, df: DataFrame, ext: Externos): (r: Result<Resultado>)
    ensures a == PedeTipos ==> r == Ok(DictEscalar(Assistente.TiposDeDados(df)))
    ensures a == PedeTipos ==> r.Ok? && |r.value.escalares| == |df.colunas|
    ensures a == PedeIntervalo ==>
      && (r.Ok? <==> Assistente.IntervaloVariaveis(df).Ok?)
      && (r.Ok? ==> r.value == DictDict(Assistente.IntervaloVariaveis(df).value))
      && (r.Err? ==> r.erro == Assistente.IntervaloVariaveis(df).erro)
    ensures a == PedeTendencia ==>
      && (r.Ok? <==> ext.tendencia.Ok?)
      && (r.Ok? ==> r.value == DictDict(ext.tendencia.value))
      && (r.Err? ==> r.erro == ext.tendencia.erro)
    ensures a == PedeVariabilidade ==>
      && (r.Ok? <==> ext.variabilidade.Ok?)
      && (r.Ok? ==> r.value == DictDict(ext.variabilidade.value))
      && (r.Err? ==> r.erro == ext.variabilidade.erro)
    ensures a == PedeFrequencias ==> r == Ok(DictDict(FrequenciasComoCelulas(Assistente.Frequencias(df))))
    ensures a == PedeFrequencias ==>
      r.Ok? && Chaves(r.value.dicts) == Nomes(Assistente.Selecionar(df.colunas, Assistente.SoObjetos))
    ensures a == PedeOutliers ==> r == Ok(DictLista(OutliersComoCelulas(Assistente.OutliersPorColuna(df.colunas))))
    ensures a == PedeOutliers ==>
      r.Ok? && Chaves(r.value.listas) == Nomes(Assistente.Selecionar(df.colunas, Assistente.SoNumericas))
    ensures a == PedeCorrelacoes ==>
      && (r.Ok? <==> ext.correlacoes.Ok?)
      && (r.Ok? ==> r.value == DictDict(ext.correlacoes.value))
      && (r.Err? ==> r.erro == ext.correlacoes.erro)
    ensures a == PedeAgrupamento ==>
      && (r.Ok? <==> ext.agrupamento.Ok?)
      && (r.Ok? ==> r.value == DictEscalar(ext.agrupamento.value))
      && (r.Err? ==> r.erro == ext.agrupamento.erro)
  {
    match a
    case PedeTipos => Ok(DictEscalar(Assistente.TiposDeDados(df)))
    case PedeIntervalo =>
      (match Assistente.IntervaloVariaveis(df)
       case Ok(v) => Ok(DictDict(v))
       case Err(e) => Err(e))
    case PedeTendencia =>
      (match ext.tendencia
       case Ok(v) => Ok(DictDict(v))
       case Err(e) => Err(e))
    case PedeVariabilidade =>
      (match ext.variabilidade
       case Ok(v) => Ok(DictDict(v))
       case Err(e) => Err(e))
    case PedeFrequencias => Ok(DictDict(FrequenciasComoCelulas(Assistente.Frequencias(df))))
    case PedeOutliers => Ok(DictLista(OutliersComoCelulas(Assistente.OutliersPorColuna(df.colunas))))
    case PedeCorrelacoes =>
      (match ext.correlacoes
       case Ok(v) => Ok(DictDict(v))
       case Err(e) => Err(e))
    case PedeAgrupamento =>
      (match ext.agrupamento
       case Ok(v) => Ok(DictEscalar(v))
       case Err(e) => Err(e))
  }

  /** `roteador_de_pergunta(pergunta, df)`: the analysis' result and
      "assistente", or `(None, "modelo")`; an exception raised by the
      analysis propagates. */
  function RoteadorDePergunta(pergunta: string, df: DataFrame, ext: Externos): (r: Result<(Option<Resultado>, string)>)
    ensures Classificar(pergunta).None? ==> r == Ok((None, "modelo"))
    ensures r.Ok? ==> (r.value.1 == "assistente" || r.value.1 == "modelo")
    ensures r.Ok? ==> (r.value.0.Some? <==> r.value.1 == "assistente")
    ensures r.Ok? && r.value.1 == "assistente" <==>
      Classificar(pergunta).Some? && Executar(Classificar(pergunta).value, df, ext).Ok?
    ensures Classificar(pergunta).Some? && Executar(Classificar(pergunta).value, df, ext).Ok? ==>
      r == Ok((Some(Executar(Classificar(pergunta).value, df, ext).value), "assistente"))
    ensures Classificar(pergunta).Some? && Executar(Classificar(pergunta).value, df, ext).Err? ==>
      r == Err(Executar(Classificar(pergunta).value, df, ext).erro)
  {
    match Classificar(pergunta)
    case None => Ok((None, "modelo"))
    case Some(a) =>
      match Executar(a, df, ext)
      case Ok(resposta) => Ok((Some(resposta), "assistente"))
      case Err(e) => Err(e)
  }

  /** The tag is "assistente" exactly when some keyword group matches the
      lower-cased question (and the analysis did not raise); when none
      matches, the result is `(None, "modelo")`. */
  lemma TagAssistente(pergunta: string, df: DataFrame, ext: Externos)
    ensures RoteadorDePergunta(pergunta, df, ext).Ok? ==>
      (RoteadorDePergunta(pergunta, df, ext).value.1 == "assistente" <==>
        exists k :: 0 <= k < |Grupos| && Menciona(Minuscula(pergunta), Grupos[k].0))
    ensures (forall k :: 0 <= k < |Grupos| ==> !Menciona(Minuscula(pergunta), Grupos[k].0)) ==>
      RoteadorDePergunta(pergunta, df, ext) == Ok((None, "modelo"))
  {
    PadraoModelo(pergunta);
  }
}
