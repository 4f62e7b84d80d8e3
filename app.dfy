/** `App.responder_pergunta` and what it orchestrates: the answer history
    keyed by the lower-cased question, the router, the formatter, and the
    generative-model fallback (primary backend, then the secondary one
    once); plus the last-answer choice of the export and the history
    lookup of the PDF report. */
module Aplicativo {
  import opened Dados
  import opened Texto
  import Assistente
  import Roteador

  // ---------------------------------------------------------------------
  // Language, prompt and generative backends
  // ---------------------------------------------------------------------

  /** `detectar_idioma(texto)`, given what `langdetect.detect` does with
      the text: a language tag, or None where it raises. */
  function DetectarIdioma(deteccao: Option<string>): (idioma: string)
    ensures deteccao.None? ==> idioma == "pt"
    ensures deteccao.Some? ==> idioma == deteccao.value
  {
    match deteccao
    case None => "pt"
    case Some(tag) => tag
  }

  /** A prompt template: the text before the CSV data, between the data
      and the question, and after the question. */
  datatype Molde = Molde(abertura: string, meio: string, fecho: string)

  const MoldeIngles := Molde("You are a data analyst. Here's the CSV:\n\n", "\n\nQuestion: ", "\nRespond clearly in English.")
  const MoldeEspanhol := Molde("Eres un analista de datos. Aquí está el CSV:\n\n", "\n\nPregunta: ", "\nResponde claramente en español.")
  const MoldePortugues := Molde("Você é um analista de dados. Aqui está o CSV:\n\n", "\n\nPergunta: ", "\nResponda em português de forma clara.")

  /** The template for a language tag: English for "en", Spanish for "es",
      Portuguese for every other tag. */
  function MoldeDoIdioma(idioma: string): (m: Molde)
    ensures idioma == "en" ==> m == MoldeIngles
    ensures idioma == "es" ==> m == MoldeEspanhol
    ensures idioma != "en" && idioma != "es" ==> m == MoldePortugues
  {
    if idioma == "en" then MoldeIngles
    else if idioma == "es" then MoldeEspanhol
    else MoldePortugues
  }

  /** The template filled in: the CSV text and the question, verbatim, each
      at its place between the template's fixed parts. */
  function Preencher(m: Molde, csv: string, pergunta: string): (prompt: string)
    ensures |prompt| == |m.abertura| + |csv| + |m.meio| + |pergunta| + |m.fecho|
    ensures prompt[..|m.abertura|] == m.abertura
    ensures OcorreEm(prompt, csv, |m.abertura|)
    ensures prompt[|m.abertura| + |csv|..|m.abertura| + |csv| + |m.meio|] == m.meio
    ensures OcorreEm(prompt, pergunta, |m.abertura| + |csv| + |m.meio|)
    ensures prompt[|prompt| - |m.fecho|..] == m.fecho
  {
    var prompt := m.abertura + csv + m.meio + pergunta + m.fecho;
    var i := |m.abertura| + |csv|;
    assert prompt[|m.abertura|..i] == csv;
    assert prompt[i..i + |m.meio|] == m.meio;
    assert prompt[i + |m.meio|..i + |m.meio| + |pergunta|] == pergunta;
    prompt
  }

  /** `gerar_prompt(pergunta, csv_data, idioma)`. */
  function GerarPrompt(pergunta: string, csv: string, idioma: string): (prompt: string)
    ensures idioma == "en" ==> |prompt| >= |MoldeIngles.abertura| && prompt[..|MoldeIngles.abertura|] == MoldeIngles.abertura
    ensures idioma == "es" ==> |prompt| >= |MoldeEspanhol.abertura| && prompt[..|MoldeEspanhol.abertura|] == MoldeEspanhol.abertura
    ensures idioma != "en" && idioma != "es" ==> |prompt| >= |MoldePortugues.abertura| && prompt[..|MoldePortugues.abertura|] == MoldePortugues.abertura
  {
    Preencher(MoldeDoIdioma(idioma), csv, pergunta)
  }

  /** Every prompt contains the CSV text and the question. */
  lemma PromptContemDadosEPergunta(pergunta: string, csv: string, idioma: string)
    ensures Contem(GerarPrompt(pergunta, csv, idioma), csv)
    ensures Contem(GerarPrompt(pergunta, csv, idioma), pergunta)
  {
    var m := MoldeDoIdioma(idioma);
    var prompt := Preencher(m, csv, pergunta);
    assert OcorreEm(prompt, csv, |m.abertura|);
    assert OcorreEm(prompt, pergunta, |m.abertura| + |csv| + |m.meio|);
  }

  /** A tag other than "en" and "es" (including the "pt" of a failed
      detection) gives the Portuguese prompt. */
  lemma IdiomaPadrao(pergunta: string, csv: string, idioma: string)
    requires idioma != "en" && idioma != "es"
    ensures GerarPrompt(pergunta, csv, idioma) == GerarPrompt(pergunta, csv, DetectarIdioma(None))
  {
  }

  /** What a call to a generative backend gives: its text, or an exception. */
  datatype Saida = Gerado(texto: string) | Falha

  datatype Backend = Gemini | HuggingFace

  /** One call to a backend, with the prompt it was given. */
  datatype Chamada = Chamada(backend: Backend, prompt: string)

  /** How many of the calls went to backend `b`. */
  function Vezes(chamadas: seq<Chamada>, b: Backend): (n: nat)
    ensures n <= |chamadas|
  {
    if chamadas == [] then 0
    else Vezes(chamadas[..|chamadas| - 1], b) + (if chamadas[|chamadas| - 1].backend == b then 1 else 0)
  }

  /** Counting calls distributes over a sequence of calls made in turn. */
  lemma {:induction false} VezesConcatena(a: seq<Chamada>, c: seq<Chamada>, b: Backend)
    ensures Vezes(a + c, b) == Vezes(a, b) + Vezes(c, b)
  {
    if c != [] {
      var c' := c[..|c| - 1];
      assert (a + c)[..|a + c| - 1] == a + c';
      VezesConcatena(a, c', b);
    } else {
      assert a + c == a;
    }
  }

  /** Every call goes to one of the two backends. */
  lemma {:induction false} VezesSomam(chamadas: seq<Chamada>)
    ensures Vezes(chamadas, Gemini) + Vezes(chamadas, HuggingFace) == |chamadas|
  {
    if chamadas != [] {
      VezesSomam(chamadas[..|chamadas| - 1]);
    }
  }

  /** `responder_com_llm(prompt)`: the primary backend's text, stripped; if
      the primary raises, whatever the secondary gives for the same prompt
      (not stripped), and its exception propagates. Also returns the calls
      made, in order. */
  function ResponderComLlm(prompt: string, gemini: string -> Saida, huggingFace: string -> Saida): (r: (Result<string>, seq<Chamada>))
    ensures 1 <= |r.1| <= 2 && r.1[0] == Chamada(Gemini, prompt)
    ensures gemini(prompt).Gerado? ==> r == (Ok(Strip(gemini(prompt).texto)), [Chamada(Gemini, prompt)])
    ensures gemini(prompt).Falha? ==> r.1 == [Chamada(Gemini, prompt), Chamada(HuggingFace, prompt)]
    ensures gemini(prompt).Falha? ==>
      (r.0.Ok? <==> huggingFace(prompt).Gerado?) && (r.0.Ok? ==> r.0.value == huggingFace(prompt).texto)
    ensures r.0.Err? ==> r.0.erro == ErroDoModelo
  {
    match gemini(prompt)
    case Gerado(texto) => (Ok(Strip(texto)), [Chamada(Gemini, prompt)])
    case Falha =>
      var chamadas := [Chamada(Gemini, prompt), Chamada(HuggingFace, prompt)];
      match huggingFace(prompt)
      case Gerado(texto) => (Ok(texto), chamadas)
      case Falha => (Err(ErroDoModelo), chamadas)
  }

  /** The primary backend is called exactly once, the secondary exactly once
      when the primary raised and never otherwise, and both with the same
      prompt. */
  lemma ChamadasDoFallback(prompt: string, gemini: string -> Saida, huggingFace: string -> Saida)
    ensures var chamadas := ResponderComLlm(prompt, gemini, huggingFace).1;
      && Vezes(chamadas, Gemini) == 1
      && Vezes(chamadas, HuggingFace) == (if gemini(prompt).Falha? then 1 else 0)
      && forall i :: 0 <= i < |chamadas| ==> chamadas[i].prompt == prompt
  {
    var chamadas := ResponderComLlm(prompt, gemini, huggingFace).1;
    assert chamadas[..1][..0] == [];
    if |chamadas| == 2 {
      assert chamadas[..1] == [chamadas[0]];
    }
  }

  // ---------------------------------------------------------------------
  // responder_pergunta
  // ---------------------------------------------------------------------

  /** What the app works with besides its history: the loaded frame, its
      CSV text, the analyses outside this model, and the foreign calls
      (language detection, the two backends). */
  datatype Ambiente = Ambiente(
    df: DataFrame,
    csv: string,
    externos: Roteador.Externos,
    detectar: string -> Option<string>,
    gemini: string -> Saida,
    huggingFace: string -> Saida)

  /** How one question ends. */
  datatype Passo =
    | SemPergunta           // the input is empty: nothing happens
    | DoHistorico(t: Tabela) // the lower-cased question is in the history
    | Nova(t: Tabela)        // a new answer, stored under the lower-cased question
    | Falhou(erro: Erro)     // an exception; nothing is stored

  /** The one-cell table the model path stores: column "Resposta". */
  function TabelaResposta(texto: string): (t: Tabela)
    ensures t.Retangular() && |t.colunas| == 1 && |t.linhas| == 1
    ensures t.colunas[0] == Nome("Resposta") && t.linhas[0][0] == Str(texto)
  {
    Tabela([Nome("Resposta")], [[Str(texto)]])
  }

  /** The assistant path: format the analysis' result, passing on the
      formatting error; pandas raises IndexError when the formatted table has
      no second column, which the chart call asks for before the answer is
      stored. */
  function RespostaDoAssistente(resposta: Resultado): (r: Result<Tabela>)
    ensures r.Ok? <==> Assistente.FormatarResposta(resposta).Ok? && |Assistente.FormatarResposta(resposta).value.colunas| >= 2
    ensures r.Ok? ==> r.value == Assistente.FormatarResposta(resposta).value
    ensures r.Err? && Assistente.FormatarResposta(resposta).Ok? ==> r.erro == IndexError
    ensures Assistente.FormatarResposta(resposta).Err? ==> r == Err(Assistente.FormatarResposta(resposta).erro)
  {
    match Assistente.FormatarResposta(resposta)
    case Err(e) => Err(e)
    case Ok(t) => if |t.colunas| < 2 then Err(IndexError) else Ok(t)
  }

  /** The model path: detect the language, build the prompt, ask the backends. */
  function RespostaDoModelo(pergunta: string, amb: Ambiente): (r: (Result<Tabela>, seq<Chamada>))
    ensures r.1 == ResponderComLlm(GerarPrompt(pergunta, amb.csv, DetectarIdioma(amb.detectar(pergunta))), amb.gemini, amb.huggingFace).1
    ensures r.0.Ok? ==> r.0.value.colunas == [Nome("Resposta")]
    ensures r.0.Err? ==> r.0.erro == ErroDoModelo
  {
    var prompt := GerarPrompt(pergunta, amb.csv, DetectarIdioma(amb.detectar(pergunta)));
    var (texto, chamadas) := ResponderComLlm(prompt, amb.gemini, amb.huggingFace);
    match texto
    case Ok(t) => (Ok(TabelaResposta(t)), chamadas)
    case Err(e) => (Err(e), chamadas)
  }

  /** A question not yet in the history: routed, then answered by the
      analysis (formatted) or by the backends; an Err is the exception the
      question ends with. Also returns the backend calls made. */
  function Resolver(pergunta: string, amb: Ambiente): (r: (Result<Tabela>, seq<Chamada>))
    ensures r.1 != [] ==> Roteador.Classificar(pergunta).None?
  {
    match Roteador.RoteadorDePergunta(pergunta, amb.df, amb.externos)
    case Err(e) => (Err(e), [])
    case Ok((resposta, tipo)) =>
      if tipo == "assistente" then (RespostaDoAssistente(resposta.value), [])
      else RespostaDoModelo(pergunta, amb)
  }

  /** One question against the history `historico`: how it ends, and the
      backend calls it makes. */
  function Responder(historico: map<string, Tabela>, pergunta: string, amb: Ambiente): (r: (Passo, seq<Chamada>))
    ensures pergunta == [] ==> r == (SemPergunta, [])
    ensures pergunta != [] && Minuscula(pergunta) in historico ==> r == (DoHistorico(historico[Minuscula(pergunta)]), [])
    ensures r.0.SemPergunta? <==> pergunta == []
    ensures r.0.DoHistorico? <==> pergunta != [] && Minuscula(pergunta) in historico
    ensures r.0.Nova? || r.0.Falhou? ==> pergunta != [] && Minuscula(pergunta) !in historico
    ensures r.1 != [] ==> Roteador.Classificar(pergunta).None?
  {
    if pergunta == [] then (SemPergunta, [])
    else
      var chave := Minuscula(pergunta);
      if chave in historico then (DoHistorico(historico[chave]), [])
      else
        match Resolver(pergunta, amb)
        case (Ok(t), chamadas) => (Nova(t), chamadas)
        case (Err(e), chamadas) => (Falhou(e), chamadas)
  }

  /** A question already in the history (by its lower-cased form) is
      answered from it: no analysis, no backend call. */
  lemma AcertoNoHistorico(historico: map<string, Tabela>, pergunta: string, amb: Ambiente)
    requires pergunta != [] && Minuscula(pergunta) in historico
    ensures Responder(historico, pergunta, amb) == (DoHistorico(historico[Minuscula(pergunta)]), [])
  {
  }

  /** A question the router sends to an analysis makes no backend call, and
      a new answer is the formatted result, with at least two columns. */
  lemma CaminhoDoAssistente(historico: map<string, Tabela>, pergunta: string, amb: Ambiente)
    requires pergunta != [] && Minuscula(pergunta) !in historico
    requires Roteador.Classificar(pergunta).Some?
    ensures var r := Responder(historico, pergunta, amb);
      var e := Roteador.Executar(Roteador.Classificar(pergunta).value, amb.df, amb.externos);
      && r.1 == []
      && (r.0.Nova? <==> e.Ok? && RespostaDoAssistente(e.value).Ok?)
      && (r.0.Nova? ==> r.0.t == Assistente.FormatarResposta(e.value).value && |r.0.t.colunas| >= 2)
  {
  }

  /** A question no keyword group matches goes to the backends; a new
      answer is the one-cell "Resposta" table, and a failure of both
      backends is ErroDoModelo. */
  lemma CaminhoDoModelo(historico: map<string, Tabela>, pergunta: string, amb: Ambiente)
    requires pergunta != [] && Minuscula(pergunta) !in historico
    requires Roteador.Classificar(pergunta).None?
    ensures var r := Responder(historico, pergunta, amb);
      var prompt := GerarPrompt(pergunta, amb.csv, DetectarIdioma(amb.detectar(pergunta)));
      var llm := ResponderComLlm(prompt, amb.gemini, amb.huggingFace);
      && r.1 == llm.1
      && (r.0.Nova? <==> llm.0.Ok?)
      && (r.0.Nova? ==> r.0.t == TabelaResposta(llm.0.value))
      && (r.0.Falhou? ==> r.0.erro == ErroDoModelo)
  {
  }

  /** A data-type question that reaches the analysis never gets an answer:
      pandas refuses the dict of dtypes (ValueError), and for a frame
      without columns the formatted table has one column (IndexError). */
  lemma TiposDeDadosSempreFalha(historico: map<string, Tabela>, pergunta: string, amb: Ambiente)
    requires pergunta != [] && Minuscula(pergunta) !in historico
    requires Roteador.Classificar(pergunta) == Some(Roteador.PedeTipos)
    ensures Responder(historico, pergunta, amb).0.Falhou?
  {
    var tipos := Assistente.TiposDeDados(amb.df);
    assert Roteador.Executar(Roteador.PedeTipos, amb.df, amb.externos) == Ok(DictEscalar(tipos));
  }

  /** A clustering question never gets an answer either: its result is a
      dict of counts, which pandas refuses, or an exception. */
  lemma AgrupamentoSempreFalha(historico: map<string, Tabela>, pergunta: string, amb: Ambiente)
    requires pergunta != [] && Minuscula(pergunta) !in historico
    requires Roteador.Classificar(pergunta) == Some(Roteador.PedeAgrupamento)
    ensures Responder(historico, pergunta, amb).0.Falhou?
  {
  }

  /** The history key is the lower-cased question and nothing else: once an
      answer is stored under a question's key, any question with the same
      lower-cased form is answered from the history. */
  lemma MesmaChaveMesmaResposta(historico: map<string, Tabela>, p1: string, p2: string, t: Tabela, amb: Ambiente)
    requires p1 != [] && Minuscula(p1) == Minuscula(p2)
    ensures Responder(historico[Minuscula(p1) := t], p2, amb) == (DoHistorico(t), [])
  {
    MinusculaIdempotente(p2);
  }

  /** No trimming: the key has the question's length, so questions of
      different lengths (say, one with a trailing space) never share a key. */
  lemma ChaveSemAparar(p1: string, p2: string)
    requires |p1| != |p2|
    ensures Minuscula(p1) != Minuscula(p2)
  {
    MinusculaIdempotente(p1);
    MinusculaIdempotente(p2);
  }

  // ---------------------------------------------------------------------
  // The App and its history
  // ---------------------------------------------------------------------

  /** A history and the order of its keys: the keys are the distinct
      entries of `ordem`, and every key is a non-empty lower-cased question. */
  ghost predicate HistoricoValido(historico: map<string, Tabela>, ordem: seq<string>) {
    && Distintas(ordem)
    && (forall k :: k in historico <==> k in ordem)
    && (forall k :: k in historico ==> k != [] && Minuscula(k) == k)
  }

  /** Storing an answer under the lower-cased form of a question that is
      not yet in the history keeps the history valid and makes it the last
      key. */
  lemma GuardarResposta(historico: map<string, Tabela>, ordem: seq<string>, pergunta: string, t: Tabela)
    requires HistoricoValido(historico, ordem)
    requires pergunta != [] && Minuscula(pergunta) !in historico
    ensures HistoricoValido(historico[Minuscula(pergunta) := t], ordem + [Minuscula(pergunta)])
  {
    MinusculaIdempotente(pergunta);
    var chave := Minuscula(pergunta);
    var o := ordem + [chave];
    forall i, j | 0 <= i < j < |o| ensures o[i] != o[j] {
      if j == |ordem| { assert o[i] in ordem; }
    }
  }

  class App {
    const amb: Ambiente
    /** `self.historico`: answers by lower-cased question. */
    var historico: map<string, Tabela>
    /** The keys of `historico` in insertion order (a Python dict's order). */
    var ordem: seq<string>

    ghost predicate Valid()
      reads this
    {
      HistoricoValido(historico, ordem)
    }

    constructor(amb: Ambiente)
      ensures Valid()
      ensures this.amb == amb && historico == map[] && ordem == []
    {
      this.amb := amb;
      historico := map[];
      ordem := [];
    }

    /** `list(self.historico.values())[-1] if self.historico else None`:
        the most recently inserted answer. */
    function UltimaResposta(): (r: Option<Tabela>)
      reads this
      requires Valid()
      ensures r.None? <==> historico == map[]
      ensures r.Some? ==> ordem != [] && r.value == historico[ordem[|ordem| - 1]]
    {
      if ordem == [] then
        None
      else
        assert ordem[|ordem| - 1] in historico;
        Some(historico[ordem[|ordem| - 1]])
    }

    /** `self.historico.get(pergunta.lower())`, the answer the PDF report
        shows; an empty question never has one. */
    function RespostaParaRelatorio(pergunta: string): (r: Option<Tabela>)
      reads this
      requires Valid()
      ensures r.Some? <==> Minuscula(pergunta) in historico
      ensures r.Some? ==> r.value == historico[Minuscula(pergunta)]
      ensures pergunta == [] ==> r.None?
    {
      if Minuscula(pergunta) in historico then Some(historico[Minuscula(pergunta)]) else None
    }

    /** `responder_pergunta()` for the question typed in: an empty one does
        nothing; one whose lower-cased form is in the history is answered
        from it; otherwise it is routed, and a new answer is stored under
        the lower-cased question. An exception stores nothing. */
    method ResponderPergunta(pergunta: string) returns (passo: Passo, chamadas: seq<Chamada>)
      requires Valid()
      modifies this
      ensures Valid()
      ensures (passo, chamadas) == Responder(old(historico), pergunta, amb)
      ensures passo.Nova? ==>
        && historico == old(historico)[Minuscula(pergunta) := passo.t]
        && ordem == old(ordem) + [Minuscula(pergunta)]
        && UltimaResposta() == Some(passo.t)
      ensures !passo.Nova? ==> historico == old(historico) && ordem == old(ordem)
    {
      if pergunta == [] {
        return SemPergunta, [];
      }
      var chave := Minuscula(pergunta);
      if chave in historico {
        return DoHistorico(historico[chave]), [];
      }
      var resposta;
      resposta, chamadas := Resolver(pergunta, amb).0, Resolver(pergunta, amb).1;
      if resposta.Err? {
        return Falhou(resposta.erro), chamadas;
      }
      passo := Nova(resposta.value);
      GuardarResposta(historico, ordem, pergunta, passo.t);
      historico := historico[chave := passo.t];
      ordem := ordem + [chave];
    }
  }

  /** Asking twice, in any letter case: after a new answer the second ask
      is served from the history with no analysis or backend call; after a
      failure nothing was stored, so the second ask is attempted afresh. */
  method PerguntarDuasVezes(app: App, p1: string, p2: string)
    returns (primeiro: Passo, segundo: Passo, chamadas2: seq<Chamada>)
    requires app.Valid()
    requires Minuscula(p1) == Minuscula(p2)
    modifies app
    ensures app.Valid()
    ensures primeiro.Nova? ==> segundo == DoHistorico(primeiro.t) && chamadas2 == []
    ensures primeiro.DoHistorico? ==> segundo == primeiro && chamadas2 == []
    ensures primeiro.Falhou? ==> !segundo.DoHistorico? && !segundo.SemPergunta?
    ensures primeiro.SemPergunta? ==> segundo == SemPergunta && chamadas2 == []
  {
    var chamadas1;
    primeiro, chamadas1 := app.ResponderPergunta(p1);
    MinusculaIdempotente(p1);
    MinusculaIdempotente(p2);
    segundo, chamadas2 := app.ResponderPergunta(p2);
  }
}
