# csv-playground: a Dafny model of the decision logic

csv-playground is a Streamlit dashboard. It loads a CSV file into a pandas
DataFrame and answers questions about it, in Portuguese, English or
Spanish. Under the UI it holds a small amount of deterministic logic, and
this project models that logic and proves properties of it.

- **The question router** (`roteador_de_pergunta`). The question is
  lower-cased and tested, by plain substring search, against eight ordered
  groups of keywords. The first group that matches picks one analysis and
  the tag `"assistente"`. A question that matches none is tagged
  `"modelo"` and goes to a generative model.
- **The discrete analyses of `Assistente`**:
  - `tipos_de_dados`;
  - `intervalo_variaveis`, the `min`/`max` rows of `describe()`;
  - `frequencias`, the value counts of the text columns;
  - `detectar_outliers`, the 1.5 × IQR rule with quartiles by linear
    interpolation;
  - `sugestoes_perguntas`;
  - `formatar_resposta`, which turns a result into a table.
- **`App.responder_pergunta`** and what it orchestrates:
  - the answer history, keyed by the lower-cased question;
  - the formatter;
  - the prompt template chosen by language;
  - the generative fallback: the primary backend first, and the
    secondary one exactly once if the primary raises;
  - the "last answer" of the export;
  - the history lookup of the PDF report.
- **`detectar_separador`**: a choice between `,` and `;` made by counting
  both in the first line of a 2048-byte sample.

Modules, one per source file plus shared ones:

| file | module | models |
|---|---|---|
| `dados.dfy` | `Dados` | Cells, columns, the DataFrame (distinct names, equal lengths, cells fitting the dtype), errors, analysis results, formatted tables |
| `texto.dfy` | `Texto` | `str.lower`, substring search, `str.count`, `str.strip` |
| `quartis.dfy` | `Quartis` | Sorting and `Series.quantile` with linear interpolation, over exact reals |
| `assistente.dfy` | `Assistente` | `assistente.py` |
| `roteador.dfy` | `Roteador` | `roteador.py`, plus running the selected analysis |
| `utils.dfy` | `Utils` | `detectar_separador` in `utils.py` |
| `app.dfy` | `Aplicativo` | The core of `app.py`: the class `App` with its history (a `map` plus the insertion order of its keys), and the pure function `Responder` that specifies one question |

Exceptions are modelled as `Result.Err` with the exception's class: `KeyError`, `ValueError`, `IndexError`, a model-call error, and an external one.

Calls into code outside the model are parameters. They are:
- the two generative backends, each a function from prompt to text or failure;
- `langdetect.detect`;
- the bytes decoder;
- the results of the floating-point analyses.

## Model

| member | source | states |
|---|---|---|
| Texto.MinusculaChar | roteador.py:5 | Lower-casing a character leaves no capital letter. A capital becomes the letter 32 code points above it. Every other character is unchanged |
| Texto.MinusculaIdempotente | app.py:101 | `lower()` keeps the length and lower-casing twice equals lower-casing once |
| Texto.Minuscula | roteador.py:5 | `str.lower()` keeps the length; each capital becomes the letter 32 code points above it, so no capital remains, and every other character is unchanged |
| Texto.ContemTransitivo | roteador.py:21 | A substring of a substring is a substring |
| Texto.Conta | utils.py:28-29 | `count(c)` is the multiplicity of `c` in the string |
| Texto.Strip | app.py:156 | `strip()` gives the text between leading and trailing white space: what it removes is all white space, and the result neither starts nor ends with white space |
| Dados.Valores | assistente.py:38-42 | The non-missing numbers of a column are its numeric cells, each number as often as the column holds it |
| Dados.ValoresConcatena | assistente.py:42 | Dropping missing values works row by row: the values of two stacked column parts are the values of the first followed by those of the second, so row order is kept |
| Dados.ValoresSemFaltas | assistente.py:38-42 | A column with no missing cell keeps every row, at the same position |
| Dados.Textos | assistente.py:32 | The non-missing strings of a column are its string cells, each string as often as the column holds it |
| Dados.TextosConcatena | assistente.py:32 | The strings of two stacked column parts are those of the first followed by those of the second |
| Quartis.Inserir | assistente.py:38-39 | Insertion adds exactly one copy of the value to the multiset |
| Quartis.InserirOrdena | assistente.py:38-39 | Inserting into a sorted sequence keeps it sorted |
| Quartis.Ordenar | assistente.py:38-39 | The sorted copy is sorted and a permutation of the values |
| Quartis.OrdenarOrdenada | assistente.py:38-39 | Sorting a sorted sequence changes nothing |
| Quartis.OrdenadasIguais | assistente.py:38-39 | Two sorted permutations of the same values are equal, so the sorted copy is unique |
| Quartis.Interpolar | assistente.py:38-39 | Linear interpolation stays between its two end points |
| Quartis.Posicao | assistente.py:38-39 | The position `p * (n - 1)` lies in `[0, n - 1]`, and so does its floor |
| Quartis.PosicaoMonotona | assistente.py:38-39 | A larger `p` never gives a smaller position or floor |
| Quartis.Quantil | assistente.py:38-39 | A quantile lies between the smallest and the largest value |
| Quartis.Q1 | assistente.py:38 | `quantile(0.25)` of the values lies between the smallest and the largest of them |
| Quartis.Q3 | assistente.py:39 | `quantile(0.75)` of the values lies between the smallest and the largest of them |
| Quartis.InterpolarMonotono | assistente.py:38-39 | Interpolation is monotone in the fraction |
| Quartis.QuantilMonotono | assistente.py:38-39 | A larger `p` never gives a smaller quantile |
| Quartis.QuartisDeQuatro | assistente.py:38-39 | For four sorted values, Q1 = v0 + 0.75 (v1 - v0) and Q3 = v2 + 0.25 (v3 - v2) |
| Quartis.QuartisOrdenados | assistente.py:38-40 | Q1 <= Q3, so the IQR is never negative; some value lies at or below Q1 and some at or above Q3 |
| Assistente.Selecionar | assistente.py:37 | `select_dtypes` never adds columns |
| Assistente.SelecionarFiltra | assistente.py:37 | The selection holds exactly the columns whose dtype the filter accepts |
| Assistente.SelecionarConcatena | assistente.py:37 | `select_dtypes` keeps the frame's column order: selecting from two column runs gives the selection from the first followed by the selection from the second |
| Assistente.ObjetosMaisNaoObjetos | assistente.py:90-92 | The object and the non-object columns together are all the columns |
| Assistente.TiposDeDados | assistente.py:9-10 | Exactly one entry per column, keyed by its name in frame order, holding the dtype's name |
| Assistente.Minimo | assistente.py:14 | The minimum is one of the values and no larger than any |
| Assistente.Maximo | assistente.py:14 | The maximum is one of the values and no smaller than any |
| Assistente.Faixa | assistente.py:14 | Rows "min" and "max": NaN for a column without values; otherwise min <= max, both values of the column, the least and the greatest |
| Assistente.IntervaloVariaveis | assistente.py:13-14 | A frame without columns raises ValueError and one without numeric columns KeyError; otherwise there is one entry per numeric column, in order, each its `Faixa` |
| Assistente.Distintos | assistente.py:32 | The distinct values are each listed once and are exactly the values occurring |
| Assistente.Contagens | assistente.py:32 | Each listed value is paired with its multiplicity |
| Assistente.SomaAcrescenta | assistente.py:32 | One more occurrence of a listed value adds one to the total count |
| Assistente.SomaDasContagens | assistente.py:32 | The counts over the distinct values add up to the number of non-missing values |
| Assistente.ContagemDeValores | assistente.py:32 | `value_counts()`: distinct keys, exactly the values occurring, each count >= 1 and equal to the value's number of rows, counts summing to the number of non-missing rows |
| Assistente.Frequencias | assistente.py:30-32 | One entry per object column, in frame order, and no other; each holds that column's value counts |
| Assistente.FrequenciasContamLinhas | assistente.py:32 | Each count of an object column's entry is at least 1 and equals the number of that column's rows holding the value |
| Assistente.Atipicos | assistente.py:41-42 | The kept values are exactly those strictly below the low fence or strictly above the high fence |
| Assistente.PosicoesCrescentes | assistente.py:41-42 | The positions of the kept values are strictly increasing and within the column |
| Assistente.PosicoesExatas | assistente.py:41-42 | A position is kept exactly when its value is strictly outside the fences |
| Assistente.AtipicosRepeticoes | assistente.py:41-42 | A value outside the fences is kept as many times as the column holds it; a value inside is dropped |
| Assistente.AtipicosNasPosicoes | assistente.py:41-42 | The kept values are the column's values at the kept positions |
| Assistente.AtipicosSaoFiltro | assistente.py:41-42 | Boolean-mask filtering: the result is the subsequence of the column at the increasing positions where the value is strictly outside the fences, so row order and duplicates are kept and fence values excluded |
| Assistente.OutliersDaColuna | assistente.py:38-42 | A column with no numbers has no outliers; every outlier is a numeric cell of the column |
| Assistente.CercaBaixa | assistente.py:40-41 | The lower fence `Q1 - 1.5 * IQR` is at most Q1 |
| Assistente.CercaAlta | assistente.py:40-41 | The upper fence `Q3 + 1.5 * IQR` is at least Q3 |
| Assistente.OutliersExatos | assistente.py:38-42 | For a column with no numbers the result is empty. Otherwise the fences enclose the quartiles (`Q1 - 1.5 IQR <= Q1 <= Q3 <= Q3 + 1.5 IQR`), `x` is an outlier exactly when `x` is a value of the column strictly outside them, and it is listed as many times as it occurs |
| Assistente.OutliersDeIdades | assistente.py:38-42 | For the ages 20, 30, 40 and 1000 the only outlier is 1000 |
| Assistente.SoOUltimoAtipico | assistente.py:41-42 | Of four values, if only the last is outside the fences, it is the whole result |
| Assistente.OutliersPorColuna | assistente.py:36-43 | One entry per int64/float64 column, in frame order, and no other; each holds that column's outliers (possibly none) |
| Assistente.DetectarOutliers | assistente.py:34-43 | The loop over the numeric columns builds exactly `OutliersPorColuna` |
| Assistente.Sugerir | assistente.py:89-94 | The list of mean questions followed by frequency questions, cut to the first 6 |
| Assistente.SugestoesPerguntas | assistente.py:86-94 | At most 6 questions, min(6, number of columns); first the mean questions of the non-object columns in column order, then the frequency questions of the object columns |
| Assistente.AcrescentarNovas | assistente.py:80 | Appending new keys keeps them distinct and gives exactly the union |
| Assistente.UniaoDasChaves | assistente.py:80 | The columns of a dict of dicts: distinct, and exactly the keys of some inner dict |
| Assistente.Consultar | assistente.py:80 | A missing inner key gives NaN; a present one gives its value |
| Assistente.FormatarResposta | assistente.py:77-84 | A non-dict gives one cell `str(x)` under `titulo`. A dict gives a rectangular table: first column "Variável" holding the outer keys, one row per key, in order. A non-empty dict of scalars raises ValueError, and so does a dict of lists of unequal lengths. A dict of dicts succeeds exactly when its inner keys do not include both "index" and "level_0"; every failure is ValueError |
| Assistente.TabelaDeListas | assistente.py:80-81 | A dict of lists of length n becomes the columns "Variável", 0 .. n-1, with one row per key: the key, then its list |
| Assistente.TabelaDeDicts | assistente.py:80-81 | A dict of dicts becomes "Variável" plus one column per inner key; each row holds its outer key, then its inner dict's value under each column, or NaN |
| Assistente.LinhaDeDict | assistente.py:80 | A row: the outer key, then the inner dict looked up under each column |
| Assistente.FormatoDictDict | assistente.py:80-82 | Each cell of a formatted dict of dicts is the inner dict's value for that column's key, or NaN; the column labels are distinct |
| Assistente.FormatoDictDictCobre | assistente.py:80-82 | When formatting succeeds, every inner key names a column of the formatted table |
| Assistente.ConflitoDeRotulos | assistente.py:80 | A dict of dicts whose inner keys include "index" and "level_0" is refused with ValueError, because `reset_index` finds no free name for the recovered column |
| Assistente.FormatoDictLista | assistente.py:80-82 | A formatted dict of lists has row i equal to the key followed by its list |
| Utils.PrimeiraLinha | utils.py:24 | The first line of `splitlines()`: a prefix without a line break, followed by a break unless it is the whole text |
| Utils.DetectarSeparador | utils.py:24-31 | The result is "," or ";". It is ";" exactly when the first line has strictly more ';' than ','. A tie and an empty sample give "," |
| Utils.PrimeiraLinhaAteAQuebra | utils.py:24 | A break-free line followed by a line break is the first line, whatever follows |
| Utils.SoAPrimeiraLinhaConta | utils.py:24-31 | What follows the first line break never changes the separator |
| Utils.Amostra | utils.py:20 | The sample is the first min(2048, size) bytes |
| Utils.DetectarSeparadorArquivo | utils.py:15-31 | A sample that fails to decode raises an error (ValueError); otherwise the decoded sample decides |
| Utils.SoOPrefixoConta | utils.py:20 | Bytes after the first 2048 never change the result |
| Roteador.PrimeiroGrupo | roteador.py:9-32 | The first group mentioned in the text: every earlier group is not mentioned, and None when no group is |
| Roteador.Classificar | roteador.py:4-32 | The lower-cased question selects no analysis only when it mentions no keyword of any group; a selected analysis belongs to a group whose keyword occurs in the question |
| Roteador.AnalisesDistintas | roteador.py:9-32 | The eight branches select eight different analyses |
| Roteador.Prioridade | roteador.py:9-32 | A question selects group k's analysis exactly when its lower-cased form mentions group k and none of the groups before it |
| Roteador.PadraoModelo | roteador.py:4-33 | A question goes to the model exactly when no keyword of any group occurs in the lower-cased question |
| Roteador.SemDiferencaDeCaixa | roteador.py:5 | A question and its lower-cased form are routed alike |
| Roteador.FrequenteEmMenosFrequente | roteador.py:21 | "frequente" occurs in "menos frequente" |
| Roteador.GrupoDeFrequencia | roteador.py:21 | The frequency condition is equivalent to "frequente" occurring |
| Roteador.MinEmDominante | roteador.py:12 | "min" occurs in "dominante" |
| Roteador.DominanteVaiParaIntervalo | roteador.py:12-15 | A question containing "dominante" and no data-type keyword selects `intervalo_variaveis`, even with "média" in it |
| Roteador.MediaAntesDeOutlier | roteador.py:15-24 | With "média" and "outlier" and no earlier keyword, the central tendency analysis wins |
| Roteador.FrequenciasComoCelulas | roteador.py:22 | The counts as numeric cells, same keys and lengths |
| Roteador.OutliersComoCelulas | roteador.py:25 | The outliers as numeric cells, same keys and lengths |
| Roteador.Executar | roteador.py:9-32 | Each selected analysis returns exactly the value of the corresponding assistant function, or its exception. `tipos_de_dados` gives the dtypes as a dict of scalars, one entry per column. `intervalo_variaveis` gives the ranges, or its error. The externally computed analyses (central tendency, variability, correlations, clustering) give their value, or their error. `frequencias` gives the value counts of each object column. `detectar_outliers` gives the outlier list of each numeric column |
| Roteador.RoteadorDePergunta | roteador.py:4-33 | `(None, "modelo")` when no group matches. When a group matches, the result is `(value, "assistente")` with the value of that group's analysis, or the analysis's own exception. The tag is always "assistente" or "modelo" |
| Roteador.TagAssistente | roteador.py:9-33 | The tag is "assistente" exactly when some keyword group matches the lower-cased question; with no match the result is `(None, "modelo")` |
| Aplicativo.DetectarIdioma | app.py:80-84 | "pt" when detection raises, otherwise the detected tag |
| Aplicativo.Preencher | app.py:86-92 | A filled template holds the CSV text and the question verbatim, each at its place between the template's fixed parts |
| Aplicativo.MoldeDoIdioma | app.py:86-92 | "en" selects the English template, "es" the Spanish one, any other tag the Portuguese one |
| Aplicativo.GerarPrompt | app.py:86-92 | The prompt opens with the English text for "en", the Spanish text for "es" and the Portuguese text otherwise |
| Aplicativo.PromptContemDadosEPergunta | app.py:86-92 | Every prompt contains the CSV text and the question |
| Aplicativo.IdiomaPadrao | app.py:91-92 | Any tag other than "en" and "es" gives the Portuguese prompt |
| Aplicativo.ResponderComLlm | app.py:153-158 | On primary success: the primary's stripped text, one call. On primary failure: the secondary is called with the same prompt; its unstripped text, or ErroDoModelo |
| Aplicativo.VezesConcatena | app.py:153-158 | Calls made in turn add up: the calls to a backend in two runs are the sum of each run's calls |
| Aplicativo.VezesSomam | app.py:153-158 | Every call goes to the primary or to the secondary backend |
| Aplicativo.ChamadasDoFallback | app.py:153-158 | The primary is called once, and the secondary exactly once when the primary raised and never otherwise, both with the same prompt |
| Aplicativo.TabelaResposta | app.py:123 | The model's answer is stored as a one-row table with the single column "Resposta" |
| Aplicativo.RespostaDoAssistente | app.py:108-111 | The formatted result is kept only when formatting succeeds and it has a second column; a formatting error is passed on unchanged, and a one-column table raises IndexError at `columns[1]` |
| Aplicativo.RespostaDoModelo | app.py:116-125 | The prompt is built from the CSV and the detected language, and the calls are those of the fallback. A new answer is a "Resposta" table, and a failure is ErroDoModelo |
| Aplicativo.Resolver | app.py:105-125 | Backend calls happen only for questions the router sends to the model |
| Aplicativo.Responder | app.py:99-125 | An empty question does nothing and calls no backend. A question whose lower-cased form is in the history is answered with the stored table and calls no backend. Otherwise it is a new answer or a failure, and backend calls happen only on the model path |
| Aplicativo.AcertoNoHistorico | app.py:101-104 | A history hit returns the stored answer with no routing and no backend call |
| Aplicativo.CaminhoDoAssistente | app.py:107-114 | On the analysis path there is no backend call, and a new answer is the formatted analysis result with at least two columns |
| Aplicativo.CaminhoDoModelo | app.py:115-125 | On the model path the calls are those of the fallback. A new answer exists exactly when the fallback produced text, and it is that text's "Resposta" table. A failure is ErroDoModelo |
| Aplicativo.TiposDeDadosSempreFalha | app.py:107-111 | A data-type question never produces an answer |
| Aplicativo.AgrupamentoSempreFalha | app.py:107-111 | A clustering question never produces an answer |
| Aplicativo.MesmaChaveMesmaResposta | app.py:101-114 | Once an answer is stored, a question with the same lower-cased form gets it from the history, with no calls |
| Aplicativo.ChaveSemAparar | app.py:101 | In the model, lower-casing keeps the length and the key is not trimmed, so surrounding whitespace stays in the key and questions of different lengths get different keys |
| Aplicativo.GuardarResposta | app.py:114 | Storing under a new key keeps the keys distinct, non-empty and lower-cased, and appends the key to the insertion order |
| Aplicativo.App.constructor | app.py:40 | A new app starts with an empty history |
| Aplicativo.App.UltimaResposta | app.py:145-146 | The last answer is the value of the most recently inserted key, and None exactly when the history is empty |
| Aplicativo.App.RespostaParaRelatorio | app.py:166 | The report's answer is the history entry under the lower-cased question; an empty question has none |
| Aplicativo.App.ResponderPergunta | app.py:94-125 | The outcome is `Responder` on the old history. Only a new answer changes the state: it is stored under the lower-cased question, appended to the order, and becomes the last answer. Nothing else changes, and the history invariant is kept |
| Aplicativo.PerguntarDuasVezes | app.py:99-125 | Asking twice, in any letter case: after a new answer the second ask comes from the history with no call; after a failure it is tried afresh |

## Left out

- The Streamlit UI is not modelled: page set-up, widgets, spinners, messages, `exibir_mensagem`'s sleep, and the CSV upload and file-existence check.
- `executar`'s round-trip through `st.session_state` is not modelled: the history is the `App` field and survives between calls.
- Plotly charts are not modelled (`gerar_grafico`, `gerar_grafico_manual`). The chart call in `responder_pergunta` counts only through the `IndexError` its `columns[1]` raises when a table has one column.
- The PDF layout of `gerar_pdf` is not modelled; only its history lookup is.
- JSON and CSV serialisation are not modelled. The dataset's CSV text is an opaque string.
- The network calls are parameters: `generate_content`, and `requests.post` plus JSON indexing in `hf_infer`. Each is a function from prompt to text or failure, and it is assumed to give the same result for the same prompt.
- `langdetect.detect` is a parameter.
- `detectar_encoding` (chardet) is not modelled, nor is the `seek` I/O. The bytes decoder is a parameter.
- `medidas_tendencia`, `variabilidade` and `correlacoes` are floating-point statistics. Their results (or exceptions) are inputs, the `Externos` of `Roteador`.
- `agrupamento_kmeans` depends on a randomised foreign call. Its result is an input, and the `"cluster"` column it adds to the frame is not modelled.
- app_genai.py and constantes.py are not part of this model.
- Texto.MinusculaChar: lower-cases only A-Z and the Latin-1 capitals À-Þ (except ×). Python's `str.lower` covers all of Unicode, including characters whose lower-case form has another length.
- Quartis.Quantil: computes over exact reals, not IEEE doubles. Rounding is not modelled.
- Assistente.ContagemDeValores: lists values in order of first occurrence, while pandas sorts by descending count. The contract is about keys and counts, not their order.
- Assistente.UniaoDasChaves: orders the inner keys by first occurrence. pandas may order the union of row labels differently, so the column order of a formatted dict of dicts is not claimed.
- Column dtypes are object, int64, float64 and bool. Datetime and categorical columns are not modelled, and duplicate column names are excluded by the frame invariant.
- Aplicativo.ResponderComLlm: the primary's failures (network error, blocked response with no text) are one `Falha`. So are the secondary's (network error, non-list JSON, missing key).
- Utils.DetectarSeparadorArquivo: every decoding failure is reported as ValueError. That is right for UnicodeDecodeError, but the LookupError of an unknown encoding name and the TypeError of a missing one are not told apart.
- Texto.Minuscula: inherits the limits of Texto.MinusculaChar; in Python, `str.lower` can change a string's length (for example 'İ'), which the model's length-preserving lower-casing does not capture.
- Aplicativo.App: its `amb` (the dataset, CSV text and backends) is fixed for the whole life of the history. In the app, a rerun after a new upload builds the `App` from the new file but keeps the session's history, so a cached question answers about the previous file; that is not modelled.
- Aplicativo.Responder: `Falhou` stands for two behaviours of `responder_pergunta`. Exceptions from the analysis, from formatting and from `columns[1]` escape uncaught, while backend failures are caught and shown with `st.error`. The stored state is the same in both cases, so one outcome models both. The error of an externally computed analysis is an unconstrained input and may even be `ErroDoModelo`, so the error value alone does not tell the two paths apart; `Responder`'s call sequence does, since calls are made only on the model path.
