/** `detectar_separador`: decides between "," and ";" as the field
    separator of a CSV file by counting both characters in the first line
    of a sample of the file's first 2048 bytes. */
module Utils {
  import opened Dados
  import opened Texto

  /** The characters at which Python's `str.splitlines()` ends a line:
      LF, VT, FF, CR, the separators 0x1C-0x1E, NEL, LINE SEPARATOR and
      PARAGRAPH SEPARATOR. */
  predicate QuebraDeLinha(c: char) {
    || ('\U{0A}' <= c <= '\U{0D}')
    || ('\U{1C}' <= c <= '\U{1E}')
    || c == '\U{85}' || c == '\U{2028}' || c == '\U{2029}'
  }

  /** The first element of `s.splitlines()` for a non-empty `s`: the longest
      prefix without a line break (the break itself is not part of it). */
  function PrimeiraLinha(s: string): (l: string)
    ensures |l| <= |s| && l == s[..|l|]
    ensures forall i :: 0 <= i < |l| ==> !QuebraDeLinha(l[i])
    ensures |l| < |s| ==> QuebraDeLinha(s[|l|])
  {
    if s == [] || QuebraDeLinha(s[0]) then []
    else
      var resto := PrimeiraLinha(s[1..]);
      assert s[1..][..|resto|] == s[1..|resto| + 1];
      [s[0]] + resto
  }

  /** The separator guessed for a decoded sample: ";" exactly when the
      first line has strictly more semicolons than commas; "," on a tie and
      for an empty sample, which has no lines at all. */
  function DetectarSeparador(amostra: string): (sep: string)
    ensures sep == "," || sep == ";"
    ensures amostra == [] ==> sep == ","
    ensures sep == ";" <==>
      amostra != [] && multiset(PrimeiraLinha(amostra))[';'] > multiset(PrimeiraLinha(amostra))[',']
  {
    if amostra == [] then ","
    else
      var linha := PrimeiraLinha(amostra);
      if Conta(linha, ';') > Conta(linha, ',') then ";" else ","
  }

  /** A line followed by a line break and anything: the line is the first line. */
  lemma {:induction false} PrimeiraLinhaAteAQuebra(linha: string, quebra: char, resto: string)
    requires forall i :: 0 <= i < |linha| ==> !QuebraDeLinha(linha[i])
    requires QuebraDeLinha(quebra)
    ensures PrimeiraLinha(linha + [quebra] + resto) == linha
  {
    if linha != [] {
      var s := linha + [quebra] + resto;
      assert s[1..] == linha[1..] + [quebra] + resto;
      PrimeiraLinhaAteAQuebra(linha[1..], quebra, resto);
    }
  }

  /** Only the first line is inspected: whatever follows the first line
      break never changes the separator. */
  lemma SoAPrimeiraLinhaConta(linha: string, quebra: char, resto1: string, resto2: string)
    requires forall i :: 0 <= i < |linha| ==> !QuebraDeLinha(linha[i])
    requires QuebraDeLinha(quebra)
    ensures DetectarSeparador(linha + [quebra] + resto1) == DetectarSeparador(linha + [quebra] + resto2)
  {
    PrimeiraLinhaAteAQuebra(linha, quebra, resto1);
    PrimeiraLinhaAteAQuebra(linha, quebra, resto2);
  }

  /** The number of bytes read for the sample. */
  const TamanhoDaAmostra := 2048

  /** The bytes the sample is decoded from: at most the first 2048. */
  function Amostra(conteudo: seq<bv8>): (a: seq<bv8>)
    ensures |a| == if |conteudo| < TamanhoDaAmostra then |conteudo| else TamanhoDaAmostra
    ensures a == conteudo[..|a|]
  {
    if |conteudo| < TamanhoDaAmostra then conteudo else conteudo[..TamanhoDaAmostra]
  }

  /** `detectar_separador(file_obj, encoding)`: the first 2048 bytes are
      decoded with `decodificar` (which stands for `bytes.decode` with the
      given encoding and gives None wherever it raises), then the sample
      decides. Every decoding failure becomes ValueError: that is right for
      UnicodeDecodeError, a subclass of ValueError, but the model cannot tell
      it from the LookupError of an unknown encoding name or the TypeError
      of a missing one. */
  function DetectarSeparadorArquivo(conteudo: seq<bv8>, decodificar: seq<bv8> -> Option<string>): (r: Result<string>)
    ensures decodificar(Amostra(conteudo)).None? <==> r == Err(ValueError)
    ensures r.Ok? ==> r.value == DetectarSeparador(decodificar(Amostra(conteudo)).value)
  {
    match decodificar(Amostra(conteudo))
    case None => Err(ValueError)
    case Some(amostra) => Ok(DetectarSeparador(amostra))
  }

  /** Bytes beyond the first 2048 never change the result. */
  lemma SoOPrefixoConta(c1: seq<bv8>, c2: seq<bv8>, decodificar: seq<bv8> -> Option<string>)
    requires |c1| >= TamanhoDaAmostra && |c2| >= TamanhoDaAmostra
    requires c1[..TamanhoDaAmostra] == c2[..TamanhoDaAmostra]
    ensures DetectarSeparadorArquivo(c1, decodificar) == DetectarSeparadorArquivo(c2, decodificar)
  {
    assert Amostra(c1) == Amostra(c2);
  }
}
