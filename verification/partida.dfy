/**
 * The session record kept in the history (`Partida`) and the answered
 * question it holds (`Questao`), with the two string conventions the
 * statistics rely on: player names compare lower-cased and trimmed, and a
 * question's prompt reads "a × b".
 */
module Partidas {
  import opened Wrappers
  import opened Js

  datatype Questao = Questao(pergunta: string, correta: bool)

  /**
   * One finished session. `data` is the session's timestamp in milliseconds.
   * `acertos` / `erros` are the numbers of correct and wrong answers; the
   * statistics read them as the session's correct / incorrect counts.
   */
  datatype Partida = Partida(
    id: string,
    nomeJogador: string,
    data: int,
    tabuadas: seq<int>,
    modoAleatorio: bool,
    questoes: seq<Questao>,
    acertos: nat,
    erros: nat,
    tempoTotalSegundos: nat)

  /** A player name as the history compares it: `toLowerCase().trim()`. */
  function Normalizar(nome: string): string {
    Trim(ToLower(nome))
  }

  /** A normalized name neither starts nor ends with whitespace. */
  lemma NormalizarBordas(nome: string)
    ensures Normalizar(nome) == [] || (!IsWhitespace(Normalizar(nome)[0]) && !IsWhitespace(Normalizar(nome)[|Normalizar(nome)| - 1]))
  {
    TrimBorders(ToLower(nome));
  }

  /** Normalizing twice is normalizing once, so a normalized name matches itself. */
  lemma NormalizarIdempotent(nome: string)
    ensures Normalizar(Normalizar(nome)) == Normalizar(nome)
  {
    ToLowerTrimIdempotent(nome);
  }

  lemma TrimAna()
    ensures Trim("ana ") == "ana" && Trim(" ana") == "ana"
  {
    assert TrimStart("ana ") == "ana ";
    assert TrimEnd("ana ") == "ana";
    assert " ana"[1..] == "ana";
    assert TrimStart("ana") == "ana";
    assert TrimStart(" ana") == "ana";
    assert TrimEnd("ana") == "ana";
  }

  lemma ToLowerAna()
    ensures ToLower("Ana ") == "ana " && ToLower(" ana") == " ana"
  {
  }

  /** Names that differ only in letter case and surrounding blanks normalize alike. */
  lemma NormalizarExemplo()
    ensures Normalizar("Ana ") == Normalizar(" ana") == "ana"
  {
    ToLowerAna();
    TrimAna();
  }

  /** The separator between the two operands of a prompt. */
  const Separador: string := " \U{D7} "

  /** `sep` occurs in `s` at position `i`. */
  predicate OcorreEm(s: string, sep: string, i: int) {
    0 <= i && i + |sep| <= |s| && s[i..i + |sep|] == sep
  }

  /** `s.split(sep)[0]`: the text before the first occurrence of `sep`, or all of `s`. */
  function SplitHead(s: string, sep: string): (r: string)
    requires sep != []
    ensures r <= s
    ensures forall i :: 0 <= i < |r| ==> !OcorreEm(s, sep, i)
    ensures |r| < |s| ==> OcorreEm(s, sep, |r|)
    decreases |s|
  {
    if |s| < |sep| then s
    else if s[..|sep|] == sep then []
    else
      var t := SplitHead(s[1..], sep);
      assert forall i :: 1 <= i < |t| + 1 ==> (OcorreEm(s, sep, i) <==> OcorreEm(s[1..], sep, i - 1)) by {
        forall i | 1 <= i < |t| + 1 ensures OcorreEm(s, sep, i) <==> OcorreEm(s[1..], sep, i - 1) {
          if i + |sep| <= |s| {
            assert s[i..i + |sep|] == s[1..][i - 1..i - 1 + |sep|];
          }
        }
      }
      [s[0]] + t
  }

  /** The first operand of a prompt: `parseInt(pergunta.split(' × ')[0])`; `None` is `NaN`. */
  function PrimeiroOperando(pergunta: string): Option<int> {
    ParseInt(SplitHead(pergunta, Separador))
  }

  /** The prompt for `a × b`. */
  function Pergunta(a: int, b: int): string {
    ToStr(a) + Separador + ToStr(b)
  }

  /** `split` stops at the first occurrence of the separator. */
  lemma SplitHeadPrimeira(s: string, sep: string, n: nat)
    requires sep != [] && OcorreEm(s, sep, n)
    requires forall i :: 0 <= i < n ==> !OcorreEm(s, sep, i)
    ensures SplitHead(s, sep) == s[..n]
  {
  }

  lemma SplitHeadAntesDoSeparador(x: string, y: string)
    requires forall k :: 0 <= k < |x| ==> x[k] != ' '
    ensures SplitHead(x + Separador + y, Separador) == x
  {
    var s := x + Separador + y;
    assert OcorreEm(s, Separador, |x|);
    forall i | 0 <= i < |x| ensures !OcorreEm(s, Separador, i) {
      assert s[i] == x[i];
    }
    SplitHeadPrimeira(s, Separador, |x|);
    assert s[..|x|] == x;
  }

  /** The per-table statistics read back the first operand of every well-formed prompt. */
  lemma PrimeiroOperandoPergunta(a: int, b: int)
    ensures PrimeiroOperando(Pergunta(a, b)) == Some(a)
  {
    ToStrSemCaractere(a, ' ');
    SplitHeadAntesDoSeparador(ToStr(a), ToStr(b));
    ParseIntToStr(a, []);
    assert ToStr(a) + [] == ToStr(a);
  }
}
