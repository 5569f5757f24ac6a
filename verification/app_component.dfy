/**
 * The multiple-choice game: questions from one table (or from random
 * tables), ten distinct answer buttons of which one is right, the right and
 * wrong counters and the verdict at 70% correct answers. `Math.random` is
 * replaced by the draws it would have produced: the table and multiplier of
 * a question, the candidates the answer generator tries and the swaps the
 * shuffle makes, each within the range the source draws it from.
 */
module App {
  import opened Wrappers
  import opened Js
  import opened Seqs
  import Jogo

  /** The value of the "random table" entry of the table list. */
  const Aleatorio: string := "aleatorio"

  /** The `value` of each entry of `tabuadas`, in list order; the labels are display text only. */
  const Valores: seq<string> := ["1", "2", "3", "4", "5", "6", "7", "8", "9", "10", Aleatorio]

  /** The first ten values are the decimal texts of 1 to 10. */
  lemma ValoresDecimais()
    ensures forall k :: 0 <= k < 10 ==> Valores[k] == ToStr(k + 1)
  {
    assert ToStr(10) == ToStr(1) + [DigitChar(0)];
  }

  /** Every value of the list other than the random entry parses to a table from 1 to 10. */
  lemma ValorNumerico(v: string)
    requires v in Valores && v != Aleatorio
    ensures ParseInt(v).Some? && 1 <= ParseInt(v).value <= 10
  {
    var k :| 0 <= k < |Valores| && Valores[k] == v;
    ValoresDecimais();
    ParseIntToStr(k + 1, []);
    assert ToStr(k + 1) + [] == v;
  }

  /** The table of a question: the random draw, or `parseInt` of the selected value. */
  function NumeroDaQuestao(selecao: string, sorteado: int): int
    requires selecao in Valores
  {
    if selecao == Aleatorio then sorteado
    else
      ValorNumerico(selecao);
      ParseInt(selecao).value
  }

  /** A fixed table is the number its value reads as; the random entry takes the draw. */
  lemma NumeroDaQuestaoFaixa(selecao: string, sorteado: int)
    requires selecao in Valores
    ensures selecao != Aleatorio ==> ParseInt(selecao) == Some(NumeroDaQuestao(selecao, sorteado))
    ensures selecao == Aleatorio ==> NumeroDaQuestao(selecao, sorteado) == sorteado
    ensures 1 <= sorteado <= 10 ==> 1 <= NumeroDaQuestao(selecao, sorteado) <= 10
  {
    if selecao != Aleatorio {
      ValorNumerico(selecao);
    }
  }

  /**
   * One pass of the generator loop: a near answer, the right one plus or
   * minus `delta` (1 to 5), or a value from 1 to 100.
   */
  datatype Candidato = Proxima(delta: int, acima: bool) | Aleatoria(valor: int)

  predicate CandidatoValido(d: Candidato) {
    match d
    case Proxima(delta, _) => 1 <= delta <= 5
    case Aleatoria(valor) => 1 <= valor <= 100
  }

  /** The value a draw proposes when the right answer is `correta`. */
  function Valor(correta: int, d: Candidato): int {
    match d
    case Proxima(delta, acima) => correta + delta * (if acima then 1 else -1)
    case Aleatoria(valor) => valor
  }

  /** A value a valid draw can propose: within 5 of the right answer, or from 1 to 100. */
  predicate Plausivel(correta: int, x: int) {
    (x != correta && correta - 5 <= x <= correta + 5) || 1 <= x <= 100
  }

  /** A positive value not yet in the list is appended; anything else is dropped. */
  function Inserir(respostas: seq<int>, x: int): seq<int> {
    if x > 0 && x !in respostas then respostas + [x] else respostas
  }

  /** The list the generator loop holds after trying the draws `ds` in order, stopping at ten answers. */
  function Coletar(respostas: seq<int>, correta: int, ds: seq<Candidato>): seq<int>
    decreases |ds|
  {
    if |respostas| >= 10 || ds == [] then respostas
    else Coletar(Inserir(respostas, Valor(correta, ds[0])), correta, ds[1..])
  }

  /** The draws let the loop reach ten answers. */
  predicate Suficiente(correta: int, ds: seq<Candidato>) {
    |Coletar([correta], correta, ds)| == 10
  }

  /** The loop only appends, so what the list holds stays at its front, and it never passes ten. */
  lemma {:induction false} ColetarEstende(r: seq<int>, correta: int, ds: seq<Candidato>)
    requires |r| <= 10
    ensures r <= Coletar(r, correta, ds) && |Coletar(r, correta, ds)| <= 10
    decreases |ds|
  {
    if |r| < 10 && ds != [] {
      ColetarEstende(Inserir(r, Valor(correta, ds[0])), correta, ds[1..]);
    }
  }

  /** The loop never appends a value the list already holds. */
  lemma {:induction false} ColetarDistintos(r: seq<int>, correta: int, ds: seq<Candidato>)
    requires Distinct(r)
    ensures Distinct(Coletar(r, correta, ds))
    decreases |ds|
  {
    if |r| < 10 && ds != [] {
      var r' := Inserir(r, Valor(correta, ds[0]));
      assert Distinct(r') by {
        if r' != r {
          forall i, j | 0 <= i < j < |r'| ensures r'[i] != r'[j] {
            if j == |r| {
              assert r'[i] == r[i];
            }
          }
        }
      }
      ColetarDistintos(r', correta, ds[1..]);
    }
  }

  /** Every value the loop appends is positive and proposed by a valid draw. */
  lemma {:induction false} ColetarOrigem(r: seq<int>, correta: int, ds: seq<Candidato>)
    requires forall d :: d in ds ==> CandidatoValido(d)
    ensures forall x :: x in Coletar(r, correta, ds) ==> x in r || (x > 0 && Plausivel(correta, x))
    decreases |ds|
  {
    if |r| < 10 && ds != [] {
      var x := Valor(correta, ds[0]);
      assert ds[0] in ds;
      assert x > 0 ==> Plausivel(correta, x);
      assert forall d :: d in ds[1..] ==> d in ds;
      ColetarOrigem(Inserir(r, x), correta, ds[1..]);
    }
  }

  /** Once the list is short, running out of draws leaves it short. */
  lemma ColetarCurto(r: seq<int>, correta: int, ds: seq<Candidato>)
    requires |r| < 10 && |Coletar(r, correta, ds)| == 10
    ensures ds != []
  {
  }

  /**
   * What `gerarRespostas(correta)` returns: ten distinct answers, the right
   * one among them and every other one positive and plausible, in some
   * order of the list the loop collected.
   */
  ghost predicate Respostas(r: seq<int>, correta: int, ds: seq<Candidato>) {
    multiset(r) == multiset(Coletar([correta], correta, ds))
    && |r| == 10 && Distinct(r) && correta in r
    && forall x :: x in r && x != correta ==> x > 0 && Plausivel(correta, x)
  }

  /** `respostas.sort(() => Math.random() - 0.5)`, as the swaps the shuffle makes. */
  method Embaralhar(s: seq<int>, trocas: seq<(nat, nat)>) returns (r: seq<int>)
    requires forall k :: 0 <= k < |trocas| ==> trocas[k].0 < |s| && trocas[k].1 < |s|
    ensures |r| == |s| && multiset(r) == multiset(s)
  {
    r := s;
    for k := 0 to |trocas|
      invariant |r| == |s| && multiset(r) == multiset(s)
    {
      var (i, j) := trocas[k];
      r := r[i := r[j]][j := r[i]];
    }
  }

  /**
   * `gerarRespostas`: start from the right answer, append positive values
   * not yet present until there are ten, then shuffle.
   */
  method GerarRespostas(respostaCorreta: int, candidatos: seq<Candidato>, trocas: seq<(nat, nat)>) returns (respostas: seq<int>)
    requires forall d :: d in candidatos ==> CandidatoValido(d)
    requires Suficiente(respostaCorreta, candidatos)
    requires forall k :: 0 <= k < |trocas| ==> trocas[k].0 < 10 && trocas[k].1 < 10
    ensures Respostas(respostas, respostaCorreta, candidatos)
  {
    respostas := [respostaCorreta];
    var i := 0;
    while |respostas| < 10
      invariant 0 <= i <= |candidatos|
      invariant Coletar(respostas, respostaCorreta, candidatos[i..]) == Coletar([respostaCorreta], respostaCorreta, candidatos)
      decreases |candidatos| - i
    {
      ColetarCurto(respostas, respostaCorreta, candidatos[i..]);
      var novaResposta: int;
      match candidatos[i] {
        case Proxima(delta, acima) =>
          novaResposta := respostaCorreta + delta * (if acima then 1 else -1);
        case Aleatoria(valor) =>
          novaResposta := valor;
      }

      if novaResposta > 0 && novaResposta !in respostas {
        respostas := respostas + [novaResposta];
      }
      assert candidatos[i..][1..] == candidatos[i + 1..];
      i := i + 1;
    }
    var coletadas := respostas;
    ColetarEstende([respostaCorreta], respostaCorreta, candidatos);
    ColetarDistintos([respostaCorreta], respostaCorreta, candidatos);
    ColetarOrigem([respostaCorreta], respostaCorreta, candidatos);
    respostas := Embaralhar(coletadas, trocas);
    DistinctMultiset(coletadas);
    MultisetDistinct(respostas);
    assert coletadas == Coletar([respostaCorreta], respostaCorreta, candidatos);
    assert coletadas[0] == respostaCorreta;
    assert respostaCorreta in multiset(coletadas);
    assert forall x :: x in respostas <==> x in coletadas by {
      forall x ensures x in respostas <==> x in coletadas {
        assert x in respostas <==> x in multiset(respostas);
        assert x in coletadas <==> x in multiset(coletadas);
      }
    }
  }

  /** The text and colour of the message after an answer. */
  const Correto: string := "\U{2705} Correto!"
  const Incorreto: string := "\U{274C} Incorreto!"
  const CorErro: string := "#f44336"

  /** The message before a game starts and after going back to the start. */
  const MensagemInicial: string := "Escolha uma tabuada e clique em Iniciar"

  /** The closing messages. */
  const Parabens: string := "\U{1F389} PARAB\U{C9}NS! Voc\U{EA} completou a tabuada com sucesso!"
  const ContinuePraticando: string := "Continue praticando!"

  function MensagemFinal(acertos: nat): string {
    if Jogo.Sucesso(acertos) then Parabens else ContinuePraticando
  }

  /** The success message appears exactly when at least 7 of the 10 answers were right. */
  lemma MensagemFinalSete(acertos: nat)
    ensures MensagemFinal(acertos) == Parabens <==> acertos >= 7
    ensures Jogo.CorFinal(acertos) == Jogo.CorSucesso <==> acertos >= 7
  {
    assert |Parabens| != |ContinuePraticando|;
    assert Jogo.CorSucesso != Jogo.CorPratica by {
      assert Jogo.CorSucesso[1] != Jogo.CorPratica[1];
    }
  }

  class AppComponent {
    var tabuadaSelecionada: string
    var numeroAtual: int
    var multiplicadorAtual: int
    var respostas: seq<int>
    var respostaCorreta: int

    var acertos: nat
    var erros: nat
    var questoesConcluidas: nat

    var jogoIniciado: bool
    var jogoFinalizado: bool
    var mensagem: string
    var mensagemCor: string

    /** The clicked answer and the right answer once a button is pressed; `None` is `null`. */
    var botaoClicado: Option<int>
    var botaoCorreto: Option<int>
    var botoesDesabilitados: bool

    /**
     * What every method keeps: the selection is one of the list's values,
     * every answered question was counted right or wrong, the right answer
     * is the product of the question, and the buttons, once filled, are ten
     * distinct answers including the right one.
     */
    ghost predicate Valid()
      reads this
    {
      tabuadaSelecionada in Valores
      && acertos + erros == questoesConcluidas
      && respostaCorreta == numeroAtual * multiplicadorAtual
      && (respostas == [] || (|respostas| == 10 && Distinct(respostas) && respostaCorreta in respostas))
    }

    /** The game is over and shows the closing message for its score. */
    predicate Encerrado()
      reads this
    {
      jogoFinalizado && mensagem == MensagemFinal(acertos) && mensagemCor == Jogo.CorFinal(acertos)
    }

    /** The question on screen is the one the draws give, with its answer buttons. */
    ghost predicate Perguntou(numeroSorteado: int, multiplicadorSorteado: int, candidatos: seq<Candidato>)
      reads this
    {
      tabuadaSelecionada in Valores
      && numeroAtual == NumeroDaQuestao(tabuadaSelecionada, numeroSorteado)
      && multiplicadorAtual == multiplicadorSorteado
      && respostaCorreta == numeroAtual * multiplicadorAtual
      && Respostas(respostas, respostaCorreta, candidatos)
    }

    constructor()
      ensures Valid()
      ensures tabuadaSelecionada == "1" && respostas == []
      ensures numeroAtual == 0 && multiplicadorAtual == 0 && respostaCorreta == 0
      ensures acertos == 0 && erros == 0 && questoesConcluidas == 0
      ensures !jogoIniciado && !jogoFinalizado && mensagem == MensagemInicial && mensagemCor == "black"
      ensures botaoClicado == None && botaoCorreto == None && !botoesDesabilitados
    {
      tabuadaSelecionada := "1";
      numeroAtual := 0;
      multiplicadorAtual := 0;
      respostas := [];
      respostaCorreta := 0;
      acertos := 0;
      erros := 0;
      questoesConcluidas := 0;
      jogoIniciado := false;
      jogoFinalizado := false;
      mensagem := MensagemInicial;
      mensagemCor := "black";
      botaoClicado := None;
      botaoCorreto := None;
      botoesDesabilitados := false;
    }

    /** `finalizarJogo`. */
    method FinalizarJogo()
      modifies this`jogoFinalizado, this`mensagem, this`mensagemCor
      ensures Encerrado()
    {
      jogoFinalizado := true;
      if 10 * acertos >= 7 * Jogo.TotalQuestoes {
        mensagem := Parabens;
        mensagemCor := Jogo.CorSucesso;
      } else {
        mensagem := ContinuePraticando;
        mensagemCor := Jogo.CorPratica;
      }
    }

    /**
     * `proximaQuestao`: after the last question the game closes; otherwise
     * a new question with its ten answer buttons. `numeroSorteado` is used
     * only for the random entry.
     */
    method ProximaQuestao(numeroSorteado: int, multiplicadorSorteado: int, candidatos: seq<Candidato>, trocas: seq<(nat, nat)>)
      requires Valid()
      requires 1 <= numeroSorteado <= 10 && 1 <= multiplicadorSorteado <= 10
      requires forall d :: d in candidatos ==> CandidatoValido(d)
      requires forall k :: 0 <= k < |trocas| ==> trocas[k].0 < 10 && trocas[k].1 < 10
      requires questoesConcluidas < Jogo.TotalQuestoes ==>
        Suficiente(NumeroDaQuestao(tabuadaSelecionada, numeroSorteado) * multiplicadorSorteado, candidatos)
      modifies this`botaoClicado, this`botaoCorreto, this`botoesDesabilitados, this`mensagem,
        this`jogoFinalizado, this`mensagemCor, this`numeroAtual, this`multiplicadorAtual,
        this`respostaCorreta, this`respostas
      ensures Valid()
      ensures botaoClicado == None && botaoCorreto == None && !botoesDesabilitados
      ensures questoesConcluidas >= Jogo.TotalQuestoes ==>
        Encerrado() && respostas == old(respostas) && respostaCorreta == old(respostaCorreta)
        && numeroAtual == old(numeroAtual) && multiplicadorAtual == old(multiplicadorAtual)
      ensures questoesConcluidas < Jogo.TotalQuestoes ==>
        Perguntou(numeroSorteado, multiplicadorSorteado, candidatos) && mensagem == ""
        && jogoFinalizado == old(jogoFinalizado) && mensagemCor == old(mensagemCor)
    {
      botaoClicado := None;
      botaoCorreto := None;
      botoesDesabilitados := false;
      mensagem := "";

      if questoesConcluidas >= Jogo.TotalQuestoes {
        FinalizarJogo();
      } else {
        PerguntarProxima(numeroSorteado, multiplicadorSorteado, candidatos, trocas);
      }
    }

    /** The second half of `proximaQuestao`: the new operands and the answer buttons. */
    method PerguntarProxima(numeroSorteado: int, multiplicadorSorteado: int, candidatos: seq<Candidato>, trocas: seq<(nat, nat)>)
      requires Valid()
      requires 1 <= numeroSorteado <= 10 && 1 <= multiplicadorSorteado <= 10
      requires forall d :: d in candidatos ==> CandidatoValido(d)
      requires forall k :: 0 <= k < |trocas| ==> trocas[k].0 < 10 && trocas[k].1 < 10
      requires Suficiente(NumeroDaQuestao(tabuadaSelecionada, numeroSorteado) * multiplicadorSorteado, candidatos)
      modifies this`numeroAtual, this`multiplicadorAtual, this`respostaCorreta, this`respostas
      ensures Valid()
      ensures Perguntou(numeroSorteado, multiplicadorSorteado, candidatos)
    {
      var selecao := tabuadaSelecionada;
      var numero: int;
      if selecao == Aleatorio {
        numero := numeroSorteado;
      } else {
        ValorNumerico(selecao);
        numero := ParseInt(selecao).value;
      }
      var correta := numero * multiplicadorSorteado;
      var novas := GerarRespostas(correta, candidatos, trocas);
      numeroAtual := numero;
      multiplicadorAtual := multiplicadorSorteado;
      respostaCorreta := correta;
      respostas := novas;
    }

    /**
     * `iniciarJogo`, and `reiniciarJogo`, which only calls it: counters to
     * zero, the game running, then the first question.
     */
    method IniciarJogo(numeroSorteado: int, multiplicadorSorteado: int, candidatos: seq<Candidato>, trocas: seq<(nat, nat)>)
      requires Valid()
      requires 1 <= numeroSorteado <= 10 && 1 <= multiplicadorSorteado <= 10
      requires forall d :: d in candidatos ==> CandidatoValido(d)
      requires forall k :: 0 <= k < |trocas| ==> trocas[k].0 < 10 && trocas[k].1 < 10
      requires Suficiente(NumeroDaQuestao(tabuadaSelecionada, numeroSorteado) * multiplicadorSorteado, candidatos)
      modifies this`acertos, this`erros, this`questoesConcluidas, this`jogoIniciado,
        this`botaoClicado, this`botaoCorreto, this`botoesDesabilitados, this`mensagem,
        this`jogoFinalizado, this`mensagemCor, this`numeroAtual, this`multiplicadorAtual,
        this`respostaCorreta, this`respostas
      ensures Valid()
      ensures acertos == 0 && erros == 0 && questoesConcluidas == 0
      ensures jogoIniciado && !jogoFinalizado && mensagem == ""
      ensures botaoClicado == None && botaoCorreto == None && !botoesDesabilitados
      ensures mensagemCor == old(mensagemCor)
      ensures Perguntou(numeroSorteado, multiplicadorSorteado, candidatos)
    {
      acertos := 0;
      erros := 0;
      questoesConcluidas := 0;
      jogoIniciado := true;
      jogoFinalizado := false;
      mensagem := "";
      ProximaQuestao(numeroSorteado, multiplicadorSorteado, candidatos, trocas);
    }

    /** `voltarAoInicio`. */
    method VoltarAoInicio()
      modifies this`jogoIniciado, this`jogoFinalizado, this`mensagem
      ensures !jogoIniciado && !jogoFinalizado && mensagem == MensagemInicial
    {
      jogoIniciado := false;
      jogoFinalizado := false;
      mensagem := MensagemInicial;
    }

    /**
     * `verificarResposta`, without the timer that asks the next question
     * 1500 ms later: ignored while the buttons are locked; otherwise it
     * locks them, records both answers and counts the answer right or wrong.
     */
    method VerificarResposta(resposta: int)
      requires Valid()
      modifies this`botoesDesabilitados, this`botaoClicado, this`botaoCorreto, this`mensagem,
        this`mensagemCor, this`acertos, this`erros, this`questoesConcluidas
      ensures Valid()
      ensures old(botoesDesabilitados) ==> unchanged(this)
      ensures !old(botoesDesabilitados) ==>
        botoesDesabilitados && botaoClicado == Some(resposta) && botaoCorreto == Some(respostaCorreta)
        && questoesConcluidas == old(questoesConcluidas) + 1
      ensures !old(botoesDesabilitados) && resposta == respostaCorreta ==>
        acertos == old(acertos) + 1 && erros == old(erros) && mensagem == Correto && mensagemCor == Jogo.CorSucesso
      ensures !old(botoesDesabilitados) && resposta != respostaCorreta ==>
        acertos == old(acertos) && erros == old(erros) + 1 && mensagem == Incorreto && mensagemCor == CorErro
    {
      if botoesDesabilitados {
        return;
      }

      botoesDesabilitados := true;
      botaoClicado := Some(resposta);
      botaoCorreto := Some(respostaCorreta);

      if resposta == respostaCorreta {
        mensagem := Correto;
        mensagemCor := Jogo.CorSucesso;
        acertos := acertos + 1;
      } else {
        mensagem := Incorreto;
        mensagemCor := CorErro;
        erros := erros + 1;
      }

      questoesConcluidas := questoesConcluidas + 1;
    }

    /** `getClassBotao`: the style of an answer button. */
    function GetClassBotao(resposta: int): (r: string)
      reads this
      ensures botaoClicado == None ==> r == ""
      ensures r == "correto" <==> botaoClicado != None && resposta == respostaCorreta
      ensures r == "incorreto" <==> botaoClicado == Some(resposta) && resposta != respostaCorreta
      ensures r == "" || r == "correto" || r == "incorreto"
    {
      if botaoClicado == None then ""
      else if resposta == respostaCorreta then "correto"
      else if Some(resposta) == botaoClicado then "incorreto"
      else ""
    }
  }

  /**
   * After a click, exactly one of the ten buttons shows as right, and at
   * most one shows as wrong: the one clicked.
   */
  lemma BotoesMarcados(a: AppComponent)
    requires a.Valid() && a.botaoClicado != None && a.respostas != []
    ensures exists i :: 0 <= i < |a.respostas| && a.GetClassBotao(a.respostas[i]) == "correto"
    ensures forall i, j :: 0 <= i < j < |a.respostas| ==>
      !(a.GetClassBotao(a.respostas[i]) == "correto" && a.GetClassBotao(a.respostas[j]) == "correto")
    ensures forall i, j :: 0 <= i < j < |a.respostas| ==>
      !(a.GetClassBotao(a.respostas[i]) == "incorreto" && a.GetClassBotao(a.respostas[j]) == "incorreto")
  {
    var i :| 0 <= i < |a.respostas| && a.respostas[i] == a.respostaCorreta;
    assert a.GetClassBotao(a.respostas[i]) == "correto";
  }
}
