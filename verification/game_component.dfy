/**
 * The keypad game: ten questions drawn from the chosen tables, in order or
 * at random, a three-character answer buffer, the right and wrong counters,
 * and the final verdict at 70% correct answers. `Math.random` is replaced by
 * `sorteio`, the draws the retry loop would make: for attempt `t`, an index
 * into the chosen tables and a multiplier from 1 to 10.
 */
module Jogo {
  import opened Wrappers
  import opened Js
  import opened GameState

  /** `totalQuestoes`, which nothing in the component changes. */
  const TotalQuestoes: nat := 10

  /** `maxTentativas` of the retry loop. */
  const MaxTentativas: nat := 100

  /** The key of a question in `questoesGeradas`: `` `${numeroAtual}x${multiplicadorAtual}` ``. */
  function Chave(a: int, b: int): string {
    ToStr(a) + "x" + ToStr(b)
  }

  /** Different questions have different keys, so the set of keys tells the questions apart. */
  lemma ChaveInjetiva(a: int, b: int, c: int, d: int)
    requires Chave(a, b) == Chave(c, d)
    ensures a == c && b == d
  {
    var s := Chave(a, b);
    var sa, sc := ToStr(a), ToStr(c);
    ToStrSemCaractere(a, 'x');
    ToStrSemCaractere(c, 'x');
    assert s[|sa|] == 'x';
    assert Chave(c, d)[|sc|] == 'x';
    if |sa| == |sc| {
      assert sa == s[..|sa|] == sc;
      ToStrInjective(a, c);
      assert ToStr(b) == s[|sa| + 1..] == ToStr(d);
      ToStrInjective(b, d);
    }
  }

  /** `acertos >= totalQuestoes * 0.7`: `10 * 0.7` evaluates to exactly 7 in double arithmetic. */
  predicate Sucesso(acertos: nat) {
    10 * acertos >= 7 * TotalQuestoes
  }

  const CorSucesso: string := "#4CAF50"
  const CorPratica: string := "#ff9800"

  /** The fixed pieces of the two closing messages. */
  const Parabens: string := "\U{1F389} PARAB\U{C9}NS "
  const VoceAcertou: string := "! Voc\U{EA} acertou "
  const Questoes: string := " quest\U{F5}es!"
  const VirgulaAcertou: string := ", voc\U{EA} acertou "
  const ContinuePraticando: string := ". Continue praticando!"

  /** The closing message for a player with the given name and number of right answers. */
  function MensagemFinal(nome: string, acertos: nat): string {
    if Sucesso(acertos) then
      Parabens + ToUpper(nome) + VoceAcertou + ToStr(acertos) + " de " + ToStr(TotalQuestoes) + Questoes
    else
      nome + VirgulaAcertou + ToStr(acertos) + " de " + ToStr(TotalQuestoes) + ContinuePraticando
  }

  function CorFinal(acertos: nat): string {
    if Sucesso(acertos) then CorSucesso else CorPratica
  }

  /** Draws for every attempt the retry loop can make, each within the ranges `Math.random` gives. */
  predicate SorteioValido(sorteio: seq<(nat, int)>, n: nat) {
    |sorteio| >= MaxTentativas && forall t :: 0 <= t < |sorteio| ==> sorteio[t].0 < n && 1 <= sorteio[t].1 <= 10
  }

  /**
   * The question of attempt `t` when `q` questions are done: a random draw,
   * or table `q mod n` with multiplier `(q mod 10) + 1` in sequential mode.
   */
  function Escolha(tabs: seq<int>, q: nat, aleatorio: bool, sorteio: seq<(nat, int)>, t: nat): (r: (int, int))
    requires |tabs| > 0 && t < MaxTentativas
    requires aleatorio ==> SorteioValido(sorteio, |tabs|)
    ensures r.0 in tabs && 1 <= r.1 <= 10
    ensures !aleatorio ==> r == (tabs[q % |tabs|], q % 10 + 1)
  {
    if aleatorio then (tabs[sorteio[t].0], sorteio[t].1)
    else (tabs[q % |tabs|], q % 10 + 1)
  }

  /** The key of the question drawn at attempt `t`. */
  function ChaveTentativa(tabs: seq<int>, q: nat, aleatorio: bool, sorteio: seq<(nat, int)>, t: nat): string
    requires |tabs| > 0 && t < MaxTentativas
    requires aleatorio ==> SorteioValido(sorteio, |tabs|)
  {
    var e := Escolha(tabs, q, aleatorio, sorteio, t);
    Chave(e.0, e.1)
  }

  /**
   * The attempt at which the retry loop, started at attempt `t`, stops: the
   * first whose key is not yet in `geradas`, or the last one allowed.
   */
  function Saida(geradas: set<string>, tabs: seq<int>, q: nat, aleatorio: bool, sorteio: seq<(nat, int)>, t: nat): (r: nat)
    requires |tabs| > 0 && t < MaxTentativas
    requires aleatorio ==> SorteioValido(sorteio, |tabs|)
    ensures t <= r < MaxTentativas
    decreases MaxTentativas - t
  {
    if t + 1 == MaxTentativas || ChaveTentativa(tabs, q, aleatorio, sorteio, t) !in geradas then t
    else Saida(geradas, tabs, q, aleatorio, sorteio, t + 1)
  }

  /** Every attempt before the one the loop stops at drew a key already in `geradas`. */
  lemma {:induction false} SaidaAnterioresRepetidas(geradas: set<string>, tabs: seq<int>, q: nat, aleatorio: bool, sorteio: seq<(nat, int)>, t: nat)
    requires |tabs| > 0 && t < MaxTentativas
    requires aleatorio ==> SorteioValido(sorteio, |tabs|)
    ensures forall u :: t <= u < Saida(geradas, tabs, q, aleatorio, sorteio, t) ==> ChaveTentativa(tabs, q, aleatorio, sorteio, u) in geradas
    decreases MaxTentativas - t
  {
    var r := Saida(geradas, tabs, q, aleatorio, sorteio, t);
    if r != t {
      assert ChaveTentativa(tabs, q, aleatorio, sorteio, t) in geradas;
      assert r == Saida(geradas, tabs, q, aleatorio, sorteio, t + 1);
      SaidaAnterioresRepetidas(geradas, tabs, q, aleatorio, sorteio, t + 1);
      forall u | t <= u < r
        ensures ChaveTentativa(tabs, q, aleatorio, sorteio, u) in geradas
      {
        if u > t {
          assert t + 1 <= u < Saida(geradas, tabs, q, aleatorio, sorteio, t + 1);
        }
      }
    }
  }

  /**
   * The attempt the loop stops at drew a new key, unless it is the last
   * one allowed: the loop gives up with a repeated question only after all
   * 100 attempts were repeats.
   */
  lemma {:induction false} SaidaNova(geradas: set<string>, tabs: seq<int>, q: nat, aleatorio: bool, sorteio: seq<(nat, int)>, t: nat)
    requires |tabs| > 0 && t < MaxTentativas
    requires aleatorio ==> SorteioValido(sorteio, |tabs|)
    ensures Saida(geradas, tabs, q, aleatorio, sorteio, t) + 1 < MaxTentativas ==>
      ChaveTentativa(tabs, q, aleatorio, sorteio, Saida(geradas, tabs, q, aleatorio, sorteio, t)) !in geradas
    decreases MaxTentativas - t
  {
    var r := Saida(geradas, tabs, q, aleatorio, sorteio, t);
    if r != t {
      assert r == Saida(geradas, tabs, q, aleatorio, sorteio, t + 1);
      SaidaNova(geradas, tabs, q, aleatorio, sorteio, t + 1);
    }
  }

  /** One iteration of the retry loop: stop at attempt `t`, or go on as from attempt `t + 1`. */
  lemma SaidaPasso(geradas: set<string>, tabs: seq<int>, q: nat, aleatorio: bool, sorteio: seq<(nat, int)>, t: nat)
    requires |tabs| > 0 && t + 1 < MaxTentativas
    requires aleatorio ==> SorteioValido(sorteio, |tabs|)
    requires ChaveTentativa(tabs, q, aleatorio, sorteio, t) in geradas
    ensures Saida(geradas, tabs, q, aleatorio, sorteio, t) == Saida(geradas, tabs, q, aleatorio, sorteio, t + 1)
  {
  }

  /** The question `proximaQuestao` asks: the one drawn at the attempt where the retry loop stops. */
  function Questao(geradas: set<string>, tabs: seq<int>, q: nat, aleatorio: bool, sorteio: seq<(nat, int)>): (r: (int, int))
    requires |tabs| > 0
    requires aleatorio ==> SorteioValido(sorteio, |tabs|)
    ensures r.0 in tabs && 1 <= r.1 <= 10
  {
    Escolha(tabs, q, aleatorio, sorteio, Saida(geradas, tabs, q, aleatorio, sorteio, 0))
  }

  /**
   * The question asked is a new one whenever any of the first 99 attempts
   * would have drawn a new one.
   */
  lemma QuestaoNova(geradas: set<string>, tabs: seq<int>, q: nat, aleatorio: bool, sorteio: seq<(nat, int)>, u: nat)
    requires |tabs| > 0 && u + 1 < MaxTentativas
    requires aleatorio ==> SorteioValido(sorteio, |tabs|)
    requires ChaveTentativa(tabs, q, aleatorio, sorteio, u) !in geradas
    ensures Chave(Questao(geradas, tabs, q, aleatorio, sorteio).0, Questao(geradas, tabs, q, aleatorio, sorteio).1) !in geradas
  {
    SaidaAnterioresRepetidas(geradas, tabs, q, aleatorio, sorteio, 0);
    SaidaNova(geradas, tabs, q, aleatorio, sorteio, 0);
  }

  /** With no key recorded yet, the first attempt is kept. */
  lemma PrimeiraQuestao(tabs: seq<int>, q: nat, aleatorio: bool, sorteio: seq<(nat, int)>)
    requires |tabs| > 0
    requires aleatorio ==> SorteioValido(sorteio, |tabs|)
    ensures Questao({}, tabs, q, aleatorio, sorteio) == Escolha(tabs, q, aleatorio, sorteio, 0)
  {
    assert Saida({}, tabs, q, aleatorio, sorteio, 0) == 0;
  }

  /** In sequential mode with the single table 7, question `q` of the ten is 7 times `q + 1`. */
  lemma SequencialSete(q: nat, sorteio: seq<(nat, int)>, t: nat)
    requires q < TotalQuestoes && t < MaxTentativas
    ensures Escolha([7], q, false, sorteio, t) == (7, q + 1)
  {
  }

  /** The keys of the questions asked in sequential mode before question `q`. */
  function ChavesSequenciais(tabs: seq<int>, q: nat): set<string>
    requires |tabs| > 0
  {
    set k | 0 <= k < q :: Chave(tabs[k % |tabs|], k % 10 + 1)
  }

  /**
   * In sequential mode every one of the ten questions is new: its
   * multiplier differs from all earlier ones, so the first attempt is kept.
   */
  lemma SequencialSemRepeticao(tabs: seq<int>, q: nat, sorteio: seq<(nat, int)>)
    requires |tabs| > 0 && q < TotalQuestoes
    ensures Chave(tabs[q % |tabs|], q + 1) !in ChavesSequenciais(tabs, q)
    ensures Saida(ChavesSequenciais(tabs, q), tabs, q, false, sorteio, 0) == 0
  {
    var nova := Chave(tabs[q % |tabs|], q + 1);
    forall k | 0 <= k < q
      ensures Chave(tabs[k % |tabs|], k % 10 + 1) != nova
    {
      if Chave(tabs[k % |tabs|], k % 10 + 1) == nova {
        ChaveInjetiva(tabs[k % |tabs|], k % 10 + 1, tabs[q % |tabs|], q + 1);
      }
    }
    assert q % 10 + 1 == q + 1;
    var e := Escolha(tabs, q, false, sorteio, 0);
    assert e == (tabs[q % |tabs|], q + 1);
    assert ChaveTentativa(tabs, q, false, sorteio, 0) == Chave(e.0, e.1);
  }

  class GameComponent {
    var nomeJogador: string
    var tabuadasDisponiveis: seq<int>
    var modoAleatorio: bool

    var numeroAtual: int
    var multiplicadorAtual: int
    var respostaUsuario: string
    var respostaCorreta: int

    var acertos: nat
    var erros: nat
    var questoesConcluidas: nat
    var mensagem: string
    var mensagemCor: string

    var jogoIniciado: bool
    var jogoFinalizado: bool
    var botoesDesabilitados: bool

    var questoesGeradas: set<string>

    /** Every question answered was counted as right or as wrong. */
    predicate Valid()
      reads this
    {
      acertos + erros == questoesConcluidas
    }

    /** The state `finalizarJogo` leaves: over, with the closing message and its colour. */
    predicate Encerrado()
      reads this
    {
      jogoFinalizado && mensagem == MensagemFinal(nomeJogador, acertos) && mensagemCor == CorFinal(acertos)
    }

    /**
     * The state `proximaQuestao` leaves when it asks a question, `antes`
     * being the keys recorded before: the question the retry loop settles
     * on, its product as the expected answer, and its key recorded.
     */
    predicate Perguntou(antes: set<string>, sorteio: seq<(nat, int)>)
      reads this
    {
      |tabuadasDisponiveis| > 0 && (modoAleatorio ==> SorteioValido(sorteio, |tabuadasDisponiveis|))
      && (numeroAtual, multiplicadorAtual) == Questao(antes, tabuadasDisponiveis, questoesConcluidas, modoAleatorio, sorteio)
      && respostaCorreta == numeroAtual * multiplicadorAtual
      && questoesGeradas == antes + {Chave(numeroAtual, multiplicadorAtual)}
    }

    constructor()
      ensures Valid() && !jogoIniciado && !jogoFinalizado && !botoesDesabilitados
      ensures tabuadasDisponiveis == [] && respostaUsuario == "" && questoesGeradas == {}
      ensures nomeJogador == "" && !modoAleatorio
      ensures numeroAtual == 0 && multiplicadorAtual == 0 && respostaCorreta == 0
      ensures acertos == 0 && erros == 0 && questoesConcluidas == 0
      ensures mensagem == "" && mensagemCor == "black"
    {
      nomeJogador := "";
      tabuadasDisponiveis := [];
      modoAleatorio := false;
      numeroAtual := 0;
      multiplicadorAtual := 0;
      respostaUsuario := "";
      respostaCorreta := 0;
      acertos := 0;
      erros := 0;
      questoesConcluidas := 0;
      mensagem := "";
      mensagemCor := "black";
      jogoIniciado := false;
      jogoFinalizado := false;
      botoesDesabilitados := false;
      questoesGeradas := {};
    }

    /** `finalizarJogo`: the game is over; the message and its colour follow the 70% rule. */
    method FinalizarJogo()
      modifies this`jogoFinalizado, this`mensagem, this`mensagemCor
      ensures Encerrado()
    {
      jogoFinalizado := true;
      if Sucesso(acertos) {
        mensagem := Parabens + ToUpper(nomeJogador) + VoceAcertou + ToStr(acertos) + " de " + ToStr(TotalQuestoes) + Questoes;
        mensagemCor := CorSucesso;
      } else {
        mensagem := nomeJogador + VirgulaAcertou + ToStr(acertos) + " de " + ToStr(TotalQuestoes) + ContinuePraticando;
        mensagemCor := CorPratica;
      }
    }

    /**
     * The retry loop of `proximaQuestao`: draws a question per attempt and
     * stops at the first whose key is not in `questoesGeradas`, or after the
     * hundredth attempt, keeping that attempt's question.
     */
    method Sortear(sorteio: seq<(nat, int)>) returns (numero: int, multiplicador: int)
      requires |tabuadasDisponiveis| > 0
      requires modoAleatorio ==> SorteioValido(sorteio, |tabuadasDisponiveis|)
      ensures (numero, multiplicador) == Questao(questoesGeradas, tabuadasDisponiveis, questoesConcluidas, modoAleatorio, sorteio)
    {
      var geradas, tabs, q, aleatorio := questoesGeradas, tabuadasDisponiveis, questoesConcluidas, modoAleatorio;
      var tentativas := 0;
      while true
        invariant tentativas < MaxTentativas
        invariant Saida(geradas, tabs, q, aleatorio, sorteio, 0) == Saida(geradas, tabs, q, aleatorio, sorteio, tentativas)
        decreases MaxTentativas - tentativas
      {
        if aleatorio {
          var indiceAleatorio := sorteio[tentativas].0;
          numero := tabs[indiceAleatorio];
          multiplicador := sorteio[tentativas].1;
        } else {
          var indice := q % |tabs|;
          numero := tabs[indice];
          multiplicador := (q % 10) + 1;
        }
        assert (numero, multiplicador) == Escolha(tabs, q, aleatorio, sorteio, tentativas);

        var questaoKey := Chave(numero, multiplicador);
        if questaoKey !in geradas {
          break;
        }

        if tentativas + 1 >= MaxTentativas {
          break;
        }
        SaidaPasso(geradas, tabs, q, aleatorio, sorteio, tentativas);
        tentativas := tentativas + 1;
      }
    }

    /**
     * `proximaQuestao`: clears the answer and unlocks the keypad; once ten
     * questions are done it finishes the game, otherwise it asks the
     * question the retry loop settles on, records its key (already there
     * when all attempts were repeats) and sets the expected answer to the
     * product.
     */
    method ProximaQuestao(sorteio: seq<(nat, int)>)
      requires |tabuadasDisponiveis| > 0
      requires modoAleatorio ==> SorteioValido(sorteio, |tabuadasDisponiveis|)
      modifies this`respostaUsuario, this`botoesDesabilitados, this`mensagem, this`jogoFinalizado, this`mensagemCor
      modifies this`numeroAtual, this`multiplicadorAtual, this`respostaCorreta, this`questoesGeradas
      ensures respostaUsuario == "" && !botoesDesabilitados
      ensures questoesConcluidas >= TotalQuestoes ==>
        Encerrado() && questoesGeradas == old(questoesGeradas) && respostaCorreta == old(respostaCorreta)
        && numeroAtual == old(numeroAtual) && multiplicadorAtual == old(multiplicadorAtual)
      ensures questoesConcluidas < TotalQuestoes ==>
        Perguntou(old(questoesGeradas), sorteio)
        && mensagem == "" && jogoFinalizado == old(jogoFinalizado) && mensagemCor == old(mensagemCor)
    {
      respostaUsuario := "";
      botoesDesabilitados := false;
      mensagem := "";

      if questoesConcluidas >= TotalQuestoes {
        FinalizarJogo();
        return;
      }

      var numero, multiplicador := Sortear(sorteio);
      numeroAtual, multiplicadorAtual := numero, multiplicador;
      respostaCorreta := numeroAtual * multiplicadorAtual;
      questoesGeradas := questoesGeradas + {Chave(numeroAtual, multiplicadorAtual)};
    }

    /** `iniciarJogo` (and `reiniciarJogo`, which only calls it): counters at zero, no keys recorded, game running, then the first question. */
    method IniciarJogo(sorteio: seq<(nat, int)>)
      requires |tabuadasDisponiveis| > 0
      requires modoAleatorio ==> SorteioValido(sorteio, |tabuadasDisponiveis|)
      modifies this`acertos, this`erros, this`questoesConcluidas, this`jogoIniciado, this`jogoFinalizado
      modifies this`respostaUsuario, this`botoesDesabilitados, this`mensagem, this`mensagemCor
      modifies this`numeroAtual, this`multiplicadorAtual, this`respostaCorreta, this`questoesGeradas
      ensures Valid() && acertos == 0 && erros == 0 && questoesConcluidas == 0
      ensures jogoIniciado && !jogoFinalizado && mensagem == ""
      ensures respostaUsuario == "" && !botoesDesabilitados && mensagemCor == old(mensagemCor)
      ensures Perguntou({}, sorteio)
    {
      acertos := 0;
      erros := 0;
      questoesConcluidas := 0;
      jogoIniciado := true;
      jogoFinalizado := false;
      mensagem := "";
      questoesGeradas := {};
      ProximaQuestao(sorteio);
    }

    /**
     * `ngOnInit`: with no table handed off it leaves the component as it
     * is (the redirect to the start screen is navigation); otherwise it
     * takes the name, tables and mode and starts the game.
     */
    method NgOnInit(estado: GameStateService, sorteio: seq<(nat, int)>)
      requires estado.modoAleatorio && estado.tabuadasSelecionadas != [] ==> SorteioValido(sorteio, |estado.tabuadasSelecionadas|)
      modifies this
      ensures estado.tabuadasSelecionadas == [] ==> unchanged(this)
      ensures estado.tabuadasSelecionadas != [] ==>
        nomeJogador == estado.nomeJogador && tabuadasDisponiveis == estado.tabuadasSelecionadas
        && modoAleatorio == estado.modoAleatorio
        && Valid() && acertos == 0 && erros == 0 && questoesConcluidas == 0 && jogoIniciado && !jogoFinalizado
        && respostaUsuario == "" && !botoesDesabilitados && mensagem == "" && mensagemCor == old(mensagemCor)
        && Perguntou({}, sorteio)
    {
      var dados := estado.GetDadosJogo();
      if |dados.tabuadasSelecionadas| == 0 {
        return;
      }
      nomeJogador := dados.nomeJogador;
      tabuadasDisponiveis := dados.tabuadasSelecionadas;
      modoAleatorio := dados.modoAleatorio;
      IniciarJogo(sorteio);
    }

    /** `voltarAoInicio`: the handed-off settings are cleared (the navigation is not modelled). */
    method VoltarAoInicio(estado: GameStateService)
      modifies estado
      ensures estado.Dados() == Inicial
    {
      estado.LimparDados();
    }

    /** `adicionarNumero`: while unlocked and under three characters, the digit's text is appended. */
    method AdicionarNumero(numero: int)
      modifies this`respostaUsuario
      ensures respostaUsuario ==
        if !botoesDesabilitados && |old(respostaUsuario)| < 3 then old(respostaUsuario) + ToStr(numero)
        else old(respostaUsuario)
      ensures 0 <= numero <= 9 && |old(respostaUsuario)| <= 3 ==> |respostaUsuario| <= 3
    {
      if 0 <= numero <= 9 {
        ToStrDigito(numero);
      }
      if botoesDesabilitados {
        return;
      }
      if |respostaUsuario| < 3 {
        respostaUsuario := respostaUsuario + ToStr(numero);
      }
    }

    /** `apagarUltimo`: while unlocked, the last character (if any) is dropped; `slice(0, -1)` of `''` is `''`. */
    method ApagarUltimo()
      modifies this`respostaUsuario
      ensures respostaUsuario ==
        if !botoesDesabilitados && old(respostaUsuario) != [] then old(respostaUsuario)[..|old(respostaUsuario)| - 1]
        else old(respostaUsuario)
      ensures !botoesDesabilitados && old(respostaUsuario) != [] ==>
        respostaUsuario + [old(respostaUsuario)[|old(respostaUsuario)| - 1]] == old(respostaUsuario)
    {
      if botoesDesabilitados {
        return;
      }
      if |respostaUsuario| > 0 {
        respostaUsuario := respostaUsuario[..|respostaUsuario| - 1];
      }
    }

    /** `limparResposta`: while unlocked, the answer is emptied. */
    method LimparResposta()
      modifies this`respostaUsuario
      ensures respostaUsuario == if botoesDesabilitados then old(respostaUsuario) else ""
    {
      if botoesDesabilitados {
        return;
      }
      respostaUsuario := "";
    }

    /**
     * `verificarResposta`: ignored while locked or with an empty answer;
     * otherwise exactly one of the counters goes up, as `parseInt` of the
     * answer equals the expected product or not, one more question is done,
     * and the next question is asked (which unlocks the keypad again).
     */
    method VerificarResposta(sorteio: seq<(nat, int)>)
      requires Valid() && |tabuadasDisponiveis| > 0
      requires modoAleatorio ==> SorteioValido(sorteio, |tabuadasDisponiveis|)
      modifies this`acertos, this`erros, this`questoesConcluidas
      modifies this`respostaUsuario, this`botoesDesabilitados, this`mensagem, this`jogoFinalizado, this`mensagemCor
      modifies this`numeroAtual, this`multiplicadorAtual, this`respostaCorreta, this`questoesGeradas
      ensures Valid()
      ensures old(botoesDesabilitados) || old(respostaUsuario) == "" ==> unchanged(this)
      ensures !old(botoesDesabilitados) && old(respostaUsuario) != "" ==>
        var certa := ParseInt(old(respostaUsuario)) == Some(old(respostaCorreta));
        acertos == old(acertos) + (if certa then 1 else 0)
        && erros == old(erros) + (if certa then 0 else 1)
        && questoesConcluidas == old(questoesConcluidas) + 1
        && respostaUsuario == "" && !botoesDesabilitados
        && (questoesConcluidas >= TotalQuestoes ==>
              Encerrado() && numeroAtual == old(numeroAtual) && multiplicadorAtual == old(multiplicadorAtual)
              && respostaCorreta == old(respostaCorreta) && questoesGeradas == old(questoesGeradas))
        && (questoesConcluidas < TotalQuestoes ==>
              Perguntou(old(questoesGeradas), sorteio)
              && mensagem == "" && jogoFinalizado == old(jogoFinalizado) && mensagemCor == old(mensagemCor))
    {
      if botoesDesabilitados || respostaUsuario == "" {
        return;
      }
      botoesDesabilitados := true;
      var respostaNumerica := ParseInt(respostaUsuario);
      if respostaNumerica == Some(respostaCorreta) {
        acertos := acertos + 1;
      } else {
        erros := erros + 1;
      }
      questoesConcluidas := questoesConcluidas + 1;
      ProximaQuestao(sorteio);
    }
  }

  /** With all ten questions answered, the game is a success exactly when at least 7 were right, i.e. at most 3 wrong. */
  lemma SucessoSete(acertos: nat, erros: nat)
    requires acertos + erros == TotalQuestoes
    ensures Sucesso(acertos) <==> acertos >= 7
    ensures Sucesso(acertos) <==> erros <= 3
  {
  }
}
