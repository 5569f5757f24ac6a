/**
 * The statistics the history service derives from a list of sessions:
 * the overall figures (totals, rounded rates, the three most practised
 * tables) and the per-player figures (best result, per-table accuracy,
 * the five hardest prompts). Each figure is defined here as a fold over the
 * sessions in storage order, the order in which the service's loops fill
 * its `Map`s, and its meaning is proved as lemmas.
 */
module Estatisticas {
  import opened Wrappers
  import opened Js
  import opened Seqs
  import opened JsMap
  import opened Partidas

  // ---------------------------------------------------------------- sums

  function Acertos(p: Partida): nat { p.acertos }
  function Erros(p: Partida): nat { p.erros }
  function Tempo(p: Partida): nat { p.tempoTotalSegundos }

  /** `partidas.reduce((sum, p) => sum + f(p), 0)`. */
  function Soma(ps: seq<Partida>, f: Partida -> nat): nat
    decreases |ps|
  {
    if ps == [] then 0 else Soma(ps[..|ps| - 1], f) + f(ps[|ps| - 1])
  }

  lemma {:induction false} SomaAppend(a: seq<Partida>, b: seq<Partida>, f: Partida -> nat)
    ensures Soma(a + b, f) == Soma(a, f) + Soma(b, f)
    decreases |b|
  {
    if b == [] {
      assert a + b == a;
    } else {
      assert (a + b)[..|a + b| - 1] == a + b[..|b| - 1];
      SomaAppend(a, b[..|b| - 1], f);
    }
  }

  /** Every session's count is part of the total. */
  lemma {:induction false} SomaLimita(ps: seq<Partida>, f: Partida -> nat, i: nat)
    requires i < |ps|
    ensures f(ps[i]) <= Soma(ps, f)
    decreases |ps|
  {
    if i < |ps| - 1 {
      SomaLimita(ps[..|ps| - 1], f, i);
    }
  }

  // ---------------------------------------------- the most practised tables

  datatype TabuadaVezes = TabuadaVezes(tabuada: int, vezes: nat)

  function Vezes(e: TabuadaVezes): int { e.vezes }

  /** Every session's `tabuadas`, session after session. */
  function TodasTabuadas(ps: seq<Partida>): seq<int>
    decreases |ps|
  {
    if ps == [] then [] else TodasTabuadas(ps[..|ps| - 1]) + ps[|ps| - 1].tabuadas
  }

  /** `tabuadasMap.set(tab, (tabuadasMap.get(tab) || 0) + 1)` for each table in `s`, in order. */
  function ContagemTabuadas(s: seq<int>): seq<(int, nat)>
    decreases |s|
  {
    if s == [] then []
    else
      var m := ContagemTabuadas(s[..|s| - 1]);
      var t := s[|s| - 1];
      Put(m, t, Get(m, t).GetOr(0) + 1)
  }

  /** One more insertion extends a map's keys as one more `add` extends the set of seen values. */
  lemma ChavesPasso<K(!new), V>(m: seq<(K, V)>, init: seq<K>, t: K, v: V)
    requires Keys(m) == Dedup(init)
    ensures Keys(Put(m, t, v)) == Dedup(init + [t])
  {
    PutKeys(m, t, v);
    var u := init + [t];
    assert u[..|u| - 1] == init;
    assert u[|u| - 1] == t;
    assert Dedup(u) == if t in Dedup(init) then Dedup(init) else Dedup(init) + [t];
  }

  /** The counting map's keys are the tables of `s` in order of first appearance. */
  lemma {:induction false} ContagemTabuadasChaves(s: seq<int>)
    ensures Keys(ContagemTabuadas(s)) == Dedup(s)
    decreases |s|
  {
    if s != [] {
      var init, t := s[..|s| - 1], s[|s| - 1];
      ContagemTabuadasChaves(init);
      var m := ContagemTabuadas(init);
      ChavesPasso(m, init, t, Get(m, t).GetOr(0) + 1);
      assert s == init + [t];
    }
  }

  /** The counting map gives each table of `s` its number of occurrences. */
  lemma {:induction false} ContagemTabuadasValores(s: seq<int>)
    ensures forall x :: Get(ContagemTabuadas(s), x) == if x in s then Some(multiset(s)[x]) else None
    decreases |s|
  {
    if s != [] {
      var init, t := s[..|s| - 1], s[|s| - 1];
      assert s == init + [t];
      assert multiset(s) == multiset(init) + multiset{t};
      ContagemTabuadasValores(init);
      var m := ContagemTabuadas(init);
      var c := Get(m, t).GetOr(0);
      assert c == multiset(init)[t];
      var m' := ContagemTabuadas(s);
      assert m' == Put(m, t, c + 1);
      forall x ensures Get(m', x) == if x in s then Some(multiset(s)[x]) else None {
        if x == t {
          PutSame(m, t, c + 1);
        } else {
          PutOther(m, t, c + 1, x);
          assert x in s <==> x in init;
        }
      }
    }
  }

  /** `Array.from(tabuadasMap.entries()).map(([tabuada, vezes]) => ({ tabuada, vezes }))`. */
  function Entradas(m: seq<(int, nat)>): (r: seq<TabuadaVezes>)
    ensures |r| == |m|
  {
    seq(|m|, i requires 0 <= i < |m| => TabuadaVezes(m[i].0, m[i].1))
  }

  function TabuadasDe(r: seq<TabuadaVezes>): seq<int> {
    seq(|r|, i requires 0 <= i < |r| => r[i].tabuada)
  }

  /** The entries, in order of first appearance, before sorting. */
  function OrdemTabuadas(ps: seq<Partida>): seq<TabuadaVezes> {
    Entradas(ContagemTabuadas(TodasTabuadas(ps)))
  }

  /**
   * The entries list every table practised exactly once, in order of first
   * appearance, each with its number of occurrences.
   */
  lemma OrdemTabuadasCorreta(ps: seq<Partida>)
    ensures TabuadasDe(OrdemTabuadas(ps)) == Dedup(TodasTabuadas(ps))
    ensures forall e :: e in OrdemTabuadas(ps) <==> e.tabuada in TodasTabuadas(ps) && e.vezes == multiset(TodasTabuadas(ps))[e.tabuada]
    ensures Distinct(OrdemTabuadas(ps))
  {
    var s := TodasTabuadas(ps);
    var m := ContagemTabuadas(s);
    var r := OrdemTabuadas(ps);
    ContagemTabuadasChaves(s);
    ContagemTabuadasValores(s);
    assert TabuadasDe(r) == Keys(m);
    forall e | e in r ensures e.tabuada in s && e.vezes == multiset(s)[e.tabuada] {
      var i :| 0 <= i < |r| && r[i] == e;
      assert Keys(m)[i] == e.tabuada;
      GetEntry(m, e.tabuada, e.vezes);
    }
    forall t | t in s ensures TabuadaVezes(t, multiset(s)[t]) in r {
      assert t in Keys(m);
      var i :| 0 <= i < |m| && Keys(m)[i] == t;
      GetEntry(m, t, m[i].1);
      assert r[i] == TabuadaVezes(t, multiset(s)[t]);
    }
    forall i, j | 0 <= i < j < |r| ensures r[i] != r[j] {
      assert Keys(m)[i] != Keys(m)[j];
    }
  }

  /**
   * `tabuadasMaisPraticadas`: the entries sorted by `vezes`, highest first
   * (a stable sort), then `slice(0, 3)`.
   */
  function MaisPraticadas(ps: seq<Partida>): seq<TabuadaVezes> {
    Take(SortDesc(OrdemTabuadas(ps), Vezes), 3)
  }

  /**
   * At most three entries, by non-increasing `vezes`, each a practised table
   * with its number of occurrences across all sessions, each table once.
   */
  lemma MaisPraticadasContagens(ps: seq<Partida>)
    ensures |MaisPraticadas(ps)| <= 3
    ensures NonIncreasing(MaisPraticadas(ps), Vezes)
    ensures forall i :: 0 <= i < |MaisPraticadas(ps)| ==>
      MaisPraticadas(ps)[i].tabuada in TodasTabuadas(ps) &&
      MaisPraticadas(ps)[i].vezes == multiset(TodasTabuadas(ps))[MaisPraticadas(ps)[i].tabuada]
  {
    var o := OrdemTabuadas(ps);
    var sorted := SortDesc(o, Vezes);
    var r := MaisPraticadas(ps);
    OrdemTabuadasCorreta(ps);
    forall i | 0 <= i < |r| ensures r[i] in o {
      assert r[i] == sorted[i];
      assert sorted[i] in multiset(o);
    }
  }

  /** No table is listed twice among the three. */
  lemma MaisPraticadasDistintas(ps: seq<Partida>)
    ensures forall i, j :: 0 <= i < j < |MaisPraticadas(ps)| ==> MaisPraticadas(ps)[i].tabuada != MaisPraticadas(ps)[j].tabuada
  {
    var o := OrdemTabuadas(ps);
    var sorted := SortDesc(o, Vezes);
    var r := MaisPraticadas(ps);
    OrdemTabuadasCorreta(ps);
    SortDescDistinct(o, Vezes);
    forall i, j | 0 <= i < j < |r| ensures r[i].tabuada != r[j].tabuada {
      assert r[i] == sorted[i] && r[j] == sorted[j];
      assert sorted[i] != sorted[j];
      assert sorted[i] in multiset(o) && sorted[j] in multiset(o);
    }
  }

  /** No table left out of the three occurs more often than any table kept. */
  lemma MaisPraticadasCompleta(ps: seq<Partida>, t: int)
    requires t in TodasTabuadas(ps) && t !in TabuadasDe(MaisPraticadas(ps))
    ensures |MaisPraticadas(ps)| == 3
    ensures forall i :: 0 <= i < 3 ==> MaisPraticadas(ps)[i].vezes >= multiset(TodasTabuadas(ps))[t]
  {
    var r := MaisPraticadas(ps);
    var e := TabuadaVezes(t, multiset(TodasTabuadas(ps))[t]);
    OrdemTabuadasCorreta(ps);
    forall i | 0 <= i < |r| ensures r[i] != e {
      assert TabuadasDe(r)[i] == r[i].tabuada;
    }
    TakeSortDescCompleto(OrdemTabuadas(ps), Vezes, 3, e);
  }

  /**
   * Ties keep first-encountered order: for every count, the entries kept
   * with that count are the first entries with that count in order of
   * first appearance.
   */
  lemma MaisPraticadasEmpates(ps: seq<Partida>, v: int)
    ensures WithKey(MaisPraticadas(ps), Vezes, v) <= WithKey(OrdemTabuadas(ps), Vezes, v)
  {
    WithKeyTake(SortDesc(OrdemTabuadas(ps), Vezes), 3, Vezes, v);
    SortDescStable(OrdemTabuadas(ps), Vezes, v);
  }

  // ------------------------------------------------------ overall figures

  datatype Gerais = Gerais(
    totalPartidas: nat,
    taxaAcertoMedia: nat,
    tempoMedioPorQuestao: nat,
    tabuadasMaisPraticadas: seq<TabuadaVezes>)

  /** `total > 0 ? Math.round((corretos / total) * 100) : 0`. */
  function Taxa(corretos: nat, total: nat): (r: nat)
    ensures corretos <= total ==> r <= 100
    ensures total > 0 ==> 2 * total * r <= 2 * (100 * corretos) + total < 2 * total * r + 2 * total
  {
    if total > 0 then PercentBounds(corretos, total); Percent(corretos, total) else 0
  }

  /** `totalCorretos + totalIncorretos`. */
  function TotalQuestoes(ps: seq<Partida>): nat {
    Soma(ps, Acertos) + Soma(ps, Erros)
  }

  /**
   * `taxaAcertoMedia`: the correct answers' percentage of all answers,
   * rounded to the nearest integer with halves going up; 0 when nothing was
   * answered.
   */
  function TaxaAcertoMedia(ps: seq<Partida>): (r: nat)
    ensures r <= 100
    ensures TotalQuestoes(ps) == 0 ==> r == 0
    ensures var t := TotalQuestoes(ps);
      t > 0 ==> 2 * t * r <= 2 * (100 * Soma(ps, Acertos)) + t < 2 * t * r + 2 * t
  {
    Taxa(Soma(ps, Acertos), TotalQuestoes(ps))
  }

  /**
   * `tempoMedioPorQuestao`: the total time per answer, rounded to the
   * nearest integer with halves going up; 0 when nothing was answered.
   */
  function TempoMedio(ps: seq<Partida>): (r: nat)
    ensures TotalQuestoes(ps) == 0 ==> r == 0
    ensures var t := TotalQuestoes(ps);
      t > 0 ==> 2 * t * r <= 2 * Soma(ps, Tempo) + t < 2 * t * r + 2 * t
  {
    var t := TotalQuestoes(ps);
    if t > 0 then RoundRatio(Soma(ps, Tempo), t) else 0
  }

  /** `getEstatisticasGerais` over the sessions it selected. */
  function EstatisticasGerais(ps: seq<Partida>): (r: Gerais)
    ensures ps == [] ==> r == Gerais(0, 0, 0, [])
    ensures ps != [] ==> r.totalPartidas == |ps| && r.taxaAcertoMedia <= 100 && |r.tabuadasMaisPraticadas| <= 3
  {
    if |ps| == 0 then Gerais(0, 0, 0, [])
    else
      MaisPraticadasContagens(ps);
      Gerais(|ps|, TaxaAcertoMedia(ps), TempoMedio(ps), MaisPraticadas(ps))
  }

  // ------------------------------------------------------ best result

  /** A session's score, `Math.round((corretos / (corretos + incorretos)) * 100)`; `None` is the `NaN` of 0 / 0. */
  function Resultado(p: Partida): Option<nat> {
    if p.acertos + p.erros == 0 then None else Some(Percent(p.acertos, p.acertos + p.erros))
  }

  /**
   * `Math.max(...scores)`: `NaN` as soon as one score is `NaN`, otherwise the
   * highest score, which some session reached.
   */
  function Melhor(ps: seq<Partida>): (r: Option<nat>)
    requires ps != []
    ensures r.None? <==> exists i :: 0 <= i < |ps| && ps[i].acertos + ps[i].erros == 0
    ensures r.Some? ==> exists i :: 0 <= i < |ps| && Resultado(ps[i]) == r
    ensures r.Some? ==> forall i :: 0 <= i < |ps| ==> Resultado(ps[i]).value <= r.value <= 100
    decreases |ps|
  {
    var p := ps[|ps| - 1];
    assert Resultado(p).Some? ==> Resultado(p).value <= 100 by {
      if p.acertos + p.erros != 0 { PercentBounds(p.acertos, p.acertos + p.erros); }
    }
    if |ps| == 1 then Resultado(p)
    else
      var init := ps[..|ps| - 1];
      var m := Melhor(init);
      assert forall i :: 0 <= i < |init| ==> ps[i] == init[i];
      if m.None? || Resultado(p).None? then None
      else if m.value >= Resultado(p).value then m
      else Resultado(p)
  }

  // ------------------------------------------------------ per-table figures

  /** A tally of answers: `{ corretos, incorretos }`. */
  datatype Contagem = Contagem(corretos: nat, incorretos: nat)

  const Vazia := Contagem(0, 0)

  /** The number of questions in `qs` whose first operand is `tab` and whose correctness is `correta`. */
  function Contadas(qs: seq<Questao>, tab: int, correta: bool): nat
    decreases |qs|
  {
    if qs == [] then 0
    else
      var q := qs[|qs| - 1];
      Contadas(qs[..|qs| - 1], tab, correta) + if PrimeiroOperando(q.pergunta) == Some(tab) && q.correta == correta then 1 else 0
  }

  /** `k * c`, by repeated addition, so that the proofs about tallies stay linear. */
  function Mult(k: nat, c: nat): nat
    decreases k
  {
    if k == 0 then 0 else Mult(k - 1, c) + c
  }

  lemma {:induction false} MultProduto(k: nat, c: nat)
    ensures Mult(k, c) == k * c
    decreases k
  {
    if k > 0 {
      MultProduto(k - 1, c);
    }
  }

  /** `k` passes of the question loop for table `tab` over `qs`, starting from `st`. */
  function Acrescentar(st: Contagem, k: nat, qs: seq<Questao>, tab: int): Contagem {
    Contagem(st.corretos + Mult(k, Contadas(qs, tab, true)), st.incorretos + Mult(k, Contadas(qs, tab, false)))
  }

  /**
   * The middle and inner loops for one session: for every table it lists,
   * fetch the table's tally (a fresh one if absent), count the session's
   * questions of that table into it, and store it back.
   */
  function PassoTabuadas(m: seq<(int, Contagem)>, tabs: seq<int>, qs: seq<Questao>): seq<(int, Contagem)>
    decreases |tabs|
  {
    if tabs == [] then m
    else
      var m' := PassoTabuadas(m, tabs[..|tabs| - 1], qs);
      var t := tabs[|tabs| - 1];
      Put(m', t, Acrescentar(Get(m', t).GetOr(Vazia), 1, qs, t))
  }

  /** `tabuadasMap` after the outer loop over the sessions. */
  function MapaTabuadas(ps: seq<Partida>): seq<(int, Contagem)>
    decreases |ps|
  {
    if ps == [] then []
    else
      var p := ps[|ps| - 1];
      PassoTabuadas(MapaTabuadas(ps[..|ps| - 1]), p.tabuadas, p.questoes)
  }

  /**
   * The answers of the given correctness that count towards table `t`: each
   * session contributes its questions of table `t` once for every time it
   * lists `t`.
   */
  function RespostasDaTabuada(ps: seq<Partida>, t: int, correta: bool): nat
    decreases |ps|
  {
    if ps == [] then 0
    else
      var p := ps[|ps| - 1];
      RespostasDaTabuada(ps[..|ps| - 1], t, correta) + Mult(multiset(p.tabuadas)[t], Contadas(p.questoes, t, correta))
  }

  lemma {:induction false} PassoTabuadasChaves(m: seq<(int, Contagem)>, a: seq<int>, tabs: seq<int>, qs: seq<Questao>)
    requires Keys(m) == Dedup(a)
    ensures Keys(PassoTabuadas(m, tabs, qs)) == Dedup(a + tabs)
    decreases |tabs|
  {
    if tabs == [] {
      assert a + tabs == a;
    } else {
      var init, t := tabs[..|tabs| - 1], tabs[|tabs| - 1];
      assert tabs == init + [t];
      assert (a + init) + [t] == a + tabs;
      PassoTabuadasChaves(m, a, init, qs);
      var m' := PassoTabuadas(m, init, qs);
      var st := Acrescentar(Get(m', t).GetOr(Vazia), 1, qs, t);
      assert PassoTabuadas(m, tabs, qs) == Put(m', t, st);
      ChavesPasso(m', a + init, t, st);
    }
  }

  lemma AcrescentarMais(st: Contagem, k: nat, qs: seq<Questao>, tab: int)
    ensures Acrescentar(Acrescentar(st, k, qs, tab), 1, qs, tab) == Acrescentar(st, k + 1, qs, tab)
  {
  }

  /** The value table `x` has after the loops of one session listing `tabs`, when it had `antes` before. */
  function ValorApos(antes: Option<Contagem>, tabs: seq<int>, qs: seq<Questao>, x: int): Option<Contagem> {
    if x in tabs then Some(Acrescentar(antes.GetOr(Vazia), multiset(tabs)[x], qs, x)) else antes
  }

  lemma ValorMesmaTabuada(m: seq<(int, Contagem)>, m': seq<(int, Contagem)>, init: seq<int>, t: int, qs: seq<Questao>)
    requires Get(m', t) == ValorApos(Get(m, t), init, qs, t)
    ensures Get(Put(m', t, Acrescentar(Get(m', t).GetOr(Vazia), 1, qs, t)), t) == ValorApos(Get(m, t), init + [t], qs, t)
  {
    var st := Acrescentar(Get(m', t).GetOr(Vazia), 1, qs, t);
    PutSame(m', t, st);
    assert multiset(init + [t])[t] == multiset(init)[t] + 1;
    var base := Get(m, t).GetOr(Vazia);
    if t in init {
      AcrescentarMais(base, multiset(init)[t], qs, t);
    }
  }

  lemma ValorOutraTabuada(m: seq<(int, Contagem)>, m': seq<(int, Contagem)>, init: seq<int>, t: int, st: Contagem, qs: seq<Questao>, x: int)
    requires x != t && Get(m', x) == ValorApos(Get(m, x), init, qs, x)
    ensures Get(Put(m', t, st), x) == ValorApos(Get(m, x), init + [t], qs, x)
  {
    PutOther(m', t, st, x);
    assert x in init + [t] <==> x in init;
    assert multiset(init + [t])[x] == multiset(init)[x];
  }

  /** One session's loops add, to every table it lists, its questions of that table once per listing. */
  lemma {:induction false} PassoTabuadasValor(m: seq<(int, Contagem)>, tabs: seq<int>, qs: seq<Questao>, x: int)
    ensures Get(PassoTabuadas(m, tabs, qs), x) == ValorApos(Get(m, x), tabs, qs, x)
    decreases |tabs|
  {
    if tabs != [] {
      var init, t := tabs[..|tabs| - 1], tabs[|tabs| - 1];
      assert tabs == init + [t];
      var m' := PassoTabuadas(m, init, qs);
      var st := Acrescentar(Get(m', t).GetOr(Vazia), 1, qs, t);
      assert PassoTabuadas(m, tabs, qs) == Put(m', t, st);
      if x == t {
        PassoTabuadasValor(m, init, qs, t);
        ValorMesmaTabuada(m, m', init, t, qs);
      } else {
        PassoTabuadasValor(m, init, qs, x);
        ValorOutraTabuada(m, m', init, t, st, qs, x);
      }
    }
  }

  lemma {:induction false} RespostasDaTabuadaAusente(ps: seq<Partida>, t: int, correta: bool)
    requires t !in TodasTabuadas(ps)
    ensures RespostasDaTabuada(ps, t, correta) == 0
    decreases |ps|
  {
    if ps != [] {
      var init := ps[..|ps| - 1];
      assert TodasTabuadas(ps) == TodasTabuadas(init) + ps[|ps| - 1].tabuadas;
      RespostasDaTabuadaAusente(init, t, correta);
    }
  }

  /** The per-table map lists the practised tables in order of first appearance. */
  lemma {:induction false} MapaTabuadasChaves(ps: seq<Partida>)
    ensures Keys(MapaTabuadas(ps)) == Dedup(TodasTabuadas(ps))
    decreases |ps|
  {
    if ps != [] {
      var init, p := ps[..|ps| - 1], ps[|ps| - 1];
      MapaTabuadasChaves(init);
      PassoTabuadasChaves(MapaTabuadas(init), TodasTabuadas(init), p.tabuadas, p.questoes);
    }
  }

  /** The value a table has in the per-table map after the sessions `ps`. */
  function ValorEsperado(ps: seq<Partida>, x: int): Option<Contagem> {
    if x in TodasTabuadas(ps) then Some(Contagem(RespostasDaTabuada(ps, x, true), RespostasDaTabuada(ps, x, false))) else None
  }

  lemma RespostasDaTabuadaPasso(ps: seq<Partida>, x: int, correta: bool)
    requires ps != []
    ensures RespostasDaTabuada(ps, x, correta) == RespostasDaTabuada(ps[..|ps| - 1], x, correta) +
      Mult(multiset(ps[|ps| - 1].tabuadas)[x], Contadas(ps[|ps| - 1].questoes, x, correta))
    ensures TodasTabuadas(ps) == TodasTabuadas(ps[..|ps| - 1]) + ps[|ps| - 1].tabuadas
  {
  }

  /** Table `x`'s tally after the sessions `ps`, computed from the tally before the last one. */
  function Novo(ps: seq<Partida>, x: int): Contagem
    requires ps != []
  {
    var init, p := ps[..|ps| - 1], ps[|ps| - 1];
    Contagem(RespostasDaTabuada(init, x, true) + Mult(multiset(p.tabuadas)[x], Contadas(p.questoes, x, true)),
             RespostasDaTabuada(init, x, false) + Mult(multiset(p.tabuadas)[x], Contadas(p.questoes, x, false)))
  }

  lemma EsperadoNovo(ps: seq<Partida>, x: int)
    requires ps != [] && x in ps[|ps| - 1].tabuadas
    ensures ValorEsperado(ps, x) == Some(Novo(ps, x))
  {
    RespostasDaTabuadaPasso(ps, x, true);
    RespostasDaTabuadaPasso(ps, x, false);
  }

  lemma AposNovo(ps: seq<Partida>, x: int)
    requires ps != [] && x in ps[|ps| - 1].tabuadas
    ensures ValorApos(ValorEsperado(ps[..|ps| - 1], x), ps[|ps| - 1].tabuadas, ps[|ps| - 1].questoes, x) == Some(Novo(ps, x))
  {
    var init := ps[..|ps| - 1];
    var base := Contagem(RespostasDaTabuada(init, x, true), RespostasDaTabuada(init, x, false));
    AnteriorOuVazia(init, x);
    assert ValorEsperado(init, x).GetOr(Vazia) == base;
  }

  /** A table's tally so far, or a fresh one: `tabuadasMap.get(tab) || { corretos: 0, incorretos: 0 }`. */
  lemma AnteriorOuVazia(ps: seq<Partida>, x: int)
    ensures ValorEsperado(ps, x).GetOr(Vazia) == Contagem(RespostasDaTabuada(ps, x, true), RespostasDaTabuada(ps, x, false))
  {
    if x !in TodasTabuadas(ps) {
      RespostasDaTabuadaAusente(ps, x, true);
      RespostasDaTabuadaAusente(ps, x, false);
    }
  }

  lemma ValorEsperadoAusente(ps: seq<Partida>, x: int)
    requires ps != [] && x !in ps[|ps| - 1].tabuadas
    ensures ValorEsperado(ps, x) == ValorEsperado(ps[..|ps| - 1], x)
  {
    var p := ps[|ps| - 1];
    RespostasDaTabuadaPasso(ps, x, true);
    RespostasDaTabuadaPasso(ps, x, false);
    assert multiset(p.tabuadas)[x] == 0;
  }

  /** The per-table map gives each practised table its correct and incorrect answers. */
  lemma {:induction false} MapaTabuadasValor(ps: seq<Partida>, x: int)
    ensures Get(MapaTabuadas(ps), x) == ValorEsperado(ps, x)
    decreases |ps|
  {
    if ps != [] {
      var init, p := ps[..|ps| - 1], ps[|ps| - 1];
      MapaTabuadasValor(init, x);
      PassoTabuadasValor(MapaTabuadas(init), p.tabuadas, p.questoes, x);
      if x in p.tabuadas {
        EsperadoNovo(ps, x);
        AposNovo(ps, x);
      } else {
        ValorEsperadoAusente(ps, x);
      }
    }
  }

  // ------------------------------------------- tables practised by a player

  datatype TabuadaPraticada = TabuadaPraticada(tabuada: int, vezes: nat, taxaAcerto: nat)

  function VezesPraticada(e: TabuadaPraticada): int { e.vezes }

  /** `{ tabuada, vezes: total, taxaAcerto }` built from a table's tally. */
  function Praticada(t: int, st: Contagem): TabuadaPraticada {
    TabuadaPraticada(t, st.corretos + st.incorretos, Taxa(st.corretos, st.corretos + st.incorretos))
  }

  /** `Array.from(tabuadasMap.entries()).map(...)`. */
  function Praticadas(m: seq<(int, Contagem)>): (r: seq<TabuadaPraticada>)
    ensures |r| == |m|
  {
    seq(|m|, i requires 0 <= i < |m| => Praticada(m[i].0, m[i].1))
  }

  /** `tabuadasPraticadas`: the per-table entries, most answered first. */
  function TabuadasPraticadas(ps: seq<Partida>): seq<TabuadaPraticada> {
    SortDesc(Praticadas(MapaTabuadas(ps)), VezesPraticada)
  }

  /** The entry table `t` is meant to get after the sessions `ps`. */
  function PraticadaEsperada(ps: seq<Partida>, t: int): TabuadaPraticada {
    Praticada(t, Contagem(RespostasDaTabuada(ps, t, true), RespostasDaTabuada(ps, t, false)))
  }

  lemma MapaTabuadasDistinto(ps: seq<Partida>)
    ensures Distinct(Keys(MapaTabuadas(ps)))
  {
    MapaTabuadasChaves(ps);
  }

  /** Before sorting, the entries are exactly the practised tables, each with its counts and rounded accuracy. */
  lemma PraticadasEntradas(ps: seq<Partida>)
    ensures forall e :: e in Praticadas(MapaTabuadas(ps)) <==> e.tabuada in TodasTabuadas(ps) && e == PraticadaEsperada(ps, e.tabuada)
  {
    var m := MapaTabuadas(ps);
    var r := Praticadas(m);
    MapaTabuadasChaves(ps);
    forall e | e in r ensures e.tabuada in TodasTabuadas(ps) && e == PraticadaEsperada(ps, e.tabuada) {
      var i :| 0 <= i < |r| && r[i] == e;
      assert Keys(m)[i] == e.tabuada;
      GetEntry(m, m[i].0, m[i].1);
      MapaTabuadasValor(ps, m[i].0);
    }
    forall t | t in TodasTabuadas(ps) ensures PraticadaEsperada(ps, t) in r {
      assert t in Keys(m);
      var i :| 0 <= i < |m| && Keys(m)[i] == t;
      GetEntry(m, t, m[i].1);
      MapaTabuadasValor(ps, t);
      assert r[i] == PraticadaEsperada(ps, t);
    }
  }

  /** Before sorting, no table has two entries. */
  lemma PraticadasDistintas(ps: seq<Partida>)
    ensures forall i, j :: 0 <= i < j < |Praticadas(MapaTabuadas(ps))| ==>
      Praticadas(MapaTabuadas(ps))[i].tabuada != Praticadas(MapaTabuadas(ps))[j].tabuada
  {
    var m := MapaTabuadas(ps);
    MapaTabuadasDistinto(ps);
    forall i, j | 0 <= i < j < |m| ensures Praticadas(m)[i].tabuada != Praticadas(m)[j].tabuada {
      assert Keys(m)[i] != Keys(m)[j];
    }
  }

  /**
   * `tabuadasPraticadas` is sorted by `vezes`, highest first, and lists
   * every practised table exactly once with its answers and rounded accuracy.
   */
  lemma TabuadasPraticadasCorreta(ps: seq<Partida>)
    ensures NonIncreasing(TabuadasPraticadas(ps), VezesPraticada)
    ensures forall e :: e in TabuadasPraticadas(ps) <==> e.tabuada in TodasTabuadas(ps) && e == PraticadaEsperada(ps, e.tabuada)
    ensures forall e :: e in TabuadasPraticadas(ps) ==> e.taxaAcerto <= 100
  {
    var o := Praticadas(MapaTabuadas(ps));
    var r := TabuadasPraticadas(ps);
    PraticadasEntradas(ps);
    forall e ensures e in r <==> e in o {
      assert e in r <==> e in multiset(r);
    }
  }

  /** `tabuadasPraticadas` lists no table twice. */
  lemma TabuadasPraticadasDistintas(ps: seq<Partida>)
    ensures forall i, j :: 0 <= i < j < |TabuadasPraticadas(ps)| ==> TabuadasPraticadas(ps)[i].tabuada != TabuadasPraticadas(ps)[j].tabuada
  {
    var o := Praticadas(MapaTabuadas(ps));
    var r := TabuadasPraticadas(ps);
    PraticadasDistintas(ps);
    assert Distinct(o);
    SortDescDistinct(o, VezesPraticada);
    TabuadasPraticadasCorreta(ps);
    forall i, j | 0 <= i < j < |r| ensures r[i].tabuada != r[j].tabuada {
      assert r[i] in r && r[j] in r;
    }
  }

  // ---------------------------------------------------- the hardest prompts

  datatype QuestaoDificil = QuestaoDificil(pergunta: string, taxaAcerto: nat)

  /** Every session's questions, session after session. */
  function TodasQuestoes(ps: seq<Partida>): seq<Questao>
    decreases |ps|
  {
    if ps == [] then [] else TodasQuestoes(ps[..|ps| - 1]) + ps[|ps| - 1].questoes
  }

  function Perguntas(qs: seq<Questao>): (r: seq<string>)
    ensures |r| == |qs|
  {
    seq(|qs|, i requires 0 <= i < |qs| => qs[i].pergunta)
  }

  /** `stats.corretos++` or `stats.incorretos++`. */
  function Marcar(st: Contagem, correta: bool): Contagem {
    if correta then st.(corretos := st.corretos + 1) else st.(incorretos := st.incorretos + 1)
  }

  /** `questoesMap` after the loops: each question's tally, keyed by its prompt text. */
  function MapaQuestoes(qs: seq<Questao>): seq<(string, Contagem)>
    decreases |qs|
  {
    if qs == [] then []
    else
      var m := MapaQuestoes(qs[..|qs| - 1]);
      var q := qs[|qs| - 1];
      Put(m, q.pergunta, Marcar(Get(m, q.pergunta).GetOr(Vazia), q.correta))
  }

  lemma PerguntasUltima(qs: seq<Questao>)
    requires qs != []
    ensures Perguntas(qs) == Perguntas(qs[..|qs| - 1]) + [qs[|qs| - 1].pergunta]
  {
  }

  /** The number of questions in `qs` with prompt `x` and the given correctness. */
  function Respostas(qs: seq<Questao>, x: string, correta: bool): nat
    decreases |qs|
  {
    if qs == [] then 0
    else Respostas(qs[..|qs| - 1], x, correta) + if qs[|qs| - 1] == Questao(x, correta) then 1 else 0
  }

  /** The tally prompt `x` is meant to have after the questions `qs`. */
  function TallyPergunta(qs: seq<Questao>, x: string): Contagem {
    Contagem(Respostas(qs, x, true), Respostas(qs, x, false))
  }

  /** The question map's keys are the prompts in order of first appearance. */
  lemma {:induction false} MapaQuestoesChaves(qs: seq<Questao>)
    ensures Keys(MapaQuestoes(qs)) == Dedup(Perguntas(qs))
    decreases |qs|
  {
    if qs != [] {
      var init, q := qs[..|qs| - 1], qs[|qs| - 1];
      MapaQuestoesChaves(init);
      var m := MapaQuestoes(init);
      PerguntasUltima(qs);
      ChavesPasso(m, Perguntas(init), q.pergunta, Marcar(Get(m, q.pergunta).GetOr(Vazia), q.correta));
    }
  }

  lemma {:induction false} RespostasAusente(qs: seq<Questao>, x: string, correta: bool)
    requires x !in Perguntas(qs)
    ensures Respostas(qs, x, correta) == 0
    decreases |qs|
  {
    if qs != [] {
      PerguntasUltima(qs);
      RespostasAusente(qs[..|qs| - 1], x, correta);
    }
  }

  /** The value prompt `x` has in the question map after the questions `qs`. */
  function PerguntaEsperada(qs: seq<Questao>, x: string): Option<Contagem> {
    if x in Perguntas(qs) then Some(TallyPergunta(qs, x)) else None
  }

  lemma PerguntaEsperadaOuVazia(qs: seq<Questao>, x: string)
    ensures PerguntaEsperada(qs, x).GetOr(Vazia) == TallyPergunta(qs, x)
  {
    if x !in Perguntas(qs) {
      RespostasAusente(qs, x, true);
      RespostasAusente(qs, x, false);
    }
  }

  lemma PerguntaEsperadaMesma(qs: seq<Questao>)
    requires qs != []
    ensures PerguntaEsperada(qs, qs[|qs| - 1].pergunta) ==
      Some(Marcar(TallyPergunta(qs[..|qs| - 1], qs[|qs| - 1].pergunta), qs[|qs| - 1].correta))
  {
    PerguntasUltima(qs);
  }

  lemma PerguntaEsperadaOutra(qs: seq<Questao>, x: string)
    requires qs != [] && x != qs[|qs| - 1].pergunta
    ensures PerguntaEsperada(qs, x) == PerguntaEsperada(qs[..|qs| - 1], x)
  {
    PerguntasUltima(qs);
  }

  /** The question map gives each prompt its correct and incorrect answers. */
  lemma {:induction false} MapaQuestoesValor(qs: seq<Questao>, x: string)
    ensures Get(MapaQuestoes(qs), x) == PerguntaEsperada(qs, x)
    decreases |qs|
  {
    if qs != [] {
      var init, q := qs[..|qs| - 1], qs[|qs| - 1];
      var m := MapaQuestoes(init);
      var st := Marcar(Get(m, q.pergunta).GetOr(Vazia), q.correta);
      assert MapaQuestoes(qs) == Put(m, q.pergunta, st);
      if x == q.pergunta {
        MapaQuestoesValor(init, x);
        PerguntaEsperadaOuVazia(init, x);
        PutSame(m, x, st);
        PerguntaEsperadaMesma(qs);
      } else {
        MapaQuestoesValor(init, x);
        PutOther(m, q.pergunta, st, x);
        PerguntaEsperadaOutra(qs, x);
      }
    }
  }

  /** `{ pergunta, taxaAcerto }` built from a prompt's tally. */
  function Dificil(x: string, st: Contagem): QuestaoDificil {
    QuestaoDificil(x, Taxa(st.corretos, st.corretos + st.incorretos))
  }

  function Avaliadas(m: seq<(string, Contagem)>): (r: seq<QuestaoDificil>)
    ensures |r| == |m|
  {
    seq(|m|, i requires 0 <= i < |m| => Dificil(m[i].0, m[i].1))
  }

  /** `.filter(q => q.taxaAcerto < 80)`. */
  predicate AbaixoDoLimite(q: QuestaoDificil) { q.taxaAcerto < 80 }

  /** The comparator `a.taxaAcerto - b.taxaAcerto` sorts ascending: highest `-taxaAcerto` first. */
  function TaxaOposta(q: QuestaoDificil): int { var t: int := q.taxaAcerto; -t }

  /** `questoesDificeis`: at most five prompts under 80% accuracy, lowest accuracy first. */
  function QuestoesDificeis(ps: seq<Partida>): seq<QuestaoDificil> {
    Take(SortDesc(Filter(Avaliadas(MapaQuestoes(TodasQuestoes(ps))), AbaixoDoLimite), TaxaOposta), 5)
  }

  /** The entry prompt `x` is meant to get after the questions `qs`. */
  function DificilEsperada(qs: seq<Questao>, x: string): QuestaoDificil {
    Dificil(x, TallyPergunta(qs, x))
  }

  /** Before filtering, the entries are exactly the prompts asked, each with its rounded accuracy. */
  lemma AvaliadasEntradas(qs: seq<Questao>)
    ensures forall e :: e in Avaliadas(MapaQuestoes(qs)) <==> e.pergunta in Perguntas(qs) && e == DificilEsperada(qs, e.pergunta)
  {
    var m := MapaQuestoes(qs);
    var r := Avaliadas(m);
    MapaQuestoesChaves(qs);
    forall e | e in r ensures e.pergunta in Perguntas(qs) && e == DificilEsperada(qs, e.pergunta) {
      var i :| 0 <= i < |r| && r[i] == e;
      assert Keys(m)[i] == e.pergunta;
      GetEntry(m, m[i].0, m[i].1);
      MapaQuestoesValor(qs, m[i].0);
    }
    forall x | x in Perguntas(qs) ensures DificilEsperada(qs, x) in r {
      assert x in Keys(m);
      var i :| 0 <= i < |m| && Keys(m)[i] == x;
      GetEntry(m, x, m[i].1);
      MapaQuestoesValor(qs, x);
      assert r[i] == DificilEsperada(qs, x);
    }
  }

  /** The candidates of the hardest-prompt list: the prompts asked whose accuracy is under 80. */
  lemma CandidatasEntradas(qs: seq<Questao>)
    ensures forall e :: e in Filter(Avaliadas(MapaQuestoes(qs)), AbaixoDoLimite) <==>
      e.pergunta in Perguntas(qs) && e == DificilEsperada(qs, e.pergunta) && e.taxaAcerto < 80
  {
    var a := Avaliadas(MapaQuestoes(qs));
    var f := Filter(a, AbaixoDoLimite);
    AvaliadasEntradas(qs);
    forall e ensures e in f <==> e in a && e.taxaAcerto < 80 {
      assert e in f <==> e in multiset(f);
      assert e in a <==> e in multiset(a);
    }
  }

  /**
   * `questoesDificeis` holds at most five prompts that were asked, each with
   * its rounded accuracy, which is under 80, in ascending order of accuracy.
   */
  lemma QuestoesDificeisCorreta(ps: seq<Partida>)
    ensures |QuestoesDificeis(ps)| <= 5
    ensures forall i, j :: 0 <= i < j < |QuestoesDificeis(ps)| ==> QuestoesDificeis(ps)[i].taxaAcerto <= QuestoesDificeis(ps)[j].taxaAcerto
    ensures forall e :: e in QuestoesDificeis(ps) ==>
      e.pergunta in Perguntas(TodasQuestoes(ps)) && e == DificilEsperada(TodasQuestoes(ps), e.pergunta) && e.taxaAcerto < 80
  {
    var qs := TodasQuestoes(ps);
    var f := Filter(Avaliadas(MapaQuestoes(qs)), AbaixoDoLimite);
    var o := SortDesc(f, TaxaOposta);
    var r := QuestoesDificeis(ps);
    CandidatasEntradas(qs);
    forall e | e in r ensures e in f {
      var i :| 0 <= i < |r| && r[i] == e;
      assert o[i] == e;
      assert e in multiset(o);
    }
    forall i, j | 0 <= i < j < |r| ensures r[i].taxaAcerto <= r[j].taxaAcerto {
      assert TaxaOposta(o[i]) >= TaxaOposta(o[j]);
    }
  }

  /**
   * No prompt under 80% left out of the list is harder than one kept: when
   * one is left out, the list is full and every entry's accuracy is at most its.
   */
  lemma QuestoesDificeisCompleta(ps: seq<Partida>, x: string)
    requires x in Perguntas(TodasQuestoes(ps)) && DificilEsperada(TodasQuestoes(ps), x).taxaAcerto < 80
    requires DificilEsperada(TodasQuestoes(ps), x) !in QuestoesDificeis(ps)
    ensures |QuestoesDificeis(ps)| == 5
    ensures forall i :: 0 <= i < 5 ==> QuestoesDificeis(ps)[i].taxaAcerto <= DificilEsperada(TodasQuestoes(ps), x).taxaAcerto
  {
    var qs := TodasQuestoes(ps);
    var f := Filter(Avaliadas(MapaQuestoes(qs)), AbaixoDoLimite);
    CandidatasEntradas(qs);
    TakeSortDescCompleto(f, TaxaOposta, 5, DificilEsperada(qs, x));
  }

  // ---------------------------------------------------- per-player figures

  datatype PorJogador = PorJogador(
    totalPartidas: nat,
    taxaAcerto: nat,
    melhorResultado: Option<nat>,
    tabuadasPraticadas: seq<TabuadaPraticada>,
    questoesDificeis: seq<QuestaoDificil>)

  /** `getEstatisticasPorJogador` over the player's sessions; `melhorResultado` is `None` where it would be `NaN`. */
  function EstatisticasPorJogador(ps: seq<Partida>): (r: PorJogador)
    ensures ps == [] ==> r == PorJogador(0, 0, Some(0), [], [])
    ensures ps != [] ==> r.totalPartidas == |ps| && r.taxaAcerto <= 100 && |r.questoesDificeis| <= 5
    ensures ps != [] && r.melhorResultado.Some? ==> r.melhorResultado.value <= 100
  {
    if |ps| == 0 then PorJogador(0, 0, Some(0), [], [])
    else
      QuestoesDificeisCorreta(ps);
      PorJogador(|ps|, TaxaAcertoMedia(ps), Melhor(ps), TabuadasPraticadas(ps), QuestoesDificeis(ps))
  }
}
