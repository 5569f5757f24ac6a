/**
 * The history service: a log of finished sessions kept under one storage
 * key, the filters over it and the two statistics reports. The stored value
 * is a field: `None` when the key is absent, otherwise the list the key
 * holds. The service's `forEach` loops that fill a `Set` or a `Map` are
 * methods with loops, each proved to end with the value the functions of
 * `Estatisticas` define.
 */
module HistoricoService {
  import opened Wrappers
  import opened Js
  import opened Seqs
  import opened JsMap
  import opened Partidas
  import opened Estatisticas

  /** Milliseconds in a day: `setDate(getDate() - dias)` moves the limit back by this much per day. */
  const DiaEmMs: int := 86400000

  /** `p.nomeJogador.toLowerCase().trim() === nome.toLowerCase().trim()`. */
  predicate MesmoJogador(p: Partida, nome: string) {
    Normalizar(p.nomeJogador) == Normalizar(nome)
  }

  /** `getPartidasPorJogador` over the history `h`. */
  function PartidasPorJogador(h: seq<Partida>, nome: string): (r: seq<Partida>)
    ensures Subsequence(r, h)
    ensures forall p :: p in r <==> p in h && MesmoJogador(p, nome)
  {
    var r := Filter(h, p => MesmoJogador(p, nome));
    assert forall p :: p in r <==> p in multiset(r);
    r
  }

  /** The sessions of the last `dias` days, `agora` being the current time in milliseconds. */
  function PartidasPorPeriodo(h: seq<Partida>, dias: int, agora: int): (r: seq<Partida>)
    ensures Subsequence(r, h)
    ensures forall p :: p in r <==> p in h && p.data >= agora - dias * DiaEmMs
  {
    var r := Filter(h, (p: Partida) => p.data >= agora - dias * DiaEmMs);
    assert forall p :: p in r <==> p in multiset(r);
    r
  }

  /** `dias ? this.getPartidasPorPeriodo(dias) : this.obterHistorico()`: an absent or zero `dias` selects everything. */
  function Selecionadas(h: seq<Partida>, dias: Option<int>, agora: int): seq<Partida> {
    if dias.Some? && dias.value != 0 then PartidasPorPeriodo(h, dias.value, agora) else h
  }

  lemma SelecionadasTudo(h: seq<Partida>, dias: Option<int>, agora: int)
    requires dias == None || dias == Some(0)
    ensures Selecionadas(h, dias, agora) == h
  {
  }

  /** Sessions kept by `deletarPartida(id)`. */
  function SemId(h: seq<Partida>, id: string): (r: seq<Partida>)
    ensures Subsequence(r, h)
    ensures forall p :: p in r <==> p in h && p.id != id
    ensures forall p :: multiset(r)[p] == if p.id != id then multiset(h)[p] else 0
  {
    var r := Filter(h, (p: Partida) => p.id != id);
    assert forall p :: p in r <==> p in multiset(r);
    r
  }

  /** Deleting an id no session has leaves the history as it was. */
  lemma SemIdDesconhecido(h: seq<Partida>, id: string)
    requires forall i :: 0 <= i < |h| ==> h[i].id != id
    ensures SemId(h, id) == h
  {
    FilterKeepsAll(h, (p: Partida) => p.id != id);
  }

  /** Every session's normalized player name, in order. */
  function NomesNormalizados(h: seq<Partida>): (r: seq<string>)
    ensures |r| == |h|
  {
    seq(|h|, i requires 0 <= i < |h| => Normalizar(h[i].nomeJogador))
  }

  lemma NomesNormalizadosPrefixo(h: seq<Partida>, i: nat)
    requires i < |h|
    ensures NomesNormalizados(h[..i + 1]) == NomesNormalizados(h[..i]) + [Normalizar(h[i].nomeJogador)]
  {
    assert h[..i + 1][i] == h[i];
  }

  /** A name is among the normalized names exactly when some session's player normalizes to it. */
  lemma NomesNormalizadosMembros(h: seq<Partida>, x: string)
    ensures x in NomesNormalizados(h) <==> exists i :: 0 <= i < |h| && Normalizar(h[i].nomeJogador) == x
  {
    var ns := NomesNormalizados(h);
    if x in ns {
      var i :| 0 <= i < |ns| && ns[i] == x;
      assert Normalizar(h[i].nomeJogador) == x;
    }
    if exists i :: 0 <= i < |h| && Normalizar(h[i].nomeJogador) == x {
      var i :| 0 <= i < |h| && Normalizar(h[i].nomeJogador) == x;
      assert ns[i] == x;
    }
  }

  lemma DedupUltimo<T(!new)>(s: seq<T>, x: T)
    ensures Dedup(s + [x]) == if x in Dedup(s) then Dedup(s) else Dedup(s) + [x]
  {
    assert (s + [x])[..|s|] == s;
  }

  lemma TodasTabuadasPrefixo(ps: seq<Partida>, i: nat)
    requires i < |ps|
    ensures TodasTabuadas(ps[..i + 1]) == TodasTabuadas(ps[..i]) + ps[i].tabuadas
  {
    assert ps[..i + 1][..i] == ps[..i];
  }

  lemma TodasQuestoesPrefixo(ps: seq<Partida>, i: nat)
    requires i < |ps|
    ensures TodasQuestoes(ps[..i + 1]) == TodasQuestoes(ps[..i]) + ps[i].questoes
  {
    assert ps[..i + 1][..i] == ps[..i];
  }

  lemma MapaTabuadasPrefixo(ps: seq<Partida>, i: nat)
    requires i < |ps|
    ensures MapaTabuadas(ps[..i + 1]) == PassoTabuadas(MapaTabuadas(ps[..i]), ps[i].tabuadas, ps[i].questoes)
  {
    assert ps[..i + 1][..i] == ps[..i];
  }

  lemma ContagemTabuadasUltima(s: seq<int>, t: int)
    ensures ContagemTabuadas(s + [t]) == Put(ContagemTabuadas(s), t, Get(ContagemTabuadas(s), t).GetOr(0) + 1)
  {
    var u := s + [t];
    assert u[..|u| - 1] == s;
    assert u[|u| - 1] == t;
    var m := ContagemTabuadas(u[..|u| - 1]);
    assert ContagemTabuadas(u) == Put(m, u[|u| - 1], Get(m, u[|u| - 1]).GetOr(0) + 1);
  }

  lemma PassoTabuadasUltima(m: seq<(int, Contagem)>, tabs: seq<int>, t: int, qs: seq<Questao>)
    ensures PassoTabuadas(m, tabs + [t], qs) ==
      Put(PassoTabuadas(m, tabs, qs), t, Acrescentar(Get(PassoTabuadas(m, tabs, qs), t).GetOr(Vazia), 1, qs, t))
  {
    var u := tabs + [t];
    assert u[..|u| - 1] == tabs;
    assert u[|u| - 1] == t;
  }

  lemma MapaQuestoesUltima(qs: seq<Questao>, q: Questao)
    ensures MapaQuestoes(qs + [q]) == Put(MapaQuestoes(qs), q.pergunta, Marcar(Get(MapaQuestoes(qs), q.pergunta).GetOr(Vazia), q.correta))
  {
    var u := qs + [q];
    assert u[..|u| - 1] == qs;
    assert u[|u| - 1] == q;
  }

  /** Extending a concatenation by the next element of its second part. */
  lemma ConcatProximo<T>(a: seq<T>, b: seq<T>, j: nat)
    requires j < |b|
    ensures a + b[..j + 1] == (a + b[..j]) + [b[j]]
  {
    assert b[..j + 1] == b[..j] + [b[j]];
  }

  lemma ContadasPrefixo(qs: seq<Questao>, k: nat, tab: int, correta: bool)
    requires k < |qs|
    ensures Contadas(qs[..k + 1], tab, correta) == Contadas(qs[..k], tab, correta) +
      if PrimeiroOperando(qs[k].pergunta) == Some(tab) && qs[k].correta == correta then 1 else 0
  {
    assert qs[..k + 1][..k] == qs[..k];
  }

  /** Ascending strings are all different. */
  lemma StrSortedDistinct(s: seq<string>)
    requires StrSorted(s)
    ensures Distinct(s)
  {
    forall i, j | 0 <= i < j < |s| ensures s[i] != s[j] {
      if s[i] == s[j] {
        StrLtIrreflexive(s[i]);
      }
    }
  }

  class Historico {
    /** The value under the storage key: `None` when the key is absent. */
    var armazenado: Option<seq<Partida>>

    constructor(inicial: Option<seq<Partida>>)
      ensures armazenado == inicial
    {
      armazenado := inicial;
    }

    /** `obterHistorico`: the stored list, or the empty list when nothing is stored. */
    function ObterHistorico(): (r: seq<Partida>)
      reads this
      ensures armazenado == None ==> r == []
      ensures armazenado.Some? ==> r == armazenado.value
    {
      armazenado.GetOr([])
    }

    /** `salvarPartida`: the session goes at the end of the history. */
    method SalvarPartida(p: Partida)
      modifies this
      ensures armazenado == Some(old(ObterHistorico()) + [p])
      ensures ObterHistorico() == old(ObterHistorico()) + [p]
    {
      var historico := ObterHistorico();
      historico := historico + [p];
      armazenado := Some(historico);
    }

    /** `limparHistorico`: the key is removed, so the history reads back empty. */
    method LimparHistorico()
      modifies this
      ensures armazenado == None
      ensures ObterHistorico() == []
    {
      armazenado := None;
    }

    /** `deletarPartida`: exactly the sessions with another id stay, in their order. */
    method DeletarPartida(id: string)
      modifies this
      ensures armazenado == Some(SemId(old(ObterHistorico()), id))
      ensures forall p :: p in ObterHistorico() <==> p in old(ObterHistorico()) && p.id != id
      ensures (forall i :: 0 <= i < |old(ObterHistorico())| ==> old(ObterHistorico())[i].id != id) ==>
        ObterHistorico() == old(ObterHistorico())
    {
      var historico := ObterHistorico();
      var novoHistorico := SemId(historico, id);
      if forall i :: 0 <= i < |historico| ==> historico[i].id != id {
        SemIdDesconhecido(historico, id);
      }
      armazenado := Some(novoHistorico);
    }

    /**
     * `getJogadoresUnicos`: the normalized player names, each once, in
     * ascending string order.
     */
    method GetJogadoresUnicos() returns (r: seq<string>)
      ensures StrSorted(r) && Distinct(r)
      ensures forall x :: x in r <==> x in NomesNormalizados(ObterHistorico())
    {
      var historico := ObterHistorico();
      var jogadores: seq<string> := [];
      for i := 0 to |historico|
        invariant jogadores == Dedup(NomesNormalizados(historico[..i]))
      {
        var nome := Normalizar(historico[i].nomeJogador);
        NomesNormalizadosPrefixo(historico, i);
        DedupUltimo(NomesNormalizados(historico[..i]), nome);
        if nome !in jogadores {
          jogadores := jogadores + [nome];
        }
      }
      assert historico[..|historico|] == historico;
      r := SortDistinctStrings(jogadores);
      StrSortedDistinct(r);
    }

    /** `getPartidasPorJogador`. */
    method GetPartidasPorJogador(nome: string) returns (r: seq<Partida>)
      ensures r == PartidasPorJogador(ObterHistorico(), nome)
      ensures Subsequence(r, ObterHistorico())
      ensures forall p :: p in r <==> p in ObterHistorico() && MesmoJogador(p, nome)
    {
      r := PartidasPorJogador(ObterHistorico(), nome);
    }

    /** `getPartidasPorPeriodo`, with the current time passed in. */
    method GetPartidasPorPeriodo(dias: int, agora: int) returns (r: seq<Partida>)
      ensures r == PartidasPorPeriodo(ObterHistorico(), dias, agora)
      ensures Subsequence(r, ObterHistorico())
      ensures forall p :: p in r <==> p in ObterHistorico() && p.data >= agora - dias * DiaEmMs
    {
      r := PartidasPorPeriodo(ObterHistorico(), dias, agora);
    }

    /** `getEstatisticasGerais(dias)`, with the current time passed in. */
    method GetEstatisticasGerais(dias: Option<int>, agora: int) returns (r: Gerais)
      ensures r == EstatisticasGerais(Selecionadas(ObterHistorico(), dias, agora))
    {
      var partidas := Selecionadas(ObterHistorico(), dias, agora);
      if |partidas| == 0 {
        return Gerais(0, 0, 0, []);
      }
      var tabuadasMap := ContarTabuadas(partidas);
      var maisPraticadas := Take(SortDesc(Entradas(tabuadasMap), Vezes), 3);
      r := Gerais(|partidas|, TaxaAcertoMedia(partidas), TempoMedio(partidas), maisPraticadas);
    }

    /** `getEstatisticasPorJogador(nome)`. */
    method GetEstatisticasPorJogador(nome: string) returns (r: PorJogador)
      ensures r == EstatisticasPorJogador(PartidasPorJogador(ObterHistorico(), nome))
    {
      var partidas := PartidasPorJogador(ObterHistorico(), nome);
      if |partidas| == 0 {
        return PorJogador(0, 0, Some(0), [], []);
      }
      var tabuadasMap := ContarPorTabuada(partidas);
      var tabuadasPraticadas := SortDesc(Praticadas(tabuadasMap), VezesPraticada);
      var questoesMap := ContarPorPergunta(partidas);
      var questoesDificeis := Take(SortDesc(Filter(Avaliadas(questoesMap), AbaixoDoLimite), TaxaOposta), 5);
      r := PorJogador(|partidas|, TaxaAcertoMedia(partidas), Melhor(partidas), tabuadasPraticadas, questoesDificeis);
    }
  }

  /** The `forEach` loops that count how often each table was chosen. */
  method ContarTabuadas(partidas: seq<Partida>) returns (m: seq<(int, nat)>)
    ensures m == ContagemTabuadas(TodasTabuadas(partidas))
  {
    m := [];
    for i := 0 to |partidas|
      invariant m == ContagemTabuadas(TodasTabuadas(partidas[..i]))
    {
      var tabs := partidas[i].tabuadas;
      assert TodasTabuadas(partidas[..i]) + tabs[..0] == TodasTabuadas(partidas[..i]);
      for j := 0 to |tabs|
        invariant m == ContagemTabuadas(TodasTabuadas(partidas[..i]) + tabs[..j])
      {
        var tab := tabs[j];
        ContagemTabuadasUltima(TodasTabuadas(partidas[..i]) + tabs[..j], tab);
        ConcatProximo(TodasTabuadas(partidas[..i]), tabs, j);
        m := Put(m, tab, Get(m, tab).GetOr(0) + 1);
      }
      assert tabs[..|tabs|] == tabs;
      TodasTabuadasPrefixo(partidas, i);
    }
    assert partidas[..|partidas|] == partidas;
  }

  /** The innermost loop: count the session's questions of table `tab` into `stats`. */
  method ContarQuestoes(stats: Contagem, qs: seq<Questao>, tab: int) returns (r: Contagem)
    ensures r == Acrescentar(stats, 1, qs, tab)
  {
    r := stats;
    for k := 0 to |qs|
      invariant r.corretos == stats.corretos + Contadas(qs[..k], tab, true)
      invariant r.incorretos == stats.incorretos + Contadas(qs[..k], tab, false)
    {
      var q := qs[k];
      ContadasPrefixo(qs, k, tab, true);
      ContadasPrefixo(qs, k, tab, false);
      if PrimeiroOperando(q.pergunta) == Some(tab) {
        if q.correta {
          r := r.(corretos := r.corretos + 1);
        } else {
          r := r.(incorretos := r.incorretos + 1);
        }
      }
    }
    assert qs[..|qs|] == qs;
  }

  /** The nested `forEach` loops that fill the per-table map. */
  method ContarPorTabuada(partidas: seq<Partida>) returns (m: seq<(int, Contagem)>)
    ensures m == MapaTabuadas(partidas)
  {
    m := [];
    for i := 0 to |partidas|
      invariant m == MapaTabuadas(partidas[..i])
    {
      var partida := partidas[i];
      var m0 := m;
      for j := 0 to |partida.tabuadas|
        invariant m == PassoTabuadas(m0, partida.tabuadas[..j], partida.questoes)
      {
        var tab := partida.tabuadas[j];
        PassoTabuadasUltima(m0, partida.tabuadas[..j], tab, partida.questoes);
        assert partida.tabuadas[..j + 1] == partida.tabuadas[..j] + [tab];
        var stats := Get(m, tab).GetOr(Vazia);
        stats := ContarQuestoes(stats, partida.questoes, tab);
        m := Put(m, tab, stats);
      }
      assert partida.tabuadas[..|partida.tabuadas|] == partida.tabuadas;
      MapaTabuadasPrefixo(partidas, i);
    }
    assert partidas[..|partidas|] == partidas;
  }

  /** The nested `forEach` loops that fill the per-prompt map. */
  method ContarPorPergunta(partidas: seq<Partida>) returns (m: seq<(string, Contagem)>)
    ensures m == MapaQuestoes(TodasQuestoes(partidas))
  {
    m := [];
    for i := 0 to |partidas|
      invariant m == MapaQuestoes(TodasQuestoes(partidas[..i]))
    {
      var qs := partidas[i].questoes;
      assert TodasQuestoes(partidas[..i]) + qs[..0] == TodasQuestoes(partidas[..i]);
      for j := 0 to |qs|
        invariant m == MapaQuestoes(TodasQuestoes(partidas[..i]) + qs[..j])
      {
        var q := qs[j];
        MapaQuestoesUltima(TodasQuestoes(partidas[..i]) + qs[..j], q);
        ConcatProximo(TodasQuestoes(partidas[..i]), qs, j);
        var stats := Get(m, q.pergunta).GetOr(Vazia);
        stats := Marcar(stats, q.correta);
        m := Put(m, q.pergunta, stats);
      }
      assert qs[..|qs|] == qs;
      TodasQuestoesPrefixo(partidas, i);
    }
    assert partidas[..|partidas|] == partidas;
  }
}
