/**
 * The history screen: the stored sessions listed newest first, the time of
 * a session written as minutes and seconds, and deleting one session or the
 * whole history once the player has confirmed. The confirmation dialog is
 * its answer, a boolean; locale date formatting and the navigation back to
 * the start screen are not part of this model.
 */
module HistoricoTela {
  import opened Wrappers
  import opened Js
  import opened Seqs
  import opened Partidas
  import opened HistoricoService

  /** The sort key: a session's timestamp. */
  function Data(p: Partida): int {
    p.data
  }

  /**
   * The order `carregarHistorico` leaves the list in: the comparator
   * `b - a` on timestamps under the stable `Array.prototype.sort`.
   */
  function MaisRecentesPrimeiro(h: seq<Partida>): (r: seq<Partida>)
    ensures NonIncreasing(r, Data)
    ensures multiset(r) == multiset(h)
  {
    SortDesc(h, Data)
  }

  /** Sessions with the same timestamp stay in the order they were stored in. */
  lemma MaisRecentesPrimeiroEstavel(h: seq<Partida>, data: int)
    ensures WithKey(MaisRecentesPrimeiro(h), Data, data) == WithKey(h, Data, data)
  {
    SortDescStable(h, Data, data);
  }

  /** `Math.floor(segundos / 60)`: Dafny's `/` by a positive divisor rounds down too. */
  function Minutos(segundos: int): int {
    segundos / 60
  }

  /** `segundos % 60` with JavaScript's remainder, which takes the sign of the dividend. */
  function Segundos(segundos: int): int {
    if segundos >= 0 then segundos % 60 else -((-segundos) % 60)
  }

  /** `formatarTempo`: the template literal `${minutos}min ${segs}s`. */
  function FormatarTempo(segundos: int): string {
    ToStr(Minutos(segundos)) + "min " + ToStr(Segundos(segundos)) + "s"
  }

  /**
   * For a non-negative time the two parts are a whole number of minutes and
   * the seconds left over, below a minute; a negative time keeps its sign
   * in both parts, the seconds counting back from the next whole minute.
   */
  lemma MinutosSegundos(segundos: int)
    ensures segundos >= 0 ==> 0 <= Segundos(segundos) < 60 && 60 * Minutos(segundos) + Segundos(segundos) == segundos
    ensures segundos < 0 ==> Minutos(segundos) < 0 && -60 < Segundos(segundos) <= 0
    ensures segundos < 0 && Segundos(segundos) != 0 ==> 60 * (Minutos(segundos) + 1) + Segundos(segundos) == segundos
    ensures segundos < 0 && Segundos(segundos) == 0 ==> 60 * Minutos(segundos) == segundos
  {
    if segundos < 0 {
      var q, r := (-segundos) / 60, (-segundos) % 60;
      assert -segundos == 60 * q + r;
      if r == 0 {
        assert segundos == 60 * (-q);
      } else {
        assert segundos == 60 * (-q - 1) + (60 - r);
      }
    }
  }

  /** The minutes and the seconds determine the time. */
  lemma PartesInjetivas(a: int, b: int)
    requires Minutos(a) == Minutos(b) && Segundos(a) == Segundos(b)
    ensures a == b
  {
    MinutosSegundos(a);
    MinutosSegundos(b);
  }

  /** `parseInt` of the text reads back the minutes. */
  lemma FormatarTempoMinutos(segundos: int)
    ensures ParseInt(FormatarTempo(segundos)) == Some(Minutos(segundos))
  {
    var resto := "min " + ToStr(Segundos(segundos)) + "s";
    ParseIntToStr(Minutos(segundos), resto);
    assert FormatarTempo(segundos) == ToStr(Minutos(segundos)) + resto;
  }

  /** Different times are written differently. */
  lemma FormatarTempoInjetiva(a: int, b: int)
    requires FormatarTempo(a) == FormatarTempo(b)
    ensures a == b
  {
    FormatarTempoMinutos(a);
    FormatarTempoMinutos(b);
    var ma, mb := ToStr(Minutos(a)), ToStr(Minutos(b));
    assert ma == mb;
    var sa, sb := ToStr(Segundos(a)), ToStr(Segundos(b));
    var ra, rb := "min " + sa + "s", "min " + sb + "s";
    assert FormatarTempo(a) == ma + ra;
    assert FormatarTempo(b) == mb + rb;
    assert ra == (ma + ra)[|ma|..];
    assert rb == (mb + rb)[|mb|..];
    assert |sa| == |sb|;
    assert sa == ra[4..|sa| + 4];
    assert sb == rb[4..|sb| + 4];
    ToStrInjective(Segundos(a), Segundos(b));
    PartesInjetivas(a, b);
  }

  lemma FormatarTempoExemplo()
    ensures FormatarTempo(125) == "2min 5s"
  {
  }

  class HistoricoComponent {
    var partidas: seq<Partida>
    /** The history the screen reads and changes. */
    const historicoService: Historico

    constructor(historicoService: Historico)
      ensures partidas == [] && this.historicoService == historicoService
    {
      partidas := [];
      this.historicoService := historicoService;
    }

    /** `ngOnInit`: load the history. */
    method NgOnInit()
      modifies this`partidas
      ensures partidas == MaisRecentesPrimeiro(historicoService.ObterHistorico())
    {
      CarregarHistorico();
    }

    /** `carregarHistorico`: the stored sessions, newest first. */
    method CarregarHistorico()
      modifies this`partidas
      ensures partidas == MaisRecentesPrimeiro(historicoService.ObterHistorico())
      ensures NonIncreasing(partidas, Data)
      ensures multiset(partidas) == multiset(historicoService.ObterHistorico())
    {
      partidas := historicoService.ObterHistorico();
      partidas := MaisRecentesPrimeiro(partidas);
    }

    /**
     * `deletarPartida`: once confirmed, every session with that id leaves the
     * history and the list is reloaded; unconfirmed, nothing changes.
     */
    method DeletarPartida(id: string, confirmado: bool)
      modifies this`partidas, historicoService
      ensures !confirmado ==> partidas == old(partidas) && unchanged(historicoService)
      ensures confirmado ==> historicoService.ObterHistorico() == SemId(old(historicoService.ObterHistorico()), id)
      ensures confirmado ==> partidas == MaisRecentesPrimeiro(historicoService.ObterHistorico())
      ensures confirmado ==> forall p :: p in partidas <==> p in old(historicoService.ObterHistorico()) && p.id != id
    {
      if confirmado {
        historicoService.DeletarPartida(id);
        CarregarHistorico();
        forall p ensures p in partidas <==> p in historicoService.ObterHistorico() {
          assert p in partidas <==> multiset(partidas)[p] > 0;
        }
      }
    }

    /**
     * `limparTudo`: once confirmed, the history is removed and the list is
     * empty; unconfirmed, nothing changes.
     */
    method LimparTudo(confirmado: bool)
      modifies this`partidas, historicoService
      ensures !confirmado ==> partidas == old(partidas) && unchanged(historicoService)
      ensures confirmado ==> historicoService.ObterHistorico() == [] && partidas == []
    {
      if confirmado {
        historicoService.LimparHistorico();
        CarregarHistorico();
      }
    }
  }
}
