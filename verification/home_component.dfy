/**
 * The start screen: the player's name, the random-mode switch and the ten
 * tables with their check boxes. Starting hands the settings to the
 * game-state service; the navigation to the game screen that follows is
 * not part of this model.
 */
module Home {
  import opened Js
  import opened Seqs
  import opened GameState

  /** An entry of the table list: the table and whether its box is checked. */
  datatype Opcao = Opcao(numero: int, selecionada: bool)

  /** The list as the screen opens: tables 1 to 10 in order, none checked. */
  const TabuadasIniciais: seq<Opcao> := [
    Opcao(1, false), Opcao(2, false), Opcao(3, false), Opcao(4, false), Opcao(5, false),
    Opcao(6, false), Opcao(7, false), Opcao(8, false), Opcao(9, false), Opcao(10, false)]

  const TextoDesmarcar: string := "Desmarcar Todas"
  const TextoSelecionar: string := "Selecionar Todas"
  const TextoComecar: string := "\U{1F680} Come\U{E7}ar a Jogar!"
  const TextoPreencher: string := "\U{26A0}\U{FE0F} Preencha os dados acima"

  predicate Marcada(t: Opcao) {
    t.selecionada
  }

  /** `.map(t => t.numero)`. */
  function Numeros(s: seq<Opcao>): (r: seq<int>)
    ensures |r| == |s| && forall i :: 0 <= i < |s| ==> r[i] == s[i].numero
  {
    seq(|s|, i requires 0 <= i < |s| => s[i].numero)
  }

  /** The numbers of the checked entries, in list order, one entry at a time. */
  function Selecionados(s: seq<Opcao>): seq<int>
    decreases |s|
  {
    if s == [] then []
    else (if s[0].selecionada then [s[0].numero] else []) + Selecionados(s[1..])
  }

  /** `Selecionados` is `.filter(t => t.selecionada).map(t => t.numero)`. */
  lemma {:induction false} SelecionadosFiltro(s: seq<Opcao>)
    ensures Selecionados(s) == Numeros(Filter(s, Marcada))
    decreases |s|
  {
    if s != [] {
      SelecionadosFiltro(s[1..]);
      var resto := Filter(s[1..], Marcada);
      if Marcada(s[0]) {
        assert Filter(s, Marcada) == [s[0]] + resto;
        assert Numeros([s[0]] + resto) == [s[0].numero] + Numeros(resto);
      } else {
        assert Filter(s, Marcada) == resto;
      }
    }
  }

  /** For a run of consecutive tables starting at `lo`, the selected numbers are exactly those of the checked entries. */
  lemma {:induction false} SelecionadosMembros(s: seq<Opcao>, lo: int)
    requires forall i :: 0 <= i < |s| ==> s[i].numero == lo + i
    ensures forall k :: k in Selecionados(s) <==> lo <= k < lo + |s| && s[k - lo].selecionada
    decreases |s|
  {
    if s != [] {
      SelecionadosMembros(s[1..], lo + 1);
      var ns := Selecionados(s[1..]);
      var cabeca := if s[0].selecionada then [lo] else [];
      assert Selecionados(s) == cabeca + ns;
      forall k ensures k in cabeca + ns <==> lo <= k < lo + |s| && s[k - lo].selecionada {
        assert k in cabeca + ns <==> k in cabeca || k in ns;
        if lo < k < lo + |s| {
          assert s[1..][k - (lo + 1)] == s[k - lo];
        }
      }
    }
  }

  /** For a run of consecutive tables starting at `lo`, the selected numbers ascend. */
  lemma {:induction false} SelecionadosCrescentes(s: seq<Opcao>, lo: int)
    requires forall i :: 0 <= i < |s| ==> s[i].numero == lo + i
    ensures forall i, j :: 0 <= i < j < |Selecionados(s)| ==> Selecionados(s)[i] < Selecionados(s)[j]
    decreases |s|
  {
    if s != [] {
      SelecionadosCrescentes(s[1..], lo + 1);
      SelecionadosMembros(s[1..], lo + 1);
      var ns := Selecionados(s[1..]);
      var r := Selecionados(s);
      if s[0].selecionada {
        forall i, j | 0 <= i < j < |r| ensures r[i] < r[j] {
          assert r[j] == ns[j - 1];
          assert ns[j - 1] in ns;
          if i > 0 {
            assert r[i] == ns[i - 1];
          }
        }
      }
    }
  }

  /** With every entry checked, every number is selected. */
  lemma {:induction false} SelecionadosTodas(s: seq<Opcao>)
    requires forall i :: 0 <= i < |s| ==> s[i].selecionada
    ensures Selecionados(s) == Numeros(s)
    decreases |s|
  {
    if s != [] {
      SelecionadosTodas(s[1..]);
      assert Numeros(s) == [s[0].numero] + Numeros(s[1..]);
    }
  }

  /** With no entry checked, nothing is selected. */
  lemma {:induction false} NenhumSelecionado(s: seq<Opcao>)
    requires forall i :: 0 <= i < |s| ==> !s[i].selecionada
    ensures Selecionados(s) == []
    decreases |s|
  {
    if s != [] {
      NenhumSelecionado(s[1..]);
    }
  }

  class HomeComponent {
    var nomeJogador: string
    var modoAleatorio: bool
    var tabuadas: seq<Opcao>
    /** The service the settings are handed to. */
    const gameState: GameStateService

    /** The list always holds tables 1 to 10 in order; only the check marks change. */
    ghost predicate Valid()
      reads this
    {
      |tabuadas| == 10 && forall i :: 0 <= i < 10 ==> tabuadas[i].numero == i + 1
    }

    constructor(gameState: GameStateService)
      ensures Valid()
      ensures nomeJogador == "" && !modoAleatorio && tabuadas == TabuadasIniciais
      ensures this.gameState == gameState
    {
      nomeJogador := "";
      modoAleatorio := false;
      tabuadas := TabuadasIniciais;
      this.gameState := gameState;
    }

    /** `tabuadasSelecionadas`: the checked tables, in list order. */
    function TabuadasSelecionadas(): seq<int>
      reads this
    {
      Selecionados(tabuadas)
    }

    /** `podeIniciar`. */
    predicate PodeIniciar()
      reads this
    {
      |Trim(nomeJogador)| > 0 && |TabuadasSelecionadas()| > 0
    }

    /** `todasSelecionadas`: `every` entry is checked. */
    predicate TodasSelecionadas()
      reads this
    {
      forall i :: 0 <= i < |tabuadas| ==> tabuadas[i].selecionada
    }

    /** `textoBotaoSelecionar`: decided by `todasSelecionadas` alone. */
    function TextoBotaoSelecionar(): (r: string)
      reads this
      ensures r == TextoDesmarcar <==> TodasSelecionadas()
      ensures r == TextoSelecionar <==> !TodasSelecionadas()
    {
      if TodasSelecionadas() then TextoDesmarcar else TextoSelecionar
    }

    /** `textoBotaoIniciar`: decided by `podeIniciar` alone. */
    function TextoBotaoIniciar(): (r: string)
      reads this
      ensures r == TextoComecar <==> PodeIniciar()
      ensures r == TextoPreencher <==> !PodeIniciar()
    {
      assert TextoComecar[0] != TextoPreencher[0];
      if PodeIniciar() then TextoComecar else TextoPreencher
    }

    /**
     * `iniciarJogo`: when the screen can start, hand over the trimmed name,
     * the checked tables and the mode; otherwise do nothing.
     */
    method IniciarJogo()
      modifies gameState
      ensures PodeIniciar() ==> gameState.Dados() == DadosJogo(Trim(nomeJogador), TabuadasSelecionadas(), modoAleatorio)
      ensures !PodeIniciar() ==> unchanged(gameState)
    {
      if PodeIniciar() {
        gameState.SetDadosJogo(Trim(nomeJogador), TabuadasSelecionadas(), modoAleatorio);
      }
    }

    /**
     * `selecionarTodas`: uncheck every entry when all are checked, check
     * every entry otherwise; the tables stay as they are.
     */
    method SelecionarTodas()
      requires Valid()
      modifies this`tabuadas
      ensures Valid()
      ensures forall i :: 0 <= i < |tabuadas| ==> tabuadas[i] == Opcao(old(tabuadas[i].numero), !old(TodasSelecionadas()))
      ensures old(TodasSelecionadas()) ==> TabuadasSelecionadas() == []
      ensures !old(TodasSelecionadas()) ==> TodasSelecionadas()
    {
      var todasSelecionadas := TodasSelecionadas();
      for i := 0 to |tabuadas|
        invariant |tabuadas| == |old(tabuadas)|
        invariant forall k :: 0 <= k < i ==> tabuadas[k] == Opcao(old(tabuadas[k].numero), !todasSelecionadas)
        invariant forall k :: i <= k < |tabuadas| ==> tabuadas[k] == old(tabuadas[k])
      {
        tabuadas := tabuadas[i := tabuadas[i].(selecionada := !todasSelecionadas)];
      }
      if todasSelecionadas {
        NenhumSelecionado(tabuadas);
      }
    }
  }

  /** The checked tables ascend, lie between 1 and 10 and are exactly the checked ones. */
  lemma TabuadasSelecionadasCrescentes(h: HomeComponent)
    requires h.Valid()
    ensures forall i, j :: 0 <= i < j < |h.TabuadasSelecionadas()| ==> h.TabuadasSelecionadas()[i] < h.TabuadasSelecionadas()[j]
    ensures forall k :: k in h.TabuadasSelecionadas() <==> 1 <= k <= 10 && h.tabuadas[k - 1].selecionada
  {
    var t := h.tabuadas;
    SelecionadosCrescentes(t, 1);
    SelecionadosMembros(t, 1);
  }

  /** The screen can start exactly when the trimmed name is not empty and some entry is checked. */
  lemma PodeIniciarMarcada(h: HomeComponent)
    requires h.Valid()
    ensures h.PodeIniciar() <==> Trim(h.nomeJogador) != [] && exists i :: 0 <= i < 10 && h.tabuadas[i].selecionada
  {
    var t := h.tabuadas;
    SelecionadosMembros(t, 1);
    var r := Selecionados(t);
    if exists i :: 0 <= i < 10 && t[i].selecionada {
      var i :| 0 <= i < 10 && t[i].selecionada;
      assert i + 1 in r;
    }
    if r != [] {
      assert r[0] in r;
    }
  }

  /** Every entry is checked exactly when the checked tables are all ten, 1 to 10. */
  lemma TodasSelecionadasDez(h: HomeComponent)
    requires h.Valid()
    ensures h.TodasSelecionadas() <==> h.TabuadasSelecionadas() == [1, 2, 3, 4, 5, 6, 7, 8, 9, 10]
  {
    var dez := [1, 2, 3, 4, 5, 6, 7, 8, 9, 10];
    var r := h.TabuadasSelecionadas();
    if h.TodasSelecionadas() {
      SelecionadosTodas(h.tabuadas);
      assert forall i :: 0 <= i < 10 ==> r[i] == dez[i];
    }
    if r == dez {
      SelecionadosMembros(h.tabuadas, 1);
      forall i | 0 <= i < 10 ensures h.tabuadas[i].selecionada {
        assert r[i] == i + 1;
        assert i + 1 in r;
      }
    }
  }
}
