/**
 * The hand-off of a game's settings from the start screen to the keypad
 * game: the player's name, the chosen tables and whether questions are
 * drawn at random.
 */
module GameState {
  /** What `getDadosJogo` returns. */
  datatype DadosJogo = DadosJogo(nomeJogador: string, tabuadasSelecionadas: seq<int>, modoAleatorio: bool)

  /** The settings of a fresh service, and after `limparDados`. */
  const Inicial := DadosJogo("", [], false)

  class GameStateService {
    var nomeJogador: string
    var tabuadasSelecionadas: seq<int>
    var modoAleatorio: bool

    /** The three fields as one value. */
    function Dados(): DadosJogo
      reads this
    {
      DadosJogo(nomeJogador, tabuadasSelecionadas, modoAleatorio)
    }

    constructor()
      ensures Dados() == Inicial
    {
      nomeJogador := "";
      tabuadasSelecionadas := [];
      modoAleatorio := false;
    }

    /** `setDadosJogo`: every field takes the new value, whatever it held before. */
    method SetDadosJogo(nome: string, tabuadas: seq<int>, aleatorio: bool)
      modifies this
      ensures Dados() == DadosJogo(nome, tabuadas, aleatorio)
    {
      nomeJogador := nome;
      tabuadasSelecionadas := tabuadas;
      modoAleatorio := aleatorio;
    }

    /** `getDadosJogo`: reads the three fields and changes none. */
    method GetDadosJogo() returns (d: DadosJogo)
      ensures d.nomeJogador == nomeJogador
      ensures d.tabuadasSelecionadas == tabuadasSelecionadas
      ensures d.modoAleatorio == modoAleatorio
    {
      d := DadosJogo(nomeJogador, tabuadasSelecionadas, modoAleatorio);
    }

    /** `limparDados`: back to the state of a fresh service. */
    method LimparDados()
      modifies this
      ensures Dados() == Inicial
    {
      nomeJogador := "";
      tabuadasSelecionadas := [];
      modoAleatorio := false;
    }
  }

  /** Reading the settings right after writing them gives back exactly what was written. */
  method SetDepoisGet(s: GameStateService, nome: string, tabuadas: seq<int>, aleatorio: bool) returns (d: DadosJogo)
    modifies s
    ensures d == DadosJogo(nome, tabuadas, aleatorio)
  {
    s.SetDadosJogo(nome, tabuadas, aleatorio);
    d := s.GetDadosJogo();
  }
}
