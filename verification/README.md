# Tabuada interativa — a Dafny model

This project models the core of *tabuada-interativa*, an Angular quiz for
practising the multiplication tables, and proves properties of that model.
It covers these parts of the application:

- **The history service.** Sessions (`Partida`) are kept under one storage
  key and can be appended, deleted by id or cleared. On top of this log are
  the filters by player and by period, the list of distinct players, and two
  statistics reports:
  - overall: the accuracy and time averages and the three most practised
    tables;
  - per player: the best result, the per-table accuracy and the five
    hardest prompts.
- **The keypad game** (`GameComponent`). It has:
  - a sequential and a random question sequencer;
  - duplicate avoidance through a set of `"AxB"` keys, with at most 100
    attempts;
  - a three-character answer buffer;
  - the right and wrong counters;
  - the 70% verdict.
- **The older multiple-choice game** (`AppComponent`). It generates ten
  distinct answer buttons, checks a click and styles the buttons.
- **The start screen** (`HomeComponent`). The player picks tables, and the
  screen decides when the game can start and what the buttons say.
- **The history screen** (`HistoricoComponent`). It lists the sessions newest
  first, formats a duration, and deletes or clears once the player confirms.
- **The end-of-game percentage** (`FeedbackComponent`).
- **The settings hand-off service** (`GameStateService`).

## Layout

One module per source file, plus three modules for the JavaScript built-ins
the code relies on:

| file | module | models |
|---|---|---|
| `wrappers.dfy` | `Wrappers` | `Option` |
| `js.dfy` | `Js` | `trim`, ASCII `toLowerCase`/`toUpperCase`, `parseInt`, integer `toString`, the order of `sort()` on strings, taken character by character, `Math.round` of a non-negative ratio |
| `seqs.dfy` | `Seqs` | `filter`, the insertion order of a `Set`, the stable `sort` with a numeric comparator, `sort()` on distinct strings, `slice(0, n)` |
| `js_map.dfy` | `JsMap` | a `Map` as an insertion-ordered list of entries |
| `partida.dfy` | `Partidas` | the session record, name normalisation, prompts of the form `a × b` |
| `estatisticas.dfy` | `Estatisticas` | the statistics as folds over the sessions, with their meaning as lemmas |
| `historico_service.dfy` | `HistoricoService` | the service: the storage field, its updates, and the `forEach` loops as methods proved against `Estatisticas` |
| `game_state_service.dfy` | `GameState` | the settings hand-off |
| `game_component.dfy` | `Jogo` | the keypad game |
| `app_component.dfy` | `App` | the multiple-choice game |
| `home_component.dfy` | `Home` | the start screen |
| `historico_component.dfy` | `HistoricoTela` | the history screen |
| `feedback_component.dfy` | `Feedback` | the percentage |

**Randomness.** Every call to `Math.random` is replaced by a parameter that
holds the draws it would have produced, each restricted to its range:

- `sorteio` is the keypad game's draw per retry attempt.
- In the multiple-choice game:
  - `numeroSorteado` and `multiplicadorSorteado` are the question's draws;
  - `candidatos` are the values the answer generator tries;
  - `trocas` are the swaps the shuffle makes.

**Field names.** The statistics read `p.corretos` / `p.incorretos`, but the
`Partida` interface declares `acertos` / `erros`. The model reads the
interface's fields, `acertos` and `erros`, as a session's correct and
incorrect counts.

## Model

| member | source | states |
|---|---|---|
| Js.TrimBorders | src/app/components/home/home.component.ts:43 | a trimmed string is empty or starts and ends with a non-whitespace character |
| Js.TrimDropsWhitespace | src/app/components/home/home.component.ts:43 | everything `trim` removes, at either end, is whitespace |
| Js.TrimIdempotent | src/app/services/historico.service.ts:45 | trimming twice is trimming once |
| Js.ToLowerIdempotent | src/app/services/historico.service.ts:45 | lower-casing twice is lower-casing once |
| Js.ToLowerTrimIdempotent | src/app/services/historico.service.ts:54-57 | a normalised name normalises to itself |
| Js.DigitPrefixMaximal | src/app/services/historico.service.ts:170 | `parseInt` reads the longest run of digits, and the character after the run is not a digit |
| Js.ToStrDigitos | src/app/components/game/game.component.ts:122 | a non-negative integer is written as decimal digits, with no leading zero, that read back as its value |
| Js.ParseIntToStr | src/app/components/game/game.component.ts:140 | `parseInt` of an integer's text, followed by anything that does not continue the number, gives back the integer |
| Js.ToStrInjective | src/app/components/game/game.component.ts:108 | different integers have different texts |
| Js.StrLtIrreflexive | src/app/services/historico.service.ts:48 | no string sorts before itself |
| Js.StrLtTransitive | src/app/services/historico.service.ts:48 | the character-by-character string order is transitive |
| Js.StrLtTotal | src/app/services/historico.service.ts:48 | of two different strings, one sorts before the other |
| Js.RoundRatio | src/app/services/historico.service.ts:121 | the result is the nearest integer to p/q, with halves rounded up, as `Math.round` does |
| Js.RoundRatioMonotonic | src/app/components/feedback/feedback.component.ts:21 | a larger numerator never rounds lower |
| Js.PercentBounds | src/app/services/historico.service.ts:153 | a count out of a positive total is 0% when none, 100% when all, and never above 100% |
| Seqs.Filter | src/app/services/historico.service.ts:33 | the result keeps elements of the input in order, each passing element with its full multiplicity and no failing one |
| Seqs.FilterKeepsAll | src/app/services/historico.service.ts:33 | filtering with a condition every element meets returns the input |
| Seqs.Dedup | src/app/services/historico.service.ts:42-46 | the insertion order of a `Set` has no duplicates and holds exactly the values added |
| Seqs.InsertByKeyPermutes | src/app/services/historico.service.ts:116 | one insertion step adds exactly the new element |
| Seqs.InsertByKeyOrdered | src/app/services/historico.service.ts:116 | one insertion step keeps the keys non-increasing |
| Seqs.InsertByKeyStable | src/app/services/historico.service.ts:116 | one insertion step puts the new element after every element with the same key |
| Seqs.SortDesc | src/app/services/historico.service.ts:116 | sorting by `b.key - a.key` gives non-increasing keys and a permutation of the input |
| Seqs.SortDescStable | src/app/services/historico.service.ts:116 | elements with equal keys keep their input order |
| Seqs.SortDescDistinct | src/app/services/historico.service.ts:190 | sorting a duplicate-free list gives a duplicate-free list |
| Seqs.Take | src/app/services/historico.service.ts:117 | `slice(0, n)` is the first `min(n, length)` elements |
| Seqs.WithKeyTake | src/app/services/historico.service.ts:117 | for each key, a slice keeps a prefix of the elements with that key |
| Seqs.TakeSortDescCompleto | src/app/services/historico.service.ts:213-214 | an element left out of the first `n` of a sorted list means that all `n` places are taken by elements whose keys are at least as large |
| Seqs.InsertStr | src/app/services/historico.service.ts:48 | inserting a new string into a sorted list keeps it sorted and adds exactly that string |
| Seqs.SortDistinctStrings | src/app/services/historico.service.ts:48 | `sort()` of distinct strings is ascending in the character-by-character string order and a permutation of the input |
| Seqs.DistinctMultiset | src/app/app.component.ts:102 | a duplicate-free list holds each value at most once |
| Seqs.MultisetDistinct | src/app/app.component.ts:108 | a list that holds each value at most once is duplicate-free, so a permutation of a duplicate-free list is duplicate-free |
| JsMap.GetKeys | src/app/services/historico.service.ts:110 | `get` finds a value exactly for the keys the map holds, and that value is the key's entry |
| JsMap.PutKeys | src/app/services/historico.service.ts:110 | `set` keeps the key order and appends a new key at the end |
| JsMap.PutSame | src/app/services/historico.service.ts:110 | after `set(k, v)`, `get(k)` is `v` |
| JsMap.PutOther | src/app/services/historico.service.ts:110 | `set(k, v)` leaves every other key's value unchanged |
| JsMap.GetEntry | src/app/services/historico.service.ts:114 | with distinct keys, every entry is what `get` returns for its key |
| JsMap.PutDistinct | src/app/services/historico.service.ts:114 | `set` keeps the keys distinct |
| Partidas.NormalizarBordas | src/app/services/historico.service.ts:45 | a normalised name has no whitespace at either end |
| Partidas.NormalizarIdempotent | src/app/services/historico.service.ts:54-57 | normalising twice is normalising once, so a normalised name matches itself |
| Partidas.NormalizarExemplo | src/app/services/historico.service.ts:56-57 | `"Ana "` and `" ana"` are the same player |
| Partidas.SplitHead | src/app/services/historico.service.ts:170 | the text before the first occurrence of the separator, or all of the text when there is none |
| Partidas.PrimeiroOperandoPergunta | src/app/services/historico.service.ts:170 | parsing the part before `" × "` in the prompt `a × b` gives back `a` |
| Estatisticas.SomaAppend | src/app/services/historico.service.ts:91-92 | the sum over two lists of sessions is the sum of the two sums |
| Estatisticas.SomaLimita | src/app/services/historico.service.ts:101 | each session's term is at most the sum |
| Estatisticas.ContagemTabuadasChaves | src/app/services/historico.service.ts:107-112 | the count map holds each chosen table once, in the order tables were first chosen |
| Estatisticas.ContagemTabuadasValores | src/app/services/historico.service.ts:107-112 | each table's count is the number of times it was chosen, across all sessions |
| Estatisticas.OrdemTabuadasCorreta | src/app/services/historico.service.ts:114-115 | the map's entries are the distinct tables in first-chosen order, each with its count |
| Estatisticas.MaisPraticadasContagens | src/app/services/historico.service.ts:114-117 | at most three entries, with non-increasing counts, each a chosen table with its true count |
| Estatisticas.MaisPraticadasDistintas | src/app/services/historico.service.ts:114-117 | no table appears twice in the top three |
| Estatisticas.MaisPraticadasCompleta | src/app/services/historico.service.ts:114-117 | a chosen table missing from the top three means three tables are listed, each chosen at least as often |
| Estatisticas.MaisPraticadasEmpates | src/app/services/historico.service.ts:114-117 | tables with equal counts appear in the order they were first chosen |
| Estatisticas.Taxa | src/app/services/historico.service.ts:187 | the rounded percentage of a count out of its total, at most 100 |
| Estatisticas.TaxaAcertoMedia | src/app/services/historico.service.ts:90-98 | 0 without questions, otherwise the rounded percentage of correct answers, at most 100 |
| Estatisticas.TempoMedio | src/app/services/historico.service.ts:100-104 | 0 without questions, otherwise the rounded total time per question |
| Estatisticas.EstatisticasGerais | src/app/services/historico.service.ts:79-124 | `0, 0, 0, []` for no sessions; otherwise the session count, an accuracy of at most 100 and at most three top tables |
| Estatisticas.Melhor | src/app/services/historico.service.ts:157-159 | the largest per-session percentage, reached by some session; `NaN` (here `None`) exactly when a session has no questions |
| Estatisticas.MultProduto | src/app/services/historico.service.ts:165-175 | counting a session's questions once per time its table was chosen multiplies the count |
| Estatisticas.PassoTabuadasChaves | src/app/services/historico.service.ts:165-178 | one session's tables enter the per-table map in first-chosen order |
| Estatisticas.PassoTabuadasValor | src/app/services/historico.service.ts:165-178 | after one session, a table's tally grows by that session's questions of the table, once per time the table was chosen |
| Estatisticas.MapaTabuadasChaves | src/app/services/historico.service.ts:164-179 | the per-table map holds each chosen table once, in first-chosen order |
| Estatisticas.MapaTabuadasValor | src/app/services/historico.service.ts:164-179 | each table's tally counts the right and wrong answers to its prompts, once per time the table was chosen in the session |
| Estatisticas.RespostasDaTabuadaAusente | src/app/services/historico.service.ts:164-179 | a table never chosen has no tally |
| Estatisticas.PraticadasEntradas | src/app/services/historico.service.ts:181-189 | each per-table entry is a chosen table with its total and rounded accuracy |
| Estatisticas.TabuadasPraticadasCorreta | src/app/services/historico.service.ts:181-190 | sorted by non-increasing total; exactly the chosen tables with their totals and accuracies, each at most 100 |
| Estatisticas.TabuadasPraticadasDistintas | src/app/services/historico.service.ts:181-190 | no table appears twice |
| Estatisticas.MapaQuestoesChaves | src/app/services/historico.service.ts:195-202 | the per-prompt map holds each prompt once, in first-seen order |
| Estatisticas.MapaQuestoesValor | src/app/services/historico.service.ts:195-202 | each prompt's tally counts its right and wrong answers |
| Estatisticas.RespostasAusente | src/app/services/historico.service.ts:195-202 | a prompt never asked has no answers |
| Estatisticas.AvaliadasEntradas | src/app/services/historico.service.ts:204-211 | each evaluated entry is an asked prompt with its rounded accuracy |
| Estatisticas.CandidatasEntradas | src/app/services/historico.service.ts:204-212 | the filter keeps exactly the prompts under 80% accuracy |
| Estatisticas.QuestoesDificeisCorreta | src/app/services/historico.service.ts:204-214 | at most five prompts, in ascending accuracy, each asked and under 80% |
| Estatisticas.QuestoesDificeisCompleta | src/app/services/historico.service.ts:204-214 | a prompt under 80% that is left out means five prompts are listed, none more accurate than it |
| Estatisticas.EstatisticasPorJogador | src/app/services/historico.service.ts:135-222 | the empty report for no sessions; otherwise the session count, an accuracy of at most 100, a best result of at most 100 and at most five hard prompts |
| HistoricoService.PartidasPorJogador | src/app/services/historico.service.ts:52-59 | exactly the sessions whose normalised name equals the normalised query, in storage order |
| HistoricoService.PartidasPorPeriodo | src/app/services/historico.service.ts:62-70 | exactly the sessions no older than `dias` days before now, in storage order |
| HistoricoService.SelecionadasTudo | src/app/services/historico.service.ts:79 | an absent or zero `dias` selects the whole history |
| HistoricoService.SemId | src/app/services/historico.service.ts:33 | exactly the sessions with another id, in order, each as often as stored |
| HistoricoService.SemIdDesconhecido | src/app/services/historico.service.ts:31-35 | deleting an id no session has leaves the history unchanged |
| HistoricoService.NomesNormalizadosMembros | src/app/services/historico.service.ts:44-46 | the normalised names are exactly those of the stored sessions |
| HistoricoService.DedupUltimo | src/app/services/historico.service.ts:45 | adding a name to the `Set` appends it only when it is new |
| HistoricoService.Historico.ObterHistorico | src/app/services/historico.service.ts:20-23 | the stored list, or the empty list when nothing is stored |
| HistoricoService.Historico.SalvarPartida | src/app/services/historico.service.ts:13-17 | the new history is the old one with the session appended, and nothing else changes |
| HistoricoService.Historico.LimparHistorico | src/app/services/historico.service.ts:26-28 | the key is removed, so the history reads back empty |
| HistoricoService.Historico.DeletarPartida | src/app/services/historico.service.ts:31-35 | exactly the sessions with another id stay, in order; an unknown id changes nothing |
| HistoricoService.Historico.GetJogadoresUnicos | src/app/services/historico.service.ts:40-49 | ascending character by character, duplicate-free, and exactly the normalised names in the history |
| HistoricoService.Historico.GetPartidasPorJogador | src/app/services/historico.service.ts:52-59 | the player's sessions, in storage order |
| HistoricoService.Historico.GetPartidasPorPeriodo | src/app/services/historico.service.ts:62-70 | the sessions of the period, in storage order |
| HistoricoService.Historico.GetEstatisticasGerais | src/app/services/historico.service.ts:73-125 | the overall report on the selected sessions, its loops proved to fill the table counts |
| HistoricoService.Historico.GetEstatisticasPorJogador | src/app/services/historico.service.ts:128-223 | the per-player report on the player's sessions, its loops proved to fill the per-table and per-prompt maps |
| HistoricoService.ContarTabuadas | src/app/services/historico.service.ts:107-112 | the nested loops end with each table's number of choices |
| HistoricoService.ContarQuestoes | src/app/services/historico.service.ts:169-175 | the loop adds the session's right and wrong answers to prompts whose first operand is the table |
| HistoricoService.ContarPorTabuada | src/app/services/historico.service.ts:164-179 | the nested loops end with the per-table tallies |
| HistoricoService.ContarPorPergunta | src/app/services/historico.service.ts:195-202 | the nested loops end with the per-prompt tallies |
| GameState.GameStateService.constructor | src/app/services/game-state.service.ts:7-9 | a fresh service holds `''`, `[]`, `false` |
| GameState.GameStateService.SetDadosJogo | src/app/services/game-state.service.ts:11-15 | all three fields take the new values, whatever they held before |
| GameState.GameStateService.GetDadosJogo | src/app/services/game-state.service.ts:17-23 | returns the three fields and changes none |
| GameState.GameStateService.LimparDados | src/app/services/game-state.service.ts:25-29 | back to `''`, `[]`, `false`, the state of a fresh service |
| GameState.SetDepoisGet | src/app/services/game-state.service.ts:11-23 | reading right after writing gives back exactly what was written |
| Jogo.ChaveInjetiva | src/app/components/game/game.component.ts:108 | different questions have different `"AxB"` keys |
| Jogo.Escolha | src/app/components/game/game.component.ts:94-104 | a question from the chosen tables with a multiplier from 1 to 10; in sequential mode, table `q mod n` times `(q mod 10) + 1` |
| Jogo.Saida | src/app/components/game/game.component.ts:90-116 | the retry loop stops within its 100 attempts |
| Jogo.SaidaAnterioresRepetidas | src/app/components/game/game.component.ts:110-116 | every attempt before the one the loop stops at drew a key already used |
| Jogo.SaidaNova | src/app/components/game/game.component.ts:110-116 | the loop stops with a repeated question only after all 100 attempts were repeats |
| Jogo.Questao | src/app/components/game/game.component.ts:93-116 | the question asked is from the chosen tables, with a multiplier from 1 to 10 |
| Jogo.QuestaoNova | src/app/components/game/game.component.ts:90-116 | the question asked is new whenever one of the first 99 attempts would have drawn a new one |
| Jogo.PrimeiraQuestao | src/app/components/game/game.component.ts:93-113 | with no keys recorded, the first attempt is kept |
| Jogo.SequencialSete | src/app/components/game/game.component.ts:100-104 | in sequential mode with table 7 alone, question `q` is 7 × (q + 1) |
| Jogo.SequencialSemRepeticao | src/app/components/game/game.component.ts:100-113 | in sequential mode each of the ten questions is new and is taken at the first attempt |
| Jogo.SucessoSete | src/app/components/game/game.component.ts:159 | after ten answers, the verdict is success exactly when at least 7 are right, that is, at most 3 wrong |
| Jogo.GameComponent.constructor | src/app/components/game/game.component.ts:17-38 | every initial field value: empty name, tables, answer, message and keys; sequential mode; operands, expected answer and counters at 0; colour black; all flags false |
| Jogo.GameComponent.FinalizarJogo | src/app/components/game/game.component.ts:156-166 | the game is over, with the congratulation and its colour at 70% or more, otherwise the practice message and its colour |
| Jogo.GameComponent.Sortear | src/app/components/game/game.component.ts:90-116 | the retry loop ends with the question the attempts settle on |
| Jogo.GameComponent.ProximaQuestao | src/app/components/game/game.component.ts:80-117 | answer cleared and keypad unlocked; after ten questions the game finishes; otherwise the settled question is asked, the expected answer is its product and its key is recorded |
| Jogo.GameComponent.IniciarJogo | src/app/components/game/game.component.ts:60-73 | counters at zero, no keys recorded, game running and not over, answer and message cleared, keypad unlocked, colour kept, then the first question |
| Jogo.GameComponent.NgOnInit | src/app/components/game/game.component.ts:45-58 | with no table handed off nothing changes; otherwise the settings are taken and the game starts as `iniciarJogo` leaves it |
| Jogo.GameComponent.VoltarAoInicio | src/app/components/game/game.component.ts:75-78 | the handed-off settings are cleared |
| Jogo.GameComponent.AdicionarNumero | src/app/components/game/game.component.ts:119-124 | while unlocked and under three characters the digit is appended, otherwise nothing changes; the answer never exceeds three characters |
| Jogo.GameComponent.ApagarUltimo | src/app/components/game/game.component.ts:126-129 | while unlocked, exactly the last character is dropped |
| Jogo.GameComponent.LimparResposta | src/app/components/game/game.component.ts:131-134 | while unlocked the answer is emptied, otherwise nothing changes |
| Jogo.GameComponent.VerificarResposta | src/app/components/game/game.component.ts:136-150 | ignored while locked or with an empty answer; otherwise exactly one counter rises, as `parseInt` of the answer is right or not, one more question is done, `acertos + erros == questoesConcluidas` still holds; after the tenth the game is over with the last question kept, otherwise the next question is asked with the message cleared and the colour kept |
| App.ValoresDecimais | src/app/app.component.ts:12-24 | the first ten values of the table list are the texts of 1 to 10 |
| App.ValorNumerico | src/app/app.component.ts:81 | every fixed entry parses to a table from 1 to 10 |
| App.NumeroDaQuestaoFaixa | src/app/app.component.ts:78-82 | a fixed table is `parseInt` of its value, the random entry is the draw, and the table lies between 1 and 10 |
| App.ColetarEstende | src/app/app.component.ts:92-105 | the loop only appends, and never past ten answers |
| App.ColetarDistintos | src/app/app.component.ts:102-104 | the loop never appends a value the list holds |
| App.ColetarOrigem | src/app/app.component.ts:93-104 | every value the loop appends is positive and proposed by a valid draw |
| App.Embaralhar | src/app/app.component.ts:108 | the shuffle returns a permutation |
| App.GerarRespostas | src/app/app.component.ts:89-109 | ten distinct answers, including the right one, the others positive and plausible, in some order of the collected list |
| App.MensagemFinalSete | src/app/app.component.ts:155-161 | the success message and colour appear exactly when at least 7 of 10 are right |
| App.AppComponent.constructor | src/app/app.component.ts:12-44 | the initial field values |
| App.AppComponent.FinalizarJogo | src/app/app.component.ts:152-162 | the game is over, with the message and colour the 70% rule gives |
| App.AppComponent.ProximaQuestao | src/app/app.component.ts:67-87 | buttons reset; after ten questions the game finishes; otherwise the question the draws give, its product and its ten answer buttons |
| App.AppComponent.PerguntarProxima | src/app/app.component.ts:78-86 | the table comes from the selection, the multiplier from the draw, the right answer is their product and the buttons come from the generator |
| App.AppComponent.IniciarJogo | src/app/app.component.ts:46-59 | counters at zero, game running and not over, buttons reset, colour kept, then the first question |
| App.AppComponent.VoltarAoInicio | src/app/app.component.ts:61-65 | back to the initial message, with the game neither running nor over |
| App.AppComponent.VerificarResposta | src/app/app.component.ts:111-128 | ignored while locked; otherwise it locks, records both answers and raises exactly one counter, with its message and colour, and one more question is done |
| App.AppComponent.GetClassBotao | src/app/app.component.ts:136-146 | `''` before a click; `'correto'` exactly for the right answer; `'incorreto'` exactly for the clicked wrong answer; `''` for the rest |
| App.BotoesMarcados | src/app/app.component.ts:136-146 | after a click exactly one of the ten buttons is styled right and at most one wrong |
| Feedback.Percentual | src/app/components/feedback/feedback.component.ts:20-22 | the nearest integer to 100 · corretos / totalQuestoes, with halves rounded up |
| Feedback.PercentualLimites | src/app/components/feedback/feedback.component.ts:20-22 | 0% for none right, 100% for all right, within 0..100 for a score within the total |
| Feedback.PercentualMonotonico | src/app/components/feedback/feedback.component.ts:20-22 | more correct answers never show a lower percentage |
| Feedback.PercentualSeteDeDez | src/app/components/feedback/feedback.component.ts:20-22 | 7 of 10 shows 70% |
| Home.SelecionadosFiltro | src/app/components/home/home.component.ts:36-40 | the checked numbers are `filter(selecionada).map(numero)` |
| Home.SelecionadosMembros | src/app/components/home/home.component.ts:36-40 | over consecutive tables, a number is listed exactly when its entry is checked |
| Home.SelecionadosCrescentes | src/app/components/home/home.component.ts:36-40 | over consecutive tables, the listed numbers ascend |
| Home.SelecionadosTodas | src/app/components/home/home.component.ts:36-40 | with every entry checked, every number is listed |
| Home.NenhumSelecionado | src/app/components/home/home.component.ts:36-40 | with no entry checked, nothing is listed |
| Home.HomeComponent.constructor | src/app/components/home/home.component.ts:15-29 | empty name, sequential mode, tables 1 to 10 unchecked |
| Home.HomeComponent.TextoBotaoSelecionar | src/app/components/home/home.component.ts:51-53 | `Desmarcar Todas` exactly when all are checked, `Selecionar Todas` otherwise |
| Home.HomeComponent.TextoBotaoIniciar | src/app/components/home/home.component.ts:55-57 | the start text exactly when the game can start, the warning otherwise |
| Home.HomeComponent.IniciarJogo | src/app/components/home/home.component.ts:59-68 | when the game can start, the trimmed name, the checked tables and the mode are handed off; otherwise nothing changes |
| Home.HomeComponent.SelecionarTodas | src/app/components/home/home.component.ts:70-73 | all unchecked if all were checked, all checked otherwise, with the numbers unchanged |
| Home.TabuadasSelecionadasCrescentes | src/app/components/home/home.component.ts:36-40 | the selection ascends and holds exactly the checked tables among 1 to 10 |
| Home.PodeIniciarMarcada | src/app/components/home/home.component.ts:42-45 | the game can start exactly when the trimmed name is not empty and some entry is checked |
| Home.TodasSelecionadasDez | src/app/components/home/home.component.ts:36-49 | all entries are checked exactly when the selection is 1 to 10 |
| HistoricoTela.MaisRecentesPrimeiro | src/app/components/historico/historico.component.ts:27 | timestamps non-increasing, and a permutation of the history |
| HistoricoTela.MaisRecentesPrimeiroEstavel | src/app/components/historico/historico.component.ts:27 | sessions with equal timestamps keep their stored order |
| HistoricoTela.MinutosSegundos | src/app/components/historico/historico.component.ts:41-45 | for s ≥ 0, `60 · min + sec == s` with `0 ≤ sec < 60`; for negative s, both parts carry the sign |
| HistoricoTela.PartesInjetivas | src/app/components/historico/historico.component.ts:42-43 | the minutes and seconds determine the time |
| HistoricoTela.FormatarTempoMinutos | src/app/components/historico/historico.component.ts:41-45 | `parseInt` of the text gives the minutes |
| HistoricoTela.FormatarTempoInjetiva | src/app/components/historico/historico.component.ts:41-45 | different times are written differently |
| HistoricoTela.FormatarTempoExemplo | src/app/components/historico/historico.component.ts:41-45 | 125 s is written `2min 5s` |
| HistoricoTela.HistoricoComponent.constructor | src/app/components/historico/historico.component.ts:14-19 | an empty list over the given service |
| HistoricoTela.HistoricoComponent.NgOnInit | src/app/components/historico/historico.component.ts:21-23 | loads the history newest first |
| HistoricoTela.HistoricoComponent.CarregarHistorico | src/app/components/historico/historico.component.ts:25-28 | the list is the stored history, sorted newest first, and a permutation of it |
| HistoricoTela.HistoricoComponent.DeletarPartida | src/app/components/historico/historico.component.ts:47-52 | unconfirmed, nothing changes; confirmed, the stored history drops that id and the list holds exactly the other sessions, newest first |
| HistoricoTela.HistoricoComponent.LimparTudo | src/app/components/historico/historico.component.ts:54-59 | unconfirmed, nothing changes; confirmed, the history and the list are empty |

## Left out

- Storage: `localStorage` and the JSON round trip are left out. The stored
  value is the field `armazenado`: `None` when the key is absent, otherwise
  the list. Corrupt JSON makes `JSON.parse` throw in the application; that
  error is not modelled.
- `Math.random` is replaced by parameters holding the draws, each within the
  range the application draws it from.
- App.GerarRespostas: the generator loop ends only if the draws eventually
  propose nine new positive values. The method therefore requires candidate
  draws that are enough (`Suficiente`). Only the outcome is proved, not that
  random draws end the loop.
- App.Embaralhar: the comparator `Math.random() - 0.5` is modelled as a
  sequence of swaps. Only the permutation is stated, not how the order is
  distributed.
- App.AppComponent.VerificarResposta: the 1500 ms `setTimeout` that then calls
  `proximaQuestao` is left out. The next question is a separate call of
  `ProximaQuestao`.
- Dates: a session's `data` is declared as an ISO string. It is modelled as
  the integer millisecond timestamp `new Date(data).getTime()`.
- HistoricoService.PartidasPorPeriodo: the current time is a parameter.
  `setDate(getDate() - dias)` is modelled as `dias` times 86 400 000 ms, so
  daylight-saving shifts are not modelled.
- `formatarData` (locale date formatting) is not part of this model.
- `getProgresso` in both game components is left out. It returns a
  floating-point value, and `(q / 10) * 100` in double arithmetic is not
  always an integer.
- Feedback.Percentual: requires `totalQuestoes > 0`. With a total of 0 the
  getter divides by zero and shows `NaN` (none right) or `Infinity`; that
  result is not modelled.
- Feedback.Percentual: the model rounds the exact ratio. `Math.round` of
  double arithmetic can differ from it where the exact value lies on a half.
- Estatisticas.TaxaAcertoMedia, Estatisticas.TempoMedio and Estatisticas.Taxa
  likewise round the exact ratio, not its double approximation.
- Estatisticas.Melhor and Estatisticas.Resultado round each session's exact
  ratio as well. The double product `(c / (c + i)) * 100` can fall just
  below a half: for 23 right of 40 it is 57.49999999999999, so the
  application shows 57 where the model gives 58.
- Estatisticas.Melhor: `Math.max` over a `NaN` percentage, from a session with
  no questions, is `NaN`. It is modelled as `None`.
- Navigation: `Router.navigate` is not modelled. This covers the game's
  redirect when no table was handed off, `voltarAoInicio`, `voltarHome`, and
  the navigation after the start screen's `iniciarJogo`.
- The `confirm` dialogs are modelled as their boolean answer.
- The feedback panel's `EventEmitter` outputs (`onReiniciar`,
  `onVoltarHome`) only forward clicks and are left out.
- Templates, styles, decorators and two-way bindings are left out. The fields
  the bindings write (the name, the mode, the check boxes, the selected
  table) are plain fields.
- `src/app/app.routes.ts` is route configuration and is not part of this
  model.
- Js.StrLt / Seqs.SortDistinctStrings / HistoricoService.Historico.GetJogadoresUnicos:
  the model orders strings by Unicode code point, while `sort()` compares
  UTF-16 code units. The two orders differ only when a character above
  U+FFFF meets one between U+E000 and U+FFFF: `sort()` puts "😀" (U+1F600)
  before "Ａ" (U+FF21), and the model puts it after. For names made of
  characters below U+E000 the orders agree.
- Case mapping: `toLowerCase` and `toUpperCase` map only the ASCII letters.
  Other letters are left as they are.
- Numbers: counts and a session's `tempoTotalSegundos` are `nat`, timestamps,
  the clock and the time `formatarTempo` takes are `int`, and only integer
  `toString` is modelled. Overflow and fractions of JavaScript numbers do not
  arise in the modelled code.
- The `Questao` model file is not part of this model. A question is its
  prompt and whether it was answered right, the two fields the service reads.
- Field names: the statistics read `p.corretos` / `p.incorretos`, but the
  interface declares `acertos` / `erros`. The model reads `acertos` / `erros`.
- Jogo.GameComponent.AdicionarNumero: the three-character bound is stated for
  single digits, the values the keypad passes. A longer number's text would
  pass it.
- HistoricoTela.HistoricoComponent.CarregarHistorico: the array is sorted in
  place, but it is the fresh array `JSON.parse` returned. The model assigns
  the sorted sequence, and no aliasing is lost.
