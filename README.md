# Support-ticket domain layer, modelled in Dafny

This project models the ticket domain layer of a support-ticket backend (`Sistema`).
Users file tickets. Technicians and administrators pick them up and move them through the statuses
ABERTO, EM_ANDAMENTO, RESOLVIDO and FECHADO. Comments accumulate on tickets, and the layer reports
counts by status and by priority.

The relational store is replaced by an in-memory table. The `tickets` and `comentarios` tables are
sequences of rows. Each table has an auto-increment counter, and the model keeps each sequence in
ascending id order. Every operation is given the effect that its SQL text has on those sequences.
The SELECTs carry no ORDER BY, so the order of their results is the model's choice; the
section on what is left out says which contract clauses that affects.

- `wrappers.dfy`: `Option`, for the Java `null`s.
- `textos.dfy`: the text helpers.
  - `String.trim()` and the "blank after trim" test.
  - The substring test behind `LIKE '%term%'`.
  - Decimal rendering and parsing of ids.
- `dominio.dfy`: the domain values.
  - The four enumerations, with their display names, levels, colours and stored symbolic names.
  - The logged-in `Usuario`, with `podeEditarTicket` and `podeAssumirTicket`.
  - The rows of the two tables.
- `ticket.dfy`: the in-memory `Ticket` entity as a class.
  - Its setters refresh `dataAtualizacao`.
  - `setStatus` stamps `dataResolucao`.
  - `adicionarTag` keeps the tag list free of duplicates.
  - `getTempoAberto` gives whole hours.
- `tabela.dfy`: the effect of each SQL statement on the table, as functions.
  - The scoped SELECTs, the lookup by id and the INSERT.
  - `UPDATE ... SET status` and `UPDATE ... SET responsavel_id, status = CASE ...`.
  - The COUNT aggregates.
  - The lemmas about all of these.
- `sistema.dfy`: the `Sistema` class.
  - Its state is the two tables, the two counters and `usuarioLogado`.
  - Mutators return the source's outcome strings.
  - `Consultar`, which serves `listarTickets`, `buscarTickets` and the two filters, walks the rows in a
    `while` loop, and so do the two statistics methods; each loop is proved against its specification
    function. The lookup by id and the two counts read a single result, as the source does.

The wall clock (`LocalDateTime.now()`) is an explicit integer argument `now`, counted in seconds.
A store fault (an `SQLException` raised before the statement takes effect) is the argument `falha`,
which carries the exception's message.
The generated `codigo` is an argument. The status that the store gives a row inserted without one
is the constant `STATUS_PADRAO` (ABERTO). The INSERTs bind only some columns, and the store fills the
rest. The model takes `data_criacao` and `data_atualizacao` of a new ticket to be `now` and its
`data_resolucao` and `responsavel_id` to be null. It takes the `data` of a new comment to be `now`.
The auto-increment counters are assumed not to move when an INSERT fails, although MySQL can use up
a value on a failed INSERT.

The code departs from the rules a ticket system is expected to keep, and the model follows the code:

- `atualizarStatusTicket` runs `UPDATE tickets SET status = ? WHERE id = ?`. It sets neither
  `data_atualizacao` nor `data_resolucao`. So a ticket moved to RESOLVIDO or FECHADO this way keeps
  no resolution time (`Tabela.ResolvidoSemDataResolucao`). The rule that a RESOLVIDO or FECHADO
  ticket carries a resolution time therefore holds only for the in-memory `Ticket.setStatus`.
- `atualizarStatusTicket` does not enforce the status machine. Anyone who may edit a ticket may move
  it from any status to any status.
- `filtrarTicketsPorStatus` and `filtrarTicketsPorPrioridade` add no scope when nobody is logged in,
  so they return every matching row. `listarTickets` returns nothing in that case.
- `adicionarComentario` inserts only the comment row. It leaves the ticket row untouched.

## Model

| member | source | states |
|---|---|---|
| Textos.Trim | Sistema.java:480 | `trim()` returns a string no longer than its input whose first and last chars are above U+0020 |
| Textos.TrimEhTrecho | Sistema.java:480 | what `trim()` returns is a contiguous window of its input |
| Textos.TrimJanelaMaxima | Sistema.java:480 | `trim()` returns the window between a whitespace-only prefix and a whitespace-only suffix of its input |
| Textos.BrancoSseTudoEspaco | Sistema.java:480 | `trim()` leaves the empty string exactly when every char of the string is at most U+0020 |
| Textos.EhBranco | Sistema.java:480 | `s.trim().isEmpty()` holds exactly when the string is whitespace only |
| Textos.TrimIdempotente | Sistema.java:480 | trimming twice is trimming once |
| Textos.OcorreEmPasso | Sistema.java:642 | the term occurs in a value exactly when it is a prefix of it or occurs in its tail |
| Textos.ContemTexto | Sistema.java:636-645 | the recursive `LIKE '%term%'` test holds exactly when some window of the value equals the term |
| Textos.TextoParaNat | Sistema.java:488 | `Integer.parseInt` of a string of k digits gives a value below 10^k; the model gives 0 for the empty string, where `parseInt` throws |
| Textos.NatParaTexto | Sistema.java:495 | the id is rendered as a non-empty run of decimal digits with no leading zero |
| Textos.TextoParaNatInverte | Sistema.java:495 | parsing the rendered id gives the id back |
| Textos.NatParaTextoInjetiva | Sistema.java:495 | distinct ids give distinct success messages |
| Dominio.StatusTicket.EncerraAtendimento | Sistema.java:190 | RESOLVIDO and FECHADO close the attendance; ABERTO and EM_ANDAMENTO do not |
| Dominio.StatusDeSimbolo | Sistema.java:512 | `StatusTicket.valueOf` returns only the status whose stored name is the input; unknown names give None |
| Dominio.StatusSimboloIda | Sistema.java:28-32 | a status written by name (`status.name()`) reads back as the same status |
| Dominio.StatusSimboloInjetivo | Sistema.java:28-32 | distinct statuses have distinct stored names |
| Dominio.PrioridadeTicket.Nivel | Sistema.java:51-55 | priority levels lie in 1..4 |
| Dominio.NivelPrioridadeInjetivo | Sistema.java:51-78 | distinct priorities have distinct levels, so the level orders them totally |
| Dominio.PrioridadeDeSimbolo | Sistema.java:513 | `PrioridadeTicket.valueOf` returns only the priority whose stored name is the input |
| Dominio.PrioridadeSimboloIda | Sistema.java:51-55 | a priority written by name reads back as the same priority |
| Dominio.PrioridadeSimboloInjetivo | Sistema.java:51-55 | distinct priorities have distinct stored names |
| Dominio.PerfilUsuario.Nivel | Sistema.java:80-83 | profile levels lie in 1..3 |
| Dominio.Usuario.PodeAssumirTicket | Sistema.java:356-358 | `podeAssumirTicket` holds exactly for the profiles other than USUARIO, i.e. exactly for profile level at least 2 |
| Dominio.Usuario.PodeEditarTicket | Sistema.java:350-354 | whoever may take tickets may edit every ticket; a USUARIO may edit a ticket exactly when they requested it |
| Dominio.PodeEditarSse | Sistema.java:350-354 | `podeEditarTicket(t)` holds exactly when `podeAssumirTicket` holds or the user requested `t` |
| Dominio.EditarDependeSoDoSolicitante | Sistema.java:350-354 | edit permission depends on no column of the ticket except `solicitante_id` |
| Entidade.HorasEntre | Sistema.java:275-278 | `Duration.toHours()` gives the whole hours of the span, truncated toward zero for negative spans too |
| Entidade.HorasAntissimetricas | Sistema.java:277 | reversing the span negates the hours |
| Entidade.ComTag | Sistema.java:251-256 | the tag list stays duplicate-free; it holds exactly the old tags plus the new one; a present tag leaves it as it was; a new tag is appended at the end |
| Entidade.ComTagIdempotente | Sistema.java:251-256 | adding the same tag twice equals adding it once |
| Entidade.ComTagComuta | Sistema.java:251-256 | the set of tags is independent of the order of addition |
| Entidade.Ticket.constructor | Sistema.java:137-153 | every column is copied and the attachment, tag and comment lists start empty |
| Entidade.Ticket.SetTitulo | Sistema.java:169-172 | sets the title and `dataAtualizacao = now`; nothing else changes |
| Entidade.Ticket.SetDescricao | Sistema.java:178-181 | sets the description and `dataAtualizacao = now`; nothing else changes |
| Entidade.Ticket.SetStatus | Sistema.java:187-193 | sets the status and `dataAtualizacao = now`; sets `dataResolucao = now` exactly for RESOLVIDO/FECHADO, otherwise keeps it, and never clears it |
| Entidade.Ticket.SetPrioridade | Sistema.java:199-202 | sets the priority and `dataAtualizacao = now`; nothing else changes |
| Entidade.Ticket.SetCategoriaId | Sistema.java:208-211 | sets the category and `dataAtualizacao = now`; nothing else changes |
| Entidade.Ticket.SetResponsavelId | Sistema.java:221-224 | sets the responsible, possibly to null, and `dataAtualizacao = now`; nothing else changes |
| Entidade.Ticket.AdicionarAnexo | Sistema.java:242-245 | appends the attachment and sets `dataAtualizacao = now` |
| Entidade.Ticket.AdicionarTag | Sistema.java:251-256 | keeps tags duplicate-free; a present tag changes nothing, not even `dataAtualizacao`; a new tag is appended and refreshes it |
| Entidade.Ticket.AdicionarComentario | Sistema.java:262-265 | appends the comment and sets `dataAtualizacao = now` |
| Entidade.Ticket.TempoAberto | Sistema.java:275-278 | whole hours from creation to the resolution time, or to `now` while there is none, truncated toward zero when that end lies before the creation |
| Entidade.Ticket.TempoAbertoCongelado | Sistema.java:275-278 | once a resolution time is set the elapsed hours no longer depend on the clock |
| Tabela.CasaTermo | Sistema.java:636-642 | `titulo LIKE ? OR descricao LIKE ? OR codigo LIKE ?` with `%term%` holds exactly when the term occurs in the title, the description or the code |
| Tabela.Atende | Sistema.java:528-531 | the WHERE clause of each read: none for the listing, the LIKE clause for the search, `status = ?` and `prioridade = ?` for the filters |
| Tabela.NoEscopo | Sistema.java:530-531 | `AND solicitante_id = ?` holds for every row without a scope; scoped to a USUARIO's id it keeps exactly the rows that user may edit |
| Tabela.Selecionar | Sistema.java:528-541 | a SELECT returns only table rows that meet its WHERE clause and its scope |
| Tabela.SelecionarCompleto | Sistema.java:528-541 | no row that meets the WHERE clause and the scope is missed |
| Tabela.SelecionarSse | Sistema.java:528-541 | a row is returned exactly when it is in the table and meets filter and scope |
| Tabela.SelecionarTudo | Sistema.java:528 | an unscoped `SELECT * FROM tickets` returns the whole table in order |
| Tabela.SelecionarCompoe | Sistema.java:636-639 | a scoped filtered SELECT equals the filter applied to the scoped listing, so it is a sub-list of it |
| Tabela.Escopo | Sistema.java:530-537 | a logged-in user is unscoped exactly when they may take tickets, else scoped to their own id |
| Tabela.EscopoFiltro | Sistema.java:665-672 | the filters are unscoped with nobody logged in and scoped as the listing otherwise |
| Tabela.ListagemVisibilidade | Sistema.java:523-547 | `listarTickets` gives nothing without a user, the whole table to ADMIN/TECNICO, and exactly the user's own tickets otherwise |
| Tabela.Listagem | Sistema.java:523-547 | `listarTickets` returns at most the table's rows, only rows of the table, only with a user logged in, and only rows that user may edit |
| Tabela.BuscarPorId | Sistema.java:549-562 | the lookup returns a table row with that id, and null exactly when no row has it |
| Tabela.BuscarPorIdUnico | Sistema.java:550-556 | with unique keys the lookup by a row's id returns that row |
| Tabela.NovaLinha | Sistema.java:483-490 | the inserted row carries the bound title, description, category, requester and MEDIA under the next id. The store's defaults, as the model takes them, give status ABERTO (not a closing status), no responsible, no resolution time and both timestamps at insertion time. The requester may edit the row |
| Tabela.InserirEntaoBuscar | Sistema.java:483-495 | inserting under the next id keeps keys valid; the new row is found under its id and every other lookup is unchanged |
| Tabela.CriadoEntaoLido | Sistema.java:484-490 | a created ticket reads back with its title, description, category and requester, status ABERTO, priority MEDIA and no responsible |
| Tabela.MudarStatus | Sistema.java:575-579 | `UPDATE tickets SET status = ? WHERE id = ?` changes only the status of the rows with that id and nothing else |
| Tabela.MudarStatusPreservaIds | Sistema.java:575 | the status update keeps the key discipline |
| Tabela.MudarStatusJaAtual | Sistema.java:575 | setting the status a ticket already has leaves the table identical |
| Tabela.MudarStatusIdempotente | Sistema.java:575 | repeating the status update changes nothing more |
| Tabela.BuscarAposMudarStatus | Sistema.java:575 | reading back after the update shows the new status and every other column as before |
| Tabela.ResolvidoSemDataResolucao | Sistema.java:575 | a ticket moved to RESOLVIDO by the UPDATE can be left with no resolution time |
| Tabela.MudarResponsavel | Sistema.java:594-598 | the assignment sets `responsavel_id` on the rows with that id and moves ABERTO to EM_ANDAMENTO, keeping any other status; other rows and columns are untouched |
| Tabela.MudarResponsavelPreservaIds | Sistema.java:594 | the assignment keeps the key discipline |
| Tabela.MudarResponsavelSobrescreve | Sistema.java:594 | re-assigning overwrites silently: two assignments equal the last one alone |
| Tabela.BuscarAposMudarResponsavel | Sistema.java:594 | reading back after the assignment shows the responsible set and ABERTO turned into EM_ANDAMENTO, other statuses kept |
| Tabela.ContarStatus | Sistema.java:806 | the size of one `GROUP BY status` group, never above the table size |
| Tabela.ContarStatusExtremos | Sistema.java:806 | a status group is empty exactly when no row has the status, and the whole table exactly when every row has it |
| Tabela.ContarPrioridade | Sistema.java:819 | the size of one `GROUP BY prioridade` group, never above the table size |
| Tabela.ContarPrioridadeExtremos | Sistema.java:819 | a priority group is empty exactly when no row has the priority, and the whole table exactly when every row has it |
| Tabela.ContarNaoFechados | Sistema.java:843 | `COUNT(*) ... WHERE status != 'FECHADO'`, never above the table size |
| Tabela.ContarNaoFechadosExtremos | Sistema.java:843 | the open count is zero exactly when every ticket is FECHADO, and the table size exactly when none is |
| Tabela.SomaPorStatus | Sistema.java:806 | the per-status counts add up to the table size |
| Tabela.SomaPorPrioridade | Sistema.java:819 | the per-priority counts add up to the table size |
| Tabela.AbertosSaoNaoFechados | Sistema.java:843 | the open count is the total minus the FECHADO count, i.e. ABERTO + EM_ANDAMENTO + RESOLVIDO |
| Tabela.ContarNaoFechadosAposInserir | Sistema.java:843 | an inserted row adds one to the open count unless it is FECHADO |
| Tabela.MudarResponsavelPreservaAbertos | Sistema.java:594 | assigning a responsible never changes the open count |
| Tabela.EstatisticaStatusPasso | Sistema.java:806-810 | counting one more row into a correct status map gives the correct map for the longer table |
| Tabela.EstatisticaPrioridadePasso | Sistema.java:819-823 | the same for the priority map |
| Repositorio.EhErro | Sistema.java:476-628 | a failure outcome is one whose text starts with "Erro" |
| Repositorio.MensagensClassificadas | Sistema.java:476-628 | every failure outcome starts with "Erro" and no success outcome does |
| Repositorio.Ausente | Sistema.java:480 | `s == null` or `s.trim().isEmpty()` holds exactly when there is no value or it is whitespace only |
| Repositorio.Sistema.constructor | Sistema.java:468-473 | starts from the store's tables, with valid keys, and the user with id 1 looked up at start-up, or none |
| Repositorio.Sistema.SetUsuarioLogado | Sistema.java:799-801 | replaces the principal; the tables are untouched |
| Repositorio.Sistema.CriarTicket | Sistema.java:476-504 | refuses without a user, then with a null/blank title or description, then on a store fault before the INSERT takes effect, leaving the table unchanged; otherwise appends exactly the new row (user as requester, MEDIA, no responsible), reports `ID: <new id>`, and adds one to total and open counts |
| Repositorio.Sistema.InserirTicket | Sistema.java:483-495 | appends exactly the new row under the next id, advances the counter, and adds one to the total and to the open count; nothing else changes |
| Repositorio.Sistema.AtualizarStatusTicket | Sistema.java:564-588 | checks in order not authenticated, not found, no edit permission and a store fault before the UPDATE takes effect, each with its own message and the table unchanged; on success only the status column of that row changes |
| Repositorio.Sistema.AtribuirResponsavel | Sistema.java:590-607 | refuses unless a logged user may take tickets; a fault before the UPDATE takes effect or an unknown id is an error with the table unchanged; on success applies the CASE update; total and open counts never change |
| Repositorio.Sistema.AdicionarComentario | Sistema.java:609-628 | refuses without a user or on a fault before the INSERT takes effect; otherwise appends one comment row by the logged user; the tickets table never changes |
| Repositorio.Sistema.Consultar | Sistema.java:538-541 | the row loop returns exactly the rows the scoped SELECT selects, in store order |
| Repositorio.Sistema.ListarTickets | Sistema.java:523-547 | empty without a user; the whole table for ADMIN/TECNICO; exactly the user's own rows otherwise |
| Repositorio.Sistema.BuscarTicketPorId | Sistema.java:549-562 | null exactly when no row has the id; otherwise a fresh `Ticket` mapped from that row |
| Repositorio.Sistema.BuscarTickets | Sistema.java:631-659 | a null/blank term gives exactly `listarTickets()`; otherwise every result contains the term in title, description or code; results are always a subset of `listarTickets()` |
| Repositorio.Sistema.FiltrarTicketsPorStatus | Sistema.java:661-683 | exactly the rows with that status, scoped to the user's own when a USUARIO is logged in; all such rows when nobody is |
| Repositorio.Sistema.FiltrarTicketsPorPrioridade | Sistema.java:685-707 | exactly the rows with that priority, scoped the same way |
| Repositorio.Sistema.EstatisticasStatus | Sistema.java:804-815 | the map has a key, the status name, for each present status, mapped to its row count, and no other key |
| Repositorio.Sistema.EstatisticasPrioridade | Sistema.java:817-828 | the same by priority |
| Repositorio.Sistema.TotalTickets | Sistema.java:830-840 | the total equals the sum of the per-status counts and the sum of the per-priority counts |
| Repositorio.Sistema.TicketsAbertos | Sistema.java:842-852 | the open count is every ticket except the FECHADO ones |

## Left out

- JDBC plumbing (`Connection`, `PreparedStatement`, `ResultSet`, `printStackTrace`) is replaced by the in-memory tables.
- Read faults are not modelled. An `SQLException` during a read would give an empty or partial list, a null lookup or zero counts; the read operations here are fault-free.
- Three outcome strings are never produced: "Erro: Não foi possível criar o ticket", "... atualizar o status" and "... adicionar o comentário". In the sequential in-memory store the INSERTs always affect one row and the generated key is always returned. The status UPDATE always affects the row it has just found, because concurrent deletion between the lookup and the update is not modelled. In the source, `criarTicket` also returns "Erro: Não foi possível criar o ticket" when the INSERT wrote its row but no generated key comes back; the row then stays written, and that path is not modelled.
- `falha` stands for a store fault raised before the statement takes effect, and the model then leaves the tables unchanged. A fault raised after it (reading the generated key, closing the statement or its result set) reports the error although the row was written, because the connection auto-commits; that case is not modelled.
- Foreign keys of the store are not modelled. A comment on a nonexistent ticket is inserted unless the argument `falha` reports the store's refusal.
- `gerarArquivosJson` is left out: it writes JSON files through Gson and `FileWriter`, which is file I/O through a foreign library.
- `getTempoMedioResolucao` is left out: it is a floating-point SQL `AVG(TIMESTAMPDIFF(...))`.
- The date formatting methods (`getDataCriacaoFormatada`, `getDataAtualizacaoFormatada`, `Comentario.getDataFormatada`) are left out: they are presentation through `DateTimeFormatter`.
- Time has a resolution of whole seconds; the sub-second part of `LocalDateTime` is not modelled.
- Case-insensitive matching belongs to the database collation. Inside a search term, `%` and `_` act as LIKE wildcards, and `\` is LIKE's default escape character (so the term `C:\temp` matches "C:temp"). None of this is modelled: the search is a plain, case-sensitive substring test.
- The SELECTs have no ORDER BY, so the program promises no order for the rows that `listarTickets`, `buscarTickets` and the two filters return. The model returns them in ascending id order. Of the contracts of `Repositorio.Sistema.ListarTickets`, `Repositorio.Sistema.Consultar`, `Repositorio.Sistema.BuscarTickets`, `Repositorio.Sistema.FiltrarTicketsPorStatus`, `Repositorio.Sistema.FiltrarTicketsPorPrioridade` and `Tabela.SelecionarTudo`, only the membership clauses are guarantees of the program; the sequence equalities also fix that order.
- `Integer.parseInt` failures on id strings are left out: ids are integers in the model.
- A null enum argument is not modelled: the status, priority and comment-type parameters are non-null values. In the source, `novoStatus.name()` (Sistema.java:577), `tipo.name()` (618), `status.name()` (670) and `prioridade.name()` (694) then throw a `NullPointerException`. Only `SQLException` is caught, so the exception escapes the operation.
- A stored status or priority name that is null or unknown is not modelled: rows hold typed values. In the source, `StatusTicket.valueOf` and `PrioridadeTicket.valueOf` in `mapearResultSetParaTicket` (512-513) then throw an `IllegalArgumentException` or a `NullPointerException`. That exception escapes every read, and escapes `atualizarStatusTicket` through its lookup at 568.
- Java `int` overflow is not modelled: counts and ids are unbounded integers.
- The `usuarios` and `categorias` tables are not part of this model. So `getUsuarios`, `getCategorias`, `buscarUsuarioPorId`, `buscarCategoriaPorId` and the plain setters of `Usuario` and `Categoria` are left out. The constructor takes the result of the start-up user lookup as an argument.
- `getUsuarioLogado` is left out: it is a plain getter of the field `usuarioLogado`.
- The enum display names and colours are constants without any rule to prove.
- `Repositorio.Sistema.BuscarTickets` requires a logged-in user when the term is not blank. On that path the source dereferences `usuarioLogado` without a check and throws.
- The list operations return row snapshots rather than fresh `Ticket` objects. The row-to-object mapping is modelled once, in `BuscarTicketPorId`.
- `getTags`, `getAnexos` and `getComentarios` hand out the live lists, so a caller can break the no-duplicate tag rule. This aliasing is not modelled.
- Timestamp ordering (created ≤ updated ≤ resolved) is not stated. The clock is a free argument, and the source does not make it monotone.
