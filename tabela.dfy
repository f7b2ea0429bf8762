/** The `tickets` table as a sequence of rows in store order (ascending id),
    and the effect of each SQL statement the ticket layer issues on it:
    the scoped SELECTs, the lookup by id, the two UPDATEs, the INSERT and the
    COUNT aggregates. Every recursion peels the LAST row, so that a loop that
    walks the rows forward and appends matches the definition step by step. */
module Tabela {
  import opened Wrappers
  import opened Dominio
  import opened Textos

  // ---- ids ----------------------------------------------------------------

  /** The primary key as an auto-increment counter keeps it: every id is
      positive, ids grow with position, and `proximo` is above all of them. */
  ghost predicate IdsValidos(rows: seq<TicketRow>, proximo: int) {
    && (forall i :: 0 <= i < |rows| ==> 0 < rows[i].id < proximo)
    && (forall i, j :: 0 <= i < j < |rows| ==> rows[i].id < rows[j].id)
  }

  /** The same discipline for the `comentarios` table. */
  ghost predicate ComentarioIdsValidos(cs: seq<ComentarioRow>, proximo: int) {
    && (forall i :: 0 <= i < |cs| ==> 0 < cs[i].id < proximo)
    && (forall i, j :: 0 <= i < j < |cs| ==> cs[i].id < cs[j].id)
  }

  // ---- SELECT ... WHERE ---------------------------------------------------

  /** The WHERE clause a read operation adds besides the visibility scope. */
  datatype Filtro =
    | Tudo                                      // listarTickets
    | Termo(termo: string)                      // buscarTickets
    | ComStatus(status: StatusTicket)           // filtrarTicketsPorStatus
    | ComPrioridade(prioridade: PrioridadeTicket) // filtrarTicketsPorPrioridade

  /** `titulo LIKE ? OR descricao LIKE ? OR codigo LIKE ?` with `%termo%`. */
  predicate CasaTermo(t: TicketRow, termo: string): (b: bool)
    ensures b <==> OcorreEm(t.titulo, termo) || OcorreEm(t.descricao, termo) || OcorreEm(t.codigo, termo)
  {
    ContemTexto(t.titulo, termo) || ContemTexto(t.descricao, termo) || ContemTexto(t.codigo, termo)
  }

  /** The WHERE clause of each read operation. */
  predicate Atende(f: Filtro, t: TicketRow): (b: bool)
    ensures f.Tudo? ==> b
    ensures f.Termo? ==> (b <==> OcorreEm(t.titulo, f.termo) || OcorreEm(t.descricao, f.termo) || OcorreEm(t.codigo, f.termo))
    ensures f.ComStatus? ==> (b <==> t.status == f.status)
    ensures f.ComPrioridade? ==> (b <==> t.prioridade == f.prioridade)
  {
    match f
    case Tudo => true
    case Termo(x) => CasaTermo(t, x)
    case ComStatus(s) => t.status == s
    case ComPrioridade(p) => t.prioridade == p
  }

  /** `AND solicitante_id = ?` when the scope names a requester. */
  predicate NoEscopo(escopo: Option<int>, t: TicketRow): (b: bool)
    ensures escopo.None? ==> b
    ensures forall u: Usuario :: escopo == Some(u.id) && u.perfil == Comum ==> (b <==> u.PodeEditarTicket(t))
  {
    escopo.None? || t.solicitanteId == escopo.value
  }

  /** The rows a SELECT returns, in store order. */
  function Selecionar(rows: seq<TicketRow>, f: Filtro, escopo: Option<int>): (r: seq<TicketRow>)
    ensures |r| <= |rows|
    ensures forall t :: t in r ==> t in rows && Atende(f, t) && NoEscopo(escopo, t)
  {
    if rows == [] then []
    else
      var t := rows[|rows| - 1];
      Selecionar(rows[..|rows| - 1], f, escopo) + (if Atende(f, t) && NoEscopo(escopo, t) then [t] else [])
  }

  /** Nothing that meets the WHERE clause is missed. */
  lemma {:induction false} SelecionarCompleto(rows: seq<TicketRow>, f: Filtro, escopo: Option<int>, t: TicketRow)
    requires t in rows && Atende(f, t) && NoEscopo(escopo, t)
    ensures t in Selecionar(rows, f, escopo)
  {
    var ini := rows[..|rows| - 1];
    if t != rows[|rows| - 1] {
      assert rows == ini + [rows[|rows| - 1]];
      SelecionarCompleto(ini, f, escopo, t);
    }
  }

  lemma SelecionarSse(rows: seq<TicketRow>, f: Filtro, escopo: Option<int>)
    ensures forall t :: t in Selecionar(rows, f, escopo) <==> t in rows && Atende(f, t) && NoEscopo(escopo, t)
  {
    forall t | t in rows && Atende(f, t) && NoEscopo(escopo, t)
      ensures t in Selecionar(rows, f, escopo)
    {
      SelecionarCompleto(rows, f, escopo, t);
    }
  }

  /** An unscoped `SELECT * FROM tickets` returns the whole table. */
  lemma {:induction false} SelecionarTudo(rows: seq<TicketRow>)
    ensures Selecionar(rows, Tudo, None) == rows
  {
    if rows != [] {
      SelecionarTudo(rows[..|rows| - 1]);
    }
  }

  /** Selecting from a table with one more row at the end. */
  lemma SelecionarMaisUm(rows: seq<TicketRow>, t: TicketRow, f: Filtro, escopo: Option<int>)
    ensures Selecionar(rows + [t], f, escopo)
         == Selecionar(rows, f, escopo) + (if Atende(f, t) && NoEscopo(escopo, t) then [t] else [])
  {
    assert (rows + [t])[..|rows|] == rows;
  }

  /** A scoped search is the search applied to the scoped listing, so it
      returns a sub-list of what the listing returns. */
  lemma {:induction false} SelecionarCompoe(rows: seq<TicketRow>, f: Filtro, escopo: Option<int>)
    ensures Selecionar(rows, f, escopo) == Selecionar(Selecionar(rows, Tudo, escopo), f, None)
  {
    if rows != [] {
      var ini := rows[..|rows| - 1];
      var t := rows[|rows| - 1];
      assert rows == ini + [t];
      SelecionarCompoe(ini, f, escopo);
      var l := Selecionar(ini, Tudo, escopo);
      SelecionarMaisUm(ini, t, Tudo, escopo);
      SelecionarMaisUm(ini, t, f, escopo);
      if NoEscopo(escopo, t) {
        SelecionarMaisUm(l, t, f, None);
      } else {
        assert Selecionar(rows, Tudo, escopo) == l;
      }
    }
  }

  // ---- visibility scoping -------------------------------------------------

  /** The scope `listarTickets` and `buscarTickets` apply to a logged-in user:
      none for ADMIN and TECNICO, the user's own id otherwise. */
  function Escopo(u: Usuario): (e: Option<int>)
    ensures e.None? <==> u.PodeAssumirTicket()
    ensures e.Some? ==> e.value == u.id
  {
    if u.perfil != Admin && u.perfil != Tecnico then Some(u.id) else None
  }

  /** The scope of `filtrarTicketsPorStatus`/`Prioridade`: as `Escopo` when a
      user is logged in, and none at all when nobody is. */
  function EscopoFiltro(u: Option<Usuario>): (e: Option<int>)
    ensures u.None? ==> e.None?
    ensures u.Some? ==> e == Escopo(u.value)
  {
    if u.Some? && u.value.perfil != Admin && u.value.perfil != Tecnico then Some(u.value.id) else None
  }

  /** What `listarTickets` returns: table rows only, and only rows the
      logged-in user may edit. */
  function Listagem(rows: seq<TicketRow>, u: Option<Usuario>): (r: seq<TicketRow>)
    ensures |r| <= |rows|
    ensures forall t :: t in r ==> t in rows && u.Some? && u.value.PodeEditarTicket(t)
  {
    if u.None? then [] else Selecionar(rows, Tudo, Escopo(u.value))
  }

  /** The visibility rule of every listing: nothing without a user, the
      whole table for ADMIN and TECNICO, a plain user's own tickets otherwise. */
  lemma ListagemVisibilidade(rows: seq<TicketRow>, u: Option<Usuario>)
    ensures u.None? ==> Listagem(rows, u) == []
    ensures u.Some? && u.value.PodeAssumirTicket() ==> Listagem(rows, u) == rows
    ensures u.Some? && !u.value.PodeAssumirTicket() ==>
              forall t :: t in Listagem(rows, u) <==> t in rows && t.solicitanteId == u.value.id
  {
    if u.Some? {
      if u.value.PodeAssumirTicket() {
        SelecionarTudo(rows);
      } else {
        SelecionarSse(rows, Tudo, Escopo(u.value));
      }
    }
  }

  // ---- SELECT * FROM tickets WHERE id = ? --------------------------------

  /** The first row with the id, as `if (rs.next())` takes it. */
  function BuscarPorId(rows: seq<TicketRow>, id: int): (r: Option<TicketRow>)
    ensures r.Some? ==> r.value in rows && r.value.id == id
    ensures r.None? <==> forall i :: 0 <= i < |rows| ==> rows[i].id != id
  {
    if rows == [] then None
    else
      var ini := rows[..|rows| - 1];
      var t := rows[|rows| - 1];
      var r := BuscarPorId(ini, id);
      assert forall i :: 0 <= i < |ini| ==> ini[i] == rows[i];
      if r.Some? then r else if t.id == id then Some(t) else None
  }

  /** With unique ids the row found is the only one carrying the id. */
  lemma BuscarPorIdUnico(rows: seq<TicketRow>, proximo: int, i: int)
    requires IdsValidos(rows, proximo)
    requires 0 <= i < |rows|
    ensures BuscarPorId(rows, rows[i].id) == Some(rows[i])
  {
    var r := BuscarPorId(rows, rows[i].id);
    var j :| 0 <= j < |rows| && rows[j] == r.value;
    assert j == i;
  }

  // ---- INSERT INTO tickets ------------------------------------------------

  /** The status the store assigns to a row the INSERT gives no status. */
  const STATUS_PADRAO: StatusTicket := Aberto

  /** The row `criarTicket`'s INSERT produces: the given title, description
      and category, the user as requester, MEDIA priority, no responsible,
      no resolution time, both timestamps at insertion time. */
  function NovaLinha(id: int, codigo: string, titulo: string, descricao: string,
                     categoriaId: int, solicitanteId: int, now: int): (r: TicketRow)
    ensures r.id == id && r.status == STATUS_PADRAO && !r.status.EncerraAtendimento()
    ensures r.responsavelId.None? && r.dataResolucao.None?
    ensures r.dataCriacao == r.dataAtualizacao == now
    ensures forall u: Usuario :: u.id == solicitanteId ==> u.PodeEditarTicket(r)
  {
    TicketRow(id, codigo, titulo, descricao, STATUS_PADRAO, Media, categoriaId,
              solicitanteId, None, now, now, None)
  }

  /** Inserting under the next id keeps the keys valid, the new row is found
      under that id, and every other id finds what it found before. */
  lemma InserirEntaoBuscar(rows: seq<TicketRow>, proximo: int, linha: TicketRow, id: int)
    requires IdsValidos(rows, proximo) && proximo > 0
    requires linha.id == proximo
    ensures IdsValidos(rows + [linha], proximo + 1)
    ensures BuscarPorId(rows + [linha], proximo) == Some(linha)
    ensures id != proximo ==> BuscarPorId(rows + [linha], id) == BuscarPorId(rows, id)
  {
    var novo := rows + [linha];
    assert novo[..|novo| - 1] == rows;
    assert BuscarPorId(rows, proximo).None?;
  }

  /** Reading back a freshly created ticket gives exactly the fields it was
      created with, status ABERTO, priority MEDIA and no responsible. */
  lemma CriadoEntaoLido(rows: seq<TicketRow>, proximo: int, codigo: string, titulo: string,
                        descricao: string, categoriaId: int, solicitanteId: int, now: int)
    requires IdsValidos(rows, proximo) && proximo > 0
    ensures var t := BuscarPorId(rows + [NovaLinha(proximo, codigo, titulo, descricao, categoriaId, solicitanteId, now)], proximo);
      && t.Some?
      && t.value.titulo == titulo && t.value.descricao == descricao
      && t.value.categoriaId == categoriaId && t.value.solicitanteId == solicitanteId
      && t.value.status == Aberto && t.value.prioridade == Media && t.value.responsavelId.None?
  {
    InserirEntaoBuscar(rows, proximo, NovaLinha(proximo, codigo, titulo, descricao, categoriaId, solicitanteId, now), proximo);
  }

  // ---- UPDATE tickets SET status = ? WHERE id = ? -------------------------

  function MudarStatus(rows: seq<TicketRow>, id: int, s: StatusTicket): (r: seq<TicketRow>)
    ensures |r| == |rows|
    ensures forall i :: 0 <= i < |rows| ==>
              r[i] == if rows[i].id == id then rows[i].(status := s) else rows[i]
  {
    if rows == [] then []
    else
      var t := rows[|rows| - 1];
      MudarStatus(rows[..|rows| - 1], id, s) + [if t.id == id then t.(status := s) else t]
  }

  /** Only the status column changes, so the keys stay valid. */
  lemma MudarStatusPreservaIds(rows: seq<TicketRow>, proximo: int, id: int, s: StatusTicket)
    requires IdsValidos(rows, proximo)
    ensures IdsValidos(MudarStatus(rows, id, s), proximo)
  {
  }

  /** Setting the status a ticket already has leaves the table exactly as it
      was (the statement touches no timestamp). */
  lemma MudarStatusJaAtual(rows: seq<TicketRow>, id: int, s: StatusTicket)
    requires forall i :: 0 <= i < |rows| && rows[i].id == id ==> rows[i].status == s
    ensures MudarStatus(rows, id, s) == rows
  {
    var r := MudarStatus(rows, id, s);
    assert forall i :: 0 <= i < |rows| ==> r[i] == rows[i];
  }

  /** Repeating a status update changes nothing more. */
  lemma MudarStatusIdempotente(rows: seq<TicketRow>, id: int, s: StatusTicket)
    ensures MudarStatus(MudarStatus(rows, id, s), id, s) == MudarStatus(rows, id, s)
  {
    MudarStatusJaAtual(MudarStatus(rows, id, s), id, s);
  }

  /** Reading the ticket back after the update shows the new status and
      every other column as before. */
  lemma {:induction false} BuscarAposMudarStatus(rows: seq<TicketRow>, id: int, s: StatusTicket)
    ensures var antes := BuscarPorId(rows, id);
      BuscarPorId(MudarStatus(rows, id, s), id) == if antes.Some? then Some(antes.value.(status := s)) else None
  {
    if rows != [] {
      var ini := rows[..|rows| - 1];
      var novo := MudarStatus(rows, id, s);
      assert novo[..|novo| - 1] == MudarStatus(ini, id, s);
      BuscarAposMudarStatus(ini, id, s);
    }
  }

  /** The UPDATE does not stamp `data_resolucao`: a ticket moved to RESOLVIDO
      by it can be left without a resolution time. */
  lemma ResolvidoSemDataResolucao()
    ensures var antes := TicketRow(1, "T1", "a", "b", Aberto, Media, 1, 1, None, 0, 0, None);
      var depois := MudarStatus([antes], 1, Resolvido);
      depois[0].status == Resolvido && depois[0].dataResolucao.None?
  {
  }

  // ---- UPDATE tickets SET responsavel_id = ?, status = CASE ... ----------

  /** `status = CASE WHEN status = 'ABERTO' THEN 'EM_ANDAMENTO' ELSE status END`. */
  function MudarResponsavel(rows: seq<TicketRow>, id: int, responsavel: int): (r: seq<TicketRow>)
    ensures |r| == |rows|
    ensures forall i :: 0 <= i < |rows| && rows[i].id != id ==> r[i] == rows[i]
    ensures forall i :: 0 <= i < |rows| && rows[i].id == id ==>
              && r[i].responsavelId == Some(responsavel)
              && r[i].status == (if rows[i].status == Aberto then EmAndamento else rows[i].status)
              && r[i] == rows[i].(responsavelId := r[i].responsavelId, status := r[i].status)
  {
    if rows == [] then []
    else
      var t := rows[|rows| - 1];
      var t' := if t.id == id then
                  t.(responsavelId := Some(responsavel),
                     status := if t.status == Aberto then EmAndamento else t.status)
                else t;
      MudarResponsavel(rows[..|rows| - 1], id, responsavel) + [t']
  }

  lemma MudarResponsavelPreservaIds(rows: seq<TicketRow>, proximo: int, id: int, responsavel: int)
    requires IdsValidos(rows, proximo)
    ensures IdsValidos(MudarResponsavel(rows, id, responsavel), proximo)
  {
    var r := MudarResponsavel(rows, id, responsavel);
    assert forall i :: 0 <= i < |rows| ==> r[i].id == rows[i].id;
  }

  /** Re-assigning overwrites silently: only the last responsible counts. */
  lemma MudarResponsavelSobrescreve(rows: seq<TicketRow>, id: int, a: int, b: int)
    ensures MudarResponsavel(MudarResponsavel(rows, id, a), id, b) == MudarResponsavel(rows, id, b)
  {
    var l := MudarResponsavel(MudarResponsavel(rows, id, a), id, b);
    var r := MudarResponsavel(rows, id, b);
    assert forall i :: 0 <= i < |rows| ==> l[i] == r[i];
  }

  /** Reading back after the assignment: the responsible is set, ABERTO has
      become EM_ANDAMENTO, any other status is kept. */
  lemma {:induction false} BuscarAposMudarResponsavel(rows: seq<TicketRow>, id: int, responsavel: int)
    ensures var antes := BuscarPorId(rows, id);
      var depois := BuscarPorId(MudarResponsavel(rows, id, responsavel), id);
      && depois.Some? == antes.Some?
      && (antes.Some? ==>
            && depois.value.responsavelId == Some(responsavel)
            && depois.value.status == (if antes.value.status == Aberto then EmAndamento else antes.value.status))
  {
    if rows != [] {
      var ini := rows[..|rows| - 1];
      var novo := MudarResponsavel(rows, id, responsavel);
      assert novo[..|novo| - 1] == MudarResponsavel(ini, id, responsavel);
      BuscarAposMudarResponsavel(ini, id, responsavel);
    }
  }

  // ---- COUNT aggregates ---------------------------------------------------

  /** `COUNT(*) ... GROUP BY status`, one group. */
  function ContarStatus(rows: seq<TicketRow>, s: StatusTicket): (n: nat)
    ensures n <= |rows|
  {
    if rows == [] then 0
    else ContarStatus(rows[..|rows| - 1], s) + (if rows[|rows| - 1].status == s then 1 else 0)
  }

  /** `COUNT(*) ... GROUP BY prioridade`, one group. */
  function ContarPrioridade(rows: seq<TicketRow>, p: PrioridadeTicket): (n: nat)
    ensures n <= |rows|
  {
    if rows == [] then 0
    else ContarPrioridade(rows[..|rows| - 1], p) + (if rows[|rows| - 1].prioridade == p then 1 else 0)
  }

  /** `SELECT COUNT(*) FROM tickets WHERE status != 'FECHADO'`. */
  function ContarNaoFechados(rows: seq<TicketRow>): (n: nat)
    ensures n <= |rows|
  {
    if rows == [] then 0
    else ContarNaoFechados(rows[..|rows| - 1]) + (if rows[|rows| - 1].status != Fechado then 1 else 0)
  }

  /** A status group is empty exactly when no row has the status, and is
      the whole table exactly when every row has it. */
  lemma {:induction false} ContarStatusExtremos(rows: seq<TicketRow>, s: StatusTicket)
    ensures ContarStatus(rows, s) == 0 <==> forall i :: 0 <= i < |rows| ==> rows[i].status != s
    ensures ContarStatus(rows, s) == |rows| <==> forall i :: 0 <= i < |rows| ==> rows[i].status == s
  {
    if rows != [] {
      var ini := rows[..|rows| - 1];
      ContarStatusExtremos(ini, s);
      assert forall i :: 0 <= i < |ini| ==> ini[i] == rows[i];
    }
  }

  /** The same for a priority group. */
  lemma {:induction false} ContarPrioridadeExtremos(rows: seq<TicketRow>, p: PrioridadeTicket)
    ensures ContarPrioridade(rows, p) == 0 <==> forall i :: 0 <= i < |rows| ==> rows[i].prioridade != p
    ensures ContarPrioridade(rows, p) == |rows| <==> forall i :: 0 <= i < |rows| ==> rows[i].prioridade == p
  {
    if rows != [] {
      var ini := rows[..|rows| - 1];
      ContarPrioridadeExtremos(ini, p);
      assert forall i :: 0 <= i < |ini| ==> ini[i] == rows[i];
    }
  }

  /** No ticket is open exactly when all are FECHADO; all are open exactly
      when none is. */
  lemma {:induction false} ContarNaoFechadosExtremos(rows: seq<TicketRow>)
    ensures ContarNaoFechados(rows) == 0 <==> forall i :: 0 <= i < |rows| ==> rows[i].status == Fechado
    ensures ContarNaoFechados(rows) == |rows| <==> forall i :: 0 <= i < |rows| ==> rows[i].status != Fechado
  {
    if rows != [] {
      var ini := rows[..|rows| - 1];
      ContarNaoFechadosExtremos(ini);
      assert forall i :: 0 <= i < |ini| ==> ini[i] == rows[i];
    }
  }

  /** The status groups partition the table. */
  lemma {:induction false} SomaPorStatus(rows: seq<TicketRow>)
    ensures ContarStatus(rows, Aberto) + ContarStatus(rows, EmAndamento)
          + ContarStatus(rows, Resolvido) + ContarStatus(rows, Fechado) == |rows|
  {
    if rows != [] {
      SomaPorStatus(rows[..|rows| - 1]);
    }
  }

  /** The priority groups partition the table. */
  lemma {:induction false} SomaPorPrioridade(rows: seq<TicketRow>)
    ensures ContarPrioridade(rows, Baixa) + ContarPrioridade(rows, Media)
          + ContarPrioridade(rows, Alta) + ContarPrioridade(rows, Critica) == |rows|
  {
    if rows != [] {
      SomaPorPrioridade(rows[..|rows| - 1]);
    }
  }

  /** "Open" tickets are all but the FECHADO ones; RESOLVIDO counts as open. */
  lemma {:induction false} AbertosSaoNaoFechados(rows: seq<TicketRow>)
    ensures ContarNaoFechados(rows) == |rows| - ContarStatus(rows, Fechado)
    ensures ContarNaoFechados(rows) == ContarStatus(rows, Aberto) + ContarStatus(rows, EmAndamento)
                                       + ContarStatus(rows, Resolvido)
  {
    if rows != [] {
      AbertosSaoNaoFechados(rows[..|rows| - 1]);
    }
  }

  /** A row appended by an INSERT adds one to the total and, unless it is
      FECHADO, one to the open count. */
  lemma ContarNaoFechadosAposInserir(rows: seq<TicketRow>, t: TicketRow)
    ensures ContarNaoFechados(rows + [t]) == ContarNaoFechados(rows) + (if t.status != Fechado then 1 else 0)
  {
    assert (rows + [t])[..|rows|] == rows;
  }

  /** Assigning a responsible never opens or closes a ticket in the sense of
      the open-tickets count. */
  lemma {:induction false} MudarResponsavelPreservaAbertos(rows: seq<TicketRow>, id: int, responsavel: int)
    ensures ContarNaoFechados(MudarResponsavel(rows, id, responsavel)) == ContarNaoFechados(rows)
  {
    if rows != [] {
      var ini := rows[..|rows| - 1];
      var novo := MudarResponsavel(rows, id, responsavel);
      assert novo[..|novo| - 1] == MudarResponsavel(ini, id, responsavel);
      MudarResponsavelPreservaAbertos(ini, id, responsavel);
    }
  }

  /** `getEstatisticasStatus`: one key per status present, the symbolic name,
      mapped to its count; absent statuses have no key. */
  ghost predicate EhEstatisticaStatus(rows: seq<TicketRow>, m: map<string, int>) {
    && (forall s: StatusTicket :: s.Simbolo() in m <==> ContarStatus(rows, s) > 0)
    && (forall s: StatusTicket :: s.Simbolo() in m ==> m[s.Simbolo()] == ContarStatus(rows, s))
    && (forall k :: k in m ==> StatusDeSimbolo(k).Some?)
  }

  /** `getEstatisticasPrioridade`, likewise. */
  ghost predicate EhEstatisticaPrioridade(rows: seq<TicketRow>, m: map<string, int>) {
    && (forall p: PrioridadeTicket :: p.Simbolo() in m <==> ContarPrioridade(rows, p) > 0)
    && (forall p: PrioridadeTicket :: p.Simbolo() in m ==> m[p.Simbolo()] == ContarPrioridade(rows, p))
    && (forall k :: k in m ==> PrioridadeDeSimbolo(k).Some?)
  }

  /** Counting one more row into the status statistics. */
  lemma EstatisticaStatusPasso(rows: seq<TicketRow>, m: map<string, int>, t: TicketRow)
    requires EhEstatisticaStatus(rows, m)
    ensures var k := t.status.Simbolo();
      EhEstatisticaStatus(rows + [t], m[k := (if k in m then m[k] else 0) + 1])
  {
    var novo := rows + [t];
    assert novo[..|novo| - 1] == rows;
    var k := t.status.Simbolo();
    StatusSimboloIda(t.status);
    forall s: StatusTicket | s.Simbolo() == k ensures s == t.status {
      StatusSimboloInjetivo(s, t.status);
    }
  }

  lemma EstatisticaPrioridadePasso(rows: seq<TicketRow>, m: map<string, int>, t: TicketRow)
    requires EhEstatisticaPrioridade(rows, m)
    ensures var k := t.prioridade.Simbolo();
      EhEstatisticaPrioridade(rows + [t], m[k := (if k in m then m[k] else 0) + 1])
  {
    var novo := rows + [t];
    assert novo[..|novo| - 1] == rows;
    var k := t.prioridade.Simbolo();
    PrioridadeSimboloIda(t.prioridade);
    forall p: PrioridadeTicket | p.Simbolo() == k ensures p == t.prioridade {
      PrioridadeSimboloInjetivo(p, t.prioridade);
    }
  }
}
