/** `Sistema`: the ticket repository under a logged-in principal. The JDBC
    store is the two sequences `tickets` and `comentarios` plus the two
    auto-increment counters; each operation has the effect its SQL text has
    on them. A store fault raised before the statement takes effect is the
    argument `falha` (the exception message), and the clock is the argument
    `now`. */
module Repositorio {
  import opened Wrappers
  import opened Dominio
  import opened Textos
  import opened Tabela
  import opened Entidade

  // ---- outcome strings ----------------------------------------------------

  /** Failure outcomes carry this prefix; success outcomes do not. */
  const ERRO := "Erro"

  const ERRO_NAO_AUTENTICADO := ERRO + ": Usuário não autenticado"
  const ERRO_CAMPOS_OBRIGATORIOS := ERRO + ": Título e descrição são obrigatórios"
  const TICKET_CRIADO := "Ticket criado com sucesso! ID: "
  const ERRO_AO_CRIAR := ERRO + " ao criar ticket: "
  const ERRO_TICKET_NAO_ENCONTRADO := ERRO + ": Ticket não encontrado"
  const ERRO_SEM_PERMISSAO_EDITAR := ERRO + ": Sem permissão para editar este ticket"
  const STATUS_ATUALIZADO := "Status atualizado com sucesso"
  const ERRO_AO_ATUALIZAR_STATUS := ERRO + " ao atualizar status: "
  const ERRO_SEM_PERMISSAO_ATRIBUIR := ERRO + ": Sem permissão para atribuir responsável"
  const RESPONSAVEL_ATRIBUIDO := "Responsável atribuído com sucesso"
  const ERRO_AO_ATRIBUIR := ERRO + " ao atribuir responsável: "
  const ERRO_NAO_ATRIBUIU := ERRO + ": Não foi possível atribuir o responsável"
  const COMENTARIO_ADICIONADO := "Comentário adicionado com sucesso"
  const ERRO_AO_COMENTAR := ERRO + " ao adicionar comentário: "

  /** The message starts with `ERRO`, read char by char. */
  predicate EhErro(msg: string): (b: bool)
    ensures b <==> |msg| >= |ERRO| && msg[..|ERRO|] == ERRO
  {
    |msg| >= 4 && msg[0] == 'E' && msg[1] == 'r' && msg[2] == 'r' && msg[3] == 'o'
  }

  /** A message that starts with a known piece is classified by that piece. */
  lemma PrefixoDecide(p: string, resto: string)
    requires |p| >= |ERRO|
    ensures EhErro(p + resto) == EhErro(p)
  {
    assert (p + resto)[..|ERRO|] == p[..|ERRO|];
  }

  /** Every failure string of the layer is recognised as one, and no
      success string is. */
  lemma MensagensClassificadas()
    ensures EhErro(ERRO_NAO_AUTENTICADO) && EhErro(ERRO_CAMPOS_OBRIGATORIOS) && EhErro(ERRO_AO_CRIAR)
    ensures EhErro(ERRO_TICKET_NAO_ENCONTRADO) && EhErro(ERRO_SEM_PERMISSAO_EDITAR)
    ensures EhErro(ERRO_AO_ATUALIZAR_STATUS) && EhErro(ERRO_SEM_PERMISSAO_ATRIBUIR)
    ensures EhErro(ERRO_AO_ATRIBUIR) && EhErro(ERRO_NAO_ATRIBUIU) && EhErro(ERRO_AO_COMENTAR)
    ensures !EhErro(TICKET_CRIADO) && !EhErro(STATUS_ATUALIZADO)
    ensures !EhErro(RESPONSAVEL_ATRIBUIDO) && !EhErro(COMENTARIO_ADICIONADO)
  {
    PrefixoDecide(ERRO, ": Usuário não autenticado");
    PrefixoDecide(ERRO, ": Título e descrição são obrigatórios");
    PrefixoDecide(ERRO, " ao criar ticket: ");
    PrefixoDecide(ERRO, ": Ticket não encontrado");
    PrefixoDecide(ERRO, ": Sem permissão para editar este ticket");
    PrefixoDecide(ERRO, " ao atualizar status: ");
    PrefixoDecide(ERRO, ": Sem permissão para atribuir responsável");
    PrefixoDecide(ERRO, " ao atribuir responsável: ");
    PrefixoDecide(ERRO, ": Não foi possível atribuir o responsável");
    PrefixoDecide(ERRO, " ao adicionar comentário: ");
    assert ERRO[..|ERRO|] == ERRO;
    assert TICKET_CRIADO[0] != ERRO[0];
    assert STATUS_ATUALIZADO[0] != ERRO[0];
    assert RESPONSAVEL_ATRIBUIDO[0] != ERRO[0];
    assert COMENTARIO_ADICIONADO[0] != ERRO[0];
  }

  /** `s == null || s.trim().isEmpty()`: no value, or whitespace only. */
  function Ausente(s: Option<string>): (a: bool)
    ensures a <==> s.None? || TudoEspaco(s.value)
  {
    s.None? || EhBranco(s.value)
  }

  /** The id of the user the constructor logs in. */
  const ID_USUARIO_INICIAL := 1

  class Sistema {
    var tickets: seq<TicketRow>
    var comentarios: seq<ComentarioRow>
    var usuarioLogado: Option<Usuario>
    var proximoTicketId: nat
    var proximoComentarioId: nat

    /** Both tables keep their keys unique, positive and below the counter. */
    ghost predicate Valid()
      reads this
    {
      && proximoTicketId > 0 && IdsValidos(tickets, proximoTicketId)
      && proximoComentarioId > 0 && ComentarioIdsValidos(comentarios, proximoComentarioId)
    }

    /** The store as found at start-up, and the user the constructor looks
        up (`buscarUsuarioPorId("1")`, possibly absent). */
    constructor (tickets: seq<TicketRow>, proximoTicketId: nat,
                 comentarios: seq<ComentarioRow>, proximoComentarioId: nat,
                 usuario: Option<Usuario>)
      requires proximoTicketId > 0 && IdsValidos(tickets, proximoTicketId)
      requires proximoComentarioId > 0 && ComentarioIdsValidos(comentarios, proximoComentarioId)
      requires usuario.Some? ==> usuario.value.id == ID_USUARIO_INICIAL
      ensures Valid()
      ensures this.tickets == tickets && this.comentarios == comentarios
      ensures this.proximoTicketId == proximoTicketId && this.proximoComentarioId == proximoComentarioId
      ensures usuarioLogado == usuario
    {
      this.tickets := tickets;
      this.comentarios := comentarios;
      this.proximoTicketId := proximoTicketId;
      this.proximoComentarioId := proximoComentarioId;
      usuarioLogado := usuario;
    }

    method SetUsuarioLogado(usuario: Option<Usuario>)
      requires Valid()
      modifies this
      ensures Valid()
      ensures usuarioLogado == usuario
      ensures tickets == old(tickets) && comentarios == old(comentarios)
      ensures proximoTicketId == old(proximoTicketId) && proximoComentarioId == old(proximoComentarioId)
    {
      usuarioLogado := usuario;
    }

    // ---- mutations ----------------------------------------------------------

    /** `criarTicket`: refuses without a user, then without a non-blank title
        and description; otherwise inserts one row and reports its id. */
    method CriarTicket(titulo: Option<string>, descricao: Option<string>, categoriaId: int,
                       codigo: string, now: int, falha: Option<string>) returns (msg: string)
      requires Valid()
      modifies this
      ensures Valid()
      ensures usuarioLogado == old(usuarioLogado)
      ensures comentarios == old(comentarios) && proximoComentarioId == old(proximoComentarioId)
      ensures usuarioLogado.None? ==> msg == ERRO_NAO_AUTENTICADO
      ensures usuarioLogado.Some? && (Ausente(titulo) || Ausente(descricao)) ==> msg == ERRO_CAMPOS_OBRIGATORIOS
      ensures usuarioLogado.Some? && !Ausente(titulo) && !Ausente(descricao) && falha.Some? ==>
                msg == ERRO_AO_CRIAR + falha.value
      ensures !EhErro(msg) <==> usuarioLogado.Some? && !Ausente(titulo) && !Ausente(descricao) && falha.None?
      ensures EhErro(msg) ==> tickets == old(tickets) && proximoTicketId == old(proximoTicketId)
      ensures !EhErro(msg) ==>
                && tickets == old(tickets) + [NovaLinha(old(proximoTicketId), codigo, titulo.value, descricao.value,
                                                        categoriaId, usuarioLogado.value.id, now)]
                && proximoTicketId == old(proximoTicketId) + 1
                && msg == TICKET_CRIADO + NatParaTexto(old(proximoTicketId))
                && TotalTickets() == old(TotalTickets()) + 1
                && TicketsAbertos() == old(TicketsAbertos()) + 1
    {
      MensagensClassificadas();
      if usuarioLogado.None? {
        return ERRO_NAO_AUTENTICADO;
      }
      if Ausente(titulo) || Ausente(descricao) {
        return ERRO_CAMPOS_OBRIGATORIOS;
      }
      if falha.Some? {
        PrefixoDecide(ERRO_AO_CRIAR, falha.value);
        return ERRO_AO_CRIAR + falha.value;
      }
      var id := InserirTicket(codigo, titulo.value, descricao.value, categoriaId, usuarioLogado.value.id, now);
      msg := TICKET_CRIADO + NatParaTexto(id);
      PrefixoDecide(TICKET_CRIADO, NatParaTexto(id));
    }

    /** The INSERT of `criarTicket`: one row under the next auto-increment
        id, which adds one ticket to the total and one to the open count. */
    method InserirTicket(codigo: string, titulo: string, descricao: string, categoriaId: int,
                         solicitanteId: int, now: int) returns (id: nat)
      requires Valid()
      modifies this
      ensures Valid()
      ensures id == old(proximoTicketId) && proximoTicketId == id + 1
      ensures tickets == old(tickets) + [NovaLinha(id, codigo, titulo, descricao, categoriaId, solicitanteId, now)]
      ensures usuarioLogado == old(usuarioLogado)
      ensures comentarios == old(comentarios) && proximoComentarioId == old(proximoComentarioId)
      ensures TotalTickets() == old(TotalTickets()) + 1
      ensures TicketsAbertos() == old(TicketsAbertos()) + 1
    {
      id := proximoTicketId;
      var linha := NovaLinha(id, codigo, titulo, descricao, categoriaId, solicitanteId, now);
      InserirEntaoBuscar(tickets, id, linha, id);
      ghost var abertos := ContarNaoFechados(tickets);
      assert ContarNaoFechados(tickets + [linha]) == abertos + 1 by {
        ContarNaoFechadosAposInserir(tickets, linha);
      }
      tickets := tickets + [linha];
      proximoTicketId := id + 1;
    }

    /** `atualizarStatusTicket`: the guards run in order (user, ticket,
        permission); on success only the status column of that row changes. */
    method AtualizarStatusTicket(ticketId: int, novoStatus: StatusTicket, falha: Option<string>)
      returns (msg: string)
      requires Valid()
      modifies this
      ensures Valid()
      ensures usuarioLogado == old(usuarioLogado) && proximoTicketId == old(proximoTicketId)
      ensures comentarios == old(comentarios) && proximoComentarioId == old(proximoComentarioId)
      ensures usuarioLogado.None? ==> msg == ERRO_NAO_AUTENTICADO
      ensures usuarioLogado.Some? && BuscarPorId(old(tickets), ticketId).None? ==> msg == ERRO_TICKET_NAO_ENCONTRADO
      ensures usuarioLogado.Some? && BuscarPorId(old(tickets), ticketId).Some? &&
              !usuarioLogado.value.PodeEditarTicket(BuscarPorId(old(tickets), ticketId).value) ==>
                msg == ERRO_SEM_PERMISSAO_EDITAR
      ensures usuarioLogado.Some? && BuscarPorId(old(tickets), ticketId).Some? &&
              usuarioLogado.value.PodeEditarTicket(BuscarPorId(old(tickets), ticketId).value) && falha.Some? ==>
                msg == ERRO_AO_ATUALIZAR_STATUS + falha.value
      ensures !EhErro(msg) <==>
                && usuarioLogado.Some? && BuscarPorId(old(tickets), ticketId).Some?
                && usuarioLogado.value.PodeEditarTicket(BuscarPorId(old(tickets), ticketId).value)
                && falha.None?
      ensures EhErro(msg) ==> tickets == old(tickets)
      ensures !EhErro(msg) ==> msg == STATUS_ATUALIZADO && tickets == MudarStatus(old(tickets), ticketId, novoStatus)
      ensures TotalTickets() == old(TotalTickets())
    {
      MensagensClassificadas();
      if usuarioLogado.None? {
        return ERRO_NAO_AUTENTICADO;
      }
      var ticket := BuscarPorId(tickets, ticketId);
      if ticket.None? {
        return ERRO_TICKET_NAO_ENCONTRADO;
      }
      if !usuarioLogado.value.PodeEditarTicket(ticket.value) {
        return ERRO_SEM_PERMISSAO_EDITAR;
      }
      if falha.Some? {
        PrefixoDecide(ERRO_AO_ATUALIZAR_STATUS, falha.value);
        return ERRO_AO_ATUALIZAR_STATUS + falha.value;
      }
      MudarStatusPreservaIds(tickets, proximoTicketId, ticketId, novoStatus);
      tickets := MudarStatus(tickets, ticketId, novoStatus);
      msg := STATUS_ATUALIZADO;
    }

    /** `atribuirResponsavel`: only ADMIN and TECNICO; sets the responsible
        and moves ABERTO to EM_ANDAMENTO in the same statement. */
    method AtribuirResponsavel(ticketId: int, responsavelId: int, falha: Option<string>)
      returns (msg: string)
      requires Valid()
      modifies this
      ensures Valid()
      ensures usuarioLogado == old(usuarioLogado) && proximoTicketId == old(proximoTicketId)
      ensures comentarios == old(comentarios) && proximoComentarioId == old(proximoComentarioId)
      ensures (usuarioLogado.None? || !usuarioLogado.value.PodeAssumirTicket()) ==> msg == ERRO_SEM_PERMISSAO_ATRIBUIR
      ensures usuarioLogado.Some? && usuarioLogado.value.PodeAssumirTicket() && falha.Some? ==>
                msg == ERRO_AO_ATRIBUIR + falha.value
      ensures (usuarioLogado.Some? && usuarioLogado.value.PodeAssumirTicket() && falha.None? &&
               BuscarPorId(old(tickets), ticketId).None?) ==> msg == ERRO_NAO_ATRIBUIU
      ensures !EhErro(msg) <==>
                && usuarioLogado.Some? && usuarioLogado.value.PodeAssumirTicket()
                && falha.None? && BuscarPorId(old(tickets), ticketId).Some?
      ensures EhErro(msg) ==> tickets == old(tickets)
      ensures !EhErro(msg) ==>
                msg == RESPONSAVEL_ATRIBUIDO && tickets == MudarResponsavel(old(tickets), ticketId, responsavelId)
      ensures TotalTickets() == old(TotalTickets()) && TicketsAbertos() == old(TicketsAbertos())
    {
      MensagensClassificadas();
      if usuarioLogado.None? || !usuarioLogado.value.PodeAssumirTicket() {
        return ERRO_SEM_PERMISSAO_ATRIBUIR;
      }
      if falha.Some? {
        PrefixoDecide(ERRO_AO_ATRIBUIR, falha.value);
        return ERRO_AO_ATRIBUIR + falha.value;
      }
      if BuscarPorId(tickets, ticketId).None? {
        // the UPDATE matched no row: affectedRows == 0
        return ERRO_NAO_ATRIBUIU;
      }
      MudarResponsavelPreservaIds(tickets, proximoTicketId, ticketId, responsavelId);
      assert ContarNaoFechados(MudarResponsavel(tickets, ticketId, responsavelId)) == ContarNaoFechados(tickets) by {
        MudarResponsavelPreservaAbertos(tickets, ticketId, responsavelId);
      }
      tickets := MudarResponsavel(tickets, ticketId, responsavelId);
      msg := RESPONSAVEL_ATRIBUIDO;
    }

    /** `adicionarComentario`: appends one comment row by the logged-in user;
        the ticket row itself is not touched. */
    method AdicionarComentario(ticketId: int, conteudo: string, tipo: TipoComentario, now: int,
                               falha: Option<string>) returns (msg: string)
      requires Valid()
      modifies this
      ensures Valid()
      ensures usuarioLogado == old(usuarioLogado)
      ensures tickets == old(tickets) && proximoTicketId == old(proximoTicketId)
      ensures usuarioLogado.None? ==> msg == ERRO_NAO_AUTENTICADO
      ensures usuarioLogado.Some? && falha.Some? ==> msg == ERRO_AO_COMENTAR + falha.value
      ensures !EhErro(msg) <==> usuarioLogado.Some? && falha.None?
      ensures EhErro(msg) ==> comentarios == old(comentarios) && proximoComentarioId == old(proximoComentarioId)
      ensures !EhErro(msg) ==>
                && msg == COMENTARIO_ADICIONADO
                && comentarios == old(comentarios) + [ComentarioRow(old(proximoComentarioId), ticketId,
                                                                    usuarioLogado.value.id, conteudo, tipo, now)]
                && proximoComentarioId == old(proximoComentarioId) + 1
    {
      MensagensClassificadas();
      if usuarioLogado.None? {
        return ERRO_NAO_AUTENTICADO;
      }
      if falha.Some? {
        PrefixoDecide(ERRO_AO_COMENTAR, falha.value);
        return ERRO_AO_COMENTAR + falha.value;
      }
      comentarios := comentarios + [ComentarioRow(proximoComentarioId, ticketId, usuarioLogado.value.id,
                                                  conteudo, tipo, now)];
      proximoComentarioId := proximoComentarioId + 1;
      msg := COMENTARIO_ADICIONADO;
    }

    // ---- reads --------------------------------------------------------------

    /** The `while (rs.next())` loop over a scoped SELECT: the rows of the
        table that meet the filter and the scope, in store order. */
    method Consultar(f: Filtro, escopo: Option<int>) returns (r: seq<TicketRow>)
      ensures r == Selecionar(tickets, f, escopo)
    {
      r := [];
      var i := 0;
      while i < |tickets|
        invariant 0 <= i <= |tickets|
        invariant r == Selecionar(tickets[..i], f, escopo)
      {
        var t := tickets[i];
        assert tickets[..i + 1][..i] == tickets[..i];
        if Atende(f, t) && NoEscopo(escopo, t) {
          r := r + [t];
        }
        i := i + 1;
      }
      assert tickets[..|tickets|] == tickets;
    }

    /** `listarTickets`. */
    method ListarTickets() returns (r: seq<TicketRow>)
      ensures r == Listagem(tickets, usuarioLogado)
      ensures usuarioLogado.None? ==> r == []
      ensures usuarioLogado.Some? && usuarioLogado.value.PodeAssumirTicket() ==> r == tickets
      ensures usuarioLogado.Some? && !usuarioLogado.value.PodeAssumirTicket() ==>
                forall t :: t in r <==> t in tickets && t.solicitanteId == usuarioLogado.value.id
    {
      ListagemVisibilidade(tickets, usuarioLogado);
      if usuarioLogado.None? {
        return [];
      }
      r := Consultar(Tudo, Escopo(usuarioLogado.value));
    }

    /** `buscarTicketPorId`: the row mapped to a fresh `Ticket`, or null. */
    method BuscarTicketPorId(id: int) returns (t: Ticket?)
      ensures t == null <==> BuscarPorId(tickets, id).None?
      ensures t != null ==> fresh(t) && t.Valid() && t.Linha() == BuscarPorId(tickets, id).value
      ensures t != null ==> t.anexos == [] && t.tags == [] && t.comentarios == []
    {
      var linha := BuscarPorId(tickets, id);
      if linha.None? {
        return null;
      }
      t := new Ticket(linha.value);
    }

    /** `buscarTickets`: a null or blank term is `listarTickets()`; any other
        term keeps the rows whose title, description or code contains it,
        scoped as the listing. The source dereferences the user without a
        check on that second path, so a user is required there. */
    method BuscarTickets(termo: Option<string>) returns (r: seq<TicketRow>)
      requires Ausente(termo) || usuarioLogado.Some?
      ensures Ausente(termo) ==> r == Listagem(tickets, usuarioLogado)
      ensures !Ausente(termo) ==> r == Selecionar(tickets, Termo(termo.value), Escopo(usuarioLogado.value))
      ensures !Ausente(termo) ==> forall t :: t in r ==> CasaTermo(t, termo.value)
      ensures forall t :: t in r ==> t in Listagem(tickets, usuarioLogado)
    {
      if Ausente(termo) {
        r := ListarTickets();
        return;
      }
      var u := usuarioLogado.value;
      r := Consultar(Termo(termo.value), Escopo(u));
      SelecionarCompoe(tickets, Termo(termo.value), Escopo(u));
    }

    /** `filtrarTicketsPorStatus`: scoped as the listing when a user is
        logged in, unscoped when nobody is. */
    method FiltrarTicketsPorStatus(status: StatusTicket) returns (r: seq<TicketRow>)
      ensures r == Selecionar(tickets, ComStatus(status), EscopoFiltro(usuarioLogado))
      ensures forall t :: t in r <==> t in tickets && t.status == status && NoEscopo(EscopoFiltro(usuarioLogado), t)
      ensures usuarioLogado.None? ==> forall t :: t in r <==> t in tickets && t.status == status
      ensures usuarioLogado.Some? ==> forall t :: t in r ==> t in Listagem(tickets, usuarioLogado)
    {
      r := Consultar(ComStatus(status), EscopoFiltro(usuarioLogado));
      SelecionarSse(tickets, ComStatus(status), EscopoFiltro(usuarioLogado));
      if usuarioLogado.Some? {
        SelecionarCompoe(tickets, ComStatus(status), EscopoFiltro(usuarioLogado));
      }
    }

    /** `filtrarTicketsPorPrioridade`, likewise. */
    method FiltrarTicketsPorPrioridade(prioridade: PrioridadeTicket) returns (r: seq<TicketRow>)
      ensures r == Selecionar(tickets, ComPrioridade(prioridade), EscopoFiltro(usuarioLogado))
      ensures forall t :: t in r <==>
                t in tickets && t.prioridade == prioridade && NoEscopo(EscopoFiltro(usuarioLogado), t)
      ensures usuarioLogado.None? ==> forall t :: t in r <==> t in tickets && t.prioridade == prioridade
      ensures usuarioLogado.Some? ==> forall t :: t in r ==> t in Listagem(tickets, usuarioLogado)
    {
      r := Consultar(ComPrioridade(prioridade), EscopoFiltro(usuarioLogado));
      SelecionarSse(tickets, ComPrioridade(prioridade), EscopoFiltro(usuarioLogado));
      if usuarioLogado.Some? {
        SelecionarCompoe(tickets, ComPrioridade(prioridade), EscopoFiltro(usuarioLogado));
      }
    }

    // ---- statistics ---------------------------------------------------------

    /** `getEstatisticasStatus`: status name to count, present statuses only. */
    method EstatisticasStatus() returns (m: map<string, int>)
      ensures EhEstatisticaStatus(tickets, m)
    {
      m := map[];
      var i := 0;
      while i < |tickets|
        invariant 0 <= i <= |tickets|
        invariant EhEstatisticaStatus(tickets[..i], m)
      {
        var k := tickets[i].status.Simbolo();
        EstatisticaStatusPasso(tickets[..i], m, tickets[i]);
        assert tickets[..i + 1] == tickets[..i] + [tickets[i]];
        m := m[k := (if k in m then m[k] else 0) + 1];
        i := i + 1;
      }
      assert tickets[..|tickets|] == tickets;
    }

    /** `getEstatisticasPrioridade`: priority name to count. */
    method EstatisticasPrioridade() returns (m: map<string, int>)
      ensures EhEstatisticaPrioridade(tickets, m)
    {
      m := map[];
      var i := 0;
      while i < |tickets|
        invariant 0 <= i <= |tickets|
        invariant EhEstatisticaPrioridade(tickets[..i], m)
      {
        var k := tickets[i].prioridade.Simbolo();
        EstatisticaPrioridadePasso(tickets[..i], m, tickets[i]);
        assert tickets[..i + 1] == tickets[..i] + [tickets[i]];
        m := m[k := (if k in m then m[k] else 0) + 1];
        i := i + 1;
      }
      assert tickets[..|tickets|] == tickets;
    }

    /** `getTotalTickets`: agrees with the sum of either statistics map. */
    function TotalTickets(): (n: nat)
      reads this
      ensures n == ContarStatus(tickets, Aberto) + ContarStatus(tickets, EmAndamento)
                 + ContarStatus(tickets, Resolvido) + ContarStatus(tickets, Fechado)
      ensures n == ContarPrioridade(tickets, Baixa) + ContarPrioridade(tickets, Media)
                 + ContarPrioridade(tickets, Alta) + ContarPrioridade(tickets, Critica)
    {
      SomaPorStatus(tickets);
      SomaPorPrioridade(tickets);
      |tickets|
    }

    /** `getTicketsAbertos`: every ticket that is not FECHADO. */
    function TicketsAbertos(): (n: nat)
      reads this
      ensures n == TotalTickets() - ContarStatus(tickets, Fechado)
      ensures n == ContarStatus(tickets, Aberto) + ContarStatus(tickets, EmAndamento)
                 + ContarStatus(tickets, Resolvido)
    {
      AbertosSaoNaoFechados(tickets);
      ContarNaoFechados(tickets)
    }
  }
}
