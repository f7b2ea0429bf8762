/** The closed value sets of the ticket system (status, priority, profile,
    comment type), the rows of the `tickets` and `comentarios` tables, the
    logged-in user, and the two authorization rules of `Usuario`. */
module Dominio {
  import opened Wrappers

  // ---- enumerations -------------------------------------------------------

  /** `StatusTicket`: display name, display colour, and the symbolic name the
      store holds in the `status` column. */
  datatype StatusTicket = Aberto | EmAndamento | Resolvido | Fechado
  {
    function Nome(): string {
      match this
      case Aberto => "Aberto"
      case EmAndamento => "Em Andamento"
      case Resolvido => "Resolvido"
      case Fechado => "Fechado"
    }

    function Cor(): string {
      match this
      case Aberto => "#ff6b6b"
      case EmAndamento => "#4ecdc4"
      case Resolvido => "#45b7d1"
      case Fechado => "#96ceb4"
    }

    /** `name()`, as written by `stmt.setString(.., status.name())`. */
    function Simbolo(): string {
      match this
      case Aberto => "ABERTO"
      case EmAndamento => "EM_ANDAMENTO"
      case Resolvido => "RESOLVIDO"
      case Fechado => "FECHADO"
    }

    /** The statuses for which `setStatus` stamps the resolution time. */
    predicate EncerraAtendimento(): (b: bool)
      ensures b <==> this != Aberto && this != EmAndamento
    {
      this == Resolvido || this == Fechado
    }
  }

  /** `StatusTicket.valueOf`: None where Java throws for an unknown name. */
  function StatusDeSimbolo(s: string): (r: Option<StatusTicket>)
    ensures r.Some? ==> r.value.Simbolo() == s
  {
    if s == "ABERTO" then Some(Aberto)
    else if s == "EM_ANDAMENTO" then Some(EmAndamento)
    else if s == "RESOLVIDO" then Some(Resolvido)
    else if s == "FECHADO" then Some(Fechado)
    else None
  }

  /** A status written by name reads back as the same status. */
  lemma StatusSimboloIda(st: StatusTicket)
    ensures StatusDeSimbolo(st.Simbolo()) == Some(st)
  {
  }

  lemma StatusSimboloInjetivo(a: StatusTicket, b: StatusTicket)
    requires a.Simbolo() == b.Simbolo()
    ensures a == b
  {
    StatusSimboloIda(a);
    StatusSimboloIda(b);
  }

  /** `PrioridadeTicket`: display name, level 1..4, colour, symbolic name. */
  datatype PrioridadeTicket = Baixa | Media | Alta | Critica
  {
    function Nome(): string {
      match this
      case Baixa => "Baixa"
      case Media => "Média"
      case Alta => "Alta"
      case Critica => "Crítica"
    }

    function Nivel(): (n: int)
      ensures 1 <= n <= 4
    {
      match this
      case Baixa => 1
      case Media => 2
      case Alta => 3
      case Critica => 4
    }

    function Cor(): string {
      match this
      case Baixa => "#96ceb4"
      case Media => "#feca57"
      case Alta => "#ff9ff3"
      case Critica => "#ff6b6b"
    }

    function Simbolo(): string {
      match this
      case Baixa => "BAIXA"
      case Media => "MEDIA"
      case Alta => "ALTA"
      case Critica => "CRITICA"
    }
  }

  /** The level orders the priorities totally: distinct priorities have
      distinct levels. */
  lemma NivelPrioridadeInjetivo(a: PrioridadeTicket, b: PrioridadeTicket)
    requires a.Nivel() == b.Nivel()
    ensures a == b
  {
  }

  function PrioridadeDeSimbolo(s: string): (r: Option<PrioridadeTicket>)
    ensures r.Some? ==> r.value.Simbolo() == s
  {
    if s == "BAIXA" then Some(Baixa)
    else if s == "MEDIA" then Some(Media)
    else if s == "ALTA" then Some(Alta)
    else if s == "CRITICA" then Some(Critica)
    else None
  }

  lemma PrioridadeSimboloIda(p: PrioridadeTicket)
    ensures PrioridadeDeSimbolo(p.Simbolo()) == Some(p)
  {
  }

  lemma PrioridadeSimboloInjetivo(a: PrioridadeTicket, b: PrioridadeTicket)
    requires a.Simbolo() == b.Simbolo()
    ensures a == b
  {
    PrioridadeSimboloIda(a);
    PrioridadeSimboloIda(b);
  }

  /** `PerfilUsuario`: display name and level 1..3; `Comum` is `USUARIO`. */
  datatype PerfilUsuario = Comum | Tecnico | Admin
  {
    function Nome(): string {
      match this
      case Comum => "Usuário"
      case Tecnico => "Técnico"
      case Admin => "Administrador"
    }

    function Nivel(): (n: int)
      ensures 1 <= n <= 3
    {
      match this
      case Comum => 1
      case Tecnico => 2
      case Admin => 3
    }
  }

  /** `TipoComentario`. */
  datatype TipoComentario = Comentario | Resolucao | Interno
  {
    function Nome(): string {
      match this
      case Comentario => "Comentário"
      case Resolucao => "Resolução"
      case Interno => "Interno"
    }

    function Simbolo(): string {
      match this
      case Comentario => "COMENTARIO"
      case Resolucao => "RESOLUCAO"
      case Interno => "INTERNO"
    }
  }

  // ---- entities held as values -------------------------------------------

  /** A logged-in user (`Usuario`). Its setters carry no rule and are not
      part of this model; `dataCriacao` is in seconds. */
  datatype Usuario = Usuario(id: int, nome: string, email: string, perfil: PerfilUsuario,
                         departamentoId: int, ativo: bool, dataCriacao: int)
  {
    /** `podeAssumirTicket`: exactly the technicians and administrators,
        that is every profile whose level is above the plain user's. */
    function PodeAssumirTicket(): (b: bool)
      ensures b <==> perfil.Nivel() >= 2
      ensures b <==> perfil != Comum
    {
      perfil == Admin || perfil == Tecnico
    }

    /** `podeEditarTicket`: whoever may take tickets may edit every ticket,
        and a plain user exactly the tickets they requested. */
    function PodeEditarTicket(t: TicketRow): (b: bool)
      ensures PodeAssumirTicket() ==> b
      ensures perfil == Comum ==> (b <==> t.solicitanteId == id)
    {
      perfil == Admin || perfil == Tecnico || t.solicitanteId == id
    }
  }

  /** One row of the `tickets` table; times are seconds, nullable columns are
      options. */
  datatype TicketRow = TicketRow(
    id: int,
    codigo: string,
    titulo: string,
    descricao: string,
    status: StatusTicket,
    prioridade: PrioridadeTicket,
    categoriaId: int,
    solicitanteId: int,
    responsavelId: Option<int>,
    dataCriacao: int,
    dataAtualizacao: int,
    dataResolucao: Option<int>)

  /** One row of the `comentarios` table (`Comentario`, immutable once built). */
  datatype ComentarioRow = ComentarioRow(
    id: int,
    ticketId: int,
    usuarioId: int,
    conteudo: string,
    tipo: TipoComentario,
    data: int)

  // ---- authorization ------------------------------------------------------

  /** Editing is granted to whoever may take tickets, and to the requester of
      the ticket at hand. */
  lemma PodeEditarSse(u: Usuario, t: TicketRow)
    ensures u.PodeEditarTicket(t) <==> u.PodeAssumirTicket() || t.solicitanteId == u.id
  {
  }

  /** Editing a ticket depends on no column but `solicitante_id`. */
  lemma EditarDependeSoDoSolicitante(u: Usuario, t: TicketRow, t': TicketRow)
    requires t.solicitanteId == t'.solicitanteId
    ensures u.PodeEditarTicket(t) == u.PodeEditarTicket(t')
  {
  }
}
