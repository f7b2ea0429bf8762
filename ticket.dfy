/** The in-memory `Ticket` entity: a row snapshot plus the attachment, tag and
    comment lists, with setters that refresh `dataAtualizacao`. The wall clock
    (`LocalDateTime.now()`) is the explicit argument `now`, in seconds. */
module Entidade {
  import opened Wrappers
  import opened Dominio

  const SEGUNDOS_POR_HORA := 3600

  /** `Duration.between(inicio, fim).toHours()`: whole hours, truncated
      toward zero as Java's long division does (also for a negative span). */
  function HorasEntre(inicio: int, fim: int): (h: int)
    ensures fim >= inicio ==> 0 <= h && h * SEGUNDOS_POR_HORA <= fim - inicio < (h + 1) * SEGUNDOS_POR_HORA
    ensures fim < inicio ==> h <= 0 && (h - 1) * SEGUNDOS_POR_HORA < fim - inicio <= h * SEGUNDOS_POR_HORA
  {
    var d := fim - inicio;
    if d >= 0 then d / SEGUNDOS_POR_HORA else -((-d) / SEGUNDOS_POR_HORA)
  }

  /** A span and its reverse give the same hours with opposite signs. */
  lemma HorasAntissimetricas(a: int, b: int)
    ensures HorasEntre(a, b) == -HorasEntre(b, a)
  {
  }

  predicate SemDuplicatas(s: seq<string>) {
    forall i, j :: 0 <= i < j < |s| ==> s[i] != s[j]
  }

  /** The tag list after `adicionarTag(tag)`: unchanged when the tag is
      already there, otherwise the tag appended at the end. */
  function ComTag(tags: seq<string>, tag: string): (r: seq<string>)
    ensures SemDuplicatas(tags) ==> SemDuplicatas(r)
    ensures tag in r
    ensures forall x :: x in r <==> x in tags || x == tag
    ensures tag in tags ==> r == tags
    ensures tag !in tags ==> |r| == |tags| + 1 && r[..|tags|] == tags && r[|tags|] == tag
  {
    if tag in tags then tags else tags + [tag]
  }

  /** Adding the same tag twice is the same as adding it once. */
  lemma ComTagIdempotente(tags: seq<string>, tag: string)
    ensures ComTag(ComTag(tags, tag), tag) == ComTag(tags, tag)
  {
  }

  /** The set of tags does not depend on the order in which they were added. */
  lemma ComTagComuta(tags: seq<string>, a: string, b: string)
    ensures forall x :: x in ComTag(ComTag(tags, a), b) <==> x in ComTag(ComTag(tags, b), a)
  {
  }

  class Ticket {
    var id: int
    var codigo: string
    var titulo: string
    var descricao: string
    var status: StatusTicket
    var prioridade: PrioridadeTicket
    var categoriaId: int
    var solicitanteId: int
    var responsavelId: Option<int>
    var dataCriacao: int
    var dataAtualizacao: int
    var dataResolucao: Option<int>
    var anexos: seq<string>
    var tags: seq<string>
    var comentarios: seq<ComentarioRow>

    /** The tag list holds no duplicates. */
    ghost predicate Valid()
      reads this
    {
      SemDuplicatas(tags)
    }

    /** The scalar fields, as the row they were read from. */
    function Linha(): TicketRow
      reads this
    {
      TicketRow(id, codigo, titulo, descricao, status, prioridade, categoriaId,
                solicitanteId, responsavelId, dataCriacao, dataAtualizacao, dataResolucao)
    }

    /** The constructor that `mapearResultSetParaTicket` calls: every column
        copied, the three lists empty. */
    constructor (r: TicketRow)
      ensures Valid()
      ensures Linha() == r
      ensures anexos == [] && tags == [] && comentarios == []
    {
      id, codigo, titulo, descricao := r.id, r.codigo, r.titulo, r.descricao;
      status, prioridade, categoriaId := r.status, r.prioridade, r.categoriaId;
      solicitanteId, responsavelId := r.solicitanteId, r.responsavelId;
      dataCriacao, dataAtualizacao, dataResolucao := r.dataCriacao, r.dataAtualizacao, r.dataResolucao;
      anexos, tags, comentarios := [], [], [];
    }

    method SetTitulo(titulo: string, now: int)
      requires Valid()
      modifies this
      ensures Valid()
      ensures Linha() == old(Linha()).(titulo := titulo, dataAtualizacao := now)
      ensures anexos == old(anexos) && tags == old(tags) && comentarios == old(comentarios)
    {
      this.titulo := titulo;
      dataAtualizacao := now;
    }

    method SetDescricao(descricao: string, now: int)
      requires Valid()
      modifies this
      ensures Valid()
      ensures Linha() == old(Linha()).(descricao := descricao, dataAtualizacao := now)
      ensures anexos == old(anexos) && tags == old(tags) && comentarios == old(comentarios)
    {
      this.descricao := descricao;
      dataAtualizacao := now;
    }

    /** `setStatus`: the resolution time is stamped whenever the new status
        is RESOLVIDO or FECHADO, and is never cleared. */
    method SetStatus(status: StatusTicket, now: int)
      requires Valid()
      modifies this
      ensures Valid()
      ensures this.status == status && dataAtualizacao == now
      ensures dataResolucao == if status.EncerraAtendimento() then Some(now) else old(dataResolucao)
      ensures old(dataResolucao).Some? ==> dataResolucao.Some?
      ensures Linha() == old(Linha()).(status := status, dataAtualizacao := now, dataResolucao := dataResolucao)
      ensures anexos == old(anexos) && tags == old(tags) && comentarios == old(comentarios)
    {
      this.status := status;
      dataAtualizacao := now;
      if status == Resolvido || status == Fechado {
        dataResolucao := Some(now);
      }
    }

    method SetPrioridade(prioridade: PrioridadeTicket, now: int)
      requires Valid()
      modifies this
      ensures Valid()
      ensures Linha() == old(Linha()).(prioridade := prioridade, dataAtualizacao := now)
      ensures anexos == old(anexos) && tags == old(tags) && comentarios == old(comentarios)
    {
      this.prioridade := prioridade;
      dataAtualizacao := now;
    }

    method SetCategoriaId(categoriaId: int, now: int)
      requires Valid()
      modifies this
      ensures Valid()
      ensures Linha() == old(Linha()).(categoriaId := categoriaId, dataAtualizacao := now)
      ensures anexos == old(anexos) && tags == old(tags) && comentarios == old(comentarios)
    {
      this.categoriaId := categoriaId;
      dataAtualizacao := now;
    }

    method SetResponsavelId(responsavelId: Option<int>, now: int)
      requires Valid()
      modifies this
      ensures Valid()
      ensures Linha() == old(Linha()).(responsavelId := responsavelId, dataAtualizacao := now)
      ensures anexos == old(anexos) && tags == old(tags) && comentarios == old(comentarios)
    {
      this.responsavelId := responsavelId;
      dataAtualizacao := now;
    }

    method AdicionarAnexo(anexo: string, now: int)
      requires Valid()
      modifies this
      ensures Valid()
      ensures anexos == old(anexos) + [anexo]
      ensures Linha() == old(Linha()).(dataAtualizacao := now)
      ensures tags == old(tags) && comentarios == old(comentarios)
    {
      anexos := anexos + [anexo];
      dataAtualizacao := now;
    }

    /** `adicionarTag`: a tag already present changes nothing at all, not even
        the update time; a new one is appended. */
    method AdicionarTag(tag: string, now: int)
      requires Valid()
      modifies this
      ensures Valid()
      ensures tags == ComTag(old(tags), tag)
      ensures tag in old(tags) ==> Linha() == old(Linha())
      ensures tag !in old(tags) ==> Linha() == old(Linha()).(dataAtualizacao := now)
      ensures anexos == old(anexos) && comentarios == old(comentarios)
    {
      if tag !in tags {
        tags := tags + [tag];
        dataAtualizacao := now;
      }
    }

    method AdicionarComentario(comentario: ComentarioRow, now: int)
      requires Valid()
      modifies this
      ensures Valid()
      ensures comentarios == old(comentarios) + [comentario]
      ensures Linha() == old(Linha()).(dataAtualizacao := now)
      ensures anexos == old(anexos) && tags == old(tags)
    {
      comentarios := comentarios + [comentario];
      dataAtualizacao := now;
    }

    /** `getTempoAberto`: whole hours from creation to the resolution time,
        or to `now` while the ticket has none. */
    function TempoAberto(now: int): (h: int)
      reads this
      ensures dataResolucao.None? && now >= dataCriacao ==>
                0 <= h && h * SEGUNDOS_POR_HORA <= now - dataCriacao < (h + 1) * SEGUNDOS_POR_HORA
      ensures dataResolucao.Some? && dataResolucao.value >= dataCriacao ==>
                0 <= h && h * SEGUNDOS_POR_HORA <= dataResolucao.value - dataCriacao < (h + 1) * SEGUNDOS_POR_HORA
      ensures dataResolucao.None? && now < dataCriacao ==>
                h <= 0 && (h - 1) * SEGUNDOS_POR_HORA < now - dataCriacao <= h * SEGUNDOS_POR_HORA
      ensures dataResolucao.Some? && dataResolucao.value < dataCriacao ==>
                h <= 0 && (h - 1) * SEGUNDOS_POR_HORA < dataResolucao.value - dataCriacao <= h * SEGUNDOS_POR_HORA
    {
      var fim := if dataResolucao.Some? then dataResolucao.value else now;
      HorasEntre(dataCriacao, fim)
    }

    /** Once a resolution time is set the elapsed time stops moving. */
    lemma TempoAbertoCongelado(antes: int, depois: int)
      requires dataResolucao.Some?
      ensures TempoAberto(antes) == TempoAberto(depois)
    {
    }
  }
}
