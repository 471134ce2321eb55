/** The records the application stores and displays: leads, their comments
    and the businesses a places search returns. Numeric fields (rating,
    review count) are integers here; fractional ratings are not modelled. */
module Types {
  import opened Wrappers

  /** The six pipeline stages a lead can be in. The stage shown as "Lead" is
      called `NewLead` so that it does not clash with the `Lead` record. */
  datatype LeadStatus = NewLead | Contatado | ReuniaoAgendada | PropostaEnviada | Fechado | Perdido {

    /** The text stored in the database and used as the column id. */
    function Label(): string {
      match this
      case NewLead => "Lead"
      case Contatado => "Contatado"
      case ReuniaoAgendada => "Reunião Agendada"
      case PropostaEnviada => "Proposta Enviada"
      case Fechado => "Fechado"
      case Perdido => "Perdido"
    }
  }

  /** The board's columns, in display order. */
  const LeadStatuses: seq<LeadStatus> :=
    [NewLead, Contatado, ReuniaoAgendada, PropostaEnviada, Fechado, Perdido]

  /** A comment as the database returns it; id and timestamp are assigned
      by the database, never locally. */
  datatype Comment = Comment(id: string, leadId: string, content: string, createdAt: string, userId: string)

  /** A business admitted into the sales pipeline. `phone` and `website`
      are `None` where the record holds `null`. */
  datatype Lead = Lead(
    id: string,
    businessId: string,
    name: string,
    address: string,
    phone: Option<string>,
    website: Option<string>,
    rating: int,
    reviewCount: int,
    status: LeadStatus,
    comments: seq<Comment>,
    createdAt: string,
    updatedAt: string)

  /** A business listed by a places search; `inLeads` is absent until the
      search marks it. Its map location is not modelled. */
  datatype Business = Business(
    id: string,
    name: string,
    address: string,
    phone: Option<string>,
    website: Option<string>,
    rating: int,
    reviewCount: int,
    placeId: string,
    inLeads: Option<bool>)
}
