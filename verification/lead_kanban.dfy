/** The lead pipeline board. Columns are re-derived from the `leads` input
    by filtering on status; a drop never edits the list locally. It issues
    at most one status update to the database, and asks the owner to reload
    only when that update reports no error. While a drag is in progress,
    clicks on cards do not open the details modal. */
module LeadKanban {
  import opened Wrappers
  import opened Seqs
  import opened Types

  /** The column a card was released over. */
  datatype Destination = Destination(droppableId: LeadStatus, index: nat)

  /** What the drag library hands to `onDragEnd`; the destination is absent
      when the card was released outside every column. */
  datatype DropResult = DropResult(draggableId: string, destination: Option<Destination>)

  /** `update({ status, updated_at }).eq('id', leadId)` on the leads table. */
  datatype StatusUpdate = StatusUpdate(leadId: string, status: LeadStatus)

  /** The component's local state: whether a drag is in progress, and the
      lead whose details modal is open. */
  datatype BoardState = BoardState(isDragging: bool, selected: Option<Lead>)

  /** Everything one `onDragEnd` does: the new local state, the update it
      sends, whether it calls `onLeadUpdate`, and whether it alerts. */
  datatype DragEndEffects = DragEndEffects(state: BoardState, request: Option<StatusUpdate>, refreshed: bool, alerted: bool)

  /** `getLeadsByStatus`: the leads of one column, in input order. */
  function Column(leads: seq<Lead>, status: LeadStatus): (col: seq<Lead>)
    ensures |col| <= |leads|
    ensures forall l :: l in col <==> l in leads && l.status == status
  {
    Filter(leads, (l: Lead) => l.status == status)
  }

  /** A column of two lead lists put together is the first list's column
      followed by the second's, so a column keeps the leads' input order. */
  lemma ColumnAppend(a: seq<Lead>, b: seq<Lead>, status: LeadStatus)
    ensures Column(a + b, status) == Column(a, status) + Column(b, status)
  {
    FilterAppend(a, b, (l: Lead) => l.status == status);
  }

  /** A one-lead list's column holds the lead exactly when it is in that
      stage. */
  lemma ColumnSingleton(l: Lead, status: LeadStatus)
    ensures Column([l], status) == if l.status == status then [l] else []
  {
    assert [l][1..] == [];
  }

  /** `leads.find(l => l.id === id)`, as a position (-1 when absent). */
  function FindById(leads: seq<Lead>, id: string): (i: int)
    ensures -1 <= i < |leads|
    ensures i >= 0 ==> leads[i].id == id && forall j :: 0 <= j < i ==> leads[j].id != id
    ensures i == -1 <==> forall j :: 0 <= j < |leads| ==> leads[j].id != id
  {
    FindIndex(leads, (l: Lead) => l.id == id)
  }

  /** The database request a drop causes. None without a destination, for
      an unknown card, or when the card is dropped into the column it is
      already in (whatever the index); otherwise exactly one update, for
      the dragged lead, to the destination column's status. */
  function UpdateRequest(leads: seq<Lead>, r: DropResult): (u: Option<StatusUpdate>)
    ensures r.destination.None? ==> u.None?
    ensures (forall j :: 0 <= j < |leads| ==> leads[j].id != r.draggableId) ==> u.None?
    ensures u.Some? <==>
      && r.destination.Some?
      && FindById(leads, r.draggableId) >= 0
      && leads[FindById(leads, r.draggableId)].status != r.destination.value.droppableId
    ensures u.Some? ==> u.value == StatusUpdate(r.draggableId, r.destination.value.droppableId)
  {
    if r.destination.None? then None
    else
      var i := FindById(leads, r.draggableId);
      if i < 0 then None
      else
        var newStatus := r.destination.value.droppableId;
        if leads[i].status == newStatus then None
        else Some(StatusUpdate(leads[i].id, newStatus))
  }

  /** `onDragStart`. */
  function DragStart(s: BoardState): (t: BoardState)
    ensures t.isDragging && t.selected == s.selected
  {
    s.(isDragging := true)
  }

  /** A click on a card: opens its details unless a drag is in progress. */
  function CardClick(s: BoardState, lead: Lead): (t: BoardState)
    ensures s.isDragging ==> t == s
    ensures !s.isDragging ==> t == BoardState(false, Some(lead))
  {
    if s.isDragging then s else s.(selected := Some(lead))
  }

  /** `onDragEnd`, given the database's reply to the update (consulted only
      when an update is sent). The drag is over afterwards; the owner is
      asked to reload exactly when an update was sent and succeeded, and an
      alert is shown exactly when it failed. */
  function DragEnd(s: BoardState, leads: seq<Lead>, r: DropResult, reply: DbReply): (e: DragEndEffects)
    ensures !e.state.isDragging && e.state.selected == s.selected
    ensures e.request == UpdateRequest(leads, r)
    ensures e.refreshed <==> e.request.Some? && reply.DbOk?
    ensures e.alerted <==> e.request.Some? && reply.DbError?
    ensures !(e.refreshed && e.alerted)
  {
    var t := s.(isDragging := false);
    var request := UpdateRequest(leads, r);
    match request
    case None => DragEndEffects(t, None, false, false)
    case Some(_) =>
      if reply.DbOk? then DragEndEffects(t, request, true, false)
      else DragEndEffects(t, request, false, true)
  }

  /** A click on a card between drag start and drag end is ignored. */
  lemma ClickDuringDragIgnored(s: BoardState, lead: Lead)
    ensures CardClick(DragStart(s), lead) == DragStart(s)
    ensures !DragEnd(DragStart(s), [], DropResult(lead.id, None), DbOk).state.isDragging
  {
  }

  /** Sum of the column sizes over the six columns. */
  function ColumnTotal(leads: seq<Lead>): nat {
    |Column(leads, NewLead)| + |Column(leads, Contatado)| + |Column(leads, ReuniaoAgendada)|
    + |Column(leads, PropostaEnviada)| + |Column(leads, Fechado)| + |Column(leads, Perdido)|
  }

  /** Every lead is in exactly one column (`Column`'s own contract says
      which), so the column counts shown in the headers add up to the number
      of leads. */
  lemma {:induction false} ColumnsPartition(leads: seq<Lead>)
    ensures ColumnTotal(leads) == |leads|
    decreases |leads|
  {
    if |leads| > 0 {
      ColumnsPartition(leads[1..]);
    }
  }
}
