/** The integer parts of the dashboard: lead totals by outcome, the
    per-status histogram behind the pie chart, the per-day histogram and the
    seven-day trend read from it. Day keys are opaque strings here; turning
    a timestamp into its day and building the last seven days are not
    modelled, and neither are the conversion rate and average rating
    (floating point). */
module Dashboard {
  import opened Wrappers
  import opened Seqs
  import opened Types

  datatype Stats = Stats(totalLeads: nat, leadsAtivos: int, leadsFechados: nat, leadsPerdidos: nat)

  /** What the dashboard shows once loading succeeds. */
  datatype DashboardData = DashboardData(stats: Stats, leadsByStatus: Tallies<LeadStatus>, trend: seq<(string, nat)>)

  /** Number of leads in stage `st`. */
  function CountStatus(leads: seq<Lead>, st: LeadStatus): nat {
    Count(leads, (l: Lead) => l.status == st)
  }

  /** The lead is neither won nor lost. */
  predicate IsOpen(l: Lead) {
    l.status != Fechado && l.status != Perdido
  }

  /** The four totals. The active count is the remainder after the closed
      and lost leads, and it equals the number of leads in the four open
      stages, so it is never negative. */
  function ComputeStats(leads: seq<Lead>): (s: Stats)
    ensures s.totalLeads == |leads|
    ensures s.leadsAtivos + s.leadsFechados + s.leadsPerdidos == s.totalLeads
    ensures s.leadsAtivos == Count(leads, IsOpen) && s.leadsAtivos >= 0
    ensures s.leadsFechados == CountStatus(leads, Fechado) && s.leadsPerdidos == CountStatus(leads, Perdido)
  {
    var total := |leads|;
    var fechados := CountStatus(leads, Fechado);
    var perdidos := CountStatus(leads, Perdido);
    var isFinished := (l: Lead) => l.status == Fechado || l.status == Perdido;
    CountDisjoint(leads, (l: Lead) => l.status == Fechado, (l: Lead) => l.status == Perdido, isFinished);
    CountComplement(leads, isFinished, IsOpen);
    Stats(total, total - fechados - perdidos, fechados, perdidos)
  }

  /** `statusCount`: one entry per stage that occurs, counting the leads in
      that stage; absent stages have no entry, and the counts add up to the
      number of leads. */
  function StatusHistogram(leads: seq<Lead>): (r: Tallies<LeadStatus>)
    ensures DistinctKeys(r) && PositiveCounts(r)
    ensures forall st :: st in Keys(r) <==> exists l :: l in leads && l.status == st
    ensures forall st :: Lookup(r, st) == CountStatus(leads, st)
    ensures Total(r) == |leads|
  {
    var status := (l: Lead) => l.status;
    var statuses := Map(leads, status);
    forall st
      ensures Occurrences(statuses, st) == CountStatus(leads, st)
    {
      OccurrencesOfMap(leads, status, st, (l: Lead) => l.status == st);
    }
    Tally(statuses)
  }

  /** `leadsByDay`: per day key, the number of leads created that day; the
      counts add up to the number of leads. */
  function LeadsByDay(leads: seq<Lead>, dayOf: Lead -> string): (r: Tallies<string>)
    ensures DistinctKeys(r) && PositiveCounts(r)
    ensures forall d :: Lookup(r, d) == Count(leads, (l: Lead) => dayOf(l) == d)
    ensures Total(r) == |leads|
  {
    var days := Map(leads, dayOf);
    forall d
      ensures Occurrences(days, d) == Count(leads, (l: Lead) => dayOf(l) == d)
    {
      OccurrencesOfMap(leads, dayOf, d, (l: Lead) => dayOf(l) == d);
    }
    Tally(days)
  }

  /** The trend line: for each day of the window, that day's count, or 0 for
      a day with no entry. */
  function Trend(byDay: Tallies<string>, window: seq<string>): (r: seq<(string, nat)>)
    requires DistinctKeys(byDay) && PositiveCounts(byDay)
    ensures |r| == |window|
    ensures forall i :: 0 <= i < |window| ==> r[i].0 == window[i]
    ensures forall i :: 0 <= i < |window| ==> r[i].1 == Lookup(byDay, window[i])
    ensures forall i :: 0 <= i < |window| ==> (r[i].1 == 0 <==> window[i] !in Keys(byDay))
  {
    forall d {
      LookupPositive(byDay, d);
    }
    Map(window, (d: string) => (d, Lookup(byDay, d)))
  }

  /** `loadDashboardData`, given the signed-in user, the leads query's reply,
      the day each lead was created and the seven-day window. Nothing is
      shown without a user or when the query fails. Otherwise the pie chart
      agrees with the totals, and the trend has seven points, each the
      number of leads created on that day. */
  function LoadDashboard(user: Option<string>, reply: Result<seq<Lead>>, dayOf: Lead -> string, window: seq<string>): (r: Option<DashboardData>)
    requires |window| == 7
    ensures r.Some? <==> user.Some? && reply.Ok?
    ensures r.Some? ==>
      var leads := reply.value;
      && r.value.stats.totalLeads == |leads| == Total(r.value.leadsByStatus)
      && r.value.stats.leadsFechados == Lookup(r.value.leadsByStatus, Fechado)
      && r.value.stats.leadsPerdidos == Lookup(r.value.leadsByStatus, Perdido)
      && (forall st :: Lookup(r.value.leadsByStatus, st) == CountStatus(leads, st))
      && r.value.stats.leadsFechados == CountStatus(leads, Fechado)
      && r.value.stats.leadsPerdidos == CountStatus(leads, Perdido)
      && |r.value.trend| == 7
      && forall i :: 0 <= i < 7 ==>
           r.value.trend[i] == (window[i], Count(leads, (l: Lead) => dayOf(l) == window[i]))
  {
    if user.None? || reply.Err? then None
    else
      var leads := reply.value;
      Some(DashboardData(ComputeStats(leads), StatusHistogram(leads), Trend(LeadsByDay(leads, dayOf), window)))
  }
}
