/** The business search page. A search checks the configured API key, then
    the query; runs a text search; on `ZERO_RESULTS` records a history
    entry with no results; on another non-OK status reports an error; and
    otherwise fetches each place's details, keeps the ones that came back
    usable, marks those already in the pipeline, and records how many were
    found. The page also exports the listed businesses as a fixed-column
    CSV file. Every HTTP and database call is an input here; the request
    URLs, the map location and the search radius are not modelled. */
module Empresas {
  import opened Wrappers
  import opened Strings
  import opened Seqs
  import opened Types

  const ConfigureKeyMessage := "Configure sua chave da API do Google Places nas configurações para começar a buscar empresas."
  const EmptyTermMessage := "Por favor, insira um termo para busca."
  const ConnectMessage := "Erro ao conectar com a API do Google Places"
  const DeniedMessage := "Chave da API inválida ou sem permissões necessárias"
  const StatusMessagePrefix := "Erro na API do Google Places: "
  const UnexpectedMessage := "Erro ao buscar empresas. Por favor, verifique sua conexão e tente novamente."

  /** The `result` of a place-details reply. */
  datatype PlaceDetails = PlaceDetails(
    name: string,
    rating: Option<int>,
    userRatingsTotal: Option<int>,
    formattedAddress: string,
    formattedPhoneNumber: Option<string>,
    website: Option<string>,
    hasGeometry: bool)

  /** What fetching one place's details produced. */
  datatype DetailsReply = DetailsHttpError | DetailsThrew | DetailsBody(status: string, result: PlaceDetails)

  /** A text-search hit together with the outcome of its details request. */
  datatype Place = Place(placeId: string, details: DetailsReply)

  /** What the text search produced: a thrown value (network failure,
      unreadable body), a non-2xx response, or a body with a status. */
  datatype PlacesReply = PlacesThrew(thrown: Thrown) | PlacesHttpError | PlacesBody(status: string, results: seq<Place>)

  /** An outcome of `Promise.allSettled`. */
  datatype Settled<T> = Fulfilled(value: T) | Rejected(reason: Thrown)

  /** A row of the search history table. */
  datatype HistoryEntry = HistoryEntry(userId: string, query: string, resultsCount: nat)

  /** What one search does: show an error popup, stop silently (no user), or
      record a history entry and list businesses. */
  datatype SearchOutcome = ShowError(message: string) | Silent | Listed(history: HistoryEntry, businesses: seq<Business>)

  /** `!settings?.google_api_key`. */
  predicate KeyMissing(apiKey: Option<string>) {
    apiKey.None? || apiKey.value == []
  }

  /** `x || 0` on an optional number. */
  function OrZero(n: Option<int>): int {
    n.GetOr(0)
  }

  /** `x || null` on an optional string: an empty string also becomes null. */
  function OrNull(s: Option<string>): (r: Option<string>)
    ensures r.Some? ==> r.value != []
    ensures r.None? <==> s.None? || s.value == []
    ensures s.Some? && s.value != [] ==> r == s
  {
    if s.Some? && s.value != [] then s else None
  }

  /** One place's details mapped to a business, or null when the details
      request failed, did not say OK, or lacked a location. The business's
      id is the place id, missing counts read as 0 and missing contact
      fields as null. */
  function DetailsToBusiness(p: Place): (r: Option<Business>)
    ensures r.Some? <==> p.details.DetailsBody? && p.details.status == "OK" && p.details.result.hasGeometry
    ensures r.Some? ==>
      var d := p.details.result;
      && r.value.id == p.placeId && r.value.placeId == p.placeId
      && r.value.name == d.name && r.value.address == d.formattedAddress
      && (d.rating.Some? ==> r.value.rating == d.rating.value)
      && (d.userRatingsTotal.Some? ==> r.value.reviewCount == d.userRatingsTotal.value)
      && (d.formattedPhoneNumber.Some? && d.formattedPhoneNumber.value != [] ==> r.value.phone == d.formattedPhoneNumber)
      && (d.website.Some? && d.website.value != [] ==> r.value.website == d.website)
      && (d.rating.None? ==> r.value.rating == 0)
      && (d.userRatingsTotal.None? ==> r.value.reviewCount == 0)
      && (r.value.phone.None? <==> d.formattedPhoneNumber.None? || d.formattedPhoneNumber.value == [])
      && (r.value.website.None? <==> d.website.None? || d.website.value == [])
      && r.value.inLeads.None?
  {
    match p.details
    case DetailsHttpError => None
    case DetailsThrew => None
    case DetailsBody(status, d) =>
      if status != "OK" || !d.hasGeometry then None
      else Some(Business(p.placeId, d.name, d.formattedAddress, OrNull(d.formattedPhoneNumber),
                         OrNull(d.website), OrZero(d.rating), OrZero(d.userRatingsTotal), p.placeId, None))
  }

  /** The settled outcome of every details request; each request catches
      its own failures, so every outcome is fulfilled. */
  function SettleDetails(places: seq<Place>): (r: seq<Settled<Option<Business>>>)
    ensures |r| == |places|
    ensures forall i :: 0 <= i < |places| ==> r[i] == Fulfilled(DetailsToBusiness(places[i]))
  {
    Map(places, (p: Place) => Fulfilled(DetailsToBusiness(p)))
  }

  /** `validPlaces`: the values of the fulfilled, non-null outcomes. */
  function ValidPlaces(settled: seq<Settled<Option<Business>>>): (r: seq<Business>)
    ensures |r| <= |settled|
    ensures forall b :: b in r <==> Fulfilled(Some(b)) in settled
    decreases |settled|
  {
    if |settled| == 0 then []
    else
      var head := if settled[0].Fulfilled? && settled[0].value.Some? then [settled[0].value.value] else [];
      head + ValidPlaces(settled[1..])
  }

  /** `ValidPlaces` keeps the original order: it distributes over
      concatenation. */
  lemma {:induction false} ValidPlacesAppend(a: seq<Settled<Option<Business>>>, b: seq<Settled<Option<Business>>>)
    ensures ValidPlaces(a + b) == ValidPlaces(a) + ValidPlaces(b)
    decreases |a|
  {
    if |a| == 0 {
      assert a + b == b;
    } else {
      assert (a + b)[1..] == a[1..] + b;
      ValidPlacesAppend(a[1..], b);
    }
  }

  /** Marks each business with whether its id is the business id of an
      existing lead; nothing else changes. */
  function MarkInLeads(businesses: seq<Business>, leadBusinessIds: seq<string>): (r: seq<Business>)
    ensures |r| == |businesses|
    ensures forall i :: 0 <= i < |r| ==>
      && r[i].inLeads == Some(businesses[i].id in leadBusinessIds)
      && r[i].(inLeads := businesses[i].inLeads) == businesses[i]
  {
    var existing := set id | id in leadBusinessIds;
    Map(businesses, (b: Business) => b.(inLeads := Some(b.id in existing)))
  }

  /** The popup text for a caught value. */
  function CaughtMessage(t: Thrown): string {
    match t
    case ErrorValue(m) => m
    case OtherValue => UnexpectedMessage
  }

  /** The part of a search after a text-search body with status OK: the
      listed businesses are the usable details in search order, each marked
      by membership of its id among the existing leads' business ids, and
      the history records how many there are. */
  function ListResults(userId: string, query: string, results: seq<Place>, leadBusinessIds: Option<seq<string>>): (o: SearchOutcome)
    ensures
      var valid := ValidPlaces(SettleDetails(results));
      && o.Listed?
      && o.history == HistoryEntry(userId, query, |valid|)
      && |o.businesses| == |valid|
      && forall i :: 0 <= i < |valid| ==>
           && o.businesses[i].(inLeads := None) == valid[i]
           && o.businesses[i].inLeads == Some(leadBusinessIds.Some? && valid[i].id in leadBusinessIds.value)
  {
    var valid := ValidPlaces(SettleDetails(results));
    if |valid| == 0 then Listed(HistoryEntry(userId, query, 0), [])
    else
      var ids := if leadBusinessIds.Some? then leadBusinessIds.value else [];
      var marked := MarkInLeads(valid, ids);
      assert forall i :: 0 <= i < |valid| ==> valid[i].inLeads.None? by {
        forall i | 0 <= i < |valid|
          ensures valid[i].inLeads.None?
        {
          assert Fulfilled(Some(valid[i])) in SettleDetails(results);
        }
      }
      Listed(HistoryEntry(userId, query, |valid|), marked)
  }

  /** The part of a search after the text search replied: a thrown value or
      an HTTP error shows an error; `ZERO_RESULTS` lists nothing and records
      0; another non-OK status shows the denial message or the generic one
      naming the status. */
  function HandlePlacesReply(userId: string, query: string, reply: PlacesReply, leadBusinessIds: Option<seq<string>>): (o: SearchOutcome)
    ensures reply.PlacesThrew? ==> o == ShowError(CaughtMessage(reply.thrown))
    ensures reply.PlacesHttpError? ==> o == ShowError(ConnectMessage)
    ensures reply.PlacesBody? ==>
      if reply.status == "ZERO_RESULTS" then o == Listed(HistoryEntry(userId, query, 0), [])
      else if reply.status == "REQUEST_DENIED" then o == ShowError(DeniedMessage)
      else if reply.status != "OK" then o == ShowError(StatusMessagePrefix + reply.status)
      else o == ListResults(userId, query, reply.results, leadBusinessIds)
    ensures o.Listed? ==> o.history.userId == userId && o.history.query == query && o.history.resultsCount == |o.businesses|
  {
    match reply
    case PlacesThrew(t) => ShowError(CaughtMessage(t))
    case PlacesHttpError => ShowError(ConnectMessage)
    case PlacesBody(status, results) =>
      if status == "ZERO_RESULTS" then Listed(HistoryEntry(userId, query, 0), [])
      else if status != "OK" then
        if status == "REQUEST_DENIED" then ShowError(DeniedMessage)
        else ShowError(StatusMessagePrefix + status)
      else ListResults(userId, query, results, leadBusinessIds)
  }

  /** `searchBusinesses`, given the saved API key (absent without settings),
      the typed query, the signed-in user, the text search's reply and the
      business ids of existing leads (absent when that query returns no
      data). The key is checked before the query and both before anything
      is fetched, so neither error depends on the replies; without a user
      the search stops silently. */
  function SearchBusinesses(apiKey: Option<string>, query: string, user: Option<string>,
                            reply: PlacesReply, leadBusinessIds: Option<seq<string>>): (o: SearchOutcome)
    ensures KeyMissing(apiKey) ==> o == ShowError(ConfigureKeyMessage)
    ensures !KeyMissing(apiKey) && IsBlank(query) ==> o == ShowError(EmptyTermMessage)
    ensures !KeyMissing(apiKey) && !IsBlank(query) && user.None? ==> o == Silent
    ensures !KeyMissing(apiKey) && !IsBlank(query) && user.Some? ==>
      o == HandlePlacesReply(user.value, query, reply, leadBusinessIds)
    ensures o.Listed? ==> user.Some? && o.history == HistoryEntry(user.value, query, |o.businesses|)
  {
    if KeyMissing(apiKey) then ShowError(ConfigureKeyMessage)
    else if IsBlank(query) then ShowError(EmptyTermMessage)
    else if user.None? then Silent
    else HandlePlacesReply(user.value, query, reply, leadBusinessIds)
  }

  // ---------------------------------------------------------------------
  // CSV export of the listed businesses
  // ---------------------------------------------------------------------

  const ExportHeaders: seq<string> := ["Nome", "Avaliação", "Total de Avaliações", "Endereço", "Telefone", "Website"]

  /** A cell wrapped in double quotes (inner quotes are not escaped). */
  function Quoted(cell: string): (q: string)
    ensures |q| == |cell| + 2 && q[0] == '"' && q[|q| - 1] == '"' && q[1..|q| - 1] == cell
  {
    ['"'] + cell + ['"']
  }

  /** The six cell texts of a business, one under each column title:
      name, rating and review count as decimal numerals that read back as
      the numbers, address, and phone and website with null as empty text. */
  function ExportFields(b: Business): (fs: seq<string>)
    ensures |fs| == |ExportHeaders| == 6
    ensures fs[0] == b.name && fs[3] == b.address
    ensures fs[1] == IntToString(b.rating) && fs[2] == IntToString(b.reviewCount)
    ensures b.rating >= 0 ==> IsDigits(fs[1]) && ParseDigits(fs[1]) == b.rating
    ensures b.reviewCount >= 0 ==> IsDigits(fs[2]) && ParseDigits(fs[2]) == b.reviewCount
    ensures fs[4] == b.phone.GetOr([]) && fs[5] == b.website.GetOr([])
    ensures b.phone.Some? ==> fs[4] == b.phone.value
    ensures b.website.Some? ==> fs[5] == b.website.value
  {
    IntToStringParses(b.rating);
    IntToStringParses(b.reviewCount);
    [b.name, IntToString(b.rating), IntToString(b.reviewCount), b.address, b.phone.GetOr([]), b.website.GetOr([])]
  }

  /** A comma-free field stays comma-free once quoted. */
  lemma QuotedExcludes(cell: string, c: char)
    requires c != '"' && c !in cell
    ensures c !in Quoted(cell)
  {
    var q := Quoted(cell);
    forall k | 0 <= k < |q|
      ensures q[k] != c
    {
      if 0 < k < |q| - 1 {
        assert q[k] == q[1..|q| - 1][k - 1];
      }
    }
  }

  /** A data line whose fields have no commas splits back into the six
      quoted cells, each holding its field between the quotes. */
  lemma ExportRowSplit(b: Business)
    requires forall j :: 0 <= j < 6 ==> ',' !in ExportFields(b)[j]
    ensures var cells := Split(ExportRow(b), ',');
      && |cells| == |ExportHeaders|
      && forall j :: 0 <= j < |cells| ==> |cells[j]| >= 2 && cells[j][1..|cells[j]| - 1] == ExportFields(b)[j]
  {
    var fs := ExportFields(b);
    var cells := Map(fs, Quoted);
    forall j | 0 <= j < |cells|
      ensures ',' !in cells[j]
    {
      QuotedExcludes(fs[j], ',');
    }
    SplitJoin(cells, ',');
  }

  /** One data line: the six fields, each quoted, joined by commas. */
  function ExportRow(b: Business): string {
    Join(Map(ExportFields(b), Quoted), ',')
  }

  /** The lines of the export: the header line, then one line per business. */
  function ExportLines(businesses: seq<Business>): seq<string> {
    [Join(ExportHeaders, ',')] + Map(businesses, ExportRow)
  }

  /** `handleExportCSV`'s file content: the header line, then, when there
      are businesses, a line break and the rest. */
  function ExportCsv(businesses: seq<Business>): (csv: string)
    ensures var h := Join(ExportHeaders, ',');
      && |h| <= |csv| && csv[..|h|] == h
      && (businesses == [] <==> csv == h)
  {
    JoinFirst(ExportLines(businesses), '\n');
    Join(ExportLines(businesses), '\n')
  }


  /** No exported field contains a line break. */
  predicate NoLineBreaks(businesses: seq<Business>) {
    forall i, j :: 0 <= i < |businesses| && 0 <= j < 6 ==> '\n' !in ExportFields(businesses[i])[j]
  }

  /** No column title contains a line break, so neither does the header
      line. */
  lemma HeaderLine()
    ensures '\n' !in Join(ExportHeaders, ',')
  {
    var h := ExportHeaders;
    assert '\n' !in h[2];
    JoinExcludes(h, ',', '\n');
  }

  /** Every data cell is quoted, a null phone or website giving an empty
      quoted cell. */
  lemma ExportRowCells(b: Business)
    ensures
      var cells := Map(ExportFields(b), Quoted);
      && |cells| == 6
      && (forall j :: 0 <= j < 6 ==> cells[j][0] == '"' && cells[j][|cells[j]| - 1] == '"')
      && (b.phone.None? ==> cells[4] == "\"\"")
      && (b.website.None? ==> cells[5] == "\"\"")
  {
    var fs := ExportFields(b);
    var cells := Map(fs, Quoted);
    assert cells[4] == Quoted(fs[4]) && cells[5] == Quoted(fs[5]);
  }

  /** A data line has no line break when its fields have none. */
  lemma ExportRowLineBreak(b: Business)
    requires forall j :: 0 <= j < 6 ==> '\n' !in ExportFields(b)[j]
    ensures '\n' !in ExportRow(b)
  {
    var fs := ExportFields(b);
    var cells := Map(fs, Quoted);
    forall j | 0 <= j < 6
      ensures '\n' !in cells[j]
    {
      QuotedExcludes(fs[j], '\n');
    }
    JoinExcludes(cells, ',', '\n');
  }


  /** Without line breaks in the data, the export has the fixed header line
      and then exactly one line per business, in order. */
  lemma ExportStructure(businesses: seq<Business>)
    requires NoLineBreaks(businesses)
    ensures
      var lines := Split(ExportCsv(businesses), '\n');
      && |lines| == |businesses| + 1
      && lines[0] == Join(ExportHeaders, ',')
      && forall i :: 0 <= i < |businesses| ==> lines[i + 1] == ExportRow(businesses[i])
  {
    ExportLinesClean(businesses);
    SplitJoin(ExportLines(businesses), '\n');
  }

  /** Without line breaks in the data, no line of the export holds one. */
  lemma ExportLinesClean(businesses: seq<Business>)
    requires NoLineBreaks(businesses)
    ensures forall k :: 0 <= k < |ExportLines(businesses)| ==> '\n' !in ExportLines(businesses)[k]
  {
    var rows := Map(businesses, ExportRow);
    forall i | 0 <= i < |businesses|
      ensures '\n' !in rows[i]
    {
      ExportRowLineBreak(businesses[i]);
    }
    HeaderLine();
  }
}
