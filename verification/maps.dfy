/** The places-search helper. It checks its two inputs, extracts a search
    term when the query is a maps link (from a `/search/` path segment, else
    the `q` parameter, else the last path segment without its `@…`
    coordinates), cleans the term, queries the places proxy, and maps every
    hit to a business with defaults for missing fields. Every failure is
    rethrown as an `Error` carrying a meaningful message.

    The URL is parsed by the caller of this model: its outcome (the path
    and the `q` parameter, or the parse error) is an input, and percent
    decoding is taken as already done. The proxy's replies are inputs. */
module Maps {
  import opened Wrappers
  import opened Strings

  const EmptyQueryMessage := "Por favor, forneça um termo de busca"
  const MissingKeyMessage := "Chave da API do Google Maps não configurada"
  const NoResultsMessage := "Nenhum resultado encontrado para esta busca"
  const GenericMessage := "Ocorreu um erro ao processar os dados do Google Maps"
  const ApiErrorPrefix := "Erro na API do Google Places: "
  const UnknownErrorText := "Erro desconhecido"
  /** How an absent `error_message` reads inside a template literal. */
  const UndefinedText := "undefined"
  const NoNameText := "Nome não disponível"
  const NoAddressText := "Endereço não disponível"

  /** A query containing this is treated as a maps link. */
  const MapsMarker := "google.com/maps"
  const SearchMarker := "/search/"

  /** The parts of a parsed maps link the helper reads. */
  datatype MapsUrl = MapsUrl(pathname: string, q: Option<string>)

  /** The `result` of a place-details reply: only the two requested fields. */
  datatype MapsDetails = MapsDetails(website: Option<string>, formattedPhoneNumber: Option<string>)

  /** What the details request for one hit gave: nothing usable (a thrown
      value or a non-2xx response), or a body whose `result` may be absent. */
  datatype DetailsOutcome = DetailsUnavailable | DetailsBody(result: Option<MapsDetails>)

  /** One hit of the text search, with the outcome of its details request. */
  datatype RawPlace = RawPlace(
    name: Option<string>,
    rating: Option<int>,
    userRatingsTotal: Option<int>,
    formattedAddress: Option<string>,
    details: DetailsOutcome)

  /** The body of a non-2xx search response: unreadable as JSON, or an
      object whose `error_message` may be absent. */
  datatype ErrorBody = Unreadable | ErrorJson(errorMessage: Option<string>)

  /** The proxy's reply to the text search: a thrown value (a rejected fetch
      or an unreadable body), a non-2xx response, or a body whose `results`
      may be absent. */
  datatype SearchReply = SearchThrew(thrown: Thrown) | SearchNotOk(body: ErrorBody) | SearchOk(results: Option<seq<RawPlace>>)

  /** The object returned for each hit. */
  datatype FoundBusiness = FoundBusiness(name: string, rating: int, reviewCount: int, address: string, website: string, phone: string)

  /** The term sent to the proxy (absent when nothing was sent) and what the
      helper resolves to or rejects with. */
  datatype MapsResult = MapsResult(request: Option<string>, outcome: Result<seq<FoundBusiness>>)

  // ---------------------------------------------------------------------
  // Term extraction
  // ---------------------------------------------------------------------

  /** `/\/search\/([^\/]+)/` matches at position `i`: the marker is there and
      is followed by at least one character other than `/`. */
  predicate SearchMatchAt(s: string, i: int) {
    OccursAt(s, SearchMarker, i) && i + |SearchMarker| < |s| && s[i + |SearchMarker|] != '/'
  }

  /** The leftmost match position at or after `from`, or -1. */
  function FirstSearchMatch(s: string, from: nat): (r: int)
    ensures r == -1 || (from <= r < |s| && SearchMatchAt(s, r))
    ensures forall j :: from <= j < (if r == -1 then |s| else r) ==> !SearchMatchAt(s, j)
    decreases |s| - from
  {
    if from >= |s| then -1
    else if SearchMatchAt(s, from) then from
    else FirstSearchMatch(s, from + 1)
  }

  /** The longest prefix of `s` without a `/`: what `[^\/]+` captures. */
  function RunUntilSlash(s: string): (r: string)
    ensures |r| <= |s| && r == s[..|r|]
    ensures '/' !in r
    ensures |r| == |s| || s[|r|] == '/'
    decreases |s|
  {
    if |s| == 0 || s[0] == '/' then [] else [s[0]] + RunUntilSlash(s[1..])
  }

  /** The first capture group of the `/search/` pattern on a path, if the
      pattern matches: a non-empty segment without `/`. */
  function SearchTerm(path: string): (t: Option<string>)
    ensures t.Some? <==> exists i :: 0 <= i < |path| && SearchMatchAt(path, i)
    ensures t.Some? ==> t.value != [] && '/' !in t.value
    ensures t.Some? ==>
      var i := FirstSearchMatch(path, 0);
      && 0 <= i && i + |SearchMarker| <= |path|
      && t.value == RunUntilSlash(path[i + |SearchMarker|..])
  {
    var i := FirstSearchMatch(path, 0);
    if i < 0 then None
    else
      var t := RunUntilSlash(path[i + |SearchMarker|..]);
      assert t != [] by {
        assert path[i + |SearchMarker|..][0] == path[i + |SearchMarker|];
      }
      Some(t)
  }

  /** `/@.*$/` matches at position `i`: an `@` followed only by characters
      that `.` matches, up to the end of the text. */
  predicate AtTailAt(s: string, i: int) {
    0 <= i < |s| && s[i] == '@' && forall k :: i < k < |s| ==> !IsLineTerminator(s[k])
  }

  /** The leftmost position at or after `from` where `/@.*$/` matches, or -1. */
  function FirstAtTail(s: string, from: nat): (r: int)
    ensures r == -1 || (from <= r < |s| && AtTailAt(s, r))
    ensures forall j :: from <= j < (if r == -1 then |s| else r) ==> !AtTailAt(s, j)
    decreases |s| - from
  {
    if from >= |s| then -1
    else if AtTailAt(s, from) then from
    else FirstAtTail(s, from + 1)
  }

  /** `s.replace(/@.*$/, '')`: the text before the leftmost `@` that is
      followed by nothing but non-line-terminators; `s` itself when there is
      no such `@`. */
  function StripAtTail(s: string): (r: string)
    ensures |r| <= |s| && r == s[..|r|]
    ensures |r| < |s| ==> AtTailAt(s, |r|)
    ensures forall j :: 0 <= j < |r| ==> !AtTailAt(s, j)
  {
    var i := FirstAtTail(s, 0);
    if i < 0 then s else s[..i]
  }

  /** A character as `x.replace(/\+/g, ' ')` leaves it: `+` reads as a
      space, anything else as itself. */
  function SpaceFor(c: char): char {
    if c == '+' then ' ' else c
  }

  /** `x.replace(/\+/g, ' ')`. */
  function PlusToSpace(s: string): (r: string)
    ensures '+' !in r
    ensures |r| == |s|
    ensures forall i :: 0 <= i < |s| ==> r[i] == SpaceFor(s[i])
  {
    ReplaceChar(s, '+', ' ')
  }

  /** The search term the helper settles on before cleaning. A plain query
      is kept; a maps link whose parse fails rejects with the parse error's
      message; otherwise the `/search/` segment wins, then a `q` parameter,
      then the last path segment when the path has more than two parts. */
  function ExtractTerm(query: string, url: Result<MapsUrl>): (r: Result<string>)
    ensures !Contains(query, MapsMarker) ==> r == Ok(query)
    ensures Contains(query, MapsMarker) && url.Err? ==> r == Err(url.message)
    ensures Contains(query, MapsMarker) && url.Ok? ==> r.Ok?
    ensures Contains(query, MapsMarker) && url.Ok? && SearchTerm(url.value.pathname).Some? ==>
      r == Ok(PlusToSpace(SearchTerm(url.value.pathname).value))
    ensures Contains(query, MapsMarker) && url.Ok? && SearchTerm(url.value.pathname).None?
            && url.value.q.Some? && url.value.q.value != query ==>
      r == Ok(url.value.q.value)
    ensures Contains(query, MapsMarker) && url.Ok? && SearchTerm(url.value.pathname).None?
            && (url.value.q.None? || url.value.q.value == query) ==>
      var parts := Split(url.value.pathname, '/');
      r == Ok(if |parts| > 2 then StripAtTail(PlusToSpace(parts[|parts| - 1])) else query)
  {
    if !Contains(query, MapsMarker) then Ok(query)
    else match url
      case Err(m) => Err(m)
      case Ok(u) =>
        var fromPath :=
          if Contains(u.pathname, SearchMarker) && SearchTerm(u.pathname).Some? then PlusToSpace(SearchTerm(u.pathname).value)
          else query;
        assert SearchTerm(u.pathname).Some? ==> fromPath != query by {
          if SearchTerm(u.pathname).Some? {
            var i :| 0 <= i < |u.pathname| && SearchMatchAt(u.pathname, i);
            assert Contains(u.pathname, SearchMarker);
            SlashInMapsLink(query);
          }
        }
        var fromQ := if fromPath == query && u.q.Some? then u.q.value else fromPath;
        if fromQ != query then Ok(fromQ)
        else
          var parts := Split(u.pathname, '/');
          if |parts| > 2 then Ok(StripAtTail(PlusToSpace(parts[|parts| - 1]))) else Ok(query)
  }

  /** A maps link contains a `/`, which a `/search/` segment never does, so
      the segment always differs from the query it came from. */
  lemma SlashInMapsLink(query: string)
    requires Contains(query, MapsMarker)
    ensures '/' in query
  {
    var i :| 0 <= i <= |query| - |MapsMarker| && OccursAt(query, MapsMarker, i);
    assert query[i + 10] == MapsMarker[10];
  }

  /** The term actually sent: `+` read as a space, then trimmed. */
  function CleanQuery(s: string): (r: string)
    ensures '+' !in r
    ensures Trimmed(r)
    ensures r == Trim(PlusToSpace(s))
    ensures var k := LeadingWhitespace(PlusToSpace(s));
      && k + |r| <= |s|
      && forall i :: 0 <= i < |s| && (i < k || k + |r| <= i) ==> s[i] == '+' || IsWhitespace(s[i])
  {
    var spaced := PlusToSpace(s);
    TrimExcludes(spaced, '+');
    CleanQueryDrops(s);
    Trim(spaced)
  }

  /** Everything cleaning cuts off is a `+` or whitespace. */
  lemma CleanQueryDrops(s: string)
    ensures var r := Trim(PlusToSpace(s)); var k := LeadingWhitespace(PlusToSpace(s));
      forall i :: 0 <= i < |s| && (i < k || k + |r| <= i) ==> s[i] == '+' || IsWhitespace(s[i])
  {
    var spaced := PlusToSpace(s);
    var r := Trim(spaced);
    var k := LeadingWhitespace(spaced);
    forall i | 0 <= i < |s| && (i < k || k + |r| <= i)
      ensures s[i] == '+' || IsWhitespace(s[i])
    {
      assert IsWhitespace(spaced[i]);
    }
  }

  /** Cleaning is idempotent: a cleaned term is left as it is. */
  lemma CleanQueryIdempotent(s: string)
    ensures CleanQuery(CleanQuery(s)) == CleanQuery(s)
  {
    var c := CleanQuery(s);
    assert PlusToSpace(c) == c;
  }

  /** On a path starting `/maps/search/` and a character other than `/`,
      the leftmost `/search/` match is the one after `/maps`. */
  lemma FirstMatchInSearchPath(path: string)
    requires |path| > 13 && path[..13] == "/maps/search/" && path[13] != '/'
    ensures FirstSearchMatch(path, 0) == 5
  {
    forall j | 0 <= j < 5
      ensures !SearchMatchAt(path, j)
    {
      assert path[j] != '/' || path[j + 1] != 's';
      assert path[j..j + 8][0] == path[j] && path[j..j + 8][1] == path[j + 1];
    }
    assert SearchMatchAt(path, 5) by {
      assert path[5..13] == path[..13][5..13];
    }
  }

  /** The run before the first `/` of a segment followed by nothing or by
      more path is the segment itself. */
  lemma {:induction false} RunUntilSlashSegment(term: string, rest: string)
    requires '/' !in term
    requires rest == [] || rest[0] == '/'
    ensures RunUntilSlash(term + rest) == term
  {
    var s := term + rest;
    var r := RunUntilSlash(s);
    assert forall i :: 0 <= i < |term| ==> s[i] == term[i];
    assert |term| < |s| ==> s[|term|] == '/';
    assert s[..|term|] == term;
  }

  /** The `/search/` capture of a `/maps/search/<term>` path, optionally
      followed by more path, is the term. */
  lemma {:induction false} SearchPathSegment(term: string, rest: string)
    requires term != [] && '/' !in term
    requires rest == [] || rest[0] == '/'
    ensures SearchTerm("/maps/search/" + term + rest) == Some(term)
  {
    var path := "/maps/search/" + term + rest;
    assert path[..13] == "/maps/search/" && path[13] == term[0];
    FirstMatchInSearchPath(path);
    assert path[13..] == term + rest;
    RunUntilSlashSegment(term, rest);
  }

  /** A link to a `/maps/search/<term>` page, optionally followed by more
      path, yields the term with `+` read as a space, whatever its `q`
      parameter says. */
  lemma {:induction false} SearchPathTerm(query: string, term: string, rest: string, q: Option<string>)
    requires Contains(query, MapsMarker)
    requires term != [] && '/' !in term
    requires rest == [] || rest[0] == '/'
    ensures ExtractTerm(query, Ok(MapsUrl("/maps/search/" + term + rest, q))) == Ok(PlusToSpace(term))
  {
    SearchPathSegment(term, rest);
  }

  // ---------------------------------------------------------------------
  // Results
  // ---------------------------------------------------------------------

  /** `x || fallback` on an optional string. */
  function OrText(s: Option<string>, fallback: string): (r: string)
    ensures s.Some? && s.value != [] ==> r == s.value
    ensures s.None? || s.value == [] ==> r == fallback
  {
    if s.Some? && s.value != [] then s.value else fallback
  }

  /** The object returned for one hit: name and address fall back to their
      "not available" texts, counts to 0, and contact fields to empty text
      when the details are missing. A business never lacks a name or an
      address. */
  function ToBusiness(p: RawPlace): (b: FoundBusiness)
    ensures b.name != [] && b.address != []
    ensures b.name == OrText(p.name, NoNameText) && b.address == OrText(p.formattedAddress, NoAddressText)
    ensures b.rating == p.rating.GetOr(0) && b.reviewCount == p.userRatingsTotal.GetOr(0)
    ensures (p.details.DetailsUnavailable? || p.details.result.None?) ==> b.website == [] && b.phone == []
    ensures p.details.DetailsBody? && p.details.result.Some? ==>
      b.website == p.details.result.value.website.GetOr([])
      && b.phone == p.details.result.value.formattedPhoneNumber.GetOr([])
  {
    var d := if p.details.DetailsBody? && p.details.result.Some? then p.details.result.value else MapsDetails(None, None);
    FoundBusiness(OrText(p.name, NoNameText), p.rating.GetOr(0), p.userRatingsTotal.GetOr(0),
                  OrText(p.formattedAddress, NoAddressText), OrText(d.website, []), OrText(d.formattedPhoneNumber, []))
  }

  /** The message of the `Error` the helper rethrows for a caught value: the
      same message for an `Error`, the generic text otherwise. */
  function RethrownMessage(t: Thrown): (m: string)
    ensures t.ErrorValue? ==> m == t.message
    ensures t.OtherValue? ==> m == GenericMessage
  {
    match t
    case ErrorValue(msg) => msg
    case OtherValue => GenericMessage
  }

  /** What the helper does with the proxy's reply. */
  function HandleReply(reply: SearchReply): (r: Result<seq<FoundBusiness>>)
    ensures reply.SearchThrew? ==> r == Err(RethrownMessage(reply.thrown))
    ensures reply == SearchNotOk(Unreadable) ==> r == Err(ApiErrorPrefix + UnknownErrorText)
    ensures reply.SearchNotOk? && reply.body.ErrorJson? ==>
      r == Err(ApiErrorPrefix + reply.body.errorMessage.GetOr(UndefinedText))
    ensures reply.SearchOk? && (reply.results.None? || reply.results.value == []) ==> r == Err(NoResultsMessage)
    ensures r.Ok? <==> reply.SearchOk? && reply.results.Some? && reply.results.value != []
    ensures r.Ok? ==>
      && |r.value| == |reply.results.value|
      && forall i :: 0 <= i < |r.value| ==> r.value[i] == ToBusiness(reply.results.value[i])
  {
    match reply
    case SearchThrew(t) => Err(RethrownMessage(t))
    case SearchNotOk(body) =>
      var detail := if body.Unreadable? then UnknownErrorText else body.errorMessage.GetOr(UndefinedText);
      Err(ApiErrorPrefix + detail)
    case SearchOk(results) =>
      if results.None? || |results.value| == 0 then Err(NoResultsMessage)
      else Ok(seq(|results.value|, i requires 0 <= i < |results.value| => ToBusiness(results.value[i])))
  }

  /** `searchBusinesses(query, apiKey)`, given the parse of the query as a
      link and the proxy's reply (consulted only when a request is sent).
      The query is checked before the key; a request is sent exactly when
      both are present and the term could be extracted, and the term sent
      has no `+` and no surrounding whitespace. */
  function SearchBusinesses(query: string, apiKey: string, url: Result<MapsUrl>, reply: SearchReply): (r: MapsResult)
    ensures query == [] ==> r == MapsResult(None, Err(EmptyQueryMessage))
    ensures query != [] && apiKey == [] ==> r == MapsResult(None, Err(MissingKeyMessage))
    ensures r.request.Some? <==> query != [] && apiKey != [] && ExtractTerm(query, url).Ok?
    ensures r.request.Some? ==>
      && '+' !in r.request.value
      && Trimmed(r.request.value)
      && r.request.value == CleanQuery(ExtractTerm(query, url).value)
      && r.outcome == HandleReply(reply)
    ensures query != [] && apiKey != [] && !Contains(query, MapsMarker) ==> r.request == Some(CleanQuery(query))
    ensures query != [] && apiKey != [] && ExtractTerm(query, url).Err? ==> r == MapsResult(None, Err(ExtractTerm(query, url).message))
  {
    if query == [] then MapsResult(None, Err(EmptyQueryMessage))
    else if apiKey == [] then MapsResult(None, Err(MissingKeyMessage))
    else match ExtractTerm(query, url)
      case Err(m) => MapsResult(None, Err(m))
      case Ok(term) =>
        var clean := CleanQuery(term);
        MapsResult(Some(clean), HandleReply(reply))
  }
}
