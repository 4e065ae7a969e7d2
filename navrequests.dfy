/** The raw-XML client: it renders SOAP envelopes from text templates, sends
    them with a `SOAPAction` header (SOAP 1.1, section 6.1.1), and unwraps the
    response parsed by xmltodict. */
module NavRequests {
  import opened Wrappers
  import opened Text
  import opened Values
  import opened Dicts
  import opened Exceptions
  import opened Constants
  import Nav

  // ------------------------------------------------------------- headers

  const ContentType: (string, string) := ("content-type", "text/xml;charset=UTF-8")

  /** `dict(**{'content-type': ...}, **(headers or {}))`: a caller key spelled
      exactly `content-type` is a duplicate keyword argument, not an override. */
  function RequestHeaders(headers: Option<seq<(string, string)>>): (r: Result<seq<(string, string)>, Error>)
    ensures var extra := if headers.Some? then headers.value else [];
      && (r.Err? <==> ContentType.0 in Keys(extra))
      && (r.Err? ==> r.error == TypeError)
      && (r.Ok? ==> (&& Get(r.value, ContentType.0) == Some(ContentType.1)
                     && Keys(r.value) == [ContentType.0] + Keys(extra)
                     && forall k :: k != ContentType.0 ==> Get(r.value, k) == Get(extra, k)))
  {
    var extra := if headers.Some? then headers.value else [];
    if ContentType.0 in Keys(extra) then Err(TypeError)
    else Ok([ContentType] + extra)
  }

  /** A request as handed to the HTTP layer (NTLM credentials are not modelled). */
  datatype HttpRequest = HttpRequest(verb: string, url: string, headers: seq<(string, string)>, body: Option<string>)

  // -------------------------------------------------------- service name

  /** `endpoint_url.rpartition('/')[2]`. */
  function ServiceName(endpointUrl: string): string {
    AfterLast(endpointUrl, '/')
  }

  /** A URL without any `/` is its own service name. */
  lemma ServiceNameWithoutSlash(endpointUrl: string)
    requires '/' !in endpointUrl
    ensures ServiceName(endpointUrl) == endpointUrl
  {
    AfterLastWithout(endpointUrl, '/');
  }

  /** The raw client reads back the service name the typed client puts at the
      end of an endpoint URL. */
  lemma ServiceNameOfEndpointUrl(baseUrl: string, endpointType: string, name: string)
    requires '/' !in name
    ensures ServiceName(Nav.MakeEndpointUrl(baseUrl, [endpointType, name])) == name
  {
    Nav.EndpointUrlBySegments(baseUrl, [endpointType], name);
    assert [endpointType] + [name] == [endpointType, name];
    AfterLastOfJoined(Nav.MakeEndpointUrl(baseUrl, [endpointType]), '/', name);
    assert Nav.MakeEndpointUrl(baseUrl, [endpointType]) + "/" + name
        == Nav.MakeEndpointUrl(baseUrl, [endpointType]) + ['/'] + name;
  }

  // ------------------------------------------------------------- filters

  datatype FilterStyle = CodeunitFilter | PageFilter

  /** The two filter templates; field and criteria are inserted verbatim. */
  function FilterXml(style: FilterStyle, field: string, criteria: string): string {
    match style
    case CodeunitFilter => "<int:" + field + ">" + criteria + "</int:" + field + ">"
    case PageFilter =>
      "<sal:filter>\n       <sal:Field>" + field + "</sal:Field>\n       <sal:Criteria>"
        + criteria + "</sal:Criteria>\n    </sal:filter>"
  }

  /** `filter_tmpl.format(*fil.split('='))`: a filter without `=` leaves the
      second placeholder without an argument; parts after the second are unused. */
  function RenderFilter(style: FilterStyle, filter: string): Result<string, Error> {
    var parts := Split(filter, '=');
    if |parts| < 2 then Err(IndexError) else Ok(FilterXml(style, parts[0], parts[1]))
  }

  lemma RenderFilterFails(style: FilterStyle, filter: string)
    ensures RenderFilter(style, filter).Err? <==> '=' !in filter
    ensures RenderFilter(style, filter).Err? ==> RenderFilter(style, filter).error == IndexError
  {
    SplitHasSecondPart(filter, '=');
  }

  /** `F=C` renders F and C; anything after a second `=` is dropped. */
  lemma RenderFilterOf(style: FilterStyle, field: string, criteria: string, rest: string)
    requires '=' !in field && '=' !in criteria
    ensures RenderFilter(style, field + "=" + criteria) == Ok(FilterXml(style, field, criteria))
    ensures RenderFilter(style, field + "=" + criteria + "=" + rest) == Ok(FilterXml(style, field, criteria))
  {
    assert field + "=" + criteria == field + ['='] + criteria;
    SplitAtFirst(field, '=', criteria);
    SplitWithout(criteria, '=');
    assert field + "=" + criteria + "=" + rest == field + ['='] + (criteria + ['='] + rest);
    SplitAtFirst(field, '=', criteria + ['='] + rest);
    SplitAtFirst(criteria, '=', rest);
  }

  /** The list comprehension over all filters: the first bad filter raises. */
  function RenderedFilters(style: FilterStyle, filters: seq<string>): (r: Result<seq<string>, Error>)
    ensures r.Ok? <==> forall i :: 0 <= i < |filters| ==> '=' in filters[i]
    ensures r.Err? ==> r.error == IndexError
    ensures r.Ok? ==> (|r.value| == |filters| &&
      forall i :: 0 <= i < |filters| ==> RenderFilter(style, filters[i]) == Ok(r.value[i]))
    decreases |filters|
  {
    if |filters| == 0 then Ok([])
    else
      RenderFilterFails(style, filters[0]);
      match RenderFilter(style, filters[0])
      case Err(e) => Err(e)
      case Ok(fragment) =>
        match RenderedFilters(style, filters[1..])
        case Err(e) => Err(e)
        case Ok(rest) => Ok([fragment] + rest)
  }

  /** `'\n'.join(...)` of the fragments. */
  function FiltersXml(style: FilterStyle, filters: seq<string>): Result<string, Error> {
    match RenderedFilters(style, filters)
    case Err(e) => Err(e)
    case Ok(fragments) => Ok(Join("\n", fragments))
  }

  lemma NoFiltersRenderEmpty(style: FilterStyle)
    ensures FiltersXml(style, []) == Ok("")
  {
  }

  lemma {:induction false} SplitPartsAvoid(s: string, c: char, d: char, i: nat)
    requires d !in s
    requires i < |Split(s, c)|
    ensures d !in Split(s, c)[i]
    decreases |s|
  {
    if |s| > 0 {
      var rest := Split(s[1..], c);
      if s[0] == c {
        if i > 0 {
          SplitPartsAvoid(s[1..], c, d, i - 1);
        }
      } else if i == 0 {
        SplitPartsAvoid(s[1..], c, d, 0);
      } else {
        SplitPartsAvoid(s[1..], c, d, i);
      }
    }
  }

  /** Codeunit fragments sit one per line: the rendered filters split on
      newlines give one fragment per filter, in input order. */
  lemma CodeunitFiltersOnePerLine(filters: seq<string>)
    requires |filters| >= 1
    requires forall i :: 0 <= i < |filters| ==> '\n' !in filters[i]
    requires FiltersXml(CodeunitFilter, filters).Ok?
    ensures Split(FiltersXml(CodeunitFilter, filters).value, '\n') == RenderedFilters(CodeunitFilter, filters).value
    ensures |Split(FiltersXml(CodeunitFilter, filters).value, '\n')| == |filters|
  {
    var fragments := RenderedFilters(CodeunitFilter, filters).value;
    forall i | 0 <= i < |fragments|
      ensures '\n' !in fragments[i]
    {
      var parts := Split(filters[i], '=');
      SplitHasSecondPart(filters[i], '=');
      SplitPartsAvoid(filters[i], '=', '\n', 0);
      SplitPartsAvoid(filters[i], '=', '\n', 1);
      assert fragments[i] == FilterXml(CodeunitFilter, parts[0], parts[1]);
    }
    SplitJoin(fragments, '\n');
  }

  // ------------------------------------------------------------ envelopes

  // The fixed text of the two envelope templates, between their placeholders.
  const CodeunitEnvelopeOpen: string :=
    "\n<soapenv:Envelope xmlns:soapenv=\"http://schemas.xmlsoap.org/soap/envelope/\" xmlns:int=\""
  const CodeunitBodyOpen: string :=
    "\" xmlns:x50=\"urn:microsoft-dynamics-nav/xmlports/x50033\">\n    <soapenv:Header/>\n    <soapenv:Body>\n        <int:"
  const CodeunitFiltersOpen: string := ">\n            "
  const CodeunitFiltersClose: string := "\n        </int:"
  const CodeunitEnvelopeClose: string := ">\n    </soapenv:Body>\n</soapenv:Envelope>\n    "

  const PageEnvelopeOpen: string :=
    "\n        <soapenv:Envelope xmlns:soapenv=\"http://schemas.xmlsoap.org/soap/envelope/\" "
  const PageFiltersOpen: string :=
    ">\n          <soapenv:Header/>\n          <soapenv:Body>\n             <sal:ReadMultiple>\n                "
  const PageSetSizeOpen: string := "\n                <sal:setSize>"
  const PageEnvelopeClose: string :=
    "</sal:setSize>\n             </sal:ReadMultiple>\n          </soapenv:Body>\n        </soapenv:Envelope>\n    "

  function CodeunitPayload(codeunit: string, functionName: string, filtersXml: string): string {
    CodeunitEnvelopeOpen + SchemaPrefix + "codeunit/" + codeunit
      + CodeunitBodyOpen + functionName + CodeunitFiltersOpen + filtersXml
      + CodeunitFiltersClose + functionName + CodeunitEnvelopeClose
  }

  /** The namespace declaration of a page envelope. */
  function PageNamespaceDecl(pageLower: string): string {
    "xmlns:sal=\"" + SchemaPrefix + "page/" + pageLower + "\""
  }

  function PagePayload(pageLower: string, filtersXml: string, numResults: int): string {
    PageEnvelopeOpen + PageNamespaceDecl(pageLower) + PageFiltersOpen
      + filtersXml + PageSetSizeOpen + IntToString(numResults) + PageEnvelopeClose
  }

  function CodeunitSoapAction(codeunit: string, functionName: string): string {
    SchemaPrefix + "codeunit/" + codeunit + ":" + functionName
  }

  function PageSoapAction(page: string): string {
    SchemaPrefix + "page/" + page + ":ReadMultiple"
  }

  // ------------------------------------------------------------- requests

  lemma SoapActionHeader(action: string)
    ensures RequestHeaders(Some([("SOAPAction", action)])) == Ok([ContentType, ("SOAPAction", action)])
  {
    var extra := [("SOAPAction", action)];
    assert Keys(extra) == ["SOAPAction"];
    assert "SOAPAction" != ContentType.0 by {
      assert "SOAPAction"[0] == 'S' && ContentType.0[0] == 'c';
    }
    assert [ContentType] + extra == [ContentType, ("SOAPAction", action)];
  }

  /** The headers of a POST: the default content type, then the SOAPAction. */
  function PostHeaders(action: string): (r: seq<(string, string)>)
    ensures Ok(r) == RequestHeaders(Some([("SOAPAction", action)]))
  {
    SoapActionHeader(action);
    RequestHeaders(Some([("SOAPAction", action)])).value
  }

  /** `codeunit(...)` up to `request(...)`: the POST it sends. */
  function CodeunitRequest(endpointUrl: string, functionName: string, filters: seq<string>): Result<HttpRequest, Error> {
    var codeunit := ServiceName(endpointUrl);
    var xml :- FiltersXml(CodeunitFilter, filters);
    Ok(HttpRequest("POST", endpointUrl, PostHeaders(CodeunitSoapAction(codeunit, functionName)),
                   Some(CodeunitPayload(codeunit, functionName, xml))))
  }

  /** `page(...)` up to `request(...)`: the ReadMultiple POST it sends. */
  function PageRequest(endpointUrl: string, filters: seq<string>, numResults: int): Result<HttpRequest, Error> {
    var page := ServiceName(endpointUrl);
    var xml :- FiltersXml(PageFilter, filters);
    Ok(HttpRequest("POST", endpointUrl, PostHeaders(PageSoapAction(page)),
                   Some(PagePayload(Lower(page), xml, numResults))))
  }

  /** Both requests fail, with IndexError, exactly when some filter has no `=`. */
  lemma RequestsFailOnBadFilter(endpointUrl: string, functionName: string, filters: seq<string>, numResults: int)
    ensures CodeunitRequest(endpointUrl, functionName, filters).Err? <==> exists i :: 0 <= i < |filters| && '=' !in filters[i]
    ensures PageRequest(endpointUrl, filters, numResults).Err? <==> exists i :: 0 <= i < |filters| && '=' !in filters[i]
    ensures CodeunitRequest(endpointUrl, functionName, filters).Err? ==> CodeunitRequest(endpointUrl, functionName, filters).error == IndexError
    ensures PageRequest(endpointUrl, filters, numResults).Err? ==> PageRequest(endpointUrl, filters, numResults).error == IndexError
  {
    var c := RenderedFilters(CodeunitFilter, filters);
    var p := RenderedFilters(PageFilter, filters);
  }

  /** `meta(...)`: a GET with the default headers and no body. */
  function MetaRequest(endpointUrl: string): (r: HttpRequest)
    ensures r.verb == "GET" && r.url == endpointUrl && r.body.None?
    ensures r.headers == [ContentType]
  {
    HttpRequest("GET", endpointUrl, RequestHeaders(None).value, None)
  }

  /** The codeunit request is a POST to the endpoint URL whose SOAPAction is
      `urn:microsoft-dynamics-schemas/codeunit/<name>:<function>`, the name
      being the URL's last segment, and whose body carries the rendered filters. */
  lemma CodeunitRequestShape(endpointUrl: string, functionName: string, filters: seq<string>)
    requires CodeunitRequest(endpointUrl, functionName, filters).Ok?
    ensures var r := CodeunitRequest(endpointUrl, functionName, filters).value;
      && r.verb == "POST" && r.url == endpointUrl
      && r.headers == [ContentType, ("SOAPAction",
           SchemaPrefix + "codeunit/" + ServiceName(endpointUrl) + ":" + functionName)]
      && r.body == Some(CodeunitPayload(ServiceName(endpointUrl), functionName, FiltersXml(CodeunitFilter, filters).value))
  {
  }

  /** A seven-piece concatenation contains its second and its fourth piece. */
  lemma InfixOfSeven(p1: string, p2: string, p3: string, p4: string, p5: string, p6: string, p7: string)
    ensures Contains(p1 + p2 + p3 + p4 + p5 + p6 + p7, p2)
    ensures Contains(p1 + p2 + p3 + p4 + p5 + p6 + p7, p4)
  {
    var whole := p1 + p2 + p3 + p4 + p5 + p6 + p7;
    assert whole == p1 + p2 + (p3 + p4 + p5 + p6 + p7);
    ContainsInfix(p1, p2, p3 + p4 + p5 + p6 + p7);
    assert whole == (p1 + p2 + p3) + p4 + (p5 + p6 + p7);
    ContainsInfix(p1 + p2 + p3, p4, p5 + p6 + p7);
  }

  /** The page envelope declares the namespace it is given and carries the filters. */
  lemma PagePayloadContains(pageLower: string, xml: string, numResults: int)
    ensures Contains(PagePayload(pageLower, xml, numResults), PageNamespaceDecl(pageLower))
    ensures Contains(PagePayload(pageLower, xml, numResults), xml)
  {
    InfixOfSeven(PageEnvelopeOpen, PageNamespaceDecl(pageLower), PageFiltersOpen,
      xml, PageSetSizeOpen, IntToString(numResults), PageEnvelopeClose);
  }

  /** The page envelope declares the lower-cased page name as its namespace, while
      the SOAPAction keeps the name's original case; the body carries the filters. */
  lemma PageRequestShape(endpointUrl: string, filters: seq<string>, numResults: int)
    requires PageRequest(endpointUrl, filters, numResults).Ok?
    ensures var r := PageRequest(endpointUrl, filters, numResults).value;
      var page := ServiceName(endpointUrl);
      && r.verb == "POST" && r.url == endpointUrl
      && r.headers == [ContentType, ("SOAPAction", SchemaPrefix + "page/" + page + ":ReadMultiple")]
      && r.body == Some(PagePayload(Lower(page), FiltersXml(PageFilter, filters).value, numResults))
      && Contains(r.body.value, PageNamespaceDecl(Lower(page)))
      && Contains(r.body.value, FiltersXml(PageFilter, filters).value)
  {
    PagePayloadContains(Lower(ServiceName(endpointUrl)), FiltersXml(PageFilter, filters).value, numResults);
  }


  // -------------------------------------------------------------- results

  /** `value[key]` on what xmltodict returns: a dict lookup, a KeyError for a
      missing key, a TypeError for anything that is not a dict. */
  function Subscript(v: Value, key: string): (r: Result<Value, Error>)
    ensures r.Ok? <==> v.Dict? && Get(v.entries, Str(key)).Some?
    ensures r.Ok? ==> r.value == Get(v.entries, Str(key)).value
    ensures v.Dict? && r.Err? ==> r.error == KeyError(key)
    ensures !v.Dict? ==> r == Err(TypeError)
  {
    match v
    case Dict(entries) =>
      (match Get(entries, Str(key))
       case Some(x) => Ok(x)
       case None => Err(KeyError(key)))
    case _ => Err(TypeError)
  }

  /** Walking a chain of keys down a parsed document. */
  function At(v: Value, path: seq<string>): Result<Value, Error>
    decreases |path|
  {
    if |path| == 0 then Ok(v)
    else
      match Subscript(v, path[0])
      case Err(e) => Err(e)
      case Ok(child) => At(child, path[1..])
  }

  /** The page result of `json_transform`: the inner `ReadMultiple_Result`,
      `[]` when it is empty (None), else its entry under the page name. */
  function PageResults(doc: Value, page: string): Result<Value, Error> {
    var envelope :- Subscript(doc, "Soap:Envelope");
    var body :- Subscript(envelope, "Soap:Body");
    var outer :- Subscript(body, "ReadMultiple_Result");
    var results :- Subscript(outer, "ReadMultiple_Result");
    if results == Null then Ok(List([])) else Subscript(results, page)
  }

  /** The codeunit result of `json_transform`: `<function>_Result`, no default. */
  function CodeunitResults(doc: Value, functionName: string): Result<Value, Error> {
    var envelope :- Subscript(doc, "Soap:Envelope");
    var body :- Subscript(envelope, "Soap:Body");
    Subscript(body, functionName + "_Result")
  }

  const ReadMultiplePath: seq<string> := ["Soap:Envelope", "Soap:Body", "ReadMultiple_Result", "ReadMultiple_Result"]

  /** Page unwrapping follows the envelope path; an empty result is `[]`,
      never an error and never None. */
  lemma PageResultsByPath(doc: Value, page: string)
    ensures PageResults(doc, page) ==
      match At(doc, ReadMultiplePath)
      case Err(e) => Err(e)
      case Ok(results) => if results == Null then Ok(List([])) else Subscript(results, page)
    ensures At(doc, ReadMultiplePath) == Ok(Null) ==> PageResults(doc, page) == Ok(List([]))
  {
    assert ReadMultiplePath[1..] == ["Soap:Body", "ReadMultiple_Result", "ReadMultiple_Result"];
    assert ReadMultiplePath[1..][1..] == ["ReadMultiple_Result", "ReadMultiple_Result"];
    assert ReadMultiplePath[1..][1..][1..] == ["ReadMultiple_Result"];
    assert ReadMultiplePath[1..][1..][1..][1..] == [];
  }

  lemma CodeunitResultsByPath(doc: Value, functionName: string)
    ensures CodeunitResults(doc, functionName) == At(doc, ["Soap:Envelope", "Soap:Body", functionName + "_Result"])
  {
    var path := ["Soap:Envelope", "Soap:Body", functionName + "_Result"];
    assert path[1..] == ["Soap:Body", functionName + "_Result"];
    assert path[1..][1..] == [functionName + "_Result"];
    assert path[1..][1..][1..] == [];
    match Subscript(doc, "Soap:Envelope")
    case Err(_) =>
    case Ok(envelope) =>
      assert At(doc, path) == At(envelope, path[1..]);
      match Subscript(envelope, "Soap:Body")
      case Err(_) =>
      case Ok(body) =>
        assert At(envelope, path[1..]) == At(body, path[1..][1..]);
        match Subscript(body, functionName + "_Result")
        case Err(_) =>
        case Ok(x) =>
          assert At(body, path[1..][1..]) == At(x, []);
  }

}
