/** The typed client: endpoint URLs, SOAP binding names, the endpoint-type
    guard, and the keyword arguments `page` and `codeunit` hand to the
    zeep service, whose call is a parameter here. */
module Nav {
  import opened Wrappers
  import opened Text
  import opened Values
  import opened Dicts
  import opened Exceptions
  import opened Constants

  // ---------------------------------------------------------------- URLs

  /** One trailing `/` is dropped from the base URL, no more. */
  function StripTrailingSlash(baseUrl: string): (r: string)
    ensures baseUrl == r || baseUrl == r + "/"
    ensures EndsWith(baseUrl, "/") <==> baseUrl == r + "/"
  {
    if EndsWith(baseUrl, "/") then baseUrl[..|baseUrl| - 1] else baseUrl
  }

  /** `make_endpoint_url(base_url, *args)`. */
  function MakeEndpointUrl(baseUrl: string, segments: seq<string>): string {
    Join("/", [StripTrailingSlash(baseUrl)] + segments)
  }

  /** With no segments the URL is the stripped base; each further segment is
      appended after a `/`, in order. */
  lemma EndpointUrlBySegments(baseUrl: string, segments: seq<string>, last: string)
    ensures MakeEndpointUrl(baseUrl, []) == StripTrailingSlash(baseUrl)
    ensures MakeEndpointUrl(baseUrl, segments + [last]) == MakeEndpointUrl(baseUrl, segments) + "/" + last
  {
    assert [StripTrailingSlash(baseUrl)] + [] == [StripTrailingSlash(baseUrl)];
    assert [StripTrailingSlash(baseUrl)] + (segments + [last]) == ([StripTrailingSlash(baseUrl)] + segments) + [last];
    JoinSnoc("/", [StripTrailingSlash(baseUrl)] + segments, last);
  }

  /** A base URL given with or without its trailing slash names the same endpoint. */
  lemma EndpointUrlTrailingSlash(baseUrl: string, segments: seq<string>)
    requires !EndsWith(baseUrl, "/")
    ensures MakeEndpointUrl(baseUrl + "/", segments) == MakeEndpointUrl(baseUrl, segments)
  {
    assert EndsWith(baseUrl + "/", "/");
    assert (baseUrl + "/")[..|baseUrl|] == baseUrl;
  }

  /** Splitting the URL on `/` gives back the segments after the base's own parts,
      when no segment contains a `/`. */
  lemma {:induction false} EndpointUrlSplits(baseUrl: string, segments: seq<string>)
    requires forall i :: 0 <= i < |segments| ==> '/' !in segments[i]
    ensures Split(MakeEndpointUrl(baseUrl, segments), '/') == Split(StripTrailingSlash(baseUrl), '/') + segments
    decreases |segments|
  {
    if |segments| == 0 {
      EndpointUrlBySegments(baseUrl, [], "");
    } else {
      var init := segments[..|segments| - 1];
      var last := segments[|segments| - 1];
      assert init + [last] == segments;
      EndpointUrlSplits(baseUrl, init);
      EndpointUrlBySegments(baseUrl, init, last);
      SplitAround(MakeEndpointUrl(baseUrl, init), '/', last);
      SplitWithout(last, '/');
      assert MakeEndpointUrl(baseUrl, init) + "/" + last == MakeEndpointUrl(baseUrl, init) + ['/'] + last;
    }
  }

  // ------------------------------------------------------------- bindings

  /** The namespace of a binding: the type lower-cased, and for a Page the
      name lower-cased too. */
  function BindingNamespace(endpointType: string, serviceName: string): string {
    var urlpathServiceName := if endpointType == PageType then Lower(serviceName) else serviceName;
    SchemaPrefix + Lower(endpointType) + "/" + urlpathServiceName
  }

  /** `make_binding(endpoint_type, service_name)`: a Clark-notation QName
      `{namespace}<name>_Binding`. */
  function MakeBinding(endpointType: string, serviceName: string): string {
    "{" + BindingNamespace(endpointType, serviceName) + "}" + serviceName + "_Binding"
  }

  /** How a QName `{namespace}local` reads back into its two parts. */
  function ParseQName(qname: string): Option<(string, string)> {
    if |qname| > 0 && qname[0] == '{' then
      var parts := Split(qname[1..], '}');
      if |parts| >= 2 then Some((parts[0], Join("}", parts[1..]))) else None
    else None
  }

  lemma ParseQNameOf(namespace: string, local: string)
    requires '}' !in namespace && '}' !in local
    ensures ParseQName("{" + namespace + "}" + local) == Some((namespace, local))
  {
    var q := "{" + namespace + "}" + local;
    assert q[1..] == namespace + ['}'] + local;
    SplitAtFirst(namespace, '}', local);
    SplitWithout(local, '}');
  }

  lemma NamespaceWithoutBrace(endpointType: string, serviceName: string)
    requires '}' !in endpointType && '}' !in serviceName
    ensures '}' !in BindingNamespace(endpointType, serviceName)
  {
    LowerKeepsAbsent(endpointType, '}');
    LowerKeepsAbsent(serviceName, '}');
    assert '}' !in SchemaPrefix;
  }

  /** The binding reads back as the namespace
      `urn:microsoft-dynamics-schemas/<type, lower-cased>/<name>` (the name
      lower-cased for a Page only) and the local name `<name>_Binding` in the
      name's original case. */
  lemma BindingParts(endpointType: string, serviceName: string)
    requires '}' !in endpointType && '}' !in serviceName
    ensures ParseQName(MakeBinding(endpointType, serviceName)) == Some((
      SchemaPrefix + Lower(endpointType) + "/"
        + (if endpointType == PageType then Lower(serviceName) else serviceName),
      serviceName + "_Binding"))
  {
    NamespaceWithoutBrace(endpointType, serviceName);
    var local := serviceName + "_Binding";
    assert '}' !in "_Binding";
    assert MakeBinding(endpointType, serviceName) == "{" + BindingNamespace(endpointType, serviceName) + "}" + local;
    ParseQNameOf(BindingNamespace(endpointType, serviceName), local);
  }

  // ------------------------------------------------- endpoint-type guard

  datatype Endpoint = Endpoint(url: string, binding: string)

  /** `service(...)` up to the zeep client: the endpoint-type assertion, then
      the WSDL URL and the binding the service is created for. */
  function ServiceEndpoint(baseUrl: string, endpointType: string, name: string): (r: Result<Endpoint, Error>)
    ensures r.Err? <==> endpointType != CodeunitType && endpointType != PageType
    ensures r.Err? ==> r.error == AssertionError
    ensures r.Ok? ==> r.value.url == MakeEndpointUrl(baseUrl, [endpointType, name])
    ensures r.Ok? ==> r.value.binding == MakeBinding(endpointType, name)
  {
    if endpointType != CodeunitType && endpointType != PageType then Err(AssertionError)
    else Ok(Endpoint(MakeEndpointUrl(baseUrl, [endpointType, name]), MakeBinding(endpointType, name)))
  }

  /** `meta(...)`: the same assertion, then the URL whose WSDL document is returned. */
  function MetaLocation(baseUrl: string, endpointType: string, name: string): (r: Result<string, Error>)
    ensures r.Err? <==> endpointType != CodeunitType && endpointType != PageType
    ensures r.Err? ==> r.error == AssertionError
    ensures r.Ok? ==> r.value == MakeEndpointUrl(baseUrl, [endpointType, name])
  {
    if endpointType != CodeunitType && endpointType != PageType then Err(AssertionError)
    else Ok(MakeEndpointUrl(baseUrl, [endpointType, name]))
  }

  // ------------------------------------------------------ call arguments

  /** One service operation call: its name and its keyword arguments in order. */
  datatype Call = Call(operation: string, kwargs: seq<(string, Value)>)

  function FilterRecord(field: Value, criteria: Value): Value {
    Dict([(Str("Field"), field), (Str("Criteria"), criteria)])
  }

  /** `_make_page_filters(filters)`: one `{Field, Criteria}` record per pair, in order. */
  function MakePageFilters(filters: seq<(Value, Value)>): (r: seq<Value>)
    ensures |r| == |filters|
    ensures forall i :: 0 <= i < |filters| ==>
      r[i].Dict? && Keys(r[i].entries) == [Str("Field"), Str("Criteria")] &&
      Get(r[i].entries, Str("Field")) == Some(filters[i].0) &&
      Get(r[i].entries, Str("Criteria")) == Some(filters[i].1)
  {
    seq(|filters|, i requires 0 <= i < |filters| => FilterRecord(filters[i].0, filters[i].1))
  }

  /** The filter argument `page` sends: the caller's filters, or a single
      Nil/Nil record when there are none (the NAV 2009 R2 schema demands one). */
  function SentFilters(filters: Option<seq<(Value, Value)>>): seq<Value> {
    if filters.Some? && |filters.value| > 0 then MakePageFilters(filters.value)
    else MakePageFilters([(Nil, Nil)])
  }

  lemma SentFiltersSentinel(filters: Option<seq<(Value, Value)>>)
    ensures filters.None? || filters.value == [] ==> SentFilters(filters) == [FilterRecord(Nil, Nil)]
    ensures filters.Some? && filters.value != [] ==> SentFilters(filters) == MakePageFilters(filters.value)
    ensures |SentFilters(filters)| >= 1
  {
  }

  function ReadMultipleArgs(filters: Option<seq<(Value, Value)>>, numResults: int): seq<(string, Value)> {
    [("filter", List(SentFilters(filters))), ("setSize", Int(numResults))]
  }

  /** `[{name: entry} for entry in entries]`. */
  function WrapEntries(name: string, entries: seq<Value>): (r: seq<Value>)
    ensures |r| == |entries|
    ensures forall i :: 0 <= i < |entries| ==>
      r[i].Dict? && Keys(r[i].entries) == [Str(name)] && Get(r[i].entries, Str(name)) == Some(entries[i])
  {
    seq(|entries|, i requires 0 <= i < |entries| => Dict([(Str(name), entries[i])]))
  }

  /** `kw = dict(additional_data or {})` followed by
      `kw.update({'<name>_List': [{name: entry} for entry in entries]})`. */
  function CreateMultipleArgs(name: string, entries: seq<Value>, additionalData: Option<seq<(string, Value)>>): seq<(string, Value)> {
    var base := if additionalData.Some? then additionalData.value else [];
    Set(base, name + "_List", List(WrapEntries(name, entries)))
  }

  /** The list key holds one wrapped entry per entry, in order, and wins over a
      same-named key of the additional data, which keeps its position; every other
      key of the additional data is passed on unchanged. */
  lemma CreateMultipleArgsContents(name: string, entries: seq<Value>, additionalData: Option<seq<(string, Value)>>, k: string)
    ensures var base := if additionalData.Some? then additionalData.value else [];
      var args := CreateMultipleArgs(name, entries, additionalData);
      && Get(args, name + "_List") == Some(List(WrapEntries(name, entries)))
      && (k != name + "_List" ==> Get(args, k) == Get(base, k))
      && Keys(args) == (if name + "_List" in Keys(base) then Keys(base) else Keys(base) + [name + "_List"])
      && (DistinctKeys(base) ==> DistinctKeys(args))
  {
    var base := if additionalData.Some? then additionalData.value else [];
    var v := List(WrapEntries(name, entries));
    SetGet(base, name + "_List", v, name + "_List");
    SetGet(base, name + "_List", v, k);
    SetKeys(base, name + "_List", v);
    if DistinctKeys(base) {
      SetDistinct(base, name + "_List", v);
    }
  }

  // ------------------------------------------------------------ the calls

  /** `page(...)`: `service` stands for the zeep service created for the endpoint,
      called with one operation and its keyword arguments, its result already
      passed through `serialize_object`. */
  method Page(baseUrl: string, name: string, operation: string, numResults: int,
              filters: Option<seq<(Value, Value)>>, entries: Option<seq<Value>>,
              additionalData: Option<seq<(string, Value)>>,
              service: (Endpoint, Call) -> Value)
    returns (r: Result<Value, Error>)
    ensures operation != "ReadMultiple" && operation != "CreateMultiple" ==> r == Err(NotImplementedError)
    ensures operation == "ReadMultiple" ==>
      r == Ok(OrEmpty(service(ServiceEndpoint(baseUrl, PageType, name).value,
                              Call("ReadMultiple", ReadMultipleArgs(filters, numResults)))))
    ensures operation == "CreateMultiple" && entries.None? ==> r == Err(TypeError)
    ensures operation == "CreateMultiple" && entries.Some? ==>
      r == Ok(OrEmpty(service(ServiceEndpoint(baseUrl, PageType, name).value,
                              Call("CreateMultiple", CreateMultipleArgs(name, entries.value, additionalData)))))
  {
    var endpoint := ServiceEndpoint(baseUrl, PageType, name).value;
    var pageFilters: seq<Value>;
    if filters.Some? && |filters.value| > 0 {
      pageFilters := MakePageFilters(filters.value);
    } else {
      pageFilters := MakePageFilters([(Nil, Nil)]);
    }
    var data: Value;
    if operation == "ReadMultiple" {
      data := service(endpoint, Call("ReadMultiple", [("filter", List(pageFilters)), ("setSize", Int(numResults))]));
    } else if operation == "CreateMultiple" {
      if entries.None? {
        return Err(TypeError);
      }
      var kw: seq<(string, Value)> := if additionalData.Some? then additionalData.value else [];
      kw := Set(kw, name + "_List", List(WrapEntries(name, entries.value)));
      data := service(endpoint, Call("CreateMultiple", kw));
    } else {
      return Err(NotImplementedError);
    }
    return Ok(OrEmpty(data));
  }

  /** `codeunit(...)`: the named function called with the filters as keyword
      arguments; `filters=None` cannot be unpacked with `**`. */
  method Codeunit(baseUrl: string, name: string, operation: string,
                  filters: Option<seq<(string, Value)>>,
                  service: (Endpoint, Call) -> Value)
    returns (r: Result<Value, Error>)
    ensures filters.None? ==> r == Err(TypeError)
    ensures filters.Some? ==>
      r == Ok(OrEmpty(service(ServiceEndpoint(baseUrl, CodeunitType, name).value, Call(operation, filters.value))))
  {
    var endpoint := ServiceEndpoint(baseUrl, CodeunitType, name).value;
    if filters.None? {
      return Err(TypeError);
    }
    var data := service(endpoint, Call(operation, filters.value));
    return Ok(OrEmpty(data));
  }

  /** A service that answers nothing yields `[]`, never None. */
  lemma EmptyAnswerIsEmptyList(baseUrl: string, name: string, filters: Option<seq<(Value, Value)>>, numResults: int,
                               service: (Endpoint, Call) -> Value)
    requires !Truthy(service(ServiceEndpoint(baseUrl, PageType, name).value,
                             Call("ReadMultiple", ReadMultipleArgs(filters, numResults))))
    ensures OrEmpty(service(ServiceEndpoint(baseUrl, PageType, name).value,
                            Call("ReadMultiple", ReadMultipleArgs(filters, numResults)))) == List([])
  {
  }
}
