# nav — a Dafny model of the NAV web-service helpers

`nav` is a small Python client for Microsoft Dynamics NAV SOAP web services.
It computes endpoint URLs and WSDL binding names for pages and codeunits and
builds the keyword arguments for `ReadMultiple` and `CreateMultiple`. Its
sibling `nav_requests` does the same work with hand-built SOAP envelopes: it
renders `field=criteria` filters into XML, derives the SOAPAction header and
unwraps parsed responses. The model also covers these parts of the package:

- the mapping from command-line marker strings to server values;
- the text of a NAV HTTP error, built from the fault fields;
- a zeep plugin that strips one namespace from outgoing envelopes;
- configuration lookup with a fallback.

Each Python module is one Dafny module of the model:

| Dafny file | module | Python source |
|---|---|---|
| `wrappers.dfy` | `Wrappers` | `Option` / `Result` (raised exceptions become `Err`) |
| `text.dfy` | `Text` | the `str` operations used: `lower` (ASCII), `startswith`, `split`, `join`, `rpartition`, `str(int)` |
| `dicts.dfy` | `Dicts` | insertion-ordered dictionaries as sequences of pairs, with `d[k] = v` |
| `values.dfy` | `Values` | the Python values passed to and returned by zeep, and their truthiness |
| `exceptions.dfy` | `Exceptions` | `nav/exceptions.py` and the built-in exceptions the code raises |
| `constants.dfy` | `Constants` | `nav/constants.py` |
| `utils.dfy` | `Utils` | `nav/utils.py` |
| `nav.dfy` | `Nav` | `nav/__init__.py` |
| `navrequests.dfy` | `NavRequests` | `nav_requests/__init__.py` |
| `plugins.dfy` | `Plugins` | `nav/plugins.py` |
| `config.dfy` | `Config` | `nav/config.py` |

The model takes these as parameters:

- **zeep service.** A service call is a function `(Endpoint, Call) -> Value`. An `Endpoint` is the URL and binding computed for the service, and a `Call` is the operation name with its keyword arguments. The function's answer is the value after `serialize_object`.
- **Configuration file.** The parsed file is a `map<string, map<string, string>>`.
- **Parsed XML.** A document is the sequence of its elements in document order. Each element is its Clark-notation tag and its optional text (for the error text), or just its tag (for the plugin). A response that `xmltodict` has turned into nested dictionaries is a nested `Value`.
- **Dictionaries.** Values are sequences of key/value pairs. Distinct keys are assumed only where a lemma needs them.

Three behaviours of the code are easy to misread. The model follows the code:

- **Empty CreateMultiple.** Nothing in `page` rejects `entries=[]`; it is sent as an empty list.
- **Declared exceptions.** `InvalidServiceType` and `UnsupportedPageFunction` are declared but never raised. An unknown endpoint type fails the `assert` (`AssertionError`), and an unknown page function raises `NotImplementedError`.
- **Codeunit filters.** `codeunit(..., filters=None)` raises `TypeError` at `**filters`. The signature's default does not make it optional.

## Model

| member | source | states |
|---|---|---|
| Values.OrEmpty | nav/__init__.py:115 | a truthy answer is returned unchanged and a falsy one becomes `[]` |
| Values.OrEmptyNormalises | nav/__init__.py:163 | the returned data is never None, is `[]` or truthy, and normalising twice changes nothing |
| Dicts.SetGet | nav/__init__.py:155-158 | after `kw[k] = v`, looking up `k` gives `v` and every other key gives what it gave before |
| Dicts.SetKeys | nav/__init__.py:155-158 | `kw[k] = v` keeps an existing key's position and appends a new key at the end |
| Text.AfterLastIsLongestSuffix | nav_requests/__init__.py:95 | `rpartition('/')[2]` is a suffix of the URL without `/`, and is preceded by `/` or is the whole URL |
| Text.SplitHasSecondPart | nav_requests/__init__.py:111 | `split('=')` yields a second part exactly when the text contains `=` |
| Exceptions.FaultTexts | nav/exceptions.py:24-33 | the message collects at most one text per element and never an empty one |
| Exceptions.NavHttpErrorText | nav/exceptions.py:22-35 | a parsed body gives its collected texts joined by ` - `; an unparsable body gives the raw text (properties in the lemmas below) |
| Exceptions.FaultTextsOne | nav/exceptions.py:27-30 | one element contributes its text exactly when it is a fault field with non-empty text |
| Exceptions.FaultTextsConcat | nav/exceptions.py:27-30 | collection keeps document order and repeats: the texts of `a + b` are those of `a` followed by those of `b` |
| Exceptions.DocumentOrderExample | nav/exceptions.py:22-33 | a faultstring `B` before a faultcode `A` gives exactly `B - A` |
| Exceptions.ReportedIsCollected | nav/exceptions.py:27-30 | every `faultcode`, `faultstring` or `detail` element with non-empty text contributes that text |
| Exceptions.CollectedIsReported | nav/exceptions.py:27-30 | every collected text comes from such an element |
| Exceptions.FaultTextSurfaces | nav/exceptions.py:22-33 | the error text contains the text of every reported fault field |
| Exceptions.NoFaultFieldsGiveEmpty | nav/exceptions.py:24-33 | with no reported fault field the error text is empty |
| Exceptions.UnreportedIsIgnored | nav/exceptions.py:25-30 | an element that is not a reported fault field does not change the message |
| Exceptions.QualifiedTagsNeverMatch | nav/exceptions.py:30 | a namespace-qualified tag never matches the bare fault field names |
| Exceptions.UnparsableShowsRawText | nav/exceptions.py:34-35 | a response that does not parse is shown as its raw text |
| Exceptions.RecordAlreadyExistsExample | nav/exceptions.py:22-33 | a typical NAV fault envelope yields a message containing its faultstring |
| Constants.EndpointTypesDistinct | nav/constants.py:3-4 | the two endpoint types differ |
| Constants.MappingEntries | nav/constants.py:6-10 | the table maps exactly `NotSet`, `TRUE` and `FALSE`, to the sentinel, true and false; other case spellings are not markers |
| Constants.MappedValuesAreNotMarkers | nav/constants.py:6-10 | no mapped value is itself a string |
| Utils.Coerced | nav/utils.py:13-16 | an unhashable criteria raises TypeError; a marker string becomes its mapped value; anything else is kept |
| Utils.CoercedPairs | nav/utils.py:10-19 | success exactly when every criteria is hashable; the same fields in order, each criteria coerced |
| Utils.ConvertStringFilterValues | nav/utils.py:6-19 | the ordered dictionary rebuilt from the coerced pairs (properties in the lemmas below) |
| Utils.ConvertKeepsKeys | nav/utils.py:10-19 | the converted dictionary has the same keys in the same order, each value coerced; failure is TypeError, exactly on an unhashable criteria |
| Utils.ConvertReplacesMarkers | nav/utils.py:12-16 | each field keeps its place; a marker criteria is replaced by its mapped value and any other is kept |
| Utils.ConvertIdempotent | nav/utils.py:10-19 | converting an already converted dictionary changes nothing |
| Nav.StripTrailingSlash | nav/__init__.py:39-40 | exactly one trailing `/` is removed when present, and nothing else changes |
| Nav.MakeEndpointUrl | nav/__init__.py:38-41 | the stripped base joined with the segments by `/` (properties in the lemmas below) |
| Nav.EndpointUrlBySegments | nav/__init__.py:38-41 | the URL is the stripped base followed by `/` and each segment in turn |
| Nav.EndpointUrlTrailingSlash | nav/__init__.py:38-41 | a base URL with or without one trailing `/` gives the same endpoint URL |
| Nav.EndpointUrlSplits | nav/__init__.py:38-41 | splitting the URL on `/` gives the base's parts followed by the segments |
| Nav.ParseQNameOf | nav/__init__.py:49 | a `{namespace}local` name reads back as its namespace and local name |
| Nav.NamespaceWithoutBrace | nav/__init__.py:44-53 | the binding's namespace contains no `}` when the type and name do not |
| Nav.MakeBinding | nav/__init__.py:44-53 | `{namespace}<name>_Binding` (properties in the lemma below) |
| Nav.BindingNamespace | nav/__init__.py:45-50 | the schema prefix, the lower-cased type, `/`, and the name, lower-cased for a Page only (properties in `Nav.BindingParts`) |
| Nav.BindingParts | nav/__init__.py:44-53 | the binding's namespace is the schema prefix, the lower-cased type, and the name (lower-cased for pages only); its local name is `<name>_Binding` |
| Nav.ServiceEndpoint | nav/__init__.py:67-79 | fails with AssertionError exactly for a type other than Codeunit or Page; otherwise gives the endpoint URL and binding |
| Nav.MetaLocation | nav/__init__.py:82-93 | the same guard, and the definition is fetched from the endpoint URL |
| Nav.MakePageFilters | nav/__init__.py:28-35 | one `{Field, Criteria}` record per filter, in order, with exactly those two keys |
| Nav.SentFilters | nav/__init__.py:138-147 | the filter records `page` sends (properties in the lemma below) |
| Nav.SentFiltersSentinel | nav/__init__.py:138-147 | with no filters, or an empty one, a single Nil/Nil record is sent; otherwise the caller's records |
| Nav.ReadMultipleArgs | nav/__init__.py:150-153 | the ReadMultiple keyword arguments: `filter` with the sent records and `setSize` with the result count |
| Nav.WrapEntries | nav/__init__.py:157 | one single-key `{name: entry}` record per entry, in order |
| Nav.CreateMultipleArgs | nav/__init__.py:155-158 | the CreateMultiple keyword arguments (properties in the lemma below) |
| Nav.CreateMultipleArgsContents | nav/__init__.py:154-159 | the `<name>_List` key holds the wrapped entries and overrides the additional data; all other additional data passes through unchanged |
| Nav.Page | nav/__init__.py:118-163 | ReadMultiple sends the filters and set size; CreateMultiple sends the list arguments, and fails with TypeError when entries is None; any other function raises NotImplementedError; the answer is normalised |
| Nav.Codeunit | nav/__init__.py:96-115 | the function is called with the filters as keyword arguments; None raises TypeError; the answer is normalised |
| Nav.EmptyAnswerIsEmptyList | nav/__init__.py:149-153 | a falsy ReadMultiple answer normalises to `[]`; with the ReadMultiple clause of `Nav.Page` this is what `page` returns (it follows from `Values.OrEmpty`) |
| NavRequests.RequestHeaders | nav_requests/__init__.py:43-46 | the content type comes first and the caller's headers follow; a caller `content-type` key is a TypeError, not an override |
| NavRequests.PostHeaders | nav_requests/__init__.py:121-128 | a SOAPAction header never clashes with the content type |
| NavRequests.SoapActionHeader | nav_requests/__init__.py:121-128 | the POST headers are the content type followed by the SOAPAction |
| NavRequests.ServiceName | nav_requests/__init__.py:95 | the text after the last `/` (properties in `Text.AfterLastIsLongestSuffix` and the lemmas below) |
| NavRequests.ServiceNameWithoutSlash | nav_requests/__init__.py:95 | a URL without `/` is its own service name |
| NavRequests.ServiceNameOfEndpointUrl | nav_requests/__init__.py:95 | the name read back from an endpoint URL built by `nav` is the service name |
| NavRequests.FilterXml | nav_requests/__init__.py:107 | the codeunit filter template `<int:F>C</int:F>`; the page template is at nav_requests/__init__.py:156-159 |
| NavRequests.RenderFilter | nav_requests/__init__.py:107-111 | one filter split on `=` and rendered from its first two parts (properties in the lemmas below) |
| NavRequests.RenderFilterFails | nav_requests/__init__.py:107-111 | a filter fails with IndexError exactly when it has no `=` |
| NavRequests.RenderFilterOf | nav_requests/__init__.py:156-159 | `field=criteria` renders its field and criteria, and parts after a second `=` are ignored |
| NavRequests.RenderedFilters | nav_requests/__init__.py:108-113 | one fragment per filter, in order; IndexError exactly when some filter has no `=` |
| NavRequests.FiltersXml | nav_requests/__init__.py:108-113 | the rendered fragments joined by newlines (properties in the lemmas below) |
| NavRequests.NoFiltersRenderEmpty | nav_requests/__init__.py:88 | no filters render as the empty string |
| NavRequests.CodeunitFiltersOnePerLine | nav_requests/__init__.py:108-113 | the rendered filters split into exactly one line per filter |
| NavRequests.RequestsFailOnBadFilter | nav_requests/__init__.py:171-176 | both requests fail, with IndexError, exactly when some filter has no `=` |
| NavRequests.MetaRequest | nav_requests/__init__.py:68-78 | the metadata request is a GET of the endpoint URL with only the content type and no body |
| NavRequests.CodeunitPayload | nav_requests/__init__.py:97-106 | the codeunit envelope template, filled with the codeunit, function and filters as at nav_requests/__init__.py:114-119 |
| NavRequests.PagePayload | nav_requests/__init__.py:160-170 | the page envelope template, filled with the lower-cased page, filters and set size as at nav_requests/__init__.py:177-181 |
| NavRequests.CodeunitSoapAction | nav_requests/__init__.py:124-127 | `urn:microsoft-dynamics-schemas/codeunit/<codeunit>:<function>` |
| NavRequests.PageSoapAction | nav_requests/__init__.py:186-188 | `urn:microsoft-dynamics-schemas/page/<page>:ReadMultiple`, the page name in its original case |
| NavRequests.CodeunitRequest | nav_requests/__init__.py:95-130 | the codeunit POST request (properties in the lemmas below) |
| NavRequests.PageRequest | nav_requests/__init__.py:155-192 | the page POST request (properties in the lemmas below) |
| NavRequests.CodeunitRequestShape | nav_requests/__init__.py:95-130 | a POST to the endpoint whose SOAPAction names the URL's last segment and the function, with the filled-in envelope |
| NavRequests.PagePayloadContains | nav_requests/__init__.py:160-181 | the page envelope declares the page namespace and carries the rendered filters |
| NavRequests.PageRequestShape | nav_requests/__init__.py:155-192 | a POST whose SOAPAction keeps the page name's case, while the envelope namespace uses it lower-cased |
| NavRequests.Subscript | nav_requests/__init__.py:196-203 | a present key gives its value; a missing key is a KeyError for that key; a non-dictionary is a TypeError |
| NavRequests.PageResults | nav_requests/__init__.py:194-204 | the unwrapped page results (properties in the lemma below) |
| NavRequests.CodeunitResults | nav_requests/__init__.py:132-138 | the unwrapped codeunit results (properties in the lemma below) |
| NavRequests.PageResultsByPath | nav_requests/__init__.py:194-204 | page results follow the `ReadMultiple_Result` path; a null result is `[]`; otherwise it is the page's entry |
| NavRequests.CodeunitResultsByPath | nav_requests/__init__.py:132-138 | codeunit results are at `Soap:Envelope`, `Soap:Body`, `<function>_Result` |
| Plugins.Prefix | nav/plugins.py:20-21 | the prefix is the namespace between an opening and a closing brace, two characters longer |
| Plugins.StripNamespace | nav/plugins.py:23-25 | a tag with the prefix loses exactly the prefix; any other tag is unchanged |
| Plugins.RemoveNamespacePlugin.constructor | nav/plugins.py:16-17 | the plugin keeps the namespace it is given |
| Plugins.RemoveNamespacePlugin.Egress | nav/plugins.py:19-29 | every tag of the envelope is rewritten in place, the same envelope and headers are returned |
| Plugins.StripAll | nav/plugins.py:23-25 | every tag stripped, in order (properties in the lemmas below) |
| Plugins.StripAllPointwise | nav/plugins.py:23-25 | the element count and order are kept; each tag lost exactly the prefix or is unchanged |
| Plugins.StripIdempotent | nav/plugins.py:23-25 | on a well-formed Clark name a second strip changes nothing |
| Plugins.StripAllIdempotent | nav/plugins.py:23-25 | a second pass over well-formed tags changes nothing |
| Plugins.StripAllUntouched | nav/plugins.py:23-25 | an envelope without the namespace is left as it was |
| Config.Lookup | nav/config.py:21 | the lookup succeeds exactly when section and option exist; otherwise it raises a KeyError |
| Config.Get | nav/config.py:19-28 | a stored option wins over any fallback; a missing option raises ConfigKeyMissing exactly when no fallback is given and one is required; otherwise the fallback, sentinel included, is returned |
| Config.MissingMessage | nav/config.py:24-26 | the ConfigKeyMissing message, `` `<key>` missing, and no fallback provided. `` (properties in `Config.MissingMessageNamesKey`) |
| Config.MissingMessageNamesKey | nav/config.py:24-26 | the error message names the missing option |
| Config.MissingSectionLikeMissingKey | nav/config.py:20-22 | a missing section answers exactly as a present section without the option |
| Config.LookupIsLocal | nav/config.py:20-21 | other options of the section do not affect the answer |
| Config.OtherSectionsIrrelevant | nav/config.py:20-21 | other sections, whatever they hold, do not affect the answer |

## Left out

- HTTP, NTLM authentication, zeep client and WSDL loading, and `raise_for_status`: these are network I/O. The service call and the HTTP request are values handed to, or returned from, the model.
- Errors raised by the service call itself, such as zeep validation and transport failures: the service is a total function in the model.
- XML parsing and pretty-printing (`lxml`, `format_xml`, `xmltodict`), `json.dumps` and `etree.cleanup_namespaces`: these are foreign parsers and serialisers. Documents are abstract element sequences or nested values.
- Plugins.RemoveNamespacePlugin.Egress: the envelope is its tags only. lxml gives comments and processing instructions a function as their tag, so on an envelope that contains one `egress` raises AttributeError at `elem.tag.startswith`; that case is not modelled.
- The `operation` and `binding_options` parameters of `egress`: they are unused.
- Text.Lower: ASCII letters only. Python's `str.lower` also folds other Unicode letters.
- Reading the configuration file at import time, `NAV_CONFIG`, `~` expansion, and ConfigParser's option-name case folding and DEFAULT section: `_config` is a plain map of maps.
- The command-line front ends (`__main__`, `run.py`, argh dispatch), `_username_and_password`, logging, `nav/wrappers/json.py` and `setup.py`: these are interactive I/O and packaging.
- Config.Get: ConfigParser interpolation is not modelled. A stored `%(x)s` is substituted and a stored lone `%` raises InterpolationSyntaxError, which is not a KeyError and escapes any fallback; the model returns the stored text unchanged.
- Config.Lookup: the same interpolation step is left out; a present option always yields its stored text.
- Exceptions.NavHttpErrorText: the error is assumed to carry a response. An HTTPError built without one has `response` None, and `__str__` then raises AttributeError from the except branch.
- Python `assert` statements disappear under `python -O`. The model always raises AssertionError.
