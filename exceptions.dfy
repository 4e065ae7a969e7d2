/** The errors the modelled code raises (the package's own exception classes and
    the Python built-ins it lets escape), and the operator-facing text of
    `NAVHTTPError`, which lists the fields of a SOAP 1.1 Fault (SOAP 1.1, section 4.4). */
module Exceptions {
  import opened Wrappers
  import opened Text

  datatype Error =
    | InvalidServiceType         // declared in nav/exceptions.py; no modelled code raises it
    | UnsupportedPageFunction    // declared in nav/exceptions.py; no modelled code raises it
    | AssertionError             // `assert endpoint_type in (...)`
    | NotImplementedError        // an unsupported page function
    | TypeError                  // `**None`, iterating None, hashing a list, duplicate keyword
    | IndexError                 // `str.format` given too few positional arguments
    | KeyError(key: string)      // a missing dictionary key
    | ConfigKeyMissing(message: string)  // nav/config.py, a subclass of KeyError

  /** `isinstance(e, KeyError)`. */
  predicate IsKeyError(e: Error) {
    e.KeyError? || e.ConfigKeyMissing?
  }

  /** One element of a parsed response body, in document order:
      its tag (Clark notation for qualified names) and its text, None when absent. */
  datatype XmlElement = XmlElement(tag: string, text: Option<string>)

  predicate IsFaultField(e: XmlElement) {
    e.tag == "faultcode" || e.tag == "faultstring" || e.tag == "detail"
  }

  /** The texts that survive `filter(None, ...)`: those of fault fields
      whose text is present and non-empty. */
  predicate Reported(e: XmlElement) {
    IsFaultField(e) && e.text.Some? && e.text.value != ""
  }

  function FaultTexts(elements: seq<XmlElement>): (r: seq<string>)
    ensures |r| <= |elements|
    ensures forall t :: t in r ==> t != ""
    decreases |elements|
  {
    if |elements| == 0 then []
    else
      var rest := FaultTexts(elements[1..]);
      if Reported(elements[0]) then [elements[0].text.value] + rest else rest
  }

  /** `str(NAVHTTPError)`: `parsed` is the element sequence of the response body,
      or None when the body does not parse; then the raw text is shown. */
  function NavHttpErrorText(responseText: string, parsed: Option<seq<XmlElement>>): string {
    match parsed
    case None => responseText
    case Some(elements) => Join(" - ", FaultTexts(elements))
  }

  /** Each reported text has a place in the collected texts. */
  lemma {:induction false} ReportedIsCollected(elements: seq<XmlElement>, i: nat)
    requires i < |elements| && Reported(elements[i])
    ensures elements[i].text.value in FaultTexts(elements)
    decreases |elements|
  {
    if i > 0 {
      ReportedIsCollected(elements[1..], i - 1);
    }
  }

  /** Every collected text comes from a reported element. */
  lemma {:induction false} CollectedIsReported(elements: seq<XmlElement>, t: string)
    requires t in FaultTexts(elements)
    ensures exists i :: 0 <= i < |elements| && Reported(elements[i]) && elements[i].text.value == t
    decreases |elements|
  {
    if !(Reported(elements[0]) && elements[0].text.value == t) {
      CollectedIsReported(elements[1..], t);
      var i :| 0 <= i < |elements[1..]| && Reported(elements[1..][i]) && elements[1..][i].text.value == t;
      assert elements[i + 1] == elements[1..][i];
    }
  }

  /** A single element contributes its text exactly when it is reported. */
  lemma FaultTextsOne(e: XmlElement)
    ensures FaultTexts([e]) == if Reported(e) then [e.text.value] else []
  {
    assert [e][1..] == [];
  }

  /** Collection keeps document order and repeats: the texts of a body are
      the texts of its first part followed by those of the rest. */
  lemma {:induction false} FaultTextsConcat(a: seq<XmlElement>, b: seq<XmlElement>)
    ensures FaultTexts(a + b) == FaultTexts(a) + FaultTexts(b)
    decreases |a|
  {
    if |a| == 0 {
      assert a + b == b;
    } else {
      FaultTextsConcat(a[1..], b);
      assert (a + b)[1..] == a[1..] + b;
    }
  }

  /** The message lists the reported texts in document order, not sorted:
      a faultstring before a faultcode is shown first. */
  lemma DocumentOrderExample(responseText: string)
    ensures NavHttpErrorText(responseText, Some(
      [XmlElement("faultstring", Some("B")), XmlElement("faultcode", Some("A"))])) == "B - A"
  {
    var fs := XmlElement("faultstring", Some("B"));
    var fc := XmlElement("faultcode", Some("A"));
    FaultTextsOne(fs);
    FaultTextsOne(fc);
    FaultTextsConcat([fs], [fc]);
    assert [fs] + [fc] == [fs, fc];
    assert FaultTexts([fs, fc]) == ["B", "A"];
    assert ["B", "A"][1..] == ["A"];
  }

  /** The server's fault text reaches the operator: every non-empty
      faultcode, faultstring or detail text occurs in the message. */
  lemma FaultTextSurfaces(responseText: string, elements: seq<XmlElement>, i: nat)
    requires i < |elements| && Reported(elements[i])
    ensures Contains(NavHttpErrorText(responseText, Some(elements)), elements[i].text.value)
  {
    ReportedIsCollected(elements, i);
    var texts := FaultTexts(elements);
    var j :| 0 <= j < |texts| && texts[j] == elements[i].text.value;
    JoinContains(" - ", texts, j);
  }

  /** A body that parses but holds no reported field gives the empty string,
      not the raw text. */
  lemma {:induction false} NoFaultFieldsGiveEmpty(responseText: string, elements: seq<XmlElement>)
    requires forall i :: 0 <= i < |elements| ==> !Reported(elements[i])
    ensures NavHttpErrorText(responseText, Some(elements)) == ""
    decreases |elements|
  {
    if |elements| > 0 {
      NoFaultFieldsGiveEmpty(responseText, elements[1..]);
    }
  }

  /** An element that is not reported (another tag, a namespace-qualified tag,
      missing or empty text) has no effect on the message. */
  lemma {:induction false} UnreportedIsIgnored(before: seq<XmlElement>, e: XmlElement, after: seq<XmlElement>)
    requires !Reported(e)
    ensures FaultTexts(before + [e] + after) == FaultTexts(before + after)
    decreases |before|
  {
    if |before| == 0 {
      assert (before + [e] + after)[1..] == after;
      assert before + after == after;
    } else {
      UnreportedIsIgnored(before[1..], e, after);
      assert (before + [e] + after)[1..] == before[1..] + [e] + after;
      assert (before + after)[1..] == before[1..] + after;
    }
  }

  /** Tag comparison is exact: a qualified `{ns}faultstring` is never a fault field. */
  lemma QualifiedTagsNeverMatch(e: XmlElement)
    requires |e.tag| > 0 && e.tag[0] == '{'
    ensures !IsFaultField(e)
  {
    assert e.tag != "faultcode" by { assert "faultcode"[0] != '{'; }
    assert e.tag != "faultstring" by { assert "faultstring"[0] != '{'; }
    assert e.tag != "detail" by { assert "detail"[0] != '{'; }
  }

  /** A body that does not parse is shown as it is. */
  lemma UnparsableShowsRawText(responseText: string)
    ensures NavHttpErrorText(responseText, None) == responseText
  {
  }

  /** A typical NAV fault: the envelope's tags are qualified, the fault fields are not. */
  lemma RecordAlreadyExistsExample(responseText: string)
    ensures Contains(NavHttpErrorText(responseText, Some(
      [ XmlElement("{http://schemas.xmlsoap.org/soap/envelope/}Envelope", None)
      , XmlElement("{http://schemas.xmlsoap.org/soap/envelope/}Body", None)
      , XmlElement("{http://schemas.xmlsoap.org/soap/envelope/}Fault", None)
      , XmlElement("faultcode", Some("a:Microsoft.Dynamics.Nav.Types.Exceptions.NavCSideException"))
      , XmlElement("faultstring", Some("Record already exists"))
      , XmlElement("detail", None)
      ])), "Record already exists")
  {
    var elements :=
      [ XmlElement("{http://schemas.xmlsoap.org/soap/envelope/}Envelope", None)
      , XmlElement("{http://schemas.xmlsoap.org/soap/envelope/}Body", None)
      , XmlElement("{http://schemas.xmlsoap.org/soap/envelope/}Fault", None)
      , XmlElement("faultcode", Some("a:Microsoft.Dynamics.Nav.Types.Exceptions.NavCSideException"))
      , XmlElement("faultstring", Some("Record already exists"))
      , XmlElement("detail", None)
      ];
    FaultTextSurfaces(responseText, elements, 4);
  }
}
