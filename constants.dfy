/** The endpoint types and the table that turns CLI marker strings into the
    values the server expects. */
module Constants {
  import opened Values

  const CodeunitType: string := "Codeunit"
  const PageType: string := "Page"

  /** The namespace prefix of every NAV web-service schema, written into the
      bindings, the envelopes and the SOAPAction values of both clients. */
  const SchemaPrefix: string := "urn:microsoft-dynamics-schemas/"

  /** `STRING_VALUE_TO_PYTHON_TYPE_MAPPING`. */
  const StringValueMapping: map<string, Value> :=
    map["NotSet" := NotSet, "TRUE" := Bool(true), "FALSE" := Bool(false)]

  lemma EndpointTypesDistinct()
    ensures CodeunitType != PageType
  {
    assert CodeunitType[0] != PageType[0];
  }

  /** The table holds exactly three markers, with these values. Keys are matched
      exactly, so any other spelling is not a marker. */
  lemma MappingEntries()
    ensures StringValueMapping.Keys == {"NotSet", "TRUE", "FALSE"}
    ensures StringValueMapping["NotSet"] == NotSet
    ensures StringValueMapping["TRUE"] == Bool(true)
    ensures StringValueMapping["FALSE"] == Bool(false)
    ensures "true" !in StringValueMapping && "false" !in StringValueMapping
    ensures "True" !in StringValueMapping && "False" !in StringValueMapping
  {
  }

  /** No value of the table is itself a key of it. */
  lemma MappedValuesAreNotMarkers(k: string)
    requires k in StringValueMapping
    ensures !StringValueMapping[k].Str?
  {
  }
}
