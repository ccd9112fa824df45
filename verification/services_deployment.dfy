/**
  `ServicesDeploymentXmlManager`: the XML manager of the Co-Simulation
  services deployment file. From the sections dictionary the base manager
  has already read out of the file it builds the services deployment
  dictionary (the srun command line as a list of options, and the settings
  section copied as it is), and it can convert the `MIN`, `MAX` and
  `MAX_TRIES` fields of every component entry to integers.
 */
module ServicesDeployment {
  import opened Wrappers
  import opened PyStr
  import opened PyInt
  import opened XmlSections
  import opened NumericCoercion

  /** The `xml_tags` identifiers this manager uses. Their values are not part
      of this model, so they are parameters. */
  datatype Tags = Tags(root: string, srunOptions: string, settings: string)

  /** The srun options tag and the settings tag name different sections. */
  predicate DistinctTags(tags: Tags)
  {
    tags.srunOptions != tags.settings
  }

  /** The state of a manager that the methods modelled here read or write. */
  datatype Manager = Manager(
    xmlFilename: string,
    mainSections: Dict,                  // `_main_xml_sections_dicts_dict`
    componentXmlTag: Option<string>,     // `_component_xml_tag`
    servicesDeployment: Option<Dict>,    // `__services_deployment_dict`; `None` until built
    log: seq<LogEntry>)

  /** `get_services_deployment_dict()`. */
  function GetServicesDeploymentDict(m: Manager): Option<Dict>
  {
    m.servicesDeployment
  }

  /** The constructor, given what the base manager leaves behind: the file
      name and the sections dictionary read from it. No deployment dictionary
      exists yet. */
  function New(xmlFilename: string, mainSections: Dict): (m: Manager)
    ensures GetServicesDeploymentDict(m) == None
    ensures m.xmlFilename == xmlFilename && m.mainSections == mainSections && m.log == []
  {
    Manager(xmlFilename, mainSections, None, None, [])
  }

  /** What `get_services_deployment_dict()` returns over a manager's life:
      nothing after the constructor and the methods that do not build the
      dictionary, and a dictionary after any call of the build, whatever
      its return code. */
  lemma DeploymentDictLifecycle(xmlFilename: string, mainSections: Dict, tags: Tags)
    ensures var m := New(xmlFilename, mainSections);
      && GetServicesDeploymentDict(m) == None
      && GetServicesDeploymentDict(InitializeXmlElements(m, tags)) == None
      && GetServicesDeploymentDict(BuildVariablesDict(m).1) == None
      && GetServicesDeploymentDict(BuildParametersDict(m).1) == None
      && GetServicesDeploymentDict(TmpBuildParticularSectionsDicts(m).1) == None
      && GetServicesDeploymentDict(BuildParticularSectionsDicts(m, tags).1).Some?
  {
  }

  /** `initialize_xml_elements()`: names the root tag of the file and
      touches nothing else. */
  function InitializeXmlElements(m: Manager, tags: Tags): (r: Manager)
    ensures r.componentXmlTag == Some(tags.root)
    ensures GetServicesDeploymentDict(r) == GetServicesDeploymentDict(m)
    ensures r.xmlFilename == m.xmlFilename && r.mainSections == m.mainSections && r.log == m.log
  {
    m.(componentXmlTag := Some(tags.root))
  }

  /** `_build_variables_dict_from_xml_main_dicts()`: the file has no
      variables section, so the hook succeeds and changes nothing. */
  function BuildVariablesDict(m: Manager): (r: (Outcome, Manager))
    ensures r.0 == Returned(XmlOk) && r.1 == m
  {
    (Returned(XmlOk), m)
  }

  /** `_build_parameters_dict_from_xml_main_dicts()`: the file has no
      parameters section, so the hook succeeds and changes nothing. */
  function BuildParametersDict(m: Manager): (r: (Outcome, Manager))
    ensures r.0 == Returned(XmlOk) && r.1 == m
  {
    (Returned(XmlOk), m)
  }

  /** The srun command line as a list: the raw section text without the
      surrounding whitespace, cut at every single space. */
  function SrunOptions(raw: string): (ts: seq<string>)
    ensures Join(ts) == Strip(raw)
  {
    Split(Strip(raw))
  }

  /** `build_particular_sections_dicts()`. The deployment dictionary is reset
      first. A missing srun options section is logged and reported as
      `XML_TAG_ERROR`; a srun options value that is not a string has no
      `strip` and raises `AttributeError`. Otherwise the options list is
      stored, and the settings section is copied. A missing settings section
      is logged and then read again outside the `try`, so its `KeyError`
      escapes with the options already stored. */
  function BuildParticularSectionsDicts(m: Manager, tags: Tags): (r: (Outcome, Manager))
    ensures r.1.xmlFilename == m.xmlFilename && r.1.mainSections == m.mainSections
    ensures r.1.componentXmlTag == m.componentXmlTag
    ensures r.1.servicesDeployment.Some?
    ensures var srun := Lookup(m.mainSections, tags.srunOptions);
      var settings := Lookup(m.mainSections, tags.settings);
      && (r.0 == Returned(XmlTagError) <==> srun.None?)
      && (r.0 == Raised(AttributeError) <==> srun.Some? && !srun.value.Text?)
      && (r.0 == Raised(KeyError(tags.settings)) <==> srun.Some? && srun.value.Text? && settings.None?)
      && (r.0 == Returned(XmlOk) <==> srun.Some? && srun.value.Text? && settings.Some?)
  {
    var reset := m.(servicesDeployment := Some([]));
    match Lookup(m.mainSections, tags.srunOptions)
    case None =>
      (Returned(XmlTagError), reset.(log := m.log + [MissingSection(m.xmlFilename, tags.srunOptions)]))
    case Some(raw) =>
      if !raw.Text? then
        (Raised(AttributeError), reset)
      else
        var withOptions := Set([], tags.srunOptions, Tokens(SrunOptions(raw.text)));
        match Lookup(m.mainSections, tags.settings)
        case Some(settings) =>
          (Returned(XmlOk), m.(servicesDeployment := Some(Set(withOptions, tags.settings, settings))))
        case None =>
          (Raised(KeyError(tags.settings)),
           m.(servicesDeployment := Some(withOptions),
              log := m.log + [MissingSection(m.xmlFilename, tags.settings)]))
  }

  /** Without a srun options section the build reports `XML_TAG_ERROR`,
      leaves the deployment dictionary empty and logs only that section as
      missing: the settings step is never reached. */
  lemma BuildWithoutSrunOptions(m: Manager, tags: Tags)
    requires Lookup(m.mainSections, tags.srunOptions).None?
    ensures var (o, m') := BuildParticularSectionsDicts(m, tags);
      && o == Returned(XmlTagError)
      && GetServicesDeploymentDict(m') == Some([])
      && m'.log == m.log + [MissingSection(m.xmlFilename, tags.srunOptions)]
  {
  }

  /** A srun options value that is not a string has no `strip`: the build
      raises `AttributeError` after the reset, so the deployment dictionary
      is left empty and nothing is logged. */
  lemma BuildWithNonStringSrun(m: Manager, tags: Tags)
    requires Lookup(m.mainSections, tags.srunOptions).Some?
    requires !Lookup(m.mainSections, tags.srunOptions).value.Text?
    ensures var (o, m') := BuildParticularSectionsDicts(m, tags);
      && o == Raised(AttributeError)
      && GetServicesDeploymentDict(m') == Some([])
      && m'.log == m.log
  {
  }

  /** With both sections present the build succeeds, and the deployment
      dictionary holds exactly the options key and then the settings key:
      the options are the split of the stripped srun text and the settings
      are the main dictionary's value unchanged. Nothing is logged. */
  lemma BuildWithBothSections(m: Manager, tags: Tags)
    requires DistinctTags(tags)
    requires Lookup(m.mainSections, tags.srunOptions).Some?
    requires Lookup(m.mainSections, tags.srunOptions).value.Text?
    requires Lookup(m.mainSections, tags.settings).Some?
    ensures var raw := Lookup(m.mainSections, tags.srunOptions).value.text;
      var (o, m') := BuildParticularSectionsDicts(m, tags);
      && o == Returned(XmlOk)
      && m'.log == m.log
      && m'.servicesDeployment.Some?
      && var d := m'.servicesDeployment.value;
         && Keys(d) == [tags.srunOptions, tags.settings]
         && Lookup(d, tags.srunOptions) == Some(Tokens(SrunOptions(raw)))
         && Lookup(d, tags.settings) == Lookup(m.mainSections, tags.settings)
  {
    var options := Tokens(SrunOptions(Lookup(m.mainSections, tags.srunOptions).value.text));
    var settings := Lookup(m.mainSections, tags.settings).value;
    PairDict(tags.srunOptions, options, tags.settings, settings);
  }

  /** Two assignments of distinct keys into an empty dictionary. */
  lemma PairDict(a: string, x: Value, b: string, y: Value)
    requires a != b
    ensures var d := Set(Set([], a, x), b, y);
      && Keys(d) == [a, b] && Lookup(d, a) == Some(x) && Lookup(d, b) == Some(y)
  {
    var d := Set(Set([], a, x), b, y);
    assert d == [(a, x), (b, y)];
    assert d[1..] == [(b, y)];
    assert Keys([(b, y)]) == [b] + Keys([]);
  }

  /** With the srun options present but the settings missing, the build never
      succeeds: the missing section is logged, the re-read raises `KeyError`,
      and the options have already been stored. */
  lemma BuildWithoutSettings(m: Manager, tags: Tags)
    requires Lookup(m.mainSections, tags.srunOptions).Some?
    requires Lookup(m.mainSections, tags.srunOptions).value.Text?
    requires Lookup(m.mainSections, tags.settings).None?
    ensures var raw := Lookup(m.mainSections, tags.srunOptions).value.text;
      var (o, m') := BuildParticularSectionsDicts(m, tags);
      && o != Returned(XmlOk)
      && o == Raised(KeyError(tags.settings))
      && m'.servicesDeployment == Some([(tags.srunOptions, Tokens(SrunOptions(raw)))])
      && m'.log == m.log + [MissingSection(m.xmlFilename, tags.settings)]
  {
  }

  /** The options list of a srun text: joined with single spaces it gives
      back the stripped text, and splitting that again gives the same list;
      no option holds a space; there is one more option than the stripped
      text has spaces; and unless the text is blank the first option does not
      start, and the last does not end, with whitespace. */
  lemma SrunOptionsShape(raw: string)
    ensures var ts := SrunOptions(raw);
      && Split(Join(ts)) == ts
      && (forall k :: 0 <= k < |ts| ==> ' ' !in ts[k])
      && |ts| == CountSpaces(Strip(raw)) + 1
      && (Strip(raw) != [] ==>
            && ts[0] != [] && !IsSpace(ts[0][0])
            && ts[|ts| - 1] != [] && !IsSpace(ts[|ts| - 1][|ts[|ts| - 1]| - 1]))
  {
    SplitOfTrimmed(Strip(raw));
  }

  /** A new line after the srun command line, as the XML layout leaves it,
      changes nothing: in particular it gives no empty last option. */
  lemma TrailingNewLineIgnored(raw: string)
    ensures SrunOptions(raw + "\n") == SrunOptions(raw)
  {
    assert AllSpace("\n") by { assert IsSpace('\n'); }
    assert [] + raw + "\n" == raw + "\n";
    StripIgnoresPadding([], raw, "\n");
  }

  /** Whatever the settings step does, a build that gets past the srun
      options step has stored their list under the options key. */
  lemma StoredOptions(m: Manager, tags: Tags)
    requires DistinctTags(tags)
    requires Lookup(m.mainSections, tags.srunOptions).Some?
    requires Lookup(m.mainSections, tags.srunOptions).value.Text?
    ensures var raw := Lookup(m.mainSections, tags.srunOptions).value.text;
      var d := BuildParticularSectionsDicts(m, tags).1.servicesDeployment;
      d.Some? && Lookup(d.value, tags.srunOptions) == Some(Tokens(SrunOptions(raw)))
  {
  }

  /** The build depends only on the sections dictionary, the file name and
      the log: whatever deployment dictionary an earlier build left behind is
      discarded. */
  lemma BuildForgetsPreviousDict(m: Manager, tags: Tags, previous: Option<Dict>)
    ensures var a := BuildParticularSectionsDicts(m, tags);
      var b := BuildParticularSectionsDicts(m.(servicesDeployment := previous), tags);
      a.0 == b.0 && GetServicesDeploymentDict(a.1) == GetServicesDeploymentDict(b.1) && a.1.log == b.1.log
  {
  }

  /** Building twice over the same sections dictionary gives the same
      outcome and an equal deployment dictionary. */
  lemma BuildTwice(m: Manager, tags: Tags)
    ensures var (o1, m1) := BuildParticularSectionsDicts(m, tags);
      var (o2, m2) := BuildParticularSectionsDicts(m1, tags);
      o1 == o2 && GetServicesDeploymentDict(m2) == GetServicesDeploymentDict(m1)
  {
    var m1 := BuildParticularSectionsDicts(m, tags).1;
    BuildForgetsPreviousDict(m.(log := m1.log), tags, m1.servicesDeployment);
  }

  /** `_TMP_build_particular_sections_dicts()`: the fail-fast coercion of the
      sections dictionary in place. A string `int` rejects is logged. */
  function TmpBuildParticularSectionsDicts(m: Manager): (r: (Outcome, Manager))
    ensures r.1.xmlFilename == m.xmlFilename && r.1.componentXmlTag == m.componentXmlTag
    ensures GetServicesDeploymentDict(r.1) == GetServicesDeploymentDict(m)
    ensures Keys(r.1.mainSections) == Keys(m.mainSections)
    ensures r.0 == Returned(XmlOk) <==> FirstHaltingEntry(m.mainSections) == |m.mainSections|
    ensures r.0 == Returned(XmlValueError) <==> r.1.log == m.log + [ConversionFailed]
    ensures r.0 != Returned(XmlValueError) ==> r.1.log == m.log
  {
    var (o, es) := CoerceAll(m.mainSections);
    CoerceAllEffect(m.mainSections);
    SameKeysSameKeyList(es, m.mainSections);
    (o, m.(mainSections := es, log := if o == Returned(XmlValueError) then m.log + [ConversionFailed] else m.log))
  }

  /** Two dictionaries whose entries carry the same keys have the same key list. */
  lemma {:induction false} SameKeysSameKeyList(a: Dict, b: Dict)
    requires |a| == |b|
    requires forall j :: 0 <= j < |a| ==> a[j].0 == b[j].0
    ensures Keys(a) == Keys(b)
  {
    if |a| > 0 {
      SameKeysSameKeyList(a[1..], b[1..]);
    }
  }

  /** When the coercion returns `XML_OK`, every component entry was a
      dictionary and now holds, under `MIN`, `MAX` and `MAX_TRIES`, the
      integers `int` makes of the original values, with every other key
      unchanged; nothing is logged. */
  lemma TmpBuildOk(m: Manager)
    requires TmpBuildParticularSectionsDicts(m).0 == Returned(XmlOk)
    ensures var m' := TmpBuildParticularSectionsDicts(m).1;
      && |m'.mainSections| == |m.mainSections|
      && m'.log == m.log
      && forall j :: 0 <= j < |m.mainSections| ==>
           m'.mainSections[j].0 == m.mainSections[j].0
           && FieldsConverted(m.mainSections[j].1, m'.mainSections[j].1)
  {
    CoerceAllOk(m.mainSections);
  }

  /** When the coercion returns `XML_VALUE_ERROR` it stopped at the first
      string `int` rejects, in entry order and then in `MIN`, `MAX`,
      `MAX_TRIES` order: the entries before the failing one are fully
      converted, in the failing entry the fields before the failing one are
      converted and the others untouched, and the later entries are left as
      they were. */
  lemma TmpBuildValueError(m: Manager)
    requires TmpBuildParticularSectionsDicts(m).0 == Returned(XmlValueError)
    ensures var es := m.mainSections;
      var es' := TmpBuildParticularSectionsDicts(m).1.mainSections;
      var i := FirstHaltingEntry(es);
      && i < |es| && |es'| == |es|
      && (forall j :: 0 <= j < i ==> FieldsConverted(es[j].1, es'[j].1))
      && es[i].1.Section?
      && (var d := es[i].1.entries;
          var f := FirstFailingField(d, NumericFields);
          && f < |NumericFields|
          && Lookup(d, NumericFields[f]).Some?
          && Lookup(d, NumericFields[f]).value.Text?
          && ParseInt(Lookup(d, NumericFields[f]).value.text).None?
          && ConvertedUpTo(es[i].1, es'[i].1, f))
      && (forall j :: i < j < |es| ==> es'[j] == es[j])
  {
    var es := m.mainSections;
    var i := FirstHaltingEntry(es);
    CoerceAllValueError(es);
    CoerceAllEffect(es);
    forall j | 0 <= j < i
      ensures FieldsConverted(es[j].1, CoerceAll(es).1[j].1)
    {
      EntryCompleted(es[j].1);
    }
    EntryHalted(es[i].1);
  }
}
