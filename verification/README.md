# Services deployment XML manager, in Dafny

This project models `ServicesDeploymentXmlManager`, the manager of the
Co-Simulation services deployment XML file. The manager works on the
sections dictionary that the base `XmlManager` has already read out of the
file. The model covers four things:

- `build_particular_sections_dicts` builds the services deployment
  dictionary.
  - It resets that dictionary.
  - It reads the srun options section. It strips the surrounding whitespace
    from it and splits it at every single space into a list of options.
  - It copies the settings section as it is.
  - A missing srun options section is logged and reported as
    `XML_TAG_ERROR`.
  - A missing settings section is logged. The section is then read again
    outside the `try`, so the `KeyError` escapes after the options have been
    stored. The model keeps this behaviour as written.
- `_TMP_build_particular_sections_dicts` walks the entries of the sections
  dictionary in insertion order. In each entry it rewrites `MIN`, `MAX` and
  `MAX_TRIES` with `int(...)`, in that order.
  - The first string that `int` rejects stops the walk with
    `XML_VALUE_ERROR`.
  - Nothing already rewritten is rolled back.
- The no-op hooks, `initialize_xml_elements`, the constructor's `None`
  state, and `get_services_deployment_dict`.
- The Python built-ins these depend on:
  - `str.strip()` with Python's `isspace` character set;
  - `str.split(" ")` and its inverse `" ".join`;
  - base-10 `int()` on strings. It accepts surrounding whitespace, a sign
    and single underscores between digits.
    - The whitespace `int` skips is not quite `isspace`. The four
      information separators U+001C..U+001F are `isspace`, but `int`
      rejects any text that holds one, even at its ends.
    - At most 4300 digits are accepted, the default limit of
      `sys.get_int_max_str_digits()`.
    - Non-ASCII decimal digits are not modelled (see "Left out").

How the model represents the program:

- A Python `dict` is an ordered sequence of key–value pairs.
  - `d[k]` is `Lookup`. It is `None` where Python raises `KeyError`.
  - `d[k] = v` is `Set`. It keeps an existing key in place and appends a new
    key at the end.
- A call ends in an `Outcome`: either a returned `XmlManagerReturnCodes`
  value, or a Python exception that escapes (`KeyError`, `TypeError` or
  `AttributeError`).
- Manager methods are pure functions from a `Manager` value to
  `(Outcome, Manager)`.
  - The logger becomes a list of `LogEntry` values in the manager.
  - The `xml_tags` identifiers are parameters (`Tags`).

Files:

- `wrappers.dfy`: `Option`.
- `py_str.dfy`: `PyStr`, which covers strip, split and join.
- `py_int.dfy`: `PyInt`, which covers `int()`.
- `xml_sections.dfy`: `XmlSections`, which covers values, ordered
  dictionaries, return codes, outcomes and log entries.
- `numeric_coercion.dfy`: `NumericCoercion`, the fail-fast coercion loop.
- `services_deployment.dfy`: `ServicesDeployment`, the manager itself.
- `deployment_examples.dfy`: `DeploymentExamples`, worked examples on
  concrete text.

Behaviour of the code worth knowing, modelled as written:

- `strip()` at line 86 removes all surrounding whitespace at both ends,
  although the comment there speaks only of removing new line characters.
- The deployment dictionary is reset at line 72, before anything is checked.
  - After a build that fails, `get_services_deployment_dict` therefore
    returns the empty or partly filled dictionary of that build.
  - The getter returns `None` only before the first build.
- The getter's docstring (lines 143-148) says it returns a list, but line
  151 returns the whole deployment dictionary.
- A missing settings section is logged at lines 100-102, and then lines
  103-104 read it again outside the `try`, so the `KeyError` escapes
  (`Raised(KeyError(settings tag))`).
- Only `ValueError` is caught at line 136. A missing `MIN`, `MAX` or
  `MAX_TRIES` field therefore raises a `KeyError` that escapes, and a field
  value that is a list or a dictionary raises an escaping `TypeError`.

## Model

| member | source | states |
|---|---|---|
| `ServicesDeployment.New` | workflow_configurations_manager/xml_parsers/services_deployment_xml_manager.py:31-34 | a new manager has no deployment dictionary: the getter returns `None`; the sections dictionary and file name are those given, and nothing is logged |
| `ServicesDeployment.GetServicesDeploymentDict` | workflow_configurations_manager/xml_parsers/services_deployment_xml_manager.py:142-151 | returns the stored deployment dictionary as it is; what that is over a manager's life is stated by `DeploymentDictLifecycle` |
| `ServicesDeployment.DeploymentDictLifecycle` | workflow_configurations_manager/xml_parsers/services_deployment_xml_manager.py:34-72 | a new manager, and one after `initialize_xml_elements`, the two hooks or the coercion, has no deployment dictionary; after any build, whatever its return code, it has one |
| `ServicesDeployment.InitializeXmlElements` | workflow_configurations_manager/xml_parsers/services_deployment_xml_manager.py:36-38 | sets the component tag to the root tag and leaves the deployment dictionary, sections, file name and log unchanged |
| `ServicesDeployment.BuildVariablesDict` | workflow_configurations_manager/xml_parsers/services_deployment_xml_manager.py:40-49 | always returns `XML_OK` and leaves the manager unchanged |
| `ServicesDeployment.BuildParametersDict` | workflow_configurations_manager/xml_parsers/services_deployment_xml_manager.py:51-60 | always returns `XML_OK` and leaves the manager unchanged |
| `ServicesDeployment.SrunOptions` | workflow_configurations_manager/xml_parsers/services_deployment_xml_manager.py:86-92 | joining the options list with single spaces gives back exactly the stripped srun text |
| `ServicesDeployment.BuildParticularSectionsDicts` | workflow_configurations_manager/xml_parsers/services_deployment_xml_manager.py:65-106 | `XML_TAG_ERROR` exactly when the srun section is missing; `AttributeError` exactly when it is not a string; `KeyError(settings)` exactly when it is a string and settings are missing; `XML_OK` exactly when both are present and the srun value is a string; the sections, file name and component tag never change, and a deployment dictionary always exists afterwards |
| `ServicesDeployment.BuildWithoutSrunOptions` | workflow_configurations_manager/xml_parsers/services_deployment_xml_manager.py:72-84 | without the srun section: `XML_TAG_ERROR`, the dictionary is left empty, and only that section is logged as missing, so the settings step never runs |
| `ServicesDeployment.BuildWithNonStringSrun` | workflow_configurations_manager/xml_parsers/services_deployment_xml_manager.py:72-86 | a srun options value that is not a string raises `AttributeError` at `strip()`, leaving the dictionary empty after the reset and nothing logged |
| `ServicesDeployment.BuildWithBothSections` | workflow_configurations_manager/xml_parsers/services_deployment_xml_manager.py:72-106 | with both sections and distinct tags: `XML_OK`, nothing logged, keys exactly `[options, settings]` in that order, options equal to the split of the stripped text, settings equal to the main dictionary's value |
| `ServicesDeployment.BuildWithoutSettings` | workflow_configurations_manager/xml_parsers/services_deployment_xml_manager.py:96-104 | srun present but settings missing: never `XML_OK`; `KeyError(settings)` escapes with the options key already stored, and the missing settings section is logged |
| `ServicesDeployment.SrunOptionsShape` | workflow_configurations_manager/xml_parsers/services_deployment_xml_manager.py:86-92 | splitting the joined options gives the same list; no option holds a space; there is one more option than spaces; for non-blank text, the first option does not start with whitespace and the last does not end with it |
| `ServicesDeployment.TrailingNewLineIgnored` | workflow_configurations_manager/xml_parsers/services_deployment_xml_manager.py:86 | a new line after the srun text leaves the options list unchanged, so there is no empty trailing option |
| `ServicesDeployment.StoredOptions` | workflow_configurations_manager/xml_parsers/services_deployment_xml_manager.py:86-92 | whenever the srun section is a string, the stored options are its options list, whether or not the settings step fails |
| `ServicesDeployment.BuildForgetsPreviousDict` | workflow_configurations_manager/xml_parsers/services_deployment_xml_manager.py:72 | the outcome, the new dictionary and the log do not depend on the dictionary an earlier build left |
| `ServicesDeployment.BuildTwice` | workflow_configurations_manager/xml_parsers/services_deployment_xml_manager.py:72-106 | building twice over the same sections gives the same outcome and an equal deployment dictionary |
| `ServicesDeployment.TmpBuildParticularSectionsDicts` | workflow_configurations_manager/xml_parsers/services_deployment_xml_manager.py:108-140 | keys and their order, the file name, the component tag and the deployment dictionary are unchanged; `XML_OK` exactly when no entry halts; a conversion failure is logged exactly when `XML_VALUE_ERROR` is returned |
| `ServicesDeployment.TmpBuildOk` | workflow_configurations_manager/xml_parsers/services_deployment_xml_manager.py:129-140 | on `XML_OK` every entry was a dictionary; `MIN`, `MAX` and `MAX_TRIES` hold the integers `int` makes of their original values; every other key and every entry key is unchanged |
| `ServicesDeployment.TmpBuildValueError` | workflow_configurations_manager/xml_parsers/services_deployment_xml_manager.py:129-138 | on `XML_VALUE_ERROR` the first halting entry holds the first field whose string `int` rejects; entries before it are fully converted, its earlier fields are converted, its later fields are untouched, and later entries are untouched |
| `NumericCoercion.IntOfField` | workflow_configurations_manager/xml_parsers/services_deployment_xml_manager.py:133-138 | a conversion that fails either returns `XML_VALUE_ERROR` or raises; it never returns any other code |
| `NumericCoercion.IntOfFieldCases` | workflow_configurations_manager/xml_parsers/services_deployment_xml_manager.py:133-138 | `XML_VALUE_ERROR` exactly for a present string that `int` rejects; a string that `int` accepts converts to `int`'s value; a missing field raises `KeyError` of that field, a list or dictionary value raises `TypeError`, and an integer converts to itself |
| `NumericCoercion.FirstFailingField` | workflow_configurations_manager/xml_parsers/services_deployment_xml_manager.py:133-135 | every field before the returned position converts, and the field at that position does not |
| `NumericCoercion.CoerceFields` | workflow_configurations_manager/xml_parsers/services_deployment_xml_manager.py:132-138 | the fields complete exactly when all of them convert on the original entry; otherwise the walk halts with the first failing field's outcome |
| `NumericCoercion.FirstFailingFieldAfterWrite` | workflow_configurations_manager/xml_parsers/services_deployment_xml_manager.py:133-135 | writing a converted integer back does not move the first failing field |
| `NumericCoercion.CoerceFieldsEffect` | workflow_configurations_manager/xml_parsers/services_deployment_xml_manager.py:132-138 | fields before the failing one hold their integers; it and later fields are untouched; other keys are unchanged; the key order is kept |
| `NumericCoercion.CoerceEntry` | workflow_configurations_manager/xml_parsers/services_deployment_xml_manager.py:132-138 | an entry that is not a dictionary raises `TypeError` and is unchanged; a halt is `XML_VALUE_ERROR` or an exception |
| `NumericCoercion.EntryCompleted` | workflow_configurations_manager/xml_parsers/services_deployment_xml_manager.py:133-135 | an iteration that completes had a dictionary whose three fields hold their integers, with every other key unchanged |
| `NumericCoercion.EntryHalted` | workflow_configurations_manager/xml_parsers/services_deployment_xml_manager.py:132-138 | an iteration that halts on a dictionary converted exactly the fields before the first one that does not convert |
| `NumericCoercion.EntryValueError` | workflow_configurations_manager/xml_parsers/services_deployment_xml_manager.py:133-138 | an iteration returns `XML_VALUE_ERROR` exactly when its first non-converting field holds a string that `int` rejects |
| `NumericCoercion.FirstHaltingEntry` | workflow_configurations_manager/xml_parsers/services_deployment_xml_manager.py:129-138 | every entry before the returned position completes, and the entry at that position halts |
| `NumericCoercion.CoerceAll` | workflow_configurations_manager/xml_parsers/services_deployment_xml_manager.py:129-140 | `XML_OK` exactly when no iteration halts; otherwise the outcome of the first iteration that halts; the number of entries is kept |
| `NumericCoercion.CoerceAllEffect` | workflow_configurations_manager/xml_parsers/services_deployment_xml_manager.py:129-138 | entries up to the first halting one are rewritten by their iteration; later entries are unchanged; entry keys are unchanged |
| `NumericCoercion.CoerceAllOk` | workflow_configurations_manager/xml_parsers/services_deployment_xml_manager.py:129-140 | on `XML_OK` every entry had its three fields converted and nothing else changed |
| `NumericCoercion.CoerceAllValueError` | workflow_configurations_manager/xml_parsers/services_deployment_xml_manager.py:129-138 | `XML_VALUE_ERROR` exactly when the first halting entry is a dictionary whose first non-converting field is a string that `int` rejects |
| `XmlSections.Lookup` | workflow_configurations_manager/xml_parsers/services_deployment_xml_manager.py:78-79 | `d[k]`, with `None` where Python raises `KeyError`; it has no contract of its own, and what it finds is stated by `LookupFound`, `LookupFindsFirst` and `LookupMissesAbsentKey` |
| `XmlSections.LookupFound` | workflow_configurations_manager/xml_parsers/services_deployment_xml_manager.py:78-79 | a value `d[k]` finds is one stored under `k` |
| `XmlSections.LookupFindsFirst` | workflow_configurations_manager/xml_parsers/services_deployment_xml_manager.py:97-98 | `d[k]` is the value of the first entry whose key is `k` |
| `XmlSections.LookupMissesAbsentKey` | workflow_configurations_manager/xml_parsers/services_deployment_xml_manager.py:77-84 | `d[k]` fails exactly when `k` is not among the keys |
| `XmlSections.Set` | workflow_configurations_manager/xml_parsers/services_deployment_xml_manager.py:91-92 | after `d[k] = v`, `d[k]` is `v` and other keys read as before; an existing key keeps the key order, a new key is appended; keys stay unique |
| `XmlSections.LookupAgreesWithMap` | workflow_configurations_manager/xml_parsers/services_deployment_xml_manager.py:97-98 | lookup in the ordered dictionary agrees with lookup in the map it stands for |
| `XmlSections.SetIsMapUpdate` | workflow_configurations_manager/xml_parsers/services_deployment_xml_manager.py:103-104 | assignment into the ordered dictionary is a map update |
| `PyStr.IsSpace` | workflow_configurations_manager/xml_parsers/services_deployment_xml_manager.py:86 | TAB to CR, the four information separators and the space are whitespace to `str.strip` |
| `PyStr.SpaceBounds` | workflow_configurations_manager/xml_parsers/services_deployment_xml_manager.py:86 | every other whitespace character lies at or above NEL, so no ASCII digit, letter or sign is whitespace |
| `PyStr.TrimStart` | workflow_configurations_manager/xml_parsers/services_deployment_xml_manager.py:86 | the result is a suffix; what was dropped is all whitespace; the result does not start with whitespace |
| `PyStr.TrimEnd` | workflow_configurations_manager/xml_parsers/services_deployment_xml_manager.py:86 | the result is a prefix; what was dropped is all whitespace; the result does not end with whitespace |
| `PyStr.Strip` | workflow_configurations_manager/xml_parsers/services_deployment_xml_manager.py:86 | the result has no whitespace at either end |
| `PyStr.StripPadded` | workflow_configurations_manager/xml_parsers/services_deployment_xml_manager.py:86 | stripping whitespace padding from text with no whitespace at its ends gives back that text |
| `PyStr.StripParts` | workflow_configurations_manager/xml_parsers/services_deployment_xml_manager.py:86 | every string is whitespace, then its strip, then whitespace |
| `PyStr.StripIgnoresPadding` | workflow_configurations_manager/xml_parsers/services_deployment_xml_manager.py:86 | extra whitespace around a string does not change its strip |
| `PyStr.StripTrimmed` | workflow_configurations_manager/xml_parsers/services_deployment_xml_manager.py:86 | text with no whitespace at its ends is its own strip |
| `PyStr.StripIsIdempotent` | workflow_configurations_manager/xml_parsers/services_deployment_xml_manager.py:86 | stripping twice is stripping once |
| `PyStr.Split` | workflow_configurations_manager/xml_parsers/services_deployment_xml_manager.py:92 | one more token than spaces; no token holds a space; joining the tokens with single spaces gives back the string |
| `PyStr.SplitJoin` | workflow_configurations_manager/xml_parsers/services_deployment_xml_manager.py:92 | splitting the join of a non-empty list of space-free tokens gives back the list |
| `PyStr.SplitIsInjective` | workflow_configurations_manager/xml_parsers/services_deployment_xml_manager.py:92 | different strings split differently |
| `PyStr.TokensOfTrimmed` | workflow_configurations_manager/xml_parsers/services_deployment_xml_manager.py:86-92 | for non-empty stripped text, the first token is non-empty and starts with a non-space, and the last is non-empty and ends with one |
| `PyStr.SplitOfTrimmed` | workflow_configurations_manager/xml_parsers/services_deployment_xml_manager.py:86-92 | gathers everything splitting stripped text promises about its tokens |
| `PyInt.ParseInt` | workflow_configurations_manager/xml_parsers/services_deployment_xml_manager.py:133-135 | `int(s)` on a string, `None` where Python raises `ValueError`; it has no contract of its own; what it accepts and the value it gives are stated by `ParseAccepted` and `ParseAcceptsDecimal` together, and `ParseShow`, `ParseIgnoresPadding` and the two rejection lemmas state further facts |
| `PyInt.ParseAccepted` | workflow_configurations_manager/xml_parsers/services_deployment_xml_manager.py:133-135 | text `int` accepts holds no information separator; stripped, it is an optional sign and then digits and underscores, ending in a digit; after the sign it starts with a digit, has no two underscores side by side and at most 4300 digits |
| `PyInt.DecimalBodyIsWellFormed` | workflow_configurations_manager/xml_parsers/services_deployment_xml_manager.py:133-135 | digits and underscores that start and end with a digit and never double an underscore form a body `int` accepts |
| `PyInt.ParseAcceptsDecimal` | workflow_configurations_manager/xml_parsers/services_deployment_xml_manager.py:133-135 | the converse of `ParseAccepted`: text without information separators whose stripped form is an optional sign and such a body of at most 4300 digits is accepted, and `int` gives the signed value of its digits with underscores skipped |
| `PyInt.ParseShow` | workflow_configurations_manager/xml_parsers/services_deployment_xml_manager.py:133-135 | `int(str(n)) == n` for every integer `n` of at most 4300 digits |
| `PyInt.ParseIgnoresPadding` | workflow_configurations_manager/xml_parsers/services_deployment_xml_manager.py:133-135 | whitespace that `int` skips (`isspace` without the information separators) around the text does not change what `int` makes of it |
| `PyInt.ParseRejectsInformationSeparator` | workflow_configurations_manager/xml_parsers/services_deployment_xml_manager.py:133-138 | an information separator anywhere in the text makes `int` fail, though `strip` would remove it at the ends |
| `PyInt.ParseRejectsForeignChar` | workflow_configurations_manager/xml_parsers/services_deployment_xml_manager.py:133-138 | after stripping, a character that is not a digit, underscore or sign makes `int` fail, so `'abc'` is never coerced to an integer |
| `DeploymentExamples.SrunCommandLine` | workflow_configurations_manager/xml_parsers/services_deployment_xml_manager.py:86-92 | the section text `"srun --exact --label --nodes=1 --ntasks=1\n"` becomes `["srun", "--exact", "--label", "--nodes=1", "--ntasks=1"]` |
| `DeploymentExamples.ParseMinField` | workflow_configurations_manager/xml_parsers/services_deployment_xml_manager.py:133 | `int("59100")` is 59100 |
| `DeploymentExamples.ParseRejectsLeadingSeparator` | workflow_configurations_manager/xml_parsers/services_deployment_xml_manager.py:133-138 | `int` rejects `"\x1c59100"`, although `strip` would remove the separator |
| `DeploymentExamples.ParseGroupedDigits` | workflow_configurations_manager/xml_parsers/services_deployment_xml_manager.py:133 | `int("1_000")` is 1000 |
| `DeploymentExamples.ParseRejectsDoubledUnderscore` | workflow_configurations_manager/xml_parsers/services_deployment_xml_manager.py:133-138 | `int` rejects `"1__0"` |

## Left out

- Logging: only the fact of each error report is modelled, as a `LogEntry`. The message text and its formatting are not.
- The base `XmlManager` is not part of this model. That covers loading and parsing the XML file, the logger, the configurations manager and the constructor's `log_settings` and `name` arguments. The sections dictionary it produces is an input.
- The `enums` and `xml_tags` modules are not part of this model. The return codes are a datatype. The three tags are parameters with no fixed value, and lemmas that need the options and settings tags to differ say so.
- ParseInt: non-ASCII Unicode decimal digits, which Python also accepts, are not modelled. The digit limit is fixed at its default of 4300; a program that changes it with `sys.set_int_max_str_digits`, or a Python release from before the limit existed, is not modelled.
- Field values other than strings, integers, token lists and nested dictionaries, such as `None`, floats or booleans, are not modelled, because the parser that fills the sections dictionary is not modelled. In the model, as in Python, any non-string srun options value raises `AttributeError` at `strip()`, and any entry that is not a dictionary raises `TypeError` when subscripted.
- Object identity and aliasing are not modelled. The settings value is a copy in the model, while Python stores the same nested dict object. A later in-place change to that object would show in both places in Python.
- TmpBuildParticularSectionsDicts: its contract says the deployment dictionary is unchanged, which holds for the model's copy but not always in Python. After a successful build, lines 103-104 store the main dictionary's settings object itself under the settings key. If that object is a dictionary whose `MIN` converts, line 133 rewrites it in place, and the deployment dictionary's settings value changes with it. The model would need object identity to show this.
- The first definition of `build_particular_sections_dicts` (lines 62-63) is dead code shadowed by the second, so it is not modelled.
- The value of `_component_xml_tag` before `initialize_xml_elements` runs is set by the base class. Here it is `None`.
- The orchestrator entry with its three port fields is not stated as a separate worked example. Its general form is `TmpBuildOk` together with `ParseMinField`.
