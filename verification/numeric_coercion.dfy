/**
  The fail-fast numeric coercion of `_TMP_build_particular_sections_dicts`:
  every top-level entry of the main sections dictionary is a per-component
  dictionary whose `MIN`, `MAX` and `MAX_TRIES` fields are rewritten, in
  that order, from strings to integers. The first string `int` rejects stops
  the walk with `XML_VALUE_ERROR`; what was already rewritten stays rewritten.
 */
module NumericCoercion {
  import opened Wrappers
  import opened PyInt
  import opened XmlSections

  const MinField: string := "MIN"
  const MaxField: string := "MAX"
  const MaxTriesField: string := "MAX_TRIES"

  /** The fields rewritten in each entry, in the order they are rewritten. */
  const NumericFields: seq<string> := [MinField, MaxField, MaxTriesField]

  /** Result of `int(d[field])`: the integer, or how the call escapes. */
  datatype Conversion = Converted(n: int) | Escaped(outcome: Outcome)

  /** `int(d[field])`. A missing field raises `KeyError` and a value that is
      neither a string nor an integer raises `TypeError`; both escape, since
      only `ValueError` is caught. A string `int` rejects raises `ValueError`,
      which is caught and becomes `XML_VALUE_ERROR`. */
  function IntOfField(d: Dict, field: string): (r: Conversion)
    ensures r.Escaped? ==> r.outcome == Returned(XmlValueError) || r.outcome.Raised?
  {
    match Lookup(d, field)
    case None => Escaped(Raised(KeyError(field)))
    case Some(Text(s)) =>
      (match ParseInt(s)
       case Some(n) => Converted(n)
       case None => Escaped(Returned(XmlValueError)))
    case Some(Number(n)) => Converted(n)
    case Some(Tokens(_)) => Escaped(Raised(TypeError))
    case Some(Section(_)) => Escaped(Raised(TypeError))
  }

  /** The conversion yields `XML_VALUE_ERROR` exactly for a present string
      that `int` rejects, and converts a present string `int` accepts to
      the integer `int` returns. A missing field raises `KeyError`, a list
      or dictionary value raises `TypeError`, and an integer is kept. */
  lemma IntOfFieldCases(d: Dict, field: string)
    ensures Lookup(d, field).None? ==> IntOfField(d, field) == Escaped(Raised(KeyError(field)))
    ensures Lookup(d, field).Some? && (Lookup(d, field).value.Tokens? || Lookup(d, field).value.Section?) ==>
      IntOfField(d, field) == Escaped(Raised(TypeError))
    ensures Lookup(d, field).Some? && Lookup(d, field).value.Number? ==>
      IntOfField(d, field) == Converted(Lookup(d, field).value.number)
    ensures IntOfField(d, field) == Escaped(Returned(XmlValueError)) <==>
      Lookup(d, field).Some? && Lookup(d, field).value.Text? && ParseInt(Lookup(d, field).value.text).None?
    ensures Lookup(d, field).Some? && Lookup(d, field).value.Text? && ParseInt(Lookup(d, field).value.text).Some? ==>
      IntOfField(d, field) == Converted(ParseInt(Lookup(d, field).value.text).value)
  {
  }

  predicate DistinctFields(fields: seq<string>)
  {
    forall a, b :: 0 <= a < b < |fields| ==> fields[a] != fields[b]
  }

  /** Position of the first field whose conversion fails on the ORIGINAL
      entry, or `|fields|` when all of them convert. */
  function FirstFailingField(d: Dict, fields: seq<string>): (j: nat)
    ensures j <= |fields|
    ensures forall i :: 0 <= i < j ==> IntOfField(d, fields[i]).Converted?
    ensures j < |fields| ==> IntOfField(d, fields[j]).Escaped?
  {
    if |fields| == 0 then 0
    else if IntOfField(d, fields[0]).Escaped? then 0
    else 1 + FirstFailingField(d, fields[1..])
  }

  datatype Progress = Completed | Halted(outcome: Outcome)

  /** `d[f] = int(d[f])` for each field `f` in turn, stopping at the first
      failure; it completes exactly when every field converts, and otherwise
      halts with the failing field's outcome. */
  function CoerceFields(d: Dict, fields: seq<string>): (r: (Progress, Dict))
    ensures var j := FirstFailingField(d, fields);
      && (r.0 == Completed <==> j == |fields|)
      && (j < |fields| ==> r.0 == Halted(IntOfField(d, fields[j]).outcome))
    decreases |fields|
  {
    if |fields| == 0 then
      (Completed, d)
    else
      var c := IntOfField(d, fields[0]);
      if c.Escaped? then
        (Halted(c.outcome), d)
      else
        var d' := Set(d, fields[0], Number(c.n));
        FirstFailingFieldAfterWrite(d, fields[0], c.n, fields[1..]);
        var j := FirstFailingField(d, fields[1..]);
        if j < |fields| - 1 then
          WriteBackKeepsConversion(d, fields[0], c.n, fields[1..][j]);
          CoerceFields(d', fields[1..])
        else
          CoerceFields(d', fields[1..])
  }

  /** Writing back the integer a field converts to changes no field's
      conversion, that field's included. */
  lemma WriteBackKeepsConversion(d: Dict, f: string, n: int, g: string)
    requires IntOfField(d, f) == Converted(n)
    ensures IntOfField(Set(d, f, Number(n)), g) == IntOfField(d, g)
  {
  }

  lemma {:induction false} FirstFailingFieldAfterWrite(d: Dict, f: string, n: int, fields: seq<string>)
    requires IntOfField(d, f) == Converted(n)
    ensures FirstFailingField(Set(d, f, Number(n)), fields) == FirstFailingField(d, fields)
    decreases |fields|
  {
    if |fields| > 0 {
      WriteBackKeepsConversion(d, f, n, fields[0]);
      FirstFailingFieldAfterWrite(d, f, n, fields[1..]);
    }
  }

  /** What `CoerceFields` leaves in the entry: the fields before the failing
      one hold their integers, the failing one and those after it are
      untouched, no other key changes and the keys keep their order. */
  lemma {:induction false} CoerceFieldsEffect(d: Dict, fields: seq<string>)
    requires DistinctFields(fields)
    ensures var r := CoerceFields(d, fields).1;
      var j := FirstFailingField(d, fields);
      && Keys(r) == Keys(d)
      && (forall i :: 0 <= i < j ==>
            Lookup(r, fields[i]) == Some(Number(IntOfField(d, fields[i]).n)))
      && (forall i :: j <= i < |fields| ==> Lookup(r, fields[i]) == Lookup(d, fields[i]))
      && (forall k :: k !in fields ==> Lookup(r, k) == Lookup(d, k))
    decreases |fields|
  {
    if |fields| > 0 && IntOfField(d, fields[0]).Converted? {
      var d' := Set(d, fields[0], Number(IntOfField(d, fields[0]).n));
      CoerceFieldsEffect(d', fields[1..]);
      FirstFailingFieldAfterWrite(d, fields[0], IntOfField(d, fields[0]).n, fields[1..]);
      forall i | 0 < i < |fields|
        ensures IntOfField(d', fields[i]) == IntOfField(d, fields[i])
      {
        WriteBackKeepsConversion(d, fields[0], IntOfField(d, fields[0]).n, fields[i]);
      }
      assert forall i :: 0 < i < |fields| ==> fields[1..][i - 1] == fields[i];
    }
  }

  /** One loop iteration: the three assignments applied to one entry. An
      entry that is not a dictionary cannot be subscripted by a string. */
  function CoerceEntry(v: Value): (r: (Progress, Value))
    ensures r.0.Halted? ==> r.0.outcome == Returned(XmlValueError) || r.0.outcome.Raised?
    ensures !v.Section? ==> r == (Halted(Raised(TypeError)), v)
    ensures v.Section? ==> r.1.Section?
  {
    if !v.Section? then
      (Halted(Raised(TypeError)), v)
    else
      var (p, d) := CoerceFields(v.entries, NumericFields);
      (p, Section(d))
  }

  /** `v'` is dictionary `v` with the first `f` of the three fields holding
      the integers `int` makes of their values, the remaining fields and
      every other key as they were, and the keys in the same order. */
  ghost predicate ConvertedUpTo(v: Value, v': Value, f: nat)
  {
    && v.Section? && v'.Section?
    && Keys(v'.entries) == Keys(v.entries)
    && (forall i :: 0 <= i < f && i < |NumericFields| ==>
          IntOfField(v.entries, NumericFields[i]).Converted?
          && Lookup(v'.entries, NumericFields[i]) == Some(Number(IntOfField(v.entries, NumericFields[i]).n)))
    && (forall i :: f <= i < |NumericFields| ==> Lookup(v'.entries, NumericFields[i]) == Lookup(v.entries, NumericFields[i]))
    && (forall k :: k !in NumericFields ==> Lookup(v'.entries, k) == Lookup(v.entries, k))
  }

  /** `v'` is dictionary `v` with all three fields converted. */
  ghost predicate FieldsConverted(v: Value, v': Value)
  {
    ConvertedUpTo(v, v', |NumericFields|)
  }

  /** An iteration that completes was given a dictionary whose three fields
      all convert; it leaves each holding its integer, and every other key
      as it was. */
  lemma EntryCompleted(v: Value)
    requires CoerceEntry(v).0 == Completed
    ensures FieldsConverted(v, CoerceEntry(v).1)
  {
    assert DistinctFields(NumericFields);
    CoerceFieldsEffect(v.entries, NumericFields);
  }

  /** An iteration over a dictionary that halts has converted exactly the
      fields before the first one that does not convert. */
  lemma EntryHalted(v: Value)
    requires v.Section? && CoerceEntry(v).0.Halted?
    ensures ConvertedUpTo(v, CoerceEntry(v).1, FirstFailingField(v.entries, NumericFields))
  {
    assert DistinctFields(NumericFields);
    CoerceFieldsEffect(v.entries, NumericFields);
  }

  /** An iteration ends in `XML_VALUE_ERROR` exactly when it was given a
      dictionary whose first field that does not convert holds a string
      `int` rejects. */
  lemma EntryValueError(v: Value)
    ensures CoerceEntry(v).0 == Halted(Returned(XmlValueError)) <==>
      && v.Section?
      && var d := v.entries;
         var j := FirstFailingField(d, NumericFields);
         && j < |NumericFields|
         && Lookup(d, NumericFields[j]).Some?
         && Lookup(d, NumericFields[j]).value.Text?
         && ParseInt(Lookup(d, NumericFields[j]).value.text).None?
  {
    if v.Section? {
      var j := FirstFailingField(v.entries, NumericFields);
      if j < |NumericFields| {
        IntOfFieldCases(v.entries, NumericFields[j]);
      }
    }
  }

  /** Position of the first entry whose iteration halts, or `|es|`. */
  function FirstHaltingEntry(es: Dict): (i: nat)
    ensures i <= |es|
    ensures forall j :: 0 <= j < i ==> CoerceEntry(es[j].1).0 == Completed
    ensures i < |es| ==> CoerceEntry(es[i].1).0.Halted?
  {
    if |es| == 0 then 0
    else if CoerceEntry(es[0].1).0.Halted? then 0
    else 1 + FirstHaltingEntry(es[1..])
  }

  /** The loop over `items()`: it returns `XML_OK` exactly when no iteration
      halts, and otherwise the outcome of the first iteration that halts. */
  function CoerceAll(es: Dict): (r: (Outcome, Dict))
    ensures |r.1| == |es|
    ensures var i := FirstHaltingEntry(es);
      && (r.0 == Returned(XmlOk) <==> i == |es|)
      && (i < |es| ==> r.0 == CoerceEntry(es[i].1).0.outcome)
  {
    if |es| == 0 then
      (Returned(XmlOk), [])
    else
      var (p, v') := CoerceEntry(es[0].1);
      match p
      case Halted(o) => (o, [(es[0].0, v')] + es[1..])
      case Completed =>
        var (o, rest) := CoerceAll(es[1..]);
        (o, [(es[0].0, v')] + rest)
  }

  /** What the loop leaves in the dictionary: entries up to and including the
      first one that halts are rewritten by their iteration, the entries after
      it are left as they were, and no key changes place. */
  lemma {:induction false} CoerceAllEffect(es: Dict)
    ensures var r := CoerceAll(es).1;
      var i := FirstHaltingEntry(es);
      && (forall j :: 0 <= j < |es| ==> r[j].0 == es[j].0)
      && (forall j :: 0 <= j < |es| && j <= i ==> r[j].1 == CoerceEntry(es[j].1).1)
      && (forall j :: i < j < |es| ==> r[j] == es[j])
  {
    if |es| > 0 {
      var r := CoerceAll(es).1;
      if CoerceEntry(es[0].1).0.Completed? {
        CoerceAllEffect(es[1..]);
        assert forall j :: 0 < j < |es| ==> r[j] == CoerceAll(es[1..]).1[j - 1];
      } else {
        assert forall j :: 0 < j < |es| ==> r[j] == es[j];
      }
    }
  }

  /** On `XML_OK` every entry was a dictionary, each of its three fields
      holds the integer `int` made of its original value, and no other key
      or entry changed. */
  lemma CoerceAllOk(es: Dict)
    requires CoerceAll(es).0 == Returned(XmlOk)
    ensures var out := CoerceAll(es).1;
      && |out| == |es|
      && forall j :: 0 <= j < |es| ==> out[j].0 == es[j].0 && FieldsConverted(es[j].1, out[j].1)
  {
    var out := CoerceAll(es).1;
    CoerceAllEffect(es);
    forall j | 0 <= j < |es|
      ensures FieldsConverted(es[j].1, out[j].1)
    {
      EntryCompleted(es[j].1);
    }
  }

  /** `XML_VALUE_ERROR` is returned exactly when the first entry whose
      iteration halts is a dictionary whose first field that does not convert
      holds a string `int` rejects; every entry before it converted fully. */
  lemma CoerceAllValueError(es: Dict)
    ensures var i := FirstHaltingEntry(es);
      CoerceAll(es).0 == Returned(XmlValueError) <==>
      && i < |es|
      && es[i].1.Section?
      && var d := es[i].1.entries;
         var j := FirstFailingField(d, NumericFields);
         && j < |NumericFields|
         && Lookup(d, NumericFields[j]).Some?
         && Lookup(d, NumericFields[j]).value.Text?
         && ParseInt(Lookup(d, NumericFields[j]).value.text).None?
  {
    var i := FirstHaltingEntry(es);
    if i < |es| {
      EntryValueError(es[i].1);
    }
  }
}
