/**
  The data the XML managers exchange: section values, the ordered
  dictionaries that hold them, the manager return codes, and the outcome of
  a call, which is either a return code or a Python exception that escapes.
 */
module XmlSections {
  import opened Wrappers

  /** What a dictionary entry holds: the raw text of a leaf section, an
      integer produced by coercion, a Python list of strings, or a nested
      dictionary. */
  datatype Value =
    | Text(text: string)
    | Number(number: int)
    | Tokens(tokens: seq<string>)
    | Section(entries: seq<(string, Value)>)

  /** A Python `dict` with string keys, in insertion order. */
  type Dict = seq<(string, Value)>

  /** The manager's return codes (`XmlManagerReturnCodes`). */
  datatype ReturnCode = XmlOk | XmlTagError | XmlValueError

  /** The Python exceptions a manager method can let escape. */
  datatype Exception =
    | KeyError(key: string)
    | TypeError
    | AttributeError

  /** How a call ends: it returns a code, or an exception escapes it. */
  datatype Outcome = Returned(code: ReturnCode) | Raised(exception: Exception)

  /** What the manager writes to its error log. */
  datatype LogEntry =
    | MissingSection(xmlFilename: string, tag: string)
    | ConversionFailed

  /** The keys of `d`, in order. */
  function Keys(d: Dict): seq<string>
  {
    if |d| == 0 then [] else [d[0].0] + Keys(d[1..])
  }

  /** No key occurs twice, as in every Python dict. */
  predicate UniqueKeys(d: Dict)
  {
    |d| == 0 || (d[0].0 !in Keys(d[1..]) && UniqueKeys(d[1..]))
  }

  /** `d[k]`, or `None` where Python raises `KeyError`. */
  function Lookup(d: Dict, k: string): Option<Value>
  {
    if |d| == 0 then None
    else if d[0].0 == k then Some(d[0].1)
    else Lookup(d[1..], k)
  }

  /** A lookup misses exactly when the key is absent. */
  lemma {:induction false} LookupMissesAbsentKey(d: Dict, k: string)
    ensures Lookup(d, k).None? <==> k !in Keys(d)
  {
    if |d| > 0 {
      LookupMissesAbsentKey(d[1..], k);
    }
  }

  /** A value found is one stored under `k`. */
  lemma {:induction false} LookupFound(d: Dict, k: string)
    requires Lookup(d, k).Some?
    ensures (k, Lookup(d, k).value) in d
  {
    if d[0].0 != k {
      LookupFound(d[1..], k);
      var j :| 0 <= j < |d| - 1 && d[1..][j] == (k, Lookup(d, k).value);
      assert d[j + 1] == d[1..][j];
    }
  }

  /** The value found is the one of the first entry whose key is `k`. */
  lemma {:induction false} LookupFindsFirst(d: Dict, k: string, j: nat)
    requires j < |d| && d[j].0 == k && k !in Keys(d[..j])
    ensures Lookup(d, k) == Some(d[j].1)
  {
    if j > 0 {
      assert Keys(d[..j]) == [d[0].0] + Keys(d[..j][1..]);
      assert d[..j][1..] == d[1..][..j - 1];
      LookupFindsFirst(d[1..], k, j - 1);
    }
  }

  /** `d[k] = v`: an existing key keeps its position, a new key goes last. */
  function Set(d: Dict, k: string, v: Value): (r: Dict)
    ensures Lookup(r, k) == Some(v)
    ensures forall k' :: k' != k ==> Lookup(r, k') == Lookup(d, k')
    ensures Lookup(d, k).Some? ==> Keys(r) == Keys(d)
    ensures Lookup(d, k).None? ==> r == d + [(k, v)]
    ensures UniqueKeys(d) ==> UniqueKeys(r)
  {
    if |d| == 0 then
      [(k, v)]
    else if d[0].0 == k then
      var r := [(k, v)] + d[1..];
      assert r[1..] == d[1..];
      r
    else
      var rest := Set(d[1..], k, v);
      var r := [d[0]] + rest;
      assert r[1..] == rest;
      assert d == [d[0]] + d[1..];
      LookupMissesAbsentKey(rest, d[0].0);
      LookupMissesAbsentKey(d[1..], d[0].0);
      r
  }

  /** The mathematical map a dictionary stands for. */
  function ToMap(d: Dict): map<string, Value>
  {
    if |d| == 0 then map[] else ToMap(d[1..])[d[0].0 := d[0].1]
  }

  /** Lookup in the ordered dictionary agrees with lookup in its map. */
  lemma {:induction false} LookupAgreesWithMap(d: Dict, k: string)
    ensures Lookup(d, k).Some? <==> k in ToMap(d)
    ensures Lookup(d, k).Some? ==> ToMap(d)[k] == Lookup(d, k).value
  {
    if |d| > 0 && d[0].0 != k {
      LookupAgreesWithMap(d[1..], k);
    }
  }

  /** Assignment into the dictionary is map update. */
  lemma SetIsMapUpdate(d: Dict, k: string, v: Value)
    ensures ToMap(Set(d, k, v)) == ToMap(d)[k := v]
  {
    var a := ToMap(Set(d, k, v));
    var b := ToMap(d)[k := v];
    forall k' ensures (k' in a <==> k' in b) && (k' in a ==> a[k'] == b[k'])
    {
      LookupAgreesWithMap(Set(d, k, v), k');
      LookupAgreesWithMap(d, k');
    }
  }
}
