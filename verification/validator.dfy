/** The format check for a knowledge response `{argument, evidence}`. */
module KnowledgeValidator {
  import opened Wrappers
  import opened Text

  /** The Python values the check distinguishes: strings, lists, and everything else. */
  datatype PyValue = Str(s: string) | List(items: seq<PyValue>) | Other

  /** One entry of a dict; a dict is its entries in insertion order. Nothing here
      keeps keys distinct: a list with a repeated key is not a dict, and the model
      says nothing about one. */
  datatype Entry = Entry(key: string, value: PyValue)

  datatype Validated = Validated(argument: string, evidence: seq<string>)

  datatype Error = ValueError | TypeError

  /** `d[key]`, if present. */
  function Lookup(d: seq<Entry>, key: string): (v: Option<PyValue>)
    ensures v.None? <==> forall i :: 0 <= i < |d| ==> d[i].key != key
  {
    if |d| == 0 then None
    else if d[0].key == key then Some(d[0].value)
    else Lookup(d[1..], key)
  }

  /** A list all of whose items are strings. */
  predicate IsStringList(v: PyValue) {
    v.List? && forall i :: 0 <= i < |v.items| ==> v.items[i].Str?
  }

  /** `validate_format`: both keys must be present (else ValueError, checked first),
      `argument` a string and `evidence` a list of strings (else TypeError); the
      result keeps only these two keys with every string stripped. */
  function ValidateFormat(response: seq<Entry>): (r: Result<Validated, Error>)
    ensures r == Err(ValueError) <==> Lookup(response, "argument").None? || Lookup(response, "evidence").None?
    ensures r == Err(TypeError) <==>
      && Lookup(response, "argument").Some? && Lookup(response, "evidence").Some?
      && (!Lookup(response, "argument").value.Str? || !IsStringList(Lookup(response, "evidence").value))
    ensures r.Ok? ==>
      var items := Lookup(response, "evidence").value.items;
      && r.value.argument == Strip(Lookup(response, "argument").value.s)
      && |r.value.evidence| == |items|
      && forall i :: 0 <= i < |items| ==> r.value.evidence[i] == Strip(items[i].s)
  {
    var argument := Lookup(response, "argument");
    var evidence := Lookup(response, "evidence");
    if argument.None? || evidence.None? then Err(ValueError)
    else if !argument.value.Str? then Err(TypeError)
    else if !IsStringList(evidence.value) then Err(TypeError)
    else
      var items := evidence.value.items;
      Ok(Validated(Strip(argument.value.s), seq(|items|, i requires 0 <= i < |items| => Strip(items[i].s))))
  }

  /** The validated response as the dict the function returns. */
  function ToDict(v: Validated): (d: seq<Entry>)
    ensures |d| == 2 && d[0].key == "argument" && d[1].key == "evidence"
  {
    [Entry("argument", Str(v.argument)),
     Entry("evidence", List(seq(|v.evidence|, i requires 0 <= i < |v.evidence| => Str(v.evidence[i]))))]
  }

  /** Validating an already validated response changes nothing, because stripping is idempotent. */
  lemma ValidateFormatIdempotent(response: seq<Entry>)
    requires ValidateFormat(response).Ok?
    ensures ValidateFormat(ToDict(ValidateFormat(response).value)) == ValidateFormat(response)
  {
    var v := ValidateFormat(response).value;
    var items := Lookup(response, "evidence").value.items;
    StripIdempotent(Lookup(response, "argument").value.s);
    forall i | 0 <= i < |items| ensures Strip(v.evidence[i]) == v.evidence[i] {
      StripIdempotent(items[i].s);
    }
    ValidatedIsFixedPoint(v);
  }

  /** A validated value whose strings are already stripped validates to itself. */
  lemma ValidatedIsFixedPoint(v: Validated)
    requires Strip(v.argument) == v.argument
    requires forall i :: 0 <= i < |v.evidence| ==> Strip(v.evidence[i]) == v.evidence[i]
    ensures ValidateFormat(ToDict(v)) == Ok(v)
  {
    var d := ToDict(v);
    assert Lookup(d, "argument") == Some(Str(v.argument));
    assert Lookup(d, "evidence") == Some(d[1].value);
    var again := ValidateFormat(d).value;
    assert again.evidence == v.evidence;
  }
}
