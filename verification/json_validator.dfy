/**
 * `LYNetworkUtils.validateJSON(_:validator:)`: checks a decoded JSON value
 * against a validator of the same shape.
 *
 * Dictionaries are modelled as field lists; the keys of the validator are
 * visited in list order (Swift leaves a dictionary's key order
 * unspecified). The Objective-C runtime test `isKind(of:)` is an
 * uninterpreted relation `isKind(value, validator)`, passed in.
 */
module JsonValidator {

  datatype Json =
    | JNull                                  // NSNull
    | JBool(b: bool)
    | JNum(n: int)
    | JStr(s: string)
    | JArr(items: seq<Json>)
    | JObj(fields: seq<(string, Json)>)

  /** The source's `is Dictionary<…> || is Array<…>` test on a looked-up value. */
  predicate IsContainer(j: Json) {
    j.JObj? || j.JArr?
  }

  /** Dictionary lookup: the position of `key` in `fields`, or -1 (`nil`). */
  function FindKey(fields: seq<(string, Json)>, key: string): (i: int)
    ensures -1 <= i < |fields|
    ensures i >= 0 ==> fields[i].0 == key
    ensures i < 0 ==> forall k :: 0 <= k < |fields| ==> fields[k].0 != key
  {
    if |fields| == 0 then -1
    else if fields[0].0 == key then 0
    else
      var i := FindKey(fields[1..], key);
      if i < 0 then -1 else i + 1
  }

  /**
   * The validator's answer. `Crash` is the forced cast
   * `firstObject as! Dictionary` failing on an array validator whose
   * first element is not a dictionary.
   */
  datatype Verdict = Valid | Invalid | Crash

  /** `validateJSON(jsonObject, validator:)`. */
  function Validate(j: Json, v: Json, isKind: (Json, Json) -> bool): Verdict
    decreases j, 1
  {
    if j.JObj? && v.JObj? then
      ValidateFields(j, v.fields, 0, isKind)
    else if j.JArr? && v.JArr? then
      if |v.items| == 0 then Valid
      else if !v.items[0].JObj? then Crash
      else ValidateItems(j, 0, v.items[0], isKind)
    else if isKind(j, v) then Valid
    else Invalid
  }

  /** The `for key in validator.keys` loop, from the `i`-th validator key on. */
  function ValidateFields(j: Json, vfields: seq<(string, Json)>, i: nat, isKind: (Json, Json) -> bool): Verdict
    requires j.JObj?
    requires i <= |vfields|
    decreases j, 0, |vfields| - i
  {
    if i == |vfields| then Valid
    else
      var format := vfields[i].1;
      var k := FindKey(j.fields, vfields[i].0);
      if k >= 0 && IsContainer(j.fields[k].1) then
        var r := Validate(j.fields[k].1, format, isKind);
        if r != Valid then r else ValidateFields(j, vfields, i + 1, isKind)
      else if !isKind(j, format) || !(k >= 0 && j.fields[k].1 == JNull) then
        Invalid
      else ValidateFields(j, vfields, i + 1, isKind)
  }

  /** The `for item in jsonList` loop, from the `i`-th item on. */
  function ValidateItems(j: Json, i: nat, format: Json, isKind: (Json, Json) -> bool): Verdict
    requires j.JArr?
    requires i <= |j.items|
    decreases j, 0, |j.items| - i
  {
    if i == |j.items| then Valid
    else
      var r := Validate(j.items[i], format, isKind);
      if r != Valid then r else ValidateItems(j, i + 1, format, isKind)
  }

  // An independent, declarative statement of what an accepted value is.

  ghost predicate Conforms(j: Json, v: Json, isKind: (Json, Json) -> bool)
    decreases j, 1
  {
    if j.JObj? && v.JObj? then
      forall i :: 0 <= i < |v.fields| ==> FieldConforms(j, v.fields[i], isKind)
    else if j.JArr? && v.JArr? then
      |v.items| == 0 || (v.items[0].JObj? && forall i :: 0 <= i < |j.items| ==> Conforms(j.items[i], v.items[0], isKind))
    else isKind(j, v)
  }

  /**
   * One validator key is satisfied when the value under it is a container
   * that conforms to the key's format, or when the value is `NSNull` and
   * the whole dictionary passes `isKind` against the format. A missing
   * key is never satisfied.
   */
  ghost predicate FieldConforms(j: Json, entry: (string, Json), isKind: (Json, Json) -> bool)
    requires j.JObj?
    decreases j, 0
  {
    var k := FindKey(j.fields, entry.0);
    if k >= 0 && IsContainer(j.fields[k].1) then Conforms(j.fields[k].1, entry.1, isKind)
    else k >= 0 && j.fields[k].1 == JNull && isKind(j, entry.1)
  }

  /** `validateJSON` answers `true` exactly for the values that conform. */
  lemma {:induction false} ValidateIffConforms(j: Json, v: Json, isKind: (Json, Json) -> bool)
    ensures Validate(j, v, isKind) == Valid <==> Conforms(j, v, isKind)
    decreases j, 1
  {
    if j.JObj? && v.JObj? {
      FieldsIffConform(j, v.fields, 0, isKind);
    } else if j.JArr? && v.JArr? {
      if |v.items| > 0 && v.items[0].JObj? {
        ItemsIffConform(j, 0, v.items[0], isKind);
      }
    }
  }

  lemma {:induction false} FieldsIffConform(j: Json, vfields: seq<(string, Json)>, i: nat, isKind: (Json, Json) -> bool)
    requires j.JObj? && i <= |vfields|
    ensures ValidateFields(j, vfields, i, isKind) == Valid <==>
      forall n :: i <= n < |vfields| ==> FieldConforms(j, vfields[n], isKind)
    decreases j, 0, |vfields| - i
  {
    if i < |vfields| {
      var k := FindKey(j.fields, vfields[i].0);
      if k >= 0 && IsContainer(j.fields[k].1) {
        ValidateIffConforms(j.fields[k].1, vfields[i].1, isKind);
      }
      FieldsIffConform(j, vfields, i + 1, isKind);
    }
  }

  lemma {:induction false} ItemsIffConform(j: Json, i: nat, format: Json, isKind: (Json, Json) -> bool)
    requires j.JArr? && i <= |j.items|
    ensures ValidateItems(j, i, format, isKind) == Valid <==>
      forall n :: i <= n < |j.items| ==> Conforms(j.items[n], format, isKind)
    decreases j, 0, |j.items| - i
  {
    if i < |j.items| {
      ValidateIffConforms(j.items[i], format, isKind);
      ItemsIffConform(j, i + 1, format, isKind);
    }
  }

  /** An object validator with no keys accepts every object. */
  lemma EmptyObjectValidatorAccepts(j: Json, isKind: (Json, Json) -> bool)
    requires j.JObj?
    ensures Validate(j, JObj([]), isKind) == Valid
  {
  }

  /** A validator key with a scalar value, or missing from the object, fails the whole object. */
  lemma {:induction false} ScalarOrMissingKeyRejects(j: Json, v: Json, n: nat, isKind: (Json, Json) -> bool)
    requires j.JObj? && v.JObj? && n < |v.fields|
    requires var k := FindKey(j.fields, v.fields[n].0);
      k < 0 || (!IsContainer(j.fields[k].1) && j.fields[k].1 != JNull)
    ensures Validate(j, v, isKind) != Valid
  {
    ValidateIffConforms(j, v, isKind);
  }

  /** Mismatched shapes are decided by `isKind` alone. */
  lemma MismatchedShapesUseIsKind(j: Json, v: Json, isKind: (Json, Json) -> bool)
    requires !(j.JObj? && v.JObj?) && !(j.JArr? && v.JArr?)
    ensures Validate(j, v, isKind) == Valid <==> isKind(j, v)
  {
  }
}
