/**
 * `LYCacheMetaData` and its `NSCoding` conformance. A keyed archive is a
 * map from key to archived object; encoding a `nil` optional stores no
 * object under its key, so decoding that key yields `nil` again.
 *
 * The encoder writes four keys and the decoder reads the same four:
 * `stringEncoding` is neither written nor read, so every decoded record
 * has no string encoding. `EncodeFixed`/`DecodeFixed` carry it as well.
 */
module CacheMetadata {
  import opened Common

  /** A `String.Encoding`, by its raw value. */
  type Encoding = nat

  datatype Metadata = Metadata(
    version: int,
    sensitiveDataString: Option<string>,
    stringEncoding: Option<Encoding>,
    creationDate: Option<int>,          // seconds on the same clock as `now`
    appVersionString: Option<string>)

  /** The objects an archive can hold under a key. */
  datatype Archived = AInt(i: int) | AString(s: string) | ADate(t: int) | AEncoding(e: Encoding)

  type Archive = map<string, Archived>

  /** `init?(coder:)`'s outcome: the forced cast `as! Int` on `version` traps when it fails. */
  datatype Decoded = Decoded(m: Metadata) | DecodeTrap

  /** Store `o` under `key`, or nothing when it is `nil`. */
  function Put(a: Archive, key: string, o: Option<Archived>): (a': Archive)
    ensures o.None? ==> a' == a
    ensures o.Some? ==> a' == a[key := o.value]
  {
    match o
    case None => a
    case Some(v) => a[key := v]
  }

  function MapOpt<T, U>(o: Option<T>, f: T -> U): Option<U>
  {
    match o
    case None => None
    case Some(x) => Some(f(x))
  }

  /** `encode(with:)`: four keys; `stringEncoding` is not among them. */
  function Encode(m: Metadata): (a: Archive)
    ensures a.Keys <= {"version", "sensitiveDataString", "creationDate", "appVersionString"}
    ensures "version" in a && a["version"] == AInt(m.version)
    ensures ("sensitiveDataString" in a <==> m.sensitiveDataString.Some?)
    ensures ("creationDate" in a <==> m.creationDate.Some?)
    ensures ("appVersionString" in a <==> m.appVersionString.Some?)
  {
    var a0 := map["version" := AInt(m.version)];
    var a1 := Put(a0, "sensitiveDataString", MapOpt(m.sensitiveDataString, s => AString(s)));
    var a2 := Put(a1, "creationDate", MapOpt(m.creationDate, t => ADate(t)));
    Put(a2, "appVersionString", MapOpt(m.appVersionString, s => AString(s)))
  }

  /** `decodeObject(forKey:) as? String`. */
  function GetString(a: Archive, key: string): (s: Option<string>)
    ensures s.Some? <==> key in a && a[key].AString?
    ensures s.Some? ==> a[key] == AString(s.value)
  {
    if key in a && a[key].AString? then Some(a[key].s) else None
  }

  /** `decodeObject(forKey:) as? Date`. */
  function GetDate(a: Archive, key: string): (t: Option<int>)
    ensures t.Some? <==> key in a && a[key].ADate?
    ensures t.Some? ==> a[key] == ADate(t.value)
  {
    if key in a && a[key].ADate? then Some(a[key].t) else None
  }

  /** `init?(coder:)`: traps when `version` is missing or not an integer; never reads an encoding. */
  function Decode(a: Archive): (d: Decoded)
    ensures d.DecodeTrap? <==> !("version" in a && a["version"].AInt?)
    ensures d.Decoded? ==> d.m.version == a["version"].i && d.m.stringEncoding.None?
    ensures d.Decoded? ==> d.m.sensitiveDataString == GetString(a, "sensitiveDataString")
    ensures d.Decoded? ==> d.m.creationDate == GetDate(a, "creationDate")
    ensures d.Decoded? ==> d.m.appVersionString == GetString(a, "appVersionString")
  {
    if "version" in a && a["version"].AInt? then
      Decoded(Metadata(a["version"].i, GetString(a, "sensitiveDataString"), None,
                       GetDate(a, "creationDate"), GetString(a, "appVersionString")))
    else DecodeTrap
  }

  /** Decoding an encoded record gives back every field but the string encoding, which is lost. */
  lemma DecodeEncode(m: Metadata)
    ensures Decode(Encode(m)) == Decoded(m.(stringEncoding := None))
  {
    var a := Encode(m);
    assert GetString(a, "sensitiveDataString") == m.sensitiveDataString;
    assert GetDate(a, "creationDate") == m.creationDate;
    assert GetString(a, "appVersionString") == m.appVersionString;
  }

  /** The round trip fails exactly for records that carry an encoding. */
  lemma EncodingLostInRoundTrip(m: Metadata)
    ensures Decode(Encode(m)) == Decoded(m) <==> m.stringEncoding.None?
  {
    DecodeEncode(m);
  }

  // The coder with the fifth key.

  /** `encode(with:)` with `stringEncoding` stored under its own key. */
  function EncodeFixed(m: Metadata): (a: Archive)
    ensures ("stringEncoding" in a <==> m.stringEncoding.Some?)
    ensures m.stringEncoding.Some? ==> a["stringEncoding"] == AEncoding(m.stringEncoding.value)
    ensures a - {"stringEncoding"} == Encode(m)
  {
    Put(Encode(m), "stringEncoding", MapOpt(m.stringEncoding, e => AEncoding(e)))
  }

  /** `init?(coder:)` reading the fifth key back. */
  function DecodeFixed(a: Archive): (d: Decoded)
    ensures d.DecodeTrap? <==> Decode(a).DecodeTrap?
    ensures d.Decoded? ==> d.m.(stringEncoding := None) == Decode(a).m
    ensures d.Decoded? ==> (d.m.stringEncoding.Some? <==> "stringEncoding" in a && a["stringEncoding"].AEncoding?)
  {
    match Decode(a)
    case DecodeTrap => DecodeTrap
    case Decoded(m) =>
      var e := if "stringEncoding" in a && a["stringEncoding"].AEncoding? then Some(a["stringEncoding"].e) else None;
      Decoded(m.(stringEncoding := e))
  }

  /** With the fifth key the coder round-trips every record. */
  lemma DecodeFixedEncodeFixed(m: Metadata)
    ensures DecodeFixed(EncodeFixed(m)) == Decoded(m)
  {
    var a := EncodeFixed(m);
    assert "version" in a && a["version"] == AInt(m.version);
    assert GetString(a, "sensitiveDataString") == m.sensitiveDataString;
    assert GetDate(a, "creationDate") == m.creationDate;
    assert GetString(a, "appVersionString") == m.appVersionString;
  }
}
