/**
 * Stored records as the API sees them: string-keyed documents whose values
 * are null, text, floats or store-assigned object ids; Python's `str()` of
 * those values; the serialization of a stored record for a response; and
 * the check of the shared authentication key.
 */
module Documents {

  datatype Option<+T> = None | Some(value: T)

  /**
   * A floating-point number, carried as the text `str()` gives for it.
   * Latitudes and longitudes are payload only: nothing computes with them.
   */
  datatype Float = Float(text: string)

  datatype Value =
    | VNull
    | VText(text: string)
    | VFloat(number: Float)
    | VObjectId(oid: nat)

  type Document = map<string, Value>

  /** The key under which the store keeps a record's identity. */
  const StoreIdKey := "_id"

  /** The key under which responses carry a record's identity. */
  const IdKey := "id"

  /** A lower-case hexadecimal digit. */
  function HexDigit(d: nat): (c: char)
    requires d < 16
    ensures '0' <= c <= '9' || 'a' <= c <= 'f'
  {
    if d < 10 then ('0' as int + d) as char else ('a' as int + d - 10) as char
  }

  /** `n` in lower-case hexadecimal, left-padded with zeros to at least `width` digits. */
  function Hex(n: nat, width: nat): (s: string)
    ensures |s| >= width
    ensures n > 0 ==> |s| > 0
    decreases n + width
  {
    if n == 0 && width == 0 then ""
    else Hex(n / 16, if width == 0 then 0 else width - 1) + [HexDigit(n % 16)]
  }

  /** Different numbers never print alike, so the text of an object id identifies it. */
  lemma {:induction false} HexInjective(n: nat, m: nat, width: nat)
    requires Hex(n, width) == Hex(m, width)
    ensures n == m
    decreases n + width
  {
    if n == 0 && width == 0 {
    } else if m == 0 && width == 0 {
    } else {
      var w := if width == 0 then 0 else width - 1;
      var s := Hex(n, width);
      assert s == Hex(n / 16, w) + [HexDigit(n % 16)];
      assert s == Hex(m / 16, w) + [HexDigit(m % 16)];
      assert s[..|s| - 1] == Hex(n / 16, w) && s[..|s| - 1] == Hex(m / 16, w);
      assert HexDigit(n % 16) == s[|s| - 1] == HexDigit(m % 16);
      HexInjective(n / 16, m / 16, w);
    }
  }

  /** The text of an object id: 24 hexadecimal digits for any id below 16^24, more beyond. */
  function ObjectIdText(oid: nat): (s: string)
    ensures |s| >= 24
  {
    Hex(oid, 24)
  }

  /** Python's `str()` of a value. */
  function Str(v: Value): string
  {
    match v
    case VNull => "None"
    case VText(t) => t
    case VFloat(f) => f.text
    case VObjectId(oid) => ObjectIdText(oid)
  }

  /** The document carries a store id that is not null. */
  predicate HasStoreId(d: Document)
  {
    StoreIdKey in d && d[StoreIdKey] != VNull
  }

  /**
   * Turns a stored record into the shape a response returns. A missing or
   * empty record comes back as it was; otherwise the store id is dropped and,
   * when it was not null, its text is written under "id". The argument is
   * never changed: the work happens on a copy.
   */
  function SerializeDoc(doc: Option<Document>): (r: Option<Document>)
    ensures r.None? <==> doc.None?
    ensures doc == Some(map[]) ==> r == doc
    ensures r.Some? ==> StoreIdKey !in r.value
    ensures doc.Some? ==> forall k :: k != StoreIdKey && k != IdKey ==>
              (k in r.value <==> k in doc.value) && (k in doc.value ==> r.value[k] == doc.value[k])
    ensures doc.Some? && HasStoreId(doc.value) ==>
              IdKey in r.value && r.value[IdKey] == VText(Str(doc.value[StoreIdKey]))
    ensures doc.Some? && !HasStoreId(doc.value) ==>
              (IdKey in r.value <==> IdKey in doc.value) &&
              (IdKey in doc.value ==> r.value[IdKey] == doc.value[IdKey])
  {
    match doc
    case None => None
    case Some(d) =>
      if d == map[] then doc
      else
        var id := if StoreIdKey in d then d[StoreIdKey] else VNull;
        var out := d - {StoreIdKey};
        Some(if id != VNull then out[IdKey := VText(Str(id))] else out)
  }

  /** Serializing twice is serializing once: the store id is already gone. */
  lemma SerializeDocIdempotent(doc: Option<Document>)
    ensures SerializeDoc(SerializeDoc(doc)) == SerializeDoc(doc)
  {
    var r := SerializeDoc(doc);
    if r.Some? && r.value != map[] {
      var d := r.value;
      assert SerializeDoc(r).value == d - {StoreIdKey};
      assert d - {StoreIdKey} == d;
    }
  }

  /**
   * Serializing removes the store id key when present and adds "id" only
   * when the store id is not null and "id" was absent, so the result is
   * never larger than the record.
   */
  lemma SerializeDocSize(d: Document)
    ensures |SerializeDoc(Some(d)).value| ==
              |d| - (if StoreIdKey in d then 1 else 0)
                  + (if HasStoreId(d) && IdKey !in d then 1 else 0)
    ensures |SerializeDoc(Some(d)).value| <= |d|
  {
  }

  /** The comparison of a provided authentication key with the configured one. */
  function VerifyKey(configured: string, provided: string): (ok: bool)
    ensures ok <==> provided == configured
  {
    provided == configured
  }

  /** The key used when the environment does not set one. */
  const DefaultAuthKey := "devkey"

  /** The configured authentication key: the environment's value if set, the default otherwise. */
  function ConfiguredAuthKey(environment: Option<string>): (key: string)
    ensures environment.None? ==> key == DefaultAuthKey
    ensures environment.Some? ==> key == environment.value
  {
    match environment
    case None => DefaultAuthKey
    case Some(k) => k
  }
}
