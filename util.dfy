/** Payload cleansing and log redaction (src/util.ts). */
module Util {
  import opened Wrappers
  import opened Strings
  import opened Json
  import opened Constants

  /** A key is sensitive when its lower-case form is one of `SensitiveKeys`. */
  predicate IsSensitive(key: string)
  {
    ToLower(key) in SensitiveKeys
  }

  /** `ToLower(s)` is `w` when it is so code unit by code unit. */
  lemma LowersTo(s: string, w: string)
    requires |s| == |w| && forall i :: 0 <= i < |s| ==> LowerChar(s[i]) == w[i]
    ensures ToLower(s) == w
  {
  }

  /** The credential fields of a login request are sensitive, whatever their case. */
  lemma CredentialKeysAreSensitive()
    ensures IsSensitive("idToken") && IsSensitive("authToken") && IsSensitive("token")
  {
    LowersTo("idToken", "idtoken");
    LowersTo("authToken", "authtoken");
    LowersTo("token", "token");
  }

  /** A key that lower-cases to a word outside `SensitiveKeys` is not sensitive. */
  lemma NotSensitive(key: string, lower: string)
    requires |key| == |lower| && forall i :: 0 <= i < |key| ==> LowerChar(key[i]) == lower[i]
    requires lower !in SensitiveKeys
    ensures !IsSensitive(key)
  {
    LowersTo(key, lower);
  }

  /** The attributes that identify a login row are not sensitive. */
  lemma RowKeysAreNotSensitive()
    ensures !IsSensitive("id") && !IsSensitive("sk")
  {
    NotSensitive("id", "id");
    NotSensitive("sk", "sk");
  }

  /** Array indices ("0", "1", ...) are never sensitive keys. */
  lemma {:induction false} IndexKeyNotSensitive(i: nat)
    ensures !IsSensitive(IntText(i))
  {
    var t := NatText(i);
    assert IntText(i) == t;
    assert ToLower(t)[0] == LowerChar(t[0]) == t[0];
    forall w | w in SensitiveKeys ensures ToLower(t) != w {
      assert w[0] !in "0123456789";
    }
  }

  /** `cleanseObject`: keeps the string, number and boolean attributes whose key
      is not sensitive, each with its value unchanged. */
  function Cleanse(obj: Attrs): (r: Attrs)
    ensures r.Keys <= obj.Keys
    ensures forall k :: k in r ==> !IsSensitive(k) && IsScalar(r[k]) && r[k] == obj[k]
    ensures forall k :: k in obj && !IsSensitive(k) && IsScalar(obj[k]) ==> k in r
  {
    map k | k in obj && !IsSensitive(k) && IsScalar(obj[k]) :: obj[k]
  }

  /** Cleansing a cleansed object changes nothing. */
  lemma CleanseIdempotent(obj: Attrs)
    ensures Cleanse(Cleanse(obj)) == Cleanse(obj)
  {
  }

  /** Cleansing never lets the login request's credentials through. */
  lemma CleanseDropsCredentials(obj: Attrs)
    ensures "idToken" !in Cleanse(obj) && "authToken" !in Cleanse(obj)
    ensures "token" !in Cleanse(obj)
  {
    CredentialKeysAreSensitive();
  }

  /** How `stringifyRedacted` rewrites the value stored under `key`. */
  function RedactEntry(key: string, v: Value, stringify: Value -> string): Value
    decreases v, 1
  {
    if IsSensitive(key) then
      if v.Arr? then Arr([Str(RedactedMarker)]) else Str(RedactedMarker)
    else if IsContainer(v) then
      Str(stringify(RedactTree(v, stringify)))
    else
      v
  }

  /** The copy that `stringifyRedacted` serialises: every entry of an object or
      array rewritten by `RedactEntry` (array entries under their index keys). */
  function RedactTree(v: Value, stringify: Value -> string): Value
    decreases v, 0
  {
    match v
    case Obj(f) => Obj(map k | k in f :: RedactEntry(k, f[k], stringify))
    case Arr(items) =>
      Arr(seq(|items|, i requires 0 <= i < |items| => RedactEntry(IntText(i), items[i], stringify)))
    case _ => v
  }

  /** A value with no nested structure left: the only array it may hold is
      the redaction marker list. */
  predicate Flat(v: Value)
  {
    match v
    case Obj(f) => forall k :: k in f ==> FlatEntry(f[k])
    case Arr(items) => forall i :: 0 <= i < |items| ==> !IsContainer(items[i])
    case _ => true
  }

  predicate FlatEntry(v: Value)
  {
    !v.Obj? && (v.Arr? ==> v == Arr([Str(RedactedMarker)]))
  }

  /** Redaction keeps the key set of an object and hides every sensitive value:
      a sensitive array becomes the marker list, any other sensitive value the
      marker string; a nested container becomes its own redacted text; other
      values are unchanged. */
  lemma RedactObject(f: map<string, Value>, stringify: Value -> string)
    ensures RedactTree(Obj(f), stringify).Obj?
    ensures RedactTree(Obj(f), stringify).fields.Keys == f.Keys
    ensures forall k :: k in f && IsSensitive(k) ==>
      RedactTree(Obj(f), stringify).fields[k] ==
        (if f[k].Arr? then Arr([Str(RedactedMarker)]) else Str(RedactedMarker))
    ensures forall k :: k in f && !IsSensitive(k) && IsContainer(f[k]) ==>
      RedactTree(Obj(f), stringify).fields[k] == Str(stringify(RedactTree(f[k], stringify)))
    ensures forall k :: k in f && !IsSensitive(k) && !IsContainer(f[k]) ==>
      RedactTree(Obj(f), stringify).fields[k] == f[k]
  {
  }

  /** After redaction nothing nested is left. */
  lemma RedactFlat(v: Value, stringify: Value -> string)
    ensures Flat(RedactTree(v, stringify))
  {
    match v
    case Arr(items) =>
      var r := RedactTree(v, stringify);
      forall i | 0 <= i < |items| ensures !IsContainer(r.items[i]) {
        IndexKeyNotSensitive(i);
        assert r.items[i] == RedactEntry(IntText(i), items[i], stringify);
      }
    case _ =>
  }

  /** A flat value is left alone by redaction except that its sensitive
      entries become markers. */
  lemma RedactIdempotent(v: Value, stringify: Value -> string)
    ensures RedactTree(RedactTree(v, stringify), stringify) == RedactTree(v, stringify)
  {
    var r := RedactTree(v, stringify);
    RedactFlat(v, stringify);
    match r
    case Obj(g) =>
      var f := v.fields;
      assert RedactTree(r, stringify).fields == g by {
        forall k | k in g ensures RedactEntry(k, g[k], stringify) == g[k] {
          assert g[k] == RedactEntry(k, f[k], stringify);
        }
      }
    case Arr(items) =>
      var again := RedactTree(r, stringify);
      forall i | 0 <= i < |items| ensures again.items[i] == items[i] {
        IndexKeyNotSensitive(i);
        assert again.items[i] == RedactEntry(IntText(i), items[i], stringify);
      }
    case _ =>
  }

  /** What `stringifyRedacted` throws: `Object.keys(null)`. */
  datatype RedactFault = KeysOfNull

  /** `stringifyRedacted`: copies the value, overwrites the entries of the copy
      one key at a time (recursing into nested objects and arrays) and
      serialises the copy with `stringify` (JSON.stringify). */
  method StringifyRedacted(obj: Value, stringify: Value -> string) returns (r: Outcome<string, RedactFault>)
    ensures obj.Null? ==> r == Threw(KeysOfNull)
    ensures !obj.Null? ==> r == Returned(stringify(RedactTree(obj, stringify)))
    decreases obj
  {
    if obj.Null? {
      return Threw(KeysOfNull);
    }
    var ret := obj;
    match obj {
      case Obj(f) =>
        var out := f;
        var keys := f.Keys;
        while keys != {}
          invariant keys <= f.Keys && out.Keys == f.Keys
          invariant forall k :: k in f && k !in keys ==> out[k] == RedactEntry(k, f[k], stringify)
          invariant forall k :: k in keys ==> out[k] == f[k]
          decreases keys
        {
          var key :| key in keys;
          if IsSensitive(key) {
            if f[key].Arr? {
              out := out[key := Arr([Str(RedactedMarker)])];
            } else {
              out := out[key := Str(RedactedMarker)];
            }
          } else if IsContainer(f[key]) {
            var inner := StringifyRedacted(f[key], stringify);
            out := out[key := Str(inner.value)];
          }
          keys := keys - {key};
        }
        ret := Obj(out);
        assert out == RedactTree(obj, stringify).fields;
      case Arr(items) =>
        var out := items;
        var i := 0;
        while i < |items|
          invariant 0 <= i <= |items| && |out| == |items|
          invariant forall j :: 0 <= j < i ==> out[j] == RedactEntry(IntText(j), items[j], stringify)
          invariant forall j :: i <= j < |items| ==> out[j] == items[j]
        {
          if IsSensitive(IntText(i)) {
            if items[i].Arr? {
              out := out[i := Arr([Str(RedactedMarker)])];
            } else {
              out := out[i := Str(RedactedMarker)];
            }
          } else if IsContainer(items[i]) {
            var inner := StringifyRedacted(items[i], stringify);
            out := out[i := Str(inner.value)];
          }
          i := i + 1;
        }
        ret := Arr(out);
        assert out == RedactTree(obj, stringify).items;
      case _ =>
    }
    r := Returned(stringify(ret));
  }
}
