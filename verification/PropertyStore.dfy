/**
 * The native property map as the binding sees it: every key holds an ordered
 * list of text values. Setting a key replaces its whole list with one value,
 * appending adds one value at the end, and removing deletes the key. Keys and
 * values cross into the native library as C strings, so neither may contain
 * a NUL character (the binding unwraps the conversion and would panic).
 */
module PropertyStore {
  import opened Optional

  type Properties = map<string, seq<string>>

  /** A string that `CString::new` accepts. */
  predicate NoNul(s: string) {
    '\0' !in s
  }

  /** A property key: any string the C side can receive. */
  type Key = s: string | NoNul(s) witness ""

  /** `get_property`: the values under `key`; a key that is not set reads as no values. */
  function GetProperty(props: Properties, key: Key): (r: seq<string>)
    ensures key !in props ==> r == []
    ensures key in props ==> r == props[key]
  {
    if key in props then props[key] else []
  }

  /** `get_first_property`: the first value under `key`, if there is one. */
  function GetFirstProperty(props: Properties, key: Key): (r: Option<string>)
    ensures r.None? <==> GetProperty(props, key) == []
    ensures r.Some? ==> r.value == GetProperty(props, key)[0]
  {
    var values := GetProperty(props, key);
    if |values| > 0 then Some(values[0]) else None
  }

  /** `set_property`: `key` now holds exactly `value`; no other key changes. */
  function SetProperty(props: Properties, key: Key, value: string): (r: Properties)
    requires NoNul(value)
    ensures key in r && GetProperty(r, key) == [value]
    ensures r - {key} == props - {key}
  {
    props[key := [value]]
  }

  /** `set_append_property`: `value` is added after the existing values of `key`. */
  function SetAppendProperty(props: Properties, key: Key, value: string): (r: Properties)
    requires NoNul(value)
    ensures GetProperty(r, key) == GetProperty(props, key) + [value]
    ensures r - {key} == props - {key}
  {
    props[key := GetProperty(props, key) + [value]]
  }

  /** `remove_property`: `key` is gone; no other key changes. */
  function RemoveProperty(props: Properties, key: Key): (r: Properties)
    ensures key !in r && GetProperty(r, key) == []
    ensures r - {key} == props - {key}
  {
    props - {key}
  }

  /** What is set is what is read back first; removing leaves nothing to read. */
  lemma SetThenGetFirst(props: Properties, key: Key, value: string)
    requires NoNul(value)
    ensures GetFirstProperty(SetProperty(props, key, value), key) == Some(value)
    ensures GetFirstProperty(RemoveProperty(props, key), key) == None
  {
  }

  /** Appending never hides an existing first value, and supplies one when there was none. */
  lemma AppendKeepsFirst(props: Properties, key: Key, value: string)
    requires NoNul(value)
    ensures GetFirstProperty(SetAppendProperty(props, key, value), key)
         == (if GetFirstProperty(props, key).Some? then GetFirstProperty(props, key) else Some(value))
  {
  }

  /** Operations on one key do not affect what another key reads. */
  lemma OtherKeysUnaffected(props: Properties, key: Key, other: Key, value: string)
    requires NoNul(value) && key != other
    ensures GetProperty(SetProperty(props, key, value), other) == GetProperty(props, other)
    ensures GetProperty(SetAppendProperty(props, key, value), other) == GetProperty(props, other)
    ensures GetProperty(RemoveProperty(props, key), other) == GetProperty(props, other)
  {
    var s := SetProperty(props, key, value);
    var a := SetAppendProperty(props, key, value);
    var d := RemoveProperty(props, key);
    assert (other in s <==> other in props) && (other in s ==> s[other] == props[other]) by {
      assert other in s <==> other in s - {key};
    }
    assert (other in a <==> other in props) && (other in a ==> a[other] == props[other]) by {
      assert other in a <==> other in a - {key};
    }
    assert (other in d <==> other in props) && (other in d ==> d[other] == props[other]) by {
      assert other in d <==> other in d - {key};
      assert other in props <==> other in props - {key};
    }
  }
}
