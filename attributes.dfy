/**
 * Attribute lookup on a chain event: `event.event.attributes.find(attr =>
 * attr.key === k)?.value`, followed by JavaScript's truthiness test `!value`.
 */
module Attributes {
  import opened Optional

  /** One key/value attribute of an event; the value is taken as already decoded text. */
  datatype Attribute = Attribute(key: string, value: string)

  /** `i` is the position of the first attribute whose key is `key`. */
  predicate FirstMatch(attrs: seq<Attribute>, key: string, i: int) {
    0 <= i < |attrs| && attrs[i].key == key &&
    forall j :: 0 <= j < i ==> attrs[j].key != key
  }

  /** The value of the first attribute keyed `key`, or None when no attribute has that key. */
  function Find(attrs: seq<Attribute>, key: string): (r: Option<string>)
    ensures r.None? <==> forall i :: 0 <= i < |attrs| ==> attrs[i].key != key
    ensures r.Some? ==> exists i :: FirstMatch(attrs, key, i) && attrs[i].value == r.value
  {
    if |attrs| == 0 then None
    else if attrs[0].key == key then
      assert FirstMatch(attrs, key, 0);
      Some(attrs[0].value)
    else
      var r := Find(attrs[1..], key);
      if r.Some? then
        var i :| FirstMatch(attrs[1..], key, i) && attrs[1..][i].value == r.value;
        assert FirstMatch(attrs, key, i + 1);
        r
      else
        assert forall i :: 1 <= i < |attrs| ==> attrs[i].key == attrs[1..][i - 1].key;
        r
  }

  /** JavaScript truthiness of an optional string: `undefined` and `""` are falsy. */
  predicate Truthy(v: Option<string>) {
    v.Some? && v.value != ""
  }

  /** Some attribute has key `key`, and the first such attribute's value is `v`. */
  ghost predicate FirstValue(attrs: seq<Attribute>, key: string, v: string) {
    exists i :: FirstMatch(attrs, key, i) && attrs[i].value == v
  }

  /** Some attribute has key `key`, and the first such attribute's value is not empty. */
  ghost predicate Present(attrs: seq<Attribute>, key: string) {
    exists i :: FirstMatch(attrs, key, i) && attrs[i].value != ""
  }

  lemma FirstMatchUnique(attrs: seq<Attribute>, key: string, i: int, j: int)
    requires FirstMatch(attrs, key, i) && FirstMatch(attrs, key, j)
    ensures i == j
  {
  }

  /**
   * `!value` after the lookup is false exactly when the first attribute with
   * the key exists and has a non-empty value, and that value is the one read.
   */
  lemma TruthyFind(attrs: seq<Attribute>, key: string)
    ensures Truthy(Find(attrs, key)) <==> Present(attrs, key)
    ensures Find(attrs, key).Some? ==> FirstValue(attrs, key, Find(attrs, key).value)
  {
    var r := Find(attrs, key);
    if r.Some? {
      var i :| FirstMatch(attrs, key, i) && attrs[i].value == r.value;
      if Present(attrs, key) {
        var j :| FirstMatch(attrs, key, j) && attrs[j].value != "";
        FirstMatchUnique(attrs, key, i, j);
      }
    }
  }
}
