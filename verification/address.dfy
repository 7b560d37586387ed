/**
 * The address formatter of the locator (`_format_address_from_tags`): it turns
 * an OpenStreetMap tag map into one display line.
 */
module Address {
  import opened Text

  /** OpenStreetMap tags of an element: free-form key to value. */
  type Tags = map<string, string>

  /** Structured keys, in the order their values appear in the address line. */
  const PrimaryKeys: seq<string> := ["addr:street", "addr:housenumber", "addr:city", "addr:postcode", "addr:country"]

  /** Keys consulted only when no structured key has a value. */
  const FallbackKeys: seq<string> := ["street", "city", "village", "town"]

  const Separator: string := ", "

  /** `tags.get(k)` is truthy: the key is present with a non-empty value. */
  predicate HasValue(tags: Tags, k: string) {
    k in tags && tags[k] != []
  }

  /** Some key of `keys` has a value. */
  predicate AnyValue(tags: Tags, keys: seq<string>) {
    exists i | 0 <= i < |keys| :: HasValue(tags, keys[i])
  }

  /** The values of those `keys` that have one, in the order of `keys`. */
  function Collect(tags: Tags, keys: seq<string>): (parts: seq<string>)
    ensures forall i | 0 <= i < |parts| :: parts[i] != []
    ensures parts == [] <==> !AnyValue(tags, keys)
    ensures |parts| <= |keys|
  {
    if keys == [] then []
    else
      var rest := Collect(tags, keys[1..]);
      assert AnyValue(tags, keys) <==> HasValue(tags, keys[0]) || AnyValue(tags, keys[1..]) by {
        if AnyValue(tags, keys[1..]) {
          var i :| 0 <= i < |keys[1..]| && HasValue(tags, keys[1..][i]);
          assert HasValue(tags, keys[i + 1]);
        }
      }
      (if HasValue(tags, keys[0]) then [tags[keys[0]]] else []) + rest
  }

  /** The line shown for an element's address: the structured values joined by
      ", ", or, when there are none, the fallback values joined the same way. */
  function FormatAddress(tags: Tags): (r: string)
    ensures r == [] <==> !AnyValue(tags, PrimaryKeys) && !AnyValue(tags, FallbackKeys)
    ensures AnyValue(tags, PrimaryKeys) ==> tags[FirstKeyWithValue(tags, PrimaryKeys)] <= r
    ensures AnyValue(tags, PrimaryKeys) ==> r == Join(Collect(tags, PrimaryKeys), Separator)
    ensures !AnyValue(tags, PrimaryKeys) ==> r == Join(Collect(tags, FallbackKeys), Separator)
  {
    if tags == map[] then
      assert !HasValue(tags, PrimaryKeys[0]);
      []
    else
      var primary := Collect(tags, PrimaryKeys);
      var parts := if primary == [] then Collect(tags, FallbackKeys) else primary;
      JoinEmptyIff(parts, Separator);
      if AnyValue(tags, PrimaryKeys) then
        CollectStartsWithFirst(tags, PrimaryKeys);
        Join(parts, Separator)
      else
        Join(parts, Separator)
  }

  /** The first key of `keys` that has a value. */
  function FirstKeyWithValue(tags: Tags, keys: seq<string>): (k: string)
    requires AnyValue(tags, keys)
    ensures HasValue(tags, k) && k in keys
  {
    if HasValue(tags, keys[0]) then keys[0]
    else
      assert AnyValue(tags, keys[1..]) by {
        var i :| 0 <= i < |keys| && HasValue(tags, keys[i]);
        assert keys[1..][i - 1] == keys[i];
      }
      FirstKeyWithValue(tags, keys[1..])
  }

  /** The collected parts start with the value of the first key that has one. */
  lemma {:induction false} CollectStartsWithFirst(tags: Tags, keys: seq<string>)
    requires AnyValue(tags, keys)
    ensures Collect(tags, keys) != [] && Collect(tags, keys)[0] == tags[FirstKeyWithValue(tags, keys)]
    decreases |keys|
  {
    if !HasValue(tags, keys[0]) {
      assert AnyValue(tags, keys[1..]) by {
        var i :| 0 <= i < |keys| && HasValue(tags, keys[i]);
        assert keys[1..][i - 1] == keys[i];
      }
      CollectStartsWithFirst(tags, keys[1..]);
    }
  }

  /** A single key contributes its value when it has one, and nothing otherwise. */
  lemma CollectOne(tags: Tags, k: string)
    ensures Collect(tags, [k]) == if HasValue(tags, k) then [tags[k]] else []
  {
    assert [k][1..] == [];
  }

  /** Collecting over two key lists one after the other gives the two results
      one after the other: the parts follow the order of the key list. */
  lemma {:induction false} CollectAppend(tags: Tags, a: seq<string>, b: seq<string>)
    ensures Collect(tags, a + b) == Collect(tags, a) + Collect(tags, b)
    decreases |a|
  {
    if a == [] {
      assert a + b == b;
    } else {
      assert (a + b)[1..] == a[1..] + b;
      CollectAppend(tags, a[1..], b);
    }
  }

  /** Two tag maps give the same value (or none) for every key of `keys`. */
  predicate AgreeOn(tags: Tags, other: Tags, keys: seq<string>) {
    forall i | 0 <= i < |keys| :: (keys[i] in tags <==> keys[i] in other) && (keys[i] in tags ==> tags[keys[i]] == other[keys[i]])
  }

  lemma {:induction false} CollectAgree(tags: Tags, other: Tags, keys: seq<string>)
    requires AgreeOn(tags, other, keys)
    ensures Collect(tags, keys) == Collect(other, keys)
    decreases |keys|
  {
    if keys != [] {
      assert AgreeOn(tags, other, keys[1..]) by {
        forall i | 0 <= i < |keys[1..]|
          ensures (keys[1..][i] in tags <==> keys[1..][i] in other) && (keys[1..][i] in tags ==> tags[keys[1..][i]] == other[keys[1..][i]])
        {
          assert keys[1..][i] == keys[i + 1];
        }
      }
      CollectAgree(tags, other, keys[1..]);
    }
  }

  /** When a structured key has a value, the fallback keys are not consulted:
      any two tag maps that agree on the structured keys format alike. */
  lemma FallbackIgnoredWhenPrimaryPresent(tags: Tags, other: Tags)
    requires AnyValue(tags, PrimaryKeys)
    requires AgreeOn(tags, other, PrimaryKeys)
    ensures FormatAddress(tags) == FormatAddress(other)
  {
    CollectAgree(tags, other, PrimaryKeys);
    var i :| 0 <= i < |PrimaryKeys| && HasValue(tags, PrimaryKeys[i]);
    assert PrimaryKeys[i] in other;
  }

  /** Without structured values, only the fallback keys matter. */
  lemma OnlyFallbackWithoutPrimary(tags: Tags, other: Tags)
    requires !AnyValue(tags, PrimaryKeys) && !AnyValue(other, PrimaryKeys)
    requires AgreeOn(tags, other, FallbackKeys)
    ensures FormatAddress(tags) == FormatAddress(other)
  {
    CollectAgree(tags, other, FallbackKeys);
  }
}
