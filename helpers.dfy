/**
 * The small string and dictionary helpers of the Grafana integration:
 * renaming a key of a response in place, lower-casing the first letter of
 * every key, and encoding the spaces of a query.
 *
 * A Python dict is a `map` here; a dict's iteration order matters only to
 * `LowerKeys`, which therefore takes the dict's items in order.
 */
module Helpers {
  import opened Wrappers

  /** Python's `str.lower()` on one character, for ASCII letters. */
  function LowerChar(c: char): char {
    if 'A' <= c <= 'Z' then (c as int + 32) as char else c
  }

  /** `decapitalize`: lower-cases the first character and keeps the rest. */
  function Decapitalize(s: string): (r: string)
    ensures s == [] ==> r == []
    ensures |r| == |s|
    ensures s != [] ==> r[0] == LowerChar(s[0]) && !('A' <= r[0] <= 'Z')
    ensures s != [] ==> r[1..] == s[1..]
  {
    if s == [] then s else [LowerChar(s[0])] + s[1..]
  }

  /** Two keys collide under `Decapitalize` only when they differ at most in the case of their first letter. */
  lemma DecapitalizeCollision(s: string, t: string)
    requires Decapitalize(s) == Decapitalize(t)
    ensures |s| == |t|
    ensures s != [] ==> s[1..] == t[1..] && LowerChar(s[0]) == LowerChar(t[0])
  {
  }

  /** The item at index `i` is the last one whose key decapitalizes to the same key. */
  ghost predicate LastWithLoweredKey<V>(items: seq<(string, V)>, i: int)
    requires 0 <= i < |items|
  {
    forall j :: i < j < |items| ==> Decapitalize(items[j].0) != Decapitalize(items[i].0)
  }

  /**
   * `lower_keys`: builds a dict from `response.items()` with every key
   * decapitalized; when two keys collide, the later item wins, as in the
   * Python `dict(...)` constructor.
   */
  function LowerKeys<V>(items: seq<(string, V)>): (r: map<string, V>)
    ensures items != [] ==> Decapitalize(items[|items| - 1].0) in r
    ensures items != [] ==> r[Decapitalize(items[|items| - 1].0)] == items[|items| - 1].1
  {
    if items == [] then map[]
    else
      var n := |items| - 1;
      LowerKeys(items[..n])[Decapitalize(items[n].0) := items[n].1]
  }

  /** Some item's key decapitalizes to `k`. */
  ghost predicate IsLoweredKey<V>(items: seq<(string, V)>, k: string) {
    exists i :: 0 <= i < |items| && Decapitalize(items[i].0) == k
  }

  /** The keys of `LowerKeys(items)` are exactly the decapitalized keys of the items. */
  lemma {:induction false} LowerKeysKeys<V>(items: seq<(string, V)>)
    ensures forall k :: k in LowerKeys(items) <==> IsLoweredKey(items, k)
  {
    if items != [] {
      var n := |items| - 1;
      var init := items[..n];
      var key := Decapitalize(items[n].0);
      LowerKeysKeys(init);
      var prev := LowerKeys(init);
      assert LowerKeys(items) == prev[key := items[n].1];
      forall k ensures k in LowerKeys(items) <==> IsLoweredKey(items, k) {
        if k == key {
          assert IsLoweredKey(items, k);
        } else {
          if k in prev {
            var i :| 0 <= i < n && Decapitalize(init[i].0) == k;
            assert init[i] == items[i];
          }
          if IsLoweredKey(items, k) {
            var i :| 0 <= i < |items| && Decapitalize(items[i].0) == k;
            assert init[i] == items[i];
          }
        }
      }
    }
  }

  /** Each decapitalized key of `LowerKeys(items)` holds the value of the last item with that key. */
  lemma {:induction false} LowerKeysValues<V>(items: seq<(string, V)>, i: int)
    requires 0 <= i < |items| && LastWithLoweredKey(items, i)
    ensures Decapitalize(items[i].0) in LowerKeys(items)
    ensures LowerKeys(items)[Decapitalize(items[i].0)] == items[i].1
  {
    var n := |items| - 1;
    var init := items[..n];
    var key := Decapitalize(items[n].0);
    assert LowerKeys(items) == LowerKeys(init)[key := items[n].1];
    if i < n {
      assert init[i] == items[i];
      assert Decapitalize(items[i].0) != key;
      assert LastWithLoweredKey(init, i) by {
        forall j | i < j < n ensures Decapitalize(init[j].0) != Decapitalize(init[i].0) {
          assert init[j] == items[j];
        }
      }
      LowerKeysValues(init, i);
    }
  }

  /** Python's `s.replace(' ', '%20')`. */
  function ReplaceSpaces(s: string): (r: string)
    ensures ' ' !in r
    ensures |r| >= |s|
    ensures s == [] ==> r == []
    ensures |s| == 1 ==> r == if s[0] == ' ' then "%20" else s
  {
    if s == [] then [] else (if s[0] == ' ' then "%20" else [s[0]]) + ReplaceSpaces(s[1..])
  }

  /**
   * The replacement works character by character: with the one-character
   * cases of `ReplaceSpaces`, this pins down its result for every string.
   */
  lemma {:induction false} ReplaceSpacesConcat(s: string, t: string)
    ensures ReplaceSpaces(s + t) == ReplaceSpaces(s) + ReplaceSpaces(t)
  {
    if s != [] {
      assert (s + t)[1..] == s[1..] + t;
      ReplaceSpacesConcat(s[1..], t);
    } else {
      assert s + t == t;
    }
  }

  /** `url_encode`: an absent or empty query gives `None`; otherwise its spaces become `%20`. */
  function UrlEncode(query: Option<string>): (r: Option<string>)
    ensures r.None? <==> (query.None? || query.value == [])
    ensures r.Some? ==> r.value == ReplaceSpaces(query.value)
    ensures r.Some? ==> ' ' !in r.value && |r.value| >= |query.value|
  {
    if query.Some? && query.value != [] then Some(ReplaceSpaces(query.value)) else None
  }

  /** The decoding side of `%20`: every `%20` becomes a space again. */
  function DecodeSpaces(s: string): string {
    if s == [] then []
    else if |s| >= 3 && s[..3] == "%20" then " " + DecodeSpaces(s[3..])
    else [s[0]] + DecodeSpaces(s[1..])
  }

  /** Encoding the spaces of a query that holds no `%` loses nothing. */
  lemma {:induction false} DecodeReplaceSpaces(s: string)
    requires '%' !in s
    ensures DecodeSpaces(ReplaceSpaces(s)) == s
  {
    if s != [] {
      var tail := s[1..];
      var rest := ReplaceSpaces(tail);
      assert '%' !in tail by { assert forall c :: c in tail ==> c in s; }
      DecodeReplaceSpaces(tail);
      var head: string := if s[0] == ' ' then "%20" else [s[0]];
      assert ReplaceSpaces(s) == head + rest;
      if s[0] == ' ' {
        assert (head + rest)[..3] == "%20" && (head + rest)[3..] == rest;
        assert DecodeSpaces(head + rest) == " " + DecodeSpaces(rest);
      } else {
        assert (head + rest)[0] == s[0] && s[0] != '%';
        assert (head + rest)[1..] == rest;
        assert DecodeSpaces(head + rest) == [s[0]] + DecodeSpaces(rest);
      }
      assert s == [s[0]] + tail;
    }
  }

  /** `response` after `change_key(response, prevKey, newKey)`. */
  function Renamed<V>(m: map<string, V>, prevKey: string, newKey: string): (r: map<string, V>)
    ensures prevKey !in m ==> r == m
    ensures prevKey in m ==> r.Keys == m.Keys - {prevKey} + {newKey} && r[newKey] == m[prevKey]
    ensures forall k :: k in m && k != prevKey && k != newKey ==> k in r && r[k] == m[k]
  {
    if prevKey in m then (m - {prevKey})[newKey := m[prevKey]] else m
  }

  /** A Python dict that helpers update in place. */
  class Dict<V> {
    var entries: map<string, V>

    constructor (entries: map<string, V>)
      ensures this.entries == entries
    {
      this.entries := entries;
    }

    /**
     * `change_key`: when `prevKey` is present, its value moves to `newKey`
     * (overwriting any value there); returns the same dict.
     */
    method ChangeKey(prevKey: string, newKey: string) returns (r: Dict<V>)
      modifies this
      ensures r == this
      ensures entries == Renamed(old(entries), prevKey, newKey)
    {
      if prevKey in entries {
        var value := entries[prevKey];
        entries := entries - {prevKey};
        entries := entries[newKey := value];
      }
      r := this;
    }
  }
}
