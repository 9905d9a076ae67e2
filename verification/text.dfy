/** String and lookup helpers shared by the three monitor scripts: Python's
    `in` on strings, `str.lower`, `str.endswith`, the truthiness test that
    `if app_name:` applies, and the first-match walk over an ordered
    `{key: friendly_name}` dictionary. */
module Text {

  datatype Option<T> = None | Some(value: T)

  /** `str.lower` on one character; only ASCII letters are folded. */
  function LowerChar(c: char): char {
    if 'A' <= c <= 'Z' then (c as int + 32) as char else c
  }

  function Lower(s: string): string {
    seq(|s|, i requires 0 <= i < |s| => LowerChar(s[i]))
  }

  /** Python's `sub in s` for two strings. */
  predicate Contains(s: string, sub: string)
    decreases |s|
  {
    |sub| <= |s| && (s[..|sub|] == sub || (|s| > 0 && Contains(s[1..], sub)))
  }

  /** `sub` occurs in `s` starting at index `i`. */
  predicate OccursAt(s: string, sub: string, i: int) {
    0 <= i && i + |sub| <= |s| && s[i..i + |sub|] == sub
  }

  /** `Contains` is substring search: true exactly when some position holds `sub`. */
  lemma {:induction false} ContainsIff(s: string, sub: string)
    ensures Contains(s, sub) <==> exists i :: OccursAt(s, sub, i)
    decreases |s|
  {
    if |sub| <= |s| && |s| > 0 {
      ContainsIff(s[1..], sub);
      if s[..|sub|] == sub {
        assert OccursAt(s, sub, 0);
      }
      if Contains(s[1..], sub) {
        var i :| OccursAt(s[1..], sub, i);
        assert s[1..][i..i + |sub|] == s[i + 1..i + 1 + |sub|];
        assert OccursAt(s, sub, i + 1);
      }
      if exists i :: OccursAt(s, sub, i) {
        var i :| OccursAt(s, sub, i);
        if i > 0 {
          assert s[1..][i - 1..i - 1 + |sub|] == s[i..i + |sub|];
          assert OccursAt(s[1..], sub, i - 1);
        }
      }
    } else if |sub| <= |s| {
      assert OccursAt(s, sub, 0);
    }
  }

  /** Python's `s.endswith(suffix)`. */
  predicate EndsWith(s: string, suffix: string) {
    |suffix| <= |s| && s[|s| - |suffix|..] == suffix
  }

  /** What `if app_name:` accepts: neither `None` nor the empty string. */
  predicate Truthy(name: Option<string>) {
    name.Some? && name.value != ""
  }

  /** A Python dictionary literal `{key: value, ...}` as its items in insertion order. */
  type Table = seq<(string, string)>

  /** The test `key in name or key in path` applied to one table key. */
  predicate KeyHits(key: string, name: string, path: string) {
    Contains(name, key) || Contains(path, key)
  }

  /** Index of the first entry whose key hits `name` or `path`, or `|table|`
      when no entry does: where `for key, v in table.items()` returns. */
  function FirstHit(table: Table, name: string, path: string): (k: nat)
    ensures k <= |table|
    ensures forall j :: 0 <= j < k ==> !KeyHits(table[j].0, name, path)
    ensures k < |table| ==> KeyHits(table[k].0, name, path)
  {
    if table == [] then 0
    else if KeyHits(table[0].0, name, path) then 0
    else 1 + FirstHit(table[1..], name, path)
  }

  /** The value of the first entry whose key hits, if any. */
  function Lookup(table: Table, name: string, path: string): Option<string> {
    var k := FirstHit(table, name, path);
    if k < |table| then Some(table[k].1) else None
  }

  /** `Lookup` answers with a value exactly when some key hits, and then with
      the value of the earliest entry that hits. */
  lemma LookupFirstMatch(table: Table, name: string, path: string, k: nat)
    requires k < |table| && KeyHits(table[k].0, name, path)
    requires forall j :: 0 <= j < k ==> !KeyHits(table[j].0, name, path)
    ensures Lookup(table, name, path) == Some(table[k].1)
  {
  }

  lemma LookupNone(table: Table, name: string, path: string)
    ensures Lookup(table, name, path) == None
        <==> forall j :: 0 <= j < |table| ==> !KeyHits(table[j].0, name, path)
  {
  }
}
