/**
 * The attribute-name / property-name case transforms of
 * x-element-properties.js: dash-case attribute names (`multi-word`) and
 * camel-case property names (`multiWord`), and the memo both transforms share.
 *
 * Letters are ASCII: `[A-Z]` in the source's regular expressions is ASCII,
 * and `toLowerCase` is modelled on ASCII letters only.
 */
module CaseTransform {

  predicate IsUpper(c: char)
  {
    'A' <= c <= 'Z'
  }

  predicate IsLower(c: char)
  {
    'a' <= c <= 'z'
  }

  function ToLower(c: char): (r: char)
    ensures IsUpper(c) ==> IsLower(r)
    ensures !IsUpper(r)
  {
    if IsUpper(c) then (c as int + 32) as char else c
  }

  function ToUpper(c: char): (r: char)
    ensures IsLower(c) ==> IsUpper(r) && ToLower(r) == c
  {
    if IsLower(c) then (c as int - 32) as char else c
  }

  /**
   * A well-formed attribute name: no upper-case letter, and every dash
   * introduces a lower-case letter.
   */
  predicate IsDashCase(s: string)
  {
    && (forall k :: 0 <= k < |s| ==> !IsUpper(s[k]) && (s[k] == '-' ==> k + 1 < |s|))
    && (forall k :: 0 <= k < |s| - 1 && s[k] == '-' ==> IsLower(s[k + 1]))
  }

  /** `camelToDashCase`: a dash before every upper-case letter, then the whole name in lower case. */
  function CamelToDash(camel: string): (r: string)
    ensures forall k :: 0 <= k < |r| ==> !IsUpper(r[k])
    ensures '-' !in camel ==> IsDashCase(r)
  {
    if camel == [] then []
    else
      var head := if IsUpper(camel[0]) then ['-', ToLower(camel[0])] else [camel[0]];
      var rest := CamelToDash(camel[1..]);
      assert '-' !in camel ==> '-' !in camel[1..] && camel[0] != '-';
      head + rest
  }

  /** `replace(/-[a-z]/g, m => m[1].toUpperCase())`: each dash followed by a lower-case letter becomes that letter in upper case. */
  function ReplaceDashLower(s: string): string
  {
    if s == [] then []
    else if s[0] == '-' && |s| > 1 && IsLower(s[1]) then [ToUpper(s[1])] + ReplaceDashLower(s[2..])
    else [s[0]] + ReplaceDashLower(s[1..])
  }

  /** `dashToCamelCase`: a name without a dash is returned as it is, otherwise the replacement above. */
  function DashToCamel(dash: string): string
  {
    if '-' !in dash then dash else ReplaceDashLower(dash)
  }

  /** The dash-free short cut of `dashToCamelCase` agrees with the replacement it skips. */
  lemma {:induction false} ReplaceWithoutDash(s: string)
    requires '-' !in s
    ensures ReplaceDashLower(s) == s
  {
    if s != [] {
      assert '-' !in s[1..];
      ReplaceWithoutDash(s[1..]);
    }
  }

  lemma DashToCamelIsReplace(s: string)
    ensures DashToCamel(s) == ReplaceDashLower(s)
  {
    if '-' !in s {
      ReplaceWithoutDash(s);
    }
  }

  lemma {:induction false} ReplaceUndoesCamelToDash(p: string)
    requires '-' !in p
    ensures ReplaceDashLower(CamelToDash(p)) == p
  {
    if p != [] {
      assert '-' !in p[1..];
      ReplaceUndoesCamelToDash(p[1..]);
      var s := CamelToDash(p);
      if IsUpper(p[0]) {
        assert s[2..] == CamelToDash(p[1..]);
      } else {
        assert s[1..] == CamelToDash(p[1..]);
      }
    }
  }

  /** A property name without a dash survives the trip to its attribute name and back. */
  lemma CamelRoundTrip(p: string)
    requires '-' !in p
    ensures DashToCamel(CamelToDash(p)) == p
  {
    DashToCamelIsReplace(CamelToDash(p));
    ReplaceUndoesCamelToDash(p);
  }

  lemma DashCaseSuffix(a: string, j: nat)
    requires IsDashCase(a) && j <= |a|
    ensures IsDashCase(a[j..])
  {
    forall k | 0 <= k < |a[j..]|
      ensures !IsUpper(a[j..][k]) && (a[j..][k] == '-' ==> k + 1 < |a[j..]| && IsLower(a[j..][k + 1]))
    {
      assert a[j..][k] == a[j + k];
      if a[j + k] == '-' {
        assert a[j..][k + 1] == a[j + k + 1];
      }
    }
  }

  lemma {:induction false} CamelToDashUndoesReplace(a: string)
    requires IsDashCase(a)
    ensures CamelToDash(ReplaceDashLower(a)) == a
  {
    if a != [] {
      if a[0] == '-' {
        assert 1 < |a| && IsLower(a[1]);
        DashCaseSuffix(a, 2);
        CamelToDashUndoesReplace(a[2..]);
      } else {
        DashCaseSuffix(a, 1);
        CamelToDashUndoesReplace(a[1..]);
      }
    }
  }

  /** A well-formed attribute name survives the trip to its property name and back. */
  lemma DashRoundTrip(a: string)
    requires IsDashCase(a)
    ensures CamelToDash(DashToCamel(a)) == a
  {
    DashToCamelIsReplace(a);
    CamelToDashUndoesReplace(a);
  }

  /** Distinct dash-free property names never share an attribute name. */
  lemma CamelToDashInjective(p: string, q: string)
    requires '-' !in p && '-' !in q && p != q
    ensures CamelToDash(p) != CamelToDash(q)
  {
    CamelRoundTrip(p);
    CamelRoundTrip(q);
  }

  /**
   * The module-level `caseMap`: one plain object, shared by both transforms,
   * from a name to the answer first computed for it. An entry that is the
   * empty string is falsy and is recomputed.
   */
  class CaseMemo {
    var cache: map<string, string>

    /** Every entry is the answer of one of the two transforms for its key. */
    ghost predicate Valid()
      reads this
    {
      forall k :: k in cache ==> cache[k] == DashToCamel(k) || cache[k] == CamelToDash(k)
    }

    constructor ()
      ensures Valid() && cache == map[]
    {
      cache := map[];
    }

    method DashToCamelCase(dash: string) returns (r: string)
      requires Valid()
      modifies this
      ensures Valid()
      ensures r == DashToCamel(dash) || r == CamelToDash(dash)
      ensures if dash in old(cache) && old(cache)[dash] != "" then r == old(cache)[dash] && cache == old(cache)
              else r == DashToCamel(dash) && cache == old(cache)[dash := r]
    {
      if dash in cache && cache[dash] != "" {
        r := cache[dash];
      } else {
        r := DashToCamel(dash);
        cache := cache[dash := r];
      }
    }

    method CamelToDashCase(camel: string) returns (r: string)
      requires Valid()
      modifies this
      ensures Valid()
      ensures r == DashToCamel(camel) || r == CamelToDash(camel)
      ensures if camel in old(cache) && old(cache)[camel] != "" then r == old(cache)[camel] && cache == old(cache)
              else r == CamelToDash(camel) && cache == old(cache)[camel := r]
    {
      if camel in cache && cache[camel] != "" {
        r := cache[camel];
      } else {
        r := CamelToDash(camel);
        cache := cache[camel := r];
      }
    }
  }

  /**
   * Because the memo is shared, an answer cached by `dashToCamelCase` is
   * returned by a later `camelToDashCase` of the same name: after
   * `dashToCamelCase("fooBar")`, `camelToDashCase("fooBar")` answers
   * "fooBar" where the transform itself gives "foo-bar".
   */
  method SharedMemoCrossTalk() returns (first: string, second: string)
    ensures first == "fooBar" && second == "fooBar"
    ensures CamelToDash("fooBar") == "foo-bar" != second
  {
    var memo := new CaseMemo();
    first := memo.DashToCamelCase("fooBar");
    second := memo.CamelToDashCase("fooBar");
    assert CamelToDash("fooBar") == "foo-bar" by {
      assert CamelToDash("ar") == "ar";
      assert CamelToDash("Bar") == "-bar";
      assert CamelToDash("oBar") == "o-bar";
    }
  }
}
