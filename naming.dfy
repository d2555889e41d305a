/**
 * Cache names, wire keys and the locator's query parameters: the `\w+`
 * name check, the namespaced key `name + separator + key.toString()`,
 * and the meaning of `parseQuery` (the manager's loop is proved against
 * `QueryParameters`).
 */
module Naming {
  import opened Java

  /** The separator a manager uses unless its locator's query overrides it. */
  const DEFAULT_SEPARATOR: string := "$"

  /** The query parameter that overrides the separator, spelled as in the source. */
  const SEPARATOR_PARAMETER: string := "seperator"

  /** The class `\w` of a Java regular expression: [a-zA-Z_0-9]. */
  predicate IsWordChar(c: char)
  {
    'a' <= c <= 'z' || 'A' <= c <= 'Z' || '0' <= c <= '9' || c == '_'
  }

  /**
   * `cacheName.matches("\\w+")`, matched one character at a time: true
   * exactly for non-empty names made of word characters only.
   */
  function ValidateCacheName(name: string): (ok: bool)
    ensures ok <==> |name| > 0 && forall i :: 0 <= i < |name| ==> IsWordChar(name[i])
    decreases |name|
  {
    |name| > 0 && IsWordChar(name[0]) && (|name| == 1 || ValidateCacheName(name[1..]))
  }

  /** `getCompositeKey`: the cache name, then the separator, then the key's `toString`. */
  function CompositeKey(name: string, separator: string, key: Obj): string
  {
    name + separator + ToString(key)
  }

  /** A wire key splits back into exactly the name, the separator and the key's text. */
  lemma CompositeKeyParts(name: string, separator: string, key: Obj)
    ensures var wire := CompositeKey(name, separator, key);
      && |wire| == |name| + |separator| + |ToString(key)|
      && wire[..|name|] == name
      && wire[|name|..|name| + |separator|] == separator
      && wire[|name| + |separator|..] == ToString(key)
  {
    var wire := CompositeKey(name, separator, key);
    assert wire == (name + separator) + ToString(key);
    assert (name + separator)[..|name|] == name;
  }

  /** The separator of a manager whose locator has query parameters `params`. */
  function SeparatorFor(params: map<string, string>): (sep: string)
    ensures SEPARATOR_PARAMETER in params ==> sep == params[SEPARATOR_PARAMETER]
    ensures SEPARATOR_PARAMETER !in params ==> sep == DEFAULT_SEPARATOR
  {
    if SEPARATOR_PARAMETER in params then params[SEPARATOR_PARAMETER] else DEFAULT_SEPARATOR
  }

  lemma DollarIsNotWordChar()
    ensures !IsWordChar(DEFAULT_SEPARATOR[0])
  {
  }

  /**
   * Two caches with different valid names never share a wire key, whatever
   * their keys, as long as the separator starts with a non-word character
   * (as the default "$" does).
   */
  lemma DistinctNamesNeverCollide(n1: string, n2: string, sep: string, k1: Obj, k2: Obj)
    requires ValidateCacheName(n1) && ValidateCacheName(n2) && n1 != n2
    requires |sep| > 0 && !IsWordChar(sep[0])
    ensures CompositeKey(n1, sep, k1) != CompositeKey(n2, sep, k2)
  {
    var w1, w2 := CompositeKey(n1, sep, k1), CompositeKey(n2, sep, k2);
    CompositeKeyParts(n1, sep, k1);
    CompositeKeyParts(n2, sep, k2);
    if |n1| < |n2| {
      assert w1[|n1|] == sep[0] && w2[|n1|] == n2[|n1|];
    } else if |n2| < |n1| {
      assert w2[|n2|] == sep[0] && w1[|n2|] == n1[|n2|];
    } else {
      assert w1[..|n1|] == n1 && w2[..|n1|] == n2;
    }
  }

  /** Within one cache, keys with different string forms get different wire keys. */
  lemma DistinctKeyTextsNeverCollide(name: string, sep: string, k1: Obj, k2: Obj)
    requires ToString(k1) != ToString(k2)
    ensures CompositeKey(name, sep, k1) != CompositeKey(name, sep, k2)
  {
    var w1, w2 := CompositeKey(name, sep, k1), CompositeKey(name, sep, k2);
    CompositeKeyParts(name, sep, k1);
    CompositeKeyParts(name, sep, k2);
    assert w1[|name| + |sep|..] == ToString(k1);
    assert w2[|name| + |sep|..] == ToString(k2);
  }

  /** Cache "user" with separator "$" stores key 1 under "user$1". */
  lemma UserKeyExample()
    ensures CompositeKey("user", DEFAULT_SEPARATOR, JInteger(1)) == "user$1"
  {
  }

  /**
   * Only the string form of a key reaches the store: the integer 1 and the
   * string "1" share a wire key in the same cache.
   */
  lemma IntegerAndStringKeysShareWireKey()
    ensures CompositeKey("user", DEFAULT_SEPARATOR, JInteger(1)) == CompositeKey("user", DEFAULT_SEPARATOR, JString("1"))
  {
  }

  /**
   * A separator made of word characters (possible through the query) lets
   * two caches collide: "a" + "_" + "b_c" is "a_b" + "_" + "c".
   */
  lemma WordSeparatorAllowsCollision()
    ensures ValidateCacheName("a") && ValidateCacheName("a_b")
    ensures CompositeKey("a", "_", JString("b_c")) == CompositeKey("a_b", "_", JString("c"))
  {
  }

  // ---------------------------------------------------------------------
  // Query strings

  /** The index of the first `c` in `s`, or |s| when there is none. */
  function IndexOf(s: string, c: char): (i: nat)
    ensures i <= |s|
    ensures i < |s| ==> s[i] == c
    ensures forall j :: 0 <= j < i ==> s[j] != c
    ensures i == |s| <==> c !in s
  {
    if s == [] then 0 else if s[0] == c then 0 else 1 + IndexOf(s[1..], c)
  }

  /** The pieces of `s` between occurrences of `c`, empty pieces included. */
  function SplitAll(s: string, c: char): (parts: seq<string>)
    ensures |parts| > 0
    ensures forall p :: p in parts ==> c !in p
    decreases |s|
  {
    var i := IndexOf(s, c);
    if i == |s| then [s] else [s[..i]] + SplitAll(s[i + 1..], c)
  }

  /** The inverse of `SplitAll`: the pieces joined with `c` between them. */
  function Join(parts: seq<string>, c: char): string
    requires |parts| > 0
  {
    if |parts| == 1 then parts[0] else parts[0] + [c] + Join(parts[1..], c)
  }

  /** Joining a piece in front of at least one more puts one `c` between them. */
  lemma JoinCons(x: string, rest: seq<string>, c: char)
    requires |rest| > 0
    ensures Join([x] + rest, c) == x + [c] + Join(rest, c)
  {
    assert ([x] + rest)[1..] == rest;
  }

  /** One step of `SplitAll` at the first `c`. */
  lemma SplitAllAt(s: string, c: char, i: nat)
    requires i == IndexOf(s, c) < |s|
    ensures SplitAll(s, c) == [s[..i]] + SplitAll(s[i + 1..], c)
  {
  }

  lemma {:induction false} JoinSplitAll(s: string, c: char)
    ensures Join(SplitAll(s, c), c) == s
    decreases |s|
  {
    var i := IndexOf(s, c);
    if i < |s| {
      var x, tail := s[..i], s[i + 1..];
      var rest := SplitAll(tail, c);
      SplitAllAt(s, c, i);
      JoinCons(x, rest, c);
      JoinSplitAll(tail, c);
      assert s == x + [c] + tail;
    }
  }

  /** Drops the empty strings at the end, as `String.split` does. */
  function TrimTrailingEmpty(parts: seq<string>): (r: seq<string>)
    ensures |r| <= |parts| && r == parts[..|r|]
    ensures forall j :: |r| <= j < |parts| ==> parts[j] == ""
    ensures |r| > 0 ==> r[|r| - 1] != ""
  {
    if parts == [] then [] else if parts[|parts| - 1] == "" then TrimTrailingEmpty(parts[..|parts| - 1]) else parts
  }

  /** `s.split(c)` for a single, non-meta character `c`. */
  function JavaSplit(s: string, c: char): seq<string>
  {
    if c !in s then [s] else TrimTrailingEmpty(SplitAll(s, c))
  }

  /** `part.split("=", 2)[0]`: the text before the first "=". */
  function ParamName(part: string): string
  {
    part[..IndexOf(part, '=')]
  }

  /** `part.split("=", 2)[1]`: the text after the first "=" (requires one). */
  function ParamValue(part: string): string
    requires '=' in part
  {
    part[IndexOf(part, '=') + 1..]
  }

  /** The map `parseQuery`'s loop has built after the parts `parts`. */
  function CollectParameters(parts: seq<string>): map<string, string>
  {
    if parts == [] then map[]
    else
      var prior := CollectParameters(parts[..|parts| - 1]);
      var part := parts[|parts| - 1];
      if '=' in part then prior[ParamName(part) := ParamValue(part)] else prior
  }

  /**
   * What `parseQuery` returns: no parameters for a null query or one
   * without "=", otherwise the "&"-separated parts that contain "=".
   */
  function QueryParameters(query: Option<string>): map<string, string>
  {
    if query.None? || '=' !in query.value then map[]
    else CollectParameters(JavaSplit(query.value, '&'))
  }

  /** A name is a parameter iff some part containing "=" carries it. */
  lemma {:induction false} ParameterNames(parts: seq<string>, name: string)
    ensures name in CollectParameters(parts) <==>
            exists j :: 0 <= j < |parts| && '=' in parts[j] && ParamName(parts[j]) == name
    decreases |parts|
  {
    if parts != [] {
      var init := parts[..|parts| - 1];
      ParameterNames(init, name);
      if exists j :: 0 <= j < |init| && '=' in init[j] && ParamName(init[j]) == name {
        var j :| 0 <= j < |init| && '=' in init[j] && ParamName(init[j]) == name;
        assert parts[j] == init[j];
      }
      if exists j :: 0 <= j < |parts| && '=' in parts[j] && ParamName(parts[j]) == name {
        var j :| 0 <= j < |parts| && '=' in parts[j] && ParamName(parts[j]) == name;
        if j < |init| {
          assert init[j] == parts[j];
        }
      }
    }
  }

  /** When several parts name the same parameter, the last one wins. */
  lemma {:induction false} LastParameterWins(parts: seq<string>, j: nat)
    requires j < |parts| && '=' in parts[j]
    requires forall i :: j < i < |parts| && '=' in parts[i] ==> ParamName(parts[i]) != ParamName(parts[j])
    ensures ParamName(parts[j]) in CollectParameters(parts)
    ensures CollectParameters(parts)[ParamName(parts[j])] == ParamValue(parts[j])
    decreases |parts|
  {
    if j < |parts| - 1 {
      var init := parts[..|parts| - 1];
      assert init[j] == parts[j];
      LastParameterWins(init, j);
    }
  }

  /** A null query, or one without "=", yields no parameters. */
  lemma NoEqualsNoParameters(query: Option<string>)
    requires query.None? || '=' !in query.value
    ensures QueryParameters(query) == map[]
  {
  }

  /** `IndexOf` finds the first `c` placed after a prefix without one. */
  lemma {:induction false} IndexOfAfter(a: string, c: char, b: string)
    requires c !in a
    ensures IndexOf(a + [c] + b, c) == |a|
    decreases |a|
  {
    if a != [] {
      assert (a + [c] + b)[1..] == a[1..] + [c] + b;
      IndexOfAfter(a[1..], c, b);
    }
  }

  /**
   * A locator query "seperator=<sep>", with no "&" in <sep>, switches the
   * separator to <sep>.
   */
  lemma SeparatorOverride(sep: string)
    requires '&' !in sep
    ensures SeparatorFor(QueryParameters(Some(SEPARATOR_PARAMETER + "=" + sep))) == sep
  {
    var q := SEPARATOR_PARAMETER + "=" + sep;
    assert q == SEPARATOR_PARAMETER + ['='] + sep;
    IndexOfAfter(SEPARATOR_PARAMETER, '=', sep);
    assert q[9] == '=';
    assert '&' !in q by {
      forall i | 0 <= i < |q| ensures q[i] != '&' {
        if i >= 10 { assert q[i] == sep[i - 10]; }
      }
    }
    assert JavaSplit(q, '&') == [q];
    assert CollectParameters([q]) == map[][ParamName(q) := ParamValue(q)];
    assert ParamName(q) == SEPARATOR_PARAMETER;
    assert ParamValue(q) == sep;
  }
}
