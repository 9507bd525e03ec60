/**
 * The expected table name of a lookup request, pulled out of the request's
 * Rison-encoded `q` string by the regular expression
 *     value:'?([0-9a-zA-Z:_\-.]+)'?
 * with `re.search` semantics: the leftmost position at which the pattern
 * matches wins, and group 1 is the maximal run of name characters that
 * follows `value:` and an optional single quote.
 */
module Extraction {
  import opened Wrappers

  /** The literal that opens every filter value. */
  const Key: string := "value:"

  /** The character class [0-9a-zA-Z:_\-.]. */
  predicate IsNameChar(c: char) {
    ('0' <= c <= '9') || ('a' <= c <= 'z') || ('A' <= c <= 'Z') ||
    c == ':' || c == '_' || c == '-' || c == '.'
  }

  predicate AllNameChars(s: string) {
    forall k :: 0 <= k < |s| ==> IsNameChar(s[k])
  }

  /** `Key` occurs in `q` at position `i`. */
  predicate KeyAt(q: string, i: nat) {
    i + |Key| <= |q| && q[i..i + |Key|] == Key
  }

  // ---------------------------------------------------------------------------
  // Reference definition: what it means for the pattern to match at a position
  // ---------------------------------------------------------------------------

  /**
   * At position `i`, `q` reads `value:`, then a quote when `quoted`, then `v`,
   * where `v` is a non-empty run of name characters that cannot be extended
   * (the greedy `+`; the trailing `'?` always succeeds and never shortens it).
   */
  ghost predicate MatchesWith(q: string, i: nat, quoted: bool, v: string) {
    var start := i + |Key| + (if quoted then 1 else 0);
    var end := start + |v|;
    && end <= |q|
    && KeyAt(q, i)
    && (quoted ==> q[i + |Key|] == '\'')
    && q[start..end] == v
    && v != []
    && AllNameChars(v)
    && (end == |q| || !IsNameChar(q[end]))
  }

  /** The pattern matches at `i` with `v` as its group 1, the quote taken or not. */
  ghost predicate Matches(q: string, i: nat, v: string) {
    MatchesWith(q, i, false, v) || MatchesWith(q, i, true, v)
  }

  /** `v` is what the leftmost match of the pattern in `q` captures. */
  ghost predicate LeftmostMatch(q: string, v: string) {
    exists i: nat :: Matches(q, i, v) && forall j: nat, w :: j < i ==> !Matches(q, j, w)
  }

  // ---------------------------------------------------------------------------
  // The extractor
  // ---------------------------------------------------------------------------

  /** The longest prefix of `s` made of name characters. */
  function NameRun(s: string): (r: string)
    ensures |r| <= |s| && r == s[..|r|]
    ensures AllNameChars(r)
    ensures |r| == |s| || !IsNameChar(s[|r|])
  {
    if s == [] || !IsNameChar(s[0]) then [] else [s[0]] + NameRun(s[1..])
  }

  /** A maximal name-character prefix is unique: it is the one NameRun finds. */
  lemma {:induction false} NameRunUnique(s: string, v: string)
    requires |v| <= |s| && s[..|v|] == v && AllNameChars(v)
    requires |v| == |s| || !IsNameChar(s[|v|])
    ensures NameRun(s) == v
  {
    if v != [] {
      assert s[0] == v[0] && IsNameChar(v[0]);
      assert s[1..][..|v| - 1] == v[1..];
      NameRunUnique(s[1..], v[1..]);
      assert v == [v[0]] + v[1..];
    }
  }

  /** Tries the pattern at position `i` only: `value:`, an optional quote, a non-empty run. */
  function MatchAt(q: string, i: nat): (r: Option<string>)
    ensures r.Some? ==> Matches(q, i, r.value)
  {
    if !KeyAt(q, i) then None
    else
      var p := i + |Key|;
      var quoted := p < |q| && q[p] == '\'';
      var start := if quoted then p + 1 else p;
      var v := NameRun(q[start..]);
      if v == [] then None
      else
        assert MatchesWith(q, i, quoted, v);
        Some(v)
  }

  /** MatchAt misses only where the pattern cannot match at all. */
  lemma MatchAtComplete(q: string, i: nat, v: string)
    requires Matches(q, i, v)
    ensures MatchAt(q, i) == Some(v)
  {
    var p := i + |Key|;
    var quoted := MatchesWith(q, i, true, v);
    var start := if quoted then p + 1 else p;
    if !quoted {
      assert q[p] == v[0];
    }
    assert q[start..][..|v|] == v;
    NameRunUnique(q[start..], v);
  }

  /** Where MatchAt misses, no value matches at that position. */
  lemma MatchAtMiss(q: string, i: nat)
    requires MatchAt(q, i).None?
    ensures forall v :: !Matches(q, i, v)
  {
    forall v | Matches(q, i, v) ensures false {
      MatchAtComplete(q, i, v);
    }
  }

  /** At one position the pattern captures at most one value. */
  lemma MatchesUnique(q: string, i: nat, v: string, w: string)
    requires Matches(q, i, v) && Matches(q, i, w)
    ensures v == w
  {
    MatchAtComplete(q, i, v);
    MatchAtComplete(q, i, w);
  }

  /** `re.search` from position `i` onwards: the first position where MatchAt succeeds. */
  function Search(q: string, i: nat): (r: Option<string>)
    requires i <= |q|
    // a found value is a non-empty run of class characters that fits after a `value:` in q[i..]
    ensures r.Some? ==> r.value != [] && AllNameChars(r.value) && i + |Key| + |r.value| <= |q|
    decreases |q| - i
  {
    match MatchAt(q, i)
    case Some(v) => Some(v)
    case None => if i == |q| then None else Search(q, i + 1)
  }

  /** A value Search returns comes from the first matching position from `i` on. */
  lemma {:induction false} SearchFindsFirst(q: string, i: nat)
    requires i <= |q| && Search(q, i).Some?
    ensures exists k: nat :: i <= k && Matches(q, k, Search(q, i).value) &&
                             forall j: nat, w :: i <= j < k ==> !Matches(q, j, w)
    decreases |q| - i
  {
    var v := Search(q, i).value;
    if MatchAt(q, i).Some? {
      assert Matches(q, i, v);
    } else {
      MatchAtMiss(q, i);
      SearchFindsFirst(q, i + 1);
      var k: nat :| i + 1 <= k && Matches(q, k, v) &&
                    forall j: nat, w :: i + 1 <= j < k ==> !Matches(q, j, w);
      assert forall j: nat, w :: i <= j < k ==> !Matches(q, j, w);
    }
  }

  /** Search finds nothing only when the pattern matches at no position from `i` on. */
  lemma {:induction false} SearchMissesOnlyWithoutMatch(q: string, i: nat)
    requires i <= |q| && Search(q, i).None?
    ensures forall j: nat, w :: i <= j ==> !Matches(q, j, w)
    decreases |q| - i
  {
    MatchAtMiss(q, i);
    if i < |q| {
      SearchMissesOnlyWithoutMatch(q, i + 1);
    }
    forall j: nat, w | i <= j ensures !Matches(q, j, w) {
      if j > |q| {
        assert !KeyAt(q, j);
      }
    }
  }

  /** Line 79: the expected table name, or None when `re.search` finds no match. */
  function FilterValue(q: string): (r: Option<string>)
    ensures r.Some? ==> r.value != [] && AllNameChars(r.value) && |Key| + |r.value| <= |q|
  {
    Search(q, 0)
  }

  /** A value returned is the leftmost match's; None means no match anywhere. */
  lemma FilterValueSound(q: string)
    ensures FilterValue(q).Some? ==> LeftmostMatch(q, FilterValue(q).value)
    ensures FilterValue(q).None? ==> forall i: nat, w :: !Matches(q, i, w)
  {
    if FilterValue(q).Some? {
      SearchFindsFirst(q, 0);
    } else {
      SearchMissesOnlyWithoutMatch(q, 0);
    }
  }

  /** Conversely, the leftmost match is always what FilterValue returns. */
  lemma LeftmostIsFilterValue(q: string, v: string)
    requires LeftmostMatch(q, v)
    ensures FilterValue(q) == Some(v)
  {
    var i: nat :| Matches(q, i, v) && forall j: nat, w :: j < i ==> !Matches(q, j, w);
    var r := FilterValue(q);
    FilterValueSound(q);
    assert r.Some?;
    var k: nat :| Matches(q, k, r.value) && forall j: nat, w :: j < k ==> !Matches(q, j, w);
    assert !(k < i) && !(i < k);
    MatchesUnique(q, i, v, r.value);
  }

  /**
   * Round trip: a name written after `value:` (quoted or not) at the first
   * `value:` of the string, and ended by a character outside the class, is
   * exactly what the extractor recovers.
   */
  lemma ExtractEmbedded(prefix: string, quoted: bool, v: string, suffix: string)
    requires forall j: nat :: j < |prefix| ==> !KeyAt(prefix + Key, j)
    requires v != [] && AllNameChars(v)
    requires suffix == [] || !IsNameChar(suffix[0])
    ensures FilterValue(prefix + Key + (if quoted then "'" else "") + v + suffix) == Some(v)
  {
    var mark: string := if quoted then "'" else "";
    var q := prefix + Key + mark + v + suffix;
    assert MatchesWith(q, |prefix|, quoted, v) by {
      assert q[|prefix|..|prefix| + |Key|] == Key;
      var start := |prefix| + |Key| + |mark|;
      assert q[start..start + |v|] == v;
      assert start + |v| < |q| ==> q[start + |v|] == suffix[0];
    }
    forall j: nat, w | j < |prefix| ensures !Matches(q, j, w) {
      if KeyAt(q, j) {
        assert q[j..j + |Key|] == (prefix + Key)[j..j + |Key|];
        assert KeyAt(prefix + Key, j);
      }
    }
    assert Matches(q, |prefix|, v);
    LeftmostIsFilterValue(q, v);
  }

  /** Without any `value:` in the string there is nothing to extract. */
  lemma NoKeyNoValue(q: string)
    requires forall j: nat :: !KeyAt(q, j)
    ensures FilterValue(q) == None
  {
    FilterValueSound(q);
    forall i: nat, w ensures !Matches(q, i, w) {
      assert !KeyAt(q, i);
    }
  }

  /**
   * The shape of a one-filter Rison query on `table_name` whose value is `v`,
   * written bare or between quotes.
   */
  function FilterQuery(quoted: bool, v: string): (r: string)
    // the filter's `value:` stands right after the prefix, and nowhere before it
    ensures KeyAt(r, |FilterPrefix|)
    ensures forall j: nat :: j < |FilterPrefix| ==> !KeyAt(r, j)
  {
    var r := FilterPrefix + Key + (if quoted then "'" else "") + v + (if quoted then "')))" else ")))");
    PrefixHasNoKey(r);
    assert r[|FilterPrefix|..|FilterPrefix| + |Key|] == Key;
    r
  }

  /** What precedes the filter value in a one-filter query on `table_name`. */
  const FilterPrefix: string := "(filters:!((col:table_name,opr:eq,"

  /** A string opening with the prefix has no `value:` starting inside it. */
  lemma PrefixHasNoKey(r: string)
    requires |FilterPrefix| <= |r| && r[..|FilterPrefix|] == FilterPrefix
    ensures forall j: nat :: j < |FilterPrefix| ==> !KeyAt(r, j)
  {
    forall j: nat | j < |FilterPrefix| ensures !KeyAt(r, j) {
      assert r[j] == FilterPrefix[j] != 'v';
    }
  }

  /** The extractor recovers every name-character value from such a query. */
  lemma FilterQueryRoundTrip(quoted: bool, v: string)
    requires v != [] && AllNameChars(v)
    ensures FilterValue(FilterQuery(quoted, v)) == Some(v)
  {
    var prefix := FilterPrefix;
    var suffix := if quoted then "')))" else ")))";
    PrefixHasNoKey(prefix + Key);
    ExtractEmbedded(prefix, quoted, v, suffix);
    assert FilterQuery(quoted, v) == prefix + Key + (if quoted then "'" else "") + v + suffix;
  }

  /** Unquoted: `value:ficheros)` yields `ficheros`. */
  lemma BareValueExample()
    ensures FilterValue("value:ficheros)") == Some("ficheros")
  {
    var q := "value:ficheros)";
    assert q == "" + Key + "" + "ficheros" + ")";
    ExtractEmbedded("", false, "ficheros", ")");
  }

  /** Quoted: `value:'ficheros'` yields `ficheros`; the quotes are not captured. */
  lemma QuotedValueExample()
    ensures FilterValue("value:'ficheros'") == Some("ficheros")
  {
    var q := "value:'ficheros'";
    assert q == "" + Key + "'" + "ficheros" + "'";
    ExtractEmbedded("", true, "ficheros", "'");
  }

  /** A space ends the run: `value:'Sales Data'` yields only `Sales`. */
  lemma SpaceEndsValueExample()
    ensures FilterValue("value:'Sales Data'") == Some("Sales")
  {
    var q := "value:'Sales Data'";
    assert q == "" + Key + "'" + "Sales" + " Data'";
    ExtractEmbedded("", true, "Sales", " Data'");
  }

  /** An empty quoted value matches nowhere: `value:''` yields nothing. */
  lemma EmptyQuotedValueExample()
    ensures FilterValue("value:''") == None
  {
    var q := "value:''";
    FilterValueSound(q);
    forall i: nat, w ensures !Matches(q, i, w) {
      if i == 0 {
        assert q[|Key|] == '\'' && q[|Key| + 1] == '\'';
      } else if KeyAt(q, i) {
        assert q[i..i + |Key|][0] == 'v';
      }
    }
  }
}
