/**
 * The two response patterns the plugin matches against console output
 * (`ParseConfig.block_info_regex` and `ParseConfig.block_value_regex`),
 * written out as scanners over strings.
 *
 *   header:  Block info for (?P<block>minecraft:[\w_]+)      used with re.match
 *   pairs:   (\w+|'[^']+')=(\w+|'[^']+')                     used with re.findall
 */
module Patterns {
  import opened Wrappers

  /** ASCII approximation of the regular-expression class `\w`. */
  predicate IsWordChar(c: char) {
    ('a' <= c <= 'z') || ('A' <= c <= 'Z') || ('0' <= c <= '9') || c == '_'
  }

  const Quote: char := '\''
  const Equals: char := '='

  /** A run of one or more word characters: `\w+`. */
  predicate IsWord(t: string) {
    |t| > 0 && forall i :: 0 <= i < |t| ==> IsWordChar(t[i])
  }

  /** A quoted string with at least one character inside and no inner quote: `'[^']+'`. */
  predicate IsQuoted(t: string) {
    |t| >= 3 && t[0] == Quote && t[|t| - 1] == Quote
    && forall i :: 0 < i < |t| - 1 ==> t[i] != Quote
  }

  /** One side of a `key=value` token: `\w+|'[^']+'`. */
  predicate IsToken(t: string) {
    IsWord(t) || IsQuoted(t)
  }

  /** The end of the longest run of word characters that starts at `i`. */
  function WordRunEnd(s: string, i: nat): (j: nat)
    requires i <= |s|
    ensures i <= j <= |s|
    ensures forall k :: i <= k < j ==> IsWordChar(s[k])
    ensures j == |s| || !IsWordChar(s[j])
    decreases |s| - i
  {
    if i == |s| || !IsWordChar(s[i]) then i else WordRunEnd(s, i + 1)
  }

  /** The index of the first quote at or after `i`, or `|s|` when there is none. */
  function NextQuote(s: string, i: nat): (j: nat)
    requires i <= |s|
    ensures i <= j <= |s|
    ensures forall k :: i <= k < j ==> s[k] != Quote
    ensures j == |s| || s[j] == Quote
    decreases |s| - i
  {
    if i == |s| || s[i] == Quote then i else NextQuote(s, i + 1)
  }

  // ---------------------------------------------------------------------
  // The header pattern, anchored at the start of the line (re.match).
  // ---------------------------------------------------------------------

  const InfoPrefix: string := "Block info for "
  const Namespace: string := "minecraft:"

  /** A block identifier as the header captures it: `minecraft:` and one or more word characters. */
  predicate IsBlockId(b: string) {
    |b| > |Namespace| && b[..|Namespace|] == Namespace && IsWord(b[|Namespace|..])
  }

  /**
   * The `block` group of the header pattern when it matches at the start of
   * `line`: the captured identifier follows the prefix and is not followed by
   * another word character (the `+` is greedy).
   */
  function MatchBlockInfo(line: string): (r: Option<string>)
    ensures r.Some? ==> IsBlockId(r.value) && InfoPrefix + r.value <= line
    ensures r.Some? ==> |InfoPrefix + r.value| == |line| || !IsWordChar(line[|InfoPrefix + r.value|])
  {
    var head := InfoPrefix + Namespace;
    if |line| > |head| && line[..|head|] == head && IsWordChar(line[|head|]) then
      var e := WordRunEnd(line, |head|);
      var b := line[|InfoPrefix|..e];
      assert line[|InfoPrefix|..|head|] == head[|InfoPrefix|..] == Namespace;
      assert b[..|Namespace|] == line[|InfoPrefix|..|head|];
      assert b[|Namespace|..] == line[|head|..e];
      assert InfoPrefix + b == line[..e];
      Some(b)
    else
      None
  }

  /**
   * Whenever the line starts with the prefix and some block identifier that
   * is not followed by a word character, the header matches and captures
   * exactly that identifier.
   */
  lemma MatchBlockInfoComplete(line: string, b: string)
    requires IsBlockId(b) && InfoPrefix + b <= line
    requires |InfoPrefix + b| == |line| || !IsWordChar(line[|InfoPrefix + b|])
    ensures MatchBlockInfo(line) == Some(b)
  {
    var head := InfoPrefix + Namespace;
    var n := |InfoPrefix + b|;
    assert line[..n] == InfoPrefix + b;
    assert line[..|head|] == head by {
      assert line[..|head|] == (InfoPrefix + b)[..|head|];
    }
    forall k | |head| <= k < n
      ensures IsWordChar(line[k])
    {
      assert line[k] == b[|Namespace|..][k - |head|];
    }
    assert IsWordChar(line[|head|]);
    assert WordRunEnd(line, |head|) == n;
    assert line[|InfoPrefix|..n] == b;
  }

  /** On a line without the prefix and a block identifier nothing is captured. */
  lemma MatchBlockInfoRequiresPrefix(line: string)
    requires !(InfoPrefix + Namespace <= line)
    ensures MatchBlockInfo(line) == None
  {
  }

  // ---------------------------------------------------------------------
  // The key=value pattern, scanned left to right (re.findall).
  // ---------------------------------------------------------------------

  /**
   * `s[i..e]` is what one side of a token matches at `i`: a word run that
   * cannot be extended (the greedy `\w+`) or a quoted string.
   */
  predicate TokenSpan(s: string, i: nat, e: nat) {
    i < e <= |s| && IsToken(s[i..e]) && (IsWord(s[i..e]) ==> e == |s| || !IsWordChar(s[e]))
  }

  /** The end of the match of `\w+|'[^']+'` at position `i`, if it matches there. */
  function TokenEnd(s: string, i: nat): (r: Option<nat>)
    requires i <= |s|
    ensures r.Some? ==> TokenSpan(s, i, r.value)
  {
    if i < |s| && IsWordChar(s[i]) then
      Some(WordRunEnd(s, i))
    else if i < |s| && s[i] == Quote then
      var q := NextQuote(s, i + 1);
      if q < |s| && q > i + 1 then
        assert !IsWord(s[i..q + 1]) by { assert s[i..q + 1][0] == Quote; }
        Some(q + 1)
      else
        None
    else
      None
  }

  /** A token span is exactly what `TokenEnd` finds: the match at `i` is unique. */
  lemma TokenEndComplete(s: string, i: nat, e: nat)
    requires TokenSpan(s, i, e)
    ensures TokenEnd(s, i) == Some(e)
  {
    var t := s[i..e];
    assert t[0] == s[i];
    if IsWord(t) {
      forall k | i <= k < e ensures IsWordChar(s[k]) {
        assert s[k] == t[k - i];
      }
    } else {
      assert t[|t| - 1] == s[e - 1];
      forall k | i + 1 <= k < e - 1 ensures s[k] != Quote {
        assert s[k] == t[k - i];
      }
      assert NextQuote(s, i + 1) == e - 1;
    }
  }

  /** One match of the key=value pattern: `s[start..sep]` is the key, `s[sep+1..end]` the value. */
  datatype Found = Found(start: nat, sep: nat, end: nat, key: string, value: string)

  /** The whole pattern `(\w+|'[^']+')=(\w+|'[^']+')` matches `s[i..e]` with the `=` at `k`. */
  predicate PairSpan(s: string, i: nat, k: nat, e: nat) {
    TokenSpan(s, i, k) && k < |s| && s[k] == Equals && TokenSpan(s, k + 1, e)
  }

  /** The match of the key=value pattern at position `i`, if there is one. */
  function PairAt(s: string, i: nat): (r: Option<Found>)
    requires i <= |s|
    ensures r.Some? ==> r.value.start == i && PairSpan(s, i, r.value.sep, r.value.end)
    ensures r.Some? ==> r.value.key == s[i..r.value.sep] && r.value.value == s[r.value.sep + 1..r.value.end]
  {
    match TokenEnd(s, i)
    case None => None
    case Some(k) =>
      if k < |s| && s[k] == Equals then
        match TokenEnd(s, k + 1)
        case None => None
        case Some(e) => Some(Found(i, k, e, s[i..k], s[k + 1..e]))
      else
        None
  }

  /** Wherever the pattern can match, `PairAt` finds that match. */
  lemma PairAtComplete(s: string, i: nat, k: nat, e: nat)
    requires PairSpan(s, i, k, e)
    ensures PairAt(s, i) == Some(Found(i, k, e, s[i..k], s[k + 1..e]))
  {
    TokenEndComplete(s, i, k);
    TokenEndComplete(s, k + 1, e);
  }

  /** The key=value pattern as a matcher over positions of `s`. */
  function MatchAt(s: string): nat -> Option<Found> {
    (p: nat) => if p <= |s| then PairAt(s, p) else None
  }

  /** A matcher over `[0, n)`: a match found at `p` starts at `p` and ends after it, within `n`. */
  ghost predicate Matcher(at: nat -> Option<Found>, n: nat) {
    forall p: nat :: p < n && at(p).Some? ==> at(p).value.start == p < at(p).value.end <= n
  }

  lemma MatchAtIsMatcher(s: string)
    ensures Matcher(MatchAt(s), |s|)
  {
    forall p: nat | p < |s| && MatchAt(s)(p).Some?
      ensures MatchAt(s)(p).value.start == p < MatchAt(s)(p).value.end <= |s|
    {
      assert MatchAt(s)(p) == PairAt(s, p);
    }
  }

  /**
   * `r` lists the matches of `at` in `[i, n)` the way `re.findall` reports
   * them: each is the match at its own start, they are ordered and
   * disjoint, and every position where a match starts lies inside one of
   * them (a position is only ever skipped inside an earlier match).
   */
  ghost predicate Findings(at: nat -> Option<Found>, n: nat, i: nat, r: seq<Found>) {
    AllMatches(at, n, i, r) && Disjoint(r) && CoversAll(at, n, i, r)
  }

  /** Each element of `r` is the match of `at` at its own start, inside `[i, n)`. */
  ghost predicate AllMatches(at: nat -> Option<Found>, n: nat, i: nat, r: seq<Found>) {
    forall j :: 0 <= j < |r| ==> i <= r[j].start < r[j].end <= n && at(r[j].start) == Some(r[j])
  }

  /** The matches in `r` are ordered and do not overlap. */
  ghost predicate Disjoint(r: seq<Found>) {
    forall a, b :: 0 <= a < b < |r| ==> r[a].end <= r[b].start
  }

  /** Every position of `[i, n)` where `at` matches lies inside a match in `r`. */
  ghost predicate CoversAll(at: nat -> Option<Found>, n: nat, i: nat, r: seq<Found>) {
    forall p {:trigger Covers(r, p)} :: i <= p < n && at(p).Some? ==> Covers(r, p)
  }

  /** Position `p` lies inside one of the matches in `r`. */
  ghost predicate Covers(r: seq<Found>, p: nat) {
    exists j :: 0 <= j < |r| && r[j].start <= p < r[j].end
  }

  /**
   * The scan of `re.findall` over `[i, n)`: try the matcher at each
   * position; after a match resume at its end, otherwise at the next
   * position.
   */
  function ScanWith(at: nat -> Option<Found>, n: nat, i: nat): (r: seq<Found>)
    requires i <= n && Matcher(at, n)
    ensures Findings(at, n, i, r)
    decreases n - i
  {
    if i == n then
      []
    else
      match at(i)
      case None => ScanWith(at, n, i + 1)
      case Some(f) =>
        var rest := ScanWith(at, n, f.end);
        ScanCons(at, n, f, rest);
        [f] + rest
  }

  /** Keeping the match at `f.start` in front of the findings after it. */
  lemma ScanCons(at: nat -> Option<Found>, n: nat, f: Found, rest: seq<Found>)
    requires at(f.start) == Some(f) && f.start < f.end <= n
    requires Findings(at, n, f.end, rest)
    ensures Findings(at, n, f.start, [f] + rest)
  {
    ConsMatches(at, n, f, rest);
    ConsDisjoint(f, rest);
    ConsCovers(at, n, f, rest);
  }

  lemma ConsMatches(at: nat -> Option<Found>, n: nat, f: Found, rest: seq<Found>)
    requires at(f.start) == Some(f) && f.start < f.end <= n
    requires AllMatches(at, n, f.end, rest)
    ensures AllMatches(at, n, f.start, [f] + rest)
  {
    var r := [f] + rest;
    forall j | 0 <= j < |r|
      ensures f.start <= r[j].start < r[j].end <= n && at(r[j].start) == Some(r[j])
    {
      if j > 0 { assert r[j] == rest[j - 1]; }
    }
  }

  lemma ConsDisjoint(f: Found, rest: seq<Found>)
    requires forall j :: 0 <= j < |rest| ==> f.end <= rest[j].start
    requires Disjoint(rest)
    ensures Disjoint([f] + rest)
  {
    var r := [f] + rest;
    forall a, b | 0 <= a < b < |r| ensures r[a].end <= r[b].start {
      assert r[b] == rest[b - 1];
      if a > 0 { assert r[a] == rest[a - 1]; }
    }
  }

  lemma ConsCovers(at: nat -> Option<Found>, n: nat, f: Found, rest: seq<Found>)
    requires f.start < f.end
    requires CoversAll(at, n, f.end, rest)
    ensures CoversAll(at, n, f.start, [f] + rest)
  {
    var r := [f] + rest;
    forall p | f.start <= p < n && at(p).Some?
      ensures Covers(r, p)
    {
      if p < f.end {
        assert r[0].start <= p < r[0].end;
      } else {
        assert Covers(rest, p);
        var j :| 0 <= j < |rest| && rest[j].start <= p < rest[j].end;
        assert r[j + 1] == rest[j];
      }
    }
  }

  /**
   * The findings are unique: any list with the properties of `Findings`
   * is the one the scan computes, so those properties define the result
   * independently of how it is computed.
   */
  lemma {:induction false} ScanUnique(at: nat -> Option<Found>, n: nat, i: nat, r: seq<Found>)
    requires i <= n && Matcher(at, n)
    requires Findings(at, n, i, r)
    ensures r == ScanWith(at, n, i)
    decreases n - i
  {
    if i == n {
      FindingsBound(at, n, i, r);
    } else {
      match at(i)
      case None =>
        FindingsSkip(at, n, i, r);
        ScanUnique(at, n, i + 1, r);
      case Some(f) =>
        FindingsHead(at, n, i, r);
        ScanUnique(at, n, f.end, r[1..]);
    }
  }

  /** Every match takes at least one position, so there are at most `n - i` of them. */
  lemma {:induction false} FindingsBound(at: nat -> Option<Found>, n: nat, i: nat, r: seq<Found>)
    requires i <= n && AllMatches(at, n, i, r) && Disjoint(r)
    ensures |r| <= n - i
    decreases |r|
  {
    if r != [] {
      HeadRestMatches(at, n, i, r);
      HeadRestDisjoint(r);
      FindingsBound(at, n, r[0].end, r[1..]);
    }
  }

  /** The non-overlapping matches of the key=value pattern in `s`, left to right: `re.findall`. */
  function FindAll(s: string): (r: seq<Found>)
    ensures Findings(MatchAt(s), |s|, 0, r)
  {
    MatchAtIsMatcher(s);
    ScanWith(MatchAt(s), |s|, 0)
  }

  /** Any list of matches with the properties of `Findings` is what `FindAll` returns. */
  lemma FindAllUnique(s: string, r: seq<Found>)
    requires Findings(MatchAt(s), |s|, 0, r)
    ensures r == FindAll(s)
  {
    MatchAtIsMatcher(s);
    ScanUnique(MatchAt(s), |s|, 0, r);
  }

  /** Where nothing matches at `i`, the same findings start at `i + 1`. */
  lemma FindingsSkip(at: nat -> Option<Found>, n: nat, i: nat, r: seq<Found>)
    requires i < n && at(i).None?
    requires Findings(at, n, i, r)
    ensures Findings(at, n, i + 1, r)
  {
    assert AllMatches(at, n, i, r);
    forall j | 0 <= j < |r| ensures i + 1 <= r[j].start {
      assert at(r[j].start).Some?;
    }
  }

  /** Where a match starts at `i`, it is the first of the findings and the rest start at its end. */
  lemma FindingsHead(at: nat -> Option<Found>, n: nat, i: nat, r: seq<Found>)
    requires i < n && at(i).Some?
    requires Findings(at, n, i, r)
    ensures r != [] && r[0] == at(i).value
    ensures Findings(at, n, r[0].end, r[1..])
  {
    assert AllMatches(at, n, i, r) && Disjoint(r) && CoversAll(at, n, i, r);
    assert Covers(r, i);
    var j :| 0 <= j < |r| && r[j].start <= i < r[j].end;
    assert forall k :: 0 < k < |r| ==> r[0].end <= r[k].start;
    HeadRestMatches(at, n, i, r);
    HeadRestDisjoint(r);
    HeadRestCovers(at, n, i, r);
  }

  lemma HeadRestMatches(at: nat -> Option<Found>, n: nat, i: nat, r: seq<Found>)
    requires r != [] && AllMatches(at, n, i, r) && Disjoint(r)
    ensures AllMatches(at, n, r[0].end, r[1..])
  {
    var rest := r[1..];
    forall k | 0 <= k < |rest|
      ensures r[0].end <= rest[k].start < rest[k].end <= n && at(rest[k].start) == Some(rest[k])
    {
      assert rest[k] == r[k + 1];
      assert r[0].end <= r[k + 1].start;
    }
  }

  lemma HeadRestDisjoint(r: seq<Found>)
    requires r != [] && Disjoint(r)
    ensures Disjoint(r[1..])
  {
    var rest := r[1..];
    forall a, b | 0 <= a < b < |rest| ensures rest[a].end <= rest[b].start {
      assert rest[a] == r[a + 1] && rest[b] == r[b + 1];
    }
  }

  lemma HeadRestCovers(at: nat -> Option<Found>, n: nat, i: nat, r: seq<Found>)
    requires r != [] && CoversAll(at, n, i, r) && i <= r[0].start < r[0].end
    ensures CoversAll(at, n, r[0].end, r[1..])
  {
    var rest := r[1..];
    forall p | r[0].end <= p < n && at(p).Some?
      ensures Covers(rest, p)
    {
      assert Covers(r, p);
      var k :| 0 <= k < |r| && r[k].start <= p < r[k].end;
      assert k != 0;
      assert rest[k - 1] == r[k];
    }
  }

  /** The dictionary built from the matches, entry by entry: `{key: val for key, val in ...}`. */
  function DictOf(fs: seq<Found>): (m: map<string, string>)
    ensures forall key :: key in m ==> exists j :: 0 <= j < |fs| && fs[j].key == key && m[key] == fs[j].value
    decreases |fs|
  {
    if fs == [] then map[]
    else
      var init := fs[..|fs| - 1];
      assert forall j :: 0 <= j < |init| ==> init[j] == fs[j];
      DictOf(init)[fs[|fs| - 1].key := fs[|fs| - 1].value]
  }

  /** The dictionary has exactly the keys of the matches. */
  lemma {:induction false} DictOfKeys(fs: seq<Found>)
    ensures forall key :: key in DictOf(fs) <==> exists j :: 0 <= j < |fs| && fs[j].key == key
    decreases |fs|
  {
    if fs != [] {
      var init := fs[..|fs| - 1];
      DictOfKeys(init);
      assert forall j :: 0 <= j < |init| ==> init[j] == fs[j];
    }
  }

  /** When a key occurs more than once, the value of its last occurrence wins. */
  lemma {:induction false} DictOfLastWins(fs: seq<Found>, j: nat)
    requires j < |fs|
    requires forall j' :: j < j' < |fs| ==> fs[j'].key != fs[j].key
    ensures fs[j].key in DictOf(fs) && DictOf(fs)[fs[j].key] == fs[j].value
    decreases |fs|
  {
    if j < |fs| - 1 {
      var init := fs[..|fs| - 1];
      assert init[j] == fs[j];
      DictOfLastWins(init, j);
    }
  }

  /** Every match `findall` reports has a token on each side of the `=`, quotes kept. */
  lemma FindAllTokens(s: string)
    ensures forall j :: 0 <= j < |FindAll(s)| ==> IsToken(FindAll(s)[j].key) && IsToken(FindAll(s)[j].value)
  {
    var r := FindAll(s);
    assert AllMatches(MatchAt(s), |s|, 0, r);
    forall j | 0 <= j < |r|
      ensures IsToken(r[j].key) && IsToken(r[j].value)
    {
      assert MatchAt(s)(r[j].start) == PairAt(s, r[j].start);
    }
  }

  /**
   * The attribute map of one console line: `{key: val for key, val in findall(line)}`.
   * Every key and every value is a word or a quoted string, quotes included.
   */
  function ParseData(line: string): (m: map<string, string>)
    ensures forall key :: key in m ==> IsToken(key) && IsToken(m[key])
  {
    FindAllTokens(line);
    DictOf(FindAll(line))
  }
}
