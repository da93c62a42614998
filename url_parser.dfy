/** Key extraction from Jira links (src/utils/url-parser.ts). Each regular
    expression there is a literal marker followed by a greedy character-class
    pattern; `String.prototype.match` reports the leftmost position where the
    whole expression matches, and capture group 1 is the pattern's text.
    `FirstMatch` is that leftmost search; `MatchLength` is the greedy match at
    one position. Backtracking never yields another match because `-` is
    outside `[A-Z0-9]`. */
module UrlParser {
  import opened Wrappers

  /** `[A-Z0-9]` */
  predicate IsKeyChar(c: char) {
    'A' <= c <= 'Z' || '0' <= c <= '9'
  }

  /** `[0-9]` */
  predicate IsDigit(c: char) {
    '0' <= c <= '9'
  }

  datatype CharClass = KeyChars | Digits

  predicate InClass(c: char, cls: CharClass) {
    match cls
    case KeyChars => IsKeyChar(c)
    case Digits => IsDigit(c)
  }

  predicate AllIn(t: string, cls: CharClass) {
    forall j :: 0 <= j < |t| ==> InClass(t[j], cls)
  }

  /** Length of the longest run of `cls` characters starting at `i`. */
  function RunLength(s: string, i: nat, cls: CharClass): (n: nat)
    requires i <= |s|
    ensures i + n <= |s|
    ensures i + n == |s| || !InClass(s[i + n], cls)
    decreases |s| - i
  {
    if i < |s| && InClass(s[i], cls) then 1 + RunLength(s, i + 1, cls) else 0
  }

  /** `k` is entirely matched by `[A-Z0-9]+-[0-9]+`. */
  predicate IsIssueKey(k: string) {
    exists d :: 0 < d < |k| - 1 && IsKeySplit(k, d)
  }

  /** `k[..d]` is `[A-Z0-9]+`, `k[d]` is `-` and `k[d + 1..]` is `[0-9]+`. */
  predicate IsKeySplit(k: string, d: int) {
    && 0 < d < |k| - 1
    && k[d] == '-'
    && (forall j :: 0 <= j < d ==> IsKeyChar(k[j]))
    && (forall j :: d < j < |k| ==> IsDigit(k[j]))
  }

  predicate IsSubstring(t: string, s: string) {
    exists p, q :: 0 <= p <= q <= |s| && s[p..q] == t
  }

  /** Some part of `s` is matched by `[A-Z0-9]+-[0-9]+`. */
  predicate ContainsIssueKey(s: string) {
    exists p, q :: 0 <= p <= q <= |s| && IsIssueKey(s[p..q])
  }

  /** `[A-Z0-9]+-[0-9]+` and `[A-Z0-9]+`. */
  datatype Pattern = IssueKeyPattern | ProjectKeyPattern

  /** Length of the greedy match of `pat` at `i`, if it matches there. */
  function MatchLength(s: string, i: nat, pat: Pattern): (r: Option<nat>)
    requires i <= |s|
    ensures r.Some? ==> 0 < r.value && i + r.value <= |s|
  {
    var n := RunLength(s, i, KeyChars);
    match pat
    case ProjectKeyPattern => if n > 0 then Some(n) else None
    case IssueKeyPattern =>
      if n > 0 && i + n < |s| && s[i + n] == '-' then
        var m := RunLength(s, i + n + 1, Digits);
        if m > 0 then Some(n + 1 + m) else None
      else None
  }

  /** The issue-key match at `i` is a key followed by no digit... */
  lemma IssueKeyMatchSound(s: string, i: nat)
    requires i <= |s|
    ensures var m := MatchLength(s, i, IssueKeyPattern);
            m.Some? ==> IsIssueKey(s[i..i + m.value]) && (i + m.value == |s| || !IsDigit(s[i + m.value]))
  {
    if MatchLength(s, i, IssueKeyPattern).Some? {
      var n := RunLength(s, i, KeyChars);
      var m := RunLength(s, i + n + 1, Digits);
      RunIsInClass(s, i, KeyChars);
      RunIsInClass(s, i + n + 1, Digits);
      KeySplitOfSlice(s, i, i + n + 1 + m, n);
      assert IsKeySplit(s[i..i + n + 1 + m], n);
    }
  }

  /** ...and a key starting at `i` means the pattern matches there. */
  lemma IssueKeyMatchComplete(s: string, i: nat, j: nat)
    requires i <= j <= |s|
    ensures IsIssueKey(s[i..j]) ==> MatchLength(s, i, IssueKeyPattern).Some?
  {
    if IsIssueKey(s[i..j]) {
      var d :| 0 < d < |s[i..j]| - 1 && IsKeySplit(s[i..j], d);
      KeySplitOfSlice(s, i, j, d);
      RunIsExactly(s, i, KeyChars, d);
    }
  }

  predicate AllInRange(s: string, lo: nat, hi: nat, cls: CharClass)
    requires lo <= hi <= |s|
  {
    forall t :: lo <= t < hi ==> InClass(s[t], cls)
  }

  /** `IsKeySplit` of a slice, in terms of the whole string. */
  lemma KeySplitOfSlice(s: string, i: nat, j: nat, d: nat)
    requires i <= j <= |s|
    ensures IsKeySplit(s[i..j], d) <==>
              && 0 < d < j - i - 1 && s[i + d] == '-'
              && AllInRange(s, i, i + d, KeyChars) && AllInRange(s, i + d + 1, j, Digits)
  {
    var k := s[i..j];
    if 0 < d < j - i - 1 {
      assert forall t :: i <= t < j ==> s[t] == k[t - i];
      assert forall jj :: 0 <= jj < |k| ==> k[jj] == s[i + jj];
    }
  }

  lemma SliceAllIn(s: string, lo: nat, hi: nat, cls: CharClass)
    requires lo <= hi <= |s|
    ensures AllIn(s[lo..hi], cls) <==> AllInRange(s, lo, hi, cls)
  {
    if AllIn(s[lo..hi], cls) {
      forall t | lo <= t < hi
        ensures InClass(s[t], cls)
      {
        assert s[t] == s[lo..hi][t - lo];
      }
    }
  }

  /** A run of `m` class characters ended by the string's end or another
      character is what `RunLength` measures. */
  lemma {:induction false} RunIsExactly(s: string, i: nat, cls: CharClass, m: nat)
    requires i + m <= |s| && AllInRange(s, i, i + m, cls)
    requires i + m == |s| || !InClass(s[i + m], cls)
    ensures RunLength(s, i, cls) == m
    decreases m
  {
    if m > 0 {
      RunIsExactly(s, i + 1, cls, m - 1);
    }
  }

  /** Every character `RunLength` counts is in the class. */
  lemma {:induction false} RunIsInClass(s: string, i: nat, cls: CharClass)
    requires i <= |s|
    ensures AllInRange(s, i, i + RunLength(s, i, cls), cls)
    decreases |s| - i
  {
    if i < |s| && InClass(s[i], cls) {
      RunIsInClass(s, i + 1, cls);
    }
  }

  /** A key character just before a match extends it leftwards. */
  lemma MatchExtendsLeft(s: string, i: nat)
    requires 0 < i <= |s| && MatchLength(s, i, IssueKeyPattern).Some?
    ensures IsKeyChar(s[i - 1]) ==> MatchLength(s, i - 1, IssueKeyPattern).Some?
  {
    if IsKeyChar(s[i - 1]) {
      assert RunLength(s, i - 1, KeyChars) == 1 + RunLength(s, i, KeyChars);
    }
  }

  predicate MarkerAt(s: string, marker: string, p: nat) {
    p + |marker| <= |s| && s[p..p + |marker|] == marker
  }

  /** The whole expression `marker` followed by `pat` matches at `p`. */
  predicate MatchAt(s: string, marker: string, pat: Pattern, p: nat) {
    MarkerAt(s, marker, p) && MatchLength(s, p + |marker|, pat).Some?
  }

  /** Capture group 1 of a match at `p`. */
  function MatchText(s: string, marker: string, pat: Pattern, p: nat): string
    requires MatchAt(s, marker, pat, p)
  {
    var start := p + |marker|;
    s[start..start + MatchLength(s, start, pat).value]
  }

  predicate IsFirstMatch(s: string, marker: string, pat: Pattern, p: nat) {
    MatchAt(s, marker, pat, p) && forall q: nat :: q < p ==> !MatchAt(s, marker, pat, q)
  }

  /** The leftmost position at or after `from` where the expression matches. */
  function FirstMatch(s: string, marker: string, pat: Pattern, from: nat): (r: Option<nat>)
    ensures r.Some? ==> from <= r.value && MatchAt(s, marker, pat, r.value)
    ensures r.Some? ==> forall q: nat :: from <= q < r.value ==> !MatchAt(s, marker, pat, q)
    ensures r.None? ==> forall q: nat :: from <= q ==> !MatchAt(s, marker, pat, q)
    decreases |s| + 1 - from
  {
    if from > |s| then None
    else if MatchAt(s, marker, pat, from) then Some(from)
    else FirstMatch(s, marker, pat, from + 1)
  }

  /** `s.match(/marker(pat)/)?.[1]` */
  function Search(s: string, marker: string, pat: Pattern): (r: Option<string>)
    ensures r.None? <==> forall p: nat :: !MatchAt(s, marker, pat, p)
    ensures r.Some? ==> exists p: nat :: IsFirstMatch(s, marker, pat, p) && r.value == MatchText(s, marker, pat, p)
  {
    match FirstMatch(s, marker, pat, 0)
    case Some(p) => Some(MatchText(s, marker, pat, p))
    case None => None
  }

  /** A search that can match at `p` reports the first match, which is at or
      before `p`. */
  lemma FirstSearchMatchIsNoLater(s: string, marker: string, pat: Pattern, p: nat)
    requires MatchAt(s, marker, pat, p)
    ensures Search(s, marker, pat).Some?
    ensures exists q: nat :: q <= p && IsFirstMatch(s, marker, pat, q) && Search(s, marker, pat) == Some(MatchText(s, marker, pat, q))
  {
    var r := FirstMatch(s, marker, pat, 0);
    assert r.Some?;
    var q := r.value;
    assert IsFirstMatch(s, marker, pat, q);
  }

  /** A found issue key is a key taken from the searched string. */
  lemma SearchFindsKey(s: string, marker: string)
    ensures var r := Search(s, marker, IssueKeyPattern);
            r.Some? ==> IsIssueKey(r.value) && IsSubstring(r.value, s)
  {
    var m := FirstMatch(s, marker, IssueKeyPattern, 0);
    if m.Some? {
      var k := MatchText(s, marker, IssueKeyPattern, m.value);
      assert Search(s, marker, IssueKeyPattern) == Some(k);
      var start := m.value + |marker|;
      var len := MatchLength(s, start, IssueKeyPattern).value;
      assert k == s[start..start + len];
      IssueKeyMatchSound(s, start);
      assert IsSubstring(k, s);
    }
  }

  /** The unanchored search finds nothing exactly when no part of the string
      is a key. */
  lemma {:induction false} UnanchoredSearchComplete(s: string)
    ensures Search(s, "", IssueKeyPattern).None? <==> !ContainsIssueKey(s)
  {
    if Search(s, "", IssueKeyPattern).None? {
      forall p, q | 0 <= p <= q <= |s|
        ensures !IsIssueKey(s[p..q])
      {
        IssueKeyMatchComplete(s, p, q);
        assert s[p..p] == "";
        assert !MatchAt(s, "", IssueKeyPattern, p);
      }
    } else {
      SearchFindsKey(s, "");
    }
  }

  /** `extractIssueKeyFromUrl`: the key after `/browse/`, else after
      `/issues/`, else anywhere. */
  function ExtractIssueKeyFromUrl(url: string): (r: Option<string>)
    ensures r.Some? ==> IsIssueKey(r.value) && IsSubstring(r.value, url)
    ensures r.None? <==> !ContainsIssueKey(url)
  {
    SearchFindsKey(url, "/browse/");
    SearchFindsKey(url, "/issues/");
    SearchFindsKey(url, "");
    UnanchoredSearchComplete(url);
    var browse := Search(url, "/browse/", IssueKeyPattern);
    if browse.Some? then browse
    else
      var issues := Search(url, "/issues/", IssueKeyPattern);
      if issues.Some? then issues
      else Search(url, "", IssueKeyPattern)
  }

  /** A key after `/browse/` wins: the result is the one after the first
      `/browse/` that is followed by a key. */
  lemma BrowseKeyWins(url: string, p: nat)
    requires MatchAt(url, "/browse/", IssueKeyPattern, p)
    ensures exists q: nat :: q <= p && IsFirstMatch(url, "/browse/", IssueKeyPattern, q)
                        && ExtractIssueKeyFromUrl(url) == Some(MatchText(url, "/browse/", IssueKeyPattern, q))
  {
    FirstSearchMatchIsNoLater(url, "/browse/", IssueKeyPattern, p);
  }

  /** Without such a `/browse/`, a key after `/issues/` wins. */
  lemma IssuesKeyWinsNext(url: string, p: nat)
    requires forall q: nat :: !MatchAt(url, "/browse/", IssueKeyPattern, q)
    requires MatchAt(url, "/issues/", IssueKeyPattern, p)
    ensures exists q: nat :: q <= p && IsFirstMatch(url, "/issues/", IssueKeyPattern, q)
                        && ExtractIssueKeyFromUrl(url) == Some(MatchText(url, "/issues/", IssueKeyPattern, q))
  {
    FirstSearchMatchIsNoLater(url, "/issues/", IssueKeyPattern, p);
  }

  /** The key `url[p..p + len]` starts no later than any other key, is not
      preceded by a `[A-Z0-9]` character and is not followed by a digit. */
  ghost predicate LeftmostMaximalKeyAt(url: string, p: nat, len: nat) {
    && p + len <= |url|
    && IsIssueKey(url[p..p + len])
    && (p == 0 || !IsKeyChar(url[p - 1]))
    && (p + len == |url| || !IsDigit(url[p + len]))
    && forall q: nat, e: nat :: q < p && q <= e <= |url| ==> !IsIssueKey(url[q..e])
  }

  /** Otherwise the result is the leftmost maximal key of the URL. */
  lemma LeftmostMaximalKeyIsExtracted(url: string, p: nat, len: nat)
    requires forall q: nat :: !MatchAt(url, "/browse/", IssueKeyPattern, q)
    requires forall q: nat :: !MatchAt(url, "/issues/", IssueKeyPattern, q)
    requires LeftmostMaximalKeyAt(url, p, len)
    ensures ExtractIssueKeyFromUrl(url) == Some(url[p..p + len])
  {
    UnanchoredSearchIsTheFallback(url);
    MaximalKeyIsMatched(url, p, len);
    forall q: nat | q < p
      ensures !MatchAt(url, "", IssueKeyPattern, q)
    {
      IssueKeyMatchSound(url, q);
    }
    assert IsFirstMatch(url, "", IssueKeyPattern, p);
    FirstMatchIsUnique(url, "", IssueKeyPattern, p);
    assert MatchText(url, "", IssueKeyPattern, p) == url[p..p + len];
    assert Search(url, "", IssueKeyPattern) == Some(url[p..p + len]);
  }

  lemma UnanchoredSearchIsTheFallback(url: string)
    requires forall q: nat :: !MatchAt(url, "/browse/", IssueKeyPattern, q)
    requires forall q: nat :: !MatchAt(url, "/issues/", IssueKeyPattern, q)
    ensures ExtractIssueKeyFromUrl(url) == Search(url, "", IssueKeyPattern)
  {
    assert FirstMatch(url, "/browse/", IssueKeyPattern, 0).None?;
    assert FirstMatch(url, "/issues/", IssueKeyPattern, 0).None?;
  }

  /** A key not followed by a digit is exactly what the pattern matches. */
  lemma MaximalKeyIsMatched(s: string, i: nat, len: nat)
    requires i + len <= |s| && IsIssueKey(s[i..i + len])
    requires i + len == |s| || !IsDigit(s[i + len])
    ensures MatchLength(s, i, IssueKeyPattern) == Some(len)
  {
    var d :| 0 < d < |s[i..i + len]| - 1 && IsKeySplit(s[i..i + len], d);
    KeySplitOfSlice(s, i, i + len, d);
    RunIsExactly(s, i, KeyChars, d);
    RunIsExactly(s, i + d + 1, Digits, len - d - 1);
  }

  lemma FirstMatchIsUnique(s: string, marker: string, pat: Pattern, p: nat)
    requires IsFirstMatch(s, marker, pat, p)
    ensures FirstMatch(s, marker, pat, 0) == Some(p)
  {
  }

  lemma FirstUnanchoredMatchIsLeftmostMaximal(url: string, p: nat)
    requires IsFirstMatch(url, "", IssueKeyPattern, p)
    ensures LeftmostMaximalKeyAt(url, p, MatchLength(url, p, IssueKeyPattern).value)
  {
    IssueKeyMatchSound(url, p);
    if p > 0 {
      MatchExtendsLeft(url, p);
      assert !MatchAt(url, "", IssueKeyPattern, p - 1);
    }
    forall q: nat, e: nat | q < p && q <= e <= |url|
      ensures !IsIssueKey(url[q..e])
    {
      IssueKeyMatchComplete(url, q, e);
      assert !MatchAt(url, "", IssueKeyPattern, q);
    }
  }

  /** JavaScript `s.split(sep)[0]`: the text before the first `sep`. */
  function SplitHead(s: string, sep: char): (r: string)
    ensures r <= s && sep !in r
    ensures |r| == |s| || s[|r|] == sep
  {
    if s == [] || s[0] == sep then [] else [s[0]] + SplitHead(s[1..], sep)
  }

  /** `extractProjectKeyFromUrl`: the key after `/projects/`, else the part of
      the issue key before its `-`. */
  function ExtractProjectKeyFromUrl(url: string): (r: Option<string>)
    ensures r.Some? ==> r.value != "" && AllIn(r.value, KeyChars) && IsSubstring(r.value, url)
    ensures r.None? <==> (forall p: nat :: !MatchAt(url, "/projects/", ProjectKeyPattern, p)) && !ContainsIssueKey(url)
  {
    ProjectSearchFindsRun(url);
    var projects := Search(url, "/projects/", ProjectKeyPattern);
    if projects.Some? then projects
    else
      match ExtractIssueKeyFromUrl(url)
      case Some(issueKey) =>
        ProjectPartOfKey(issueKey);
        SubstringOfSubstring(SplitHead(issueKey, '-'), issueKey, url);
        if issueKey != "" then Some(SplitHead(issueKey, '-')) else None
      case None => None
  }

  lemma ProjectSearchFindsRun(s: string)
    ensures var r := Search(s, "/projects/", ProjectKeyPattern);
            r.Some? ==> r.value != "" && AllIn(r.value, KeyChars) && IsSubstring(r.value, s)
  {
    var m := FirstMatch(s, "/projects/", ProjectKeyPattern, 0);
    if m.Some? {
      var k := MatchText(s, "/projects/", ProjectKeyPattern, m.value);
      assert Search(s, "/projects/", ProjectKeyPattern) == Some(k);
      var start := m.value + 10;
      var n := RunLength(s, start, KeyChars);
      RunIsInClass(s, start, KeyChars);
      SliceAllIn(s, start, start + n, KeyChars);
      assert k == s[start..start + n];
      assert IsSubstring(k, s);
    }
  }

  /** The part of an issue key before its `-` is its non-empty `[A-Z0-9]+` head. */
  lemma ProjectPartOfKey(key: string)
    requires IsIssueKey(key)
    ensures var head := SplitHead(key, '-');
            head != "" && AllIn(head, KeyChars) && head + "-" <= key
  {
    var d :| 0 < d < |key| - 1 && IsKeySplit(key, d);
    assert forall j :: 0 <= j < d ==> key[j] != '-' by {
      forall j | 0 <= j < d ensures key[j] != '-' {
        assert IsKeyChar(key[j]);
      }
    }
    SplitHeadAt(key, '-', d);
    assert forall j :: 0 <= j < d ==> key[..d][j] == key[j];
  }

  lemma SplitHeadAt(s: string, sep: char, d: nat)
    requires d < |s| && s[d] == sep
    requires forall j :: 0 <= j < d ==> s[j] != sep
    ensures SplitHead(s, sep) == s[..d]
  {
  }

  lemma SubstringOfSubstring(a: string, b: string, c: string)
    requires a <= b && IsSubstring(b, c)
    ensures IsSubstring(a, c)
  {
    var p, q :| 0 <= p <= q <= |c| && c[p..q] == b;
    assert c[p..p + |a|] == a;
  }

  /** A run after `/projects/` wins: the result is the maximal `[A-Z0-9]` run
      after the first `/projects/` followed by one. */
  lemma ProjectsPathWins(url: string, p: nat)
    requires MatchAt(url, "/projects/", ProjectKeyPattern, p)
    ensures exists q: nat :: q <= p && IsFirstMatch(url, "/projects/", ProjectKeyPattern, q)
                        && ExtractProjectKeyFromUrl(url) == Some(MatchText(url, "/projects/", ProjectKeyPattern, q))
  {
    FirstSearchMatchIsNoLater(url, "/projects/", ProjectKeyPattern, p);
  }

  /** Otherwise the project key is the head of the extracted issue key. */
  lemma ProjectKeyFromIssueKey(url: string)
    requires forall p: nat :: !MatchAt(url, "/projects/", ProjectKeyPattern, p)
    requires ExtractIssueKeyFromUrl(url).Some?
    ensures var key := ExtractIssueKeyFromUrl(url).value;
            ExtractProjectKeyFromUrl(url) == Some(SplitHead(key, '-'))
            && SplitHead(key, '-') + "-" <= key
  {
    ProjectPartOfKey(ExtractIssueKeyFromUrl(url).value);
  }
}
