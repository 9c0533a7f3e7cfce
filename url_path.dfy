/**
 * The path component that `urlparse(self.path).path` yields, which is what
 * both request handlers route on: an optional scheme is split off, then an
 * authority introduced by "//", then the fragment and the query, and finally
 * the ';' parameters of the last segment for schemes that carry them.
 */
module UrlPath {

  /** Index of the first character of `s` in `stops`, or |s| when there is none. */
  function FirstIndex(s: string, stops: set<char>): (i: nat)
    ensures i <= |s|
    ensures forall j | 0 <= j < i :: s[j] !in stops
    ensures i < |s| ==> s[i] in stops
  {
    if s == [] then 0
    else if s[0] in stops then 0
    else 1 + FirstIndex(s[1..], stops)
  }

  /** Index of the last occurrence of `c` (`str.rfind`), -1 when there is none. */
  function LastIndex(s: string, c: char): (i: int)
    ensures -1 <= i < |s|
    ensures i >= 0 ==> s[i] == c
    ensures forall j | i < j < |s| :: s[j] != c
  {
    if s == [] then -1
    else if s[|s| - 1] == c then |s| - 1
    else LastIndex(s[..|s| - 1], c)
  }

  predicate IsAsciiLetter(c: char)
  {
    'a' <= c <= 'z' || 'A' <= c <= 'Z'
  }

  /** Letters, digits, '+', '-' and '.'. */
  predicate IsSchemeChar(c: char)
  {
    IsAsciiLetter(c) || '0' <= c <= '9' || c == '+' || c == '-' || c == '.'
  }

  function LowerChar(c: char): char
  {
    if 'A' <= c <= 'Z' then (c as int + 32) as char else c
  }

  function Lower(s: string): (r: string)
    ensures |r| == |s|
  {
    if s == [] then [] else [LowerChar(s[0])] + Lower(s[1..])
  }

  /** Schemes whose paths may carry ';' parameters; the empty scheme is one of them. */
  const UsesParams: set<string> :=
    {"", "ftp", "hdl", "prospero", "http", "imap", "https", "shttp", "rtsp", "rtsps",
     "rtspu", "sip", "sips", "mms", "sftp", "tel"}

  /** The scheme (lower-cased) and the rest; the scheme is empty when the prefix before ':' is not one. */
  function SplitScheme(url: string): (r: (string, string))
    ensures r.0 == "" ==> r.1 == url
    ensures |url| > 0 && !IsAsciiLetter(url[0]) ==> r == ("", url)
  {
    var i := FirstIndex(url, {':'});
    if 0 < i < |url| && IsAsciiLetter(url[0]) && forall j | 0 <= j < i :: IsSchemeChar(url[j])
    then (Lower(url[..i]), url[i + 1..])
    else ("", url)
  }

  /** `rest` starts with "//", which introduces an authority. */
  predicate HasAuthority(rest: string)
  {
    |rest| >= 2 && rest[0] == '/' && rest[1] == '/'
  }

  /** What follows the authority when `rest` starts with "//", else `rest` itself. */
  function AfterAuthority(rest: string): (r: string)
    ensures |r| <= |rest| && r == rest[|rest| - |r|..]
    ensures !HasAuthority(rest) ==> r == rest
  {
    if HasAuthority(rest)
    then rest[2 + FirstIndex(rest[2..], {'/', '?', '#'})..]
    else rest
  }

  /** The path without the parameters of its last segment (what `_splitparams` keeps). */
  function StripParams(p: string): (r: string)
    ensures r <= p
  {
    if '/' in p then
      var k := LastIndex(p, '/');
      var i := FirstIndex(p[k..], {';'});
      p[..k + i]
    else p[..FirstIndex(p, {';'})]
  }

  /** A request target that starts with a single '/'. */
  predicate OriginForm(target: string)
  {
    |target| > 0 && target[0] == '/' && !(|target| >= 2 && target[1] == '/')
  }

  /** `urlparse(target).path`. */
  function ParsedPath(target: string): (path: string)
    ensures '?' !in path && '#' !in path
  {
    var split := SplitScheme(target);
    PathPart(split.0, AfterAuthority(split.1))
  }

  /** The part before any query or fragment, without parameters when the scheme carries them. */
  function PathPart(scheme: string, s: string): (path: string)
    ensures path <= s
    ensures '?' !in path && '#' !in path
  {
    var p := BeforeQuery(s);
    if scheme in UsesParams && ';' in p then StripParams(p) else p
  }

  /** The prefix before the first '?' or '#'. */
  function BeforeQuery(s: string): (p: string)
    ensures p <= s && '?' !in p && '#' !in p
    ensures |p| < |s| ==> s[|p|] == '?' || s[|p|] == '#'
  {
    s[..FirstIndex(s, {'?', '#'})]
  }

  /** For an origin-form target the parsed path is a prefix of the target. */
  lemma OriginFormPrefix(target: string)
    requires OriginForm(target)
    ensures ParsedPath(target) <= target
  {
    assert SplitScheme(target) == ("", target);
    assert AfterAuthority(target) == target;
  }

  /** A suffix that starts with a stop character does not move the first stop. */
  lemma {:induction false} FirstIndexAppend(a: string, b: string, stops: set<char>)
    requires |b| > 0 && b[0] in stops
    ensures FirstIndex(a + b, stops) == FirstIndex(a, stops)
  {
    if a != [] {
      assert (a + b)[0] == a[0];
      if a[0] !in stops {
        assert (a + b)[1..] == a[1..] + b;
        FirstIndexAppend(a[1..], b, stops);
      }
    }
  }

  /**
   * Appending a query ('?...') or a fragment ('#...') to an origin-form path
   * without either leaves the parsed path, and hence the route, unchanged.
   */
  lemma QueryIgnored(p: string, suffix: string)
    requires |p| > 0 && p[0] == '/' && '?' !in p && '#' !in p
    requires |suffix| > 0 && (suffix[0] == '?' || suffix[0] == '#')
    ensures ParsedPath(p + suffix) == ParsedPath(p)
  {
    var t := p + suffix;
    assert t[0] == '/';
    assert SplitScheme(t) == ("", t);
    assert SplitScheme(p) == ("", p);
    AfterAuthorityAppend(p, suffix);
    var a := AfterAuthority(p);
    assert '?' !in a && '#' !in a by {
      forall j | 0 <= j < |a| ensures a[j] != '?' && a[j] != '#' {
        assert a[j] == p[|p| - |a| + j];
      }
    }
    BeforeQueryAppend(a, suffix);
  }

  /** The part before the query ignores whatever follows the first '?' or '#'. */
  lemma BeforeQueryAppend(a: string, suffix: string)
    requires '?' !in a && '#' !in a
    requires |suffix| > 0 && (suffix[0] == '?' || suffix[0] == '#')
    ensures BeforeQuery(a + suffix) == BeforeQuery(a) == a
  {
    var q := {'?', '#'};
    FirstIndexAppend(a, suffix, q);
    var i := FirstIndex(a, q);
    assert i == |a|;
    assert (a + suffix)[..i] == a;
  }

  /** A query or fragment appended to a '/'-rooted target stays after the authority. */
  lemma AfterAuthorityAppend(p: string, suffix: string)
    requires |p| > 0 && p[0] == '/'
    requires |suffix| > 0 && (suffix[0] == '?' || suffix[0] == '#')
    ensures AfterAuthority(p + suffix) == AfterAuthority(p) + suffix
  {
    var t := p + suffix;
    if HasAuthority(p) {
      var d := {'/', '?', '#'};
      assert t[2..] == p[2..] + suffix;
      FirstIndexAppend(p[2..], suffix, d);
      var k := 2 + FirstIndex(p[2..], d);
      assert t[k..] == p[k..] + suffix;
    } else {
      assert !HasAuthority(t) by {
        if |p| == 1 { assert t[1] == suffix[0]; }
      }
    }
  }
}
