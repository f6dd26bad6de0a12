/** The URL handling of clone_website: a simplified model of urlparse (only the
    scheme and the network location are used), the base URL and the name of the
    folder a site is cloned into. */
module Urls {
  import opened Strings

  /** The components of a parsed URL that the cloner uses. `rest` is everything
      after the network location: path, parameters, query and fragment, which
      the cloner never looks at. */
  datatype Url = Url(scheme: string, netloc: string, rest: string)

  /** urlparse either returns its components or raises ValueError for a network
      location with an unbalanced IPv6 bracket. */
  datatype Parsed = Parsed(url: Url) | InvalidIPv6(netloc: string)

  predicate IsAsciiLetter(c: char) {
    ('a' <= c <= 'z') || ('A' <= c <= 'Z')
  }

  /** The characters urllib accepts in a scheme: letters, digits, '+', '-', '.'. */
  predicate IsSchemeChar(c: char) {
    IsAsciiLetter(c) || ('0' <= c <= '9') || c == '+' || c == '-' || c == '.'
  }

  /** A scheme urlparse recognises: a letter followed by scheme characters. */
  predicate ValidScheme(s: string) {
    |s| > 0 && IsAsciiLetter(s[0]) && forall k :: 0 <= k < |s| ==> IsSchemeChar(s[k])
  }

  predicate IsLowerAscii(s: string) {
    forall k :: 0 <= k < |s| ==> !('A' <= s[k] <= 'Z')
  }

  /** The characters that end a network location. */
  predicate IsNetlocDelimiter(c: char) {
    c == '/' || c == '?' || c == '#'
  }

  predicate NoNetlocDelimiter(s: string) {
    forall k :: 0 <= k < |s| ==> !IsNetlocDelimiter(s[k])
  }

  function LowerChar(c: char): (d: char)
    ensures !('A' <= d <= 'Z')
    ensures IsSchemeChar(c) ==> IsSchemeChar(d)
    ensures !('A' <= c <= 'Z') ==> d == c
  {
    if 'A' <= c <= 'Z' then (c as int + 32) as char else c
  }

  function Lower(s: string): (r: string)
    ensures |r| == |s| && IsLowerAscii(r)
    ensures forall k :: 0 <= k < |s| ==> r[k] == LowerChar(s[k])
  {
    seq(|s|, k requires 0 <= k < |s| => LowerChar(s[k]))
  }

  /** Python's str.find, with |s| standing for "not found". */
  function IndexOf(s: string, c: char): (i: nat)
    ensures i <= |s|
    ensures forall k :: 0 <= k < i ==> s[k] != c
    ensures i < |s| ==> s[i] == c
  {
    if s == [] || s[0] == c then 0 else 1 + IndexOf(s[1..], c)
  }

  /** The length of the scheme at the head of `s`, or 0 when there is none. */
  function SchemeEnd(s: string): (k: nat)
    ensures k < |s|
            || k == 0
    ensures k > 0 ==> s[k] == ':' && ValidScheme(s[..k]) && ':' !in s[..k]
  {
    var i := IndexOf(s, ':');
    if i < |s| && ValidScheme(s[..i]) then i else 0
  }

  /** The first index at or after `i` holding a delimiter, or |s|. */
  function NetlocEnd(s: string, i: nat): (j: nat)
    requires i <= |s|
    ensures i <= j <= |s|
    ensures NoNetlocDelimiter(s[i..j])
    ensures j < |s| ==> IsNetlocDelimiter(s[j])
    decreases |s| - i
  {
    if i == |s| || IsNetlocDelimiter(s[i]) then i
    else
      var j := NetlocEnd(s, i + 1);
      assert s[i..j] == [s[i]] + s[i + 1..j];
      j
  }

  predicate UnbalancedBrackets(netloc: string) {
    ('[' in netloc) != (']' in netloc)
  }

  /** urlparse(s), restricted to what the cloner uses (as in Python 3.9.16,
      3.10.9, 3.11.1 and later, which require a scheme to start with a letter):
      a scheme is the text before the first ':' when it is a valid scheme, and
      is lower-cased; a network location follows a "//" and runs to the first
      '/', '?' or '#'. */
  function Parse(s: string): (r: Parsed)
    ensures r.Parsed? ==> IsLowerAscii(r.url.scheme) && NoNetlocDelimiter(r.url.netloc)
    ensures r.Parsed? ==> IsSuffix(r.url.rest, s)
    ensures r.Parsed? ==> r.url.rest == "" || r.url.netloc == "" || IsNetlocDelimiter(r.url.rest[0])
    ensures r.Parsed? ==> !UnbalancedBrackets(r.url.netloc)
    ensures r.InvalidIPv6? ==> UnbalancedBrackets(r.netloc)
  {
    var k := SchemeEnd(s);
    var scheme := if k == 0 then "" else Lower(s[..k]);
    var tail := if k == 0 then s else s[k + 1..];
    if |tail| >= 2 && tail[..2] == "//" then
      var j := NetlocEnd(tail, 2);
      var netloc := tail[2..j];
      if UnbalancedBrackets(netloc) then InvalidIPv6(netloc)
      else Parsed(Url(scheme, netloc, tail[j..]))
    else
      Parsed(Url(scheme, "", tail))
  }

  /** base_url: the scheme and the network location, joined by "://". */
  function BaseUrl(u: Url): (r: string)
    ensures u.scheme <= r && IsSuffix(u.netloc, r)
    ensures |r| == |u.scheme| + 3 + |u.netloc| && r[|u.scheme|..|u.scheme| + 3] == "://"
  {
    u.scheme + "://" + u.netloc
  }

  /** folder_name: the network location with every '.' replaced by '_'. */
  function FolderName(netloc: string): (r: string)
    ensures |r| == |netloc|
    ensures forall k :: 0 <= k < |netloc| ==> r[k] == (if netloc[k] == '.' then '_' else netloc[k])
    ensures '.' !in r
  {
    if netloc == [] then []
    else [if netloc[0] == '.' then '_' else netloc[0]] + FolderName(netloc[1..])
  }

  /** Any valid scheme, a network location and a remaining part starting
      with a delimiter are recovered by Parse: the scheme lower-cased, the
      network location and the rest as they were; a network location with an
      unbalanced IPv6 bracket raises instead. */
  lemma {:induction false} ParseComposed(scheme: string, netloc: string, rest: string)
    requires ValidScheme(scheme)
    requires NoNetlocDelimiter(netloc)
    requires rest == "" || IsNetlocDelimiter(rest[0])
    ensures Parse(scheme + "://" + netloc + rest) ==
              if UnbalancedBrackets(netloc) then InvalidIPv6(netloc)
              else Parsed(Url(Lower(scheme), netloc, rest))
  {
    var s := scheme + "://" + netloc + rest;
    var n := |scheme|;
    var tail := "//" + netloc + rest;
    assert s[..n] == scheme && s[n + 1..] == tail by {
      assert s == scheme + ([':'] + tail);
      SchemeOfComposed(scheme, tail);
    }
    assert SchemeEnd(s) == n by {
      assert s == scheme + ([':'] + tail);
      SchemeOfComposed(scheme, tail);
    }
    assert tail[2..2 + |netloc|] == netloc && tail[2 + |netloc|..] == rest && tail[..2] == "//";
    NetlocOfComposed(netloc, rest);
    ParseSplit(s, n, 2 + |netloc|);
  }

  /** Parse unfolded at a scheme ending at k and a network location ending
      at j of the part after the ':'. */
  lemma ParseSplit(s: string, k: nat, j: nat)
    requires 0 < k == SchemeEnd(s)
    requires |s[k + 1..]| >= 2 && s[k + 1..][..2] == "//"
    requires NetlocEnd(s[k + 1..], 2) == j
    ensures Parse(s) ==
              if UnbalancedBrackets(s[k + 1..][2..j]) then InvalidIPv6(s[k + 1..][2..j])
              else Parsed(Url(Lower(s[..k]), s[k + 1..][2..j], s[k + 1..][j..]))
  {
  }

  /** The scheme of a composed URL ends at the ':' put after it. */
  lemma SchemeOfComposed(scheme: string, tail: string)
    requires ValidScheme(scheme)
    ensures SchemeEnd(scheme + ([':'] + tail)) == |scheme|
  {
    var s := scheme + ([':'] + tail);
    var n := |scheme|;
    assert s[n] == ':';
    assert forall k :: 0 <= k < n ==> s[k] == scheme[k] && IsSchemeChar(scheme[k]);
    var i := IndexOf(s, ':');
    assert i <= n;
    assert s[..n] == scheme;
  }

  /** The network location of a composed URL ends where the rest begins. */
  lemma NetlocOfComposed(netloc: string, rest: string)
    requires NoNetlocDelimiter(netloc)
    requires rest == "" || IsNetlocDelimiter(rest[0])
    ensures NetlocEnd("//" + netloc + rest, 2) == 2 + |netloc|
  {
    var tail := "//" + netloc + rest;
    assert tail[2..2 + |netloc|] == netloc;
    assert rest != "" ==> tail[2 + |netloc|] == rest[0];
    NetlocEndAt(tail, 2, 2 + |netloc|);
  }

  /** NetlocEnd stops at the first delimiter: any delimiter-free stretch that
      reaches a delimiter or the end is its answer. */
  lemma {:induction false} NetlocEndAt(s: string, i: nat, e: nat)
    requires i <= e <= |s| && NoNetlocDelimiter(s[i..e])
    requires e < |s| ==> IsNetlocDelimiter(s[e])
    ensures NetlocEnd(s, i) == e
    decreases e - i
  {
    if i < e {
      assert s[i..e][0] == s[i];
      assert s[i + 1..e] == s[i..e][1..];
      NetlocEndAt(s, i + 1, e);
    }
  }

  /** The base URL keeps the (lower-cased) scheme and the network location of
      its input and drops whatever follows them (path, query, fragment). */
  lemma BaseUrlDropsRest(scheme: string, netloc: string, rest: string)
    requires ValidScheme(scheme)
    requires NoNetlocDelimiter(netloc) && !UnbalancedBrackets(netloc)
    requires rest == "" || IsNetlocDelimiter(rest[0])
    ensures Parse(scheme + "://" + netloc + rest).Parsed?
    ensures BaseUrl(Parse(scheme + "://" + netloc + rest).url) == Lower(scheme) + "://" + netloc
  {
    ParseComposed(scheme, netloc, rest);
  }

  /** When the typed URL starts with a lower-case scheme and "://", the base
      URL is a prefix of it and the part Parse leaves over is the remainder. */
  lemma {:induction false} BaseUrlIsPrefix(s: string)
    requires SchemeEnd(s) > 0 && IsLowerAscii(s[..SchemeEnd(s)])
    requires |s| >= SchemeEnd(s) + 3
    requires s[SchemeEnd(s) + 1..][..2] == "//"
    requires Parse(s).Parsed?
    ensures BaseUrl(Parse(s).url) <= s
    ensures s == BaseUrl(Parse(s).url) + Parse(s).url.rest
  {
    var k := SchemeEnd(s);
    var tail := s[k + 1..];
    var j := NetlocEnd(tail, 2);
    ParseOfLowerScheme(s);
    SplitAt(s, k, j);
  }

  lemma ParseOfLowerScheme(s: string)
    requires SchemeEnd(s) > 0 && IsLowerAscii(s[..SchemeEnd(s)])
    requires |s| >= SchemeEnd(s) + 3
    requires s[SchemeEnd(s) + 1..][..2] == "//"
    requires Parse(s).Parsed?
    ensures var k := SchemeEnd(s); var tail := s[k + 1..]; var j := NetlocEnd(tail, 2);
      Parse(s) == Parsed(Url(s[..k], tail[2..j], tail[j..]))
  {
    LowerOfLower(s[..SchemeEnd(s)]);
  }

  lemma SplitAt(s: string, k: nat, j: nat)
    requires k + 3 <= |s| && s[k] == ':' && s[k + 1..][..2] == "//"
    requires 2 <= j <= |s| - k - 1
    ensures var tail := s[k + 1..]; s == s[..k] + "://" + tail[2..j] + tail[j..]
  {
    var tail := s[k + 1..];
    assert s == s[..k] + ":" + tail;
    assert tail == "//" + tail[2..j] + tail[j..];
  }

  lemma LowerOfLower(s: string)
    requires IsLowerAscii(s)
    ensures Lower(s) == s
  {
  }

  /** Folder names keep the characters of the network location apart from '.',
      so renaming a second time changes nothing. */
  lemma FolderNameIdempotent(netloc: string)
    ensures FolderName(FolderName(netloc)) == FolderName(netloc)
  {
  }

  /** Two different hosts can be cloned into the same folder. */
  lemma FolderNameCollides()
    ensures "a.b" != "a_b" && FolderName("a.b") == FolderName("a_b")
  {
    assert FolderName("a.b") == "a_b";
    assert FolderName("a_b") == "a_b";
  }
}
