/** The two components of `urllib.parse.urlparse` that the backend reads,
    `scheme` and `hostname`, computed the way `urlsplit` splits a URL, and
    the ValueError `urlsplit` raises for a netloc with unbalanced brackets. */
module Url {
  import opened Base
  import opened Strings

  predicate IsAsciiLetter(c: char) { ('a' <= c <= 'z') || ('A' <= c <= 'Z') }

  predicate IsSchemeChar(c: char) { IsAsciiLetter(c) || IsDigit(c) || c == '+' || c == '-' || c == '.' }

  predicate AllSchemeChars(s: string) {
    s == [] || (IsSchemeChar(s[0]) && AllSchemeChars(s[1..]))
  }

  lemma {:induction false} AllSchemeCharsMeaning(s: string)
    ensures AllSchemeChars(s) <==> forall k :: 0 <= k < |s| ==> IsSchemeChar(s[k])
  {
    if s != [] {
      AllSchemeCharsMeaning(s[1..]);
      assert forall k :: 1 <= k < |s| ==> s[k] == s[1..][k - 1];
    }
  }

  // ------------------------------------------------------------ cleaning

  /** The C0 controls and space, which `urlsplit` strips from the front. */
  predicate IsControlOrSpace(c: char) { c <= ' ' }

  /** `url.lstrip(_WHATWG_C0_CONTROL_OR_SPACE)`. */
  function TrimControls(s: string): (r: string)
    ensures r == [] || !IsControlOrSpace(r[0])
  {
    if s != [] && IsControlOrSpace(s[0]) then TrimControls(s[1..]) else s
  }

  /** Tab, carriage return and line feed, which `urlsplit` deletes wherever
      they occur. */
  predicate IsUnsafe(c: char) { c == '\t' || c == '\r' || c == '\n' }

  function RemoveUnsafe(s: string): (r: string)
    ensures |r| <= |s|
  {
    if s == [] then []
    else if IsUnsafe(s[0]) then RemoveUnsafe(s[1..])
    else [s[0]] + RemoveUnsafe(s[1..])
  }

  /** Nothing deleted is left behind. */
  lemma {:induction false} RemoveUnsafeRemoves(s: string)
    ensures forall k :: 0 <= k < |RemoveUnsafe(s)| ==> !IsUnsafe(RemoveUnsafe(s)[k])
  {
    if s != [] {
      RemoveUnsafeRemoves(s[1..]);
    }
  }

  lemma {:induction false} RemoveUnsafeConcat(a: string, b: string)
    ensures RemoveUnsafe(a + b) == RemoveUnsafe(a) + RemoveUnsafe(b)
  {
    if a == [] {
      assert a + b == b;
    } else {
      assert (a + b)[1..] == a[1..] + b;
      RemoveUnsafeConcat(a[1..], b);
    }
  }

  /** A string without tab, CR or LF is left as it is. */
  lemma {:induction false} RemoveUnsafeClean(s: string)
    requires forall k :: 0 <= k < |s| ==> !IsUnsafe(s[k])
    ensures RemoveUnsafe(s) == s
  {
    if s != [] {
      RemoveUnsafeClean(s[1..]);
    }
  }

  /** The string `urlsplit` goes on to split. */
  function Cleaned(url: string): string {
    RemoveUnsafe(TrimControls(url))
  }

  /** Cleaning twice changes nothing more: what remains starts with a
      character above space and holds no tab, CR or LF. */
  lemma CleanedIdempotent(url: string)
    ensures Cleaned(Cleaned(url)) == Cleaned(url)
  {
    var t := TrimControls(url);
    var u := RemoveUnsafe(t);
    if t != [] {
      assert t == [t[0]] + t[1..];
      RemoveUnsafeConcat([t[0]], t[1..]);
      assert u[0] == t[0];
    }
    assert TrimControls(u) == u;
    RemoveUnsafeRemoves(t);
    RemoveUnsafeClean(u);
  }

  // ---------------------------------------------------------------- split

  /** Position of the first ':' when everything before it is a scheme: at
      least one character, an ASCII letter first, then scheme characters. */
  function SchemeColon(url: string): (r: Option<nat>)
    ensures r.Some? ==> 0 < r.value < |url| && url[r.value] == ':'
  {
    match IndexOf(url, ':')
    case None => None
    case Some(i) =>
      if i > 0 && IsAsciiLetter(url[0]) && AllSchemeChars(url[..i]) then Some(i) else None
  }

  lemma SchemeColonAt(url: string, i: nat)
    requires 0 < i < |url| && url[i] == ':' && ':' !in url[..i]
    requires IsAsciiLetter(url[0]) && forall k :: 0 <= k < i ==> IsSchemeChar(url[k])
    ensures SchemeColon(url) == Some(i)
  {
    assert IndexOf(url, ':') == Some(i);
    AllSchemeCharsMeaning(url[..i]);
  }

  /** The scheme of a cleaned URL, lower-cased; empty when there is none. */
  function SchemeOf(u: string): string {
    match SchemeColon(u)
    case None => ""
    case Some(i) => Lower(u[..i])
  }

  function AfterSchemeOf(u: string): string {
    match SchemeColon(u)
    case None => u
    case Some(i) => u[i + 1..]
  }

  /** Length of the authority part: up to the first '/', '?' or '#'. */
  function AuthorityLength(s: string): (n: nat)
    ensures n <= |s|
  {
    if s == [] || s[0] == '/' || s[0] == '?' || s[0] == '#' then 0 else 1 + AuthorityLength(s[1..])
  }

  /** The netloc of a cleaned URL: the authority after "//", if any. */
  function NetlocOf(u: string): string {
    var rest := AfterSchemeOf(u);
    if StartsWith(rest, "//") then rest[2..][..AuthorityLength(rest[2..])] else ""
  }

  /** The hostname of a netloc: without user info and port, bracketed IPv6
      hosts unwrapped, lower-cased up to a '%' zone id. */
  function HostOfNetloc(netloc: string): Option<string> {
    var hostinfo := match LastIndexOf(netloc, '@') case None => netloc case Some(k) => netloc[k + 1..];
    var host :=
      match IndexOf(hostinfo, '[')
      case Some(b) =>
        var bracketed := hostinfo[b + 1..];
        (match IndexOf(bracketed, ']') case None => bracketed case Some(e) => bracketed[..e])
      case None =>
        (match IndexOf(hostinfo, ':') case None => hostinfo case Some(c) => hostinfo[..c]);
    if host == "" then None
    else
      match IndexOf(host, '%')
      case None => Some(Lower(host))
      case Some(p) => Some(Lower(host[..p]) + host[p..])
  }

  /** `urlparse(url).scheme`. */
  function Scheme(url: string): string { SchemeOf(Cleaned(url)) }

  /** `urlparse(url).netloc`. */
  function Netloc(url: string): string { NetlocOf(Cleaned(url)) }

  /** `urlparse(url).hostname`. */
  function Hostname(url: string): Option<string> { HostOfNetloc(Netloc(url)) }

  // --------------------------------------------------------------- urlparse

  const InvalidIpv6Message := "Invalid IPv6 URL"

  /** `urlsplit` raises ValueError when the netloc holds a '[' without a
      ']', or a ']' without a '['. */
  predicate UnbalancedBrackets(netloc: string) {
    ('[' in netloc) != (']' in netloc)
  }

  /** The parts of `urlparse(url)` the backend reads. */
  datatype Parsed = Parsed(scheme: string, hostname: Option<string>)

  /** The parse of a cleaned URL. */
  function ParseCleaned(u: string): Result<Parsed, Error> {
    var netloc := NetlocOf(u);
    if UnbalancedBrackets(netloc) then Failure(ValueError(InvalidIpv6Message))
    else Success(Parsed(SchemeOf(u), HostOfNetloc(netloc)))
  }

  /** `urlparse(url)`: the parts, or the ValueError raised for unbalanced
      brackets. */
  function UrlParse(url: string): (r: Result<Parsed, Error>)
    ensures r.Failure? <==> UnbalancedBrackets(Netloc(url))
    ensures r.Failure? ==> r.error == ValueError(InvalidIpv6Message)
    ensures r.Success? ==> r.value == Parsed(Scheme(url), Hostname(url))
  {
    ParseCleaned(Cleaned(url))
  }

  /** Tabs, CRs, LFs and leading controls make no difference to the parse. */
  lemma UrlParseOfCleaned(url: string)
    ensures UrlParse(Cleaned(url)) == UrlParse(url)
  {
    CleanedIdempotent(url);
  }

  /** A tab, CR or LF after the first character makes no difference to
      the parse: "ht\ttp://a.com" is split as "http://a.com". */
  lemma UnsafeIgnored(a: string, c: char, b: string)
    requires a != [] && !IsControlOrSpace(a[0]) && IsUnsafe(c)
    ensures UrlParse(a + [c] + b) == UrlParse(a + b)
  {
    assert (a + [c] + b)[0] == a[0] && (a + b)[0] == a[0];
    assert TrimControls(a + [c] + b) == a + [c] + b;
    assert TrimControls(a + b) == a + b;
    RemoveUnsafeConcat(a + [c], b);
    RemoveUnsafeConcat(a, [c]);
    RemoveUnsafeConcat(a, b);
    assert RemoveUnsafe([c]) == [];
    assert Cleaned(a + [c] + b) == Cleaned(a + b);
  }

  /** An authority without '/', '?' or '#' runs to the end. */
  lemma {:induction false} AuthorityWhole(s: string)
    requires forall k :: 0 <= k < |s| ==> s[k] != '/' && s[k] != '?' && s[k] != '#'
    ensures AuthorityLength(s) == |s|
  {
    if s != [] {
      AuthorityWhole(s[1..]);
    }
  }

  /** A URL made of a scheme, ':' and a rest without tab, CR or LF is
      split after that scheme. */
  lemma SchemeSplit(scheme: string, rest: string)
    requires scheme != [] && IsAsciiLetter(scheme[0])
    requires forall k :: 0 <= k < |scheme| ==> IsSchemeChar(scheme[k])
    requires forall k :: 0 <= k < |rest| ==> !IsUnsafe(rest[k])
    ensures Cleaned(scheme + ":" + rest) == scheme + ":" + rest
    ensures SchemeOf(scheme + ":" + rest) == Lower(scheme)
    ensures AfterSchemeOf(scheme + ":" + rest) == rest
  {
    var url := scheme + ":" + rest;
    var i := |scheme|;
    assert url[0] == scheme[0];
    assert forall k :: 0 <= k < |url| ==> !IsUnsafe(url[k]) by {
      forall k | 0 <= k < |url| ensures !IsUnsafe(url[k]) {
        if k < i { assert url[k] == scheme[k]; }
        else if k > i { assert url[k] == rest[k - i - 1]; }
      }
    }
    RemoveUnsafeClean(url);
    assert url[..i] == scheme;
    SchemeColonAt(url, i);
    assert url[i + 1..] == rest;
  }

  /** Whatever follows it, a scheme and ':' at the front of a URL are
      taken as its scheme. */
  lemma SchemeOfPrefixed(scheme: string, rest: string)
    requires scheme != [] && IsAsciiLetter(scheme[0])
    requires forall k :: 0 <= k < |scheme| ==> IsSchemeChar(scheme[k])
    ensures Scheme(scheme + ":" + rest) == Lower(scheme)
  {
    var head := scheme + ":";
    assert forall k :: 0 <= k < |head| ==> !IsUnsafe(head[k]) by {
      forall k | 0 <= k < |head| ensures !IsUnsafe(head[k]) {
        if k < |scheme| { assert head[k] == scheme[k]; }
      }
    }
    RemoveUnsafeClean(head);
    RemoveUnsafeConcat(head, rest);
    assert (head + rest)[0] == scheme[0];
    assert Cleaned(head + rest) == scheme + ":" + RemoveUnsafe(rest);
    RemoveUnsafeRemoves(rest);
    SchemeSplit(scheme, RemoveUnsafe(rest));
  }

  /** A URL whose first character is above space but neither a letter nor
      '/' has no scheme and no netloc, and is accepted. */
  lemma NoSchemeNoNetloc(url: string)
    requires url != [] && !IsControlOrSpace(url[0]) && !IsAsciiLetter(url[0]) && url[0] != '/'
    ensures Scheme(url) == "" && Netloc(url) == "" && UrlParse(url).Success?
  {
    assert TrimControls(url) == url;
    assert url == [url[0]] + url[1..];
    RemoveUnsafeConcat([url[0]], url[1..]);
    var u := Cleaned(url);
    assert u[0] == url[0];
    assert SchemeColon(u) == None;
    assert !StartsWith(u, "//");
  }

  /** After "scheme://", a netloc without '/', '?', '#', tab, CR or LF
      runs to the end of the URL. */
  lemma NetlocSplit(scheme: string, netloc: string)
    requires scheme != [] && IsAsciiLetter(scheme[0])
    requires forall k :: 0 <= k < |scheme| ==> IsSchemeChar(scheme[k])
    requires forall k :: 0 <= k < |netloc| ==>
               netloc[k] != '/' && netloc[k] != '?' && netloc[k] != '#' && !IsUnsafe(netloc[k])
    ensures Netloc(scheme + "://" + netloc) == netloc
  {
    var rest := "//" + netloc;
    assert scheme + "://" + netloc == scheme + ":" + rest;
    assert forall k :: 0 <= k < |rest| ==> !IsUnsafe(rest[k]) by {
      forall k | 0 <= k < |rest| ensures !IsUnsafe(rest[k]) {
        if k >= 2 { assert rest[k] == netloc[k - 2]; }
      }
    }
    SchemeSplit(scheme, rest);
    assert rest[2..] == netloc;
    AuthorityWhole(netloc);
    assert netloc[..|netloc|] == netloc;
  }

  /** An IPv6 literal without its closing bracket is rejected:
      "http://[::1" raises ValueError. */
  lemma UnclosedBracketRejected(scheme: string, netloc: string)
    requires scheme != [] && IsAsciiLetter(scheme[0])
    requires forall k :: 0 <= k < |scheme| ==> IsSchemeChar(scheme[k])
    requires forall k :: 0 <= k < |netloc| ==>
               netloc[k] != '/' && netloc[k] != '?' && netloc[k] != '#' && !IsUnsafe(netloc[k])
    requires '[' in netloc && ']' !in netloc
    ensures UrlParse(scheme + "://" + netloc) == Failure(ValueError(InvalidIpv6Message))
  {
    NetlocSplit(scheme, netloc);
  }
}
