/** The heuristic page scanner of backend/utils/security.py: four checks on
    the fetched URL and HTML, each appending at most one finding to a
    report whose risk score is the sum of the findings' weights. */
module Security {
  import opened Base
  import opened Strings
  import opened Url

  const SuspiciousKeywords: seq<string> :=
    ["javascript:", "data:text/html", "onerror=", "document.cookie", "window.location"]
  const SuspiciousTags: seq<string> := ["script", "iframe", "object", "embed", "form"]
  const ScriptThreshold := 80
  const TagThreshold := 5

  /** The level of a finding: the three the scanner uses, and any other
      label, which is weighed by its text as the level table is. */
  datatype Level = Info | Warning | Critical | Other(tag: string)

  /** One finding of a scan. */
  datatype Finding = Finding(name: string, level: Level, detail: string)

  const InsecureProtocol := Finding("Insecure protocol", Warning,
    "연결이 HTTPS가 아니어서 중간자 공격에 취약할 수 있습니다.")
  const IpAddressHost := Finding("IP address host", Warning,
    "도메인 대신 IP 주소를 바로 사용하고 있어 피싱 가능성을 확인하세요.")
  const KeywordDetailPrefix := "다음과 같은 잠재적으로 위험한 문자열이 발견되었습니다: "

  // ------------------------------------------------------------- risk_score

  /** The weight of one finding's level, looked up by its label ("info" 1,
      "warning" 3, "critical" 5); an unknown label weighs 1. */
  function Weight(level: Level): (w: nat)
    ensures 1 <= w <= 5
  {
    match level
    case Info => 1
    case Warning => 3
    case Critical => 5
    case Other(tag) =>
      if tag == "warning" then 3 else if tag == "critical" then 5 else 1
  }

  /** The sum of the weights of the findings. */
  function Score(findings: seq<Finding>): (r: nat)
    ensures r == 0 <==> findings == []
  {
    if findings == [] then 0
    else Score(findings[..|findings| - 1]) + Weight(findings[|findings| - 1].level)
  }

  /** The score lies between one and five points per finding. */
  lemma {:induction false} ScoreBounds(findings: seq<Finding>)
    ensures |findings| <= Score(findings) <= 5 * |findings|
  {
    if findings != [] {
      ScoreBounds(findings[..|findings| - 1]);
    }
  }

  /** The score of appended findings is the sum of the scores. */
  lemma {:induction false} ScoreConcat(a: seq<Finding>, b: seq<Finding>)
    ensures Score(a + b) == Score(a) + Score(b)
    decreases |b|
  {
    if b == [] {
      assert a + b == a;
    } else {
      var init := b[..|b| - 1];
      assert (a + b)[..|a + b| - 1] == a + init;
      assert (a + b)[|a + b| - 1] == b[|b| - 1];
      ScoreConcat(a, init);
    }
  }

  // ----------------------------------------------------------------- checks

  /** At most one finding, of the given level. */
  predicate AtMostOneOf(findings: seq<Finding>, level: Level) {
    |findings| <= 1 && forall j :: 0 <= j < |findings| ==> findings[j].level == level
  }


  /** `_check_scheme`: a warning unless the parsed scheme is "https". */
  function SchemeFindings(url: string): (r: seq<Finding>)
    ensures AtMostOneOf(r, Warning)
  {
    if Scheme(url) != "https" then [InsecureProtocol] else []
  }

  /** One group of `\d{1,3}`. */
  predicate DigitGroup(g: string) {
    1 <= |g| <= 3 && forall i :: 0 <= i < |g| ==> IsDigit(g[i])
  }

  /** `re.fullmatch(r"\d{1,3}(\.\d{1,3}){3}", host)`: four dot-separated
      groups of one to three digits, with no range check. */
  predicate Ipv4Like(host: string) {
    var groups := Split(host, '.');
    |groups| == 4 && forall k :: 0 <= k < 4 ==> DigitGroup(groups[k])
  }

  /** Four digit groups joined by dots match, ... */
  lemma Ipv4LikeJoin(groups: seq<string>)
    requires |groups| == 4 && forall k :: 0 <= k < 4 ==> DigitGroup(groups[k])
    ensures Ipv4Like(Join(".", groups))
  {
    assert forall k :: 0 <= k < |groups| ==> '.' !in groups[k];
    SplitJoin(groups, '.');
  }

  /** A host matches exactly when it is four digit groups joined by dots. */
  lemma Ipv4LikeParts(host: string)
    ensures Ipv4Like(host) <==>
      exists groups: seq<string> :: |groups| == 4 && (forall k :: 0 <= k < 4 ==> DigitGroup(groups[k]))
        && host == Join(".", groups)
  {
    if Ipv4Like(host) {
      JoinSplit(host, '.');
      var groups := Split(host, '.');
      assert |groups| == 4 && (forall k :: 0 <= k < 4 ==> DigitGroup(groups[k])) && host == Join(".", groups);
    }
    if exists groups: seq<string> :: |groups| == 4 && (forall k :: 0 <= k < 4 ==> DigitGroup(groups[k]))
         && host == Join(".", groups) {
      var groups: seq<string> :| |groups| == 4 && (forall k :: 0 <= k < 4 ==> DigitGroup(groups[k]))
        && host == Join(".", groups);
      Ipv4LikeJoin(groups);
    }
  }

  /** Groups of three digits match whatever their value: "999.999.999.999"
      is taken for an address. */
  lemma Ipv4LikeNoRangeCheck()
    ensures Ipv4Like("999.999.999.999")
  {
    var g := "999";
    assert DigitGroup(g);
    var groups := [g, g, g, g];
    Ipv4LikeJoin(groups);
    assert Join(".", [g]) == g;
    assert Join(".", [g, g]) == g + "." + Join(".", [g]) by { assert [g, g][1..] == [g]; }
    assert Join(".", [g, g, g]) == g + "." + Join(".", [g, g]) by { assert [g, g, g][1..] == [g, g]; }
    assert Join(".", groups) == g + "." + Join(".", [g, g, g]) by { assert groups[1..] == [g, g, g]; }
    assert g + "." + (g + "." + (g + "." + g)) == "999.999.999.999";
  }

  /** A fifth group, or a group of four digits, does not match. */
  lemma Ipv4LikeRejects(groups: seq<string>)
    requires forall k :: 0 <= k < |groups| ==> '.' !in groups[k]
    requires |groups| != 4 || exists k :: 0 <= k < |groups| && |groups[k]| > 3
    requires |groups| >= 1
    ensures !Ipv4Like(Join(".", groups))
  {
    SplitJoin(groups, '.');
  }

  /** The host tested: the parsed hostname, or "" when there is none. */
  function HostOf(url: string): string {
    match Hostname(url) case Some(h) => h case None => ""
  }

  /** `_check_ip_hostname`. */
  function IpHostFindings(url: string): (r: seq<Finding>)
    ensures AtMostOneOf(r, Warning)
  {
    if Ipv4Like(HostOf(url)) then [IpAddressHost] else []
  }

  /** The keywords found in the text, in the order of the keyword list. */
  function Hits(text: string, keywords: seq<string>): (r: seq<string>)
    ensures |r| <= |keywords|
  {
    if keywords == [] then []
    else (if Contains(text, keywords[0]) then [keywords[0]] else []) + Hits(text, keywords[1..])
  }

  /** A keyword is a hit exactly when the text contains it. */
  lemma {:induction false} HitsMeaning(text: string, keywords: seq<string>)
    ensures forall kw :: kw in Hits(text, keywords) ==> kw in keywords && Contains(text, kw)
    ensures forall k :: 0 <= k < |keywords| && Contains(text, keywords[k]) ==> keywords[k] in Hits(text, keywords)
  {
    if keywords != [] {
      HitsMeaning(text, keywords[1..]);
      assert forall k :: 1 <= k < |keywords| ==> keywords[k] == keywords[1..][k - 1];
    }
  }

  /** `_check_keyword_patterns`: one critical finding listing the hits in
      the lowered HTML, when there are any. */
  function KeywordFindings(html: string): (r: seq<Finding>)
    ensures AtMostOneOf(r, Critical)
  {
    var hits := Hits(Lower(html), SuspiciousKeywords);
    if hits == [] then [] else [Finding("Suspicious markup", Critical, KeywordDetailPrefix + Join(", ", hits))]
  }

  /** The number of `<tag` occurrences for each suspicious tag. */
  function TagCounts(lowered: string): (r: seq<(string, nat)>)
    ensures |r| == |SuspiciousTags|
    ensures forall k :: 0 <= k < |r| ==> r[k].0 == SuspiciousTags[k]
  {
    seq(|SuspiciousTags|, k requires 0 <= k < |SuspiciousTags| =>
      (SuspiciousTags[k], CountOccurrences(lowered, "<" + SuspiciousTags[k])))
  }

  /** The threshold rule: 80 `<script` tags, or 5 of any other tag. */
  predicate TooMany(tag: string, count: nat) {
    (tag == "script" && count >= ScriptThreshold) || (tag != "script" && count >= TagThreshold)
  }

  /** The tags over their threshold, in the order of the tag list. */
  function Flagged(counts: seq<(string, nat)>): (r: seq<(string, nat)>)
    ensures |r| <= |counts|
    ensures forall k :: 0 <= k < |r| ==> r[k] in counts && TooMany(r[k].0, r[k].1)
  {
    if counts == [] then []
    else (if TooMany(counts[0].0, counts[0].1) then [counts[0]] else []) + Flagged(counts[1..])
  }

  /** Nothing is flagged exactly when every count is under its threshold. */
  lemma {:induction false} FlaggedEmpty(counts: seq<(string, nat)>)
    ensures Flagged(counts) == [] <==> forall k :: 0 <= k < |counts| ==> !TooMany(counts[k].0, counts[k].1)
  {
    if counts != [] {
      FlaggedEmpty(counts[1..]);
      assert forall k :: 1 <= k < |counts| ==> counts[k] == counts[1..][k - 1];
    }
  }

  /** `tag:count` pairs joined by ", ". */
  function CountsText(flagged: seq<(string, nat)>): string {
    Join(", ", seq(|flagged|, k requires 0 <= k < |flagged| => flagged[k].0 + ":" + NatToString(flagged[k].1)))
  }

  /** `_check_tag_density`: one warning when any tag is over its threshold. */
  function TagFindings(html: string): (r: seq<Finding>)
    ensures AtMostOneOf(r, Warning)
  {
    var flagged := Flagged(TagCounts(Lower(html)));
    if flagged == [] then []
    else [Finding("Embedded active content", Warning, "다량의 활성 태그가 포함되어 있습니다 (" + CountsText(flagged) + ").")]
  }

  /** The findings one `run_all` appends, in the order of the checks. */
  function ScanFindings(url: string, html: string): seq<Finding> {
    SchemeFindings(url) + IpHostFindings(url) + KeywordFindings(html) + TagFindings(html)
  }

  /** No keyword is a hit exactly when the text contains none of them. */
  lemma HitsEmpty(text: string, keywords: seq<string>)
    ensures Hits(text, keywords) == [] <==> forall k :: 0 <= k < |keywords| ==> !Contains(text, keywords[k])
  {
    HitsMeaning(text, keywords);
    var hits := Hits(text, keywords);
    if hits != [] {
      assert hits[0] in hits;
    }
  }

  /** The keyword check fires exactly when the lowered HTML contains one of
      the suspicious keywords. */
  lemma KeywordFindingsFire(html: string)
    ensures KeywordFindings(html) != [] <==>
      exists k :: 0 <= k < |SuspiciousKeywords| && Contains(Lower(html), SuspiciousKeywords[k])
  {
    HitsEmpty(Lower(html), SuspiciousKeywords);
  }

  /** The tag check fires exactly when some tag reaches its threshold in
      the lowered HTML. */
  lemma TagFindingsFire(html: string)
    ensures TagFindings(html) != [] <==>
      exists k :: 0 <= k < |SuspiciousTags| && TooMany(SuspiciousTags[k], CountOccurrences(Lower(html), "<" + SuspiciousTags[k]))
  {
    var counts := TagCounts(Lower(html));
    FlaggedEmpty(counts);
    assert forall k :: 0 <= k < |SuspiciousTags| ==> counts[k].1 == CountOccurrences(Lower(html), "<" + SuspiciousTags[k]);
  }

  /** At most one finding scores at most its level's weight. */
  lemma ScoreAtMostOne(findings: seq<Finding>, level: Level)
    requires AtMostOneOf(findings, level)
    ensures Score(findings) <= Weight(level)
  {
    if findings != [] {
      assert findings[..0] == [];
    }
  }

  /** Four checks of at most one finding each, the third critical and the
      others warnings, add at most four findings and 14 points. */
  lemma FourChecksBounds(s: seq<Finding>, i: seq<Finding>, k: seq<Finding>, t: seq<Finding>)
    requires AtMostOneOf(s, Warning) && AtMostOneOf(i, Warning)
    requires AtMostOneOf(k, Critical) && AtMostOneOf(t, Warning)
    ensures |s + i + k + t| <= 4
    ensures forall f :: f in s + i + k + t ==> f.level == Warning || f.level == Critical
    ensures Score(s + i + k + t) <= 14
  {
    ScoreAtMostOne(s, Warning);
    ScoreAtMostOne(i, Warning);
    ScoreAtMostOne(k, Critical);
    ScoreAtMostOne(t, Warning);
    ScoreConcat(s, i);
    ScoreConcat(s + i, k);
    ScoreConcat(s + i + k, t);
  }

  /** One run adds at most four findings, each a warning or critical, so
      the score grows by at most 14 points. */
  lemma ScanFindingsBounds(url: string, html: string)
    ensures |ScanFindings(url, html)| <= 4
    ensures forall f :: f in ScanFindings(url, html) ==> f.level == Warning || f.level == Critical
    ensures Score(ScanFindings(url, html)) <= 14
  {
    FourChecksBounds(SchemeFindings(url), IpHostFindings(url), KeywordFindings(html), TagFindings(html));
  }

  /** Appending four groups one after another appends their concatenation. */
  lemma AppendFour(start: seq<Finding>, a: seq<Finding>, b: seq<Finding>, c: seq<Finding>, d: seq<Finding>)
    ensures start + a + b + c + d == start + (a + b + c + d)
  {
  }

  // ---------------------------------------------------------------- classes

  /** `SecurityReport`: the URLs scanned and the findings so far. */
  class SecurityReport {
    const originalUrl: string
    const finalUrl: string
    var findings: seq<Finding>

    constructor(originalUrl: string, finalUrl: string)
      ensures this.originalUrl == originalUrl && this.finalUrl == finalUrl && findings == []
    {
      this.originalUrl := originalUrl;
      this.finalUrl := finalUrl;
      findings := [];
    }

    /** `risk_score`. */
    function RiskScore(): (score: nat)
      reads this
      ensures |findings| <= score <= 5 * |findings|
    {
      ScoreBounds(findings);
      Score(findings)
    }
  }

  /** `SecurityScanner`: the page to scan and the report it fills. */
  class SecurityScanner {
    const originalUrl: string
    const finalUrl: string
    const html: string
    const report: SecurityReport
    /** The URL `urlparse` is applied to: the final URL, or the original
        one when the final URL is empty. */
    const target: string
    /** `self.parsed`: what `urlparse(target)` gave. */
    const parsed: Parsed

    /** `parsed` is what `urlparse` gives for `target`. */
    predicate Valid() {
      UrlParse(target) == Success(parsed)
    }

    /** The constructor proper, once `urlparse` has accepted the target;
        `NewScanner` is the constructor as callers see it. */
    constructor(originalUrl: string, finalUrl: string, html: Option<string>)
      requires UrlParse(if finalUrl != "" then finalUrl else originalUrl).Success?
      ensures this.originalUrl == originalUrl && this.finalUrl == finalUrl
      ensures this.html == (match html case Some(h) => h case None => "")
      ensures target == (if finalUrl != "" then finalUrl else originalUrl)
      ensures parsed == UrlParse(target).value && Valid()
      ensures fresh(report) && report.findings == []
      ensures report.originalUrl == originalUrl && report.finalUrl == finalUrl
    {
      this.originalUrl := originalUrl;
      this.finalUrl := finalUrl;
      this.html := match html case Some(h) => h case None => "";
      report := new SecurityReport(originalUrl, finalUrl);
      target := if finalUrl != "" then finalUrl else originalUrl;
      parsed := UrlParse(if finalUrl != "" then finalUrl else originalUrl).value;
    }

    /** `_add_finding`. */
    method AddFinding(finding: Finding)
      modifies report
      ensures report.findings == old(report.findings) + [finding]
    {
      report.findings := report.findings + [finding];
    }

    method CheckScheme()
      requires Valid()
      modifies report
      ensures report.findings == old(report.findings) + SchemeFindings(target)
    {
      if parsed.scheme != "https" {
        AddFinding(InsecureProtocol);
      }
    }

    method CheckIpHostname()
      requires Valid()
      modifies report
      ensures report.findings == old(report.findings) + IpHostFindings(target)
    {
      var host := match parsed.hostname case Some(h) => h case None => "";
      if Ipv4Like(host) {
        AddFinding(IpAddressHost);
      }
    }

    method CheckKeywordPatterns()
      modifies report
      ensures report.findings == old(report.findings) + KeywordFindings(html)
    {
      var lowered := Lower(html);
      var hits := Hits(lowered, SuspiciousKeywords);
      if hits != [] {
        AddFinding(Finding("Suspicious markup", Critical, KeywordDetailPrefix + Join(", ", hits)));
      }
    }

    method CheckTagDensity()
      modifies report
      ensures report.findings == old(report.findings) + TagFindings(html)
    {
      var lowered := Lower(html);
      var flagged := Flagged(TagCounts(lowered));
      if flagged != [] {
        AddFinding(Finding("Embedded active content", Warning,
          "다량의 활성 태그가 포함되어 있습니다 (" + CountsText(flagged) + ")."));
      }
    }

    /** `run_all`: the four checks in order; findings are only appended, so
        a second run appends to what the first one found. */
    method RunAll() returns (r: SecurityReport)
      requires Valid()
      modifies report
      ensures r == report
      ensures report.findings == old(report.findings) + ScanFindings(target, html)
      ensures report.RiskScore() == old(report.RiskScore()) + Score(ScanFindings(target, html))
    {
      ghost var start := report.findings;
      CheckScheme();
      CheckIpHostname();
      CheckKeywordPatterns();
      CheckTagDensity();
      ghost var added := ScanFindings(target, html);
      AppendFour(start, SchemeFindings(target), IpHostFindings(target), KeywordFindings(html), TagFindings(html));
      ScoreConcat(start, added);
      return report;
    }
  }

  /** `SecurityScanner(original_url, final_url, html)`: the ValueError that
      `urlparse` raises for unbalanced brackets in the URL it parses, and
      otherwise a new scanner with an empty report. */
  method NewScanner(originalUrl: string, finalUrl: string, html: Option<string>)
    returns (r: Result<SecurityScanner, Error>)
    ensures var target := if finalUrl != "" then finalUrl else originalUrl;
      && (r.Failure? <==> UnbalancedBrackets(Netloc(target)))
      && (r.Failure? ==> r.error == ValueError(InvalidIpv6Message))
      && (r.Success? ==>
            && fresh(r.value) && fresh(r.value.report) && r.value.report.findings == []
            && r.value.originalUrl == originalUrl && r.value.finalUrl == finalUrl
            && r.value.target == target && r.value.Valid()
            && r.value.html == (match html case Some(h) => h case None => ""))
  {
    var target := if finalUrl != "" then finalUrl else originalUrl;
    match UrlParse(target)
    case Failure(e) =>
      return Failure(e);
    case Success(_) =>
      var scanner := new SecurityScanner(originalUrl, finalUrl, html);
      return Success(scanner);
  }
}
