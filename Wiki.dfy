/** Disambiguation ranking and resolution of backend/services/wiki_service.py. */
module Wiki {
  import opened Base
  import opened Strings
  import opened Encyclopedia

  /** Per-keyword hint terms, most preferred first (PREFERRED_KEYWORDS). */
  const PreferredKeywords: map<string, seq<string>> :=
    map["배" := ["과일", "fruit", "나무", "식물", "선박", "동음이의어"]]
  const DisambiguationMarker := "(동음이의어)"
  const DefaultSentences: nat := 8
  const NoSearchResultMessage := "검색 결과가 없습니다."
  const NotFoundMessage := "항목을 찾을 수 없습니다."
  const ResolveErrorPrefix := "알 수 없는 오류 발생: "
  const SummaryErrorPrefix := "알 수 없는 오류가 발생 하였습니다.: "

  // ------------------------------------------------------ normalisation

  function KeepAlnum(s: string): (r: string)
    ensures |r| <= |s|
    ensures forall i :: 0 <= i < |r| ==> IsAlnum(r[i]) && r[i] in s
  {
    if s == [] then [] else (if IsAlnum(s[0]) then [s[0]] else []) + KeepAlnum(s[1..])
  }

  /** `_normalize_title`: the alphanumeric characters of the lower-cased title. */
  function NormalizeTitle(title: string): (r: string)
    ensures |r| <= |title|
    ensures forall i :: 0 <= i < |r| ==> IsAlnum(r[i]) && !IsUpperAscii(r[i])
  {
    var lowered := Lower(title);
    var r := KeepAlnum(lowered);
    assert forall i :: 0 <= i < |r| ==> exists j :: 0 <= j < |lowered| && lowered[j] == r[i];
    r
  }

  lemma {:induction false} KeepAlnumConcat(a: string, b: string)
    ensures KeepAlnum(a + b) == KeepAlnum(a) + KeepAlnum(b)
  {
    if a != [] {
      var head := if IsAlnum(a[0]) then [a[0]] else [];
      assert (a + b)[0] == a[0];
      assert (a + b)[1..] == a[1..] + b;
      KeepAlnumConcat(a[1..], b);
      calc {
        KeepAlnum(a + b);
        head + KeepAlnum(a[1..] + b);
        head + (KeepAlnum(a[1..]) + KeepAlnum(b));
        (head + KeepAlnum(a[1..])) + KeepAlnum(b);
        KeepAlnum(a) + KeepAlnum(b);
      }
    } else {
      assert a + b == b;
    }
  }

  /** Normalising is character by character: it keeps exactly the
      alphanumeric characters, lower-cased, in their order. */
  lemma NormalizeTitleConcat(a: string, b: string)
    ensures NormalizeTitle(a + b) == NormalizeTitle(a) + NormalizeTitle(b)
    ensures forall c: char :: NormalizeTitle([c]) == if IsAlnum(c) then [LowerChar(c)] else []
  {
    assert Lower(a + b) == Lower(a) + Lower(b);
    KeepAlnumConcat(Lower(a), Lower(b));
    forall c: char ensures NormalizeTitle([c]) == if IsAlnum(c) then [LowerChar(c)] else [] {
      assert Lower([c]) == [LowerChar(c)];
      assert [LowerChar(c)][1..] == [];
    }
  }

  lemma {:induction false} KeepAlnumFixed(s: string)
    requires forall i :: 0 <= i < |s| ==> IsAlnum(s[i])
    ensures KeepAlnum(s) == s
  {
    if s != [] {
      KeepAlnumFixed(s[1..]);
      assert s == [s[0]] + s[1..];
    }
  }

  /** Normalising twice is normalising once. */
  lemma NormalizeTitleIdempotent(title: string)
    ensures NormalizeTitle(NormalizeTitle(title)) == NormalizeTitle(title)
  {
    var n := NormalizeTitle(title);
    LowerFixed(n);
    KeepAlnumFixed(n);
  }

  // ------------------------------------------------------------ ranking

  /** The score tuple of `_prioritize_options`: tier, then hint index. */
  datatype Rank = Rank(tier: nat, hintIndex: nat)

  function Hints(target: string): seq<string> {
    if target in PreferredKeywords then PreferredKeywords[target] else []
  }

  /** Index of the first hint contained in the option, case-insensitively. */
  function FirstHint(hints: seq<string>, option: string): (r: Option<nat>)
    ensures r.Some? ==> r.value < |hints| && Contains(Lower(option), Lower(hints[r.value]))
    ensures r.Some? ==> forall j :: 0 <= j < r.value ==> !Contains(Lower(option), Lower(hints[j]))
    ensures r.None? ==> forall j :: 0 <= j < |hints| ==> !Contains(Lower(option), Lower(hints[j]))
  {
    if hints == [] then None
    else if Contains(Lower(option), Lower(hints[0])) then Some(0)
    else
      match FirstHint(hints[1..], option)
      case None => None
      case Some(k) => Some(k + 1)
  }

  /** The first matching hint is the one `FirstHint` reports. */
  lemma {:induction false} FirstHintAt(hints: seq<string>, option: string, k: nat)
    requires k < |hints| && Contains(Lower(option), Lower(hints[k]))
    requires forall j :: 0 <= j < k ==> !Contains(Lower(option), Lower(hints[j]))
    ensures FirstHint(hints, option) == Some(k)
  {
    if k > 0 {
      assert hints[1..][k - 1] == hints[k];
      FirstHintAt(hints[1..], option, k - 1);
    }
  }

  /** `score(option)` inside `_prioritize_options`. */
  function Score(option: string, target: string): (r: Rank)
    ensures r.tier <= 4 && (r.tier != 1 ==> r.hintIndex == 0)
    ensures r.tier == 1 ==> target in PreferredKeywords && r.hintIndex < |PreferredKeywords[target]|
  {
    var optionNorm := NormalizeTitle(option);
    var targetNorm := NormalizeTitle(target);
    if optionNorm == targetNorm then Rank(0, 0)
    else
      match FirstHint(Hints(target), option)
      case Some(idx) => Rank(1, idx)
      case None =>
        if targetNorm != "" && (StartsWith(optionNorm, targetNorm) || Contains(optionNorm, targetNorm)) then Rank(2, 0)
        else if EndsWith(option, DisambiguationMarker) then Rank(3, 0)
        else Rank(4, 0)
  }

  lemma StartsWithContains(s: string, p: string)
    requires StartsWith(s, p)
    ensures Contains(s, p)
  {
  }

  /** What each tier means. */
  lemma ScoreTiers(option: string, target: string)
    ensures Score(option, target).tier <= 4
    ensures Score(option, target) == Rank(0, 0) <==> NormalizeTitle(option) == NormalizeTitle(target)
    ensures Score(option, target).tier == 1 <==>
      NormalizeTitle(option) != NormalizeTitle(target) && target in PreferredKeywords
      && exists j :: 0 <= j < |PreferredKeywords[target]|
           && Contains(Lower(option), Lower(PreferredKeywords[target][j]))
    ensures Score(option, target).tier == 1 ==>
      Contains(Lower(option), Lower(Hints(target)[Score(option, target).hintIndex]))
      && forall j :: 0 <= j < Score(option, target).hintIndex ==> !Contains(Lower(option), Lower(Hints(target)[j]))
    ensures Score(option, target).tier == 2 <==>
      NormalizeTitle(option) != NormalizeTitle(target) && FirstHint(Hints(target), option).None?
      && NormalizeTitle(target) != "" && Contains(NormalizeTitle(option), NormalizeTitle(target))
    ensures Score(option, target).tier == 3 <==>
      NormalizeTitle(option) != NormalizeTitle(target) && FirstHint(Hints(target), option).None?
      && !(NormalizeTitle(target) != "" && Contains(NormalizeTitle(option), NormalizeTitle(target)))
      && EndsWith(option, DisambiguationMarker)
    ensures Score(option, target).tier == 4 <==>
      NormalizeTitle(option) != NormalizeTitle(target) && FirstHint(Hints(target), option).None?
      && !(NormalizeTitle(target) != "" && Contains(NormalizeTitle(option), NormalizeTitle(target)))
      && !EndsWith(option, DisambiguationMarker)
    ensures Score(option, target).tier != 1 ==> Score(option, target).hintIndex == 0
  {
    var on, tn := NormalizeTitle(option), NormalizeTitle(target);
    if on != tn && FirstHint(Hints(target), option).None? && tn != "" && StartsWith(on, tn) {
      StartsWithContains(on, tn);
    }
  }

  /** `a` sorts no later than `b` under the key (rank, option), the
      tuple `sorted` compares; `key` is the scoring function. */
  predicate SortsBefore(key: string -> Rank, a: string, b: string) {
    key(a).tier < key(b).tier
    || (key(a).tier == key(b).tier
        && (key(a).hintIndex < key(b).hintIndex || (key(a).hintIndex == key(b).hintIndex && StrLe(a, b))))
  }

  lemma SortsBeforeReflexive(key: string -> Rank, a: string)
    ensures SortsBefore(key, a, a)
  {
    StrLeReflexive(a);
  }

  lemma SortsBeforeTotal(key: string -> Rank, a: string, b: string)
    ensures SortsBefore(key, a, b) || SortsBefore(key, b, a)
  {
    StrLeTotal(a, b);
  }

  lemma SortsBeforeAntisymmetric(key: string -> Rank, a: string, b: string)
    requires SortsBefore(key, a, b) && SortsBefore(key, b, a)
    ensures a == b
  {
    StrLeAntisymmetric(a, b);
  }

  lemma SortsBeforeTransitive(key: string -> Rank, a: string, b: string, c: string)
    requires SortsBefore(key, a, b) && SortsBefore(key, b, c)
    ensures SortsBefore(key, a, c)
  {
    if key(a) == key(b) && key(b) == key(c) {
      StrLeTransitive(a, b, c);
    }
  }

  predicate Ranked(key: string -> Rank, s: seq<string>) {
    forall i, j :: 0 <= i < j < |s| ==> SortsBefore(key, s[i], s[j])
  }

  lemma RankedTail(key: string -> Rank, s: seq<string>)
    requires Ranked(key, s) && s != []
    ensures Ranked(key, s[1..])
  {
    forall i, j | 0 <= i < j < |s| - 1 ensures SortsBefore(key, s[1..][i], s[1..][j]) {
      assert s[1..][i] == s[i + 1] && s[1..][j] == s[j + 1];
    }
  }

  function Insert(key: string -> Rank, x: string, s: seq<string>): seq<string> {
    if s == [] then [x]
    else if SortsBefore(key, x, s[0]) then [x] + s
    else [s[0]] + Insert(key, x, s[1..])
  }

  function SortByRank(key: string -> Rank, xs: seq<string>): seq<string> {
    if xs == [] then [] else Insert(key, xs[0], SortByRank(key, xs[1..]))
  }

  lemma RankedCons(key: string -> Rank, h: string, t: seq<string>)
    requires Ranked(key, t)
    requires forall e :: e in t ==> SortsBefore(key, h, e)
    ensures Ranked(key, [h] + t)
  {
    var r := [h] + t;
    forall i, j | 0 <= i < j < |r| ensures SortsBefore(key, r[i], r[j]) {
      assert r[j] == t[j - 1];
      if i > 0 { assert r[i] == t[i - 1]; }
    }
  }

  lemma {:induction false} InsertProperties(key: string -> Rank, x: string, s: seq<string>)
    requires Ranked(key, s)
    ensures multiset(Insert(key, x, s)) == multiset(s) + multiset{x}
    ensures Ranked(key, Insert(key, x, s))
  {
    if s == [] {
    } else if SortsBefore(key, x, s[0]) {
      forall e | e in s ensures SortsBefore(key, x, e) {
        RankedFirstIsLeast(key, s, e);
        SortsBeforeTransitive(key, x, s[0], e);
      }
      RankedCons(key, x, s);
    } else {
      var tail := s[1..];
      RankedTail(key, s);
      InsertProperties(key, x, tail);
      var rest := Insert(key, x, tail);
      assert s == [s[0]] + tail;
      SortsBeforeTotal(key, x, s[0]);
      forall e | e in rest ensures SortsBefore(key, s[0], e) {
        assert e in multiset(rest);
        if e != x {
          assert e in multiset(tail);
          assert e in s;
          RankedFirstIsLeast(key, s, e);
        }
      }
      RankedCons(key, s[0], rest);
    }
  }

  lemma {:induction false} SortByRankProperties(key: string -> Rank, xs: seq<string>)
    ensures multiset(SortByRank(key, xs)) == multiset(xs)
    ensures Ranked(key, SortByRank(key, xs))
  {
    if xs != [] {
      SortByRankProperties(key, xs[1..]);
      InsertProperties(key, xs[0], SortByRank(key, xs[1..]));
      assert xs == [xs[0]] + xs[1..];
    }
  }

  /** The scoring function `_prioritize_options` sorts by for `target`. */
  function ScoreFor(target: string): string -> Rank {
    option => Score(option, target)
  }

  /** `_prioritize_options`: a permutation of the options, ordered by
      (tier, hint index, option); the empty list for no options. */
  function Prioritize(options: seq<string>, target: string): (r: seq<string>)
    ensures multiset(r) == multiset(options)
    ensures Ranked(ScoreFor(target), r)
  {
    if options == [] then []
    else
      SortByRankProperties(ScoreFor(target), options);
      SortByRank(ScoreFor(target), options)
  }

  lemma RankedFirstIsLeast(key: string -> Rank, s: seq<string>, o: string)
    requires Ranked(key, s) && o in s
    ensures SortsBefore(key, s[0], o)
  {
    var k :| 0 <= k < |s| && s[k] == o;
    if k == 0 { SortsBeforeReflexive(key, o); }
  }

  lemma MultisetTail(s: seq<string>, t: seq<string>)
    requires s != [] && t != [] && s[0] == t[0]
    requires multiset(s) == multiset(t)
    ensures multiset(s[1..]) == multiset(t[1..])
  {
    assert s == [s[0]] + s[1..];
    assert t == [t[0]] + t[1..];
    assert multiset(s[1..]) == multiset(s) - multiset{s[0]};
    assert multiset(t[1..]) == multiset(t) - multiset{t[0]};
  }

  lemma RankedSameHead(key: string -> Rank, s: seq<string>, t: seq<string>)
    requires Ranked(key, s) && Ranked(key, t) && s != []
    requires multiset(s) == multiset(t)
    ensures t != [] && s[0] == t[0]
  {
    assert s[0] in multiset(t);
    assert t != [];
    assert t[0] in multiset(s);
    RankedFirstIsLeast(key, s, t[0]);
    RankedFirstIsLeast(key, t, s[0]);
    SortsBeforeAntisymmetric(key, s[0], t[0]);
  }

  /** Two ranked lists with the same elements are the same list. */
  lemma {:induction false} RankedUnique(key: string -> Rank, s: seq<string>, t: seq<string>)
    requires Ranked(key, s) && Ranked(key, t)
    requires multiset(s) == multiset(t)
    ensures s == t
  {
    if s == [] {
      assert |t| == |multiset(t)| == 0;
    } else {
      RankedSameHead(key, s, t);
      MultisetTail(s, t);
      RankedTail(key, s);
      RankedTail(key, t);
      RankedUnique(key, s[1..], t[1..]);
      assert s == [s[0]] + s[1..] && t == [t[0]] + t[1..];
    }
  }

  /** The ranking does not depend on the order the options arrive in. */
  lemma PrioritizeOrderIndependent(a: seq<string>, b: seq<string>, target: string)
    requires multiset(a) == multiset(b)
    ensures Prioritize(a, target) == Prioritize(b, target)
  {
    RankedUnique(ScoreFor(target), Prioritize(a, target), Prioritize(b, target));
  }

  /** An option that normalises to the target precedes every option that
      does not, so when one exists it comes first. */
  lemma PrioritizeExactMatchFirst(options: seq<string>, target: string)
    ensures forall i, j ::
      (0 <= i < |Prioritize(options, target)| && 0 <= j < |Prioritize(options, target)|
       && NormalizeTitle(Prioritize(options, target)[i]) == NormalizeTitle(target)
       && NormalizeTitle(Prioritize(options, target)[j]) != NormalizeTitle(target))
      ==> i < j
    ensures (exists o :: o in options && NormalizeTitle(o) == NormalizeTitle(target)) ==>
      NormalizeTitle(Prioritize(options, target)[0]) == NormalizeTitle(target)
  {
    var r := Prioritize(options, target);
    forall i, j | 0 <= i < |r| && 0 <= j < |r| && NormalizeTitle(r[i]) == NormalizeTitle(target)
      && NormalizeTitle(r[j]) != NormalizeTitle(target)
      ensures i < j
    {
      ScoreTiers(r[i], target);
      ScoreTiers(r[j], target);
    }
    if o :| o in options && NormalizeTitle(o) == NormalizeTitle(target) {
      assert o in multiset(r);
      RankedFirstIsLeast(ScoreFor(target), r, o);
      ScoreTiers(o, target);
      ScoreTiers(r[0], target);
    }
  }

  const PearHints: seq<string> := ["과일", "fruit", "나무", "식물", "선박", "동음이의어"]

  lemma PearHintsLowered()
    ensures Hints("배") == PearHints
    ensures forall j :: 0 <= j < |PearHints| ==> Lower(PearHints[j]) == PearHints[j]
  {
    forall j | 0 <= j < |PearHints| ensures Lower(PearHints[j]) == PearHints[j] {
      LowerFixed(PearHints[j]);
    }
  }

  /** Facts about lower-case text carry over to its `Lower` form. */
  lemma MissesLowered(option: string, hints: seq<string>, k: nat)
    requires k <= |hints|
    requires Lower(option) == option
    requires forall j :: 0 <= j < |hints| ==> Lower(hints[j]) == hints[j]
    requires forall j :: 0 <= j < k ==> !Contains(option, hints[j])
    ensures forall j :: 0 <= j < k ==> !Contains(Lower(option), Lower(hints[j]))
  {
  }

  lemma ScoreOfPearFruit()
    ensures Score("배(과일)", "배") == Rank(1, 0)
  {
    var option := "배(과일)";
    PearHintsLowered();
    LowerFixed(option);
    LowerFixed("배");
    assert NormalizeTitle("배") == "배";
    assert NormalizeTitle(option) == "배과일";
    ContainsAt(option, "과일", 2);
    FirstHintAt(PearHints, option, 0);
  }

  lemma PearShipMisses()
    ensures forall j :: 0 <= j < 4 ==> !Contains("배(선박)", PearHints[j])
  {
    var option := "배(선박)";
    forall j | 0 <= j < 4 ensures !Contains(option, PearHints[j]) {
      if j == 0 { NotContainsWithoutHead(option, "과일"); }
      else if j == 1 { NotContainsWithoutHead(option, "fruit"); }
      else if j == 2 { NotContainsWithoutHead(option, "나무"); }
      else { NotContainsWithoutHead(option, "식물"); }
    }
  }

  lemma PearShipHint()
    ensures FirstHint(Hints("배"), "배(선박)") == Some(4)
  {
    var option := "배(선박)";
    PearHintsLowered();
    LowerFixed(option);
    PearShipMisses();
    MissesLowered(option, PearHints, 4);
    ContainsAt(option, "선박", 2);
    FirstHintAt(PearHints, option, 4);
  }

  lemma ScoreOfPearShip()
    ensures Score("배(선박)", "배") == Rank(1, 4)
  {
    LowerFixed("배(선박)");
    LowerFixed("배");
    assert NormalizeTitle("배") == "배";
    assert NormalizeTitle("배(선박)") == "배선박";
    PearShipHint();
  }

  lemma {:induction false} KeepAlnumKeeps(s: string, i: nat)
    requires i < |s| && IsAlnum(s[i])
    ensures s[i] in KeepAlnum(s)
  {
    if i > 0 {
      assert s[1..][i - 1] == s[i];
      KeepAlnumKeeps(s[1..], i - 1);
    }
  }

  lemma PearPageNormalizedFor(option: string, target: string)
    requires option == "배(동음이의어)" && target == "배"
    ensures NormalizeTitle(option) != NormalizeTitle(target)
  {
    LowerFixed(option);
    LowerFixed(target);
    assert NormalizeTitle(target) == target;
    KeepAlnumKeeps(option, 2);
    assert '동' in NormalizeTitle(option);
  }

  lemma PearPageNormalized()
    ensures NormalizeTitle("배(동음이의어)") != NormalizeTitle("배")
  {
    PearPageNormalizedFor("배(동음이의어)", "배");
  }

  /** The page title misses the first five hints: none of their first
      characters occurs in it. */
  lemma PearPageMissesFor(option: string)
    requires option == "배(동음이의어)"
    ensures forall j :: 0 <= j < 5 ==> !Contains(option, PearHints[j])
  {
    forall j | 0 <= j < 5 ensures !Contains(option, PearHints[j]) {
      if j == 0 { NotContainsWithoutHead(option, "과일"); }
      else if j == 1 { NotContainsWithoutHead(option, "fruit"); }
      else if j == 2 { NotContainsWithoutHead(option, "나무"); }
      else if j == 3 { NotContainsWithoutHead(option, "식물"); }
      else { NotContainsWithoutHead(option, "선박"); }
    }
  }

  lemma PearPageMisses()
    ensures forall j :: 0 <= j < 5 ==> !Contains("배(동음이의어)", PearHints[j])
  {
    PearPageMissesFor("배(동음이의어)");
  }

  lemma PearPageHint()
    ensures FirstHint(Hints("배"), "배(동음이의어)") == Some(5)
  {
    var option := "배(동음이의어)";
    PearHintsLowered();
    LowerFixed(option);
    PearPageMisses();
    MissesLowered(option, PearHints, 5);
    ContainsAt(option, "동음이의어", 2);
    FirstHintAt(PearHints, option, 5);
  }

  lemma ScoreOfPearPage()
    ensures Score("배(동음이의어)", "배") == Rank(1, 5)
  {
    PearPageNormalized();
    PearPageHint();
  }

  lemma PearKeys(key: string -> Rank, options: seq<string>)
    requires key == ScoreFor("배")
    requires options == ["배(과일)", "배(선박)", "배(동음이의어)"]
    ensures key(options[0]) == Rank(1, 0) && key(options[1]) == Rank(1, 4) && key(options[2]) == Rank(1, 5)
  {
    ScoreOfPearFruit();
    ScoreOfPearShip();
    ScoreOfPearPage();
  }

  lemma RankedTriple(key: string -> Rank, a: string, b: string, c: string)
    requires SortsBefore(key, a, b) && SortsBefore(key, b, c) && SortsBefore(key, a, c)
    ensures Ranked(key, [a, b, c])
  {
  }

  lemma PearOptionsRanked(options: seq<string>)
    requires options == ["배(과일)", "배(선박)", "배(동음이의어)"]
    ensures Ranked(ScoreFor("배"), options)
  {
    var key := ScoreFor("배");
    PearKeys(key, options);
    assert SortsBefore(key, options[0], options[1]);
    assert SortsBefore(key, options[1], options[2]);
    assert SortsBefore(key, options[0], options[2]);
    RankedTriple(key, options[0], options[1], options[2]);
  }

  /** The preferred-keyword example: for "배" the fruit article ranks
      first, the ship second and the disambiguation page last, by the
      position of their hints (0, 4 and 5), whatever the input order. */
  lemma PreferredHintExample(options: seq<string>)
    requires multiset(options) == multiset{"배(과일)", "배(선박)", "배(동음이의어)"}
    ensures Prioritize(options, "배") == ["배(과일)", "배(선박)", "배(동음이의어)"]
    ensures PickBestCandidate("배", options) == Some("배(과일)")
  {
    var expected := ["배(과일)", "배(선박)", "배(동음이의어)"];
    PearOptionsRanked(expected);
    assert multiset(expected) == multiset(options);
    RankedUnique(ScoreFor("배"), Prioritize(options, "배"), expected);
  }

  /** `_pick_best_candidate`: the first-ranked option, if any. */
  function PickBestCandidate(keyword: string, options: seq<string>): (r: Option<string>)
    ensures r.None? <==> options == []
    ensures r.Some? ==> r.value in options && forall o :: o in options ==> SortsBefore(ScoreFor(keyword), r.value, o)
  {
    var ranked := Prioritize(options, keyword);
    if ranked != [] then
      assert forall o :: o in options ==> o in multiset(ranked);
      assert ranked[0] in multiset(options);
      assert forall o :: o in options ==> SortsBefore(ScoreFor(keyword), ranked[0], o) by {
        forall o | o in options ensures SortsBefore(ScoreFor(keyword), ranked[0], o) {
          RankedFirstIsLeast(ScoreFor(keyword), ranked, o);
        }
      }
      Some(ranked[0])
    else
      assert |options| == |multiset(options)| == 0;
      None
  }

  // ------------------------------------------------------------- dedup

  predicate DistinctTitles(s: seq<string>) {
    forall i, j :: 0 <= i < j < |s| ==> NormalizeTitle(s[i]) != NormalizeTitle(s[j])
  }

  predicate IsSubsequence(a: seq<string>, b: seq<string>)
    decreases |b|
  {
    a == [] || (b != [] && ((a[0] == b[0] && IsSubsequence(a[1..], b[1..])) || IsSubsequence(a, b[1..])))
  }

  /** The specification of `_dedup_options` once `seen` holds some titles. */
  function DedupFrom(options: seq<string>, seen: set<string>): seq<string> {
    if options == [] then []
    else if NormalizeTitle(options[0]) in seen then DedupFrom(options[1..], seen)
    else [options[0]] + DedupFrom(options[1..], seen + {NormalizeTitle(options[0])})
  }

  function Dedup(options: seq<string>): seq<string> {
    DedupFrom(options, {})
  }

  /** `_dedup_options`. */
  method DedupOptions(options: seq<string>) returns (unique: seq<string>)
    ensures unique == Dedup(options)
  {
    var seen: set<string> := {};
    unique := [];
    var i := 0;
    while i < |options|
      invariant 0 <= i <= |options|
      invariant unique + DedupFrom(options[i..], seen) == Dedup(options)
    {
      var option := options[i];
      var normalized := NormalizeTitle(option);
      assert options[i..] == [option] + options[i + 1..];
      if normalized in seen {
        i := i + 1;
        continue;
      }
      seen := seen + {normalized};
      unique := unique + [option];
      i := i + 1;
    }
  }

  lemma {:induction false} DedupFromDistinct(options: seq<string>, seen: set<string>)
    ensures DistinctTitles(DedupFrom(options, seen))
    ensures forall k :: 0 <= k < |DedupFrom(options, seen)| ==> NormalizeTitle(DedupFrom(options, seen)[k]) !in seen
  {
    if options != [] {
      var n := NormalizeTitle(options[0]);
      if n in seen {
        DedupFromDistinct(options[1..], seen);
      } else {
        DedupFromDistinct(options[1..], seen + {n});
        var rest := DedupFrom(options[1..], seen + {n});
        var r := [options[0]] + rest;
        forall i, j | 0 <= i < j < |r| ensures NormalizeTitle(r[i]) != NormalizeTitle(r[j]) {
          assert r[j] == rest[j - 1];
          if i > 0 { assert r[i] == rest[i - 1]; }
        }
        forall k | 0 <= k < |r| ensures NormalizeTitle(r[k]) !in seen {
          if k > 0 { assert r[k] == rest[k - 1]; }
        }
      }
    }
  }

  lemma {:induction false} DedupFromSubsequence(options: seq<string>, seen: set<string>)
    ensures IsSubsequence(DedupFrom(options, seen), options)
  {
    if options != [] {
      var n := NormalizeTitle(options[0]);
      if n in seen {
        DedupFromSubsequence(options[1..], seen);
        SubsequenceDropHead(DedupFrom(options[1..], seen), options);
      } else {
        DedupFromSubsequence(options[1..], seen + {n});
        var r := [options[0]] + DedupFrom(options[1..], seen + {n});
        assert r[1..] == DedupFrom(options[1..], seen + {n});
      }
    }
  }

  lemma SubsequenceDropHead(a: seq<string>, b: seq<string>)
    requires b != [] && IsSubsequence(a, b[1..])
    ensures IsSubsequence(a, b)
  {
  }

  lemma {:induction false} DedupFromKeepsFirst(options: seq<string>, seen: set<string>, k: nat)
    requires k < |options|
    requires NormalizeTitle(options[k]) !in seen
    requires forall j :: 0 <= j < k ==> NormalizeTitle(options[j]) != NormalizeTitle(options[k])
    ensures options[k] in DedupFrom(options, seen)
  {
    if k > 0 {
      var n := NormalizeTitle(options[0]);
      var seen' := if n in seen then seen else seen + {n};
      assert options[1..][k - 1] == options[k];
      DedupFromKeepsFirst(options[1..], seen', k - 1);
    }
  }

  lemma {:induction false} DedupFromFixed(options: seq<string>, seen: set<string>)
    requires DistinctTitles(options)
    requires forall k :: 0 <= k < |options| ==> NormalizeTitle(options[k]) !in seen
    ensures DedupFrom(options, seen) == options
  {
    if options != [] {
      var n := NormalizeTitle(options[0]);
      var rest := options[1..];
      assert DistinctTitles(rest) by {
        forall i, j | 0 <= i < j < |rest|
          ensures NormalizeTitle(rest[i]) != NormalizeTitle(rest[j])
        {
          assert rest[i] == options[i + 1] && rest[j] == options[j + 1];
        }
      }
      forall k | 0 <= k < |rest|
        ensures NormalizeTitle(rest[k]) !in seen + {n}
      {
        assert rest[k] == options[k + 1];
      }
      DedupFromFixed(rest, seen + {n});
      assert n !in seen;
      assert options == [options[0]] + rest;
    }
  }

  /** `_dedup_options` keeps, in order, the first option of each normalised
      title: no two results share a normalised title, the result is a
      subsequence of the input, every first occurrence survives, and
      deduplicating again changes nothing. */
  lemma DedupProperties(options: seq<string>)
    ensures DistinctTitles(Dedup(options))
    ensures IsSubsequence(Dedup(options), options)
    ensures forall k ::
      (0 <= k < |options| && forall j :: 0 <= j < k ==> NormalizeTitle(options[j]) != NormalizeTitle(options[k]))
      ==> options[k] in Dedup(options)
    ensures Dedup(Dedup(options)) == Dedup(options)
  {
    DedupFromDistinct(options, {});
    DedupFromSubsequence(options, {});
    forall k | 0 <= k < |options| && (forall j :: 0 <= j < k ==> NormalizeTitle(options[j]) != NormalizeTitle(options[k]))
      ensures options[k] in Dedup(options)
    {
      DedupFromKeepsFirst(options, {}, k);
    }
    DedupFromFixed(Dedup(options), {});
  }

  // -------------------------------------------------------- resolution

  /** What `force_summary` returns: a text, and a link when it is a summary. */
  datatype Resolution = Resolution(text: string, link: Option<string>)

  /** What trying one ranked title leads to. */
  datatype Step = Found(summary: string, title: string) | Skip | Stop(message: string)

  /** One iteration of the loop in `force_summary`: the title itself, and on
      DisambiguationError a single attempt at its best-ranked option. */
  function TryTitle(wiki: Oracle, keyword: string, lang: string, sentences: nat, title: string): Step {
    match wiki.summary(SummaryQuery(lang, title, sentences, false))
    case Article(s) => Found(s, title)
    case Disambiguation(options) =>
      (match PickBestCandidate(keyword, options)
       case Some(preferred) =>
         if preferred == "" then Skip
         else
           (match wiki.summary(SummaryQuery(lang, preferred, sentences, false))
            case Article(s) => Found(s, preferred)
            case _ => Skip)
       case None => Skip)
    case Missing => Skip
    case Failed(e) => Stop(ResolveErrorPrefix + e.message)
  }

  function StepOutcome(wiki: Oracle, lang: string, step: Step): Resolution
    requires !step.Skip?
  {
    match step
    case Found(s, t) => Resolution(s, Some(ArticleUrl(lang, wiki.urlQuote(t))))
    case Stop(m) => Resolution(m, None)
  }

  function TryTitles(wiki: Oracle, keyword: string, lang: string, sentences: nat, titles: seq<string>): Resolution {
    if titles == [] then Resolution(NotFoundMessage, None)
    else
      var step := TryTitle(wiki, keyword, lang, sentences, titles[0]);
      if step.Skip? then TryTitles(wiki, keyword, lang, sentences, titles[1..]) else StepOutcome(wiki, lang, step)
  }

  /** The specification of `force_summary`; `Failure` is an exception
      raised by the search call, which the source does not catch. */
  function ForceSummaryOf(wiki: Oracle, keyword: string, lang: string, sentences: nat): Result<Resolution, string> {
    match wiki.search(lang, keyword)
    case SearchFailed(e) => Failure(e.message)
    case Titles(ts) => Success(TryTitles(wiki, keyword, lang, sentences, Prioritize(ts, keyword)))
  }

  /** `force_summary`. */
  method ForceSummary(wiki: Oracle, keyword: string, lang: string, sentences: nat) returns (r: Result<Resolution, string>)
    ensures r == ForceSummaryOf(wiki, keyword, lang, sentences)
  {
    var reply := wiki.search(lang, keyword);
    if reply.SearchFailed? {
      return Failure(reply.error.message);
    }
    var ordered := Prioritize(reply.titles, keyword);
    var i := 0;
    while i < |ordered|
      invariant 0 <= i <= |ordered|
      invariant TryTitles(wiki, keyword, lang, sentences, ordered[i..]) == TryTitles(wiki, keyword, lang, sentences, ordered)
    {
      var title := ordered[i];
      assert ordered[i..][1..] == ordered[i + 1..];
      var page := wiki.summary(SummaryQuery(lang, title, sentences, false));
      match page {
        case Article(s) =>
          return Success(Resolution(s, Some(ArticleUrl(lang, wiki.urlQuote(title)))));
        case Disambiguation(options) =>
          var preferred := PickBestCandidate(keyword, options);
          if preferred.Some? && preferred.value != "" {
            var nested := wiki.summary(SummaryQuery(lang, preferred.value, sentences, false));
            if nested.Article? {
              return Success(Resolution(nested.summary, Some(ArticleUrl(lang, wiki.urlQuote(preferred.value)))));
            }
          }
        case Missing =>
        case Failed(e) =>
          return Success(Resolution(ResolveErrorPrefix + e.message, None));
      }
      i := i + 1;
    }
    return Success(Resolution(NotFoundMessage, None));
  }

  /** The titles are tried in order: when every title before `k` is skipped
      (missing page, or a failed single nested attempt) and title `k` is
      not, the outcome is decided by title `k` alone. */
  lemma {:induction false} TryTitlesDecidedAt(wiki: Oracle, keyword: string, lang: string, sentences: nat, titles: seq<string>, k: nat)
    requires k < |titles|
    requires forall j :: 0 <= j < k ==> TryTitle(wiki, keyword, lang, sentences, titles[j]).Skip?
    requires !TryTitle(wiki, keyword, lang, sentences, titles[k]).Skip?
    ensures TryTitles(wiki, keyword, lang, sentences, titles)
      == StepOutcome(wiki, lang, TryTitle(wiki, keyword, lang, sentences, titles[k]))
  {
    if k > 0 {
      assert forall j :: 0 <= j < k - 1 ==> titles[1..][j] == titles[j + 1];
      TryTitlesDecidedAt(wiki, keyword, lang, sentences, titles[1..], k - 1);
    }
  }

  /** When every title is skipped the result is the not-found message. */
  lemma {:induction false} TryTitlesExhausted(wiki: Oracle, keyword: string, lang: string, sentences: nat, titles: seq<string>)
    requires forall j :: 0 <= j < |titles| ==> TryTitle(wiki, keyword, lang, sentences, titles[j]).Skip?
    ensures TryTitles(wiki, keyword, lang, sentences, titles) == Resolution(NotFoundMessage, None)
  {
    if titles != [] {
      assert forall j :: 0 <= j < |titles| - 1 ==> titles[1..][j] == titles[j + 1];
      TryTitlesExhausted(wiki, keyword, lang, sentences, titles[1..]);
    }
  }

  /** A link comes only with a summary of the title that was tried or of
      its best-ranked nested option, and it is that title's article URL. */
  lemma TryTitleLink(wiki: Oracle, keyword: string, lang: string, sentences: nat, title: string)
    ensures match TryTitle(wiki, keyword, lang, sentences, title)
      case Found(s, t) =>
        (t == title && wiki.summary(SummaryQuery(lang, title, sentences, false)) == Article(s))
        || (wiki.summary(SummaryQuery(lang, title, sentences, false)).Disambiguation?
            && PickBestCandidate(keyword, wiki.summary(SummaryQuery(lang, title, sentences, false)).options) == Some(t)
            && t != "" && wiki.summary(SummaryQuery(lang, t, sentences, false)) == Article(s))
      case Stop(m) => wiki.summary(SummaryQuery(lang, title, sentences, false)).Failed?
      case Skip =>
        wiki.summary(SummaryQuery(lang, title, sentences, false)).Missing?
        || wiki.summary(SummaryQuery(lang, title, sentences, false)).Disambiguation?
  {
  }

  /** A search title that normalises to the keyword is the first one tried. */
  lemma ExactTitleTriedFirst(wiki: Oracle, keyword: string, lang: string, titles: seq<string>, t: string)
    requires wiki.search(lang, keyword) == Titles(titles)
    requires t in titles && NormalizeTitle(t) == NormalizeTitle(keyword)
    ensures NormalizeTitle(Prioritize(titles, keyword)[0]) == NormalizeTitle(keyword)
  {
    PrioritizeExactMatchFirst(titles, keyword);
  }

  /** The specification of `summarize_keyword`; `Failure` is the search
      exception escaping from `force_summary`. */
  function SummarizeKeyword(wiki: Oracle, keyword: string, lang: string, sentences: nat): (r: Result<string, string>)
    ensures r.Failure? ==> wiki.search(lang, keyword).SearchFailed? && r.error == wiki.search(lang, keyword).error.message
  {
    match wiki.summary(SummaryQuery(lang, keyword, sentences, false))
    case Article(s) => Success(s)
    case Disambiguation(_) =>
      (match ForceSummaryOf(wiki, keyword, lang, sentences)
       case Success(res) => Success(res.text)
       case Failure(m) => Failure(m))
    case Missing => Success(NoSearchResultMessage)
    case Failed(e) => Success(SummaryErrorPrefix + e.message)
  }

  /** `summarize_keyword` raises only when the keyword is ambiguous and the
      search behind the drill-down raises. */
  lemma SummarizeKeywordRaisesOnlyFromSearch(wiki: Oracle, keyword: string, lang: string, sentences: nat)
    ensures SummarizeKeyword(wiki, keyword, lang, sentences).Failure? <==>
      wiki.summary(SummaryQuery(lang, keyword, sentences, false)).Disambiguation?
      && wiki.search(lang, keyword).SearchFailed?
  {
  }
}
