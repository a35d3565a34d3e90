/** The home-page gallery teaser (src/components/Gallery.tsx): its three
    string helpers and the refresh that picks four photos per category. */
module Gallery {
  import opened Common
  import opened Ascii
  import opened Types

  // ----- formatBlurDataURL -----

  const DataUrlPrefix: string := "data:image/jpeg;base64,"

  /** Turns a blur placeholder into a data URL unless it already is one. */
  function FormatBlurDataURL(blurData: string): (r: string)
    ensures blurData == [] ==> r == []
    ensures blurData != [] && "data:" <= blurData ==> r == blurData
    ensures blurData != [] && !("data:" <= blurData) ==> r == DataUrlPrefix + blurData
  {
    if blurData == [] then []
    else if "data:" <= blurData then blurData
    else DataUrlPrefix + blurData
  }

  /** Every non-empty result is a data URL, and only the empty input gives
      the empty result. */
  lemma FormatBlurDataURLIsDataUrl(blurData: string)
    ensures FormatBlurDataURL(blurData) == [] <==> blurData == []
    ensures FormatBlurDataURL(blurData) != [] ==> "data:" <= FormatBlurDataURL(blurData)
  {
    if blurData != [] && !("data:" <= blurData) {
      assert (DataUrlPrefix + blurData)[..5] == "data:";
    }
  }

  lemma FormatBlurDataURLIdempotent(blurData: string)
    ensures FormatBlurDataURL(FormatBlurDataURL(blurData)) == FormatBlurDataURL(blurData)
  {
    FormatBlurDataURLIsDataUrl(blurData);
  }

  // ----- formatCategoryName -----

  /** True when `w` contains no space. */
  predicate NoBlank(w: string) { forall i :: 0 <= i < |w| ==> w[i] != ' ' }

  /** `s.split(' ')`: the pieces between the spaces, empty pieces included.
      Joining them with spaces gives `s` back, and no piece holds a space. */
  function SplitOnSpace(s: string): (r: seq<string>)
    ensures |r| >= 1
    ensures JoinWithSpace(r) == s
    ensures forall i :: 0 <= i < |r| ==> NoBlank(r[i])
    decreases |s|
  {
    if s == [] then [[]]
    else
      var rest := SplitOnSpace(s[1..]);
      if s[0] == ' ' then
        JoinEmptyFirst(rest);
        assert [s[0]] + s[1..] == s;
        [[]] + rest
      else
        JoinCons(s[0], rest[0], rest[1..]);
        assert [rest[0]] + rest[1..] == rest;
        assert [s[0]] + s[1..] == s;
        var r := [[s[0]] + rest[0]] + rest[1..];
        assert NoBlank(r[0]) by {
          forall i | 0 <= i < |r[0]| ensures r[0][i] != ' ' {
            if i > 0 { assert r[0][i] == rest[0][i - 1]; }
          }
        }
        assert forall i :: 1 <= i < |r| ==> r[i] == rest[i];
        r
  }

  /** `words.join(' ')` */
  function JoinWithSpace(words: seq<string>): string
    requires |words| >= 1
    decreases |words|
  {
    if |words| == 1 then words[0] else words[0] + " " + JoinWithSpace(words[1..])
  }

  /** `words.map((word) => word.charAt(0).toUpperCase() + word.slice(1))` */
  function CapitalizeWords(words: seq<string>): (r: seq<string>)
    ensures |r| == |words|
    ensures forall i :: 0 <= i < |words| ==> r[i] == CapitalizeFirst(words[i])
  {
    seq(|words|, i requires 0 <= i < |words| => CapitalizeFirst(words[i]))
  }

  /** Reference definition, character by character: a character is upper-cased
      exactly when it starts a word, i.e. it is first or follows a space. */
  function TitleCase(s: string, atWordStart: bool): string
    decreases |s|
  {
    if s == [] then []
    else [if atWordStart then ToUpper(s[0]) else s[0]] + TitleCase(s[1..], s[0] == ' ')
  }

  /** `formatCategoryName`: split on spaces, capitalise each word, join again.
      The result is the character-wise title case of the name. */
  function FormatCategoryName(category: string): (r: string)
    ensures r == TitleCase(category, true)
  {
    SplitJoinIsTitleCase(category, true);
    JoinWithSpace(CapitalizeWords(SplitOnSpace(category)))
  }

  /** True when position `i` of `s` starts a space-separated word. */
  predicate StartsWord(s: string, i: int)
    requires 0 <= i < |s|
  {
    i == 0 || s[i - 1] == ' '
  }

  /** The split words with either all of them or all but the first capitalised. */
  function CapitalizeFrom(words: seq<string>, first: bool): (r: seq<string>)
    requires |words| >= 1
    ensures |r| == |words|
  {
    if first then CapitalizeWords(words) else [words[0]] + CapitalizeWords(words[1..])
  }

  lemma JoinCons(x: char, w: string, ws: seq<string>)
    ensures JoinWithSpace([[x] + w] + ws) == [x] + JoinWithSpace([w] + ws)
  {
    if ws != [] {
      assert ([[x] + w] + ws)[1..] == ws;
      assert ([w] + ws)[1..] == ws;
    }
  }

  lemma JoinEmptyFirst(ws: seq<string>)
    requires |ws| >= 1
    ensures JoinWithSpace([[]] + ws) == " " + JoinWithSpace(ws)
  {
    assert ([[]] + ws)[1..] == ws;
  }

  lemma CapitalizeWordsCons(w: string, ws: seq<string>)
    ensures CapitalizeWords([w] + ws) == [CapitalizeFirst(w)] + CapitalizeWords(ws)
  {
    var l := CapitalizeWords([w] + ws);
    var r := [CapitalizeFirst(w)] + CapitalizeWords(ws);
    forall i | 0 <= i < |l| ensures l[i] == r[i] {
      if i > 0 {
        assert ([w] + ws)[i] == ws[i - 1];
      }
    }
  }

  /** One step of `TitleCase`. */
  lemma TitleCaseStep(s: string, first: bool)
    requires s != []
    ensures TitleCase(s, first) == [if first then ToUpper(s[0]) else s[0]] + TitleCase(s[1..], s[0] == ' ')
  {
  }

  /** The capitalised split of a string that starts with a space. */
  lemma CapitalizeFromSpace(rest: seq<string>, first: bool)
    requires |rest| >= 1
    ensures CapitalizeFrom([[]] + rest, first) == [[]] + CapitalizeFrom(rest, true)
  {
    CapitalizeWordsCons([], rest);
    assert ([[]] + rest)[1..] == rest;
  }

  /** The capitalised split of a string that starts with a letter `x`. */
  lemma CapitalizeFromLetter(x: char, rest: seq<string>, first: bool)
    requires |rest| >= 1
    ensures CapitalizeFrom([[x] + rest[0]] + rest[1..], first)
         == [[if first then ToUpper(x) else x] + rest[0]] + CapitalizeWords(rest[1..])
  {
    var w := [x] + rest[0];
    CapitalizeWordsCons(w, rest[1..]);
    assert ([w] + rest[1..])[1..] == rest[1..];
    assert CapitalizeFirst(w) == [ToUpper(x)] + rest[0] by {
      assert w[1..] == rest[0];
    }
  }

  lemma {:induction false} SplitJoinIsTitleCase(s: string, first: bool)
    ensures JoinWithSpace(CapitalizeFrom(SplitOnSpace(s), first)) == TitleCase(s, first)
    decreases |s|
  {
    if s != [] {
      var t := s[1..];
      var rest := SplitOnSpace(t);
      SplitJoinIsTitleCase(t, s[0] == ' ');
      TitleCaseStep(s, first);
      if s[0] == ' ' {
        assert SplitOnSpace(s) == [[]] + rest;
        CapitalizeFromSpace(rest, first);
        JoinEmptyFirst(CapitalizeFrom(rest, true));
        assert ToUpper(' ') == ' ';
      } else {
        assert SplitOnSpace(s) == [[s[0]] + rest[0]] + rest[1..];
        var x := if first then ToUpper(s[0]) else s[0];
        var tail := CapitalizeWords(rest[1..]);
        CapitalizeFromLetter(s[0], rest, first);
        assert CapitalizeFrom(rest, false) == [rest[0]] + tail;
        JoinCons(x, rest[0], tail);
      }
    }
  }

  /** Joining space-free words with spaces and splitting again gives the
      words back. */
  /** A character other than a space extends the first piece. */
  lemma SplitFirstLetter(s: string)
    requires s != [] && s[0] != ' '
    ensures SplitOnSpace(s) == [[s[0]] + SplitOnSpace(s[1..])[0]] + SplitOnSpace(s[1..])[1..]
  {
  }

  lemma {:induction false} SplitWordThen(w: string, t: string)
    requires NoBlank(w)
    ensures SplitOnSpace(w + t) == [w + SplitOnSpace(t)[0]] + SplitOnSpace(t)[1..]
    decreases |w|
  {
    if w != [] {
      var s := w + t;
      var u := SplitOnSpace(t);
      assert s[0] == w[0] && s[1..] == w[1..] + t;
      assert NoBlank(w[1..]) by {
        forall i | 0 <= i < |w| - 1 ensures w[1..][i] != ' ' { assert w[1..][i] == w[i + 1]; }
      }
      SplitWordThen(w[1..], t);
      var v := SplitOnSpace(w[1..] + t);
      assert v[0] == w[1..] + u[0] && v[1..] == u[1..];
      SplitFirstLetter(s);
      assert [w[0]] + (w[1..] + u[0]) == w + u[0];
    } else {
      assert [] + t == t;
      assert [] + SplitOnSpace(t)[0] == SplitOnSpace(t)[0];
      assert [SplitOnSpace(t)[0]] + SplitOnSpace(t)[1..] == SplitOnSpace(t);
    }
  }

  lemma {:induction false} SplitJoin(words: seq<string>)
    requires |words| >= 1
    requires forall i :: 0 <= i < |words| ==> NoBlank(words[i])
    ensures SplitOnSpace(JoinWithSpace(words)) == words
    decreases |words|
  {
    if |words| == 1 {
      SplitWordThen(words[0], []);
      assert words[0] + [] == words[0];
    } else {
      var rest := words[1..];
      assert forall i :: 0 <= i < |rest| ==> rest[i] == words[i + 1];
      SplitJoin(rest);
      var t := " " + JoinWithSpace(rest);
      assert words[0] + " " + JoinWithSpace(rest) == words[0] + t;
      SplitWordThen(words[0], t);
      assert t[1..] == JoinWithSpace(rest);
      assert SplitOnSpace(t) == [[]] + rest;
      assert words[0] + [] == words[0];
      assert [words[0]] + rest == words;
    }
  }

  lemma {:induction false} TitleCaseAt(s: string, first: bool)
    ensures |TitleCase(s, first)| == |s|
    ensures forall i :: 0 <= i < |s| ==>
              TitleCase(s, first)[i] == if (i == 0 && first) || (i > 0 && s[i - 1] == ' ') then ToUpper(s[i]) else s[i]
    decreases |s|
  {
    if s != [] {
      TitleCaseAt(s[1..], s[0] == ' ');
    }
  }

  /** `formatCategoryName` upper-cases exactly the first character of each
      space-separated word and keeps everything else, so it preserves the
      length and the positions of the spaces. */
  lemma FormatCategoryNameSpec(category: string)
    ensures |FormatCategoryName(category)| == |category|
    ensures forall i :: 0 <= i < |category| ==>
              FormatCategoryName(category)[i] == if StartsWord(category, i) then ToUpper(category[i]) else category[i]
    ensures forall i :: 0 <= i < |category| ==> (FormatCategoryName(category)[i] == ' ' <==> category[i] == ' ')
  {
    TitleCaseAt(category, true);
  }

  lemma FormatCategoryNameIdempotent(category: string)
    ensures FormatCategoryName(FormatCategoryName(category)) == FormatCategoryName(category)
  {
    var once := FormatCategoryName(category);
    FormatCategoryNameSpec(category);
    FormatCategoryNameSpec(once);
    forall i | 0 <= i < |once| ensures FormatCategoryName(once)[i] == once[i] {
      if StartsWord(once, i) {
        assert StartsWord(category, i);
      }
    }
  }

  /** Two non-empty space-free words separated by one space are both
      capitalised. */
  lemma FormatTwoWords(a: string, b: string)
    requires a != [] && b != [] && NoBlank(a) && NoBlank(b)
    ensures FormatCategoryName(a + " " + b) == CapitalizeFirst(a) + " " + CapitalizeFirst(b)
  {
    var words := [a, b];
    assert JoinWithSpace(words) == a + " " + b by {
      assert words[1..] == [b];
    }
    SplitJoin(words);
    var caps := CapitalizeWords(words);
    assert caps == [CapitalizeFirst(a), CapitalizeFirst(b)];
    assert caps[1..] == [CapitalizeFirst(b)];
    assert SplitOnSpace(a + " " + b) == words;
    assert JoinWithSpace(caps) == CapitalizeFirst(a) + " " + CapitalizeFirst(b);
    assert FormatCategoryName(a + " " + b) == JoinWithSpace(caps);
  }

  /** `real estate` is shown as `Real Estate`. The two words are parameters
      pinned by the precondition rather than literals in the ensures: that
      keeps the solver from unfolding the whole pipeline on the literal. */
  lemma FormatRealEstateName(a: string, b: string)
    requires a == "real" && b == "estate"
    ensures FormatCategoryName(a + " " + b) == "Real Estate"
  {
    FormatTwoWords(a, b);
    assert CapitalizeFirst(a) == "Real" && CapitalizeFirst(b) == "Estate";
  }

  // ----- formatCategorySlug -----

  predicate NoSpace(s: string) { forall i :: 0 <= i < |s| ==> !IsSpace(s[i]) }

  predicate NoUpper(s: string) { forall i :: 0 <= i < |s| ==> !IsUpper(s[i]) }

  lemma NoSpaceSuffix(s: string, k: nat)
    requires NoSpace(s) && k <= |s|
    ensures NoSpace(s[k..])
  {
    forall i | 0 <= i < |s| - k ensures !IsSpace(s[k..][i]) {
      assert s[k..][i] == s[k + i];
    }
  }

  lemma NoSpaceConcat(a: string, b: string)
    requires NoSpace(a) && NoSpace(b)
    ensures NoSpace(a + b)
  {
    forall i | 0 <= i < |a + b| ensures !IsSpace((a + b)[i]) {
      if i < |a| { assert (a + b)[i] == a[i]; } else { assert (a + b)[i] == b[i - |a|]; }
    }
  }

  lemma NoUpperSuffix(s: string, k: nat)
    requires NoUpper(s) && k <= |s|
    ensures NoUpper(s[k..])
  {
    forall i | 0 <= i < |s| - k ensures !IsUpper(s[k..][i]) {
      assert s[k..][i] == s[k + i];
    }
  }

  lemma NoUpperConcat(a: string, b: string)
    requires NoUpper(a) && NoUpper(b)
    ensures NoUpper(a + b)
  {
    forall i | 0 <= i < |a + b| ensures !IsUpper((a + b)[i]) {
      if i < |a| { assert (a + b)[i] == a[i]; } else { assert (a + b)[i] == b[i - |a|]; }
    }
  }

  /** The rest of `s` after its leading whitespace. */
  function DropSpaces(s: string): (r: string)
    ensures |r| <= |s| && r == s[|s| - |r|..]
    ensures r == [] || !IsSpace(r[0])
    decreases |s|
  {
    if s != [] && IsSpace(s[0]) then DropSpaces(s[1..]) else s
  }

  /** `s.replace(/\s+/g, '-')`: each maximal run of whitespace becomes one
      hyphen, so no whitespace is left and the string never grows. */
  function ReplaceSpaceRuns(s: string): (r: string)
    ensures NoSpace(r)
    ensures |r| <= |s|
    decreases |s|
  {
    if s == [] then []
    else if IsSpace(s[0]) then
      var tail := ReplaceSpaceRuns(DropSpaces(s[1..]));
      NoSpaceConcat("-", tail);
      "-" + tail
    else
      var tail := ReplaceSpaceRuns(s[1..]);
      NoSpaceConcat([s[0]], tail);
      [s[0]] + tail
  }

  lemma {:induction false} DropSpacesNoUpper(s: string)
    requires NoUpper(s)
    ensures NoUpper(DropSpaces(s))
    decreases |s|
  {
    if s != [] && IsSpace(s[0]) {
      NoUpperSuffix(s, 1);
      DropSpacesNoUpper(s[1..]);
    }
  }

  /** A whitespace run adds only a hyphen in front of the rest. */
  lemma NoUpperAfterSpace(s: string)
    requires s != [] && IsSpace(s[0])
    requires NoUpper(ReplaceSpaceRuns(DropSpaces(s[1..])))
    ensures NoUpper(ReplaceSpaceRuns(s))
  {
    var tail := ReplaceSpaceRuns(DropSpaces(s[1..]));
    assert ReplaceSpaceRuns(s) == "-" + tail;
    NoUpperConcat("-", tail);
  }

  /** Any other character is kept in front of the rest. */
  lemma NoUpperAfterChar(s: string)
    requires s != [] && !IsSpace(s[0]) && !IsUpper(s[0])
    requires NoUpper(ReplaceSpaceRuns(s[1..]))
    ensures NoUpper(ReplaceSpaceRuns(s))
  {
    var tail := ReplaceSpaceRuns(s[1..]);
    assert ReplaceSpaceRuns(s) == [s[0]] + tail;
    NoUpperConcat([s[0]], tail);
  }

  lemma {:induction false} ReplaceSpaceRunsNoUpper(s: string)
    requires NoUpper(s)
    ensures NoUpper(ReplaceSpaceRuns(s))
    decreases |s|
  {
    if s != [] {
      NoUpperSuffix(s, 1);
      if IsSpace(s[0]) {
        DropSpacesNoUpper(s[1..]);
        ReplaceSpaceRunsNoUpper(DropSpaces(s[1..]));
        NoUpperAfterSpace(s);
      } else {
        ReplaceSpaceRunsNoUpper(s[1..]);
        NoUpperAfterChar(s);
      }
    }
  }

  lemma {:induction false} ReplaceSpaceRunsKeeps(s: string)
    requires NoSpace(s)
    ensures ReplaceSpaceRuns(s) == s
    decreases |s|
  {
    if s != [] {
      assert !IsSpace(s[0]);
      NoSpaceSuffix(s, 1);
      ReplaceSpaceRunsKeeps(s[1..]);
      assert ReplaceSpaceRuns(s) == [s[0]] + ReplaceSpaceRuns(s[1..]);
      assert [s[0]] + s[1..] == s;
    }
  }

  /** `formatCategorySlug`: a slug has no whitespace and no upper-case
      letter, and is no longer than the name it came from. */
  function FormatCategorySlug(category: string): (r: string)
    ensures NoSpace(r)
    ensures NoUpper(r)
    ensures |r| <= |category|
  {
    ReplaceSpaceRunsNoUpper(Lower(category));
    ReplaceSpaceRuns(Lower(category))
  }

  lemma FormatCategorySlugIdempotent(category: string)
    ensures FormatCategorySlug(FormatCategorySlug(category)) == FormatCategorySlug(category)
  {
    var slug := FormatCategorySlug(category);
    LowerOfLower(slug);
    ReplaceSpaceRunsKeeps(slug);
  }

  /** A character other than whitespace is kept in front of the rest. */
  lemma KeepsFirst(s: string)
    requires s != [] && !IsSpace(s[0])
    ensures ReplaceSpaceRuns(s) == [s[0]] + ReplaceSpaceRuns(s[1..])
  {
  }

  /** A space-free prefix is kept as it is. */
  lemma {:induction false} KeepsPrefix(a: string, t: string)
    requires NoSpace(a)
    ensures ReplaceSpaceRuns(a + t) == a + ReplaceSpaceRuns(t)
    decreases |a|
  {
    if a == [] {
      assert a + t == t;
    } else {
      var s := a + t;
      assert s[0] == a[0] && s[1..] == a[1..] + t;
      KeepsFirst(s);
      NoSpaceSuffix(a, 1);
      KeepsPrefix(a[1..], t);
      assert [a[0]] + (a[1..] + ReplaceSpaceRuns(t)) == a + ReplaceSpaceRuns(t);
    }
  }

  /** Nothing but whitespace. */
  predicate AllSpace(w: string) { forall i :: 0 <= i < |w| ==> IsSpace(w[i]) }

  lemma AllSpaceTail(w: string)
    requires w != [] && AllSpace(w)
    ensures AllSpace(w[1..])
  {
    forall i | 0 <= i < |w| - 1 ensures IsSpace(w[1..][i]) {
      assert w[1..][i] == w[i + 1];
    }
  }

  /** A leading whitespace character is skipped. */
  lemma SkipsFirst(s: string)
    requires s != [] && IsSpace(s[0])
    ensures DropSpaces(s) == DropSpaces(s[1..])
  {
  }

  /** A whitespace character starts a run that becomes one hyphen. */
  lemma HyphenFirst(s: string)
    requires s != [] && IsSpace(s[0])
    ensures ReplaceSpaceRuns(s) == "-" + ReplaceSpaceRuns(DropSpaces(s[1..]))
  {
  }

  /** Leading whitespace is dropped up to the first other character. */
  lemma {:induction false} DropBlank(w: string, b: string)
    requires AllSpace(w) && (b == [] || !IsSpace(b[0]))
    ensures DropSpaces(w + b) == b
    decreases |w|
  {
    if w == [] {
      assert w + b == b;
    } else {
      var s := w + b;
      assert s[0] == w[0] && s[1..] == w[1..] + b;
      SkipsFirst(s);
      AllSpaceTail(w);
      DropBlank(w[1..], b);
    }
  }

  /** A whitespace run in front of a space-free word becomes one hyphen. */
  lemma {:induction false} LeadingRun(w: string, b: string)
    requires w != [] && AllSpace(w) && NoSpace(b)
    ensures ReplaceSpaceRuns(w + b) == "-" + b
  {
    var s := w + b;
    assert s[0] == w[0] && s[1..] == w[1..] + b;
    AllSpaceTail(w);
    calc {
      ReplaceSpaceRuns(s);
      { HyphenFirst(s); }
      "-" + ReplaceSpaceRuns(DropSpaces(w[1..] + b));
      { DropBlank(w[1..], b); }
      "-" + ReplaceSpaceRuns(b);
      { ReplaceSpaceRunsKeeps(b); }
      "-" + b;
    }
  }

  /** The `+` of the pattern: a whole run of whitespace between two
      space-free words becomes a single hyphen. */
  lemma {:induction false} RunBecomesOneHyphen(a: string, w: string, b: string)
    requires NoSpace(a) && NoSpace(b) && w != [] && AllSpace(w)
    ensures ReplaceSpaceRuns(a + w + b) == a + "-" + b
  {
    calc {
      ReplaceSpaceRuns(a + w + b);
      { assert a + w + b == a + (w + b); }
      ReplaceSpaceRuns(a + (w + b));
      { KeepsPrefix(a, w + b); }
      a + ReplaceSpaceRuns(w + b);
      { LeadingRun(w, b); }
      a + ("-" + b);
      { assert a + ("-" + b) == a + "-" + b; }
      a + "-" + b;
    }
  }

  /** In particular a single space becomes one hyphen. */
  lemma {:induction false} ReplaceSingleSpace(a: string, b: string)
    requires NoSpace(a) && NoSpace(b)
    ensures ReplaceSpaceRuns(a + " " + b) == a + "-" + b
  {
    RunBecomesOneHyphen(a, " ", b);
  }

  /** Two lower-case space-free words separated by one space give the words
      joined by one hyphen. */
  lemma SlugTwoWords(a: string, b: string)
    requires NoSpace(a) && NoSpace(b) && NoUpper(a) && NoUpper(b)
    ensures FormatCategorySlug(a + " " + b) == a + "-" + b
  {
    NoUpperConcat(a, " ");
    NoUpperConcat(a + " ", b);
    LowerOfLower(a + " " + b);
    ReplaceSingleSpace(a, b);
  }

  /** `real estate` becomes the slug `real-estate` (parameters pinned as in
      `FormatRealEstateName`). */
  lemma RealEstateSlug(a: string, b: string)
    requires a == "real" && b == "estate"
    ensures a + " " + b == Value(RealEstate)
    ensures FormatCategorySlug(a + " " + b) == "real-estate"
  {
    SlugTwoWords(a, b);
  }

  // ----- the component's state -----

  /** A map filled position by position along `CategoryOrder` holds, for
      every category, the first four photos of that category's album. */
  lemma FilledInOrder(m: map<Category, seq<Photo>>, results: seq<seq<Photo>>)
    requires |results| == |CategoryOrder|
    requires forall j :: 0 <= j < |CategoryOrder| ==> CategoryOrder[j] in m
    requires forall j :: 0 <= j < |results| ==> m[CategoryOrder[j]] == TakeFour(results[j])
    ensures forall c: Category :: c in m && m[c] == TakeFour(results[IndexOf(c)])
    ensures forall c: Category :: multiset(m[c]) <= multiset(results[IndexOf(c)]) && |m[c]| <= 4
  {
    forall c: Category
      ensures c in m && m[c] == TakeFour(results[IndexOf(c)])
      ensures multiset(m[c]) <= multiset(results[IndexOf(c)]) && |m[c]| <= 4
    {
      var j := IndexOf(c);
      assert CategoryOrder[j] == c;
      TakeFourDrawn(results[j]);
    }
  }

  /** `results.forEach(({ category, images }) => newCategoryImages[category] = images)`
      over a map that starts with an empty list for every category: each
      category ends with the first four photos of its own album. */
  method CollectImages(results: seq<seq<Photo>>) returns (m: map<Category, seq<Photo>>)
    requires |results| == |CategoryOrder|
    ensures forall c: Category :: c in m && m[c] == TakeFour(results[IndexOf(c)])
    ensures forall c: Category :: multiset(m[c]) <= multiset(results[IndexOf(c)]) && |m[c]| <= 4
  {
    m := map c | c in CategoryOrder :: [];
    var i := 0;
    while i < |results|
      invariant 0 <= i <= |results|
      invariant forall j :: 0 <= j < |CategoryOrder| ==> CategoryOrder[j] in m
      invariant forall j :: 0 <= j < i ==> m[CategoryOrder[j]] == TakeFour(results[j])
    {
      ghost var before := m;
      m := m[CategoryOrder[i] := TakeFour(results[i])];
      forall j | 0 <= j < i ensures m[CategoryOrder[j]] == TakeFour(results[j]) {
        CategoryOrderDistinct(j, i);
        assert m[CategoryOrder[j]] == before[CategoryOrder[j]];
      }
      i := i + 1;
    }
    FilledInOrder(m, results);
  }

  /** The state of the `Gallery` component. */
  class GalleryView {
    var categoryImages: map<Category, seq<Photo>>
    var loaded: bool
    var isPaused: bool
    var refreshCounter: nat

    ghost predicate Valid()
      reads this
    {
      forall c: Category :: c in categoryImages && |categoryImages[c]| <= 4
    }

    constructor ()
      ensures Valid()
      ensures forall c: Category :: categoryImages[c] == []
      ensures !loaded && !isPaused && refreshCounter == 0
    {
      var empty: map<Category, seq<Photo>> := map c | c in CategoryOrder :: [];
      forall c: Category ensures c in empty {
        assert CategoryOrder[IndexOf(c)] == c;
      }
      categoryImages := empty;
      loaded := false;
      isPaused := false;
      refreshCounter := 0;
    }

    /** `getRandomImages`. The four fetches are given as their outcome: `None`
        when any of them fails (then `Promise.all` rejects), otherwise the
        shuffled photos of each category, in the order of `CategoryOrder`. */
    method GetRandomImages(response: Option<seq<seq<Photo>>>)
      requires Valid()
      requires response.Some? ==> |response.value| == |CategoryOrder|
      modifies this
      ensures Valid()
      ensures loaded
      ensures response.None? ==> categoryImages == old(categoryImages)
      ensures response.Some? ==> forall c: Category ::
                categoryImages[c] == TakeFour(response.value[IndexOf(c)])
      ensures response.Some? ==> forall c: Category ::
                multiset(categoryImages[c]) <= multiset(response.value[IndexOf(c)])
      ensures isPaused == old(isPaused) && refreshCounter == old(refreshCounter)
    {
      if response.None? {
        loaded := true;
        return;
      }
      var newCategoryImages := CollectImages(response.value);
      categoryImages := newCategoryImages;
      loaded := true;
    }

    /** One firing of the eight-second interval, which exists only once the
        first load is done and while the gallery is not paused. */
    method Tick(response: Option<seq<seq<Photo>>>)
      requires Valid()
      requires response.Some? ==> |response.value| == |CategoryOrder|
      modifies this
      ensures Valid()
      ensures !(old(loaded) && !old(isPaused)) ==>
                categoryImages == old(categoryImages) && loaded == old(loaded) && refreshCounter == old(refreshCounter)
      ensures old(loaded) && !old(isPaused) ==> refreshCounter == old(refreshCounter) + 1
      ensures old(loaded) && !old(isPaused) && response.Some? ==> forall c: Category ::
                categoryImages[c] == TakeFour(response.value[IndexOf(c)])
      ensures old(loaded) && !old(isPaused) && response.None? ==> categoryImages == old(categoryImages)
      ensures loaded == old(loaded) && isPaused == old(isPaused)
    {
      if loaded && !isPaused {
        GetRandomImages(response);
        refreshCounter := refreshCounter + 1;
      }
    }

    /** The pause / play button. */
    method TogglePause()
      requires Valid()
      modifies this`isPaused
      ensures Valid()
      ensures isPaused == !old(isPaused)
    {
      isPaused := !isPaused;
    }
  }
}
