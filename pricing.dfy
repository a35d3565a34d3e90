/** The pricing page (src/components/Pricing.tsx): one photo slot per
    category that cycles through up to four photos, refreshed from the
    content API, plus the heading and booking link of each package. */
module Pricing {
  import opened Common
  import opened Ascii

  /** The `Category` enumeration of src/types/pricing.ts. */
  datatype PricingCategory = Portraits | Events | Cars

  function Name(c: PricingCategory): string
  {
    match c
    case Portraits => "portraits"
    case Events => "events"
    case Cars => "cars"
  }

  const AllCategories: set<PricingCategory> := {Portraits, Events, Cars}

  lemma AllCategoriesListed(c: PricingCategory)
    ensures c in AllCategories
  {
  }

  const Placeholder: string := "/placeholder.svg"

  // ----- the rotation -----

  /** One step of an index: `(prev + 1) % 4`. */
  function Advance(i: int): (r: int)
    requires 0 <= i
    ensures 0 <= r < 4
    ensures i < 3 ==> r == i + 1
    ensures i == 3 ==> r == 0
  {
    (i + 1) % 4
  }

  /** Four steps bring an index back to where it was. */
  lemma FourAdvancesReturn(i: int)
    requires 0 <= i < 4
    ensures Advance(Advance(Advance(Advance(i)))) == i
  {
  }

  // ----- getPhotos -----

  /** The image map `getPhotos` starts from. */
  const EmptyImages: map<string, seq<string>> := map["portraits" := [], "events" := [], "cars" := []]

  /** `newImages` after the response's entries: each entry writes its
      lower-cased `category_name`, recognised or not, with the first four
      (shuffled) file names of its album; a later entry of the same name
      overwrites an earlier one. */
  function RebuildImages(entries: seq<CategoryAlbum>): (r: map<string, seq<string>>)
    ensures EmptyImages.Keys <= r.Keys
    ensures forall k :: k in r ==> |r[k]| <= 4
    decreases |entries|
  {
    if entries == [] then EmptyImages
    else
      var last := entries[|entries| - 1];
      RebuildImages(entries[..|entries| - 1])[Lower(last.categoryName) := ChosenImages(last.photos)]
  }

  /** `newBlurData` after the response's entries, built from an empty map:
      its keys are exactly the names some entry picked, so nothing of the
      previous blur map survives. */
  function RebuildBlur(entries: seq<CategoryAlbum>): (r: map<string, string>)
    ensures r.Keys == AllChosen(entries)
    decreases |entries|
  {
    if entries == [] then map[]
    else
      var last := entries[|entries| - 1];
      var chosen := ChosenImages(last.photos);
      var prev := RebuildBlur(entries[..|entries| - 1]);
      SetBlurEntriesSpec(prev, chosen, last.photos);
      ChosenAllFound(last.photos);
      SetBlurEntries(prev, chosen, last.photos)
  }

  /** Every name picked from an album has a photo in it. */
  lemma ChosenAllFound(photos: seq<Photo>)
    ensures (set n | n in ChosenImages(photos) && FindPhoto(photos, n).Some?) == set n | n in ChosenImages(photos)
  {
    forall n | n in ChosenImages(photos) ensures FindPhoto(photos, n).Some? {
      FindChosen(photos, n);
    }
  }

  /** Every file name some entry picked. */
  function AllChosen(entries: seq<CategoryAlbum>): set<string>
    decreases |entries|
  {
    if entries == [] then {}
    else
      var chosen := ChosenImages(entries[|entries| - 1].photos);
      AllChosen(entries[..|entries| - 1]) + set n | n in chosen
  }

  /** The index of the last entry whose lower-cased name is `key`, if any. */
  function LastNamed(entries: seq<CategoryAlbum>, key: string): (r: Option<nat>)
    ensures r.Some? ==> r.value < |entries| && Lower(entries[r.value].categoryName) == key
                        && forall j :: r.value < j < |entries| ==> Lower(entries[j].categoryName) != key
    ensures r.None? ==> forall j :: 0 <= j < |entries| ==> Lower(entries[j].categoryName) != key
    decreases |entries|
  {
    if entries == [] then None
    else if Lower(entries[|entries| - 1].categoryName) == key then Some(|entries| - 1)
    else
      var init := entries[..|entries| - 1];
      assert forall j :: 0 <= j < |init| ==> init[j] == entries[j];
      LastNamed(init, key)
  }

  /** The new image map holds the three categories and every name in the
      response; a name's list is what its last entry picked, and a category
      no entry names ends with an empty list. Nothing of the old map is kept. */
  lemma {:induction false} RebuildImagesSpec(entries: seq<CategoryAlbum>, key: string)
    ensures key in RebuildImages(entries) <==> key in EmptyImages || LastNamed(entries, key).Some?
    ensures key in RebuildImages(entries) ==>
              RebuildImages(entries)[key] == match LastNamed(entries, key)
                                             case None => []
                                             case Some(i) => ChosenImages(entries[i].photos)
    decreases |entries|
  {
    if entries != [] {
      var init := entries[..|entries| - 1];
      var last := entries[|entries| - 1];
      RebuildImagesSpec(init, key);
      assert RebuildImages(entries) == RebuildImages(init)[Lower(last.categoryName) := ChosenImages(last.photos)];
      if Lower(last.categoryName) != key {
        assert LastNamed(entries, key) == LastNamed(init, key);
        if LastNamed(init, key).Some? {
          assert entries[LastNamed(init, key).value] == init[LastNamed(init, key).value];
        }
      }
    }
  }

  /** After a refresh each list has at most four names, all from the album of
      the entry that wrote it. */
  lemma RebuildImagesDrawn(entries: seq<CategoryAlbum>, key: string)
    requires key in RebuildImages(entries)
    ensures |RebuildImages(entries)[key]| <= 4
    ensures LastNamed(entries, key).Some? ==>
              multiset(RebuildImages(entries)[key]) <= multiset(ImageNames(entries[LastNamed(entries, key).value].photos))
  {
    RebuildImagesSpec(entries, key);
  }

  /** `n` is a name entry `e` picked, and `v` the blur placeholder of the
      photo of that name in `e`'s album. */
  ghost predicate PickedWith(e: CategoryAlbum, n: string, v: string)
  {
    n in ChosenImages(e.photos) && FindPhoto(e.photos, n).Some? && v == FindPhoto(e.photos, n).value.blurDataUrl
  }

  /** Each key of the new blur map is mapped to the placeholder of a photo of
      that name in an album that picked it. */
  lemma {:induction false} RebuildBlurSpec(entries: seq<CategoryAlbum>)
    ensures forall n :: n in RebuildBlur(entries) ==>
              exists i :: 0 <= i < |entries| && PickedWith(entries[i], n, RebuildBlur(entries)[n])
    decreases |entries|
  {
    if entries != [] {
      var init := entries[..|entries| - 1];
      var last := entries[|entries| - 1];
      var chosen := ChosenImages(last.photos);
      var prev := RebuildBlur(init);
      var r := RebuildBlur(entries);
      assert r == SetBlurEntries(prev, chosen, last.photos);
      RebuildBlurSpec(init);
      SetBlurEntriesSpec(prev, chosen, last.photos);
      forall n | n in r ensures exists i :: 0 <= i < |entries| && PickedWith(entries[i], n, r[n]) {
        if n in chosen {
          FindChosen(last.photos, n);
          assert PickedWith(entries[|entries| - 1], n, r[n]);
        } else {
          assert n in prev && r[n] == prev[n];
          var i :| 0 <= i < |init| && PickedWith(init[i], n, prev[n]);
          assert entries[i] == init[i];
          assert PickedWith(entries[i], n, r[n]);
        }
      }
    }
  }

  // ----- what is shown -----

  /** The `src` of a category's slot: the current file name, or the
      placeholder when there is none (missing index or empty name). */
  function DisplaySrc(images: map<string, seq<string>>, c: PricingCategory, index: int): (src: string)
    ensures Name(c) in images && 0 <= index < |images[Name(c)]| && images[Name(c)][index] != [] ==>
              src == images[Name(c)][index]
    ensures !(Name(c) in images && 0 <= index < |images[Name(c)]| && images[Name(c)][index] != []) ==>
              src == Placeholder
  {
    if Name(c) in images && 0 <= index < |images[Name(c)]| && images[Name(c)][index] != [] then
      images[Name(c)][index]
    else Placeholder
  }

  /** A category no entry of the response names shows the placeholder. */
  lemma AbsentCategoryShowsPlaceholder(entries: seq<CategoryAlbum>, c: PricingCategory, index: int)
    requires forall j :: 0 <= j < |entries| ==> Lower(entries[j].categoryName) != Name(c)
    ensures DisplaySrc(RebuildImages(entries), c, index) == Placeholder
  {
    RebuildImagesSpec(entries, Name(c));
  }

  /** The section heading: the category name with its first letter upper-cased. */
  function Heading(c: PricingCategory): (r: string)
    ensures |r| == |Name(c)| && r[0] == ToUpper(Name(c)[0]) && r[1..] == Name(c)[1..]
  {
    CapitalizeFirst(Name(c))
  }

  lemma Headings()
    ensures Heading(Portraits) == "Portraits" && Heading(Events) == "Events" && Heading(Cars) == "Cars"
  {
  }

  const ContactPath: string := "/lets-talk"
  const CategoryKey: string := "category"
  const PackageKey: string := "package"

  /** `/lets-talk?category=${category}&package=${pkg.title}`, the `Book Now`
      link of a package, built by plain interpolation; neither part is
      URL-encoded. */
  function BookingHref(category: string, title: string): string
  {
    ContactPath + "?" + CategoryKey + "=" + category + "&" + PackageKey + "=" + title
  }

  /** The separators do not occur in the path or the parameter names. */
  lemma LinkConstants()
    ensures '?' !in ContactPath
    ensures CategoryKey != [] && '&' !in CategoryKey && '=' !in CategoryKey
    ensures PackageKey != [] && '&' !in PackageKey && '=' !in PackageKey
    ensures CategoryKey != PackageKey
  {
    assert CategoryKey[0] != PackageKey[0];
  }

  // ----- reading a link's query back -----

  /** The text of `s` before its first `ch`. */
  function UpTo(s: string, ch: char): (r: string)
    ensures r <= s && ch !in r
    ensures |r| < |s| ==> s[|r|] == ch
    decreases |s|
  {
    if s == [] || s[0] == ch then [] else [s[0]] + UpTo(s[1..], ch)
  }

  /** Cutting at the first `ch` of `a + [ch] + b` gives `a` when `a` has no `ch`. */
  lemma UpToPrefix(a: string, ch: char, b: string)
    requires ch !in a
    ensures UpTo(a + [ch] + b, ch) == a
  {
    var s := a + [ch] + b;
    var r := UpTo(s, ch);
    assert s[|a|] == ch;
    assert forall i :: 0 <= i < |a| ==> s[i] == a[i];
    assert |r| == |a|;
    assert r == s[..|r|] && a == s[..|a|];
  }

  /** A string without `ch` is not cut at all. */
  lemma UpToAll(s: string, ch: char)
    requires ch !in s
    ensures UpTo(s, ch) == s
  {
    var r := UpTo(s, ch);
    assert forall i :: 0 <= i < |s| ==> s[i] != ch;
  }

  /** The query of a URL: the text after its first `?`, or nothing. */
  function QueryOf(href: string): string
  {
    var path := UpTo(href, '?');
    if |path| < |href| then href[|path| + 1..] else []
  }

  /** The parameters of a query as `URLSearchParams` splits them: the query is
      cut at every `&`, empty fields are skipped, and each field is cut at its
      first `=` into a name and a value. Percent and `+` decoding are not
      modelled. */
  function QueryParams(q: string): seq<(string, string)>
    decreases |q|
  {
    if q == [] then []
    else
      var field := UpTo(q, '&');
      var rest := if |field| < |q| then QueryParams(q[|field| + 1..]) else [];
      if field == [] then rest
      else
        var name := UpTo(field, '=');
        var value := if |name| < |field| then field[|name| + 1..] else [];
        [(name, value)] + rest
  }

  /** `new URL(href).searchParams.get(key)` */
  function BookingParam(href: string, key: string): Option<string>
  {
    Param(QueryParams(QueryOf(href)), key)
  }

  /** `name=value` holds no `&` when neither part does. */
  lemma FieldHasNoAmpersand(name: string, value: string)
    requires '&' !in name && '&' !in value
    ensures '&' !in name + "=" + value
  {
    var f := name + "=" + value;
    forall i | 0 <= i < |f| ensures f[i] != '&' {
      if i < |name| { assert f[i] == name[i]; }
      else if i > |name| { assert f[i] == value[i - |name| - 1]; }
    }
  }

  /** The first field of a query is read as its name and value. */
  lemma FieldThen(name: string, value: string, rest: string)
    requires name != [] && '&' !in name && '=' !in name && '&' !in value
    ensures QueryParams(name + "=" + value + "&" + rest) == [(name, value)] + QueryParams(rest)
  {
    var f := name + "=" + value;
    FieldHasNoAmpersand(name, value);
    UpToPrefix(f, '&', rest);
    assert (f + "&" + rest)[|f| + 1..] == rest;
    UpToPrefix(name, '=', value);
    assert f[|name| + 1..] == value;
  }

  /** A last field without `&` is read as a single parameter. */
  lemma LastField(name: string, value: string)
    requires name != [] && '&' !in name && '=' !in name && '&' !in value
    ensures QueryParams(name + "=" + value) == [(name, value)]
  {
    var f := name + "=" + value;
    FieldHasNoAmpersand(name, value);
    UpToAll(f, '&');
    UpToPrefix(name, '=', value);
    assert f[|name| + 1..] == value;
  }

  /** The link is the contact page's path, `?`, and a query of two fields. */
  lemma BookingHrefQuery(category: string, title: string)
    ensures QueryOf(BookingHref(category, title))
         == CategoryKey + "=" + category + "&" + (PackageKey + "=" + title)
  {
    var q := CategoryKey + "=" + category + "&" + (PackageKey + "=" + title);
    LinkConstants();
    assert BookingHref(category, title) == ContactPath + ['?'] + q;
    UpToPrefix(ContactPath, '?', q);
  }

  /** Reading the booking link back gives the category and the package title
      it was built from, as long as neither contains `&`; the contact page can
      recover both. */
  lemma BookingHrefRoundTrip(category: string, title: string)
    requires '&' !in category && '&' !in title
    ensures BookingParam(BookingHref(category, title), CategoryKey) == Some(category)
    ensures BookingParam(BookingHref(category, title), PackageKey) == Some(title)
  {
    LinkConstants();
    BookingHrefQuery(category, title);
    FieldThen(CategoryKey, category, PackageKey + "=" + title);
    LastField(PackageKey, title);
    var ps := QueryParams(QueryOf(BookingHref(category, title)));
    assert ps == [(CategoryKey, category), (PackageKey, title)];
    assert ps[1..] == [(PackageKey, title)];
    assert Param(ps, PackageKey) == Param(ps[1..], PackageKey);
  }

  /** A title holding `&` is cut there: the contact page reads back only the
      text before it (the Cars package `Photo & Video`). */
  lemma AmpersandCutsTitle(category: string, before: string, after: string)
    requires '&' !in category && '&' !in before
    requires after != [] && '&' !in after && '=' !in after
    ensures BookingParam(BookingHref(category, before + "&" + after), PackageKey) == Some(before)
  {
    var title := before + "&" + after;
    LinkConstants();
    BookingHrefQuery(category, title);
    assert PackageKey + "=" + title == PackageKey + "=" + before + "&" + after;
    FieldThen(CategoryKey, category, PackageKey + "=" + title);
    FieldThen(PackageKey, before, after);
    var ps := QueryParams(QueryOf(BookingHref(category, title)));
    var rest := QueryParams(after);
    assert ps == [(CategoryKey, category)] + ([(PackageKey, before)] + rest);
    assert ps[1..] == [(PackageKey, before)] + rest;
    assert Param(ps, PackageKey) == Param(ps[1..], PackageKey);
  }

  /** The `data.forEach(...)` loop of `getPhotos`, which fills `newImages`
      and `newBlurData` from scratch. */
  method Rebuild(data: seq<CategoryAlbum>) returns (newImages: map<string, seq<string>>, newBlurData: map<string, string>)
    ensures newImages == RebuildImages(data)
    ensures newBlurData == RebuildBlur(data)
  {
    newImages := EmptyImages;
    newBlurData := map[];
    var i := 0;
    while i < |data|
      invariant 0 <= i <= |data|
      invariant newImages == RebuildImages(data[..i])
      invariant newBlurData == RebuildBlur(data[..i])
    {
      assert data[..i + 1][..i] == data[..i];
      assert data[..i + 1][i] == data[i];
      assert RebuildImages(data[..i + 1])
          == RebuildImages(data[..i])[Lower(data[i].categoryName) := ChosenImages(data[i].photos)];
      assert RebuildBlur(data[..i + 1])
          == SetBlurEntries(RebuildBlur(data[..i]), ChosenImages(data[i].photos), data[i].photos);
      var dataImages := data[i].photos;
      var randomImages := ChosenImages(dataImages);
      var categoryName := Lower(data[i].categoryName);
      newImages := newImages[categoryName := randomImages];
      newBlurData := AddBlurEntries(newBlurData, randomImages, dataImages);
      i := i + 1;
    }
    assert data[..i] == data;
  }

  // ----- the component's state -----

  /** The state of the `Pricing` component. */
  class PricingView {
    var images: map<string, seq<string>>
    var blurData: map<string, string>
    var loaded: bool
    var currentImageIndex: map<PricingCategory, int>

    /** The three categories always have a list; their indices lie in [0, 4)
        and move in lock step. */
    ghost predicate Valid()
      reads this
    {
      (forall c: PricingCategory :: Name(c) in images) &&
      (forall c: PricingCategory :: c in currentImageIndex && 0 <= currentImageIndex[c] < 4) &&
      (forall c: PricingCategory :: currentImageIndex[c] == currentImageIndex[Portraits])
    }

    constructor ()
      ensures Valid()
      ensures images == EmptyImages && blurData == map[] && !loaded
      ensures forall c: PricingCategory :: currentImageIndex[c] == 0
    {
      images := EmptyImages;
      blurData := map[];
      loaded := false;
      currentImageIndex := map[Portraits := 0, Events := 0, Cars := 0];
      new;
      forall c: PricingCategory ensures Name(c) in images && c in currentImageIndex {
        match c
        case Portraits =>
        case Events =>
        case Cars =>
      }
    }

    /** One firing of the five-second interval: every index advances. */
    method Tick()
      requires Valid()
      modifies this`currentImageIndex
      ensures Valid()
      ensures forall c: PricingCategory :: currentImageIndex[c] == Advance(old(currentImageIndex[c]))
    {
      var prev := currentImageIndex;
      currentImageIndex := map c | c in AllCategories :: Advance(prev[c]);
      forall c: PricingCategory ensures c in currentImageIndex {
        AllCategoriesListed(c);
      }
    }

    /** `getPhotos`, with the response as input: `None` when the fetch or its
        decoding throws, which the `catch` only logs. */
    method GetPhotos(response: Option<seq<CategoryAlbum>>)
      requires Valid()
      modifies this`images, this`blurData, this`loaded
      ensures Valid()
      ensures response.None? ==> images == old(images) && blurData == old(blurData) && loaded == old(loaded)
      ensures response.Some? ==> images == RebuildImages(response.value) && blurData == RebuildBlur(response.value)
      ensures response.Some? ==> loaded
    {
      if response.None? {
        return;
      }
      var newImages, newBlurData := Rebuild(response.value);
      forall c: PricingCategory ensures Name(c) in newImages {
        match c
        case Portraits =>
        case Events =>
        case Cars =>
      }
      images := newImages;
      blurData := newBlurData;
      loaded := true;
    }
  }
}
