/** The category carousel of the home page (src/components/Types.tsx): the
    `Category` enumeration, the order the tabs are shown in, the corner
    classes of each tile and the state the component keeps. */
module Types {
  import opened Common
  import opened Ascii

  datatype Category = Events | Portraits | Cars | RealEstate

  /** The enumeration's string values. */
  function Value(c: Category): string
  {
    match c
    case Events => "events"
    case Portraits => "portraits"
    case Cars => "cars"
    case RealEstate => "real estate"
  }

  const CategoryOrder: seq<Category> := [Events, Portraits, Cars, RealEstate]

  /** Every category appears in `categoryOrder`, exactly once. */
  lemma CategoryOrderIsPermutation()
    ensures |CategoryOrder| == 4
    ensures forall c: Category :: multiset(CategoryOrder)[c] == 1
  {
    forall c: Category ensures multiset(CategoryOrder)[c] == 1 {
      match c
      case Events =>
      case Portraits =>
      case Cars =>
      case RealEstate =>
    }
  }

  /** No category is listed twice. */
  lemma CategoryOrderDistinct(j: int, k: int)
    requires 0 <= j < k < |CategoryOrder|
    ensures CategoryOrder[j] != CategoryOrder[k]
  {
  }

  /** `categoryOrder.indexOf(c)` */
  function IndexOf(c: Category): (i: nat)
    ensures i < |CategoryOrder| && CategoryOrder[i] == c
    ensures forall j :: 0 <= j < i ==> CategoryOrder[j] != c
  {
    match c
    case Events => 0
    case Portraits => 1
    case Cars => 2
    case RealEstate => 3
  }

  /** The `switch (category.category_name.toLowerCase())` of `getPhotos`: the
      category a response entry is filed under, if any. */
  function Recognise(name: string): (r: Option<Category>)
    ensures r.Some? ==> Lower(name) == Value(r.value)
  {
    var n := Lower(name);
    if n == "events" then Some(Events)
    else if n == "portraits" then Some(Portraits)
    else if n == "cars" then Some(Cars)
    else if n == "real estate" then Some(RealEstate)
    else None
  }

  /** An entry is filed under the category whose value is its lower-cased
      name, and under none when no value matches. */
  lemma RecogniseSpec(name: string)
    ensures Recognise(name).Some? ==> Lower(name) == Value(Recognise(name).value)
    ensures Recognise(name).None? ==> forall c: Category :: Lower(name) != Value(c)
  {
  }

  /** An entry named by the enumeration's own value, in any letter case, is
      filed under that category. */
  lemma RecogniseValue(c: Category, name: string)
    requires Lower(name) == Value(c)
    ensures Recognise(name) == Some(c)
  {
  }

  // ----- getDynamicClassNames -----

  /** The indentation of the second line of each template string. */
  const Indent: string := "              "

  function When(b: bool, s: string): string { if b then s else "" }

  /** The shape shared by every arm of the `switch`: two classes, a line
      break with indentation, two more classes. */
  function Template(a: string, b: string, c: string, d: string): string
  {
    a + " " + b + "\n" + Indent + c + " " + d
  }

  const PortraitFirst: string := "rounded-tl-lg lg:rounded-l-lg"
  const PortraitLast: string := "rounded-br-lg lg:rounded-r-lg"

  predicate IsBlank(s: string) { forall i :: 0 <= i < |s| ==> IsSpace(s[i]) }

  /** The corner-rounding classes of tile `index` out of `length` tiles. */
  function GetDynamicClassNames(active: Category, index: int, length: int): string
  {
    match active
    case Portraits =>
      Template(When(index == 0, PortraitFirst), When(index == length - 1, PortraitLast),
               When(index == 1, "rounded-tr-lg lg:rounded-none"), When(index == 2, "rounded-bl-lg lg:rounded-none"))
    case Events | Cars =>
      Template(When(index == 0, "rounded-t-lg lg:rounded-t-none lg:rounded-tl-lg"),
               When(index == 1, "rounded-tr-none lg:rounded-tr-lg"),
               When(index == 2, "rounded-bl-none lg:rounded-bl-lg"),
               When(index == 3, "rounded-b-lg lg:rounded-b-none lg:rounded-br-lg"))
    case RealEstate =>
      Template(When(index == 0, "rounded-t-lg lg:rounded-t-none lg:rounded-tl-lg"),
               When(index == 1, "rounded-tr-none lg:rounded-tr-lg"),
               When(index == 2, "rounded-bl-none lg:rounded-bl-lg"),
               When(index == 3, "rounded-b-lg lg:rounded-b-none lg:rounded-br-lg"))
  }

  /** Where the first two classes of a template sit. */
  lemma TemplateParts(a: string, b: string, c: string, d: string)
    ensures a <= Template(a, b, c, d)
    ensures b <= Template(a, b, c, d)[|a| + 1..]
  {
    var rest := "\n" + Indent + c + " " + d;
    assert Template(a, b, c, d) == a + (" " + (b + rest));
  }

  /** The first portrait tile is rounded on its top-left (on large screens:
      left) corner, the last one on its bottom-right (right) corner. */
  lemma PortraitCorners(index: int, length: int)
    ensures index == 0 ==> PortraitFirst <= GetDynamicClassNames(Portraits, index, length)
    ensures index == length - 1 ==>
              var at := if index == 0 then |PortraitFirst| + 1 else 1;
              PortraitLast <= GetDynamicClassNames(Portraits, index, length)[at..]
  {
    TemplateParts(When(index == 0, PortraitFirst), When(index == length - 1, PortraitLast),
                  When(index == 1, "rounded-tr-lg lg:rounded-none"), When(index == 2, "rounded-bl-lg lg:rounded-none"));
  }

  /** Events, Cars and Real Estate tiles are rounded the same way. */
  lemma GridCategoriesAgree(index: int, length: int)
    ensures GetDynamicClassNames(Cars, index, length) == GetDynamicClassNames(Events, index, length)
    ensures GetDynamicClassNames(RealEstate, index, length) == GetDynamicClassNames(Events, index, length)
  {
  }

  lemma TemplateBlank(a: string, b: string, c: string, d: string)
    requires a == "" && b == "" && c == "" && d == ""
    ensures IsBlank(Template(a, b, c, d))
  {
    var t := Template(a, b, c, d);
    assert t == " \n" + Indent + " ";
    forall i | 0 <= i < |t| ensures IsSpace(t[i]) {
      if 2 <= i < |t| - 1 { assert t[i] == Indent[i - 2]; }
    }
  }

  /** Only corner tiles get classes: any other tile gets whitespace alone. */
  lemma OnlyCornersRounded(active: Category, index: int, length: int)
    requires active == Portraits ==> index != 0 && index != 1 && index != 2 && index != length - 1
    requires active != Portraits ==> index < 0 || index > 3
    ensures IsBlank(GetDynamicClassNames(active, index, length))
  {
    assert GetDynamicClassNames(active, index, length) == Template("", "", "", "");
    TemplateBlank("", "", "", "");
  }

  // ----- the component's state -----

  /** The part of the state that `getPhotos` rewrites. */
  datatype Snapshot = Snapshot(images: map<Category, seq<string>>, blurData: map<string, string>)

  /** One response entry, as the `switch` arm for its category handles it:
      the category's list becomes the first four (shuffled) names and the blur
      map is copied and extended; an unrecognised name changes nothing. */
  function ApplyEntry(s: Snapshot, e: CategoryAlbum): (r: Snapshot)
    ensures s.images.Keys <= r.images.Keys && s.blurData.Keys <= r.blurData.Keys
  {
    match Recognise(e.categoryName)
    case None => s
    case Some(c) =>
      var chosen := ChosenImages(e.photos);
      Snapshot(s.images[c := chosen], SetBlurEntries(s.blurData, chosen, e.photos))
  }

  /** `data.forEach(...)`: the entries applied in response order. A refresh
      never drops a category or a blur entry. */
  function ApplyAll(s: Snapshot, entries: seq<CategoryAlbum>): (r: Snapshot)
    ensures s.images.Keys <= r.images.Keys
    ensures s.blurData.Keys <= r.blurData.Keys
    decreases |entries|
  {
    if entries == [] then s
    else ApplyEntry(ApplyAll(s, entries[..|entries| - 1]), entries[|entries| - 1])
  }

  /** A recognised entry replaces its own category's list with at most four
      names from its album and leaves the other categories alone. */
  lemma ApplyEntryImages(s: Snapshot, e: CategoryAlbum, c: Category)
    requires Recognise(e.categoryName) == Some(c)
    ensures c in ApplyEntry(s, e).images
    ensures ApplyEntry(s, e).images[c] == ChosenImages(e.photos)
    ensures |ApplyEntry(s, e).images[c]| <= 4
    ensures multiset(ApplyEntry(s, e).images[c]) <= multiset(ImageNames(e.photos))
    ensures forall d :: d in s.images && d != c ==>
              d in ApplyEntry(s, e).images && ApplyEntry(s, e).images[d] == s.images[d]
  {
  }

  /** A recognised entry keeps all previous blur entries it does not
      overwrite and maps each chosen name to the blur placeholder of its
      photo. */
  lemma ApplyEntryBlur(s: Snapshot, e: CategoryAlbum, c: Category)
    requires Recognise(e.categoryName) == Some(c)
    ensures ApplyEntry(s, e).blurData.Keys == s.blurData.Keys + set n | n in ChosenImages(e.photos)
    ensures forall n :: n in ChosenImages(e.photos) ==>
              FindPhoto(e.photos, n).Some? && n in ApplyEntry(s, e).blurData &&
              ApplyEntry(s, e).blurData[n] == FindPhoto(e.photos, n).value.blurDataUrl
    ensures forall k :: k in s.blurData && k !in ChosenImages(e.photos) ==>
              k in ApplyEntry(s, e).blurData && ApplyEntry(s, e).blurData[k] == s.blurData[k]
  {
    var chosen := ChosenImages(e.photos);
    SetBlurEntriesSpec(s.blurData, chosen, e.photos);
    forall n | n in chosen ensures FindPhoto(e.photos, n).Some? {
      FindChosen(e.photos, n);
    }
    assert (set n | n in chosen && FindPhoto(e.photos, n).Some?) == set n | n in chosen;
  }

  /** An entry whose name is none of the four categories changes nothing. */
  lemma ApplyEntryUnrecognised(s: Snapshot, e: CategoryAlbum)
    requires forall c: Category :: Lower(e.categoryName) != Value(c)
    ensures ApplyEntry(s, e) == s
  {
    RecogniseSpec(e.categoryName);
  }

  /** The index of the last entry filed under `c`, if any. */
  function LastFor(entries: seq<CategoryAlbum>, c: Category): (r: Option<nat>)
    ensures r.Some? ==> r.value < |entries| && Recognise(entries[r.value].categoryName) == Some(c)
                        && forall j :: r.value < j < |entries| ==> Recognise(entries[j].categoryName) != Some(c)
    ensures r.None? ==> forall j :: 0 <= j < |entries| ==> Recognise(entries[j].categoryName) != Some(c)
    decreases |entries|
  {
    if entries == [] then None
    else if Recognise(entries[|entries| - 1].categoryName) == Some(c) then Some(|entries| - 1)
    else
      var init := entries[..|entries| - 1];
      assert forall j :: 0 <= j < |init| ==> init[j] == entries[j];
      LastFor(init, c)
  }

  /** An entry filed elsewhere leaves a category's list alone. */
  lemma ApplyEntryOther(s: Snapshot, e: CategoryAlbum, c: Category)
    requires c in s.images && Recognise(e.categoryName) != Some(c)
    ensures c in ApplyEntry(s, e).images && ApplyEntry(s, e).images[c] == s.images[c]
  {
  }

  /** Skipping an entry filed elsewhere does not move the last match. */
  lemma LastForStep(entries: seq<CategoryAlbum>, c: Category)
    requires entries != []
    requires Recognise(entries[|entries| - 1].categoryName) != Some(c)
    ensures LastFor(entries, c) == LastFor(entries[..|entries| - 1], c)
    ensures LastFor(entries, c).Some? ==>
              entries[LastFor(entries, c).value] == entries[..|entries| - 1][LastFor(entries, c).value]
  {
  }

  /** After a whole response, each category holds the choice of the last entry
      filed under it, or its previous list when no entry was. */
  lemma {:induction false} ApplyAllLastWins(s: Snapshot, entries: seq<CategoryAlbum>, c: Category)
    requires c in s.images
    ensures c in ApplyAll(s, entries).images
    ensures LastFor(entries, c).None? ==> ApplyAll(s, entries).images[c] == s.images[c]
    ensures LastFor(entries, c).Some? ==>
              ApplyAll(s, entries).images[c] == ChosenImages(entries[LastFor(entries, c).value].photos)
    decreases |entries|
  {
    if entries != [] {
      var init := entries[..|entries| - 1];
      var e := entries[|entries| - 1];
      var prev := ApplyAll(s, init);
      assert ApplyAll(s, entries) == ApplyEntry(prev, e);
      ApplyAllLastWins(s, init, c);
      if Recognise(e.categoryName) == Some(c) {
        ApplyEntryImages(prev, e, c);
      } else {
        ApplyEntryOther(prev, e, c);
        LastForStep(entries, c);
      }
    }
  }

  /** Every category always has a list of at most four names. */
  ghost predicate WellFormed(s: Snapshot)
  {
    forall c: Category :: c in s.images && |s.images[c]| <= 4
  }

  lemma {:induction false} ApplyAllWellFormed(s: Snapshot, entries: seq<CategoryAlbum>)
    requires WellFormed(s)
    ensures WellFormed(ApplyAll(s, entries))
    decreases |entries|
  {
    if entries != [] {
      ApplyAllWellFormed(s, entries[..|entries| - 1]);
    }
  }

  const InitialImages: map<Category, seq<string>> := map[
    Events := ["Aish-Grad-Party-022.jpg", "Shema-010.jpg", "Emani 001 (4).jpg", "Shema-044.jpg"],
    Portraits := ["Prom23-TAMS-001.jpg", "Hima-40.jpg", "Prom23-22.jpg", "JT-Edited-217.jpg"],
    Cars := ["Jaideep 075.jpg", "Smaran 139.jpg", "Jaideep-088.jpg", "Smaran-158.jpg"],
    RealEstate := ["Shema-044.jpg", "Shema-010.jpg", "Emani 001 (4).jpg", "Aish-Grad-Party-022.jpg"]
  ]

  /** The state of the `Types` component. */
  class CategoryCarousel {
    var activeCategory: Category
    var direction: int
    var isPaused: bool
    var loaded: bool
    var refreshCounter: nat
    var images: map<Category, seq<string>>
    var blurData: map<string, string>

    ghost predicate Valid()
      reads this
    {
      WellFormed(Snapshot(images, blurData)) && -1 <= direction <= 1
    }

    constructor ()
      ensures Valid()
      ensures activeCategory == Portraits && direction == 0
      ensures !isPaused && !loaded && refreshCounter == 0
      ensures images == InitialImages && blurData == map[]
    {
      activeCategory := Portraits;
      direction := 0;
      isPaused := false;
      loaded := false;
      refreshCounter := 0;
      images := InitialImages;
      blurData := map[];
      forall c: Category ensures c in InitialImages && |InitialImages[c]| <= 4 {
        match c
        case Events =>
        case Portraits =>
        case Cars =>
        case RealEstate =>
      }
    }

    /** A click on a category tab. */
    method HandleClick(newCategory: Category)
      requires Valid()
      modifies this
      ensures Valid()
      ensures activeCategory == newCategory
      ensures newCategory == old(activeCategory) ==> direction == old(direction)
      ensures newCategory != old(activeCategory) ==>
                (direction == 1 <==> IndexOf(newCategory) > IndexOf(old(activeCategory))) &&
                (direction == -1 <==> IndexOf(newCategory) < IndexOf(old(activeCategory)))
      ensures images == old(images) && blurData == old(blurData)
      ensures loaded == old(loaded) && isPaused == old(isPaused) && refreshCounter == old(refreshCounter)
    {
      if newCategory != activeCategory {
        var currentIndex := IndexOf(activeCategory);
        var newIndex := IndexOf(newCategory);
        var newDirection := if newIndex > currentIndex then 1 else -1;
        direction := newDirection;
        activeCategory := newCategory;
      }
    }

    /** `getPhotos`, with the response of the fetch as input (`None` when the
        fetch or its decoding fails: the function then throws before changing
        anything). */
    method GetPhotos(response: Option<seq<CategoryAlbum>>)
      requires Valid()
      modifies this
      ensures Valid()
      ensures response.None? ==> images == old(images) && blurData == old(blurData) && loaded == old(loaded)
      ensures response.Some? ==> Snapshot(images, blurData) == ApplyAll(Snapshot(old(images), old(blurData)), response.value)
      ensures response.Some? ==> loaded
      ensures activeCategory == old(activeCategory) && direction == old(direction)
      ensures isPaused == old(isPaused) && refreshCounter == old(refreshCounter)
    {
      if response.None? {
        return;
      }
      var data := response.value;
      ghost var start := Snapshot(images, blurData);
      var i := 0;
      while i < |data|
        invariant 0 <= i <= |data|
        invariant Snapshot(images, blurData) == ApplyAll(start, data[..i])
        invariant activeCategory == old(activeCategory) && direction == old(direction)
        invariant isPaused == old(isPaused) && refreshCounter == old(refreshCounter) && loaded == old(loaded)
      {
        ghost var prev := Snapshot(images, blurData);
        assert data[..i + 1][..i] == data[..i];
        assert ApplyAll(start, data[..i + 1]) == ApplyEntry(prev, data[i]);
        var dataImages := data[i].photos;
        var randomImages := ChosenImages(dataImages);
        match Recognise(data[i].categoryName) {
          case None =>
          case Some(c) =>
            images := images[c := randomImages];
            blurData := AddBlurEntries(blurData, randomImages, dataImages);
        }
        assert Snapshot(images, blurData) == ApplyEntry(prev, data[i]);
        i := i + 1;
      }
      assert data[..i] == data;
      ApplyAllWellFormed(start, data);
      loaded := true;
    }

    /** One firing of the five-second interval, which exists only while the
        carousel is not paused. */
    method Tick(response: Option<seq<CategoryAlbum>>)
      requires Valid()
      modifies this
      ensures Valid()
      ensures old(isPaused) ==> images == old(images) && blurData == old(blurData) && refreshCounter == old(refreshCounter)
      ensures !old(isPaused) ==> refreshCounter == old(refreshCounter) + 1
      ensures !old(isPaused) && response.Some? ==>
                Snapshot(images, blurData) == ApplyAll(Snapshot(old(images), old(blurData)), response.value)
      ensures !old(isPaused) && response.None? ==> images == old(images) && blurData == old(blurData)
      ensures old(isPaused) || response.None? ==> loaded == old(loaded)
      ensures !old(isPaused) && response.Some? ==> loaded
      ensures activeCategory == old(activeCategory) && direction == old(direction) && isPaused == old(isPaused)
    {
      if !isPaused {
        GetPhotos(response);
        refreshCounter := refreshCounter + 1;
      }
    }

    /** The pause / play button. */
    method TogglePause()
      requires Valid()
      modifies this`isPaused
      ensures Valid()
      ensures isPaused == !old(isPaused)
    {
      isPaused := !isPaused;
    }
  }
}
