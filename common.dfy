/** Values shared by the gallery, the category carousel and the pricing
    page: the photo record of the content API, `slice(0, 4)`,
    `Array.prototype.find` over photos and the blur-map update. */
module Common {

  datatype Option<T> = None | Some(value: T) {
    /** `x ?? default` */
    function GetOr(default: T): T
    {
      if Some? then value else default
    }
  }

  /** One photo of an album (`Album` in the source): its file name, the
      compressed variant and the `file_metadata.blur_data_url`. */
  datatype Photo = Photo(image: string, compressedImage: string, blurDataUrl: string)

  /** One entry of the `category-albums` response: `category_name` and the
      album's photos. The photos are given in the order the random shuffle
      left them in; the shuffle is any permutation, so every property stated
      over this order holds for all of them. */
  datatype CategoryAlbum = CategoryAlbum(categoryName: string, photos: seq<Photo>)

  function Min(a: int, b: int): int { if a <= b then a else b }

  /** `xs.slice(0, 4)` */
  function TakeFour<T>(xs: seq<T>): (r: seq<T>)
    ensures |r| == Min(4, |xs|) && |r| <= 4
    ensures r <= xs
  {
    xs[..Min(4, |xs|)]
  }

  /** Whatever `slice(0, 4)` keeps is drawn from the input, with multiplicity. */
  lemma TakeFourDrawn<T>(xs: seq<T>)
    ensures multiset(TakeFour(xs)) <= multiset(xs)
  {
    var k := Min(4, |xs|);
    assert xs == xs[..k] + xs[k..];
    assert multiset(xs) == multiset(xs[..k]) + multiset(xs[k..]);
  }

  /** `photos.map((image) => image.image)` */
  function ImageNames(photos: seq<Photo>): (r: seq<string>)
    ensures |r| == |photos|
    ensures forall i :: 0 <= i < |photos| ==> r[i] == photos[i].image
  {
    seq(|photos|, i requires 0 <= i < |photos| => photos[i].image)
  }

  /** The file names of the photos a refresh picks from an album. */
  function ChosenImages(photos: seq<Photo>): (r: seq<string>)
    ensures |r| <= 4 && |r| == Min(4, |photos|)
    ensures multiset(r) <= multiset(ImageNames(photos))
  {
    TakeFourDrawn(ImageNames(photos));
    assert TakeFour(ImageNames(photos)) == ImageNames(TakeFour(photos));
    ImageNames(TakeFour(photos))
  }

  /** `photos.find((img) => img.image === name)`: the first photo with that
      file name. */
  function FindPhoto(photos: seq<Photo>, name: string): (r: Option<Photo>)
    ensures r.None? <==> forall i :: 0 <= i < |photos| ==> photos[i].image != name
    ensures r.Some? ==> exists i :: 0 <= i < |photos| && photos[i] == r.value && r.value.image == name
                                    && forall j :: 0 <= j < i ==> photos[j].image != name
  {
    if photos == [] then None
    else if photos[0].image == name then Some(photos[0])
    else
      var r := FindPhoto(photos[1..], name);
      if r.Some? then
        var i :| 0 <= i < |photos| - 1 && photos[1..][i] == r.value && r.value.image == name
                 && forall j :: 0 <= j < i ==> photos[1..][j].image != name;
        assert photos[i + 1] == r.value;
        r
      else r
  }

  /** A name taken from the album is always found in it. */
  lemma FindChosen(photos: seq<Photo>, name: string)
    requires name in ChosenImages(photos)
    ensures FindPhoto(photos, name).Some?
  {
    assert name in multiset(ChosenImages(photos));
    assert name in multiset(ImageNames(photos));
    var i :| 0 <= i < |photos| && ImageNames(photos)[i] == name;
    assert photos[i].image == name;
  }

  /** The blur-map update: for each name in turn, the name is mapped to the
      `blur_data_url` of the first photo carrying it, when there is one
      (`if (fullImageData) newMap.set(image, ...)`). */
  function SetBlurEntries(blur: map<string, string>, names: seq<string>, photos: seq<Photo>): (r: map<string, string>)
    ensures blur.Keys <= r.Keys
    ensures forall k :: k in r ==> k in blur || k in names
    decreases |names|
  {
    if names == [] then blur
    else
      var prev := SetBlurEntries(blur, names[..|names| - 1], photos);
      var name := names[|names| - 1];
      match FindPhoto(photos, name)
      case Some(p) => prev[name := p.blurDataUrl]
      case None => prev
  }

  /** The set-wise meaning of the blur-map update: the old entries survive
      unless overwritten, every listed name that has a photo is added with that
      photo's blur placeholder, and nothing else is added. */
  lemma {:induction false} SetBlurEntriesSpec(blur: map<string, string>, names: seq<string>, photos: seq<Photo>)
    ensures SetBlurEntries(blur, names, photos).Keys
         == blur.Keys + (set n | n in names && FindPhoto(photos, n).Some?)
    ensures forall n :: n in names && FindPhoto(photos, n).Some? ==>
              SetBlurEntries(blur, names, photos)[n] == FindPhoto(photos, n).value.blurDataUrl
    ensures forall k :: k in blur && (k !in names || FindPhoto(photos, k).None?) ==>
              SetBlurEntries(blur, names, photos)[k] == blur[k]
    decreases |names|
  {
    if names != [] {
      var init := names[..|names| - 1];
      SetBlurEntriesSpec(blur, init, photos);
      assert forall n :: n in names <==> n in init || n == names[|names| - 1];
    }
  }

  /** The `randomImages.forEach(...)` loop that performs the blur-map update. */
  method AddBlurEntries(blur: map<string, string>, names: seq<string>, photos: seq<Photo>)
    returns (r: map<string, string>)
    ensures r == SetBlurEntries(blur, names, photos)
  {
    r := blur;
    var i := 0;
    while i < |names|
      invariant 0 <= i <= |names|
      invariant r == SetBlurEntries(blur, names[..i], photos)
    {
      assert names[..i + 1][..i] == names[..i];
      var found := FindPhoto(photos, names[i]);
      if found.Some? {
        r := r[names[i] := found.value.blurDataUrl];
      }
      i := i + 1;
    }
    assert names[..i] == names;
  }

  /** `URLSearchParams.get(key)` on a parameter list: the value of the first
      parameter named `key`. */
  function Param(body: seq<(string, string)>, key: string): (r: Option<string>)
    ensures r.None? <==> forall i :: 0 <= i < |body| ==> body[i].0 != key
    ensures r.Some? ==> exists i :: 0 <= i < |body| && body[i] == (key, r.value) &&
                                   forall j :: 0 <= j < i ==> body[j].0 != key
    decreases |body|
  {
    if body == [] then None
    else if body[0].0 == key then Some(body[0].1)
    else Param(body[1..], key)
  }

  /** A parameter named `key` at the front is the one found. */
  lemma ParamHead(body: seq<(string, string)>, key: string)
    requires body != [] && body[0].0 == key
    ensures Param(body, key) == Some(body[0].1)
  {
  }

  /** A parameter with another name at the front is skipped. */
  lemma ParamSkip(body: seq<(string, string)>, key: string)
    requires body != [] && body[0].0 != key
    ensures Param(body, key) == Param(body[1..], key)
  {
  }
}
