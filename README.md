# Reactive Shots site: verified model of its client-side state

Reactive Shots is a photography business. Its website is a Next.js app. Most pages are static markup. The components modelled here are the ones whose logic can be stated and proved:

- **Gallery** (`src/components/Gallery.tsx`). The home-page gallery teaser has three string helpers. `formatBlurDataURL` makes sure a blur placeholder is a data URL. `formatCategoryName` title-cases a category name. `formatCategorySlug` turns it into a URL slug. Its refresh keeps at most four photos per category.
- **Navbar** (`src/components/Navbar.tsx`). The navigation bar picks one of four colour styles (`firstSection`, `secondSection`, `default`, `darkPage`). The choice depends on the page and, on the home page, on the scroll offset compared with thresholds taken from the section sizes. The bar also has a drop-down menu on small screens.
- **Types** (`src/components/Types.tsx`). The home page's category carousel. It defines the `Category` enumeration and the tab order. A tab click sets the slide direction. Each tile gets corner classes. A refresh merges each recognised category's photos and blur placeholders into the current state.
- **Pricing** (`src/components/Pricing.tsx`). Each package card on the pricing page shows its category's current photo. Every category's photo index advances every five seconds, modulo 4. The image and blur maps are rebuilt from scratch on every refresh. A card whose category has no photo falls back to a placeholder. The page also builds each section heading and each package's booking link.
- **LetsTalk** (`src/components/LetsTalk.tsx`). The contact form has four fields and a validation guard. It posts one request to the mailer, then clears itself.

Files: `ascii.dfy` (ASCII case mapping and the `\s` class), `common.dfy` (the content API's photo record, `slice(0, 4)`, `find`, the blur-map update, `URLSearchParams.get`), and one file per component: `gallery.dfy`, `navbar.dfy`, `types.dfy`, `pricing.dfy`, `letstalk.dfy`.

How the model is built:

- Component state is a class. The React state variables are its fields. Each event handler is a method whose `ensures` gives the whole new state. The one exception is the scroll thresholds captured when the bar mounts off the home page, which nothing reads.
- A network response is a method parameter. `None` means the fetch, or decoding its JSON, failed.
- The random shuffle before `slice(0, 4)` is not modelled as code. Instead, each album is passed in the order the shuffle left it. Every property is proved for all orders, so it holds for whatever the shuffle produces.
- Each timer firing is an explicit `Tick` method.
- A request sent to the mailer is appended to a ghost log, `sent`.

## Model

| member | source | states |
|---|---|---|
| `Ascii.IsSpace` | src/components/Gallery.tsx:61 | the `\s` class of the slug's regular expression, restricted to the six ASCII whitespace characters (a definition, no contract) |
| `Ascii.ToUpper` | src/components/Gallery.tsx:56 | `toUpperCase` on one character moves a lower-case ASCII letter to its upper-case partner and leaves every other character alone; whitespace stays whitespace |
| `Ascii.ToLower` | src/components/Gallery.tsx:61 | `toLowerCase` on one character moves an upper-case ASCII letter to its lower-case partner and leaves every other character alone; whitespace stays whitespace |
| `Ascii.Lower` | src/components/Gallery.tsx:61 | `toLowerCase` keeps the length, maps each character by ASCII lower-casing and leaves no upper-case letter |
| `Ascii.CapitalizeFirst` | src/components/Gallery.tsx:56 | `charAt(0).toUpperCase() + slice(1)` keeps the length, upper-cases the first character and keeps the rest |
| `Common.TakeFour` | src/components/Gallery.tsx:108 | `slice(0, 4)` is the prefix of length min(4, n) |
| `Common.TakeFourDrawn` | src/components/Gallery.tsx:107-108 | the four kept elements are a sub-multiset of the album |
| `Common.ImageNames` | src/components/Types.tsx:123 | `map((image) => image.image)` keeps the length and gives each photo's file name at its own position |
| `Common.ChosenImages` | src/components/Types.tsx:120-123 | the picked file names are at most four, min(4, n) of them, and a sub-multiset of the album's names |
| `Common.FindPhoto` | src/components/Types.tsx:131 | `find` returns nothing exactly when no photo has the name; otherwise it returns the first photo with that name |
| `Common.FindChosen` | src/components/Types.tsx:131-133 | a picked name always has a matching photo, so the `if (fullImageData)` guard always passes |
| `Common.SetBlurEntries` | src/components/Types.tsx:128-137 | the blur update never drops an old key and adds only listed names |
| `Common.SetBlurEntriesSpec` | src/components/Types.tsx:128-137 | the blur update keeps old entries unless they are overwritten, adds every listed name that has a photo with that photo's `blur_data_url`, and adds nothing else |
| `Common.AddBlurEntries` | src/components/Types.tsx:130-136 | the `forEach` loop computes that blur update |
| `Common.Param` | src/components/LetsTalk.tsx:79-84 | a parameter lookup is empty exactly when no parameter has the key, and otherwise returns the value of the first parameter with that key |
| `Gallery.FormatBlurDataURL` | src/components/Gallery.tsx:34-40 | `""` stays `""`; a string starting with `data:` is unchanged; any other string gets `data:image/jpeg;base64,` in front |
| `Gallery.FormatBlurDataURLIsDataUrl` | src/components/Gallery.tsx:34-40 | the result is empty exactly when the input is; every non-empty result starts with `data:` |
| `Gallery.FormatBlurDataURLIdempotent` | src/components/Gallery.tsx:34-40 | applying it twice equals applying it once |
| `Gallery.SplitOnSpace` | src/components/Gallery.tsx:55 | `split(' ')` yields pieces without spaces, and joining them with spaces gives the string back |
| `Gallery.SplitJoin` | src/components/Gallery.tsx:55-57 | `join(' ')` is undone by `split(' ')`: joining space-free words and splitting again gives the words back |
| `Gallery.JoinWithSpace` | src/components/Gallery.tsx:57 | `join(' ')`: the words with one space between each pair (a definition; `SplitOnSpace` and `SplitJoin` state that it and the split undo each other) |
| `Gallery.CapitalizeWords` | src/components/Gallery.tsx:56 | the `map` keeps the number of words and capitalises each one in place |
| `Gallery.FormatCategoryName` | src/components/Gallery.tsx:53-58 | split, capitalise each word, join: the result equals the independent character-wise title case of the name |
| `Gallery.SplitJoinIsTitleCase` | src/components/Gallery.tsx:53-58 | split on spaces, capitalise each word and join with spaces equals character-wise title case |
| `Gallery.FormatCategoryNameSpec` | src/components/Gallery.tsx:53-58 | the length is kept; a character is upper-cased exactly when it is first or follows a space; spaces stay where they were |
| `Gallery.FormatCategoryNameIdempotent` | src/components/Gallery.tsx:53-58 | formatting a formatted name changes nothing |
| `Gallery.FormatTwoWords` | src/components/Gallery.tsx:53-58 | two space-free words separated by one space come out as the two capitalised words separated by one space |
| `Gallery.FormatRealEstateName` | src/components/Gallery.tsx:53-58 | `real estate` is shown as `Real Estate` |
| `Gallery.ReplaceSpaceRuns` | src/components/Gallery.tsx:61 | `replace(/\s+/g, '-')` leaves no whitespace and never makes the string longer |
| `Gallery.ReplaceSpaceRunsNoUpper` | src/components/Gallery.tsx:61 | the replacement adds no upper-case letter |
| `Gallery.ReplaceSpaceRunsKeeps` | src/components/Gallery.tsx:61 | a string without whitespace is unchanged by the replacement |
| `Gallery.RunBecomesOneHyphen` | src/components/Gallery.tsx:61 | the `+` of `/\s+/`: a whole non-empty run of whitespace between two space-free words becomes a single hyphen |
| `Gallery.ReplaceSingleSpace` | src/components/Gallery.tsx:61 | one space between two space-free words becomes one hyphen |
| `Gallery.FormatCategorySlug` | src/components/Gallery.tsx:60-62 | a slug has no whitespace and no upper-case letter, and is no longer than the name |
| `Gallery.FormatCategorySlugIdempotent` | src/components/Gallery.tsx:60-62 | slugging a slug changes nothing |
| `Gallery.RealEstateSlug` | src/components/Gallery.tsx:60-62 | `real estate` becomes `real-estate` |
| `Gallery.CollectImages` | src/components/Gallery.tsx:96-114 | the `results.forEach` loop over a map that starts with four empty lists leaves each category with the first four photos of its own album, a sub-multiset of that album |
| `Gallery.GalleryView.constructor` | src/components/Gallery.tsx:43-51 | every category starts empty; not loaded, not paused, counter 0 |
| `Gallery.GalleryView.GetRandomImages` | src/components/Gallery.tsx:94-122 | on success each category holds the first four of its own shuffled album, a sub-multiset of that album; on failure the images are unchanged; `loaded` is true either way |
| `Gallery.GalleryView.Tick` | src/components/Gallery.tsx:128-137 | the interval refreshes and bumps the counter only when loaded and not paused; otherwise nothing changes; `loaded` stays as it was either way, so ticks can be chained |
| `Gallery.GalleryView.TogglePause` | src/components/Gallery.tsx:194 | the pause button flips `isPaused` |
| `Navbar.PageStyle` | src/components/Navbar.tsx:28 | the page style is `firstSection` exactly on `/` and `darkPage` exactly elsewhere |
| `Navbar.CalculateThresholds` | src/components/Navbar.tsx:41-49 | missing measurements count as 0; section one's window ends one bar height before the section does; section two's window starts one bar height early and is as tall as the section |
| `Navbar.ScrollStyle` | src/components/Navbar.tsx:51-61 | `firstSection` exactly when `scrollTop + navH` is in section one's window; `secondSection` exactly when it is outside that window and inside section two's; `default` otherwise; never `darkPage` |
| `Navbar.SectionsLeaveNoGap` | src/components/Navbar.tsx:42-60 | when section two starts where section one ends, every offset between them gives a section style, never `default` |
| `Navbar.LogoText` | src/components/Navbar.tsx:173 | the logo reads `RS` exactly in the `firstSection` style, otherwise `Reactive Shots` |
| `Navbar.NavbarState.constructor` | src/components/Navbar.tsx:23-78 | a mounted bar has its page's style and a closed menu, and listens to scrolling exactly on `/`, where the thresholds are measured |
| `Navbar.NavbarState.OnScroll` | src/components/Navbar.tsx:51-63 | on the home page a scroll sets the style from the captured thresholds; elsewhere nothing listens |
| `Navbar.NavbarState.OnPathChange` | src/components/Navbar.tsx:33-78 | when `isHomePage` flips, the style becomes the new page's style and, on `/`, the thresholds are re-measured (otherwise they are kept); the listener is attached exactly on `/`; off `/` the style is always `darkPage`; the menu is untouched |
| `Navbar.NavbarState.ToggleMenu` | src/components/Navbar.tsx:139 | the menu button flips `isMenuOpen` and leaves the style alone |
| `Navbar.NavbarState.CloseMenu` | src/components/Navbar.tsx:264 | a backdrop or link click (also line 292) closes the menu and leaves the style alone |
| `Types.CategoryOrderIsPermutation` | src/components/Types.tsx:20-25 | `categoryOrder` lists each of the four categories exactly once |
| `Types.IndexOf` | src/components/Types.tsx:105-106 | `indexOf` gives the first, and only, position of the category in `categoryOrder` |
| `Types.Recognise` | src/components/Types.tsx:124 | an entry filed under a category has that category's value as its lower-cased name |
| `Types.RecogniseSpec` | src/components/Types.tsx:124-185 | an entry is filed under the category whose value equals its lower-cased name; a name matching no value is filed nowhere |
| `Types.RecogniseValue` | src/components/Types.tsx:124-171 | a name whose lower-case form is a category's value is filed under that category |
| `Types.GetDynamicClassNames` | src/components/Types.tsx:47-65 | the `switch` over the active category, each arm the two-line template with one class per corner tile (a definition; its properties are the lemmas below) |
| `Types.PortraitCorners` | src/components/Types.tsx:50-51 | for Portraits, index 0 starts with `rounded-tl-lg lg:rounded-l-lg`; index `length-1` has `rounded-br-lg lg:rounded-r-lg` as its second class |
| `Types.GridCategoriesAgree` | src/components/Types.tsx:53-60 | Events, Cars and Real Estate get identical strings at every index |
| `Types.OnlyCornersRounded` | src/components/Types.tsx:47-64 | a tile that is not a corner gets whitespace only |
| `Types.ApplyEntry` | src/components/Types.tsx:118-186 | one response entry never removes a category or a blur entry |
| `Types.ApplyEntryImages` | src/components/Types.tsx:118-143 | a recognised entry sets its category's list to at most four names taken from its own album; other categories are unchanged |
| `Types.ApplyEntryBlur` | src/components/Types.tsx:128-137 | a recognised entry keeps every blur entry it does not overwrite; it maps each chosen name to its photo's `blur_data_url`; it adds no other key |
| `Types.ApplyEntryUnrecognised` | src/components/Types.tsx:124-185 | an entry whose name matches none of the four cases changes neither `images` nor `blurData` |
| `Types.LastFor` | src/components/Types.tsx:118-186 | the last entry filed under a category; no later entry is filed under it |
| `Types.ApplyAllLastWins` | src/components/Types.tsx:118-186 | after a response, each category holds the choice of the last entry filed under it, or its old list if there is none |
| `Types.ApplyAll` | src/components/Types.tsx:118-186 | a whole response never drops a category or a blur entry |
| `Types.ApplyAllWellFormed` | src/components/Types.tsx:118-186 | every category keeps a list of at most four names across a refresh |
| `Types.CategoryCarousel.constructor` | src/components/Types.tsx:69-96 | the carousel starts on Portraits with direction 0, the four built-in lists and an empty blur map |
| `Types.CategoryCarousel.HandleClick` | src/components/Types.tsx:103-111 | clicking the active tab changes nothing; any other tab becomes active, with direction 1 if it comes later in `categoryOrder` and -1 if earlier |
| `Types.CategoryCarousel.GetPhotos` | src/components/Types.tsx:113-189 | a response is applied entry by entry and then `loaded` is set; a failed fetch changes nothing |
| `Types.CategoryCarousel.Tick` | src/components/Types.tsx:191-199 | while not paused the interval refreshes and bumps the counter, and a response sets `loaded`; when paused, or when the fetch fails, `loaded` is kept; when paused nothing changes |
| `Types.CategoryCarousel.TogglePause` | src/components/Types.tsx:306 | the pause button flips `isPaused` |
| `Pricing.Advance` | src/components/Pricing.tsx:80-84 | `(prev + 1) % 4` stays in [0, 4) and wraps 3 to 0 |
| `Pricing.FourAdvancesReturn` | src/components/Pricing.tsx:80-84 | four ticks bring an index back to where it started |
| `Pricing.RebuildImages` | src/components/Pricing.tsx:37-52 | the rebuilt image map always holds the three categories, and every list in it has at most four names |
| `Pricing.RebuildBlur` | src/components/Pricing.tsx:42-59 | the rebuilt blur map's keys are exactly the names some entry picked, so nothing of the previous map survives |
| `Pricing.LastNamed` | src/components/Pricing.tsx:51-52 | the last entry whose lower-cased name is the key |
| `Pricing.RebuildImagesSpec` | src/components/Pricing.tsx:37-62 | the new image map holds the three categories and every name in the response; each list is what the name's last entry picked; a category no entry names ends empty |
| `Pricing.RebuildImagesDrawn` | src/components/Pricing.tsx:46-52 | each list has at most four names, all from the album of the entry that wrote it |
| `Pricing.RebuildBlurSpec` | src/components/Pricing.tsx:42-59 | each key of the new blur map maps to the placeholder of a photo of that name in an album that picked it |
| `Pricing.Rebuild` | src/components/Pricing.tsx:37-59 | the `data.forEach` loop fills `newImages` and `newBlurData` from scratch, equal to the rebuilt maps |
| `Pricing.DisplaySrc` | src/components/Pricing.tsx:145-148 | a slot shows the current file name, or `/placeholder.svg` when that index has no non-empty name |
| `Pricing.AbsentCategoryShowsPlaceholder` | src/components/Pricing.tsx:37-62 | after a refresh that does not name a category, that category's slot shows the placeholder |
| `Pricing.Heading` | src/components/Pricing.tsx:108 | the heading is the category name with its first letter upper-cased |
| `Pricing.Headings` | src/components/Pricing.tsx:108 | the headings are `Portraits`, `Events` and `Cars` |
| `Pricing.BookingHref` | src/components/Pricing.tsx:176 | the `Book Now` link, interpolated without URL-encoding (a definition; its properties are the two lemmas below) |
| `Pricing.BookingHrefRoundTrip` | src/components/Pricing.tsx:176 | reading the link's query back as `URLSearchParams` splits it gives the category under `category` and the title under `package`, whenever neither contains `&` |
| `Pricing.AmpersandCutsTitle` | src/components/Pricing.tsx:176 | a title containing `&` is read back only up to the `&` (the Cars package `Photo & Video`, src/data/pricingData.ts:101) |
| `Pricing.PricingView.constructor` | src/components/Pricing.tsx:19-30 | empty lists, an empty blur map, not loaded, all indices 0 |
| `Pricing.PricingView.Tick` | src/components/Pricing.tsx:78-87 | every index advances, so all stay equal and in [0, 4) |
| `Pricing.PricingView.GetPhotos` | src/components/Pricing.tsx:32-68 | on success the image and blur maps are rebuilt and `loaded` is set; on failure nothing changes |
| `LetsTalk.Set` | src/components/LetsTalk.tsx:17-20 | an update sets the named field and keeps the other three |
| `LetsTalk.IsComplete` | src/components/LetsTalk.tsx:64-70 | the submit guard: all four fields are non-empty (a definition; its meaning over all fields is the next row) |
| `LetsTalk.IsCompleteMeansNoEmptyField` | src/components/LetsTalk.tsx:64-70 | the guard passes exactly when no field is empty |
| `LetsTalk.Request` | src/components/LetsTalk.tsx:74-85 | the POST to the mailer, form-encoded, with the four fields in `URLSearchParams` order (a definition; what it carries is the next row) |
| `LetsTalk.RequestCarriesFields` | src/components/LetsTalk.tsx:74-85 | the posted body carries exactly the four fields, each under its own name |
| `LetsTalk.ButtonLabel` | src/components/LetsTalk.tsx:224 | the label is `Sending...` exactly while submitting, otherwise `Send` |
| `LetsTalk.ContactForm.constructor` | src/components/LetsTalk.tsx:8-15 | all four fields start empty, not submitting, nothing sent |
| `LetsTalk.ContactForm.HandleChange` | src/components/LetsTalk.tsx:17-20 | typing sets only that field |
| `LetsTalk.ContactForm.BeginSubmit` | src/components/LetsTalk.tsx:62-85 | an incomplete form sends nothing and changes nothing; a complete one sets `isSubmitting` and sends exactly one request with its four values |
| `LetsTalk.ContactForm.FinishSubmit` | src/components/LetsTalk.tsx:87-94 | after the request completes, `isSubmitting` is false and all four fields are empty |
| `LetsTalk.ContactForm.HandleSubmit` | src/components/LetsTalk.tsx:62-96 | a whole submit either changes nothing, for an incomplete form, or sends one request with the old form's values and resets the form |

## Left out

- Masonry row-packing of the category page (src/app/gallery/[category]/page.tsx:96-230): outside the modelled components, not modelled.
- Network I/O: every `fetch` is a method parameter holding its outcome. The mailer request goes into a ghost log. Retries, HTTP status codes and JSON schema checks are not modelled.
- Random shuffles (`sort(() => Math.random() - 0.5)` and similar): each album arrives in its shuffled order. No particular permutation is modelled.
- Timers: each `setInterval` firing is a `Tick` call. Intervals, their periods and their clean-up are not modelled. lodash `throttle` is not modelled.
- Scroll listener lifecycle: the clean-up at Navbar.tsx:69-71 removes `calculateThresholds`, not the attached `handleScroll`. Each page mounts its own `Navbar`, so the model assumes the listener is attached exactly on the home page.
- Navbar: scroll offsets and element sizes are whole pixels. Browsers can report fractional `scrollTop`.
- Unicode: case mapping and `\s` cover ASCII only. Outside ASCII, JavaScript may change letters this model keeps, and `toUpperCase` can change a string's length (for `ß`).
- Asynchrony: each handler runs to its end as one step, except the contact form. There, `BeginSubmit` and `FinishSubmit` are split at the `await`, so edits and second submits can happen in between. If the POST fails, `FinishSubmit` never runs and the form keeps showing `Sending...`.
- Types getPhotos has no `catch`. A failed fetch throws before changing anything, and `loaded` stays as it was.
- Gallery: `getCategoryDescription` and `getApiEndpoint` are constant tables and are not modelled. Neither is the tile markup, which shows `images[0]` and `images.slice(1, 4)`.
- Pricing: `blurData.get(...)` for the slot, the alt texts, `categoryDescriptions` and the static price table `src/data/pricingData.ts` are not modelled.
- Animation variants, Tailwind class strings other than `getDynamicClassNames`, the other components (Hero, About, Footer, CTA) and the app pages are not modelled.
- LetsTalk.ContactForm.HandleChange: the field is one of the four form fields. The source accepts any input `name` attribute, and an unknown name would add an extra key to `formData`.
- Pricing.BookingHrefRoundTrip: holds only when neither the category nor the title contains `&`, because the link is not URL-encoded. `Photo & Video` (src/data/pricingData.ts:101) is cut at the `&` (see `Pricing.AmpersandCutsTitle`). The query reader models how `URLSearchParams` splits a query, but not its percent and `+` decoding, so it does not show that `Photo + Video` (src/data/pricingData.ts:58) is read back as `Photo   Video`. No modelled file reads these parameters.
