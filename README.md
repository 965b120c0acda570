# Jewellery storefront: catalog, gallery, carousels and optimised images

This project models, in Dafny, the logic inside a single-page jewellery storefront. Markup and styling are not modelled. The model covers four parts:

- **The image catalog** (`ImageLoader`). A fixed, ordered table goes from category to subcategory to file names.
  - `GenerateImageData` turns the file names into `/images/<category>/<subcategory>/<file>` paths, keeping only image files. It fills an initially empty object one key at a time.
  - Lookups list the categories and a category's subcategories. They return either one subcategory's images or all of a category's images concatenated.
  - Display-name lookups fall back to the key itself.
- **The collection gallery** (`Collection`). The gallery's items data comes in as a parameter. It maps each category either to a flat list of URLs or to an object of subcategory lists.
  - `GetFilteredImages` resolves a (category, subcategory) selection to numbered tiles.
  - The `Gallery` class holds the selected category and subcategory and the enlarged-image modal. Choosing a category resets the subcategory to `all`.
- **The carousels** (`Cyclic`, `Testimonials`, `HeroSlideshow`, `ImageSlideshow`). Each carousel keeps a current index over `n > 0` slides.
  - Next and previous move with wrap-around, and a dot click jumps to a slide.
  - Interval ticks and the testimonials' auto-play resume are explicit event methods.
  - The testimonials carousel also draws a five-star rating.
- **The optimised image** (`OptimizedImage`).
  - A Cloudinary URL that splits into exactly two pieces around `/upload/` gets a WebP transformation spliced in and a four-width responsive `srcSet`.
  - Three flags decide which layers are drawn: loaded, in view and failed. These layers are the placeholder, the main image, the error fallback and the spinner.

The supporting modules model the JavaScript operations the code relies on:

- `Optional` is `undefined`-or-a-value.
- `Text` covers template-literal number printing, `includes`, `indexOf`, `split`/`join` on a non-empty separator, and ASCII case-insensitive suffixes.
- `Assoc` models plain objects as ordered `(key, value)` tables. For keys that are not array indices, `Object.keys`, `Object.values` and `.flat()` follow insertion order, so a table is a sequence and not a `map`. Property assignment keeps an existing key's position and appends a new key that is not an array index.

Notes on how the code is read:

- `x || fallback` is JavaScript's falsy test. An empty string label falls back to the key. An array is always truthy, so `imageData[category][subcategory] || []` only replaces a missing list.
- A URL counts as having a single `/upload/` when `split('/upload/')` yields two pieces. `split` scans left to right and resumes after each match. Overlapping occurrences therefore count once: `…/upload/upload/…` splits into two pieces and is rewritten. Two non-overlapping occurrences leave the URL as it is (`OptimizedSrcSeveralUploads`).
- `getImages` treats an empty subcategory string like `all`, because the code tests `!subcategory`. Every category of the fixed catalog has at least one subcategory: the flat categories have one called `All`. So `getSubcategories` never returns `[]` for a known category.
- The regular expression `/\.(webp|jpg|jpeg|png)$/i` is matched with ASCII case folding. Without the `u` flag, JavaScript's case folding never maps a non-ASCII character onto these letters, so the two agree.

## Model

| member | source | states |
|---|---|---|
| ImageLoader.GetImagesFromDirectory | src/utils/imageLoader.ts:34-38 | no more paths than files; a path is produced exactly when it is `basePath + "/" + f` for an input file `f` whose name ends, in any letter case, in `.webp`, `.jpg`, `.jpeg` or `.png` |
| ImageLoader.HasImageExtension | src/utils/imageLoader.ts:36 | a name passes exactly when, once its ASCII letters are lower-cased, it ends in `.webp`, `.jpg`, `.jpeg` or `.png` |
| ImageLoader.GetImagesFromDirectoryAppend | src/utils/imageLoader.ts:35-37 | the input order is kept: the result for `a + b` is the result for `a` followed by that for `b` |
| ImageLoader.GetImagesFromDirectorySingle | src/utils/imageLoader.ts:36-37 | one file yields its own path `basePath/file` exactly when it is an image, and nothing otherwise |
| ImageLoader.ConvertStructure | src/utils/imageLoader.ts:136-142 | filling an empty object category by category and subcategory by subcategory, for any catalog without repeated keys, yields the converted catalog: the same category keys and, per category, the same subcategory keys, in the same order, each holding the image paths of its files under `/images/<category>/<subcategory>` |
| ImageLoader.GenerateImageData | src/utils/imageLoader.ts:41-145 | the fixed directory table converted: its category keys and each category's subcategory keys, in order |
| ImageLoader.DirectoryStructureWellFormed | src/utils/imageLoader.ts:45-133 | the fixed catalog repeats no category and no subcategory within a category |
| ImageLoader.ImageDataOfWellFormed | src/utils/imageLoader.ts:136-142 | the conversion keeps keys distinct at both levels |
| ImageLoader.CatalogSubcategoryKeys | src/utils/imageLoader.ts:45-133 | the subcategory keys of each of the five categories, in declaration order |
| ImageLoader.LabelOr | src/utils/imageLoader.ts:149 | the label stored under the key when it is non-empty, the key itself when it is absent or empty |
| ImageLoader.GetCategoryDisplayName | src/utils/imageLoader.ts:148-150 | the mapped label of a listed category, the key verbatim for any other |
| ImageLoader.GetSubcategoryDisplayName | src/utils/imageLoader.ts:153-155 | the mapped label of a listed subcategory, the key verbatim for any other |
| ImageLoader.CategoryLabelIsKey | src/utils/imageLoader.ts:10-16 | every category label, of any key, is the key itself |
| ImageLoader.ChainsLabels | src/utils/imageLoader.ts:19-20 | 'Chains Bracelet Silver' and 'Chains Bracelets' both show as 'Chains & Bracelets' |
| ImageLoader.EverySubcategoryLabelled | src/utils/imageLoader.ts:18-31 | every subcategory of the catalog has an entry in the label table |
| ImageLoader.GetCategories | src/utils/imageLoader.ts:158-160 | the five keys of the label table, in declaration order |
| ImageLoader.CategoriesMatchCatalog | src/utils/imageLoader.ts:10-16 | the categories listed are exactly the catalog's categories, in the same order |
| ImageLoader.GetSubcategories | src/utils/imageLoader.ts:163-166 | an unknown category has no subcategories |
| ImageLoader.GetSubcategoriesKnown | src/utils/imageLoader.ts:165 | a known category lists its own subcategory keys in declaration order |
| ImageLoader.GetImages | src/utils/imageLoader.ts:169-180 | `[]` for an unknown category, and `[]` for a known category with a subcategory it does not have |
| ImageLoader.GetImagesAll | src/utils/imageLoader.ts:174-177 | with 'all', an empty or an absent subcategory, all the category's path lists concatenated in declaration order; as many paths as the lists hold together |
| ImageLoader.SubcategoriesSelectable | src/utils/imageLoader.ts:174 | no subcategory of the catalog is named '' or 'all', so none is hidden by the select-all test |
| ImageLoader.GetImagesOfSubcategory | src/utils/imageLoader.ts:179 | a known subcategory yields exactly its own path list, unmodified |
| Assoc.Lookup | src/utils/imageLoader.ts:179 | property access: absent exactly for a key that is not there, otherwise a value stored under that key |
| Assoc.Keys | src/utils/imageLoader.ts:159 | `Object.keys`: one key per entry, the key of entry `i` at position `i` |
| Assoc.Values | src/utils/imageLoader.ts:176 | `Object.values`: one value per entry, the value of entry `i` at position `i` |
| Assoc.Put | src/utils/imageLoader.ts:137-140 | property assignment: every existing entry keeps its key at its position, and at most one entry is added, at the end, holding the assigned key and value |
| Assoc.PutKeys | src/utils/imageLoader.ts:137-140 | assigning to an existing key leaves the key order as it was; assigning to a new key appends it after all the others |
| Assoc.PutLookup | src/utils/imageLoader.ts:137-140 | after the assignment, reading the key gives the new value and reading any other key gives what it gave before |
| Assoc.Flatten | src/utils/imageLoader.ts:176 | `.flat()` loses nothing: every element of every inner list is in the result |
| Assoc.LookupAt | src/utils/imageLoader.ts:165 | with distinct keys, the key at a position finds the value at that position |
| Assoc.PutNew | src/utils/imageLoader.ts:137 | assigning to a new key appends one entry and changes nothing else |
| Assoc.PutLast | src/utils/imageLoader.ts:140 | assigning again to the last key replaces its value in place |
| Assoc.FlattenLength | src/utils/imageLoader.ts:176 | `.flat()` keeps every element: its length is the sum of the lengths |
| Assoc.FlattenMember | src/components/Collection.tsx:59 | an element is in the flattening exactly when it is in one of the inner lists |
| Assoc.FlattenAppend | src/utils/imageLoader.ts:176 | flattening distributes over concatenation |
| Collection.Enumerate | src/components/Collection.tsx:70 | tile `i` carries URL `i` and index `i` |
| Collection.SelectedUrls | src/components/Collection.tsx:54-68 | a flat list whatever the subcategory; for a grouped category, as many URLs under 'all' as its lists hold, nothing for a subcategory it lacks, and never a URL that is in none of its lists |
| Collection.GetFilteredImages | src/components/Collection.tsx:48-71 | no tiles for a category without data; tile `i` has index `i`; otherwise the tile URLs are the URLs the subcategory selects |
| Collection.FlatShowsWholeList | src/components/Collection.tsx:56-64 | a flat category shows its whole list whatever the subcategory |
| Collection.GroupedAllShowsEverything | src/components/Collection.tsx:59 | a grouped category shows, for 'all', every list concatenated in declaration order, with as many tiles as the lists hold |
| Collection.GroupedSubcategoryShowsItsList | src/components/Collection.tsx:66 | a grouped category shows, for a named subcategory, exactly its list, and nothing for one it lacks |
| Collection.ShownUnderAll | src/components/Collection.tsx:54-68 | every image shown under some subcategory is also shown under 'all' |
| Collection.SampleSelections | src/components/Collection.tsx:48-71 | on a two-category items file: 'all' concatenates, a group shows its list, an unknown group or category shows nothing, a flat category ignores the subcategory |
| Collection.AllIsOffered | src/components/Collection.tsx:25-46 | every category of the navigation offers 'all' |
| Collection.SubcategoryButtons | src/components/Collection.tsx:134-136 | the buttons listed beside the selected category in the navigation, and none for a category it does not list |
| Collection.FormatSubcategoryName | src/components/Collection.tsx:91-94 | 'all' shows as 'All'; any other key keeps its length, has every '_' turned into a space and keeps every other character |
| Collection.ReplaceUnderscores | src/components/Collection.tsx:93 | same length, each '_' a space, every other character kept |
| Collection.ItemAlt | src/components/Collection.tsx:79 | 'Item ' followed by a decimal number with no leading zero |
| Collection.ItemAltNumbersFromOne | src/components/Collection.tsx:79 | the number in 'Item N' reads back as the tile's index plus one |
| Collection.Gallery.constructor | src/components/Collection.tsx:13-23 | first category, subcategory 'all', modal closed |
| Collection.Gallery.FilteredImages | src/components/Collection.tsx:73 | the grid for the current selection: empty for a category without data, tile `i` numbered `i`, otherwise the URLs the selected subcategory selects |
| Collection.Gallery.SelectCategory | src/components/Collection.tsx:118-121 | the category is set and the subcategory reset to 'all', so the grid becomes the new category's 'all' grid; the selection stays one the navigation offers; the modal is unchanged |
| Collection.Gallery.SelectSubcategory | src/components/Collection.tsx:139 | the subcategory is set, the category unchanged, and the grid becomes that subcategory's grid |
| Collection.Gallery.OpenModal | src/components/Collection.tsx:75-81 | the modal is open on the tile's URL with text 'Item ' and the tile's index plus one; the selection is unchanged |
| Collection.Gallery.CloseModal | src/components/Collection.tsx:83-89 | the modal returns to closed with empty source and text |
| Text.NatToString | src/components/Collection.tsx:79 | template-literal printing of a number: non-empty, all digits, no leading zero except for 0 |
| Text.DecimalValueOfNatToString | src/components/Collection.tsx:79 | the printed digits read back as the number |
| Text.NatToStringInjective | src/components/HeroSlideshow.tsx:51 | distinct numbers print differently |
| Text.IndexOf | src/components/OptimizedImage.tsx:33 | the first occurrence, or none anywhere |
| Text.Contains | src/components/OptimizedImage.tsx:33 | `includes`: true exactly when the pattern occurs at some position |
| Text.Split | src/components/OptimizedImage.tsx:35 | at least one piece; joining the pieces with the separator gives the input back; no piece holds the separator; with more than one piece, the first ends at the leftmost occurrence |
| Text.SplitWhole | src/components/OptimizedImage.tsx:35-36 | one piece exactly when the separator does not occur, and then the input itself |
| Text.SplitInTwo | src/components/OptimizedImage.tsx:35-36 | two pieces `a`, `b` exactly when the input is `a + sep + b`, the scan meets no occurrence inside `a`'s span and `b` holds none |
| Text.SplitSeveral | src/components/OptimizedImage.tsx:46-47 | two non-overlapping occurrences give at least three pieces |
| Text.Join | src/components/OptimizedImage.tsx:55 | `join`: empty for no pieces; otherwise the first piece is a prefix of the result and, with two or more pieces, the separator follows it |
| Text.EndsWithIgnoringCaseLowered | src/utils/imageLoader.ts:36 | for a lower-case suffix, ending with it regardless of case is ending with it after lower-casing |
| OptimizedImage.UploadParts | src/components/OptimizedImage.tsx:35-36 | when present, the two pieces put back around `/upload/` give the URL |
| OptimizedImage.GetOptimizedSrc | src/components/OptimizedImage.tsx:32-41 | a Cloudinary URL that splits into two pieces around `/upload/` comes back as the two pieces with the WebP transformation spliced in after `/upload/`; every other URL (no `cloudinary.com`, no `/upload/`, or another number of pieces) comes back unchanged |
| OptimizedImage.OptimizedSrcSingleUpload | src/components/OptimizedImage.tsx:35-37 | a Cloudinary URL with a single `/upload/` between `prefix` and `rest` becomes `prefix/upload/f_webp,q_auto,w_auto,dpr_auto,c_scale/rest` |
| OptimizedImage.OptimizedSrcSeveralUploads | src/components/OptimizedImage.tsx:36-58 | with two non-overlapping `/upload/` markers the URL is kept and no `srcSet` is produced |
| OptimizedImage.GetSrcSet | src/components/OptimizedImage.tsx:44-59 | present exactly for a Cloudinary URL that splits into two pieces, and then the four candidates joined with ', ' |
| OptimizedImage.SrcSetEntries | src/components/OptimizedImage.tsx:50-54 | four candidates, one per width, each beginning with the URL's part before `/upload/` |
| OptimizedImage.CandidatesSpelled | src/components/OptimizedImage.tsx:51-54 | the candidate of width `w` built from its decimal form is the literal string listed for 400, 800, 1200 and 1600 |
| OptimizedImage.SrcSetEntriesAgree | src/components/OptimizedImage.tsx:50-55 | four candidates with strictly increasing widths; each one's `w_` parameter is the width its trailing descriptor announces |
| OptimizedImage.LoadingFor | src/components/OptimizedImage.tsx:122 | eager exactly when the image has priority |
| OptimizedImage.ObjectFitFor | src/components/OptimizedImage.tsx:119 | `object-contain` exactly when the class names contain it |
| OptimizedImage.LayersFor | src/components/OptimizedImage.tsx:100-142 | placeholder exactly when neither loaded nor failed; main image exactly when in view; error fallback exactly when failed; spinner exactly when the placeholder is drawn and the image is in view |
| OptimizedImage.LayersConsistent | src/components/OptimizedImage.tsx:101-138 | the spinner only over the placeholder and beside the main image; neither placeholder nor spinner over the error fallback |
| OptimizedImage.ImageState.constructor | src/components/OptimizedImage.tsx:25-27 | not loaded, not failed, in view exactly when it has priority, observed exactly when not |
| OptimizedImage.ImageState.ObserverCallback | src/components/OptimizedImage.tsx:61-83 | in view afterwards exactly when it was before or the entry intersects; the observer is connected exactly while the image is out of view |
| OptimizedImage.ImageState.HandleLoad | src/components/OptimizedImage.tsx:85-88 | loaded; neither placeholder nor spinner is drawn; nothing else changes |
| OptimizedImage.ImageState.HandleError | src/components/OptimizedImage.tsx:90-93 | failed; the error fallback is drawn and neither placeholder nor spinner; nothing else changes |
| OptimizedImage.ImageState.MainImage | src/components/OptimizedImage.tsx:95-127 | drawn exactly when in view; eager exactly with priority; `object-contain` exactly when the class names contain it; a non-Cloudinary URL, or a Cloudinary URL that does not split into exactly two pieces, is used as it is with no `srcSet`; a Cloudinary URL that splits into two pieces gets the transformed source and the four-candidate `srcSet` |
| Cyclic.Next | src/components/ImageSlideshow.tsx:31 | the next index is in range: one more, or 0 after the last |
| Cyclic.Prev | src/components/ImageSlideshow.tsx:35 | the previous index is in range: one less, or the last before 0 |
| Cyclic.NextPrevInverse | src/components/Testimonials.tsx:38-48 | previous after next, and next after previous, give back the index |
| Cyclic.NextIterMoves | src/components/ImageSlideshow.tsx:30-32 | `k <= n` steps forward move `k` places, wrapping once past the last |
| Cyclic.FullCircle | src/components/ImageSlideshow.tsx:30-32 | `n` steps forward return to the start, and no fewer positive number of steps does |
| Cyclic.Dots | src/components/ImageSlideshow.tsx:87-91 | one dot per slide |
| Cyclic.ExactlyOneDot | src/components/Testimonials.tsx:139-147 | over a valid index exactly one dot is active, the current one |
| Testimonials.RenderStars | src/components/Testimonials.tsx:50-59 | five stars; star `i` filled exactly when `i < rating` |
| Testimonials.FilledStarsFirst | src/components/Testimonials.tsx:55 | filled stars come first |
| Testimonials.WholeRatingStars | src/components/Testimonials.tsx:51-55 | a whole rating from 0 to 5 fills exactly that many stars; above 5 all, at or below 0 none |
| Testimonials.FractionalRatingRoundsUp | src/components/Testimonials.tsx:55 | 4.5 fills five stars, 4 fills four |
| Testimonials.Carousel.constructor | src/components/Testimonials.tsx:16-17 | first testimonial, auto-play on |
| Testimonials.Carousel.Tick | src/components/Testimonials.tsx:22-30 | the index advances with wrap-around exactly while auto-play is on; the flag is unchanged |
| Testimonials.Carousel.ResumeAutoPlay | src/components/Testimonials.tsx:35 | auto-play is on again; the index is unchanged |
| Testimonials.Carousel.GoToSlide | src/components/Testimonials.tsx:32-36 | the index is the dot's; auto-play off |
| Testimonials.Carousel.NextSlide | src/components/Testimonials.tsx:38-42 | the index is `(i + 1) % n`, still in range; auto-play off |
| Testimonials.Carousel.PrevSlide | src/components/Testimonials.tsx:44-48 | the index is `(i - 1 + n) % n`, still in range; auto-play off |
| Testimonials.Carousel.ActiveDots | src/components/Testimonials.tsx:139-147 | one dot per testimonial, only the current one active |
| HeroSlideshow.OnlyFirstSlideEager | src/components/HeroSlideshow.tsx:79 | a slide is loaded eagerly exactly when it is the first; every other one lazily |
| HeroSlideshow.ModalAlt | src/components/HeroSlideshow.tsx:51 | 'Jewelry Image ' followed by a decimal number with no leading zero |
| HeroSlideshow.ModalAltNumbersFromOne | src/components/HeroSlideshow.tsx:51 | the number in 'Jewelry Image N' reads back as the slide's index plus one |
| HeroSlideshow.TenStepsGoRound | src/components/HeroSlideshow.tsx:11-22 | ten steps forward over the ten images return to the same image, and fewer never do |
| HeroSlideshow.Slideshow.constructor | src/components/HeroSlideshow.tsx:8-9 | first slide, modal closed |
| HeroSlideshow.Slideshow.GoToPrevious | src/components/HeroSlideshow.tsx:33-37 | the if-form (0 to the last, otherwise one back) is the modular previous index; the modal is unchanged |
| HeroSlideshow.Slideshow.GoToNext | src/components/HeroSlideshow.tsx:39-41 | the next index with wrap-around; the modal is unchanged |
| HeroSlideshow.Slideshow.Tick | src/components/HeroSlideshow.tsx:25-31 | every tick moves to the next index |
| HeroSlideshow.Slideshow.GoToSlide | src/components/HeroSlideshow.tsx:43-45 | the index is the dot's |
| HeroSlideshow.Slideshow.HandleImageClick | src/components/HeroSlideshow.tsx:47-55 | the modal opens on the current image with text 'Jewelry Image ' and its index plus one, name 'Western Jewellers' and the click position; the index is unchanged |
| HeroSlideshow.Slideshow.CloseModal | src/components/HeroSlideshow.tsx:57-59 | no modal; the index is unchanged |
| HeroSlideshow.Slideshow.ActiveDots | src/components/HeroSlideshow.tsx:117-129 | ten dots, only the current one active |
| ImageSlideshow.Slideshow.constructor | src/components/ImageSlideshow.tsx:17-28 | first image; the properties as given |
| ImageSlideshow.Slideshow.NextSlide | src/components/ImageSlideshow.tsx:30-32 | the next index with wrap-around, still in range |
| ImageSlideshow.Slideshow.PrevSlide | src/components/ImageSlideshow.tsx:34-36 | the previous index with wrap-around, still in range |
| ImageSlideshow.Slideshow.Tick | src/components/ImageSlideshow.tsx:38-42 | the index advances exactly when auto-play was asked for |
| ImageSlideshow.Slideshow.SelectDot | src/components/ImageSlideshow.tsx:87-91 | the index is the dot's; nothing else changes |
| ImageSlideshow.Slideshow.HandleImageClick | src/components/ImageSlideshow.tsx:44-48 | the current image is delivered exactly when a callback was supplied; nothing changes |
| ImageSlideshow.Slideshow.ActiveDots | src/components/ImageSlideshow.tsx:87-91 | one dot per image, only the current one active |

## Left out

- `src/utils/performance.ts` (image preloading, WebP probing, debounce/throttle, resource hints, event-listener patching): browser I/O, timers and DOM mutation.
- `scripts/purge-cloudflare-cache.js`: an HTTPS client for the CDN's API.
- `Contact.tsx`, `Footer.tsx`, `ImageModal.tsx`, `Navbar.tsx`, `LazySection.tsx`, `App.tsx`, `Hero.tsx`, `About.tsx`, `Services.tsx`, `WhyChooseUs.tsx` and the build and style configuration: markup, DOM side effects, `window.open` and scroll listeners, with no logic of their own.
- JSX rendering, CSS classes, animation and the `sizes` and placeholder attributes. Only the boolean render conditions are modelled.
- Time. The five-second intervals and the ten-second resume are event methods (`Tick`, `ResumeAutoPlay`) with no clock. The model does not track how many resume timers are pending, so it does not capture that an earlier navigation's timer can resume auto-play sooner than ten seconds after a later one.
- The viewport observer is the `ObserverCallback` event. Its 200px root margin and its disconnection on unmount are not modelled.
- The `onLoad`, `onError` and `onImageClick` properties are calls into code the model cannot see. `HandleImageClick` returns the image that would be passed, and the other two are not called.
- The contents of the items and testimonials data files are parameters (`Gallery.items`, `Carousel.testimonials`). The fixed directory table and the hero image list are written out.
- Testimonials.Carousel.constructor and ImageSlideshow.Slideshow.constructor: the model requires at least one slide. With none, JavaScript's `% 0` yields `NaN`, and that index is not modelled. Properties that change length after mounting are not modelled either.
- Testimonials.Carousel.GoToSlide, HeroSlideshow.Slideshow.GoToSlide, ImageSlideshow.Slideshow.SelectDot: they require an index in range, because only the dots call them and each passes its own index.
- Collection.SubcategoryButtons: for a category the navigation does not list, the source reads `.subcategories` of `undefined` and the render throws a TypeError; the model returns `[]` instead. `Gallery.Valid()` keeps the selected category among the listed ones, so the gallery never reaches that case.
- Collection.Gallery.SelectCategory and SelectSubcategory: they require a key the navigation offers, because only its buttons call them. The emoji button names and the rule that hides the subcategory bar for a single entry are rendering.
- Assoc.Lookup: a lookup does not see keys inherited from `Object.prototype` (such as `toString`). The site's keys never collide with them.
- Testimonials.RenderStars: the rating is a real number. A rating that is not a JSON number (null, a string), which `i < rating` coerces, and floating-point rounding are not modelled.
- Text.Split: only the non-empty separator the code uses is modelled.
- Assoc.Put and Assoc.Keys: a table lists its keys in the order a JavaScript object enumerates them only when no key is an array index such as `"0"` or `"12"`. JavaScript lists such keys first, in ascending numeric order. Every key of the fixed catalog, the label tables and the navigation is not an array index. The items file is a parameter, and `Collection.GroupedAllShowsEverything` reads its table order as the enumeration order, so it assumes that file has no such keys either.
- ImageSlideshow.Slideshow.constructor and OptimizedImage.ImageState.constructor: default property values (`autoPlay = true`, `priority = false`, `className = ''`) are not modelled; every property is passed explicitly.
