/** The image catalog of the gallery: a fixed table of categories, each with ordered
    subcategories, each with an ordered list of image file names under
    /images/<category>/<subcategory>/, and the display labels of the keys. */
module ImageLoader {
  import opened Optional
  import opened Text
  import opened Assoc

  /** category -> subcategory -> ordered paths (or file names, before conversion). */
  type Catalog = Table<Table<seq<string>>>

  /** Display labels of the categories, in declaration order. */
  const CategoryDisplayNames: Table<string> := [
    ("Gem & Gold Jewellery", "Gem & Gold Jewellery"),
    ("Gem & Silver Jewellery", "Gem & Silver Jewellery"),
    ("Gold-Plated Jewellery", "Gold-Plated Jewellery"),
    ("Sunglasses", "Sunglasses"),
    ("Watches & Clocks", "Watches & Clocks")
  ]

  /** Display labels of the subcategories. */
  const SubcategoryDisplayNames: Table<string> := [
    ("Chains Bracelets", "Chains & Bracelets"),
    ("Chains Bracelet Silver", "Chains & Bracelets"),
    ("Earrings", "Earrings"),
    ("Necklaces", "Necklaces"),
    ("Pendants", "Pendants"),
    ("Rings", "Rings"),
    ("Loose Gemstones", "Loose Gemstones"),
    ("All", "All"),
    ("Gents Watches", "Gents Watches"),
    ("Ladies Watches", "Ladies Watches"),
    ("Table Clocks", "Table Clocks"),
    ("Wall Clocks", "Wall Clocks")
  ]

  /** The file names of every subcategory directory, in declaration order. */
  const DirectoryStructure: Table<Table<seq<string>>> := [
    ("Gem & Gold Jewellery", [
      ("Chains Bracelets", [
        "image_10_2.webp", "image_11_1.webp", "image_12_2.webp", "image_14_2.webp",
        "image_1_2.webp", "image_3_2.webp", "image_4_2.webp", "image_5_1.webp",
        "image_6_2.webp", "image_7_2.webp", "image_8_2.webp", "image_9_2.webp"
      ]),
      ("Earrings", [
        "image_10_2.webp", "image_11_2.webp", "image_13_1.webp", "image_14_1.webp",
        "image_15_1.webp", "image_1_2.webp", "image_2_2.webp", "image_3_2.webp",
        "image_4_2.webp", "image_5_2.webp", "image_8_2.webp", "image_9_2.webp"
      ]),
      ("Necklaces", [
        "image_10_1.webp", "image_12_2.webp", "image_13_2.webp", "image_14_2.webp",
        "image_15_1.webp", "image_1_2.webp", "image_2_1.webp", "image_3_1.webp",
        "image_4_2.webp", "image_6_1.webp", "image_7_2.webp", "image_9_2.webp"
      ]),
      ("Pendants", [
        "image_10_1.webp", "image_11_1.webp", "image_12_2.webp", "image_13_2.webp",
        "image_14_2.webp", "image_15_2.webp", "image_1_2.webp", "image_2_1.webp",
        "image_3_1.webp", "image_4_2.webp", "image_5_2.webp", "image_6_2.webp",
        "image_7_2.webp", "image_8_1.webp", "image_9_1.webp"
      ]),
      ("Rings", [
        "image_10_1.webp", "image_11_1.webp", "image_12_2.webp", "image_13_2.webp",
        "image_1_1.webp", "image_1_2.webp", "image_2_1.webp", "image_3_2.webp",
        "image_4_1.webp", "image_5_1.webp", "image_6_1.webp", "image_6_2.webp",
        "image_7_1.webp", "image_8_1.webp", "image_9_2.webp"
      ])
    ]),
    ("Gem & Silver Jewellery", [
      ("Chains Bracelet Silver", [
        "image_10_2.webp", "image_11_2.webp", "image_12_1.webp", "image_14_2.webp",
        "image_15_2.webp", "image_1_2.webp", "image_3_1.webp", "image_3_2.webp",
        "image_5_2.webp", "image_7_1.webp", "image_8_2.webp", "image_9_2.webp"
      ]),
      ("Loose Gemstones", [
        "image_10_2.webp", "image_11_2.webp", "image_12_2.webp", "image_13_1.webp",
        "image_14_2.webp", "image_15_2.webp", "image_1_2.webp", "image_2_2.webp",
        "image_3_2.webp", "image_4_2.webp", "image_5_2.webp", "image_6_2.webp",
        "image_7_2.webp", "image_8_2.webp", "image_9_2.webp"
      ]),
      ("Pendants", [
        "image_10_2.webp", "image_11_1.webp", "image_12_1.webp", "image_13_2.webp",
        "image_14_1.webp", "image_15_1.webp", "image_1_2.webp", "image_2_2.webp",
        "image_3_1.webp", "image_3_2.webp", "image_4_1.webp", "image_5_2.webp",
        "image_7_2.webp", "image_8_2.webp", "image_9_1.webp"
      ]),
      ("Rings", [
        "image_10_2.webp", "image_12_2.webp", "image_13_2.webp", "image_15_2.webp",
        "image_1_1.webp", "image_2_1.webp", "image_3_1.webp", "image_3_2.webp",
        "image_6_2.webp", "image_7_2.webp", "image_8_1.webp", "image_9_2.webp"
      ])
    ]),
    ("Gold-Plated Jewellery", [
      ("All", [
        "image_12_1.webp", "image_13_1.webp", "image_14_1.webp", "image_14_2.webp",
        "image_15_2.webp", "image_1_2.webp", "image_2_2.webp", "image_3_1.webp",
        "image_4_1.webp", "image_5_2.webp", "image_6_2.webp", "image_8_2.webp"
      ])
    ]),
    ("Sunglasses", [
      ("All", [
        "image_10_2.webp", "image_11_1.webp", "image_12_2.webp", "image_13_1.webp",
        "image_14_2.webp", "image_1_2.webp", "image_2_2.webp", "image_3_2.webp",
        "image_5_2.webp", "image_6_2.webp", "image_7_1.webp", "image_9_2.webp"
      ])
    ]),
    ("Watches & Clocks", [
      ("Gents Watches", [
        "image_10_2.webp", "image_12_1.webp", "image_13_1.webp", "image_15_1.webp",
        "image_1_1.webp", "image_3_1.webp", "image_5_1.webp", "image_8_2.webp",
        "image_9_2.webp"
      ]),
      ("Ladies Watches", [
        "image_10_2.webp", "image_11_1.webp", "image_12_2.webp", "image_13_1.webp",
        "image_14_1.webp", "image_15_2.webp", "image_1_2.webp", "image_2_2.webp",
        "image_3_2.webp", "image_4_1.webp", "image_7_2.webp", "image_8_2.webp"
      ]),
      ("Table Clocks", [
        "image_10_1.webp", "image_10_2.webp", "image_11_2.webp", "image_12_1.webp",
        "image_14_1.webp", "image_15_1.webp", "image_1_2.webp", "image_3_2.webp",
        "image_4_2.webp", "image_5_1.webp", "image_5_2.webp", "image_9_2.webp"
      ]),
      ("Wall Clocks", [
        "image_11_2.webp", "image_13_1.webp", "image_14_2.webp", "image_2_2.webp",
        "image_3_2.webp", "image_4_1.webp", "image_7_1.webp", "image_7_2.webp",
        "image_9_1.webp"
      ])
    ])
  ]

  /** The file name ends in `.webp`, `.jpg`, `.jpeg` or `.png`, in any letter case: the
      pattern `\.(webp|jpg|jpeg|png)$` with the `i` flag (whose case folding never maps
      a non-ASCII character onto these ASCII letters). */
  function HasImageExtension(file: string): (b: bool)
    ensures b <==> var lowered := LowerAsciiString(file);
                   EndsWith(lowered, ".webp") || EndsWith(lowered, ".jpg") ||
                   EndsWith(lowered, ".jpeg") || EndsWith(lowered, ".png")
  {
    EndsWithIgnoringCaseLowered(file, ".webp");
    EndsWithIgnoringCaseLowered(file, ".jpg");
    EndsWithIgnoringCaseLowered(file, ".jpeg");
    EndsWithIgnoringCaseLowered(file, ".png");
    EndsWithIgnoringCase(file, ".webp") || EndsWithIgnoringCase(file, ".jpg") ||
    EndsWithIgnoringCase(file, ".jpeg") || EndsWithIgnoringCase(file, ".png")
  }

  /** The paths `basePath/file` of the files that are images, in the order given. */
  function GetImagesFromDirectory(basePath: string, files: seq<string>): (paths: seq<string>)
    ensures |paths| <= |files|
    ensures forall p :: p in paths <==> exists f :: f in files && HasImageExtension(f) && p == basePath + "/" + f
  {
    if files == [] then []
    else
      var rest := GetImagesFromDirectory(basePath, files[1..]);
      assert forall f :: f in files <==> f == files[0] || f in files[1..];
      (if HasImageExtension(files[0]) then [basePath + "/" + files[0]] else []) + rest
  }

  /** The conversion keeps the order of the files: the paths for `a + b` are the paths
      for `a` followed by those for `b`. */
  lemma {:induction false} GetImagesFromDirectoryAppend(basePath: string, a: seq<string>, b: seq<string>)
    ensures GetImagesFromDirectory(basePath, a + b) ==
              GetImagesFromDirectory(basePath, a) + GetImagesFromDirectory(basePath, b)
  {
    if a == [] {
      assert a + b == b;
    } else {
      assert (a + b)[0] == a[0] && (a + b)[1..] == a[1..] + b;
      GetImagesFromDirectoryAppend(basePath, a[1..], b);
    }
  }

  /** A single file yields its own path exactly when it is an image, and nothing
      otherwise. */
  lemma GetImagesFromDirectorySingle(basePath: string, f: string)
    ensures GetImagesFromDirectory(basePath, [f]) == if HasImageExtension(f) then [basePath + "/" + f] else []
  {
    assert [f][1..] == [];
  }

  /** The directory of one subcategory. */
  function BasePath(category: string, subcategory: string): string {
    "/images/" + category + "/" + subcategory
  }

  /** One category of the converted catalog: each subcategory keeps its key and
      position, and its files become paths under its directory. */
  function CategoryPaths(category: string, subcategories: Table<seq<string>>): (r: Table<seq<string>>)
    ensures Keys(r) == Keys(subcategories)
    ensures forall j | 0 <= j < |subcategories| ::
              r[j].1 == GetImagesFromDirectory(BasePath(category, subcategories[j].0), subcategories[j].1)
  {
    seq(|subcategories|, j requires 0 <= j < |subcategories| =>
      (subcategories[j].0, GetImagesFromDirectory(BasePath(category, subcategories[j].0), subcategories[j].1)))
  }

  /** The converted catalog, entry by entry. */
  function ImageDataOf(structure: Catalog): (r: Catalog)
    ensures Keys(r) == Keys(structure)
    ensures forall i | 0 <= i < |structure| :: r[i].1 == CategoryPaths(structure[i].0, structure[i].1)
  {
    seq(|structure|, i requires 0 <= i < |structure| =>
      (structure[i].0, CategoryPaths(structure[i].0, structure[i].1)))
  }

  /** The catalog has no repeated category, and no category a repeated subcategory. */
  predicate WellFormed(structure: Catalog) {
    DistinctKeys(structure) && forall i | 0 <= i < |structure| :: DistinctKeys(structure[i].1)
  }

  lemma DirectoryStructureWellFormed()
    ensures WellFormed(DirectoryStructure)
  {
  }

  /** Assigning one more subcategory into the category that was assigned last. */
  lemma SubcategoryStep(done: Catalog, category: string, subcategories: Table<seq<string>>, j: nat)
    requires category !in Keys(done) && DistinctKeys(subcategories) && j < |subcategories|
    ensures Lookup(done + [(category, CategoryPaths(category, subcategories[..j]))], category) ==
              Some(CategoryPaths(category, subcategories[..j]))
    ensures Put(done + [(category, CategoryPaths(category, subcategories[..j]))], category,
                Put(CategoryPaths(category, subcategories[..j]), subcategories[j].0,
                    GetImagesFromDirectory(BasePath(category, subcategories[j].0), subcategories[j].1))) ==
            done + [(category, CategoryPaths(category, subcategories[..j + 1]))]
  {
    var inner := CategoryPaths(category, subcategories[..j]);
    var (subcategory, files) := subcategories[j];
    var paths := GetImagesFromDirectory(BasePath(category, subcategory), files);
    LookupLast(done, category, inner);
    NextSubcategoryIsNew(category, subcategories, j);
    PutNew(inner, subcategory, paths);
    CategoryPathsExtend(category, subcategories, j);
    PutLast(done, category, inner, CategoryPaths(category, subcategories[..j + 1]));
  }

  /** In a category without repeated subcategories, the next subcategory is not yet
      among those converted before it. */
  lemma NextSubcategoryIsNew(category: string, subcategories: Table<seq<string>>, j: nat)
    requires DistinctKeys(subcategories) && j < |subcategories|
    ensures subcategories[j].0 !in Keys(CategoryPaths(category, subcategories[..j]))
  {
    assert Keys(CategoryPaths(category, subcategories[..j])) == Keys(subcategories)[..j];
  }

  /** Converting one more subcategory appends its entry. */
  lemma CategoryPathsExtend(category: string, subcategories: Table<seq<string>>, j: nat)
    requires j < |subcategories|
    ensures CategoryPaths(category, subcategories[..j]) +
              [(subcategories[j].0, GetImagesFromDirectory(BasePath(category, subcategories[j].0), subcategories[j].1))] ==
            CategoryPaths(category, subcategories[..j + 1])
  {
    assert subcategories[..j + 1] == subcategories[..j] + [subcategories[j]];
  }

  /** Starting the next category of a well-formed catalog with an empty object. */
  lemma CategoryStep(structure: Catalog, i: nat)
    requires WellFormed(structure) && i < |structure|
    ensures structure[i].0 !in Keys(ImageDataOf(structure)[..i])
    ensures Put(ImageDataOf(structure)[..i], structure[i].0, []) ==
              ImageDataOf(structure)[..i] + [(structure[i].0, CategoryPaths(structure[i].0, structure[i].1[..0]))]
    ensures ImageDataOf(structure)[..i] + [(structure[i].0, CategoryPaths(structure[i].0, structure[i].1[..|structure[i].1|]))] ==
              ImageDataOf(structure)[..i + 1]
  {
    var done := ImageDataOf(structure)[..i];
    assert Keys(done) == Keys(structure)[..i];
    PutNew(done, structure[i].0, []);
    assert structure[i].1[..|structure[i].1|] == structure[i].1;
    assert ImageDataOf(structure)[..i + 1] == done + [ImageDataOf(structure)[i]];
  }

  /** Converts a catalog of file names into one of paths by assigning into an
      initially empty object, one category and then one subcategory at a time. */
  method ConvertStructure(structure: Catalog) returns (imageData: Catalog)
    requires WellFormed(structure)
    ensures imageData == ImageDataOf(structure)
    ensures Keys(imageData) == Keys(structure)
    ensures forall i | 0 <= i < |structure| :: Keys(imageData[i].1) == Keys(structure[i].1)
    ensures forall i, j | 0 <= i < |structure| && 0 <= j < |structure[i].1| ::
              imageData[i].1[j].1 == GetImagesFromDirectory(BasePath(structure[i].0, structure[i].1[j].0), structure[i].1[j].1)
  {
    imageData := [];
    var i := 0;
    while i < |structure|
      invariant 0 <= i <= |structure|
      invariant imageData == ImageDataOf(structure)[..i]
    {
      var (category, subcategories) := structure[i];
      CategoryStep(structure, i);
      ghost var done := imageData;
      imageData := Put(imageData, category, []);
      var j := 0;
      while j < |subcategories|
        invariant 0 <= j <= |subcategories|
        invariant imageData == done + [(category, CategoryPaths(category, subcategories[..j]))]
      {
        var (subcategory, files) := subcategories[j];
        var basePath := BasePath(category, subcategory);
        SubcategoryStep(done, category, subcategories, j);
        var inner := Lookup(imageData, category).value;
        imageData := Put(imageData, category, Put(inner, subcategory, GetImagesFromDirectory(basePath, files)));
        j := j + 1;
      }
      i := i + 1;
    }
    assert ImageDataOf(structure)[..i] == ImageDataOf(structure);
  }

  /** `generateImageData()`: the fixed directory table converted into paths. */
  method GenerateImageData() returns (imageData: Catalog)
    ensures imageData == ImageDataOf(DirectoryStructure)
    ensures Keys(imageData) == Keys(DirectoryStructure)
    ensures forall i | 0 <= i < |DirectoryStructure| :: Keys(imageData[i].1) == Keys(DirectoryStructure[i].1)
  {
    DirectoryStructureWellFormed();
    imageData := ConvertStructure(DirectoryStructure);
  }

  /** The label tables repeat no key and hold no empty label. */
  lemma DisplayTablesWellFormed()
    ensures DistinctKeys(CategoryDisplayNames) && DistinctKeys(SubcategoryDisplayNames)
    ensures forall i | 0 <= i < |CategoryDisplayNames| :: CategoryDisplayNames[i].1 != ""
    ensures forall i | 0 <= i < |SubcategoryDisplayNames| :: SubcategoryDisplayNames[i].1 != ""
  {
  }

  /** `obj[key] || key`: the label stored under `key` when there is a non-empty one, the
      key itself otherwise. */
  function LabelOr(table: Table<string>, key: string): (shown: string)
    ensures key !in Keys(table) ==> shown == key
    ensures DistinctKeys(table) ==>
              forall i | 0 <= i < |table| && table[i].0 == key :: shown == if table[i].1 != "" then table[i].1 else key
  {
    match Lookup(table, key)
    case None => key
    case Some(v) => if v != "" then v else key
  }

  /** The label of a category: its mapped label when it has one, the key verbatim
      otherwise. */
  function GetCategoryDisplayName(category: string): (shown: string)
    ensures category !in Keys(CategoryDisplayNames) ==> shown == category
    ensures forall i | 0 <= i < |CategoryDisplayNames| && CategoryDisplayNames[i].0 == category ::
              shown == CategoryDisplayNames[i].1
  {
    DisplayTablesWellFormed();
    LabelOr(CategoryDisplayNames, category)
  }

  /** The label of a subcategory: its mapped label when it has one, the key verbatim
      otherwise. */
  function GetSubcategoryDisplayName(subcategory: string): (shown: string)
    ensures subcategory !in Keys(SubcategoryDisplayNames) ==> shown == subcategory
    ensures forall i | 0 <= i < |SubcategoryDisplayNames| && SubcategoryDisplayNames[i].0 == subcategory ::
              shown == SubcategoryDisplayNames[i].1
  {
    DisplayTablesWellFormed();
    LabelOr(SubcategoryDisplayNames, subcategory)
  }

  /** `Object.keys(categoryDisplayNames)`. */
  function GetCategories(): (categories: seq<string>)
    ensures categories == ["Gem & Gold Jewellery", "Gem & Silver Jewellery", "Gold-Plated Jewellery",
                           "Sunglasses", "Watches & Clocks"]
  {
    Keys(CategoryDisplayNames)
  }

  /** `Object.keys(imageData[category])`, or the empty list for an unknown category. */
  function GetSubcategories(category: string): (subcategories: seq<string>)
    ensures category !in Keys(DirectoryStructure) ==> subcategories == []
  {
    match Lookup(ImageDataOf(DirectoryStructure), category)
    case None => []
    case Some(subs) => Keys(subs)
  }

  /** The subcategory argument selects every subcategory: it is absent, empty or 'all'. */
  predicate SelectsAll(subcategory: Option<string>) {
    subcategory.None? || subcategory.value == "" || subcategory.value == "all"
  }

  /** The image paths of a category, either of all its subcategories concatenated in
      declaration order or of one subcategory; empty for an unknown key. */
  function GetImages(category: string, subcategory: Option<string>): (images: seq<string>)
    ensures category !in Keys(DirectoryStructure) ==> images == []
    ensures forall i | 0 <= i < |DirectoryStructure| && DirectoryStructure[i].0 == category ::
              !SelectsAll(subcategory) && subcategory.value !in Keys(DirectoryStructure[i].1) ==> images == []
  {
    DirectoryStructureWellFormed();
    var imageData := ImageDataOf(DirectoryStructure);
    match Lookup(imageData, category)
    case None => []
    case Some(subs) =>
      if SelectsAll(subcategory) then Flatten(Values(subs))
      else match Lookup(subs, subcategory.value)
        case None => []
        case Some(paths) => paths
  }

  /** Converting a well-formed catalog keeps it well-formed. */
  lemma ImageDataOfWellFormed(structure: Catalog)
    requires WellFormed(structure)
    ensures WellFormed(ImageDataOf(structure))
  {
    var r := ImageDataOf(structure);
    forall i, j | 0 <= i < j < |r| ensures r[i].0 != r[j].0 {
      assert r[i].0 == Keys(r)[i] && r[j].0 == Keys(r)[j];
    }
    forall i | 0 <= i < |r| ensures DistinctKeys(r[i].1) {
      var inner := r[i].1;
      forall a, b | 0 <= a < b < |inner| ensures inner[a].0 != inner[b].0 {
        assert inner[a].0 == Keys(inner)[a] && inner[b].0 == Keys(inner)[b];
      }
    }
  }

  /** A known category lists its own subcategory keys, in declaration order. */
  lemma GetSubcategoriesKnown(i: nat)
    requires i < |DirectoryStructure|
    ensures GetSubcategories(DirectoryStructure[i].0) == Keys(DirectoryStructure[i].1)
  {
    DirectoryStructureWellFormed();
    ImageDataOfWellFormed(DirectoryStructure);
    LookupAt(ImageDataOf(DirectoryStructure), i);
  }

  /** With 'all', an empty or an absent subcategory, a known category yields the paths
      of all its subcategories concatenated in declaration order; their number is the
      sum of the subcategories' numbers. */
  lemma GetImagesAll(i: nat, subcategory: Option<string>)
    requires i < |DirectoryStructure| && SelectsAll(subcategory)
    ensures GetImages(DirectoryStructure[i].0, subcategory) ==
              Flatten(Values(CategoryPaths(DirectoryStructure[i].0, DirectoryStructure[i].1)))
    ensures |GetImages(DirectoryStructure[i].0, subcategory)| ==
              TotalLength(Values(CategoryPaths(DirectoryStructure[i].0, DirectoryStructure[i].1)))
  {
    DirectoryStructureWellFormed();
    ImageDataOfWellFormed(DirectoryStructure);
    LookupAt(ImageDataOf(DirectoryStructure), i);
    FlattenLength(Values(CategoryPaths(DirectoryStructure[i].0, DirectoryStructure[i].1)));
  }

  /** The subcategory keys of each category, in declaration order. */
  lemma CatalogSubcategoryKeys()
    ensures Keys(DirectoryStructure[0].1) == ["Chains Bracelets", "Earrings", "Necklaces", "Pendants", "Rings"]
    ensures Keys(DirectoryStructure[1].1) == ["Chains Bracelet Silver", "Loose Gemstones", "Pendants", "Rings"]
    ensures Keys(DirectoryStructure[2].1) == ["All"]
    ensures Keys(DirectoryStructure[3].1) == ["All"]
    ensures Keys(DirectoryStructure[4].1) == ["Gents Watches", "Ladies Watches", "Table Clocks", "Wall Clocks"]
  {
  }

  /** No subcategory of the catalog is called '' or 'all', so each one can be selected
      on its own. */
  lemma SubcategoriesSelectable(i: nat, j: nat)
    requires i < |DirectoryStructure| && j < |DirectoryStructure[i].1|
    ensures !SelectsAll(Some(DirectoryStructure[i].1[j].0))
  {
    CatalogSubcategoryKeys();
    assert DirectoryStructure[i].1[j].0 == Keys(DirectoryStructure[i].1)[j];
    assert i == 0 || i == 1 || i == 2 || i == 3 || i == 4;
  }

  /** A known subcategory yields exactly its own paths, unmodified. */
  lemma GetImagesOfSubcategory(i: nat, j: nat)
    requires i < |DirectoryStructure| && j < |DirectoryStructure[i].1|
    ensures GetImages(DirectoryStructure[i].0, Some(DirectoryStructure[i].1[j].0)) ==
              GetImagesFromDirectory(BasePath(DirectoryStructure[i].0, DirectoryStructure[i].1[j].0),
                                     DirectoryStructure[i].1[j].1)
  {
    SubcategoriesSelectable(i, j);
    DirectoryStructureWellFormed();
    ImageDataOfWellFormed(DirectoryStructure);
    LookupAt(ImageDataOf(DirectoryStructure), i);
    LookupAt(ImageDataOf(DirectoryStructure)[i].1, j);
  }

  /** The categories of the label table are exactly the catalog's, in the same order. */
  lemma CategoriesMatchCatalog()
    ensures GetCategories() == Keys(DirectoryStructure)
  {
  }

  /** Every category label is the key itself, whatever the key. */
  lemma CategoryLabelIsKey(category: string)
    ensures GetCategoryDisplayName(category) == category
  {
    if category in Keys(CategoryDisplayNames) {
      var i :| 0 <= i < |CategoryDisplayNames| && CategoryDisplayNames[i].0 == category;
    }
  }

  /** Every subcategory of the catalog has a label of its own. */
  lemma EverySubcategoryLabelled(i: nat, j: nat)
    requires i < |DirectoryStructure| && j < |DirectoryStructure[i].1|
    ensures DirectoryStructure[i].1[j].0 in Keys(SubcategoryDisplayNames)
  {
    CatalogSubcategoryKeys();
    var labelled := Keys(SubcategoryDisplayNames);
    assert labelled == ["Chains Bracelets", "Chains Bracelet Silver", "Earrings", "Necklaces", "Pendants", "Rings",
                        "Loose Gemstones", "All", "Gents Watches", "Ladies Watches", "Table Clocks", "Wall Clocks"];
    assert forall k | k in Keys(DirectoryStructure[i].1) :: k in labelled;
    assert DirectoryStructure[i].1[j].0 == Keys(DirectoryStructure[i].1)[j];
    assert i == 0 || i == 1 || i == 2 || i == 3 || i == 4;
  }

  /** 'Chains Bracelet Silver' and 'Chains Bracelets' share the label 'Chains & Bracelets'. */
  lemma ChainsLabels()
    ensures GetSubcategoryDisplayName("Chains Bracelet Silver") == "Chains & Bracelets"
    ensures GetSubcategoryDisplayName("Chains Bracelets") == "Chains & Bracelets"
  {
  }
}
