/** The collection gallery: the selected category and subcategory, the grid of images
    they select out of the items data, and the enlarged-image modal. */
module Collection {
  import opened Optional
  import opened Text
  import opened Assoc

  /** The data of one category in the items file: a flat list of image URLs, or an
      object from subcategory key to a list of image URLs. */
  datatype CategoryData = Flat(images: seq<string>) | Grouped(subcategories: Table<seq<string>>)

  /** The items file: category key to that category's data. Its contents are a
      parameter of the model. */
  type Items = Table<CategoryData>

  /** One tile of the grid: an image URL and its position in the grid. */
  datatype ItemImage = ItemImage(url: string, index: nat)

  /** `urls.map((url, index) => ({ url, index }))`. */
  function Enumerate(urls: seq<string>): (tiles: seq<ItemImage>)
    ensures |tiles| == |urls|
    ensures forall i | 0 <= i < |urls| :: tiles[i] == ItemImage(urls[i], i)
  {
    seq(|urls|, i requires 0 <= i < |urls| => ItemImage(urls[i], i))
  }

  /** The URLs of the tiles, in grid order. */
  function Urls(tiles: seq<ItemImage>): (urls: seq<string>)
    ensures |urls| == |tiles| && forall i | 0 <= i < |tiles| :: urls[i] == tiles[i].url
  {
    seq(|tiles|, i requires 0 <= i < |tiles| => tiles[i].url)
  }

  /** The URLs a subcategory selects out of one category's data: a flat list whatever
      the subcategory; for an object, all lists flattened in order for 'all', the named
      list otherwise, or nothing when it is missing. */
  function SelectedUrls(data: CategoryData, subcategory: string): (urls: seq<string>)
    ensures data.Flat? ==> urls == data.images
    ensures data.Grouped? && subcategory == "all" ==> |urls| == TotalLength(Values(data.subcategories))
    ensures data.Grouped? && subcategory != "all" && subcategory !in Keys(data.subcategories) ==> urls == []
    ensures data.Grouped? ==>
              forall url | url in urls :: exists j | 0 <= j < |data.subcategories| :: url in data.subcategories[j].1
  {
    match data
    case Flat(images) => images
    case Grouped(subs) =>
      if subcategory == "all" then
        var urls := Flatten(Values(subs));
        FlattenLength(Values(subs));
        assert forall url | url in urls :: exists j | 0 <= j < |subs| :: url in subs[j].1 by {
          forall url | url in urls ensures exists j | 0 <= j < |subs| :: url in subs[j].1 {
            FlattenMember(Values(subs), url);
            var j :| 0 <= j < |Values(subs)| && url in Values(subs)[j];
            assert url in subs[j].1;
          }
        }
        urls
      else
        match Lookup(subs, subcategory)
        case None => []
        case Some(images) => images
  }

  /** The tiles of the grid for a selection: empty when the category has no data, and
      otherwise the selected URLs numbered from 0 in order. */
  function GetFilteredImages(items: Items, category: string, subcategory: string): (tiles: seq<ItemImage>)
    ensures category !in Keys(items) ==> tiles == []
    ensures forall i | 0 <= i < |tiles| :: tiles[i].index == i
    ensures Lookup(items, category).Some? ==> Urls(tiles) == SelectedUrls(Lookup(items, category).value, subcategory)
  {
    match Lookup(items, category)
    case None => []
    case Some(data) => Enumerate(SelectedUrls(data, subcategory))
  }

  /** A category given as a flat list shows the whole list, whatever subcategory is
      selected. */
  lemma FlatShowsWholeList(items: Items, k: nat, subcategory: string)
    requires DistinctKeys(items) && k < |items| && items[k].1.Flat?
    ensures Urls(GetFilteredImages(items, items[k].0, subcategory)) == items[k].1.images
  {
    LookupAt(items, k);
  }

  /** A category given as an object shows, for 'all', every subcategory's list
      concatenated in declaration order; there are as many tiles as the lists hold. */
  lemma GroupedAllShowsEverything(items: Items, k: nat)
    requires DistinctKeys(items) && k < |items| && items[k].1.Grouped?
    ensures Urls(GetFilteredImages(items, items[k].0, "all")) == Flatten(Values(items[k].1.subcategories))
    ensures |GetFilteredImages(items, items[k].0, "all")| == TotalLength(Values(items[k].1.subcategories))
  {
    LookupAt(items, k);
    FlattenLength(Values(items[k].1.subcategories));
  }

  /** A category given as an object shows, for a named subcategory, exactly that list,
      and nothing for a subcategory it does not have. */
  lemma GroupedSubcategoryShowsItsList(items: Items, k: nat, subcategory: string)
    requires DistinctKeys(items) && k < |items| && items[k].1.Grouped? && subcategory != "all"
    requires DistinctKeys(items[k].1.subcategories)
    ensures subcategory !in Keys(items[k].1.subcategories) ==> GetFilteredImages(items, items[k].0, subcategory) == []
    ensures forall j | 0 <= j < |items[k].1.subcategories| && items[k].1.subcategories[j].0 == subcategory ::
              Urls(GetFilteredImages(items, items[k].0, subcategory)) == items[k].1.subcategories[j].1
  {
    LookupAt(items, k);
    var subs := items[k].1.subcategories;
    forall j | 0 <= j < |subs| && subs[j].0 == subcategory
      ensures Urls(GetFilteredImages(items, items[k].0, subcategory)) == subs[j].1
    {
      LookupAt(subs, j);
    }
  }

  /** Whatever subcategory is selected, every image shown is also shown under 'all'. */
  lemma ShownUnderAll(items: Items, category: string, subcategory: string, url: string)
    requires url in Urls(GetFilteredImages(items, category, subcategory))
    ensures url in Urls(GetFilteredImages(items, category, "all"))
  {
    var data := Lookup(items, category).value;
    if data.Grouped? && subcategory != "all" {
      var subs := data.subcategories;
      var images := Lookup(subs, subcategory).value;
      var j :| 0 <= j < |subs| && subs[j] == (subcategory, images);
      assert url in Values(subs)[j];
      FlattenMember(Values(subs), url);
    }
  }

  /** A small items file: one category grouped by metal, one flat. */
  const SampleItems: Items := [
    ("Rings", Grouped([("Gold", ["g1.jpg", "g2.jpg"]), ("Silver", ["s1.jpg"])])),
    ("Sunglasses", Flat(["a.jpg", "b.jpg"]))
  ]

  /** On the small items file, 'all' concatenates the groups in order, a group shows
      its own list, an unknown group or category shows nothing, and the flat category
      shows its list whatever the subcategory. */
  lemma SampleSelections()
    ensures Urls(GetFilteredImages(SampleItems, "Rings", "all")) == ["g1.jpg", "g2.jpg", "s1.jpg"]
    ensures Urls(GetFilteredImages(SampleItems, "Rings", "Silver")) == ["s1.jpg"]
    ensures GetFilteredImages(SampleItems, "Rings", "Platinum") == []
    ensures GetFilteredImages(SampleItems, "Necklaces", "all") == []
    ensures Urls(GetFilteredImages(SampleItems, "Sunglasses", "Gold")) == ["a.jpg", "b.jpg"]
  {
    var rings := [("Gold", ["g1.jpg", "g2.jpg"]), ("Silver", ["s1.jpg"])];
    assert Flatten(Values(rings)) == ["g1.jpg", "g2.jpg"] + (["s1.jpg"] + []) by {
      assert Values(rings) == [["g1.jpg", "g2.jpg"], ["s1.jpg"]];
    }
  }

  /** The category navigation: each category key with its subcategory buttons, in
      display order. Every list starts with 'all'. */
  const Categories: Table<seq<string>> := [
    ("Gem & Gold Jewellery",
      ["all", "Chains Bracelets_gold", "Earrings_gold", "Necklaces_gold", "Pendants_gold", "Rings_gold"]),
    ("Gem & Silver Jewellery",
      ["all", "Chains Bracelet silver", "Loose Gemstones_silver", "Pendants_silver", "Rings_silver"]),
    ("Gold-Plated Jewellery", ["all"]),
    ("Sunglasses", ["all"]),
    ("Watches & Clocks", ["all", "Gents Watches", "Ladies Watches"])
  ]

  /** The subcategory buttons offered for a category. */
  function SubcategoryButtons(category: string): (buttons: seq<string>)
    ensures category !in Keys(Categories) ==> buttons == []
    ensures forall i | 0 <= i < |Categories| && Categories[i].0 == category :: buttons == Categories[i].1
  {
    assert DistinctKeys(Categories);
    forall i | 0 <= i < |Categories| {
      LookupAt(Categories, i);
    }
    match Lookup(Categories, category)
    case None => []
    case Some(buttons) => buttons
  }

  /** Every category of the navigation offers 'all'. */
  lemma AllIsOffered(category: string)
    requires category in Keys(Categories)
    ensures "all" in SubcategoryButtons(category)
  {
    var buttons := Lookup(Categories, category).value;
    var i :| 0 <= i < |Categories| && Categories[i] == (category, buttons);
    assert buttons[0] == "all";
  }

  /** The label of a subcategory button: 'All' for 'all', and otherwise the key with
      every underscore turned into a space. */
  function FormatSubcategoryName(subcategory: string): (name: string)
    ensures subcategory == "all" ==> name == "All"
    ensures subcategory != "all" ==> |name| == |subcategory| && '_' !in name
    ensures subcategory != "all" ==>
              forall i | 0 <= i < |subcategory| :: name[i] == if subcategory[i] == '_' then ' ' else subcategory[i]
  {
    if subcategory == "all" then "All" else ReplaceUnderscores(subcategory)
  }

  /** `s.replace(/_/g, ' ')`. */
  function ReplaceUnderscores(s: string): (r: string)
    ensures |r| == |s|
    ensures forall i | 0 <= i < |s| :: r[i] == if s[i] == '_' then ' ' else s[i]
  {
    if s == [] then []
    else [if s[0] == '_' then ' ' else s[0]] + ReplaceUnderscores(s[1..])
  }

  /** The state of the image modal. */
  datatype ModalImage = ModalImage(isOpen: bool, src: string, alt: string)

  const ClosedModal := ModalImage(false, "", "")

  /** The alternative text of the tile at a position: 'Item ' and its 1-based number. */
  function ItemAlt(index: nat): (alt: string)
    ensures |alt| > 5 && alt[..5] == "Item "
    ensures AllDigits(alt[5..]) && alt[5] != '0'
  {
    "Item " + NatToString(index + 1)
  }

  /** The number in a tile's alternative text is its 1-based position, so distinct
      tiles have distinct texts. */
  lemma ItemAltNumbersFromOne(index: nat)
    ensures |ItemAlt(index)| > 5 && AllDigits(ItemAlt(index)[5..])
    ensures DecimalValue(ItemAlt(index)[5..]) == index + 1
  {
    assert ItemAlt(index)[5..] == NatToString(index + 1);
    DecimalValueOfNatToString(index + 1);
  }

  /** The gallery's state: the selection and the modal, over fixed items data. */
  class Gallery {
    const items: Items
    var selectedCategory: string
    var selectedSubcategory: string
    var modalImage: ModalImage

    /** The selection is one the navigation offers: a known category, and one of its
        subcategory buttons. */
    ghost predicate Valid()
      reads this
    {
      selectedCategory in Keys(Categories) && selectedSubcategory in SubcategoryButtons(selectedCategory)
    }

    constructor (items: Items)
      ensures Valid()
      ensures this.items == items
      ensures selectedCategory == "Gem & Gold Jewellery" && selectedSubcategory == "all"
      ensures modalImage == ClosedModal
    {
      this.items := items;
      selectedCategory := "Gem & Gold Jewellery";
      selectedSubcategory := "all";
      modalImage := ClosedModal;
      new;
      assert Keys(Categories)[0] == "Gem & Gold Jewellery";
      AllIsOffered("Gem & Gold Jewellery");
    }

    /** The grid shown for the current selection. */
    function FilteredImages(): (tiles: seq<ItemImage>)
      reads this
      ensures selectedCategory !in Keys(items) ==> tiles == []
      ensures forall i | 0 <= i < |tiles| :: tiles[i].index == i
      ensures Lookup(items, selectedCategory).Some? ==>
                Urls(tiles) == SelectedUrls(Lookup(items, selectedCategory).value, selectedSubcategory)
    {
      GetFilteredImages(items, selectedCategory, selectedSubcategory)
    }

    /** A category button: select it and reset the subcategory to 'all'. */
    method SelectCategory(key: string)
      requires Valid() && key in Keys(Categories)
      modifies this
      ensures Valid()
      ensures selectedCategory == key && selectedSubcategory == "all"
      ensures FilteredImages() == GetFilteredImages(items, key, "all")
      ensures modalImage == old(modalImage)
    {
      selectedCategory := key;
      selectedSubcategory := "all";
      AllIsOffered(key);
    }

    /** A subcategory button of the selected category: select it. */
    method SelectSubcategory(subcategory: string)
      requires Valid() && subcategory in SubcategoryButtons(selectedCategory)
      modifies this
      ensures Valid()
      ensures selectedSubcategory == subcategory
      ensures FilteredImages() == GetFilteredImages(items, old(selectedCategory), subcategory)
      ensures selectedCategory == old(selectedCategory) && modalImage == old(modalImage)
    {
      selectedSubcategory := subcategory;
    }

    /** A tile click: open the modal on the tile's image. */
    method OpenModal(tile: ItemImage)
      requires Valid()
      modifies this
      ensures Valid()
      ensures modalImage == ModalImage(true, tile.url, ItemAlt(tile.index))
      ensures selectedCategory == old(selectedCategory) && selectedSubcategory == old(selectedSubcategory)
    {
      modalImage := ModalImage(true, tile.url, ItemAlt(tile.index));
    }

    /** Closing the modal restores its initial state. */
    method CloseModal()
      requires Valid()
      modifies this
      ensures Valid()
      ensures modalImage == ClosedModal
      ensures selectedCategory == old(selectedCategory) && selectedSubcategory == old(selectedSubcategory)
    {
      modalImage := ClosedModal;
    }
  }
}
