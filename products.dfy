/** The catalog fold `buildProductsFromFiles` of
    src/app/api/yandex/products/route.ts: disk files tagged with a product
    name are grouped into one product each, collecting SKUs, a file count and
    the files sorted into buckets. The disk listing is an input. */
module Products {
  import opened Base

  datatype FileInfo = FileInfo(name: string, preview: string, file: string, size: int, created: string)

  /** A disk item; absent JSON fields are `None`. */
  datatype DiskItem = DiskItem(
    name: string,
    isFile: bool,
    preview: Option<string>,
    file: Option<string>,
    size: Option<int>,
    created: Option<string>,
    customProperties: Option<map<string, string>>)

  datatype Product = Product(
    name: string,
    group: string,
    skus: seq<string>,
    mainPhoto: Option<FileInfo>,
    photos: seq<FileInfo>,
    videos: seq<FileInfo>,
    documents: seq<FileInfo>,
    pngFiles: seq<FileInfo>,
    fileCount: nat)

  // ---------------------------------------------------------------------------
  // Reading one item.

  function PropOf(item: DiskItem, key: string): string {
    Prop(item.customProperties.GetOr(map[]), key)
  }

  function NameOf(item: DiskItem): string { PropOf(item, "Название товара") }
  function SkuOf(item: DiskItem): string { PropOf(item, "SKU") }
  function GroupOf(item: DiskItem): string { PropOf(item, "Группа товаров") }
  function TypeOf(item: DiskItem): string { PropOf(item, "Тип файла") }
  function ContentOf(item: DiskItem): string { PropOf(item, "Тип контента") }

  function InfoOf(item: DiskItem): FileInfo {
    FileInfo(item.name, OrElse(item.preview, ""), OrElse(item.file, ""), Coalesce(item.size, 0), OrElse(item.created, ""))
  }

  /** The items the loop does not `continue` past. */
  predicate Taken(item: DiskItem, contentFilter: string) {
    && item.isFile
    && NameOf(item) != ""
    && !(contentFilter == "Товар" && ContentOf(item) != "Товар" && ContentOf(item) != "")
  }

  /** `name.split('.').pop().toLowerCase()`: the text after the last '.', or the
      whole name when it has none. */
  function Extension(name: string): (r: string)
    ensures LastIndexOf(name, '.') == -1 ==> r == Lower(name)
    ensures LastIndexOf(name, '.') >= 0 ==> |r| == |name| - LastIndexOf(name, '.') - 1
  {
    Lower(name[LastIndexOf(name, '.') + 1..])
  }

  predicate IsImage(ext: string) { ext in ["jpg", "jpeg", "png", "gif", "webp", "bmp"] }
  predicate IsVideo(ext: string) { ext in ["mp4", "avi", "mov", "mkv", "wmv"] }
  predicate IsDocument(ext: string) { ext in ["pdf", "doc", "docx", "xls", "xlsx", "ppt", "pptx"] }

  datatype Bucket = MainPhoto | Photos | Videos | Documents | PngFiles | Unplaced

  predicate ExplicitType(fileType: string) {
    fileType in ["Главное фото", "Фото", "Видео", "Документ", "PNG"]
  }

  /** The files that make a product's main photo set: an explicit
      'Главное фото', or an untyped image other than a png. */
  predicate SetsMain(fileType: string, ext: string) {
    fileType == "Главное фото" || (!ExplicitType(fileType) && IsImage(ext) && ext != "png")
  }

  /** Where a file goes: an explicit 'Тип файла' decides, otherwise the extension. */
  function BucketFor(fileType: string, ext: string, hasMainPhoto: bool): (r: Bucket)
    ensures fileType == "Главное фото" ==> r == MainPhoto
    ensures fileType == "PNG" ==> r == PngFiles
    ensures !ExplicitType(fileType) ==> r != PngFiles
    ensures !ExplicitType(fileType) && r == MainPhoto ==> IsImage(ext) && ext != "png" && !hasMainPhoto
    ensures !ExplicitType(fileType) && r == Unplaced <==> !ExplicitType(fileType) && !IsImage(ext) && !IsVideo(ext) && !IsDocument(ext)
  {
    if fileType == "Главное фото" then MainPhoto
    else if fileType == "Фото" then Photos
    else if fileType == "Видео" then Videos
    else if fileType == "Документ" then Documents
    else if fileType == "PNG" then PngFiles
    else if IsImage(ext) then (if !hasMainPhoto && ext != "png" then MainPhoto else Photos)
    else if IsVideo(ext) then Videos
    else if IsDocument(ext) then Documents
    else Unplaced
  }

  /** The routing rules one by one: each explicit type names its list, an
      untyped image becomes the main photo exactly when none is set and it
      is not a png and otherwise joins the photos, untyped videos and
      documents join their lists, and the main photo is set only by a file
      that sets it. */
  lemma BucketRouting(fileType: string, ext: string, hasMainPhoto: bool)
    ensures var r := BucketFor(fileType, ext, hasMainPhoto);
      && (fileType == "Фото" ==> r == Photos)
      && (fileType == "Видео" ==> r == Videos)
      && (fileType == "Документ" ==> r == Documents)
      && (!ExplicitType(fileType) && IsImage(ext) ==> (r == MainPhoto || r == Photos))
      && (!ExplicitType(fileType) && IsImage(ext) ==> (r == MainPhoto <==> !hasMainPhoto && ext != "png"))
      && (!ExplicitType(fileType) && IsVideo(ext) ==> r == Videos)
      && (!ExplicitType(fileType) && IsDocument(ext) ==> r == Documents)
      && (r == MainPhoto ==> SetsMain(fileType, ext))
      && (SetsMain(fileType, ext) && !hasMainPhoto ==> r == MainPhoto)
  {
  }

  /** Files sitting in the product's lists, the main photo included. */
  function PlacedCount(p: Product): nat {
    |p.photos| + |p.videos| + |p.documents| + |p.pngFiles| + (if p.mainPhoto.Some? then 1 else 0)
  }

  function Place(p: Product, bucket: Bucket, info: FileInfo): (r: Product)
    ensures r.name == p.name && r.group == p.group && r.skus == p.skus && r.fileCount == p.fileCount
    ensures PlacedCount(r) <= PlacedCount(p) + 1
    ensures bucket == Unplaced ==> r == p
    ensures r.mainPhoto == (if bucket == MainPhoto then Some(info) else p.mainPhoto)
    ensures r.photos == p.photos + (if bucket == Photos then [info] else [])
    ensures r.videos == p.videos + (if bucket == Videos then [info] else [])
    ensures r.documents == p.documents + (if bucket == Documents then [info] else [])
    ensures r.pngFiles == p.pngFiles + (if bucket == PngFiles then [info] else [])
  {
    match bucket
    case MainPhoto => p.(mainPhoto := Some(info))
    case Photos => p.(photos := p.photos + [info])
    case Videos => p.(videos := p.videos + [info])
    case Documents => p.(documents := p.documents + [info])
    case PngFiles => p.(pngFiles := p.pngFiles + [info])
    case Unplaced => p
  }

  function NewProduct(name: string, group: string): Product {
    Product(name, group, [], None, [], [], [], [], 0)
  }

  /** The product with one more file counted and its SKU recorded; the
      lists are not touched yet. */
  function Counted(p: Product, item: DiskItem): (r: Product)
    ensures r.name == p.name && r.group == p.group
    ensures r.fileCount == p.fileCount + 1
    ensures r.mainPhoto == p.mainPhoto && r.photos == p.photos && r.videos == p.videos
    ensures r.documents == p.documents && r.pngFiles == p.pngFiles
    ensures SkuOf(item) != "" ==> r.skus == (if SkuOf(item) in p.skus then p.skus else p.skus + [SkuOf(item)])
    ensures SkuOf(item) == "" ==> r.skus == p.skus
  {
    var sku := SkuOf(item);
    var withSku := if sku != "" && sku !in p.skus then p.(skus := p.skus + [sku]) else p;
    withSku.(fileCount := withSku.fileCount + 1)
  }

  /** The product after one more accepted file. */
  function Record(p: Product, item: DiskItem): (r: Product)
    ensures r.name == p.name && r.group == p.group
    ensures r.fileCount == p.fileCount + 1
    ensures PlacedCount(r) <= PlacedCount(p) + 1
    ensures SkuOf(item) != "" ==> r.skus == (if SkuOf(item) in p.skus then p.skus else p.skus + [SkuOf(item)])
    ensures SkuOf(item) == "" ==> r.skus == p.skus
  {
    Place(Counted(p, item), BucketFor(TypeOf(item), Extension(item.name), p.mainPhoto.Some?), InfoOf(item))
  }

  /** One pass of the loop body. */
  function Step(products: map<string, Product>, item: DiskItem, contentFilter: string): map<string, Product> {
    if !Taken(item, contentFilter) then products
    else
      var n := NameOf(item);
      var p := if n in products then products[n] else NewProduct(n, GroupOf(item));
      products[n := Record(p, item)]
  }

  /** The dictionary after the loop has seen `items`. */
  function Catalog(items: seq<DiskItem>, contentFilter: string): map<string, Product> {
    if items == [] then map[]
    else Step(Catalog(items[..|items| - 1], contentFilter), items[|items| - 1], contentFilter)
  }

  /** The calls made to `addProductName` and `addSKU`, in order. */
  function NamesRegistered(items: seq<DiskItem>, contentFilter: string): seq<string> {
    if items == [] then []
    else
      var last := items[|items| - 1];
      NamesRegistered(items[..|items| - 1], contentFilter) + (if Taken(last, contentFilter) then [NameOf(last)] else [])
  }

  function SkusRegistered(items: seq<DiskItem>, contentFilter: string): seq<string> {
    if items == [] then []
    else
      var last := items[|items| - 1];
      SkusRegistered(items[..|items| - 1], contentFilter)
        + (if Taken(last, contentFilter) && SkuOf(last) != "" then [SkuOf(last)] else [])
  }

  /** The accepted files carrying product name `n`. */
  function CountNamed(items: seq<DiskItem>, contentFilter: string, n: string): nat {
    if items == [] then 0
    else
      var last := items[|items| - 1];
      CountNamed(items[..|items| - 1], contentFilter, n) + (if Taken(last, contentFilter) && NameOf(last) == n then 1 else 0)
  }

  // ---------------------------------------------------------------------------
  // The loop.

  /** `buildProductsFromFiles`; `names` and `skus` are the values handed to
      the property store, in call order. */
  method BuildProducts(items: seq<DiskItem>, contentFilter: string)
    returns (products: map<string, Product>, names: seq<string>, skus: seq<string>)
    ensures products == Catalog(items, contentFilter)
    ensures names == NamesRegistered(items, contentFilter)
    ensures skus == SkusRegistered(items, contentFilter)
  {
    products, names, skus := map[], [], [];
    for k := 0 to |items|
      invariant products == Catalog(items[..k], contentFilter)
      invariant names == NamesRegistered(items[..k], contentFilter)
      invariant skus == SkusRegistered(items[..k], contentFilter)
    {
      PrefixStep(items, contentFilter, k);
      var item := items[k];
      if !Taken(item, contentFilter) {
        continue;
      }
      var productName, sku := NameOf(item), SkuOf(item);
      names := names + [productName];
      if sku != "" {
        skus := skus + [sku];
      }
      var product := if productName in products then products[productName] else NewProduct(productName, GroupOf(item));
      products := products[productName := Record(product, item)];
    }
    assert items[..|items|] == items;
  }

  /** The three folds over one more item. */
  lemma PrefixStep(items: seq<DiskItem>, contentFilter: string, k: nat)
    requires k < |items|
    ensures Catalog(items[..k + 1], contentFilter) == Step(Catalog(items[..k], contentFilter), items[k], contentFilter)
    ensures NamesRegistered(items[..k + 1], contentFilter) == NamesRegistered(items[..k], contentFilter)
      + (if Taken(items[k], contentFilter) then [NameOf(items[k])] else [])
    ensures SkusRegistered(items[..k + 1], contentFilter) == SkusRegistered(items[..k], contentFilter)
      + (if Taken(items[k], contentFilter) && SkuOf(items[k]) != "" then [SkuOf(items[k])] else [])
  {
    assert items[..k + 1][..k] == items[..k];
  }

  // ---------------------------------------------------------------------------
  // What the catalog holds.

  /** One product per distinct accepted name, filed under that name. */
  lemma {:induction false} CatalogKeys(items: seq<DiskItem>, contentFilter: string)
    ensures forall n :: n in Catalog(items, contentFilter) <==>
      exists k :: 0 <= k < |items| && Taken(items[k], contentFilter) && NameOf(items[k]) == n
    ensures forall n :: n in Catalog(items, contentFilter) ==> Catalog(items, contentFilter)[n].name == n
  {
    if items != [] {
      var init := items[..|items| - 1];
      CatalogKeys(init, contentFilter);
      assert forall k :: 0 <= k < |init| ==> init[k] == items[k];
    }
  }

  /** Every accepted name is registered, and only those. */
  lemma {:induction false} RegisteredNamesAreKeys(items: seq<DiskItem>, contentFilter: string)
    ensures forall n :: n in NamesRegistered(items, contentFilter) <==> n in Catalog(items, contentFilter)
  {
    if items != [] {
      var init := items[..|items| - 1];
      RegisteredNamesAreKeys(init, contentFilter);
    }
  }

  /** Every non-empty SKU of an accepted file is registered, and nothing else. */
  lemma {:induction false} RegisteredSkus(items: seq<DiskItem>, contentFilter: string)
    ensures forall s :: s in SkusRegistered(items, contentFilter) <==>
      s != "" && exists k :: 0 <= k < |items| && Taken(items[k], contentFilter) && SkuOf(items[k]) == s
  {
    if items != [] {
      var init := items[..|items| - 1];
      RegisteredSkus(init, contentFilter);
      assert forall k :: 0 <= k < |init| ==> init[k] == items[k];
    }
  }

  /** `file_count` is the number of accepted files with that name. */
  lemma {:induction false} CatalogFileCount(items: seq<DiskItem>, contentFilter: string, n: string)
    requires n in Catalog(items, contentFilter)
    ensures Catalog(items, contentFilter)[n].fileCount == CountNamed(items, contentFilter, n)
  {
    var init := items[..|items| - 1];
    var last := items[|items| - 1];
    if n in Catalog(init, contentFilter) {
      CatalogFileCount(init, contentFilter, n);
    } else {
      CountNamedAbsent(init, contentFilter, n);
    }
  }

  lemma {:induction false} CountNamedAbsent(items: seq<DiskItem>, contentFilter: string, n: string)
    requires n !in Catalog(items, contentFilter)
    ensures CountNamed(items, contentFilter, n) == 0
  {
    if items != [] {
      CountNamedAbsent(items[..|items| - 1], contentFilter, n);
    }
  }

  /** A product's SKUs are the non-empty SKUs of its files, each once. */
  lemma {:induction false} CatalogSkus(items: seq<DiskItem>, contentFilter: string, n: string)
    requires n in Catalog(items, contentFilter)
    ensures NoDuplicates(Catalog(items, contentFilter)[n].skus)
    ensures forall s :: s in Catalog(items, contentFilter)[n].skus <==>
      s != "" && exists k :: 0 <= k < |items| && Taken(items[k], contentFilter) && NameOf(items[k]) == n && SkuOf(items[k]) == s
  {
    CatalogSkusDistinct(items, contentFilter, n);
    CatalogSkusMembers(items, contentFilter, n);
  }

  lemma {:induction false} CatalogSkusDistinct(items: seq<DiskItem>, contentFilter: string, n: string)
    requires n in Catalog(items, contentFilter)
    ensures NoDuplicates(Catalog(items, contentFilter)[n].skus)
  {
    var init := items[..|items| - 1];
    if n in Catalog(init, contentFilter) {
      CatalogSkusDistinct(init, contentFilter, n);
    }
  }

  lemma {:induction false} CatalogSkusMembers(items: seq<DiskItem>, contentFilter: string, n: string)
    requires n in Catalog(items, contentFilter)
    ensures forall s :: s in Catalog(items, contentFilter)[n].skus <==>
      s != "" && exists k :: 0 <= k < |items| && Taken(items[k], contentFilter) && NameOf(items[k]) == n && SkuOf(items[k]) == s
  {
    var init := items[..|items| - 1];
    assert forall k :: 0 <= k < |init| ==> init[k] == items[k];
    if n in Catalog(init, contentFilter) {
      CatalogSkusMembers(init, contentFilter, n);
    } else {
      CatalogKeys(init, contentFilter);
    }
  }

  /** One loop pass keeps the group of a known product and takes the file's
      group for a new one. */
  lemma StepGroup(products: map<string, Product>, item: DiskItem, contentFilter: string, n: string)
    requires n in Step(products, item, contentFilter)
    ensures n in products || (Taken(item, contentFilter) && NameOf(item) == n)
    ensures Step(products, item, contentFilter)[n].group == if n in products then products[n].group else GroupOf(item)
  {
  }

  /** `items[k]` is the first accepted file named `n`. */
  predicate FirstNamed(items: seq<DiskItem>, contentFilter: string, n: string, k: int) {
    && 0 <= k < |items| && Taken(items[k], contentFilter) && NameOf(items[k]) == n
    && forall j :: 0 <= j < k ==> !(Taken(items[j], contentFilter) && NameOf(items[j]) == n)
  }

  /** The group is the one of the first accepted file with that name. */
  lemma {:induction false} CatalogGroup(items: seq<DiskItem>, contentFilter: string, n: string)
    requires n in Catalog(items, contentFilter)
    ensures exists k :: FirstNamed(items, contentFilter, n, k) && Catalog(items, contentFilter)[n].group == GroupOf(items[k])
  {
    var init := items[..|items| - 1];
    assert forall k :: 0 <= k < |init| ==> init[k] == items[k];
    CatalogKeys(init, contentFilter);
    StepGroup(Catalog(init, contentFilter), items[|items| - 1], contentFilter, n);
    if n in Catalog(init, contentFilter) {
      CatalogGroup(init, contentFilter, n);
      var k :| FirstNamed(init, contentFilter, n, k) && Catalog(init, contentFilter)[n].group == GroupOf(init[k]);
      assert FirstNamed(items, contentFilter, n, k);
    } else {
      assert FirstNamed(items, contentFilter, n, |items| - 1);
    }
  }

  /** Buckets never hold more files than were counted: files whose extension
      is not recognised are counted but not placed, and a later main photo
      replaces an earlier one. */
  lemma {:induction false} CatalogPlacedWithinCount(items: seq<DiskItem>, contentFilter: string, n: string)
    requires n in Catalog(items, contentFilter)
    ensures PlacedCount(Catalog(items, contentFilter)[n]) <= Catalog(items, contentFilter)[n].fileCount
  {
    var init := items[..|items| - 1];
    if n in Catalog(init, contentFilter) {
      CatalogPlacedWithinCount(init, contentFilter, n);
    }
  }

  /** An explicit 'Главное фото' always becomes the main photo, whatever came before. */
  lemma MainPhotoOverwrites(products: map<string, Product>, item: DiskItem, contentFilter: string)
    requires Taken(item, contentFilter) && TypeOf(item) == "Главное фото"
    ensures Step(products, item, contentFilter)[NameOf(item)].mainPhoto == Some(InfoOf(item))
  {
  }

  /** Without an explicit type, a png image never becomes the main photo. */
  lemma PngIsNeverMainByExtension(p: Product, item: DiskItem)
    requires !ExplicitType(TypeOf(item)) && Extension(item.name) == "png"
    ensures Record(p, item).mainPhoto == p.mainPhoto
  {
  }

  // ---------------------------------------------------------------------------
  // Where each file of a product ends up, stated without the dictionary.

  /** Before position `k`, some accepted file named `n` set the main photo. */
  predicate MainBefore(items: seq<DiskItem>, contentFilter: string, n: string, k: nat)
    requires k <= |items|
  {
    exists j :: 0 <= j < k && Taken(items[j], contentFilter) && NameOf(items[j]) == n
      && SetsMain(TypeOf(items[j]), Extension(items[j].name))
  }

  /** The bucket of `items[k]` within its product. */
  function RouteOf(items: seq<DiskItem>, contentFilter: string, n: string, k: nat): Bucket
    requires k < |items|
  {
    BucketFor(TypeOf(items[k]), Extension(items[k].name), MainBefore(items, contentFilter, n, k))
  }

  /** The accepted files named `n` routed to bucket `b`, in listing order. */
  function Routed(items: seq<DiskItem>, contentFilter: string, n: string, b: Bucket): seq<FileInfo> {
    if items == [] then []
    else
      var k := |items| - 1;
      Routed(items[..k], contentFilter, n, b)
        + (if Taken(items[k], contentFilter) && NameOf(items[k]) == n && RouteOf(items, contentFilter, n, k) == b
           then [InfoOf(items[k])] else [])
  }

  function LastOf(xs: seq<FileInfo>): Option<FileInfo> {
    if xs == [] then None else Some(xs[|xs| - 1])
  }

  /** A name with no product has no routed file and no main photo. */
  lemma {:induction false} RoutedAbsent(items: seq<DiskItem>, contentFilter: string, n: string, b: Bucket)
    requires n !in Catalog(items, contentFilter)
    ensures Routed(items, contentFilter, n, b) == []
    ensures !MainBefore(items, contentFilter, n, |items|)
  {
    CatalogKeys(items, contentFilter);
    if items != [] {
      var init := items[..|items| - 1];
      CatalogKeys(init, contentFilter);
      assert forall k :: 0 <= k < |init| ==> init[k] == items[k];
      RoutedAbsent(init, contentFilter, n, b);
    }
  }

  /** The lists of `p` are the files of `items` routed to them. */
  predicate ListsAre(p: Product, items: seq<DiskItem>, contentFilter: string, n: string) {
    && p.photos == Routed(items, contentFilter, n, Photos)
    && p.videos == Routed(items, contentFilter, n, Videos)
    && p.documents == Routed(items, contentFilter, n, Documents)
    && p.pngFiles == Routed(items, contentFilter, n, PngFiles)
    && p.mainPhoto == LastOf(Routed(items, contentFilter, n, MainPhoto))
    && (p.mainPhoto.Some? <==> MainBefore(items, contentFilter, n, |items|))
  }

  /** Recording a file appends it to the list of its bucket and leaves the
      other lists as they were. */
  lemma RecordPlaces(p: Product, item: DiskItem)
    ensures var r, b := Record(p, item), BucketFor(TypeOf(item), Extension(item.name), p.mainPhoto.Some?);
      && r.photos == p.photos + (if b == Photos then [InfoOf(item)] else [])
      && r.videos == p.videos + (if b == Videos then [InfoOf(item)] else [])
      && r.documents == p.documents + (if b == Documents then [InfoOf(item)] else [])
      && r.pngFiles == p.pngFiles + (if b == PngFiles then [InfoOf(item)] else [])
  {
    var b := BucketFor(TypeOf(item), Extension(item.name), p.mainPhoto.Some?);
    assert Record(p, item) == Place(Counted(p, item), b, InfoOf(item));
  }

  /** The main photo is replaced by a file routed there, and is set
      afterwards iff it was before or the file sets it. */
  lemma RecordMain(p: Product, item: DiskItem)
    ensures var r, b := Record(p, item), BucketFor(TypeOf(item), Extension(item.name), p.mainPhoto.Some?);
      && r.mainPhoto == (if b == MainPhoto then Some(InfoOf(item)) else p.mainPhoto)
      && (r.mainPhoto.Some? <==> p.mainPhoto.Some? || SetsMain(TypeOf(item), Extension(item.name)))
  {
    var b := BucketFor(TypeOf(item), Extension(item.name), p.mainPhoto.Some?);
    assert Record(p, item) == Place(Counted(p, item), b, InfoOf(item));
    BucketRouting(TypeOf(item), Extension(item.name), p.mainPhoto.Some?);
  }

  /** `MainBefore` reads only the items before the position, and grows by
      one item at a time. */
  lemma MainBeforeStep(items: seq<DiskItem>, contentFilter: string, n: string)
    requires items != []
    ensures var k, last := |items| - 1, items[|items| - 1];
      && (MainBefore(items[..k], contentFilter, n, k) <==> MainBefore(items, contentFilter, n, k))
      && (MainBefore(items, contentFilter, n, k + 1) <==> (MainBefore(items, contentFilter, n, k)
          || (Taken(last, contentFilter) && NameOf(last) == n && SetsMain(TypeOf(last), Extension(last.name)))))
  {
    var k := |items| - 1;
    assert forall j :: 0 <= j < k ==> items[..k][j] == items[j];
  }

  /** An item of another product, or one the loop skips, leaves the lists
      in step. */
  lemma ListsSkip(p: Product, items: seq<DiskItem>, contentFilter: string, n: string)
    requires items != []
    requires ListsAre(p, items[..|items| - 1], contentFilter, n)
    requires !(Taken(items[|items| - 1], contentFilter) && NameOf(items[|items| - 1]) == n)
    ensures ListsAre(p, items, contentFilter, n)
  {
    MainBeforeStep(items, contentFilter, n);
    var init := items[..|items| - 1];
    assert forall b :: Routed(items, contentFilter, n, b) == Routed(init, contentFilter, n, b);
  }

  /** An accepted item of the product is recorded in step with its route. */
  lemma ListsRecord(p: Product, items: seq<DiskItem>, contentFilter: string, n: string)
    requires items != []
    requires ListsAre(p, items[..|items| - 1], contentFilter, n)
    requires Taken(items[|items| - 1], contentFilter) && NameOf(items[|items| - 1]) == n
    ensures ListsAre(Record(p, items[|items| - 1]), items, contentFilter, n)
  {
    var k := |items| - 1;
    var last := items[k];
    MainBeforeStep(items, contentFilter, n);
    RecordPlaces(p, last);
    RecordMain(p, last);
    assert RouteOf(items, contentFilter, n, k) == BucketFor(TypeOf(last), Extension(last.name), p.mainPhoto.Some?);
  }

  /** The lists of a product are exactly its routed files, in listing order;
      the main photo is set iff some file of the product set it, and it is
      the last file routed there. */
  lemma {:induction false} CatalogLists(items: seq<DiskItem>, contentFilter: string, n: string)
    requires n in Catalog(items, contentFilter)
    ensures ListsAre(Catalog(items, contentFilter)[n], items, contentFilter, n)
  {
    var init, last := items[..|items| - 1], items[|items| - 1];
    if n in Catalog(init, contentFilter) {
      CatalogLists(init, contentFilter, n);
      if Taken(last, contentFilter) && NameOf(last) == n {
        ListsRecord(Catalog(init, contentFilter)[n], items, contentFilter, n);
      } else {
        ListsSkip(Catalog(init, contentFilter)[n], items, contentFilter, n);
      }
    } else {
      RoutedAbsent(init, contentFilter, n, MainPhoto);
      RoutedAbsent(init, contentFilter, n, Photos);
      RoutedAbsent(init, contentFilter, n, Videos);
      RoutedAbsent(init, contentFilter, n, Documents);
      RoutedAbsent(init, contentFilter, n, PngFiles);
      ListsRecord(NewProduct(n, GroupOf(last)), items, contentFilter, n);
    }
  }
}
