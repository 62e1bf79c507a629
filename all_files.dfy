/** The all-files page (src/app/all-files/page.tsx): the filter pipeline over
    the disk listing, the subcategory reset when the category changes, the
    grouping of the shown files into folders, the folder upload properties,
    deletion and the folder expand toggle. The page state is a class whose
    methods are the handlers; the listing and remote replies are inputs. */
module AllFiles {
  import opened Base

  datatype FileItem = FileItem(name: string, path: string, customProperties: Option<map<string, string>>)

  /** `f.custom_properties?.[key] || ''`. */
  function PropOf(f: FileItem, key: string): string {
    Prop(f.customProperties.GetOr(map[]), key)
  }

  // ---------------------------------------------------------------------------
  // The filter pipeline.

  predicate IsLayout(f: FileItem) {
    PropOf(f, "Тип контента") == "Макет" || PropOf(f, "Тип контента") == ""
  }

  /** A selection filters only when it is non-empty. */
  predicate Admits(selection: seq<string>, value: string) {
    selection == [] || value in selection
  }

  datatype Filters = Filters(category: seq<string>, subcategory: seq<string>, responsible: seq<string>, productGroup: seq<string>)

  predicate Passes(f: FileItem, filters: Filters) {
    && IsLayout(f)
    && Admits(filters.category, PropOf(f, "Категория"))
    && Admits(filters.subcategory, PropOf(f, "Подкатегория"))
    && Admits(filters.responsible, PropOf(f, "Ответственный"))
    && Admits(filters.productGroup, PropOf(f, "Группа товаров"))
  }

  /** The test of one filter: the file's `key` property is among the selected values. */
  function Selects(key: string, selection: seq<string>): FileItem -> bool {
    (f: FileItem) => PropOf(f, key) in selection
  }

  function PassesAll(filters: Filters): FileItem -> bool {
    (f: FileItem) => Passes(f, filters)
  }

  /** `filtered = filtered.filter(...)` once per active filter, in page order. */
  function Visible(files: seq<FileItem>, filters: Filters): seq<FileItem> {
    var layouts := FilterSeq(files, IsLayout);
    var byCategory := if filters.category != [] then FilterSeq(layouts, Selects("Категория", filters.category)) else layouts;
    var bySubcategory := if filters.subcategory != [] then FilterSeq(byCategory, Selects("Подкатегория", filters.subcategory)) else byCategory;
    var byResponsible := if filters.responsible != [] then FilterSeq(bySubcategory, Selects("Ответственный", filters.responsible)) else bySubcategory;
    if filters.productGroup != [] then FilterSeq(byResponsible, Selects("Группа товаров", filters.productGroup)) else byResponsible
  }

  /** The four chained filters act as one filter by the combined test. */
  lemma VisibleIsFilter(files: seq<FileItem>, filters: Filters)
    ensures Visible(files, filters) == FilterSeq(files, PassesAll(filters))
  {
    var p1 := (f: FileItem) => IsLayout(f) && Admits(filters.category, PropOf(f, "Категория"));
    var p2 := (f: FileItem) => p1(f) && Admits(filters.subcategory, PropOf(f, "Подкатегория"));
    var p3 := (f: FileItem) => p2(f) && Admits(filters.responsible, PropOf(f, "Ответственный"));
    Stage(files, IsLayout, filters.category != [], Selects("Категория", filters.category), p1);
    Stage(files, p1, filters.subcategory != [], Selects("Подкатегория", filters.subcategory), p2);
    Stage(files, p2, filters.responsible != [], Selects("Ответственный", filters.responsible), p3);
    Stage(files, p3, filters.productGroup != [], Selects("Группа товаров", filters.productGroup), PassesAll(filters));
  }

  /** The shown files are, in listing order, exactly the layouts passing every
      active filter (a missing property counts as ''). */
  lemma VisibleSpec(files: seq<FileItem>, filters: Filters)
    ensures Visible(files, filters) == FilterSeq(files, PassesAll(filters))
    ensures IsSubsequence(Visible(files, filters), files)
    ensures forall f :: f in Visible(files, filters) <==> f in files && Passes(f, filters)
  {
    VisibleIsFilter(files, filters);
    FilterSeqSpec(files, PassesAll(filters));
  }

  /** One optional filter stage: filtering by `keep` when `on`, whose effect is
      that of the stronger predicate `next`. */
  lemma Stage(files: seq<FileItem>, prev: FileItem -> bool, on: bool, keep: FileItem -> bool, next: FileItem -> bool)
    requires forall f :: next(f) == (prev(f) && (on ==> keep(f)))
    ensures (if on then FilterSeq(FilterSeq(files, prev), keep) else FilterSeq(files, prev)) == FilterSeq(files, next)
  {
    if on {
      FilterSeqCompose(files, prev, keep, next);
    } else {
      FilterSeqSame(files, prev, next);
    }
  }

  /** The `[filterCategory]` effect: with no category the subcategory goes; with
      one, it stays only if listed under the first selected category. */
  function SubcategoryAfter(category: seq<string>, subcategory: seq<string>, subcategories: map<string, seq<string>>): (r: seq<string>)
    ensures r == [] || r == subcategory
    ensures category == [] ==> r == []
    ensures category != [] && subcategory != [] ==>
      (r == subcategory <==> category[0] in subcategories && subcategory[0] in subcategories[category[0]])
  {
    if category == [] then (if subcategory != [] then [] else subcategory)
    else
      var valid := if category[0] in subcategories then subcategories[category[0]] else [];
      if subcategory != [] && subcategory[0] !in valid then [] else subcategory
  }

  // ---------------------------------------------------------------------------
  // Folder grouping.

  function FolderOf(f: FileItem): string { PropOf(f, "Папка") }

  /** The shown files whose folder is `n` (`""` for none), in order. */
  function FolderFiles(files: seq<FileItem>, n: string): seq<FileItem> {
    if files == [] then []
    else
      var last := files[|files| - 1];
      FolderFiles(files[..|files| - 1], n) + (if FolderOf(last) == n then [last] else [])
  }

  /** Each file lands in exactly one place: its folder's group, or the no-folder
      list, and groups keep the listing order. */
  lemma {:induction false} FolderFilesSpec(files: seq<FileItem>, n: string)
    ensures IsSubsequence(FolderFiles(files, n), files)
    ensures forall f :: f in FolderFiles(files, n) <==> f in files && FolderOf(f) == n
    ensures forall f :: multiset(FolderFiles(files, n))[f] == if FolderOf(f) == n then multiset(files)[f] else 0
  {
    if files != [] {
      var init := files[..|files| - 1];
      var last := files[|files| - 1];
      FolderFilesSpec(init, n);
      SubsequenceExtend(FolderFiles(init, n), init, last, FolderOf(last) == n);
      assert init + [last] == files;
      assert multiset(files) == multiset(init) + multiset{last};
    }
  }

  lemma FolderFilesStep(files: seq<FileItem>, k: nat)
    requires k < |files|
    ensures forall n :: FolderFiles(files[..k + 1], n) == FolderFiles(files[..k], n) + (if FolderOf(files[k]) == n then [files[k]] else [])
  {
    assert files[..k + 1][..k] == files[..k];
  }

  lemma NoDuplicatesSnoc(xs: seq<string>, x: string)
    requires NoDuplicates(xs) && x !in xs
    ensures NoDuplicates(xs + [x])
  {
  }

  /** The grouping loop: `filesWithFolder` per truthy folder name (keys in
      first-seen order), the rest in `filesWithoutFolder`. */
  method GroupByFolder(files: seq<FileItem>)
    returns (withFolder: map<string, seq<FileItem>>, folderOrder: seq<string>, without: seq<FileItem>)
    ensures without == FolderFiles(files, "")
    ensures "" !in withFolder
    ensures forall n :: n in withFolder <==> n in folderOrder
    ensures forall n :: n in withFolder ==> withFolder[n] == FolderFiles(files, n) && withFolder[n] != []
    ensures forall n :: n != "" && n !in withFolder ==> FolderFiles(files, n) == []
    ensures NoDuplicates(folderOrder)
  {
    withFolder, folderOrder, without := map[], [], [];
    for k := 0 to |files|
      invariant without == FolderFiles(files[..k], "")
      invariant "" !in withFolder
      invariant forall n :: n in withFolder <==> n in folderOrder
      invariant forall n :: n in withFolder ==> withFolder[n] == FolderFiles(files[..k], n) && withFolder[n] != []
      invariant forall n :: n != "" && n !in withFolder ==> FolderFiles(files[..k], n) == []
      invariant NoDuplicates(folderOrder)
    {
      var file := files[k];
      FolderFilesStep(files, k);
      var folderName := FolderOf(file);
      if folderName != "" {
        var group := if folderName in withFolder then withFolder[folderName] else [];
        if folderName !in withFolder {
          NoDuplicatesSnoc(folderOrder, folderName);
          folderOrder := folderOrder + [folderName];
        }
        withFolder := withFolder[folderName := group + [file]];
      } else {
        without := without + [file];
      }
    }
    assert files[..|files|] == files;
  }

  // ---------------------------------------------------------------------------
  // `Object.keys(filesWithFolder).sort()`: code-unit order of strings.

  predicate StrLeq(a: string, b: string) {
    a == [] || (b != [] && (a[0] < b[0] || (a[0] == b[0] && StrLeq(a[1..], b[1..]))))
  }

  lemma {:induction false} StrLeqTotal(a: string, b: string)
    ensures StrLeq(a, b) || StrLeq(b, a)
  {
    if a != [] && b != [] && a[0] == b[0] {
      StrLeqTotal(a[1..], b[1..]);
    }
  }

  lemma {:induction false} StrLeqTransitive(a: string, b: string, c: string)
    requires StrLeq(a, b) && StrLeq(b, c)
    ensures StrLeq(a, c)
  {
    if a != [] && b != [] && c != [] && a[0] == b[0] && b[0] == c[0] {
      StrLeqTransitive(a[1..], b[1..], c[1..]);
    }
  }

  lemma {:induction false} StrLeqAntisymmetric(a: string, b: string)
    requires StrLeq(a, b) && StrLeq(b, a)
    ensures a == b
  {
    if a != [] && b != [] {
      StrLeqAntisymmetric(a[1..], b[1..]);
      assert a == [a[0]] + a[1..] && b == [b[0]] + b[1..];
    }
  }

  predicate SortedStrings(xs: seq<string>) {
    forall i, j :: 0 <= i < j < |xs| ==> StrLeq(xs[i], xs[j])
  }

  function InsertString(x: string, xs: seq<string>): (r: seq<string>)
    requires SortedStrings(xs)
    ensures SortedStrings(r)
    ensures multiset(r) == multiset(xs) + multiset{x}
  {
    if xs == [] then [x]
    else if StrLeq(x, xs[0]) then
      assert forall j :: 0 < j < |xs| ==> StrLeq(x, xs[j]) by {
        forall j | 0 < j < |xs| ensures StrLeq(x, xs[j]) {
          StrLeqTransitive(x, xs[0], xs[j]);
        }
      }
      assert xs == [xs[0]] + xs[1..];
      [x] + xs
    else
      var rest := InsertString(x, xs[1..]);
      StrLeqTotal(x, xs[0]);
      assert xs == [xs[0]] + xs[1..];
      SmallestFirst(xs);
      assert forall k :: 0 <= k < |rest| ==> StrLeq(xs[0], rest[k]) by {
        forall k | 0 <= k < |rest| ensures StrLeq(xs[0], rest[k]) {
          assert rest[k] in multiset(rest);
        }
      }
      [xs[0]] + rest
  }

  lemma SmallestFirst(xs: seq<string>)
    requires SortedStrings(xs) && xs != []
    ensures forall y :: y in multiset(xs[1..]) ==> StrLeq(xs[0], y)
  {
    forall y | y in multiset(xs[1..]) ensures StrLeq(xs[0], y) {
      var j :| 0 <= j < |xs[1..]| && xs[1..][j] == y;
      assert xs[j + 1] == y;
    }
  }

  /** The default `sort()` on the folder names. */
  function SortStrings(xs: seq<string>): (r: seq<string>)
    ensures SortedStrings(r)
    ensures multiset(r) == multiset(xs)
  {
    if xs == [] then []
    else
      assert xs == [xs[0]] + xs[1..];
      InsertString(xs[0], SortStrings(xs[1..]))
  }

  /** The folder headings: every folder once, in ascending order. */
  method FolderNames(files: seq<FileItem>) returns (names: seq<string>, withFolder: map<string, seq<FileItem>>)
    ensures SortedStrings(names) && NoDuplicates(names)
    ensures forall n :: n in names <==> n in withFolder
    ensures forall n :: n in withFolder ==> withFolder[n] == FolderFiles(files, n)
  {
    var order, without;
    withFolder, order, without := GroupByFolder(files);
    names := SortStrings(order);
    assert forall n :: n in names <==> n in multiset(order);
    forall i, j | 0 <= i < j < |names| ensures names[i] != names[j] {
      if names[i] == names[j] {
        SortedDistinct(order, names, i, j);
      }
    }
  }

  /** A sorted copy of a list without duplicates has none either. */
  lemma SortedDistinct(order: seq<string>, names: seq<string>, i: nat, j: nat)
    requires NoDuplicates(order) && multiset(names) == multiset(order)
    requires i < j < |names|
    ensures names[i] != names[j]
  {
    if names[i] == names[j] {
      var x := names[i];
      assert multiset(names)[x] >= 2 by {
        assert names == names[..i] + [x] + names[i + 1..j] + [x] + names[j + 1..];
      }
      CountAtMostOne(order, x);
    }
  }

  lemma {:induction false} CountAtMostOne(xs: seq<string>, x: string)
    requires NoDuplicates(xs)
    ensures multiset(xs)[x] <= 1
  {
    if xs != [] {
      assert xs == [xs[0]] + xs[1..];
      CountAtMostOne(xs[1..], x);
      if xs[0] == x {
        assert x !in xs[1..];
      }
    }
  }

  // ---------------------------------------------------------------------------
  // Folder upload.

  /** The properties every file added to a folder receives, copied from the
      folder's first file. */
  function FolderUploadProperties(sample: FileItem, folderName: string): (r: map<string, string>)
    ensures r.Keys == {"Тип контента", "Категория", "Подкатегория", "Ответственный", "Группа товаров", "Название товара", "Папка"}
    ensures r["Папка"] == folderName
    ensures r["Тип контента"] == (if PropOf(sample, "Тип контента") == "" then "Макет" else PropOf(sample, "Тип контента"))
    ensures forall key :: key in r && key != "Папка" && key != "Тип контента" ==> r[key] == PropOf(sample, key)
  {
    map[
      "Тип контента" := if PropOf(sample, "Тип контента") == "" then "Макет" else PropOf(sample, "Тип контента"),
      "Категория" := PropOf(sample, "Категория"),
      "Подкатегория" := PropOf(sample, "Подкатегория"),
      "Ответственный" := PropOf(sample, "Ответственный"),
      "Группа товаров" := PropOf(sample, "Группа товаров"),
      "Название товара" := PropOf(sample, "Название товара"),
      "Папка" := folderName
    ]
  }

  /** `handleUploadToFolder`'s entries: nothing without files or without a
      sample; otherwise one entry per file, all with the same properties. */
  function FolderUploadEntries<F>(folderName: string, files: seq<F>, folderFiles: seq<FileItem>): (r: seq<(F, map<string, string>)>)
    ensures files == [] || folderFiles == [] ==> r == []
    ensures files != [] && folderFiles != [] ==> (|r| == |files| &&
      forall k :: 0 <= k < |r| ==> r[k] == (files[k], FolderUploadProperties(folderFiles[0], folderName)))
  {
    if |files| == 0 || |folderFiles| == 0 then []
    else seq(|files|, k requires 0 <= k < |files| => (files[k], FolderUploadProperties(folderFiles[0], folderName)))
  }

  // ---------------------------------------------------------------------------
  // Page state.

  datatype DeleteTarget = DeleteTarget(path: string, name: string)
  datatype Alert = Success(message: string) | Error(message: string)

  class AllFilesView {
    var allFiles: seq<FileItem>
    var selectedFile: Option<FileItem>
    var deleteTarget: Option<DeleteTarget>
    var filters: Filters
    var expandedFolders: set<string>
    /** The 'Подкатегория' record of the property store. */
    var subcategories: map<string, seq<string>>

    constructor(subcategories: map<string, seq<string>>)
      ensures this.subcategories == subcategories
      ensures allFiles == [] && selectedFile.None? && deleteTarget.None?
      ensures filters == Filters([], [], [], []) && expandedFolders == {}
    {
      this.subcategories := subcategories;
      allFiles, selectedFile, deleteTarget := [], None, None;
      filters := Filters([], [], [], []);
      expandedFolders := {};
    }

    /** The list shown (`filteredFiles`). */
    function Shown(): seq<FileItem>
      reads this
    {
      Visible(allFiles, filters)
    }

    /** `setFilterCategory` followed by the effect it triggers. */
    method ChooseCategory(selection: seq<string>)
      modifies this
      ensures filters == old(filters).(category := selection, subcategory := SubcategoryAfter(selection, old(filters).subcategory, subcategories))
      ensures allFiles == old(allFiles) && selectedFile == old(selectedFile) && deleteTarget == old(deleteTarget)
      ensures expandedFolders == old(expandedFolders) && subcategories == old(subcategories)
    {
      filters := filters.(category := selection);
      filters := filters.(subcategory := SubcategoryAfter(selection, filters.subcategory, subcategories));
    }

    /** `handleDelete`; `deleted` is whether the delete request succeeded. */
    method Delete(deleted: bool) returns (alert: Option<Alert>)
      modifies this
      ensures old(deleteTarget).None? ==> alert.None? && allFiles == old(allFiles) && selectedFile == old(selectedFile)
      ensures old(deleteTarget).Some? && deleted ==> var t := old(deleteTarget).value;
        && alert == Some(Success("Файл \"" + t.name + "\" удален"))
        && allFiles == FilterSeq(old(allFiles), (f: FileItem) => f.path != t.path)
        && selectedFile == (if old(selectedFile).Some? && old(selectedFile).value.path == t.path then None else old(selectedFile))
      ensures old(deleteTarget).Some? && !deleted ==>
        alert == Some(Error("Ошибка удаления")) && allFiles == old(allFiles) && selectedFile == old(selectedFile)
      ensures old(deleteTarget).Some? ==> deleteTarget.None?
      ensures old(deleteTarget).None? ==> deleteTarget == old(deleteTarget)
      ensures filters == old(filters) && expandedFolders == old(expandedFolders) && subcategories == old(subcategories)
    {
      if deleteTarget.None? {
        return None;
      }
      var t := deleteTarget.value;
      if deleted {
        alert := Some(Success("Файл \"" + t.name + "\" удален"));
        allFiles := FilterSeq(allFiles, (f: FileItem) => f.path != t.path);
        if selectedFile.Some? && selectedFile.value.path == t.path {
          selectedFile := None;
        }
      } else {
        alert := Some(Error("Ошибка удаления"));
      }
      deleteTarget := None;
    }

    /** The folder header click. */
    method ToggleFolder(folderName: string)
      modifies this
      ensures expandedFolders == if folderName in old(expandedFolders) then old(expandedFolders) - {folderName} else old(expandedFolders) + {folderName}
      ensures allFiles == old(allFiles) && selectedFile == old(selectedFile) && deleteTarget == old(deleteTarget)
      ensures filters == old(filters) && subcategories == old(subcategories)
    {
      var next := expandedFolders;
      if folderName in next {
        next := next - {folderName};
      } else {
        next := next + {folderName};
      }
      expandedFolders := next;
    }
  }

  /** Deleting removes exactly the files at that path and keeps the others in order. */
  lemma DeleteKeepsOthers(files: seq<FileItem>, path: string)
    ensures IsSubsequence(FilterSeq(files, (f: FileItem) => f.path != path), files)
    ensures forall f :: f in FilterSeq(files, (f: FileItem) => f.path != path) <==> f in files && f.path != path
    ensures forall f :: multiset(FilterSeq(files, (f: FileItem) => f.path != path))[f] == if f.path != path then multiset(files)[f] else 0
  {
    FilterSeqSpec(files, (f: FileItem) => f.path != path);
  }

  /** After a category change the shown subcategory is either empty or valid
      for the first selected category. */
  lemma SubcategoryStaysValid(category: seq<string>, subcategory: seq<string>, subcategories: map<string, seq<string>>)
    requires category != []
    ensures var r := SubcategoryAfter(category, subcategory, subcategories);
      r == [] || (category[0] in subcategories && r[0] in subcategories[category[0]])
  {
  }
}
