/** The property vocabulary store of src/lib/properties-manager.ts: one list
    of allowed values per property type, plus the category -> subcategory
    record kept under 'Подкатегория'. The JSON file behind
    `loadProperties`/`saveProperties` is the object's state. */
module Properties {
  import opened Base

  const Subcategory := "Подкатегория"
  const ProductName := "Название товара"
  const Sku := "SKU"

  // ---------------------------------------------------------------------------
  // List operations used by the store.

  /** `if (!xs.includes(v)) xs.push(v)`. */
  function AddUnique(xs: seq<string>, v: string): (r: seq<string>)
    ensures v in r
    ensures forall x :: x in r <==> x in xs || x == v
    ensures v in xs ==> r == xs
    ensures v !in xs ==> r == xs + [v]
    ensures NoDuplicates(xs) ==> NoDuplicates(r)
  {
    if v in xs then xs else xs + [v]
  }

  /** `xs[xs.indexOf(oldValue)] = newValue`, refused (`None`) when the old
      value is missing or the new one is already listed. */
  function Rename(xs: seq<string>, oldValue: string, newValue: string): (r: Option<seq<string>>)
    ensures r.None? <==> oldValue !in xs || newValue in xs
    ensures r.Some? ==> var i := FirstIndex(xs, oldValue).value;
      && |r.value| == |xs|
      && r.value[i] == newValue
      && (forall k :: 0 <= k < |xs| && k != i ==> r.value[k] == xs[k])
  {
    match FirstIndex(xs, oldValue)
    case None => None
    case Some(i) => if newValue in xs then None else Some(xs[i := newValue])
  }

  /** A rename never introduces a duplicate. */
  lemma RenameKeepsNoDuplicates(xs: seq<string>, oldValue: string, newValue: string)
    requires NoDuplicates(xs)
    requires Rename(xs, oldValue, newValue).Some?
    ensures NoDuplicates(Rename(xs, oldValue, newValue).value)
    ensures newValue in Rename(xs, oldValue, newValue).value
    ensures oldValue !in Rename(xs, oldValue, newValue).value
  {
    var i := FirstIndex(xs, oldValue).value;
    var r := Rename(xs, oldValue, newValue).value;
    forall k | 0 <= k < |r| ensures r[k] != oldValue {
      if k != i {
        assert xs[k] != xs[i];
      }
    }
  }

  /** `xs.splice(xs.indexOf(v), 1)`, refused (`None`) when `v` is missing. */
  function RemoveFirst(xs: seq<string>, v: string): (r: Option<seq<string>>)
    ensures r.None? <==> v !in xs
    ensures r.Some? ==> var i := FirstIndex(xs, v).value;
      r.value == xs[..i] + xs[i + 1..]
  {
    match FirstIndex(xs, v)
    case None => None
    case Some(i) => Some(xs[..i] + xs[i + 1..])
  }

  /** Deleting takes out exactly one copy of the value. */
  lemma RemoveFirstOneCopy(xs: seq<string>, v: string)
    requires v in xs
    ensures multiset(RemoveFirst(xs, v).value) == multiset(xs) - multiset{v}
    ensures NoDuplicates(xs) ==> v !in RemoveFirst(xs, v).value
  {
    var i := FirstIndex(xs, v).value;
    assert xs == xs[..i] + [xs[i]] + xs[i + 1..];
    if NoDuplicates(xs) {
      var r := RemoveFirst(xs, v).value;
      forall k | 0 <= k < |r| ensures r[k] != v {
        if k < i {
          assert r[k] == xs[k];
        } else {
          assert r[k] == xs[k + 1];
          assert xs[i] != xs[k + 1];
        }
      }
    }
  }

  // ---------------------------------------------------------------------------
  // The store.

  /** `getDefaultProperties()`: the plain lists. */
  function DefaultLists(): map<string, seq<string>> {
    map[
      "Категория" := ["POS", "Web", "Наружная реклама", "Брендирование", "Мерч"],
      "Ответственный" := ["Запутряев", "Каулин", "Садыков", "Искандер", "Раханский", "Соколов", "Казанский"],
      "Группа товаров" := [
        "Масла Моторные", "Масла Трансмиссионные", "Масла 2Т", "Масла 4Т", "Масла ГУР", "Смазки Валера",
        "Смазки Для тормозной системы", "Смазки Для подшипников", "Смазки Силиконовые", "Смазки Вело-мото",
        "Смазки Строительно-бытовые", "Смазки Промышленные", "Очистители двс", "Добавки в масло",
        "Добавки в топливо", "Бытовая химия", "Чистики", "Уголок моториста"],
      "Тип файла" := ["Главное фото", "Фото", "Видео", "Документ", "PNG"],
      "Тип контента" := ["Макет", "Товар"],
      ProductName := [],
      Sku := []
    ]
  }

  /** `getDefaultProperties()`: the subcategory record. */
  function DefaultSubcategories(): map<string, seq<string>> {
    map[
      "POS" := ["Листовка", "Постер", "Буклет", "Каталог"],
      "Web" := ["Баннер", "Видео", "Акции"],
      "Наружная реклама" := ["Баннер"],
      "Брендирование" := ["Авто", "СТО", "ПЗМ"],
      "Мерч" := ["Одежда", "Канцелярия", "Новый год"]
    ]
  }

  /** The subcategory branch is taken only with a non-empty parent category. */
  predicate SubcategoryCall(propertyType: string, parentCategory: Option<string>) {
    propertyType == Subcategory && parentCategory.Some? && parentCategory.value != ""
  }

  class PropertyStore {
    /** Every property type whose value is an array. */
    var lists: map<string, seq<string>>
    /** The record stored under 'Подкатегория'. */
    var subcategories: map<string, seq<string>>

    /** 'Подкатегория' holds a record, never an array. */
    predicate Valid()
      reads this
    {
      Subcategory !in lists
    }

    /** The store `loadProperties` falls back to when the file cannot be read. */
    constructor Defaults()
      ensures Valid()
      ensures lists == DefaultLists() && subcategories == DefaultSubcategories()
    {
      lists := DefaultLists();
      subcategories := DefaultSubcategories();
    }

    constructor(lists: map<string, seq<string>>, subcategories: map<string, seq<string>>)
      requires Subcategory !in lists
      ensures Valid()
      ensures this.lists == lists && this.subcategories == subcategories
    {
      this.lists := lists;
      this.subcategories := subcategories;
    }

    /** `addPropertyValue`: always answers true. A missing parent gets a list
        first; a type without a list is left alone. */
    method AddPropertyValue(propertyType: string, value: string, parentCategory: Option<string>) returns (ok: bool)
      requires Valid()
      modifies this
      ensures Valid() && ok
      ensures SubcategoryCall(propertyType, parentCategory) ==>
        var parent := parentCategory.value;
        && lists == old(lists)
        && subcategories == old(subcategories)[parent := AddUnique(if parent in old(subcategories) then old(subcategories)[parent] else [], value)]
      ensures !SubcategoryCall(propertyType, parentCategory) ==>
        && subcategories == old(subcategories)
        && lists == if propertyType in old(lists) then old(lists)[propertyType := AddUnique(old(lists)[propertyType], value)] else old(lists)
    {
      if SubcategoryCall(propertyType, parentCategory) {
        var parent := parentCategory.value;
        if parent !in subcategories {
          subcategories := subcategories[parent := []];
        }
        subcategories := subcategories[parent := AddUnique(subcategories[parent], value)];
      } else if propertyType in lists {
        lists := lists[propertyType := AddUnique(lists[propertyType], value)];
      }
      return true;
    }

    /** `addProductName`; `thrown` when the store has no 'Название товара' list
        (the handler then fails on `names.includes`). */
    method AddProductName(name: string) returns (thrown: bool)
      requires Valid()
      modifies this
      ensures Valid() && subcategories == old(subcategories)
      ensures thrown <==> ProductName !in old(lists)
      ensures thrown ==> lists == old(lists)
      ensures !thrown ==> lists == old(lists)[ProductName := AddUnique(old(lists)[ProductName], name)]
    {
      if ProductName !in lists {
        return true;
      }
      lists := lists[ProductName := AddUnique(lists[ProductName], name)];
      return false;
    }

    /** `addSKU`: the trimmed SKU is added once; blank input is ignored. */
    method AddSku(sku: string) returns (thrown: bool)
      requires Valid()
      modifies this
      ensures Valid() && subcategories == old(subcategories)
      ensures Trim(sku) == [] ==> !thrown && lists == old(lists)
      ensures Trim(sku) != [] ==> (thrown <==> Sku !in old(lists))
      ensures Trim(sku) != [] && thrown ==> lists == old(lists)
      ensures Trim(sku) != [] && !thrown ==> lists == old(lists)[Sku := AddUnique(old(lists)[Sku], Trim(sku))]
    {
      var trimmed := Trim(sku);
      if trimmed == [] {
        return false;
      }
      if Sku !in lists {
        return true;
      }
      lists := lists[Sku := AddUnique(lists[Sku], trimmed)];
      return false;
    }

    /** `addMultipleSKUs`: `addSKU` for each input in order; an exception ends the loop. */
    method AddMultipleSkus(skus: seq<string>) returns (thrown: bool)
      requires Valid()
      modifies this
      ensures Valid() && subcategories == old(subcategories)
      ensures Sku in old(lists) ==> !thrown && lists == old(lists)[Sku := AddAllSkus(old(lists)[Sku], skus)]
      ensures Sku !in old(lists) ==> lists == old(lists) && (thrown <==> exists k :: 0 <= k < |skus| && Trim(skus[k]) != [])
    {
      var k := 0;
      while k < |skus|
        invariant 0 <= k <= |skus|
        invariant Valid() && subcategories == old(subcategories)
        invariant Sku in old(lists) ==> lists == old(lists)[Sku := AddAllSkus(old(lists)[Sku], skus[..k])]
        invariant Sku !in old(lists) ==> lists == old(lists) && forall j :: 0 <= j < k ==> Trim(skus[j]) == []
      {
        assert skus[..k + 1][..k] == skus[..k];
        thrown := AddSku(skus[k]);
        if thrown {
          return;
        }
        k := k + 1;
      }
      assert skus[..|skus|] == skus;
      return false;
    }

    /** `updatePropertyValue`: true exactly when the rename happened. */
    method UpdatePropertyValue(propertyType: string, oldValue: string, newValue: string, parentCategory: Option<string>)
      returns (ok: bool)
      requires Valid()
      modifies this
      ensures Valid()
      ensures SubcategoryCall(propertyType, parentCategory) ==> var parent := parentCategory.value;
        && lists == old(lists)
        && (ok <==> parent in old(subcategories) && Rename(old(subcategories)[parent], oldValue, newValue).Some?)
        && (ok ==> subcategories == old(subcategories)[parent := Rename(old(subcategories)[parent], oldValue, newValue).value])
        && (!ok ==> subcategories == old(subcategories))
      ensures !SubcategoryCall(propertyType, parentCategory) ==>
        && subcategories == old(subcategories)
        && (ok <==> propertyType in old(lists) && Rename(old(lists)[propertyType], oldValue, newValue).Some?)
        && (ok ==> lists == old(lists)[propertyType := Rename(old(lists)[propertyType], oldValue, newValue).value])
        && (!ok ==> lists == old(lists))
    {
      if SubcategoryCall(propertyType, parentCategory) {
        var parent := parentCategory.value;
        if parent !in subcategories {
          return false;
        }
        var renamed := Rename(subcategories[parent], oldValue, newValue);
        if renamed.None? {
          return false;
        }
        subcategories := subcategories[parent := renamed.value];
      } else {
        if propertyType !in lists {
          return false;
        }
        var renamed := Rename(lists[propertyType], oldValue, newValue);
        if renamed.None? {
          return false;
        }
        lists := lists[propertyType := renamed.value];
      }
      return true;
    }

    /** `deletePropertyValue`: true exactly when a value was removed. */
    method DeletePropertyValue(propertyType: string, value: string, parentCategory: Option<string>) returns (ok: bool)
      requires Valid()
      modifies this
      ensures Valid()
      ensures SubcategoryCall(propertyType, parentCategory) ==> var parent := parentCategory.value;
        && lists == old(lists)
        && (ok <==> parent in old(subcategories) && value in old(subcategories)[parent])
        && (ok ==> subcategories == old(subcategories)[parent := RemoveFirst(old(subcategories)[parent], value).value])
        && (!ok ==> subcategories == old(subcategories))
      ensures !SubcategoryCall(propertyType, parentCategory) ==>
        && subcategories == old(subcategories)
        && (ok <==> propertyType in old(lists) && value in old(lists)[propertyType])
        && (ok ==> lists == old(lists)[propertyType := RemoveFirst(old(lists)[propertyType], value).value])
        && (!ok ==> lists == old(lists))
    {
      if SubcategoryCall(propertyType, parentCategory) {
        var parent := parentCategory.value;
        if parent !in subcategories {
          return false;
        }
        var removed := RemoveFirst(subcategories[parent], value);
        if removed.None? {
          return false;
        }
        subcategories := subcategories[parent := removed.value];
      } else {
        if propertyType !in lists {
          return false;
        }
        var removed := RemoveFirst(lists[propertyType], value);
        if removed.None? {
          return false;
        }
        lists := lists[propertyType := removed.value];
      }
      return true;
    }

    /** `hasSubcategories`: the category has a non-empty list, which is the
        same as `getSubcategoriesForCategory` returning a non-empty list. */
    function HasSubcategories(category: string): (r: bool)
      reads this
      ensures r <==> SubcategoriesFor(category) != []
    {
      category in subcategories && |subcategories[category]| > 0
    }

    /** `getSubcategoriesForCategory`: `subcats[category] || []`. */
    function SubcategoriesFor(category: string): (r: seq<string>)
      reads this
      ensures category !in subcategories ==> r == []
    {
      if category in subcategories then subcategories[category] else []
    }
  }

  /** The SKU list after `addSKU` of each input in turn. */
  function AddAllSkus(list: seq<string>, skus: seq<string>): (r: seq<string>)
    ensures forall x :: x in list ==> x in r
    ensures NoDuplicates(list) ==> NoDuplicates(r)
  {
    if skus == [] then list
    else
      var init := AddAllSkus(list, skus[..|skus| - 1]);
      var t := Trim(skus[|skus| - 1]);
      if t == [] then init else AddUnique(init, t)
  }

  /** Every non-blank input ends up in the list, trimmed. */
  lemma {:induction false} AddAllSkusContains(list: seq<string>, skus: seq<string>, k: nat)
    requires k < |skus| && Trim(skus[k]) != []
    ensures Trim(skus[k]) in AddAllSkus(list, skus)
  {
    if k < |skus| - 1 {
      AddAllSkusContains(list, skus[..|skus| - 1], k);
    }
  }
}
