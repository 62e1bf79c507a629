/** The product creation page (src/app/upload-product/page.tsx): the rows of
    SKUs with optional PNG pictures, the check before submitting, the
    property registrations sent to the properties API, the PNG entries handed
    to the uploader, and the alert and reset that follow. The POST requests
    and the uploader are parameters that say whether each call completed. */
module UploadProduct {
  import opened Base
  import opened UploadPage

  const ProductNameKey := "Название товара"
  const ProductGroupKey := "Группа товаров"
  const SkuKey := "SKU"
  const FileTypeKey := "Тип файла"
  const RequiredMessage := "Заполните все обязательные поля"
  const FailureMessage := "Ошибка создания товара"

  /** One line of the SKU list: the SKU text and the picked PNG, if any. */
  datatype SkuRow = SkuRow(sku: string, pngFile: Option<LocalFile>)

  /** The row a fresh form starts with and "add row" appends. */
  const EmptyRow := SkuRow("", None)

  /** The body of one POST to the properties API. */
  datatype PropertyPost = PropertyPost(propertyType: string, propertyValue: string)

  // ---------------------------------------------------------------------------
  // Rows.

  /** `prev.filter((_, i) => i !== index)`: an index outside the list removes nothing. */
  function WithoutIndex(rows: seq<SkuRow>, index: int): (r: seq<SkuRow>)
    ensures 0 <= index < |rows| ==> |r| == |rows| - 1
    ensures !(0 <= index < |rows|) ==> r == rows
    ensures 0 <= index < |rows| ==> forall j :: 0 <= j < |r| ==> r[j] == (if j < index then rows[j] else rows[j + 1])
  {
    if 0 <= index < |rows| then RemoveAt(rows, index) else rows
  }

  /** `updateSku`: only the indexed row's text changes. */
  function SetSku(rows: seq<SkuRow>, index: nat, value: string): (r: seq<SkuRow>)
    requires index < |rows|
    ensures |r| == |rows| && r[index] == SkuRow(value, rows[index].pngFile)
    ensures forall j :: 0 <= j < |r| && j != index ==> r[j] == rows[j]
  {
    rows[index := rows[index].(sku := value)]
  }

  /** `updatePngFile`: only the indexed row's picture changes. */
  function SetPng(rows: seq<SkuRow>, index: nat, file: Option<LocalFile>): (r: seq<SkuRow>)
    requires index < |rows|
    ensures |r| == |rows| && r[index] == SkuRow(rows[index].sku, file)
    ensures forall j :: 0 <= j < |r| && j != index ==> r[j] == rows[j]
  {
    rows[index := rows[index].(pngFile := file)]
  }

  // ---------------------------------------------------------------------------
  // The check.

  predicate HasSku(row: SkuRow) {
    Trim(row.sku) != ""
  }

  /** The form may be submitted: a non-blank name, a chosen group and at
      least one non-blank SKU. */
  predicate Ready(productName: string, productGroup: string, rows: seq<SkuRow>) {
    Trim(productName) != "" && productGroup != "" && exists k :: 0 <= k < |rows| && HasSku(rows[k])
  }

  // ---------------------------------------------------------------------------
  // Registrations.

  /** The SKU posts, one per row with a non-blank SKU, in row order. */
  function SkuPosts(rows: seq<SkuRow>): seq<PropertyPost> {
    if rows == [] then []
    else
      var last := rows[|rows| - 1];
      SkuPosts(rows[..|rows| - 1]) + (if HasSku(last) then [PropertyPost(SkuKey, Trim(last.sku))] else [])
  }

  /** Everything the submit posts: the trimmed product name, then the SKUs. */
  function Registrations(productName: string, rows: seq<SkuRow>): seq<PropertyPost> {
    [PropertyPost(ProductNameKey, Trim(productName))] + SkuPosts(rows)
  }

  lemma SkuPostsStep(rows: seq<SkuRow>, k: nat)
    requires k < |rows|
    ensures SkuPosts(rows[..k + 1]) ==
      SkuPosts(rows[..k]) + (if HasSku(rows[k]) then [PropertyPost(SkuKey, Trim(rows[k].sku))] else [])
  {
    assert rows[..k + 1][..k] == rows[..k];
  }

  /** The posts for a prefix of the rows are a prefix of the posts for all. */
  lemma {:induction false} SkuPostsPrefix(rows: seq<SkuRow>, k: nat)
    requires k <= |rows|
    ensures SkuPosts(rows[..k]) <= SkuPosts(rows)
    decreases |rows| - k
  {
    if k < |rows| {
      SkuPostsStep(rows, k);
      SkuPostsPrefix(rows, k + 1);
    } else {
      assert rows[..k] == rows;
    }
  }

  /** Every SKU post carries the non-blank trimmed SKU of some row, and
      there is at most one post per row. */
  lemma {:induction false} SkuPostsSound(rows: seq<SkuRow>)
    ensures |SkuPosts(rows)| <= |rows|
    ensures forall p :: p in SkuPosts(rows) ==>
      p.propertyType == SkuKey && exists k :: 0 <= k < |rows| && HasSku(rows[k]) && p.propertyValue == Trim(rows[k].sku)
  {
    if rows != [] {
      var init := rows[..|rows| - 1];
      SkuPostsSound(init);
      forall p | p in SkuPosts(rows)
        ensures p.propertyType == SkuKey && exists k :: 0 <= k < |rows| && HasSku(rows[k]) && p.propertyValue == Trim(rows[k].sku)
      {
        if p in SkuPosts(init) {
          var k :| 0 <= k < |init| && HasSku(init[k]) && p.propertyValue == Trim(init[k].sku);
          assert init[k] == rows[k];
        } else {
          assert HasSku(rows[|rows| - 1]) && p.propertyValue == Trim(rows[|rows| - 1].sku);
        }
      }
    }
  }

  /** Every row with a non-blank SKU is posted. */
  lemma {:induction false} SkuPostsComplete(rows: seq<SkuRow>)
    ensures forall k :: 0 <= k < |rows| && HasSku(rows[k]) ==> PropertyPost(SkuKey, Trim(rows[k].sku)) in SkuPosts(rows)
  {
    if rows != [] {
      var init := rows[..|rows| - 1];
      SkuPostsComplete(init);
      assert forall k :: 0 <= k < |init| ==> init[k] == rows[k];
    }
  }

  /** A form that passes the check registers at least one SKU besides the name. */
  lemma ReadyRegistersSku(productName: string, productGroup: string, rows: seq<SkuRow>)
    requires Ready(productName, productGroup, rows)
    ensures |Registrations(productName, rows)| >= 2
    ensures Registrations(productName, rows)[0] == PropertyPost(ProductNameKey, Trim(productName))
    ensures Registrations(productName, rows)[0].propertyValue != ""
  {
    var k :| 0 <= k < |rows| && HasSku(rows[k]);
    SkuPostsComplete(rows);
  }

  /** The SKU loop of `handleSubmit`: `post` answers whether a request
      completed (false: `fetch` threw, and the loop stops there). */
  method RegisterSkus(rows: seq<SkuRow>, post: PropertyPost -> bool) returns (made: seq<PropertyPost>, ok: bool)
    ensures made <= SkuPosts(rows)
    ensures ok <==> forall i :: 0 <= i < |SkuPosts(rows)| ==> post(SkuPosts(rows)[i])
    ensures ok ==> made == SkuPosts(rows)
    ensures !ok ==> made != [] && !post(made[|made| - 1])
    ensures forall i :: 0 <= i < |made| - 1 ==> post(made[i])
  {
    made := [];
    for k := 0 to |rows|
      invariant made == SkuPosts(rows[..k])
      invariant forall i :: 0 <= i < |made| ==> post(made[i])
    {
      SkuPostsStep(rows, k);
      var sku := Trim(rows[k].sku);
      if sku != "" {
        var p := PropertyPost(SkuKey, sku);
        made := made + [p];
        if !post(p) {
          SkuPostsPrefix(rows, k + 1);
          assert SkuPosts(rows)[|made| - 1] == p;
          return made, false;
        }
      }
    }
    assert rows[..|rows|] == rows;
    ok := true;
  }

  /** The registration requests in the order `handleSubmit` sends them, up
      to the first one that throws. */
  method Register(productName: string, rows: seq<SkuRow>, post: PropertyPost -> bool)
    returns (made: seq<PropertyPost>, ok: bool)
    ensures made <= Registrations(productName, rows)
    ensures ok <==> Registered(productName, rows, post)
    ensures ok ==> made == Registrations(productName, rows)
    ensures !ok ==> made != [] && !post(made[|made| - 1])
    ensures forall i :: 0 <= i < |made| - 1 ==> post(made[i])
  {
    var namePost := PropertyPost(ProductNameKey, Trim(productName));
    if !post(namePost) {
      assert Registrations(productName, rows)[0] == namePost;
      return [namePost], false;
    }
    var skus;
    skus, ok := RegisterSkus(rows, post);
    made := [namePost] + skus;
    var all := Registrations(productName, rows);
    assert forall i :: 1 <= i < |all| ==> all[i] == SkuPosts(rows)[i - 1];
    if !ok {
      var j :| 0 <= j < |SkuPosts(rows)| && !post(SkuPosts(rows)[j]);
      assert !post(all[j + 1]);
    }
  }

  // ---------------------------------------------------------------------------
  // PNG entries.

  /** The properties a product PNG is uploaded with. */
  function PngProperties(productName: string, productGroup: string, sku: string): (r: map<string, string>)
    ensures r.Keys == {ProductNameKey, ProductGroupKey, SkuKey, FileTypeKey}
    ensures r[SkuKey] == Trim(sku) && r[FileTypeKey] == "PNG"
    ensures r[ProductNameKey] == Trim(productName) && r[ProductGroupKey] == productGroup
  {
    map[ProductNameKey := Trim(productName), ProductGroupKey := productGroup, SkuKey := Trim(sku), FileTypeKey := "PNG"]
  }

  predicate Uploadable(row: SkuRow) {
    row.pngFile.Some? && HasSku(row)
  }

  /** One entry per row with both a picture and a non-blank SKU, in row order. */
  function PngEntries(productName: string, productGroup: string, rows: seq<SkuRow>): seq<UploadEntry> {
    if rows == [] then []
    else
      var last := rows[|rows| - 1];
      PngEntries(productName, productGroup, rows[..|rows| - 1])
      + (if Uploadable(last) then [UploadEntry(last.pngFile.value, PngProperties(productName, productGroup, last.sku))] else [])
  }

  lemma PngEntriesStep(productName: string, productGroup: string, rows: seq<SkuRow>, k: nat)
    requires k < |rows|
    ensures PngEntries(productName, productGroup, rows[..k + 1]) ==
      PngEntries(productName, productGroup, rows[..k])
      + (if Uploadable(rows[k]) then [UploadEntry(rows[k].pngFile.value, PngProperties(productName, productGroup, rows[k].sku))] else [])
  {
    assert rows[..k + 1][..k] == rows[..k];
  }

  /** Every entry is a picked PNG of a row with a non-blank SKU, and every
      such row is uploaded. */
  lemma {:induction false} PngEntriesSpec(productName: string, productGroup: string, rows: seq<SkuRow>)
    ensures |PngEntries(productName, productGroup, rows)| <= |rows|
    ensures forall e :: e in PngEntries(productName, productGroup, rows) ==>
      exists k :: 0 <= k < |rows| && Uploadable(rows[k]) && e.file == rows[k].pngFile.value
        && e.properties == PngProperties(productName, productGroup, rows[k].sku)
    ensures forall k :: 0 <= k < |rows| && Uploadable(rows[k]) ==>
      UploadEntry(rows[k].pngFile.value, PngProperties(productName, productGroup, rows[k].sku)) in PngEntries(productName, productGroup, rows)
  {
    if rows != [] {
      var init := rows[..|rows| - 1];
      PngEntriesSpec(productName, productGroup, init);
      assert forall k :: 0 <= k < |init| ==> init[k] == rows[k];
    }
  }

  /** Every uploaded picture's SKU was registered by the same submit. */
  lemma PngSkusRegistered(productName: string, productGroup: string, rows: seq<SkuRow>)
    ensures forall e :: e in PngEntries(productName, productGroup, rows) ==>
      PropertyPost(SkuKey, Prop(e.properties, SkuKey)) in Registrations(productName, rows)
  {
    PngEntriesSpec(productName, productGroup, rows);
    SkuPostsComplete(rows);
    forall e | e in PngEntries(productName, productGroup, rows)
      ensures PropertyPost(SkuKey, Prop(e.properties, SkuKey)) in Registrations(productName, rows)
    {
      var k :| 0 <= k < |rows| && Uploadable(rows[k]) && e.file == rows[k].pngFile.value
        && e.properties == PngProperties(productName, productGroup, rows[k].sku);
      assert PropertyPost(SkuKey, Trim(rows[k].sku)) in SkuPosts(rows);
    }
  }

  /** The entries loop of `handleSubmit`. */
  method CollectEntries(productName: string, productGroup: string, rows: seq<SkuRow>)
    returns (entries: seq<UploadEntry>)
    ensures entries == PngEntries(productName, productGroup, rows)
  {
    entries := [];
    for k := 0 to |rows|
      invariant entries == PngEntries(productName, productGroup, rows[..k])
    {
      PngEntriesStep(productName, productGroup, rows, k);
      var row := rows[k];
      if row.pngFile.Some? && Trim(row.sku) != "" {
        entries := entries + [UploadEntry(row.pngFile.value, PngProperties(productName, productGroup, row.sku))];
      }
    }
    assert rows[..|rows|] == rows;
  }

  // ---------------------------------------------------------------------------
  // The outcome.

  /** The form is cleared unless the uploader threw. */
  predicate Created(answer: Option<UploadResult>) {
    answer != Some(ConnectionFailed)
  }

  /** The alert once the registrations are through: `answer` is the
      uploader's, or None when no PNG was sent. The name in the message is
      the untrimmed one. */
  function Reply(productName: string, answer: Option<UploadResult>): (r: Alert)
    ensures r.Success? ==> Created(answer)
    ensures r.Error? <==> (answer.Some? && (answer.value.ConnectionFailed? || answer.value.errorCount > 0))
  {
    match answer
    case None =>
      Success("Товар \"" + productName + "\" успешно создан! Теперь перейдите на страницу товара для загрузки файлов.")
    case Some(ConnectionFailed) => Error(FailureMessage)
    case Some(Finished(ok, failed)) =>
      if failed > 0 then Error("Товар создан, но загружено PNG: " + NatToString(ok) + ", ошибок: " + NatToString(failed))
      else Success("Товар \"" + productName + "\" успешно создан! Загружено PNG файлов: " + NatToString(ok)
        + ". Загрузите остальные файлы на странице товара.")
  }

  /** Heap-free end of the submit: calls the uploader when there are entries. */
  method Finish(productName: string, entries: seq<UploadEntry>, send: seq<UploadEntry> -> UploadResult)
    returns (sent: Option<seq<UploadEntry>>, shown: Alert, reset: bool)
    ensures sent == (if entries == [] then None else Some(entries))
    ensures shown == Reply(productName, if entries == [] then None else Some(send(entries)))
    ensures reset == Created(if entries == [] then None else Some(send(entries)))
  {
    var answer: Option<UploadResult> := None;
    sent := None;
    if |entries| > 0 {
      sent := Some(entries);
      answer := Some(send(entries));
    }
    shown := Reply(productName, answer);
    reset := Created(answer);
  }

  /** Every registration request completes. */
  predicate Registered(productName: string, rows: seq<SkuRow>, post: PropertyPost -> bool) {
    forall i :: 0 <= i < |Registrations(productName, rows)| ==> post(Registrations(productName, rows)[i])
  }

  /** The body of the `try` in `handleSubmit`, with the `catch`: what was
      posted and sent, the alert, and whether the form is cleared. */
  method Process(productName: string, productGroup: string, rows: seq<SkuRow>,
                 post: PropertyPost -> bool, send: seq<UploadEntry> -> UploadResult)
    returns (made: seq<PropertyPost>, sent: Option<seq<UploadEntry>>, shown: Alert, reset: bool)
    ensures made <= Registrations(productName, rows)
    ensures var entries := PngEntries(productName, productGroup, rows);
      var answer := if entries == [] then None else Some(send(entries));
      if Registered(productName, rows, post) then
        && made == Registrations(productName, rows)
        && sent == (if entries == [] then None else Some(entries))
        && shown == Reply(productName, answer) && reset == Created(answer)
      else
        && made != [] && !post(made[|made| - 1])
        && sent.None? && shown == Error(FailureMessage) && !reset
  {
    var ok;
    made, ok := Register(productName, rows, post);
    if !ok {
      return made, None, Error(FailureMessage), false;
    }
    var entries := CollectEntries(productName, productGroup, rows);
    sent, shown, reset := Finish(productName, entries, send);
  }

  class ProductForm {
    var productName: string
    var productGroup: string
    var skuRows: seq<SkuRow>
    var submitting: bool
    var alert: Option<Alert>

    /** The SKU list is never empty. */
    predicate Valid()
      reads this
    {
      |skuRows| >= 1
    }

    constructor()
      ensures Valid()
      ensures productName == "" && productGroup == "" && skuRows == [EmptyRow]
      ensures !submitting && alert.None?
    {
      productName := "";
      productGroup := "";
      skuRows := [EmptyRow];
      submitting := false;
      alert := None;
    }

    method SetProductName(name: string)
      modifies this
      requires Valid()
      ensures Valid()
      ensures productName == name
      ensures productGroup == old(productGroup) && skuRows == old(skuRows)
      ensures submitting == old(submitting) && alert == old(alert)
    {
      productName := name;
    }

    method SetProductGroup(group: string)
      modifies this
      requires Valid()
      ensures Valid()
      ensures productGroup == group
      ensures productName == old(productName) && skuRows == old(skuRows)
      ensures submitting == old(submitting) && alert == old(alert)
    {
      productGroup := group;
    }

    /** `addSkuRow`. */
    method AddSkuRow()
      modifies this
      requires Valid()
      ensures Valid()
      ensures skuRows == old(skuRows) + [EmptyRow]
      ensures productName == old(productName) && productGroup == old(productGroup)
      ensures submitting == old(submitting) && alert == old(alert)
    {
      skuRows := skuRows + [EmptyRow];
    }

    /** `removeSkuRow`: the last remaining row cannot be removed. */
    method RemoveSkuRow(index: int)
      modifies this
      requires Valid()
      ensures Valid()
      ensures skuRows == if |old(skuRows)| <= 1 then old(skuRows) else WithoutIndex(old(skuRows), index)
      ensures productName == old(productName) && productGroup == old(productGroup)
      ensures submitting == old(submitting) && alert == old(alert)
    {
      if |skuRows| <= 1 {
        return;
      }
      skuRows := WithoutIndex(skuRows, index);
    }

    /** `updateSku`. */
    method UpdateSku(index: nat, value: string)
      modifies this
      requires Valid() && index < |skuRows|
      ensures Valid()
      ensures skuRows == SetSku(old(skuRows), index, value)
      ensures productName == old(productName) && productGroup == old(productGroup)
      ensures submitting == old(submitting) && alert == old(alert)
    {
      skuRows := SetSku(skuRows, index, value);
    }

    /** `updatePngFile`. */
    method UpdatePngFile(index: nat, file: Option<LocalFile>)
      modifies this
      requires Valid() && index < |skuRows|
      ensures Valid()
      ensures skuRows == SetPng(old(skuRows), index, file)
      ensures productName == old(productName) && productGroup == old(productGroup)
      ensures submitting == old(submitting) && alert == old(alert)
    {
      skuRows := SetPng(skuRows, index, file);
    }

    /** The form's inputs: name, group and rows. */
    function Inputs(): (string, string, seq<SkuRow>)
      reads this
    {
      (productName, productGroup, skuRows)
    }

    /** The part of `handleSubmit` after the check: the registrations, the
        PNG upload, the alert and the reset. */
    method Submit(post: PropertyPost -> bool, send: seq<UploadEntry> -> UploadResult)
      returns (made: seq<PropertyPost>, sent: Option<seq<UploadEntry>>)
      modifies this
      requires Valid() && !submitting
      ensures Valid() && !submitting
      ensures made <= Registrations(old(productName), old(skuRows))
      ensures var registered := Registered(old(productName), old(skuRows), post);
        var entries := PngEntries(old(productName), old(productGroup), old(skuRows));
        var answer := if entries == [] then None else Some(send(entries));
        if registered then
          && made == Registrations(old(productName), old(skuRows))
          && sent == (if entries == [] then None else Some(entries))
          && alert == Some(Reply(old(productName), answer))
          && Inputs() == if Created(answer) then ("", "", [EmptyRow]) else old(Inputs())
        else
          && made != [] && !post(made[|made| - 1])
          && sent.None? && alert == Some(Error(FailureMessage)) && Inputs() == old(Inputs())
    {
      submitting := true;
      alert := None;
      var shown, reset;
      made, sent, shown, reset := Process(productName, productGroup, skuRows, post, send);
      alert := Some(shown);
      if reset {
        productName := "";
        productGroup := "";
        skuRows := [EmptyRow];
      }
      submitting := false;
    }

    /** `handleSubmit`: an incomplete form only gets the alert. */
    method HandleSubmit(post: PropertyPost -> bool, send: seq<UploadEntry> -> UploadResult)
      returns (made: seq<PropertyPost>, sent: Option<seq<UploadEntry>>)
      modifies this
      requires Valid() && !submitting
      ensures Valid() && !submitting
      ensures !Ready(old(productName), old(productGroup), old(skuRows)) ==>
        && made == [] && sent.None? && alert == Some(Error(RequiredMessage))
        && productName == old(productName) && productGroup == old(productGroup) && skuRows == old(skuRows)
      ensures Ready(old(productName), old(productGroup), old(skuRows)) ==>
        && |made| >= 1 && made <= Registrations(old(productName), old(skuRows))
        && var registered := Registered(old(productName), old(skuRows), post);
          var entries := PngEntries(old(productName), old(productGroup), old(skuRows));
          var answer := if entries == [] then None else Some(send(entries));
          if registered then
            && made == Registrations(old(productName), old(skuRows))
            && sent == (if entries == [] then None else Some(entries))
            && alert == Some(Reply(old(productName), answer))
            && Inputs() == if Created(answer) then ("", "", [EmptyRow]) else old(Inputs())
          else
            && !post(made[|made| - 1])
            && sent.None? && alert == Some(Error(FailureMessage)) && Inputs() == old(Inputs())
    {
      if Trim(productName) == "" || productGroup == "" || forall k :: 0 <= k < |skuRows| ==> Trim(skuRows[k].sku) == "" {
        alert := Some(Error(RequiredMessage));
        return [], None;
      }
      made, sent := Submit(post, send);
    }
  }
}
