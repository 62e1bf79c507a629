/** The file upload page (src/app/upload/page.tsx): the entries made for a
    fresh selection, per-file and shared property edits, the check of the
    required fields before an upload, the alert listing what is missing, and
    the entries handed to the uploader. The uploader itself
    (`uploadFilesWithProgress`) is a parameter that answers with its counts. */
module UploadPage {
  import opened Base

  const ContentType := "Тип контента"
  const Layout := "Макет"
  const FolderKey := "Папка"
  const FolderLabel := "Название папки"
  const AlertHead := "Заполните обязательные поля:"

  const Category := "Категория"
  const Subcategory := "Подкатегория"
  const Responsible := "Ответственный"

  /** The three properties every upload needs, in the order they are checked. */
  const RequiredFields: seq<string> := [Category, Subcategory, Responsible]

  /** The labels folder mode checks, in order. */
  const FolderLabels: seq<string> := [Category, Subcategory, Responsible, FolderLabel]

  /** A picked file; only its name is read here. */
  datatype LocalFile = LocalFile(name: string)

  datatype FileEntry = FileEntry(file: LocalFile, properties: map<string, string>)

  /** The properties of a newly selected file, and the initial shared ones. */
  function DefaultProperties(): (r: map<string, string>)
    ensures r.Keys == {ContentType} && r[ContentType] == Layout
  {
    map[ContentType := Layout]
  }

  // ---------------------------------------------------------------------------
  // Selection and edits.

  /** `handleFilesSelected`: one entry per file, each with only the content type. */
  function FreshEntries(newFiles: seq<LocalFile>): (r: seq<FileEntry>)
    ensures |r| == |newFiles|
    ensures forall k :: 0 <= k < |r| ==> r[k].file == newFiles[k] && r[k].properties == DefaultProperties()
  {
    seq(|newFiles|, k requires 0 <= k < |newFiles| => FileEntry(newFiles[k], DefaultProperties()))
  }

  /** `updateFileProperty`: one key of one entry. */
  function SetFileProperty(entries: seq<FileEntry>, index: nat, key: string, value: string): (r: seq<FileEntry>)
    requires index < |entries|
    ensures |r| == |entries|
    ensures forall k :: 0 <= k < |r| && k != index ==> r[k] == entries[k]
    ensures r[index].file == entries[index].file
    ensures r[index].properties.Keys == entries[index].properties.Keys + {key}
    ensures Prop(r[index].properties, key) == value
    ensures forall other :: other != key ==> Prop(r[index].properties, other) == Prop(entries[index].properties, other)
  {
    entries[index := entries[index].(properties := entries[index].properties[key := value])]
  }

  // ---------------------------------------------------------------------------
  // Required fields.

  /** `!props[key]`: the key is absent or empty. */
  predicate Blank(props: map<string, string>, key: string) {
    Prop(props, key) == ""
  }

  function BlankIn(props: map<string, string>): string -> bool {
    (key: string) => Blank(props, key)
  }

  /** The folder-mode test of a label: the shared properties for the three
      fields, the trimmed folder name for the last one. */
  function FolderGap(shared: map<string, string>, folderName: string): string -> bool {
    (field: string) => if field == FolderLabel then Trim(folderName) == "" else Blank(shared, field)
  }

  /** Folder mode: the labels checked in turn. */
  function FolderMissing(shared: map<string, string>, folderName: string): (r: seq<string>)
    ensures |r| <= 4
  {
    (if Blank(shared, Category) then [Category] else [])
    + (if Blank(shared, Subcategory) then [Subcategory] else [])
    + (if Blank(shared, Responsible) then [Responsible] else [])
    + (if Trim(folderName) == "" then [FolderLabel] else [])
  }

  /** Folder mode reports the missing labels in the fixed order category,
      subcategory, responsible, folder name. */
  lemma FolderMissingSpec(shared: map<string, string>, folderName: string)
    ensures FolderMissing(shared, folderName) == FilterSeq(FolderLabels, FolderGap(shared, folderName))
    ensures IsSubsequence(FolderMissing(shared, folderName), FolderLabels)
    ensures forall field :: field in FolderMissing(shared, folderName) ==> field in FolderLabels
  {
    var gap := FolderGap(shared, folderName);
    FilterFour(Category, Subcategory, Responsible, FolderLabel, gap);
    FilterSeqSpec(FolderLabels, gap);
  }

  lemma LabelsDistinct()
    ensures Category != Subcategory && Category != Responsible && Category != FolderLabel
    ensures Subcategory != Responsible && Subcategory != FolderLabel && Responsible != FolderLabel
  {
    assert |Category| == 9 && |Subcategory| == 12 && |Responsible| == 13 && |FolderLabel| == 14;
  }

  /** Each label is reported exactly when its field is empty. */
  lemma FolderMissingLabels(shared: map<string, string>, folderName: string)
    ensures Category in FolderMissing(shared, folderName) <==> Blank(shared, Category)
    ensures Subcategory in FolderMissing(shared, folderName) <==> Blank(shared, Subcategory)
    ensures Responsible in FolderMissing(shared, folderName) <==> Blank(shared, Responsible)
    ensures FolderLabel in FolderMissing(shared, folderName) <==> Trim(folderName) == ""
  {
    LabelsDistinct();
    InFour(Category, Subcategory, Responsible, FolderLabel,
      Blank(shared, Category), Blank(shared, Subcategory), Blank(shared, Responsible), Trim(folderName) == "");
  }

  lemma InFour<T>(a: T, b: T, c: T, d: T, p: bool, q: bool, r: bool, s: bool)
    requires a != b && a != c && a != d && b != c && b != d && c != d
    ensures var picked := (if p then [a] else []) + (if q then [b] else []) + (if r then [c] else []) + (if s then [d] else []);
      && (a in picked <==> p) && (b in picked <==> q) && (c in picked <==> r) && (d in picked <==> s)
  {
  }

  lemma FilterThree<T>(a: T, b: T, c: T, keep: T -> bool)
    ensures FilterSeq([a, b, c], keep) ==
      (if keep(a) then [a] else []) + (if keep(b) then [b] else []) + (if keep(c) then [c] else [])
  {
    assert [a, b, c] == [a] + [b, c];
    assert [b, c] == [b] + [c];
    assert [c] == [c] + [];
    FilterSeqCons(a, [b, c], keep);
    FilterSeqCons(b, [c], keep);
    FilterSeqCons(c, [], keep);
  }

  lemma FilterFour<T>(a: T, b: T, c: T, d: T, keep: T -> bool)
    ensures FilterSeq([a, b, c, d], keep) ==
      (if keep(a) then [a] else []) + (if keep(b) then [b] else []) + (if keep(c) then [c] else []) + (if keep(d) then [d] else [])
  {
    assert [a, b, c, d] == [a] + [b, c, d];
    FilterSeqCons(a, [b, c, d], keep);
    FilterThree(b, c, d, keep);
  }

  /** `"${name}" - ${field}`. */
  function Label(name: string, field: string): string {
    "\"" + name + "\" - " + field
  }

  function Labels(name: string, fields: seq<string>): (r: seq<string>)
    ensures |r| == |fields|
    ensures forall k :: 0 <= k < |r| ==> r[k] == Label(name, fields[k])
  {
    if fields == [] then [] else [Label(name, fields[0])] + Labels(name, fields[1..])
  }

  lemma LabelsAppend(name: string, xs: seq<string>, ys: seq<string>)
    ensures Labels(name, xs + ys) == Labels(name, xs) + Labels(name, ys)
  {
    var r := Labels(name, xs + ys);
    var t := Labels(name, xs) + Labels(name, ys);
    assert |r| == |t|;
    forall k | 0 <= k < |r| ensures r[k] == t[k] {
      if k < |xs| {
        assert (xs + ys)[k] == xs[k];
      } else {
        assert (xs + ys)[k] == ys[k - |xs|];
      }
    }
  }

  /** The three required fields are all filled in. */
  predicate Complete(props: map<string, string>) {
    !Blank(props, Category) && !Blank(props, Subcategory) && !Blank(props, Responsible)
  }

  /** Per-file mode, one file: the three fields checked in turn. */
  function EntryMissing(e: FileEntry): (r: seq<string>)
    ensures |r| <= 3
    ensures r == [] <==> Complete(e.properties)
  {
    (if Blank(e.properties, Category) then [Label(e.file.name, Category)] else [])
    + (if Blank(e.properties, Subcategory) then [Label(e.file.name, Subcategory)] else [])
    + (if Blank(e.properties, Responsible) then [Label(e.file.name, Responsible)] else [])
  }

  /** A file's messages name it with each of its blank required fields, in
      the fixed field order. */
  lemma EntryMissingSpec(e: FileEntry)
    ensures EntryMissing(e) == Labels(e.file.name, FilterSeq(RequiredFields, BlankIn(e.properties)))
  {
    LabelsFilterThree(e.file.name, Category, Subcategory, Responsible, BlankIn(e.properties));
  }

  lemma LabelsFilterThree(name: string, a: string, b: string, c: string, keep: string -> bool)
    ensures Labels(name, FilterSeq([a, b, c], keep)) ==
      (if keep(a) then [Label(name, a)] else []) + (if keep(b) then [Label(name, b)] else [])
      + (if keep(c) then [Label(name, c)] else [])
  {
    var x := if keep(a) then [a] else [];
    var y := if keep(b) then [b] else [];
    var z := if keep(c) then [c] else [];
    FilterThree(a, b, c, keep);
    LabelsAppend(name, x + y, z);
    LabelsAppend(name, x, y);
  }

  /** `missing.push(message)` when the field is blank. */
  function Push(acc: seq<string>, blank: bool, message: string): seq<string> {
    if blank then acc + [message] else acc
  }

  /** The three checks of one file, pushed onto the messages so far. */
  function Checked(acc: seq<string>, e: FileEntry): seq<string> {
    var name := e.file.name;
    Push(Push(Push(acc, Blank(e.properties, Category), Label(name, Category)),
      Blank(e.properties, Subcategory), Label(name, Subcategory)),
      Blank(e.properties, Responsible), Label(name, Responsible))
  }

  /** Checking a file appends its messages and keeps the earlier ones. */
  lemma CheckedAppends(acc: seq<string>, e: FileEntry)
    ensures Checked(acc, e) == acc + EntryMissing(e)
  {
    var name, props := e.file.name, e.properties;
    PushThree(acc, Blank(props, Category), Blank(props, Subcategory), Blank(props, Responsible),
      Label(name, Category), Label(name, Subcategory), Label(name, Responsible));
  }

  lemma PushThree(acc: seq<string>, p: bool, q: bool, r: bool, x: string, y: string, z: string)
    ensures Push(Push(Push(acc, p, x), q, y), r, z) ==
      acc + ((if p then [x] else []) + (if q then [y] else []) + (if r then [z] else []))
  {
    var u := if p then [x] else [];
    var v := if q then [y] else [];
    var w := if r then [z] else [];
    assert Push(Push(Push(acc, p, x), q, y), r, z) == acc + u + v + w;
    assert acc + u + v + w == acc + (u + v + w);
  }

  /** Per-file mode: the messages of every file, file by file. */
  function FilesMissing(entries: seq<FileEntry>): seq<string>
  {
    if entries == [] then []
    else FilesMissing(entries[..|entries| - 1]) + EntryMissing(entries[|entries| - 1])
  }

  lemma FilesMissingStep(entries: seq<FileEntry>, k: nat)
    requires k < |entries|
    ensures FilesMissing(entries[..k + 1]) == FilesMissing(entries[..k]) + EntryMissing(entries[k])
  {
    assert entries[..k + 1][..k] == entries[..k];
  }

  /** Nothing is reported exactly when every file has all three fields. */
  lemma {:induction false} FilesMissingEmpty(entries: seq<FileEntry>)
    ensures FilesMissing(entries) == [] <==> forall k :: 0 <= k < |entries| ==> Complete(entries[k].properties)
  {
    if entries != [] {
      var init := entries[..|entries| - 1];
      FilesMissingEmpty(init);
      assert forall k :: 0 <= k < |init| ==> init[k] == entries[k];
    }
  }

  /** Every message is one of some file's messages, and each file adds at
      most three. */
  lemma {:induction false} FilesMissingNames(entries: seq<FileEntry>)
    ensures |FilesMissing(entries)| <= 3 * |entries|
    ensures forall m :: m in FilesMissing(entries) ==> exists k :: 0 <= k < |entries| && m in EntryMissing(entries[k])
  {
    if entries != [] {
      var init := entries[..|entries| - 1];
      FilesMissingNames(init);
      forall m | m in FilesMissing(entries)
        ensures exists k :: 0 <= k < |entries| && m in EntryMissing(entries[k])
      {
        if m in FilesMissing(init) {
          var k :| 0 <= k < |init| && m in EntryMissing(init[k]);
          assert init[k] == entries[k];
        } else {
          assert m in EntryMissing(entries[|entries| - 1]);
        }
      }
    }
  }

  /** The check loop of per-file mode. */
  method CollectMissing(entries: seq<FileEntry>) returns (missing: seq<string>)
    ensures missing == FilesMissing(entries)
  {
    missing := [];
    for k := 0 to |entries|
      invariant missing == FilesMissing(entries[..k])
    {
      var entry := entries[k];
      var before := missing;
      if Blank(entry.properties, Category) {
        missing := missing + [Label(entry.file.name, Category)];
      }
      if Blank(entry.properties, Subcategory) {
        missing := missing + [Label(entry.file.name, Subcategory)];
      }
      if Blank(entry.properties, Responsible) {
        missing := missing + [Label(entry.file.name, Responsible)];
      }
      assert missing == Checked(before, entry);
      CheckedAppends(before, entry);
      FilesMissingStep(entries, k);
    }
    assert entries[..|entries|] == entries;
  }

  /** What `handleUpload` reports as missing in the current mode. */
  function Missing(files: seq<FileEntry>, combineInFolder: bool, shared: map<string, string>, folderName: string): seq<string> {
    if combineInFolder then FolderMissing(shared, folderName) else FilesMissing(files)
  }

  // ---------------------------------------------------------------------------
  // The alert.

  /** The lines of the alert: the heading, at most three items, and "..."
      when some were left out. */
  function AlertLines(missing: seq<string>): seq<string> {
    [AlertHead] + missing[..Min(3, |missing|)] + (if |missing| > 3 then ["..."] else [])
  }

  /** The error message for a non-empty list of missing fields. */
  function AlertText(missing: seq<string>): (r: string)
    requires missing != []
  {
    AlertHead + "\n" + Join(missing[..Min(3, |missing|)], '\n') + (if |missing| > 3 then "\n..." else "")
  }

  lemma AlertHeadOneLine()
    ensures '\n' !in AlertHead
  {
  }

  /** The message is its lines joined by newlines. */
  lemma AlertTextJoin(missing: seq<string>)
    requires missing != []
    ensures AlertText(missing) == Join(AlertLines(missing), '\n')
  {
    var shown := missing[..Min(3, |missing|)];
    var lines := [AlertHead] + shown;
    assert lines[1..] == shown;
    assert Join(lines, '\n') == AlertHead + "\n" + Join(shown, '\n');
    if |missing| > 3 {
      JoinSnoc(lines, "...", '\n');
      assert AlertLines(missing) == lines + ["..."];
      assert "\n..." == ['\n'] + "...";
    } else {
      assert AlertLines(missing) == lines;
    }
  }

  /** The alert, for items without a newline, splits back into the heading,
      the first three items, and the ellipsis exactly when more were missing. */
  lemma AlertTextLines(missing: seq<string>)
    requires missing != []
    requires forall k :: 0 <= k < |missing| ==> '\n' !in missing[k]
    ensures Split(AlertText(missing), '\n') == AlertLines(missing)
    ensures |AlertLines(missing)| == 1 + Min(3, |missing|) + (if |missing| > 3 then 1 else 0)
  {
    var all := AlertLines(missing);
    AlertTextJoin(missing);
    AlertHeadOneLine();
    forall k | 0 <= k < |all| ensures '\n' !in all[k] {
      if 1 <= k <= Min(3, |missing|) {
        assert all[k] == missing[k - 1];
      }
    }
    SplitJoin(all, '\n');
  }

  // ---------------------------------------------------------------------------
  // Entries and the upload.

  /** What the uploader receives for one file. */
  datatype UploadEntry = UploadEntry(file: LocalFile, properties: map<string, string>)

  /** The properties every file of a folder upload gets. */
  function FolderProperties(shared: map<string, string>, folderName: string): (r: map<string, string>)
    ensures r.Keys == shared.Keys + {FolderKey}
    ensures r[FolderKey] == Trim(folderName)
    ensures forall key :: key in shared && key != FolderKey ==> r[key] == shared[key]
  {
    shared[FolderKey := Trim(folderName)]
  }

  /** `files.map(...)` in `handleUpload`. */
  function UploadEntries(files: seq<FileEntry>, combineInFolder: bool, shared: map<string, string>, folderName: string): (r: seq<UploadEntry>)
    ensures |r| == |files|
    ensures forall k :: 0 <= k < |r| ==> r[k].file == files[k].file
    ensures combineInFolder ==> forall k :: 0 <= k < |r| ==> r[k].properties == FolderProperties(shared, folderName)
    ensures !combineInFolder ==> forall k :: 0 <= k < |r| ==> r[k].properties == files[k].properties
  {
    seq(|files|, k requires 0 <= k < |files| =>
      UploadEntry(files[k].file, if combineInFolder then FolderProperties(shared, folderName) else files[k].properties))
  }

  /** In folder mode all files land in one folder with the same properties. */
  lemma FolderEntriesAgree(files: seq<FileEntry>, shared: map<string, string>, folderName: string, i: nat, j: nat)
    requires i < |files| && j < |files|
    ensures UploadEntries(files, true, shared, folderName)[i].properties == UploadEntries(files, true, shared, folderName)[j].properties
    ensures Prop(UploadEntries(files, true, shared, folderName)[i].properties, FolderKey) == Trim(folderName)
  {
  }

  /** The uploader's answer: its counts, or a thrown connection error. */
  datatype UploadResult = Finished(successCount: nat, errorCount: nat) | ConnectionFailed

  datatype Alert = Success(message: string) | Error(message: string)

  /** The uploader finished with no failed file: only then is the form reset. */
  predicate Succeeded(result: UploadResult) {
    result.Finished? && result.errorCount == 0
  }

  /** The alert `handleUpload` shows for the uploader's answer. */
  function Outcome(result: UploadResult): (r: Alert)
    ensures r.Success? <==> Succeeded(result)
  {
    match result
    case Finished(ok, 0) => Success("Загружено файлов: " + NatToString(ok))
    case Finished(ok, failed) => Error("Загружено: " + NatToString(ok) + ", ошибок: " + NatToString(failed))
    case ConnectionFailed => Error("Ошибка соединения")
  }

  /** The end of `handleUpload`: the alert for the uploader's answer, and
      whether the form is cleared. */
  method Conclude(result: UploadResult) returns (shown: Alert, reset: bool)
    ensures shown == Outcome(result) && reset == Succeeded(result)
  {
    match result {
      case Finished(ok, failed) =>
        if failed == 0 {
          shown := Success("Загружено файлов: " + NatToString(ok));
        } else {
          shown := Error("Загружено: " + NatToString(ok) + ", ошибок: " + NatToString(failed));
        }
      case ConnectionFailed =>
        shown := Error("Ошибка соединения");
    }
    reset := Succeeded(result);
  }

  /** The validation step of `handleUpload`, in either mode. */
  method CheckRequired(files: seq<FileEntry>, combineInFolder: bool, shared: map<string, string>, folderName: string)
    returns (missing: seq<string>)
    ensures missing == Missing(files, combineInFolder, shared, folderName)
  {
    if combineInFolder {
      missing := FolderMissing(shared, folderName);
    } else {
      missing := CollectMissing(files);
    }
  }

  class UploadForm {
    var files: seq<FileEntry>
    var combineInFolder: bool
    var folderName: string
    var sharedProperties: map<string, string>
    var alert: Option<Alert>
    var uploading: bool

    constructor()
      ensures files == [] && !combineInFolder && folderName == ""
      ensures sharedProperties == DefaultProperties() && alert.None? && !uploading
    {
      files := [];
      combineInFolder := false;
      folderName := "";
      sharedProperties := DefaultProperties();
      alert := None;
      uploading := false;
    }

    method FilesSelected(newFiles: seq<LocalFile>)
      modifies this
      ensures files == FreshEntries(newFiles)
      ensures combineInFolder == old(combineInFolder) && folderName == old(folderName)
      ensures sharedProperties == old(sharedProperties) && alert == old(alert) && uploading == old(uploading)
    {
      files := FreshEntries(newFiles);
    }

    method UpdateFileProperty(index: nat, key: string, value: string)
      modifies this
      requires index < |files|
      ensures files == SetFileProperty(old(files), index, key, value)
      ensures combineInFolder == old(combineInFolder) && folderName == old(folderName)
      ensures sharedProperties == old(sharedProperties) && alert == old(alert) && uploading == old(uploading)
    {
      files := SetFileProperty(files, index, key, value);
    }

    method UpdateSharedProperty(key: string, value: string)
      modifies this
      ensures sharedProperties == old(sharedProperties)[key := value]
      ensures files == old(files) && combineInFolder == old(combineInFolder) && folderName == old(folderName)
      ensures alert == old(alert) && uploading == old(uploading)
    {
      sharedProperties := sharedProperties[key := value];
    }

    method SetCombineInFolder(checked: bool)
      modifies this
      ensures combineInFolder == checked
      ensures files == old(files) && folderName == old(folderName) && sharedProperties == old(sharedProperties)
      ensures alert == old(alert) && uploading == old(uploading)
    {
      combineInFolder := checked;
    }

    method SetFolderName(name: string)
      modifies this
      ensures folderName == name
      ensures files == old(files) && combineInFolder == old(combineInFolder) && sharedProperties == old(sharedProperties)
      ensures alert == old(alert) && uploading == old(uploading)
    {
      folderName := name;
    }

    /** The form's inputs: the files, the mode, the folder name and the
        shared properties. */
    function Inputs(): (seq<FileEntry>, bool, string, map<string, string>)
      reads this
    {
      (files, combineInFolder, folderName, sharedProperties)
    }

    /** The part of `handleUpload` after the check: the entries are built
        and sent, and the answer decides the alert and whether the form is
        cleared. */
    method Submit(send: seq<UploadEntry> -> UploadResult) returns (sent: Option<seq<UploadEntry>>)
      modifies this
      requires !uploading
      ensures !uploading
      ensures sent == Some(UploadEntries(old(files), old(combineInFolder), old(sharedProperties), old(folderName)))
      ensures alert == Some(Outcome(send(sent.value)))
      ensures Inputs() == if Succeeded(send(sent.value)) then ([], false, "", DefaultProperties()) else old(Inputs())
    {
      var entries := UploadEntries(files, combineInFolder, sharedProperties, folderName);
      var result := send(entries);
      uploading := true;
      alert := None;
      sent := Some(entries);
      var shown, reset := Conclude(result);
      alert := Some(shown);
      if reset {
        files := [];
        combineInFolder := false;
        folderName := "";
        sharedProperties := DefaultProperties();
      }
      uploading := false;
    }

    /** `handleUpload`. `send` stands for `uploadFilesWithProgress`; the
        entries sent are returned. */
    method Upload(send: seq<UploadEntry> -> UploadResult) returns (sent: Option<seq<UploadEntry>>)
      modifies this
      requires !uploading
      ensures !uploading
      ensures old(files) == [] ==> sent.None? && unchanged(this)
      ensures var missing := Missing(old(files), old(combineInFolder), old(sharedProperties), old(folderName));
        old(files) != [] && missing != [] ==>
          sent.None? && alert == Some(Error(AlertText(missing))) && Inputs() == old(Inputs())
      ensures old(files) != [] && Missing(old(files), old(combineInFolder), old(sharedProperties), old(folderName)) == [] ==>
        sent == Some(UploadEntries(old(files), old(combineInFolder), old(sharedProperties), old(folderName)))
      ensures sent.Some? ==> alert == Some(Outcome(send(sent.value)))
      ensures sent.Some? ==>
        Inputs() == if Succeeded(send(sent.value)) then ([], false, "", DefaultProperties()) else old(Inputs())
    {
      if |files| == 0 {
        return None;
      }
      var missing := CheckRequired(files, combineInFolder, sharedProperties, folderName);
      if |missing| > 0 {
        alert := Some(Error(AlertText(missing)));
        return None;
      }
      sent := Submit(send);
    }
  }
}
