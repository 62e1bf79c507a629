/** The upload handler of src/app/api/yandex/upload/route.ts: each file gets a
    free name on the disk (renamed on conflict), the `prop_<i>_` form fields
    as its properties, and up to three attempts at setting them. The disk
    listing, the form and every remote reply are inputs. */
module DiskUpload {
  import opened Base

  // ---------------------------------------------------------------------------
  // Renaming on conflict.

  /** `base = name.substring(0, lastIndexOf('.'))`, `ext = name.substring(lastIndexOf('.'))`. */
  function SplitName(name: string): (r: (string, string))
    ensures r.0 + r.1 == name
    ensures LastIndexOf(name, '.') == -1 ==> r == ("", name)
    ensures LastIndexOf(name, '.') >= 0 ==> |r.0| == LastIndexOf(name, '.') && r.1[0] == '.'
  {
    var dot := LastIndexOf(name, '.');
    (JsSubstring(name, 0, dot), JsSubstringFrom(name, dot))
  }

  /** `${base}_${counter}${ext}`. */
  function Candidate(base: string, ext: string, counter: nat): string {
    base + "_" + NatToString(counter) + ext
  }

  /** Distinct counters give distinct names. */
  lemma CandidateInjective(base: string, ext: string, j: nat, k: nat)
    requires Candidate(base, ext, j) == Candidate(base, ext, k)
    ensures j == k
  {
    var c := Candidate(base, ext, j);
    var dj, dk := NatToString(j), NatToString(k);
    assert |dj| == |dk|;
    assert c[|base| + 1..|base| + 1 + |dj|] == dj;
    assert Candidate(base, ext, k)[|base| + 1..|base| + 1 + |dk|] == dk;
    NatToStringInjective(j, k);
  }

  /** Among `|names| + 1` consecutive counters one gives a free name, so the
      renaming loop ends. */
  lemma {:induction false} FreeCandidateExists(names: set<string>, base: string, ext: string, from: nat)
    ensures exists k :: from <= k <= from + |names| && Candidate(base, ext, k) !in names
    decreases |names|
  {
    var c := Candidate(base, ext, from);
    if c in names {
      var rest := names - {c};
      FreeCandidateExists(rest, base, ext, from + 1);
      var k :| from + 1 <= k <= from + 1 + |rest| && Candidate(base, ext, k) !in rest;
      if Candidate(base, ext, k) == c {
        CandidateInjective(base, ext, k, from);
      }
      assert Candidate(base, ext, k) !in names;
    }
  }

  /** `base_k ext` is free and every smaller counter from 1 is taken. */
  predicate LeastFree(fileName: string, name: string, existingNames: seq<string>, k: nat) {
    var (base, ext) := SplitName(name);
    && 1 <= k
    && fileName == Candidate(base, ext, k)
    && fileName !in existingNames
    && forall j :: 1 <= j < k ==> Candidate(base, ext, j) in existingNames
  }

  /** The name a file is stored under: its own unless it is taken under
      'rename', and then the candidate with the least free counter. */
  ghost predicate ChosenName(fileName: string, name: string, action: string, existingNames: seq<string>) {
    if action == "rename" && name in existingNames then exists k: nat :: LeastFree(fileName, name, existingNames, k)
    else fileName == name
  }

  /** The relation leaves no choice: there is one least free counter. */
  lemma ChosenNameUnique(a: string, b: string, name: string, action: string, existingNames: seq<string>)
    requires ChosenName(a, name, action, existingNames) && ChosenName(b, name, action, existingNames)
    ensures a == b
  {
    if action == "rename" && name in existingNames {
      var j: nat :| LeastFree(a, name, existingNames, j);
      var k: nat :| LeastFree(b, name, existingNames, k);
      assert !(j < k) by {
        assert Candidate(SplitName(name).0, SplitName(name).1, j) == a;
      }
      assert !(k < j) by {
        assert Candidate(SplitName(name).0, SplitName(name).1, k) == b;
      }
    }
  }

  /** The name the file is stored under; `suffix` is the counter used, 0 when
      the original name is kept. */
  method ChooseName(name: string, action: string, existingNames: seq<string>) returns (fileName: string, suffix: nat)
    ensures !(action == "rename" && name in existingNames) ==> fileName == name && suffix == 0
    ensures action == "rename" && name in existingNames ==>
      && suffix >= 1
      && fileName == Candidate(SplitName(name).0, SplitName(name).1, suffix)
      && fileName !in existingNames
      && forall j :: 1 <= j < suffix ==> Candidate(SplitName(name).0, SplitName(name).1, j) in existingNames
    ensures action == "rename" ==> fileName !in existingNames
    ensures ChosenName(fileName, name, action, existingNames)
  {
    fileName, suffix := name, 0;
    if action == "rename" && name in existingNames {
      var (base, ext) := SplitName(name);
      ghost var taken := set x | x in existingNames;
      FreeCandidateExists(taken, base, ext, 1);
      ghost var bound :| 1 <= bound <= 1 + |taken| && Candidate(base, ext, bound) !in taken;
      var counter := 1;
      while fileName in existingNames
        invariant 1 <= counter <= bound + 1
        invariant counter == 1 ==> fileName == name
        invariant counter > 1 ==> fileName == Candidate(base, ext, counter - 1)
        invariant forall j :: 1 <= j < counter - 1 ==> Candidate(base, ext, j) in existingNames
        invariant fileName !in existingNames ==> counter > 1
        decreases bound + 1 - counter
      {
        if counter > 1 {
          assert Candidate(base, ext, counter - 1) in existingNames;
        }
        fileName := Candidate(base, ext, counter);
        counter := counter + 1;
      }
      suffix := counter - 1;
      assert LeastFree(fileName, name, existingNames, suffix);
    }
  }

  /** A dotless name is renamed with the counter in front of the whole name
      (`"README"` becomes `"_1README"`): `substring` clamps the -1 index. */
  lemma DotlessRename(name: string, k: nat)
    requires '.' !in name
    ensures Candidate(SplitName(name).0, SplitName(name).1, k) == "_" + NatToString(k) + name
  {
  }

  /** A dotted name keeps its extension: the counter goes before the last '.'. */
  lemma DottedRename(base: string, ext: string, k: nat)
    requires '.' !in ext
    ensures var name := base + "." + ext;
      Candidate(SplitName(name).0, SplitName(name).1, k) == base + "_" + NatToString(k) + "." + ext
  {
    var name := base + "." + ext;
    assert name[|base|] == '.';
    assert forall j :: |base| < j < |name| ==> name[j] == ext[j - |base| - 1];
    assert LastIndexOf(name, '.') == |base|;
    assert name[..|base|] == base;
    assert name[|base|..] == "." + ext;
  }

  // ---------------------------------------------------------------------------
  // Properties of one file.

  datatype FormValue = Text(text: string) | Blob

  const ContentKey := "Тип контента"

  /** The characters a regular-expression `.` does not match. */
  predicate IsLineTerminator(c: char) {
    c == '\n' || c == '\r' || c == '\U{2028}' || c == '\U{2029}'
  }

  /** The capture of `^prop_<i>_(.+)$` in a form key: a match exactly when the
      key is the prefix followed by a non-empty name without line terminators. */
  function PropertyName(key: string, i: nat): (r: Option<string>)
    ensures r.Some? ==> |r.value| > 0 && key == "prop_" + NatToString(i) + "_" + r.value
    ensures r.Some? ==> forall k :: 0 <= k < |r.value| ==> !IsLineTerminator(r.value[k])
  {
    var prefix := "prop_" + NatToString(i) + "_";
    if StartsWith(key, prefix) && |key| > |prefix| && forall k :: |prefix| <= k < |key| ==> !IsLineTerminator(key[k]) then
      assert key == key[..|prefix|] + key[|prefix|..];
      Some(key[|prefix|..])
    else None
  }

  /** Every non-empty name without line terminators is captured back. */
  lemma PropertyNameMatches(n: string, i: nat)
    requires |n| > 0 && forall k :: 0 <= k < |n| ==> !IsLineTerminator(n[k])
    ensures PropertyName("prop_" + NatToString(i) + "_" + n, i) == Some(n)
  {
    var prefix := "prop_" + NatToString(i) + "_";
    var key := prefix + n;
    assert key[..|prefix|] == prefix;
    assert forall k :: |prefix| <= k < |key| ==> key[k] == n[k - |prefix|];
    assert key[|prefix|..] == n;
  }

  /** The map built by the `formData.entries()` loop: a later field overrides an
      earlier one with the same name. */
  function FileProps(entries: seq<(string, FormValue)>, i: nat): map<string, string> {
    if entries == [] then map[]
    else
      var props := FileProps(entries[..|entries| - 1], i);
      var (key, value) := entries[|entries| - 1];
      match PropertyName(key, i)
      case Some(n) => if value.Text? then props[n := value.text] else props
      case None => props
  }

  /** A text field of file `i` that sets property `n`. */
  predicate Sets(entry: (string, FormValue), i: nat, n: string) {
    PropertyName(entry.0, i) == Some(n) && entry.1.Text?
  }

  /** A property is present exactly when some text field of this file names it,
      and it holds the value of the last such field. */
  lemma {:induction false} FilePropsSpec(entries: seq<(string, FormValue)>, i: nat, n: string)
    ensures n in FileProps(entries, i) <==> exists k :: 0 <= k < |entries| && Sets(entries[k], i, n)
    ensures n in FileProps(entries, i) ==>
      exists k :: 0 <= k < |entries| && Sets(entries[k], i, n) && entries[k].1.text == FileProps(entries, i)[n]
        && forall j :: k < j < |entries| ==> !Sets(entries[j], i, n)
  {
    if entries != [] {
      var init := entries[..|entries| - 1];
      FilePropsSpec(init, i, n);
      assert forall k :: 0 <= k < |init| ==> init[k] == entries[k];
    }
  }

  /** The property loop and the content-type override. */
  method CollectProperties(entries: seq<(string, FormValue)>, i: nat, contentType: Option<string>)
    returns (props: map<string, string>)
    ensures props == FileProps(entries, i)[ContentKey := OrElse(contentType, "Макет")]
  {
    props := map[];
    for k := 0 to |entries|
      invariant props == FileProps(entries[..k], i)
    {
      assert entries[..k + 1][..k] == entries[..k];
      var (key, value) := entries[k];
      var n := PropertyName(key, i);
      if n.Some? && value.Text? {
        props := props[n.value := value.text];
      }
    }
    assert entries[..|entries|] == entries;
    props := props[ContentKey := OrElse(contentType, "Макет")];
  }

  // ---------------------------------------------------------------------------
  // Setting properties, at most three times.

  /** The answer of the `attempt`-th `setCustomProperties` call. */
  function Reply(replies: seq<bool>, attempt: nat): bool {
    attempt < |replies| && replies[attempt]
  }

  method SetWithRetry(replies: seq<bool>) returns (propsSet: bool, attempts: nat)
    ensures 1 <= attempts <= 3
    ensures propsSet <==> exists a :: 0 <= a < 3 && Reply(replies, a)
    ensures propsSet ==> Reply(replies, attempts - 1)
    ensures forall a :: 0 <= a < attempts - 1 ==> !Reply(replies, a)
    ensures !propsSet ==> attempts == 3
  {
    propsSet, attempts := false, 0;
    while attempts < 3
      invariant 0 <= attempts <= 3
      invariant forall a :: 0 <= a < attempts ==> !Reply(replies, a)
      invariant !propsSet
    {
      propsSet := Reply(replies, attempts);
      attempts := attempts + 1;
      if propsSet {
        return;
      }
    }
  }

  // ---------------------------------------------------------------------------
  // The request.

  /** What the disk answers for one file: the upload URL, the upload status
      and the successive replies to `setCustomProperties`. */
  datatype Remote = Remote(uploadUrl: Option<string>, uploadStatus: int, propertyReplies: seq<bool>)

  datatype UploadResult =
    | Stored(name: string, original: string, action: string, properties: map<string, string>, propertiesSet: bool,
             note: Option<string>)
    | Refused(name: string, message: string)

  /** The `message` of a stored file whose properties could not be set
      (`note` in the model, since a refusal's message is always present). */
  const PropertiesNotSet := "File uploaded but properties were not set"

  /** `type === 'success'`; the properties always include the content type. */
  predicate Succeeded(r: UploadResult) {
    r.Stored? && (r.propertiesSet || |r.properties| == 0)
  }

  function SuccessCount(results: seq<UploadResult>): (n: nat)
    ensures n <= |results|
  {
    if results == [] then 0
    else SuccessCount(results[..|results| - 1]) + (if Succeeded(results[|results| - 1]) then 1 else 0)
  }

  /** The names pushed onto `existingNames`, in order. */
  function StoredNames(results: seq<UploadResult>): seq<string> {
    if results == [] then []
    else
      var last := results[|results| - 1];
      StoredNames(results[..|results| - 1]) + (if last.Stored? then [last.name] else [])
  }

  datatype UploadResponse =
    | NoFiles(status: nat, error: string)
    | Completed(message: string, results: seq<UploadResult>)

  function Summary(successCount: nat, errorCount: nat): string {
    "Upload complete. Success: " + NatToString(successCount) + ", errors: " + NatToString(errorCount)
  }

  /** The disk accepted the upload. */
  predicate Accepted(status: int) {
    status == 201 || status == 202
  }

  /** Result `j` against file `j` and the disk's replies for it: a refusal
      exactly when there is no upload URL or the upload was not accepted,
      with the message for that case; otherwise the file is stored under its
      chosen name with its properties, set iff one of the three attempts
      succeeded, and carries a note exactly when they were not set. */
  ghost predicate Reports(result: UploadResult, fileName: string, j: nat, action: string,
                    entries: seq<(string, FormValue)>, contentType: Option<string>, existingNames: seq<string>,
                    remote: Remote)
  {
    match result
    case Refused(name, message) =>
      && name == fileName
      && (remote.uploadUrl.None? ==> message == "Failed to get upload URL")
      && (remote.uploadUrl.Some? ==> !Accepted(remote.uploadStatus))
      && (remote.uploadUrl.Some? ==> message == "Upload failed with status " + IntToString(remote.uploadStatus))
    case Stored(name, original, a, props, propertiesSet, note) =>
      && remote.uploadUrl.Some? && Accepted(remote.uploadStatus)
      && original == fileName
      && a == action
      && props == FileProps(entries, j)[ContentKey := OrElse(contentType, "Макет")]
      && ChosenName(name, fileName, action, existingNames)
      && (propertiesSet <==> exists a :: 0 <= a < 3 && Reply(remote.propertyReplies, a))
      && (note.Some? <==> !propertiesSet)
      && (note.Some? ==> note.value == PropertiesNotSet)
  }

  function ActionOf(actions: nat -> Option<string>, i: nat): string {
    OrElse(actions(i), "rename")
  }

  /** One iteration of the file loop. */
  method UploadOne(file: string, i: nat, action: string, existingNames: seq<string>,
                   entries: seq<(string, FormValue)>, contentType: Option<string>, remote: Remote)
    returns (result: UploadResult)
    ensures Reports(result, file, i, action, entries, contentType, existingNames, remote)
    ensures result.Refused? <==> remote.uploadUrl.None? || !Accepted(remote.uploadStatus)
    ensures result.Stored? && action == "rename" ==> result.name !in existingNames
  {
    var fileName, _ := ChooseName(file, action, existingNames);
    var properties := CollectProperties(entries, i, contentType);
    if remote.uploadUrl.None? {
      return Refused(file, "Failed to get upload URL");
    }
    if remote.uploadStatus == 201 || remote.uploadStatus == 202 {
      var propsSet := false;
      if |properties| > 0 {
        var attempts;
        propsSet, attempts := SetWithRetry(remote.propertyReplies);
      }
      var note := if !propsSet && |properties| > 0 then Some(PropertiesNotSet) else None;
      result := Stored(fileName, file, action, properties, propsSet, note);
    } else {
      result := Refused(file, "Upload failed with status " + IntToString(remote.uploadStatus));
    }
  }

  /** `POST`: `files` are the names of the uploaded files, `actions(i)` the
      `actions_<i>` field and `remote(i)` the disk's replies for file `i`. */
  method Upload(files: seq<string>, actions: nat -> Option<string>, entries: seq<(string, FormValue)>,
                contentType: Option<string>, existingNames: seq<string>, remote: nat -> Remote)
    returns (resp: UploadResponse)
    ensures files == [] ==> resp == NoFiles(400, "No files provided")
    ensures files != [] ==> resp.Completed? && |resp.results| == |files|
    ensures resp.Completed? ==>
      && resp.message == Summary(SuccessCount(resp.results), |files| - SuccessCount(resp.results))
      && forall j :: 0 <= j < |files| ==>
           Reports(resp.results[j], files[j], j, ActionOf(actions, j), entries, contentType,
                   existingNames + StoredNames(resp.results[..j]), remote(j))
  {
    if files == [] {
      return NoFiles(400, "No files provided");
    }
    var names := existingNames;
    var results: seq<UploadResult> := [];
    for i := 0 to |files|
      invariant |results| == i
      invariant names == existingNames + StoredNames(results)
      invariant forall j :: 0 <= j < i ==>
        Reports(results[j], files[j], j, ActionOf(actions, j), entries, contentType, existingNames + StoredNames(results[..j]), remote(j))
    {
      results, names := UploadNext(files, actions, entries, contentType, existingNames, remote, results, names);
    }
    resp := Completed(Summary(SuccessCount(results), |results| - SuccessCount(results)), results);
  }

  /** The body of the file loop: file `|results|` is handled against the
      names known so far, its result appended and a stored name added to
      the known names. */
  method UploadNext(files: seq<string>, actions: nat -> Option<string>, entries: seq<(string, FormValue)>,
                    contentType: Option<string>, existingNames: seq<string>, remote: nat -> Remote,
                    results: seq<UploadResult>, names: seq<string>)
    returns (results': seq<UploadResult>, names': seq<string>)
    requires |results| < |files|
    requires names == existingNames + StoredNames(results)
    requires forall j :: 0 <= j < |results| ==>
      Reports(results[j], files[j], j, ActionOf(actions, j), entries, contentType, existingNames + StoredNames(results[..j]), remote(j))
    ensures |results'| == |results| + 1 && results'[..|results|] == results
    ensures names' == existingNames + StoredNames(results')
    ensures forall j :: 0 <= j < |results'| ==>
      Reports(results'[j], files[j], j, ActionOf(actions, j), entries, contentType, existingNames + StoredNames(results'[..j]), remote(j))
  {
    var i := |results|;
    var result := UploadOne(files[i], i, ActionOf(actions, i), names, entries, contentType, remote(i));
    ReportsExtend(results, result, files, actions, entries, contentType, existingNames, remote);
    results' := results + [result];
    names' := if result.Stored? then names + [result.name] else names;
    assert results'[..i] == results;
  }

  /** Appending the result of file `|results|` keeps every earlier report. */
  lemma ReportsExtend(results: seq<UploadResult>, result: UploadResult, files: seq<string>,
                      actions: nat -> Option<string>, entries: seq<(string, FormValue)>,
                      contentType: Option<string>, existingNames: seq<string>, remote: nat -> Remote)
    requires |results| < |files|
    requires forall j :: 0 <= j < |results| ==>
      Reports(results[j], files[j], j, ActionOf(actions, j), entries, contentType, existingNames + StoredNames(results[..j]), remote(j))
    requires Reports(result, files[|results|], |results|, ActionOf(actions, |results|), entries, contentType,
                     existingNames + StoredNames(results), remote(|results|))
    ensures var next := results + [result];
      forall j :: 0 <= j < |next| ==>
        Reports(next[j], files[j], j, ActionOf(actions, j), entries, contentType, existingNames + StoredNames(next[..j]), remote(j))
    ensures StoredNames(results + [result]) == StoredNames(results) + (if result.Stored? then [result.name] else [])
  {
    var next := results + [result];
    assert next[..|results|] == results;
    forall j | 0 <= j < |next|
      ensures Reports(next[j], files[j], j, ActionOf(actions, j), entries, contentType, existingNames + StoredNames(next[..j]), remote(j))
    {
      if j < |results| {
        assert next[..j] == results[..j];
        assert next[j] == results[j];
      }
    }
  }

  /** The success count is the number of results whose type is 'success'. */
  lemma {:induction false} SuccessCountFilter(results: seq<UploadResult>)
    ensures SuccessCount(results) == |FilterSeq(results, Succeeded)|
  {
    if results != [] {
      var init := results[..|results| - 1];
      var last := results[|results| - 1];
      SuccessCountFilter(init);
      assert results == init + [last];
      FilterSeqAppend(init, [last], Succeeded);
    }
  }

  /** Under 'rename' the chosen name is never one of the known names. */
  lemma ChosenNameFresh(fileName: string, name: string, existingNames: seq<string>)
    requires ChosenName(fileName, name, "rename", existingNames)
    ensures fileName !in existingNames
  {
    if name in existingNames {
      var k: nat :| LeastFree(fileName, name, existingNames, k);
    }
  }

  /** When every file of a request is uploaded under 'rename' (the default
      action), the files stored by the loop of `Upload` get pairwise distinct
      names, none of them already on the disk. */
  lemma RenamedNamesDistinct(results: seq<UploadResult>, files: seq<string>, actions: nat -> Option<string>,
                             entries: seq<(string, FormValue)>, contentType: Option<string>,
                             existingNames: seq<string>, remote: nat -> Remote, i: nat, j: nat)
    requires |results| == |files|
    requires forall k :: 0 <= k < |files| ==>
      Reports(results[k], files[k], k, ActionOf(actions, k), entries, contentType,
              existingNames + StoredNames(results[..k]), remote(k))
    requires forall k :: 0 <= k < |files| ==> ActionOf(actions, k) == "rename"
    requires i < j < |results|
    requires results[i].Stored? && results[j].Stored?
    ensures results[j].name !in existingNames
    ensures results[i].name != results[j].name
  {
    var known := existingNames + StoredNames(results[..j]);
    assert Reports(results[j], files[j], j, "rename", entries, contentType, known, remote(j));
    ChosenNameFresh(results[j].name, files[j], known);
    assert results[..j][i] == results[i];
    StoredNamesHas(results[..j], i);
  }

  lemma {:induction false} StoredNamesHas(results: seq<UploadResult>, i: nat)
    requires i < |results| && results[i].Stored?
    ensures results[i].name in StoredNames(results)
  {
    if i < |results| - 1 {
      StoredNamesHas(results[..|results| - 1], i);
    }
  }
}
