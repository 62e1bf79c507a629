/** src/lib/property-validator.ts: which disk files carry a property value,
    and the rewrite of that value in every file carrying it. The disk
    listing is an input (`None` when `getFiles` fails) and so are the answers
    of `setCustomProperties`. */
module PropertyValidator {
  import opened Base

  datatype DiskFile = DiskFile(name: string, path: string, customProperties: Option<map<string, string>>)

  /** The inner `Object.entries` scan: some entry has this key and value.
      Object keys are unique, so the scan is a lookup. */
  predicate Carries(file: DiskFile, propertyType: string, value: string) {
    file.customProperties.Some? && propertyType in file.customProperties.value
    && file.customProperties.value[propertyType] == value
  }

  /** The files carrying the value, in listing order. */
  function Matching(files: seq<DiskFile>, propertyType: string, value: string): (r: seq<DiskFile>)
    ensures |r| <= |files|
    ensures forall k :: 0 <= k < |r| ==> Carries(r[k], propertyType, value)
  {
    if files == [] then []
    else
      var last := files[|files| - 1];
      Matching(files[..|files| - 1], propertyType, value) + (if Carries(last, propertyType, value) then [last] else [])
  }

  /** Exactly the carrying files are matched, in order. */
  lemma {:induction false} MatchingSpec(files: seq<DiskFile>, propertyType: string, value: string)
    ensures IsSubsequence(Matching(files, propertyType, value), files)
    ensures forall f :: f in Matching(files, propertyType, value) <==> f in files && Carries(f, propertyType, value)
    ensures forall f :: multiset(Matching(files, propertyType, value))[f] == if Carries(f, propertyType, value) then multiset(files)[f] else 0
  {
    if files != [] {
      var init := files[..|files| - 1];
      MatchingSpec(init, propertyType, value);
      SubsequenceExtend(Matching(init, propertyType, value), init, files[|files| - 1], Carries(files[|files| - 1], propertyType, value));
      assert init + [files[|files| - 1]] == files;
      assert multiset(files) == multiset(init) + multiset{files[|files| - 1]};
    }
  }

  function Names(files: seq<DiskFile>): (r: seq<string>)
    ensures |r| == |files| && forall k :: 0 <= k < |files| ==> r[k] == files[k].name
  {
    seq(|files|, k requires 0 <= k < |files| => files[k].name)
  }

  datatype Usage = Usage(isUsed: bool, fileCount: nat, fileNames: seq<string>)

  /** `checkPropertyUsage`. */
  method CheckPropertyUsage(files: Option<seq<DiskFile>>, propertyType: string, value: string) returns (usage: Usage)
    ensures files.None? ==> usage == Usage(false, 0, [])
    ensures files.Some? ==> usage.fileNames == Names(Matching(files.value, propertyType, value))
    ensures usage.fileCount == |usage.fileNames|
    ensures usage.isUsed <==> usage.fileCount > 0
  {
    if files.None? {
      return Usage(false, 0, []);
    }
    var all := files.value;
    var matchingFiles: seq<string> := [];
    for k := 0 to |all|
      invariant matchingFiles == Names(Matching(all[..k], propertyType, value))
    {
      assert all[..k + 1][..k] == all[..k];
      var file := all[k];
      if Carries(file, propertyType, value) {
        matchingFiles := matchingFiles + [file.name];
      }
    }
    assert all[..|all|] == all;
    usage := Usage(|matchingFiles| > 0, |matchingFiles|, matchingFiles);
  }

  // ---------------------------------------------------------------------------
  // `updatePropertyInFiles`.

  datatype UpdateOutcome = UpdateOutcome(success: bool, updatedCount: nat, errors: seq<string>)

  /** A write: the file's path and the full property map sent. */
  datatype Write = Write(path: string, properties: map<string, string>)

  /** `{...properties, [propertyType]: newValue}` for each carrying file. */
  function Writes(files: seq<DiskFile>, propertyType: string, oldValue: string, newValue: string): (r: seq<Write>)
    ensures |r| == |Matching(files, propertyType, oldValue)|
    ensures forall k :: 0 <= k < |r| ==> var f := Matching(files, propertyType, oldValue)[k];
      r[k] == Write(f.path, f.customProperties.value[propertyType := newValue])
  {
    if files == [] then []
    else
      var last := files[|files| - 1];
      Writes(files[..|files| - 1], propertyType, oldValue, newValue)
        + (if Carries(last, propertyType, oldValue)
           then [Write(last.path, last.customProperties.value[propertyType := newValue])] else [])
  }

  /** The carrying files whose write failed, and the number that succeeded. */
  function Failed(files: seq<DiskFile>, propertyType: string, oldValue: string, replies: nat -> Option<bool>): seq<string> {
    if files == [] then []
    else
      var last := files[|files| - 1];
      Failed(files[..|files| - 1], propertyType, oldValue, replies)
        + (if Carries(last, propertyType, oldValue) && replies(|files| - 1) != Some(true) then [last.name] else [])
  }

  function Updated(files: seq<DiskFile>, propertyType: string, oldValue: string, replies: nat -> Option<bool>): nat {
    if files == [] then 0
    else
      var last := files[|files| - 1];
      Updated(files[..|files| - 1], propertyType, oldValue, replies)
        + (if Carries(last, propertyType, oldValue) && replies(|files| - 1) == Some(true) then 1 else 0)
  }

  /** Each carrying file is either updated or reported, never both. */
  lemma {:induction false} UpdatedPlusFailed(files: seq<DiskFile>, propertyType: string, oldValue: string, replies: nat -> Option<bool>)
    ensures Updated(files, propertyType, oldValue, replies) + |Failed(files, propertyType, oldValue, replies)|
      == |Matching(files, propertyType, oldValue)|
  {
    if files != [] {
      UpdatedPlusFailed(files[..|files| - 1], propertyType, oldValue, replies);
    }
  }

  /** A write changes the renamed property and nothing else. */
  lemma WriteTouchesOneKey(files: seq<DiskFile>, propertyType: string, oldValue: string, newValue: string, k: nat)
    requires k < |Writes(files, propertyType, oldValue, newValue)|
    ensures var w := Writes(files, propertyType, oldValue, newValue)[k];
      var f := Matching(files, propertyType, oldValue)[k];
      && f in files && Carries(f, propertyType, oldValue)
      && w.properties.Keys == f.customProperties.value.Keys
      && w.properties[propertyType] == newValue
      && forall key :: key in w.properties && key != propertyType ==> w.properties[key] == f.customProperties.value[key]
  {
    MatchingSpec(files, propertyType, oldValue);
    var f := Matching(files, propertyType, oldValue)[k];
    assert f in Matching(files, propertyType, oldValue);
  }

  /** What `updatePropertyInFiles` returns from its `catch`. */
  const SystemError := UpdateOutcome(false, 0, ["System error occurred"])

  /** The write for file `k` is the first one whose request is rejected
      (`None`) rather than answered; the rejection ends the loop in the
      `catch`. */
  predicate RejectedAt(files: seq<DiskFile>, propertyType: string, oldValue: string, replies: nat -> Option<bool>, k: nat) {
    && k < |files|
    && Carries(files[k], propertyType, oldValue)
    && replies(k).None?
    && forall j :: 0 <= j < k && Carries(files[j], propertyType, oldValue) ==> replies(j).Some?
  }

  /** Only the first rejection ends the loop. */
  lemma RejectedOnce(files: seq<DiskFile>, propertyType: string, oldValue: string, replies: nat -> Option<bool>, j: nat, k: nat)
    requires RejectedAt(files, propertyType, oldValue, replies, j) && RejectedAt(files, propertyType, oldValue, replies, k)
    ensures j == k
  {
  }

  /** One iteration of the loop over file `k`. */
  lemma LoopStep(all: seq<DiskFile>, k: nat, propertyType: string, oldValue: string, newValue: string,
                 replies: nat -> Option<bool>)
    requires k < |all|
    ensures var f, carries := all[k], Carries(all[k], propertyType, oldValue);
      && Writes(all[..k + 1], propertyType, oldValue, newValue) == Writes(all[..k], propertyType, oldValue, newValue)
           + (if carries then [Write(f.path, f.customProperties.value[propertyType := newValue])] else [])
      && Updated(all[..k + 1], propertyType, oldValue, replies) == Updated(all[..k], propertyType, oldValue, replies)
           + (if carries && replies(k) == Some(true) then 1 else 0)
      && Failed(all[..k + 1], propertyType, oldValue, replies) == Failed(all[..k], propertyType, oldValue, replies)
           + (if carries && replies(k) != Some(true) then [f.name] else [])
  {
    assert all[..k + 1][..k] == all[..k];
  }

  /** `replies(k)` is the answer of `setCustomProperties` for the `k`-th file,
      `None` when the request itself is rejected. */
  method UpdatePropertyInFiles(files: Option<seq<DiskFile>>, propertyType: string, oldValue: string, newValue: string,
                               replies: nat -> Option<bool>)
    returns (outcome: UpdateOutcome, writes: seq<Write>)
    ensures files.None? ==> outcome == SystemError && writes == []
    ensures files.Some? && (forall k :: 0 <= k < |files.value| && Carries(files.value[k], propertyType, oldValue) ==> replies(k).Some?) ==>
      && writes == Writes(files.value, propertyType, oldValue, newValue)
      && outcome.updatedCount == Updated(files.value, propertyType, oldValue, replies)
      && outcome.errors == Failed(files.value, propertyType, oldValue, replies)
      && outcome.updatedCount + |outcome.errors| == |Matching(files.value, propertyType, oldValue)|
    ensures files.Some? ==> forall k :: RejectedAt(files.value, propertyType, oldValue, replies, k) ==>
      outcome == SystemError && writes == Writes(files.value[..k + 1], propertyType, oldValue, newValue)
    ensures outcome.success <==> outcome.errors == []
  {
    if files.None? {
      return SystemError, [];
    }
    var all := files.value;
    var updatedCount := 0;
    var errors: seq<string> := [];
    writes := [];
    for k := 0 to |all|
      invariant writes == Writes(all[..k], propertyType, oldValue, newValue)
      invariant updatedCount == Updated(all[..k], propertyType, oldValue, replies)
      invariant errors == Failed(all[..k], propertyType, oldValue, replies)
      invariant forall j :: 0 <= j < k && Carries(all[j], propertyType, oldValue) ==> replies(j).Some?
    {
      LoopStep(all, k, propertyType, oldValue, newValue, replies);
      var file := all[k];
      if Carries(file, propertyType, oldValue) {
        var updatedProperties := file.customProperties.value[propertyType := newValue];
        writes := writes + [Write(file.path, updatedProperties)];
        var reply := replies(k);
        if reply.None? {
          assert RejectedAt(all, propertyType, oldValue, replies, k);
          forall j | RejectedAt(all, propertyType, oldValue, replies, j) ensures j == k {
            RejectedOnce(all, propertyType, oldValue, replies, j, k);
          }
          return SystemError, writes;
        }
        if reply.value {
          updatedCount := updatedCount + 1;
        } else {
          errors := errors + [file.name];
        }
      }
    }
    assert all[..|all|] == all;
    UpdatedPlusFailed(all, propertyType, oldValue, replies);
    outcome := UpdateOutcome(|errors| == 0, updatedCount, errors);
  }
}
