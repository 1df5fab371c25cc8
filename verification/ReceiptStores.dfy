/** The files behind the daemon: the current-version file and the receipts directory (receipt_store.py). */
module ReceiptStores {
  import opened Text
  import opened ContentSync

  /** The two things on disk. */
  datatype Disk = Disk(versionFile: Option<string>, receipts: map<string, Receipt>)

  /** Text-mode reading turns every line ending into a single newline. */
  function Universal(s: string): (r: string)
    ensures '\r' !in r
  {
    if s == [] then []
    else if s[0] == '\r' then ['\n'] + Universal(if |s| > 1 && s[1] == '\n' then s[2..] else s[1..])
    else [s[0]] + Universal(s[1..])
  }

  function ParseVersion(versionFile: Option<string>): Option<string> {
    if versionFile.None? then None
    else
      var text := Strip(Universal(versionFile.value));
      if text == "" then None else Some(text)
  }

  function VersionText(version: string): string {
    version + "\n"
  }

  /** The version a later poll reads after `version` was written. */
  function ReadBack(version: string): Option<string> {
    ParseVersion(Some(VersionText(version)))
  }

  predicate Stable(version: string) {
    version != "" && Trimmed(version) && '\r' !in version
  }

  lemma {:induction false} UniversalFixed(s: string)
    requires '\r' !in s
    ensures Universal(s) == s
  {
    if s != [] {
      assert s[0] in s;
      UniversalFixed(s[1..]);
    }
  }

  /** Writing a version and reading it back gives the same version exactly when it is non-empty, has no white
      space at its ends and no carriage return. */
  lemma VersionRoundTrip(version: string)
    ensures ReadBack(version) == Some(version) <==> Stable(version)
  {
    var u := Universal(VersionText(version));
    if Stable(version) {
      UniversalFixed(VersionText(version));
      StripNewline(version);
      StripByFixed(IsSpace, version);
    }
    if ReadBack(version) == Some(version) {
      var lo, hi := StripByIsMiddle(IsSpace, u);
      assert Strip(u) == version;
      assert forall i :: 0 <= i < |version| ==> version[i] == u[lo + i];
      assert forall i :: 0 <= i < |version| ==> version[i] in u;
    }
  }

  // ---------- receipt file names ----------

  /** The time of issue with ':' and 'T' made fit for a file name. */
  function FileStem(issuedAt: string): string {
    seq(|issuedAt|, i requires 0 <= i < |issuedAt| =>
      if issuedAt[i] == ':' then '-' else if issuedAt[i] == 'T' then '_' else issuedAt[i])
  }

  /** The part after the last colon. */
  function LastSegment(id: string): string {
    if id == [] || id[|id| - 1] == ':' then [] else LastSegment(id[..|id| - 1]) + [id[|id| - 1]]
  }

  function FileName(stamp: Stamp): string {
    var segment := LastSegment(stamp.id);
    FileStem(stamp.issuedAt) + "-" + (if |segment| > 16 then segment[..16] else segment) + ".json"
  }

  lemma {:induction false} LastOfUrn(prefix: string, uuid: string)
    requires ':' !in uuid
    ensures LastSegment(prefix + ":" + uuid) == uuid
  {
    var id := prefix + ":" + uuid;
    if uuid == [] {
      assert id[|id| - 1] == ':';
    } else {
      var front := uuid[..|uuid| - 1];
      assert id[..|id| - 1] == prefix + ":" + front;
      assert id[|id| - 1] == uuid[|uuid| - 1] && uuid[|uuid| - 1] in uuid;
      LastOfUrn(prefix, front);
    }
  }

  /** The stem keeps the length and every character but the two. */
  lemma StemExactly(issuedAt: string, i: nat)
    requires i < |issuedAt|
    ensures |FileStem(issuedAt)| == |issuedAt|
    ensures FileStem(issuedAt)[i] == match issuedAt[i] case ':' => '-' case 'T' => '_' case c => c
  {
  }

  /** When two receipts share a file: issued at times that look alike in a file name, with ids that agree in the first
      sixteen characters after the last colon. */
  lemma SharedFileExactly(prefix: string, uuid: string, issuedAt: string, other: string, later: string)
    requires ':' !in uuid && ':' !in other && |uuid| >= 16 && |other| >= 16 && |issuedAt| == |later|
    ensures FileName(Stamp(prefix + ":" + uuid, issuedAt)) == FileName(Stamp(prefix + ":" + other, later)) <==>
            FileStem(issuedAt) == FileStem(later) && uuid[..16] == other[..16]
  {
    hide LastSegment, FileStem;
    LastOfUrn(prefix, uuid);
    LastOfUrn(prefix, other);
    StemLength(issuedAt);
    StemLength(later);
    var a, b := FileName(Stamp(prefix + ":" + uuid, issuedAt)), FileName(Stamp(prefix + ":" + other, later));
    var n := |issuedAt|;
    assert a == FileStem(issuedAt) + "-" + uuid[..16] + ".json";
    assert b == FileStem(later) + "-" + other[..16] + ".json";
    assert a[..n] == FileStem(issuedAt) && b[..n] == FileStem(later);
    assert a[n + 1..n + 17] == uuid[..16] && b[n + 1..n + 17] == other[..16];
  }

  lemma StemLength(issuedAt: string)
    ensures |FileStem(issuedAt)| == |issuedAt|
  {
  }

  class ReceiptStore {
    var versionFile: Option<string>
    var receipts: map<string, Receipt>

    constructor (disk: Disk)
      ensures Contents() == disk
    {
      versionFile, receipts := disk.versionFile, disk.receipts;
    }

    function Contents(): Disk
      reads this
    {
      Disk(versionFile, receipts)
    }

    method ReadCurrentVersion() returns (version: Option<string>)
      ensures version == ParseVersion(versionFile)
    {
      if versionFile.None? { return None; }
      var text := Strip(Universal(versionFile.value));
      version := if text == "" then None else Some(text);
    }

    method WriteCurrentVersion(version: string)
      modifies this
      ensures Contents() == old(Contents()).(versionFile := Some(VersionText(version)))
      ensures Stable(version) <==> ParseVersion(versionFile) == Some(version)
    {
      versionFile := Some(VersionText(version));
      VersionRoundTrip(version);
    }

    /** Any older receipt under the same file name is overwritten; the version file is untouched. */
    method WriteReceipt(receipt: Receipt) returns (name: string)
      modifies this
      ensures name == FileName(receipt.stamp)
      ensures Contents() == old(Contents()).(receipts := old(receipts)[name := receipt])
    {
      name := FileName(receipt.stamp);
      receipts := receipts[name := receipt];
    }
  }
}
