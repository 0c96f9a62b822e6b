/**
 * File attachments (lib/file-handling.ts): the size and type check, the
 * attachment built for each accepted file, and the loop over the picked
 * files. What the browser does with a file (an object URL, a data URL read
 * by a `FileReader`) is given with each file, including the errors it may
 * throw.
 */
module FileHandling {
  import opened Wrappers
  import Text

  const MaxFileSize := 10 * 1024 * 1024

  const AllowedFileTypes := [
    "image/jpeg",
    "image/png",
    "image/gif",
    "application/pdf",
    "text/plain",
    "text/markdown",
    "application/json",
    "text/csv",
    "application/vnd.ms-excel",
    "application/vnd.openxmlformats-officedocument.spreadsheetml.sheet"
  ]

  const TypeNotSupported := "File type not supported"

  datatype File = File(name: string, mimeType: string, size: int)

  /**
   * What the browser produces for one file: `URL.createObjectURL(file)` and
   * the data URL `readAsDataURL` delivers, each possibly an error.
   */
  datatype FileIo = FileIo(objectUrl: Result<string>, dataUrl: Result<string>)

  datatype Upload = Upload(file: File, io: FileIo)

  datatype Validation = Validation(isValid: bool, error: Option<string>)

  datatype Attachment = Attachment(name: string, contentType: string, url: string, data: Option<string>)

  /** The size message, with the limit written in whole megabytes. */
  function SizeMessage(): (r: string)
    ensures r == "File size exceeds 10MB limit"
  {
    assert Text.NatToString(MaxFileSize / (1024 * 1024)) == "10";
    "File size exceeds " + Text.NatToString(MaxFileSize / (1024 * 1024)) + "MB limit"
  }

  /** `validateFile`: the size limit first, then the type allowlist. */
  function ValidateFile(file: File): (r: Validation)
    ensures r.isValid <==> file.size <= 10485760 && file.mimeType in AllowedFileTypes
    ensures r.isValid <==> r.error.None?
    ensures file.size > 10485760 ==> r.error == Some("File size exceeds 10MB limit")
    ensures file.size <= 10485760 && file.mimeType !in AllowedFileTypes ==> r.error == Some(TypeNotSupported)
  {
    if file.size > MaxFileSize then Validation(false, Some(SizeMessage()))
    else if file.mimeType !in AllowedFileTypes then Validation(false, Some(TypeNotSupported))
    else Validation(true, None)
  }

  predicate IsImage(mimeType: string) {
    |mimeType| >= 6 && mimeType[..6] == "image/"
  }

  /** `createAttachment`: name and type copied from the file, no data. */
  function CreateAttachment(file: File, url: string): (r: Attachment)
    ensures r.name == file.name && r.contentType == file.mimeType && r.url == url && r.data.None?
  {
    Attachment(file.name, file.mimeType, url, None)
  }

  /** The text up to the next comma (or the end). */
  function UpToComma(s: string): (r: string)
    ensures ',' !in r && r <= s
  {
    if s == [] || s[0] == ',' then [] else [s[0]] + UpToComma(s[1..])
  }

  /** `s.split(',')[1]`: the field after the first comma, undefined when there is none. */
  function SecondField(s: string): (r: Option<string>)
    ensures r.None? <==> ',' !in s
    ensures r.Some? ==> ',' !in r.value
  {
    if s == [] then None
    else if s[0] == ',' then Some(UpToComma(s[1..]))
    else SecondField(s[1..])
  }

  /**
   * The attachment one picked file contributes to `processFiles`, or None
   * when it fails validation or its processing throws.
   */
  function Attach(u: Upload): (r: Option<Attachment>)
    ensures r.Some? <==> (ValidateFile(u.file).isValid && u.io.objectUrl.Success?
                          && (IsImage(u.file.mimeType) ==> u.io.dataUrl.Success?))
    ensures r.Some? ==> r.value.url == u.io.objectUrl.value
    ensures r.Some? ==> r.value.name == u.file.name && r.value.contentType == u.file.mimeType
    ensures r.Some? ==> (r.value.data.Some? ==> IsImage(u.file.mimeType))
    ensures r.Some? && IsImage(u.file.mimeType) ==> u.io.dataUrl.Success? && r.value.data == SecondField(u.io.dataUrl.value)
  {
    if !ValidateFile(u.file).isValid then None
    else if IsImage(u.file.mimeType) then
      if u.io.dataUrl.Failure? || u.io.objectUrl.Failure? then None
      else Some(Attachment(u.file.name, u.file.mimeType, u.io.objectUrl.value, SecondField(u.io.dataUrl.value)))
    else if u.io.objectUrl.Failure? then None
    else Some(CreateAttachment(u.file, u.io.objectUrl.value))
  }

  /** The attachments of a list of picked files, in the order of the files. */
  function Processed(uploads: seq<Upload>): (r: seq<Attachment>)
    ensures |r| <= |uploads|
  {
    if uploads == [] then []
    else
      var last := uploads[|uploads| - 1];
      Processed(uploads[..|uploads| - 1]) + (if Attach(last).Some? then [Attach(last).value] else [])
  }

  /**
   * `processFiles`: each file is validated, then turned into an attachment;
   * a file that fails either step is skipped and the loop goes on.
   */
  method ProcessFiles(uploads: seq<Upload>, chatId: string, userId: string) returns (attachments: seq<Attachment>)
    ensures attachments == Processed(uploads)
  {
    attachments := [];
    for i := 0 to |uploads|
      invariant attachments == Processed(uploads[..i])
    {
      assert uploads[..i + 1][..i] == uploads[..i];
      var file := uploads[i].file;
      var io := uploads[i].io;
      var validation := ValidateFile(file);
      if !validation.isValid {
        continue;
      }
      if IsImage(file.mimeType) {
        if io.dataUrl.Success? && io.objectUrl.Success? {
          attachments := attachments + [Attachment(file.name, file.mimeType, io.objectUrl.value, SecondField(io.dataUrl.value))];
        }
      } else if io.objectUrl.Success? {
        attachments := attachments + [CreateAttachment(file, io.objectUrl.value)];
      }
    }
    assert uploads[..|uploads|] == uploads;
  }

  /** The files are handled one by one: processing a concatenation concatenates the results. */
  lemma {:induction false} ProcessedAppend(a: seq<Upload>, b: seq<Upload>)
    ensures Processed(a + b) == Processed(a) + Processed(b)
    decreases |b|
  {
    if b == [] {
      assert a + b == a;
    } else {
      assert (a + b)[..|a + b| - 1] == a + b[..|b| - 1];
      ProcessedAppend(a, b[..|b| - 1]);
    }
  }

  /** `a` is the attachment of one of the picked files, and that file passed validation. */
  ghost predicate FromValidFile(uploads: seq<Upload>, a: Attachment) {
    exists j :: 0 <= j < |uploads| && ValidateFile(uploads[j].file).isValid && Attach(uploads[j]) == Some(a)
  }

  /** Every attachment comes from a picked file that passed validation. */
  lemma {:induction false} ProcessedFromValidFiles(uploads: seq<Upload>)
    ensures forall k :: 0 <= k < |Processed(uploads)| ==> FromValidFile(uploads, Processed(uploads)[k])
  {
    if uploads == [] {
      assert Processed(uploads) == [];
    } else {
      var n := |uploads| - 1;
      var init := uploads[..n];
      ProcessedFromValidFiles(init);
      forall k | 0 <= k < |Processed(uploads)|
        ensures FromValidFile(uploads, Processed(uploads)[k])
      {
        if k < |Processed(init)| {
          assert Processed(uploads)[k] == Processed(init)[k];
          assert FromValidFile(init, Processed(init)[k]);
          var j :| 0 <= j < |init| && ValidateFile(init[j].file).isValid && Attach(init[j]) == Some(Processed(init)[k]);
          assert uploads[j] == init[j];
        } else {
          assert Attach(uploads[n]) == Some(Processed(uploads)[k]);
        }
      }
    }
  }

  /** A file that fails validation or whose processing throws contributes nothing. */
  lemma {:induction false} SkippedFileContributesNothing(a: seq<Upload>, u: Upload, b: seq<Upload>)
    requires Attach(u).None?
    ensures Processed(a + [u] + b) == Processed(a) + Processed(b)
  {
    ProcessedAppend(a + [u], b);
    ProcessedAppend(a, [u]);
    assert [u][..0] == [];
  }

  /** When every file is accepted, there is one attachment per file, in the same order. */
  lemma {:induction false} AllAccepted(uploads: seq<Upload>)
    requires forall j :: 0 <= j < |uploads| ==> Attach(uploads[j]).Some?
    ensures |Processed(uploads)| == |uploads|
    ensures forall j :: 0 <= j < |uploads| ==> Processed(uploads)[j] == Attach(uploads[j]).value
  {
    if uploads == [] {
      assert Processed(uploads) == [];
    } else {
      var n := |uploads| - 1;
      var init := uploads[..n];
      assert forall j :: 0 <= j < n ==> Attach(init[j]).Some? by {
        forall j | 0 <= j < n ensures Attach(init[j]).Some? {
          assert init[j] == uploads[j];
        }
      }
      AllAccepted(init);
      var a := Attach(uploads[n]).value;
      var p := Processed(init);
      forall j | 0 <= j < n ensures Attach(uploads[j]) == Some(p[j]) {
        assert init[j] == uploads[j];
      }
      ProcessedLast(uploads, a);
      OneMore(uploads, p, a);
    }
  }

  lemma ProcessedLast(uploads: seq<Upload>, a: Attachment)
    requires uploads != [] && Attach(uploads[|uploads| - 1]) == Some(a)
    ensures Processed(uploads) == Processed(uploads[..|uploads| - 1]) + [a]
  {
  }

  lemma OneMore(uploads: seq<Upload>, p: seq<Attachment>, a: Attachment)
    requires uploads != [] && Attach(uploads[|uploads| - 1]) == Some(a)
    requires |p| == |uploads| - 1
    requires forall j :: 0 <= j < |p| ==> Attach(uploads[j]) == Some(p[j])
    ensures forall j :: 0 <= j < |uploads| ==> Attach(uploads[j]) == Some((p + [a])[j])
  {
  }

  /** The image payload is the base64 text of a data URL `readAsDataURL` produces. */
  lemma {:induction false} DataUrlPayload(mimeType: string, payload: string)
    requires ',' !in mimeType && ',' !in payload
    ensures SecondField("data:" + mimeType + ";base64," + payload) == Some(payload)
  {
    var head := "data:" + mimeType + ";base64";
    assert ',' !in head;
    assert "data:" + mimeType + ";base64," + payload == head + ("," + payload);
    SkipToComma(head, "," + payload);
    assert ("," + payload)[1..] == payload;
    WholeField(payload);
  }

  lemma {:induction false} SkipToComma(head: string, rest: string)
    requires ',' !in head
    ensures SecondField(head + rest) == SecondField(rest)
  {
    if head == [] {
      assert head + rest == rest;
    } else {
      assert (head + rest)[0] == head[0] != ',';
      assert (head + rest)[1..] == head[1..] + rest;
      assert ',' !in head[1..];
      assert SecondField(head + rest) == SecondField(head[1..] + rest);
      SkipToComma(head[1..], rest);
    }
  }

  lemma {:induction false} WholeField(s: string)
    requires ',' !in s
    ensures UpToComma(s) == s
  {
    if s != [] {
      WholeField(s[1..]);
    }
  }

  /** `checkFileUploadLimit`: uploads are not counted, so none have been used. */
  function CheckFileUploadLimit(userId: string): (r: int)
    ensures r == 0
  {
    0
  }
}
