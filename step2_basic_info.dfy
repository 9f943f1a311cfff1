/** Step 2 of the wizard: the release's basic information and cover, sent as a multipart PATCH
    and then merged into the store. */
module Step2BasicInfo {
  import opened Common
  import opened ReleaseStore

  /** The values the form hands to its submit handler. */
  datatype BasicInfoForm = BasicInfoForm(
    title: string,
    recordLabel: string,
    pLine: string,
    cLine: string,
    genre: string,
    language: string,
    version: Option<string>,
    upc: Option<string>,
    releaseDate: string)

  /** A part of a multipart body: a text value or an attached file. */
  datatype FormValue = Text(text: string) | Blob(file: File)

  type FormData = seq<(string, FormValue)>

  /** The value of one key of the submitted `data`: a text field or the stored cover file. */
  datatype EntryValue = Str(s: Option<string>) | Attachment(f: Option<File>)

  /** `Object.entries(data)`. The form's defaults are the store's basic information at mount,
      so besides its nine fields `data` still carries the stored `cover_file` and
      `cover_preview`, which no input of the form replaces. */
  function Entries(d: BasicInfoForm, defaults: BasicInfo): seq<(string, EntryValue)> {
    [("title", Str(Some(d.title))), ("label", Str(Some(d.recordLabel))), ("p_line", Str(Some(d.pLine))),
     ("c_line", Str(Some(d.cLine))), ("genre", Str(Some(d.genre))), ("language", Str(Some(d.language))),
     ("version", Str(d.version)), ("upc", Str(d.upc)), ("release_date", Str(Some(d.releaseDate))),
     ("cover_file", Attachment(defaults.coverFile)), ("cover_preview", Str(defaults.coverPreview))]
  }

  /** The parts the `forEach` appends: one part per entry with a truthy value, in order; a
      text value becomes a text part and a file a file part. */
  function TruthyFields(entries: seq<(string, EntryValue)>): FormData {
    if entries == [] then []
    else
      var last := entries[|entries| - 1];
      var tail: FormData := match last.1
        case Str(s) => if Truthy(s) then [(last.0, Text(s.value))] else []
        case Attachment(f) => if f.Some? then [(last.0, Blob(f.value))] else [];
      TruthyFields(entries[..|entries| - 1]) + tail
  }

  /** A text part is sent exactly for an entry whose text is defined and not empty, a file part
      exactly for an entry holding a file; nothing else is sent. */
  lemma {:induction false} TruthyFieldsMembers(entries: seq<(string, EntryValue)>, k: string, part: FormValue)
    ensures (k, part) in TruthyFields(entries) <==>
      if part.Text? then (k, Str(Some(part.text))) in entries && part.text != ""
      else (k, Attachment(Some(part.file))) in entries
  {
    if entries != [] {
      var init := entries[..|entries| - 1];
      TruthyFieldsMembers(init, k, part);
      assert entries == init + [entries[|entries| - 1]];
    }
  }

  /** The cover part, present only when a file was chosen. */
  function CoverPart(cover: Option<File>): FormData {
    match cover
    case None => []
    case Some(f) => [("cover", Blob(f))]
  }

  method BuildFormData(entries: seq<(string, EntryValue)>, cover: Option<File>) returns (fd: FormData)
    ensures fd == TruthyFields(entries) + CoverPart(cover)
  {
    fd := [];
    var i := 0;
    while i < |entries|
      invariant 0 <= i <= |entries|
      invariant fd == TruthyFields(entries[..i])
    {
      assert entries[..i + 1][..i] == entries[..i];
      var (key, value) := entries[i];
      match value {
        case Str(s) =>
          if Truthy(s) {
            fd := fd + [(key, Text(s.value))];
          }
        case Attachment(f) =>
          if f.Some? {
            fd := fd + [(key, Blob(f.value))];
          }
      }
      i := i + 1;
    }
    assert entries[..i] == entries;
    if cover.Some? {
      fd := fd + [("cover", Blob(cover.value))];
    }
  }

  /** The body step 2 sends for a form mounted on `defaults` with the chosen `cover`. */
  function SentParts(d: BasicInfoForm, defaults: BasicInfo, cover: Option<File>): FormData {
    TruthyFields(Entries(d, defaults)) + CoverPart(cover)
  }

  /** The PATCH route parses its body with `upload.single(name)`: a file part under any other
      name, or a second file under that name, fails the request before the handler runs. */
  predicate SingleFileAccepted(fd: FormData, name: string) {
    (forall i | 0 <= i < |fd| :: fd[i].1.Blob? ==> fd[i].0 == name) &&
    (forall i, j | 0 <= i < j < |fd| :: !(fd[i].1.Blob? && fd[j].1.Blob?))
  }

  /** The route accepts step 2's body exactly when the form was mounted without a stored cover
      file: a stored one comes back with the defaults and is sent as `cover_file`. */
  lemma SentAcceptedIff(d: BasicInfoForm, defaults: BasicInfo, cover: Option<File>)
    ensures SingleFileAccepted(SentParts(d, defaults, cover), "cover") <==> defaults.coverFile.None?
  {
    var entries := Entries(d, defaults);
    var fields := TruthyFields(entries);
    var fd := SentParts(d, defaults, cover);
    if defaults.coverFile.Some? {
      var f := defaults.coverFile.value;
      assert entries[9] == ("cover_file", Attachment(Some(f)));
      TruthyFieldsMembers(entries, "cover_file", Blob(f));
      var i :| 0 <= i < |fields| && fields[i] == ("cover_file", Blob(f));
      assert fd[i] == fields[i];
    } else {
      forall i | 0 <= i < |fields|
        ensures !fields[i].1.Blob?
      {
        TruthyFieldsMembers(entries, fields[i].0, fields[i].1);
      }
      assert fd[..|fields|] == fields;
    }
  }

  /** Once a submit with a cover has succeeded, the store holds that file, so a step 2 mounted
      afterwards (after Back on step 3) can never again pass the PATCH route. */
  lemma ResubmitAfterCoverRejected(b: BasicInfo, d: BasicInfoForm, f: File, preview: Option<string>,
                                   again: BasicInfoForm, cover: Option<File>)
    ensures !SingleFileAccepted(
      SentParts(again, MergeBasicInfo(b, SubmittedPatch(d, Some(f), preview)), cover), "cover")
  {
    SubmittedPatchReplaces(b, d, Some(f), preview);
    SentAcceptedIff(again, MergeBasicInfo(b, SubmittedPatch(d, Some(f), preview)), cover);
  }

  /** The seven fields the form marks required; version and upc may stay empty. */
  predicate RequiredFilled(d: BasicInfoForm) {
    d.title != "" && d.recordLabel != "" && d.genre != "" && d.pLine != "" && d.cLine != "" &&
    d.language != "" && d.releaseDate != ""
  }

  /** `{ ...data, cover_file: coverFile, cover_preview: preview }`: every key is present. */
  function SubmittedPatch(d: BasicInfoForm, cover: Option<File>, preview: Option<string>): BasicInfoPatch {
    BasicInfoPatch(Some(d.title), Some(d.recordLabel), Some(d.pLine), Some(d.cLine), Some(d.genre),
      Some(d.language), Some(d.version), Some(d.upc), Some(d.releaseDate), Some(cover), Some(preview))
  }

  /** Because the submitted patch carries every key, a successful step 2 replaces the stored
      basic information with the form, the chosen cover and its preview, whatever was there. */
  lemma SubmittedPatchReplaces(b: BasicInfo, d: BasicInfoForm, cover: Option<File>, preview: Option<string>)
    ensures MergeBasicInfo(b, SubmittedPatch(d, cover, preview)) ==
      BasicInfo(d.title, d.recordLabel, d.pLine, d.cLine, d.genre, d.language, d.version, d.upc,
                d.releaseDate, cover, preview)
  {
  }

  /** Every required field of a valid form reaches the server as a text part; an empty optional
      field is left out. */
  lemma RequiredFieldsSent(d: BasicInfoForm, defaults: BasicInfo)
    requires RequiredFilled(d)
    ensures ("title", Text(d.title)) in TruthyFields(Entries(d, defaults))
    ensures ("label", Text(d.recordLabel)) in TruthyFields(Entries(d, defaults))
    ensures ("release_date", Text(d.releaseDate)) in TruthyFields(Entries(d, defaults))
    ensures d.version == Some("") ==> forall v :: ("version", v) !in TruthyFields(Entries(d, defaults))
  {
    var entries := Entries(d, defaults);
    TruthyFieldsMembers(entries, "title", Text(d.title));
    TruthyFieldsMembers(entries, "label", Text(d.recordLabel));
    TruthyFieldsMembers(entries, "release_date", Text(d.releaseDate));
    forall v ensures d.version == Some("") ==> ("version", v) !in TruthyFields(entries) {
      TruthyFieldsMembers(entries, "version", v);
    }
  }

  /** The step's own state: the chosen cover and its data-URL preview, both starting from what
      the store holds, and the form's default values, read from the store once at mount. */
  class BasicInfoStep {
    const store: Store
    const defaults: BasicInfo
    var coverFile: Option<File>
    var preview: Option<string>

    constructor(store: Store)
      ensures this.store == store && defaults == store.basicInfo
      ensures coverFile == store.basicInfo.coverFile && preview == store.basicInfo.coverPreview
    {
      this.store := store;
      defaults := store.basicInfo;
      coverFile := store.basicInfo.coverFile;
      preview := store.basicInfo.coverPreview;
    }

    /** Choosing a file sets it at once; the preview follows when the reader has loaded it. */
    method HandleFileSelect(f: File)
      modifies this
      ensures coverFile == Some(f) && preview == old(preview)
    {
      coverFile := Some(f);
    }

    method PreviewLoaded(dataUrl: string)
      modifies this
      ensures preview == Some(dataUrl) && coverFile == old(coverFile)
    {
      preview := Some(dataUrl);
    }

    /** Submitting: an invalid form is not handed to the handler. A valid one is sent as the
        truthy entries of `data` plus the cover. The PATCH succeeds when the route accepts the
        body and `ok`, the handler's outcome, holds. On success the store takes the form and
        moves to step 3; otherwise it is left as it was. */
    method Submit(data: BasicInfoForm, ok: bool) returns (sent: Option<FormData>)
      modifies store
      ensures RequiredFilled(data) <==> sent.Some?
      ensures sent.Some? ==> sent.value == SentParts(data, defaults, coverFile)
      ensures sent.Some? && ok && SingleFileAccepted(sent.value, "cover") ==>
        store.State() == old(store.State()).(
          basicInfo := MergeBasicInfo(old(store.basicInfo), SubmittedPatch(data, coverFile, preview)),
          step := 3)
      ensures !(sent.Some? && ok && SingleFileAccepted(sent.value, "cover")) ==>
        store.State() == old(store.State())
    {
      if !RequiredFilled(data) {
        return None;
      }
      var fd := BuildFormData(Entries(data, defaults), coverFile);
      sent := Some(fd);
      if ok && SingleFileAccepted(fd, "cover") {
        store.SetBasicInfo(SubmittedPatch(data, coverFile, preview));
        store.SetStep(3);
      }
    }

    method Back()
      modifies store
      ensures store.State() == old(store.State()).(step := 1)
    {
      store.SetStep(1);
    }
  }
}
