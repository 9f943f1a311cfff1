/** Step 3 of the wizard: the track list, with uploads of each new track. */
module Step3Tracks {
  import opened Common
  import opened Strings
  import opened ReleaseStore
  import Step2BasicInfo

  type FormData = Step2BasicInfo.FormData

  /** A single holds one track; anything else, an album or no type yet, holds fifteen. */
  function MaxTracks(t: Option<ReleaseType>): (n: nat)
    ensures n == if t == Some(Single) then 1 else 15
  {
    if t == Some(Single) then 1 else 15
  }

  /** `type === 'single' ? tracks.length < 1 : tracks.length < 15`. */
  predicate CanAddMore(s: StoreState) {
    if s.releaseType == Some(Single) then |s.tracks| < 1 else |s.tracks| < 15
  }

  lemma CanAddMoreBelowMax(s: StoreState)
    ensures CanAddMore(s) <==> |s.tracks| < MaxTracks(s.releaseType)
    ensures s.releaseType == Some(Single) ==> (CanAddMore(s) <==> s.tracks == [])
  {
  }

  /** The number offered to the track form. */
  function NextTrackNumber(s: StoreState): (n: int)
    ensures n == |s.tracks| + 1 && n >= 1
  {
    |s.tracks| + 1
  }

  function BoolText(b: bool): string {
    if b then "true" else "false"
  }

  /** `Object.entries(track)` without the file keys, each value through `toString()`. */
  function TrackEntries(t: Track): seq<(string, Option<string>)> {
    [("title", Some(t.title)), ("track_number", Some(IntToDecimal(t.trackNumber))), ("isrc", t.isrc),
     ("genre", Some(t.genre)), ("explicit", Some(BoolText(t.explicit))), ("composer", t.composer),
     ("lyricist", t.lyricist), ("lyrics", t.lyrics)]
  }

  /** The parts the `forEach` appends: an entry is sent unless its value is undefined, so an
      empty string is still sent. */
  function DefinedFields(entries: seq<(string, Option<string>)>): FormData {
    if entries == [] then []
    else
      var last := entries[|entries| - 1];
      DefinedFields(entries[..|entries| - 1]) +
        (if last.1.Some? then [(last.0, Step2BasicInfo.Text(last.1.value))] else [])
  }

  lemma {:induction false} DefinedFieldsMembers(entries: seq<(string, Option<string>)>, k: string, part: Step2BasicInfo.FormValue)
    ensures (k, part) in DefinedFields(entries) <==> part.Text? && (k, Some(part.text)) in entries
  {
    if entries != [] {
      var init := entries[..|entries| - 1];
      DefinedFieldsMembers(init, k, part);
      assert entries == init + [entries[|entries| - 1]];
    }
  }

  function FileParts(t: Track): FormData {
    (if t.audioFile.Some? then [("audio_file", Step2BasicInfo.Blob(t.audioFile.value))] else []) +
    (if t.audioClip.Some? then [("audio_clip", Step2BasicInfo.Blob(t.audioClip.value))] else [])
  }

  method BuildTrackFormData(t: Track) returns (fd: FormData)
    ensures fd == DefinedFields(TrackEntries(t)) + FileParts(t)
  {
    var entries := TrackEntries(t);
    fd := [];
    var i := 0;
    while i < |entries|
      invariant 0 <= i <= |entries|
      invariant fd == DefinedFields(entries[..i])
    {
      assert entries[..i + 1][..i] == entries[..i];
      var (key, value) := entries[i];
      if value.Some? {
        fd := fd + [(key, Step2BasicInfo.Text(value.value))];
      }
      i := i + 1;
    }
    assert entries[..i] == entries;
    if t.audioFile.Some? {
      fd := fd + [("audio_file", Step2BasicInfo.Blob(t.audioFile.value))];
    }
    if t.audioClip.Some? {
      fd := fd + [("audio_clip", Step2BasicInfo.Blob(t.audioClip.value))];
    }
  }

  /** Files travel only under `audio_file` and `audio_clip`; every other part is text. */
  lemma FilesOnlyUnderAudioKeys(t: Track, k: string, f: File)
    ensures (k, Step2BasicInfo.Blob(f)) in DefinedFields(TrackEntries(t)) + FileParts(t) ==>
      (k == "audio_file" && t.audioFile == Some(f)) || (k == "audio_clip" && t.audioClip == Some(f))
  {
    DefinedFieldsMembers(TrackEntries(t), k, Step2BasicInfo.Blob(f));
  }

  /** The step's own state: whether the track form is open. */
  class TracksStep {
    const store: Store
    var isAdding: bool

    constructor(store: Store)
      ensures this.store == store && !isAdding
    {
      this.store := store;
      isAdding := false;
    }

    /** The form is only ever open while there is room for another track. */
    predicate Valid()
      reads this, store
    {
      isAdding ==> CanAddMore(store.State())
    }

    /** The Add Track button is shown only while the form is closed and there is room. */
    predicate ShowAddButton()
      reads this, store
    {
      !isAdding && CanAddMore(store.State())
    }

    method ClickAddTrack()
      requires Valid()
      modifies this
      ensures isAdding == (old(isAdding) || old(ShowAddButton()))
      ensures Valid()
    {
      if ShowAddButton() {
        isAdding := true;
      }
    }

    method Cancel()
      requires Valid()
      modifies this
      ensures !isAdding && Valid()
    {
      isAdding := false;
    }

    /** `handleAddTrack`, called by the open form with the track to save. The track is posted
        with its defined fields and its files; `ok` is the upload's outcome. Only on success is
        it appended and the form closed. */
    method HandleAddTrack(track: Track, ok: bool) returns (sent: FormData)
      requires isAdding && Valid()
      modifies this, store
      ensures sent == DefinedFields(TrackEntries(track)) + FileParts(track)
      ensures ok ==> store.State() == old(store.State()).(tracks := old(store.tracks) + [track]) && !isAdding
      ensures !ok ==> store.State() == old(store.State()) && isAdding
      ensures Valid()
      ensures |store.tracks| <= MaxTracks(store.releaseType)
    {
      sent := BuildTrackFormData(track);
      if ok {
        store.AddTrack(track);
        isAdding := false;
      }
    }

    /** Deleting is local to the store; no request is made. */
    method HandleDeleteTrack(index: int)
      requires Valid()
      modifies store
      ensures store.State() == old(store.State()).(tracks := DropIndex(old(store.tracks), index))
      ensures Valid()
    {
      store.RemoveTrack(index);
      DropIndexSpec(old(store.tracks), index);
    }

    /** Next with no track is refused with an alert; otherwise step 4. The alert is never
        reached from the enabled button. */
    method HandleNext() returns (alerted: bool)
      modifies store
      ensures alerted <==> |old(store.tracks)| == 0
      ensures alerted ==> old(NextDisabled())
      ensures alerted ==> store.State() == old(store.State())
      ensures !alerted ==> store.State() == old(store.State()).(step := 4)
    {
      if |store.tracks| == 0 {
        return true;
      }
      store.SetStep(4);
      return false;
    }

    /** The Next button is also disabled while the form is open. */
    predicate NextDisabled()
      reads this, store
    {
      |store.tracks| == 0 || isAdding
    }

    method Back()
      modifies store
      ensures store.State() == old(store.State()).(step := 2)
    {
      store.SetStep(2);
    }
  }
}
