/** The client-side store of the new-release wizard: the current step, the draft's id and
    type, the basic information, the release history, and the track list. */
module ReleaseStore {
  import opened Common

  datatype ReleaseType = Single | Album

  /** The wire name of a type, as the `type` enumeration of the releases table spells it. */
  function TypeName(t: ReleaseType): (s: string)
    ensures s != ""
    ensures s == "single" <==> t == Single
  {
    match t
    case Single => "single"
    case Album => "album"
  }

  datatype Track = Track(
    title: string,
    trackNumber: int,
    isrc: Option<string>,
    genre: string,
    explicit: bool,
    composer: Option<string>,
    lyricist: Option<string>,
    lyrics: Option<string>,
    audioFile: Option<File>,
    audioClip: Option<File>)

  datatype BasicInfo = BasicInfo(
    title: string,
    recordLabel: string,
    pLine: string,
    cLine: string,
    genre: string,
    language: string,
    version: Option<string>,
    upc: Option<string>,
    releaseDate: string,
    coverFile: Option<File>,
    coverPreview: Option<string>)

  datatype Specifics = Specifics(previousDistribution: Option<string>, brandNew: bool, previouslyReleased: bool)

  /** A `Partial<basicInfo>` as an object literal: `None` is a key that is not there, `Some(v)`
      a key that is there with value `v`; for an optional member `v` may itself be undefined. */
  datatype BasicInfoPatch = BasicInfoPatch(
    title: Option<string>,
    recordLabel: Option<string>,
    pLine: Option<string>,
    cLine: Option<string>,
    genre: Option<string>,
    language: Option<string>,
    version: Option<Option<string>>,
    upc: Option<Option<string>>,
    releaseDate: Option<string>,
    coverFile: Option<Option<File>>,
    coverPreview: Option<Option<string>>)

  datatype SpecificsPatch = SpecificsPatch(
    previousDistribution: Option<Option<string>>,
    brandNew: Option<bool>,
    previouslyReleased: Option<bool>)

  const NoBasicInfo := BasicInfoPatch(None, None, None, None, None, None, None, None, None, None, None)

  /** `{ ...old, ...patch }`: a key the patch carries wins, even when its value is undefined. */
  function MergeBasicInfo(b: BasicInfo, p: BasicInfoPatch): BasicInfo {
    BasicInfo(
      p.title.GetOr(b.title), p.recordLabel.GetOr(b.recordLabel), p.pLine.GetOr(b.pLine), p.cLine.GetOr(b.cLine),
      p.genre.GetOr(b.genre), p.language.GetOr(b.language), p.version.GetOr(b.version),
      p.upc.GetOr(b.upc), p.releaseDate.GetOr(b.releaseDate), p.coverFile.GetOr(b.coverFile),
      p.coverPreview.GetOr(b.coverPreview))
  }

  function MergeSpecifics(s: Specifics, p: SpecificsPatch): Specifics {
    Specifics(
      p.previousDistribution.GetOr(s.previousDistribution),
      p.brandNew.GetOr(s.brandNew),
      p.previouslyReleased.GetOr(s.previouslyReleased))
  }

  /** The later of two keys wins: `{ ...p, ...q }` as one patch. */
  function ThenBasicInfo(p: BasicInfoPatch, q: BasicInfoPatch): BasicInfoPatch {
    BasicInfoPatch(
      if q.title.Some? then q.title else p.title,
      if q.recordLabel.Some? then q.recordLabel else p.recordLabel,
      if q.pLine.Some? then q.pLine else p.pLine,
      if q.cLine.Some? then q.cLine else p.cLine,
      if q.genre.Some? then q.genre else p.genre,
      if q.language.Some? then q.language else p.language,
      if q.version.Some? then q.version else p.version,
      if q.upc.Some? then q.upc else p.upc,
      if q.releaseDate.Some? then q.releaseDate else p.releaseDate,
      if q.coverFile.Some? then q.coverFile else p.coverFile,
      if q.coverPreview.Some? then q.coverPreview else p.coverPreview)
  }

  /** The later of two keys wins: `{ ...p, ...q }` as one specifics patch. */
  function ThenSpecifics(p: SpecificsPatch, q: SpecificsPatch): SpecificsPatch {
    SpecificsPatch(
      if q.previousDistribution.Some? then q.previousDistribution else p.previousDistribution,
      if q.brandNew.Some? then q.brandNew else p.brandNew,
      if q.previouslyReleased.Some? then q.previouslyReleased else p.previouslyReleased)
  }

  /** A merge overwrites exactly the keys the patch carries, each with the patch's value, and
      keeps every other key: merging the patch's own values back changes nothing, an empty patch
      changes nothing, and two merges are one merge of the combined patch. */
  lemma MergeBasicInfoLaws(b: BasicInfo, p: BasicInfoPatch, q: BasicInfoPatch)
    ensures MergeBasicInfo(b, NoBasicInfo) == b
    ensures MergeBasicInfo(MergeBasicInfo(b, p), p) == MergeBasicInfo(b, p)
    ensures MergeBasicInfo(MergeBasicInfo(b, p), q) == MergeBasicInfo(b, ThenBasicInfo(p, q))
    ensures MergeBasicInfo(b, p).title == if p.title.Some? then p.title.value else b.title
    ensures MergeBasicInfo(b, p).recordLabel == if p.recordLabel.Some? then p.recordLabel.value else b.recordLabel
    ensures MergeBasicInfo(b, p).pLine == if p.pLine.Some? then p.pLine.value else b.pLine
    ensures MergeBasicInfo(b, p).cLine == if p.cLine.Some? then p.cLine.value else b.cLine
    ensures MergeBasicInfo(b, p).genre == if p.genre.Some? then p.genre.value else b.genre
    ensures MergeBasicInfo(b, p).language == if p.language.Some? then p.language.value else b.language
    ensures MergeBasicInfo(b, p).version == if p.version.Some? then p.version.value else b.version
    ensures MergeBasicInfo(b, p).upc == if p.upc.Some? then p.upc.value else b.upc
    ensures MergeBasicInfo(b, p).releaseDate == if p.releaseDate.Some? then p.releaseDate.value else b.releaseDate
    ensures MergeBasicInfo(b, p).coverFile == if p.coverFile.Some? then p.coverFile.value else b.coverFile
    ensures MergeBasicInfo(b, p).coverPreview == if p.coverPreview.Some? then p.coverPreview.value else b.coverPreview
  {
  }

  lemma MergeSpecificsLaws(s: Specifics, p: SpecificsPatch, q: SpecificsPatch)
    ensures MergeSpecifics(s, SpecificsPatch(None, None, None)) == s
    ensures MergeSpecifics(MergeSpecifics(s, p), p) == MergeSpecifics(s, p)
    ensures MergeSpecifics(MergeSpecifics(s, p), q) == MergeSpecifics(s, ThenSpecifics(p, q))
    ensures MergeSpecifics(s, p).previousDistribution ==
      if p.previousDistribution.Some? then p.previousDistribution.value else s.previousDistribution
    ensures MergeSpecifics(s, p).brandNew == if p.brandNew.Some? then p.brandNew.value else s.brandNew
    ensures MergeSpecifics(s, p).previouslyReleased ==
      if p.previouslyReleased.Some? then p.previouslyReleased.value else s.previouslyReleased
  {
  }

  datatype StoreState = StoreState(
    step: int,
    releaseId: Option<int>,
    releaseType: Option<ReleaseType>,
    basicInfo: BasicInfo,
    specifics: Specifics,
    tracks: seq<Track>)

  const EmptyBasicInfo := BasicInfo("", "", "", "", "", "", None, None, "", None, None)
  const InitialSpecifics := Specifics(None, true, false)

  /** The state the store starts in and `reset` returns to. */
  const Initial := StoreState(1, None, None, EmptyBasicInfo, InitialSpecifics, [])

  /** `tracks.filter((_, i) => i !== index)`. */
  function DropIndex<T>(s: seq<T>, index: int): seq<T> {
    if s == [] then []
    else DropIndex(s[..|s| - 1], index) + (if |s| - 1 == index then [] else [s[|s| - 1]])
  }

  /** The filter drops exactly element `index` and keeps the others in order; an index outside
      the list drops nothing. */
  lemma {:induction false} DropIndexSpec<T>(s: seq<T>, index: int)
    ensures 0 <= index < |s| ==> DropIndex(s, index) == s[..index] + s[index + 1..]
    ensures !(0 <= index < |s|) ==> DropIndex(s, index) == s
  {
    if s != [] {
      var init := s[..|s| - 1];
      DropIndexSpec(init, index);
      if index == |s| - 1 {
        assert init == s[..index] && s[index + 1..] == [];
      } else if 0 <= index < |s| - 1 {
        assert init[..index] == s[..index];
        assert init[index + 1..] + [s[|s| - 1]] == s[index + 1..];
      } else {
        assert init + [s[|s| - 1]] == s;
      }
    }
  }

  /** What `newTracks[index] = track` leaves in the copied list: the element at an index inside
      the list is replaced, the length index appends, and a negative index is a property
      assignment that leaves the elements alone. */
  function Assigned<T>(s: seq<T>, index: int, x: T): (r: seq<T>)
    requires index <= |s|
    ensures 0 <= index < |s| ==>
      (|r| == |s| && r[index] == x && forall j :: 0 <= j < |s| && j != index ==> r[j] == s[j])
    ensures index == |s| ==> r == s + [x]
    ensures index < 0 ==> r == s
  {
    if index < 0 then s
    else if index == |s| then s + [x]
    else s[index := x]
  }

  class Store {
    var step: int
    var releaseId: Option<int>
    var releaseType: Option<ReleaseType>
    var basicInfo: BasicInfo
    var specifics: Specifics
    var tracks: seq<Track>

    function State(): StoreState
      reads this
    {
      StoreState(step, releaseId, releaseType, basicInfo, specifics, tracks)
    }

    constructor()
      ensures State() == Initial
    {
      step := 1;
      releaseId := None;
      releaseType := None;
      basicInfo := EmptyBasicInfo;
      specifics := InitialSpecifics;
      tracks := [];
    }

    method SetStep(s: int)
      modifies this
      ensures State() == old(State()).(step := s)
    {
      step := s;
    }

    method SetReleaseId(id: int)
      modifies this
      ensures State() == old(State()).(releaseId := Some(id))
    {
      releaseId := Some(id);
    }

    method SetType(t: ReleaseType)
      modifies this
      ensures State() == old(State()).(releaseType := Some(t))
    {
      releaseType := Some(t);
    }

    method SetBasicInfo(info: BasicInfoPatch)
      modifies this
      ensures State() == old(State()).(basicInfo := MergeBasicInfo(old(basicInfo), info))
    {
      basicInfo := MergeBasicInfo(basicInfo, info);
    }

    method SetSpecifics(info: SpecificsPatch)
      modifies this
      ensures State() == old(State()).(specifics := MergeSpecifics(old(specifics), info))
    {
      specifics := MergeSpecifics(specifics, info);
    }

    /** Appends: one more track, the new one last, the earlier ones untouched. */
    method AddTrack(track: Track)
      modifies this
      ensures State() == old(State()).(tracks := old(tracks) + [track])
      ensures |tracks| == |old(tracks)| + 1 && tracks[|tracks| - 1] == track
      ensures tracks[..|old(tracks)|] == old(tracks)
    {
      tracks := tracks + [track];
    }

    /** Copies the list, assigns at `index` in the copy, and installs the copy. An index past
        the length would leave holes in the JavaScript array and is not allowed here. */
    method UpdateTrack(index: int, track: Track)
      requires index <= |tracks|
      modifies this
      ensures State() == old(State()).(tracks := Assigned(old(tracks), index, track))
    {
      if 0 <= index < |tracks| {
        var ts := tracks;
        var copy := new Track[|ts|];
        var i := 0;
        while i < |ts|
          invariant 0 <= i <= |ts|
          invariant copy[..i] == ts[..i]
          modifies copy
        {
          copy[i] := ts[i];
          i := i + 1;
        }
        assert copy[..] == ts;
        copy[index] := track;
        tracks := copy[..];
      } else if index == |tracks| {
        tracks := tracks + [track];
      }
    }

    method RemoveTrack(index: int)
      modifies this
      ensures State() == old(State()).(tracks := DropIndex(old(tracks), index))
    {
      tracks := DropIndex(tracks, index);
    }

    method Reset()
      modifies this
      ensures State() == Initial
    {
      step := 1;
      releaseId := None;
      releaseType := None;
      basicInfo := EmptyBasicInfo;
      specifics := InitialSpecifics;
      tracks := [];
    }
  }
}
