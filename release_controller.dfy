/** The release handlers of the REST back end: drafts, their details, tracks, listings and
    status changes. Each handler is one atomic step over the tables. */
module ReleaseController {
  import opened Common
  import opened Strings
  import opened Tables
  import opened Sorting

  /** The first row `SELECT * FROM releases WHERE id = ? AND user_id = ?` finds. */
  function FindOwned(rs: seq<ReleaseRow>, id: int, userId: int): (r: Option<ReleaseRow>)
    ensures r.Some? ==> r.value in rs && r.value.id == id && r.value.userId == userId
    ensures r.None? <==> forall i :: 0 <= i < |rs| ==> !(rs[i].id == id && rs[i].userId == userId)
  {
    if rs == [] then None
    else if rs[0].id == id && rs[0].userId == userId then Some(rs[0])
    else FindOwned(rs[1..], id, userId)
  }

  /** `createRelease`'s reply body. */
  datatype Created = Created(id: int, releaseType: string)

  /** The draft row `createRelease` inserts. */
  function NewDraft(id: int, userId: int, releaseType: string, now: int): ReleaseRow {
    ReleaseRow(id, userId, None, releaseType, "Untitled Release", None, None, None, None, None,
      None, None, None, None, Some("pending"), now)
  }

  /** `now` is the database clock reading stored as `created_at`. */
  method CreateRelease(db: Database, caller: AuthUser, releaseType: Option<string>, now: int) returns (res: Response<Created>)
    requires db.Valid()
    modifies db
    ensures db.Valid()
    ensures db.users == old(db.users) && db.tracks == old(db.tracks) && db.revenues == old(db.revenues)
    ensures !Truthy(releaseType) ==>
      res == Fail(400, "Type is required") && db.releases == old(db.releases) &&
      db.nextReleaseId == old(db.nextReleaseId)
    ensures Truthy(releaseType) ==>
      res == Ok(201, Created(old(db.nextReleaseId), releaseType.value)) &&
      db.releases == old(db.releases) + [NewDraft(old(db.nextReleaseId), caller.id, releaseType.value, now)] &&
      db.nextReleaseId == old(db.nextReleaseId) + 1
  {
    if !Truthy(releaseType) {
      return Fail(400, "Type is required");
    }
    var id := db.nextReleaseId;
    db.releases := db.releases + [NewDraft(id, caller.id, releaseType.value, now)];
    db.nextReleaseId := id + 1;
    res := Ok(201, Created(id, releaseType.value));
  }

  /** The fields `updateRelease` reads from the request body. The last three arrive with the
      release-history step and are read but never written. */
  datatype ReleaseBody = ReleaseBody(
    title: Option<string>,
    recordLabel: Option<string>,
    pLine: Option<string>,
    cLine: Option<string>,
    genre: Option<string>,
    language: Option<string>,
    version: Option<string>,
    upc: Option<string>,
    releaseDate: Option<string>,
    previousDistribution: Option<string>,
    brandNew: Option<bool>,
    previouslyReleased: Option<bool>)

  /** The columns `updateRelease` may set, and one `column = ?` with its value. */
  datatype Column = TitleCol | LabelCol | PLineCol | CLineCol | GenreCol | LanguageCol
                  | VersionCol | UpcCol | ReleaseDateCol | CoverPathCol

  datatype Assignment = Assignment(column: Column, value: string)

  function SetColumn(r: ReleaseRow, a: Assignment): ReleaseRow {
    match a.column
    case TitleCol => r.(title := a.value)
    case LabelCol => r.(recordLabel := Some(a.value))
    case PLineCol => r.(pLine := Some(a.value))
    case CLineCol => r.(cLine := Some(a.value))
    case GenreCol => r.(genre := Some(a.value))
    case LanguageCol => r.(language := Some(a.value))
    case VersionCol => r.(version := Some(a.value))
    case UpcCol => r.(upc := Some(a.value))
    case ReleaseDateCol => r.(releaseDate := Some(a.value))
    case CoverPathCol => r.(coverPath := Some(a.value))
  }

  /** `SET c1 = ?, c2 = ?, ...` applied left to right. */
  function ApplyAssignments(r: ReleaseRow, fs: seq<Assignment>): ReleaseRow {
    if fs == [] then r else SetColumn(ApplyAssignments(r, fs[..|fs| - 1]), fs[|fs| - 1])
  }

  lemma {:induction false} ApplyAppend(r: ReleaseRow, fs: seq<Assignment>, gs: seq<Assignment>)
    ensures ApplyAssignments(r, fs + gs) == ApplyAssignments(ApplyAssignments(r, fs), gs)
  {
    if gs == [] {
      assert fs + gs == fs;
    } else {
      assert (fs + gs)[..|fs + gs| - 1] == fs + gs[..|gs| - 1];
      ApplyAppend(r, fs, gs[..|gs| - 1]);
    }
  }

  function CoverPath(filename: string): string {
    "/uploads/covers/" + filename
  }

  function Pick(v: Option<string>, old_: Option<string>): Option<string> {
    if Truthy(v) then v else old_
  }

  /** The row after `updateRelease`: every column whose body field is truthy takes that value,
      the cover path changes only when a file was uploaded, and nothing else changes. */
  function PatchRelease(r: ReleaseRow, body: ReleaseBody, file: Option<string>): ReleaseRow {
    r.(title := if Truthy(body.title) then body.title.value else r.title,
       recordLabel := Pick(body.recordLabel, r.recordLabel),
       pLine := Pick(body.pLine, r.pLine),
       cLine := Pick(body.cLine, r.cLine),
       genre := Pick(body.genre, r.genre),
       language := Pick(body.language, r.language),
       version := Pick(body.version, r.version),
       upc := Pick(body.upc, r.upc),
       releaseDate := Pick(body.releaseDate, r.releaseDate),
       coverPath := if file.Some? then Some(CoverPath(file.value)) else r.coverPath)
  }

  /** The assignment pushed for one truthy body field. */
  function Push(c: Column, v: Option<string>): seq<Assignment> {
    if Truthy(v) then [Assignment(c, v.value)] else []
  }

  /** The row after one pushed assignment, if the field was truthy. */
  function StepRow(r: ReleaseRow, c: Column, v: Option<string>): ReleaseRow {
    match c
    case TitleCol => r.(title := if Truthy(v) then v.value else r.title)
    case LabelCol => r.(recordLabel := Pick(v, r.recordLabel))
    case PLineCol => r.(pLine := Pick(v, r.pLine))
    case CLineCol => r.(cLine := Pick(v, r.cLine))
    case GenreCol => r.(genre := Pick(v, r.genre))
    case LanguageCol => r.(language := Pick(v, r.language))
    case VersionCol => r.(version := Pick(v, r.version))
    case UpcCol => r.(upc := Pick(v, r.upc))
    case ReleaseDateCol => r.(releaseDate := Pick(v, r.releaseDate))
    case CoverPathCol => r.(coverPath := Pick(v, r.coverPath))
  }

  lemma StepRowSets(r: ReleaseRow, c: Column, v: Option<string>)
    ensures StepRow(r, c, v) == if Truthy(v) then SetColumn(r, Assignment(c, v.value)) else r
  {
  }

  lemma ApplyPush(r: ReleaseRow, fs: seq<Assignment>, c: Column, v: Option<string>)
    ensures ApplyAssignments(r, fs + Push(c, v)) == StepRow(ApplyAssignments(r, fs), c, v)
  {
    StepRowSets(ApplyAssignments(r, fs), c, v);
    if !Truthy(v) {
      assert fs + Push(c, v) == fs;
    } else {
      assert (fs + Push(c, v))[..|fs|] == fs;
    }
  }

  function CoverAssignment(file: Option<string>): seq<Assignment> {
    if file.Some? then [Assignment(CoverPathCol, CoverPath(file.value))] else []
  }

  /** The list of assignments `updateRelease` builds, in the order it pushes them. */
  function BuiltAssignments(body: ReleaseBody, file: Option<string>): seq<Assignment> {
    Push(TitleCol, body.title) + Push(LabelCol, body.recordLabel) + Push(PLineCol, body.pLine) +
    Push(CLineCol, body.cLine) + Push(GenreCol, body.genre) + Push(LanguageCol, body.language) +
    Push(VersionCol, body.version) + Push(UpcCol, body.upc) + Push(ReleaseDateCol, body.releaseDate) +
    CoverAssignment(file)
  }

  /** The nine text columns stepped one after the other give the patch without a cover. */
  lemma StagesPatch(r: ReleaseRow, body: ReleaseBody)
    ensures StepRow(StepRow(StepRow(StepRow(StepRow(StepRow(StepRow(StepRow(StepRow(r,
      TitleCol, body.title), LabelCol, body.recordLabel), PLineCol, body.pLine), CLineCol, body.cLine),
      GenreCol, body.genre), LanguageCol, body.language), VersionCol, body.version), UpcCol, body.upc),
      ReleaseDateCol, body.releaseDate) == PatchRelease(r, body, None)
  {
  }

  /** Running the built `SET` list is the declarative patch. */
  lemma BuiltAssignmentsPatch(r: ReleaseRow, body: ReleaseBody, file: Option<string>)
    ensures ApplyAssignments(r, BuiltAssignments(body, file)) == PatchRelease(r, body, file)
  {
    var b1 := [] + Push(TitleCol, body.title);
    var b2 := b1 + Push(LabelCol, body.recordLabel);
    var b3 := b2 + Push(PLineCol, body.pLine);
    var b4 := b3 + Push(CLineCol, body.cLine);
    var b5 := b4 + Push(GenreCol, body.genre);
    var b6 := b5 + Push(LanguageCol, body.language);
    var b7 := b6 + Push(VersionCol, body.version);
    var b8 := b7 + Push(UpcCol, body.upc);
    var b9 := b8 + Push(ReleaseDateCol, body.releaseDate);
    assert [] + Push(TitleCol, body.title) == Push(TitleCol, body.title);
    assert BuiltAssignments(body, file) == b9 + CoverAssignment(file);
    ApplyPush(r, [], TitleCol, body.title);
    var r1 := StepRow(r, TitleCol, body.title);
    ApplyPush(r, b1, LabelCol, body.recordLabel);
    var r2 := StepRow(r1, LabelCol, body.recordLabel);
    ApplyPush(r, b2, PLineCol, body.pLine);
    var r3 := StepRow(r2, PLineCol, body.pLine);
    ApplyPush(r, b3, CLineCol, body.cLine);
    var r4 := StepRow(r3, CLineCol, body.cLine);
    ApplyPush(r, b4, GenreCol, body.genre);
    var r5 := StepRow(r4, GenreCol, body.genre);
    ApplyPush(r, b5, LanguageCol, body.language);
    var r6 := StepRow(r5, LanguageCol, body.language);
    ApplyPush(r, b6, VersionCol, body.version);
    var r7 := StepRow(r6, VersionCol, body.version);
    ApplyPush(r, b7, UpcCol, body.upc);
    var r8 := StepRow(r7, UpcCol, body.upc);
    ApplyPush(r, b8, ReleaseDateCol, body.releaseDate);
    var r9 := StepRow(r8, ReleaseDateCol, body.releaseDate);
    assert ApplyAssignments(r, b9) == r9;
    StagesPatch(r, body);
    assert r9 == PatchRelease(r, body, None);
    if file.Some? {
      assert PatchRelease(r, body, file) == r9.(coverPath := Some(CoverPath(file.value)));
      assert (b9 + CoverAssignment(file))[..|b9|] == b9;
    } else {
      assert b9 + CoverAssignment(file) == b9;
    }
  }

  /** `updateRelease`. `file` is the stored name of an uploaded cover, if any. A caller who
      does not own the release gets 404 and nothing changes; otherwise the truthy fields and the
      cover are written to every row with that id, and the reply carries the cover path. */
  method UpdateRelease(db: Database, caller: AuthUser, id: int, body: ReleaseBody, file: Option<string>)
    returns (res: Response<Option<string>>)
    requires db.Valid()
    modifies db
    ensures db.Valid()
    ensures db.users == old(db.users) && db.tracks == old(db.tracks) && db.revenues == old(db.revenues)
    ensures db.nextReleaseId == old(db.nextReleaseId)
    ensures FindOwned(old(db.releases), id, caller.id).None? ==>
      res == Fail(404, "Release not found or unauthorized") && db.releases == old(db.releases)
    ensures FindOwned(old(db.releases), id, caller.id).Some? ==>
      res == Ok(200, if file.Some? then Some(CoverPath(file.value))
                     else FindOwned(old(db.releases), id, caller.id).value.coverPath) &&
      |db.releases| == |old(db.releases)| &&
      forall i :: 0 <= i < |db.releases| ==>
        db.releases[i] == if old(db.releases)[i].id == id then PatchRelease(old(db.releases)[i], body, file)
                          else old(db.releases)[i]
  {
    var owned := FindOwned(db.releases, id, caller.id);
    if owned.None? {
      return Fail(404, "Release not found or unauthorized");
    }
    var coverPath := owned.value.coverPath;
    if file.Some? {
      coverPath := Some(CoverPath(file.value));
    }
    var fields: seq<Assignment> := [];
    assert fields + Push(TitleCol, body.title) == Push(TitleCol, body.title);
    fields := fields + Push(TitleCol, body.title);
    fields := fields + Push(LabelCol, body.recordLabel);
    fields := fields + Push(PLineCol, body.pLine);
    fields := fields + Push(CLineCol, body.cLine);
    fields := fields + Push(GenreCol, body.genre);
    fields := fields + Push(LanguageCol, body.language);
    fields := fields + Push(VersionCol, body.version);
    fields := fields + Push(UpcCol, body.upc);
    fields := fields + Push(ReleaseDateCol, body.releaseDate);
    if file.Some? {
      fields := fields + [Assignment(CoverPathCol, coverPath.value)];
    }
    assert fields == BuiltAssignments(body, file);
    if |fields| > 0 {
      var fs := fields;
      var updated := UpdateWhereId(db.releases, id, r => ApplyAssignments(r, fs));
      UpdateIsPatch(db.releases, updated, id, body, file, fs);
      assert SameIds(db.releases, updated);
      SameIdsKeepKeys(db.releases, updated, db.nextReleaseId);
      db.releases := updated;
    } else {
      EmptyUpdateIsPatch(db.releases, id, body, file);
    }
    res := Ok(200, coverPath);
  }

  /** Running the built list on every row with the id patches exactly those rows. */
  lemma UpdateIsPatch(rs: seq<ReleaseRow>, updated: seq<ReleaseRow>, id: int, body: ReleaseBody,
                      file: Option<string>, fs: seq<Assignment>)
    requires fs == BuiltAssignments(body, file)
    requires |updated| == |rs|
    requires forall i :: 0 <= i < |rs| ==> updated[i] == if rs[i].id == id then ApplyAssignments(rs[i], fs) else rs[i]
    ensures forall i :: 0 <= i < |rs| ==> updated[i] == if rs[i].id == id then PatchRelease(rs[i], body, file) else rs[i]
  {
    forall i | 0 <= i < |rs| && rs[i].id == id
      ensures ApplyAssignments(rs[i], fs) == PatchRelease(rs[i], body, file)
    {
      BuiltAssignmentsPatch(rs[i], body, file);
    }
  }

  /** When nothing was pushed, the patch leaves every row as it is. */
  lemma EmptyUpdateIsPatch(rs: seq<ReleaseRow>, id: int, body: ReleaseBody, file: Option<string>)
    requires BuiltAssignments(body, file) == []
    ensures forall i :: 0 <= i < |rs| ==> rs[i] == if rs[i].id == id then PatchRelease(rs[i], body, file) else rs[i]
  {
    forall i | 0 <= i < |rs|
      ensures PatchRelease(rs[i], body, file) == rs[i]
    {
      BuiltAssignmentsPatch(rs[i], body, file);
    }
  }

  /** With no truthy field and no file, as when the release-history step sends its JSON body,
      the update writes nothing. */
  lemma HistoryOnlyBodyChangesNothing(r: ReleaseRow, pd: Option<string>, bn: Option<bool>, pr: Option<bool>)
    ensures PatchRelease(r, ReleaseBody(None, None, None, None, None, None, None, None, None, pd, bn, pr), None) == r
  {
  }

  /** The multipart text fields `addTrack` reads. */
  datatype TrackBody = TrackBody(
    title: Option<string>,
    trackNumber: Option<string>,
    isrc: Option<string>,
    genre: Option<string>,
    explicit: Option<string>,
    composer: Option<string>,
    lyricist: Option<string>,
    lyrics: Option<string>)

  /** The range of the signed 32-bit INT column. */
  const IntMin := -0x8000_0000
  const IntMax := 0x7FFF_FFFF

  predicate AllDigits(t: string) {
    forall i :: 0 <= i < |t| ==> IsDigit(t[i])
  }

  /** A text of digits with an optional leading '+' or '-', and its value. */
  function SignedValue(t: string): Option<int> {
    if |t| > 0 && AllDigits(t) then Some(DecimalValue(t) as int)
    else if |t| > 1 && (t[0] == '-' || t[0] == '+') && AllDigits(t[1..]) then
      Some(if t[0] == '-' then -(DecimalValue(t[1..]) as int) else DecimalValue(t[1..]) as int)
    else None
  }

  /** How the INT column takes a text value under strict SQL mode: a signed decimal within the
      column's range. Any other text, a value out of range, or a missing value for a NOT NULL
      column makes the insert fail. */
  function NumericText(s: Option<string>): (n: Option<int>)
    ensures n.Some? ==> IntMin <= n.value <= IntMax
    ensures s.Some? && |s.value| > 0 && AllDigits(s.value) ==>
      n == if DecimalValue(s.value) <= IntMax then Some(DecimalValue(s.value) as int) else None
    ensures s.None? || s.value == "" || s.value == "-" || s.value == "+" ==> n.None?
  {
    if s.None? then None
    else
      match SignedValue(s.value)
      case None => None
      case Some(v) => if IntMin <= v <= IntMax then Some(v) else None
  }

  /** A leading '+' is read as no sign at all. */
  lemma PlusSignIgnored(t: string)
    requires |t| > 0 && AllDigits(t)
    ensures NumericText(Some("+" + t)) == NumericText(Some(t))
  {
    assert ("+" + t)[1..] == t;
  }

  function AudioPath(filename: string): string {
    "/uploads/audio/" + filename
  }

  /** `explicit === 'true'`. */
  predicate ExplicitValue(v: Option<string>) {
    v == Some("true")
  }

  function NewTrack(id: int, releaseId: int, n: int, body: TrackBody, audio: string, clip: string): TrackRow
    requires body.title.Some?
  {
    TrackRow(id, releaseId, n, body.title.value, AudioPath(audio), AudioPath(clip), body.isrc, body.genre,
      ExplicitValue(body.explicit), body.composer, body.lyricist, body.lyrics)
  }

  /** `addTrack`. `audioFile` and `audioClip` are the stored names of the uploaded files. The
      missing-file check comes before the ownership check; a track is inserted only when both
      pass and the NOT NULL columns get values. */
  method AddTrack(db: Database, caller: AuthUser, id: int, body: TrackBody, audioFile: Option<string>, audioClip: Option<string>)
    returns (res: Response<string>)
    requires db.Valid()
    modifies db
    ensures db.Valid()
    ensures db.users == old(db.users) && db.releases == old(db.releases) && db.revenues == old(db.revenues)
    ensures audioFile.None? || audioClip.None? ==>
      res == Fail(400, "Audio file and clip are required") && db.tracks == old(db.tracks)
    ensures audioFile.Some? && audioClip.Some? && FindOwned(db.releases, id, caller.id).None? ==>
      res == Fail(404, "Release not found or unauthorized") && db.tracks == old(db.tracks)
    ensures res.Ok? <==>
      audioFile.Some? && audioClip.Some? && FindOwned(db.releases, id, caller.id).Some? &&
      NumericText(body.trackNumber).Some? && body.title.Some?
    ensures !res.Ok? ==> db.tracks == old(db.tracks)
    ensures res.Ok? ==> (res == Ok(201, "Track added successfully") &&
      db.tracks == old(db.tracks) + [NewTrack(old(db.nextTrackId), id, NumericText(body.trackNumber).value, body,
        audioFile.value, audioClip.value)])
  {
    if audioFile.None? || audioClip.None? {
      return Fail(400, "Audio file and clip are required");
    }
    var owned := FindOwned(db.releases, id, caller.id);
    if owned.None? {
      return Fail(404, "Release not found or unauthorized");
    }
    var n := NumericText(body.trackNumber);
    if n.None? || body.title.None? {
      return Fail(500, "Internal server error");
    }
    var tid := db.nextTrackId;
    db.tracks := db.tracks + [NewTrack(tid, id, n.value, body, audioFile.value, audioClip.value)];
    db.nextTrackId := tid + 1;
    res := Ok(201, "Track added successfully");
  }

  /** A release with its tracks, as `getRelease` answers. */
  datatype ReleaseDetails = ReleaseDetails(release: ReleaseRow, tracks: seq<TrackRow>)

  /** The first row `SELECT * FROM releases WHERE id = ?` finds, with `AND user_id = ?` for
      role user. */
  function FindVisible(rs: seq<ReleaseRow>, id: int, caller: AuthUser): (r: Option<ReleaseRow>)
    ensures r.Some? ==> r.value in rs && r.value.id == id && Visible(r.value, caller)
    ensures r.None? <==> forall i :: 0 <= i < |rs| ==> !(rs[i].id == id && Visible(rs[i], caller))
  {
    if rs == [] then None
    else if rs[0].id == id && Visible(rs[0], caller) then Some(rs[0])
    else FindVisible(rs[1..], id, caller)
  }

  /** `WHERE release_id = ?`. */
  function TracksOf(ts: seq<TrackRow>, releaseId: int): (r: seq<TrackRow>)
    ensures forall t :: t in r <==> t in ts && t.releaseId == releaseId
  {
    if ts == [] then []
    else (if ts[0].releaseId == releaseId then [ts[0]] else []) + TracksOf(ts[1..], releaseId)
  }

  function TrackNumberKey(t: TrackRow): int {
    t.trackNumber
  }

  /** `getRelease`: 404 unless the caller may see a release with this id; otherwise the release
      and exactly its tracks, in ascending track number. */
  function GetRelease(releases: seq<ReleaseRow>, tracks: seq<TrackRow>, caller: AuthUser, id: int): (res: Response<ReleaseDetails>)
    ensures res.Fail? <==> forall i :: 0 <= i < |releases| ==> !(releases[i].id == id && Visible(releases[i], caller))
    ensures res.Fail? ==> res == Fail(404, "Release not found")
    ensures res.Ok? ==> (res.code == 200 && res.body.release in releases && res.body.release.id == id &&
      Visible(res.body.release, caller))
    ensures res.Ok? ==> (SortedBy(res.body.tracks, TrackNumberKey) &&
      multiset(res.body.tracks) == multiset(TracksOf(tracks, id)))
  {
    match FindVisible(releases, id, caller)
    case None => Fail(404, "Release not found")
    case Some(r) => Ok(200, ReleaseDetails(r, SortBy(TracksOf(tracks, id), TrackNumberKey)))
  }

  /** Every track `getRelease` returns belongs to the release, and every track of the release is
      returned. */
  lemma GetReleaseTracks(releases: seq<ReleaseRow>, tracks: seq<TrackRow>, caller: AuthUser, id: int, t: TrackRow)
    requires GetRelease(releases, tracks, caller, id).Ok?
    ensures t in GetRelease(releases, tracks, caller, id).body.tracks <==> t in tracks && t.releaseId == id
  {
    var d := GetRelease(releases, tracks, caller, id).body;
    assert t in d.tracks <==> t in multiset(d.tracks);
    assert t in TracksOf(tracks, id) <==> t in multiset(TracksOf(tracks, id));
  }

  /** A caller with role user never sees a release owned by someone else. */
  lemma UserSeesOnlyOwnRelease(releases: seq<ReleaseRow>, tracks: seq<TrackRow>, caller: AuthUser, id: int)
    requires caller.role == User
    requires GetRelease(releases, tracks, caller, id).Ok?
    ensures GetRelease(releases, tracks, caller, id).body.release.userId == caller.id
  {
  }

  /** One row of the listing: the release, its owner's name (NULL when no user row matches),
      and its number of tracks. */
  datatype Listed = Listed(release: ReleaseRow, artistName: Option<string>, trackCount: nat)

  function ArtistName(users: seq<UserRow>, userId: int): Option<string> {
    if users == [] then None
    else if users[0].id == userId then Some(users[0].name)
    else ArtistName(users[1..], userId)
  }

  function TrackCount(ts: seq<TrackRow>, releaseId: int): nat {
    if ts == [] then 0 else (if ts[0].releaseId == releaseId then 1 else 0) + TrackCount(ts[1..], releaseId)
  }

  /** One `WHERE` condition of `getReleases`. */
  datatype Condition = OwnedBy(userId: int) | HasStatus(status: string)

  predicate Holds(c: Condition, r: ReleaseRow) {
    match c
    case OwnedBy(u) => r.userId == u
    case HasStatus(s) => r.status == Some(s)
  }

  predicate AllHold(cs: seq<Condition>, r: ReleaseRow) {
    forall i :: 0 <= i < |cs| ==> Holds(cs[i], r)
  }

  /** Which releases the listing shows: role user only its own, and only those with the given
      status when a non-empty status is asked for. */
  predicate Listable(r: ReleaseRow, caller: AuthUser, status: Option<string>) {
    Visible(r, caller) && (Truthy(status) ==> r.status == status)
  }

  /** The listing before ordering: the matching releases with their joined columns. */
  function Listing(releases: seq<ReleaseRow>, users: seq<UserRow>, tracks: seq<TrackRow>, caller: AuthUser, status: Option<string>): seq<Listed> {
    if releases == [] then []
    else
      var r := releases[|releases| - 1];
      Listing(releases[..|releases| - 1], users, tracks, caller, status) +
        (if Listable(r, caller, status) then [Listed(r, ArtistName(users, r.userId), TrackCount(tracks, r.id))] else [])
  }

  /** A release is listed exactly when it matches, and then with its owner's name and its
      track count. */
  lemma {:induction false} ListingMembers(releases: seq<ReleaseRow>, users: seq<UserRow>, tracks: seq<TrackRow>,
                                          caller: AuthUser, status: Option<string>, x: Listed)
    ensures x in Listing(releases, users, tracks, caller, status) <==>
      x.release in releases && Listable(x.release, caller, status) &&
      x.artistName == ArtistName(users, x.release.userId) && x.trackCount == TrackCount(tracks, x.release.id)
  {
    if releases != [] {
      var init := releases[..|releases| - 1];
      ListingMembers(init, users, tracks, caller, status, x);
      assert releases == init + [releases[|releases| - 1]];
    }
  }

  function NewestFirst(x: Listed): int {
    -x.release.createdAt
  }

  /** A smaller key is a later creation time, so an ascending sort on it puts the newest first. */
  lemma NewestFirstKeyOrder(x: Listed, y: Listed)
    ensures NewestFirst(x) <= NewestFirst(y) <==> x.release.createdAt >= y.release.createdAt
    ensures NewestFirst(x) == NewestFirst(y) <==> x.release.createdAt == y.release.createdAt
  {
  }

  predicate NewestFirstOrder(s: seq<Listed>) {
    forall i, j :: 0 <= i < j < |s| ==> s[i].release.createdAt >= s[j].release.createdAt
  }

  /** `getReleases`: the conditions are pushed for the caller's role and the status filter,
      every release is matched against them, and the rows come back newest first. */
  method GetReleases(db: Database, caller: AuthUser, status: Option<string>) returns (rows: seq<Listed>)
    ensures NewestFirstOrder(rows)
    ensures multiset(rows) == multiset(Listing(db.releases, db.users, db.tracks, caller, status))
  {
    var conditions: seq<Condition> := [];
    if caller.role == User {
      conditions := conditions + [OwnedBy(caller.id)];
    }
    if Truthy(status) {
      conditions := conditions + [HasStatus(status.value)];
    }
    assert conditions == (if caller.role == User then [OwnedBy(caller.id)] else []) +
      (if Truthy(status) then [HasStatus(status.value)] else []);
    PushedConditions(caller, status, conditions);
    var releases, users, tracks := db.releases, db.users, db.tracks;
    var matched: seq<Listed> := [];
    var i := 0;
    while i < |releases|
      invariant 0 <= i <= |releases|
      invariant matched == Listing(releases[..i], users, tracks, caller, status)
    {
      var r := releases[i];
      ListingStep(releases, users, tracks, caller, status, i);
      if AllHold(conditions, r) {
        matched := matched + [Listed(r, ArtistName(users, r.userId), TrackCount(tracks, r.id))];
      }
      i := i + 1;
    }
    assert releases[..i] == releases;
    rows := SortBy(matched, NewestFirst);
    NewestFirstSorted(rows);
  }

  /** One more release considered extends the listing by that release if it matches. */
  lemma ListingStep(releases: seq<ReleaseRow>, users: seq<UserRow>, tracks: seq<TrackRow>,
                    caller: AuthUser, status: Option<string>, i: nat)
    requires i < |releases|
    ensures var r := releases[i];
      Listing(releases[..i + 1], users, tracks, caller, status) ==
        Listing(releases[..i], users, tracks, caller, status) +
        (if Listable(r, caller, status) then [Listed(r, ArtistName(users, r.userId), TrackCount(tracks, r.id))] else [])
  {
    assert releases[..i + 1][..i] == releases[..i];
  }

  lemma NewestFirstSorted(rows: seq<Listed>)
    requires Sorting.SortedBy(rows, NewestFirst)
    ensures NewestFirstOrder(rows)
  {
    assert forall a, b :: 0 <= a < b < |rows| ==> NewestFirst(rows[a]) <= NewestFirst(rows[b]);
  }

  /** The pushed conditions hold of a release exactly when the listing shows it. */
  lemma PushedConditions(caller: AuthUser, status: Option<string>, conditions: seq<Condition>)
    requires conditions == (if caller.role == User then [OwnedBy(caller.id)] else []) +
      (if Truthy(status) then [HasStatus(status.value)] else [])
    ensures forall r :: AllHold(conditions, r) <==> Listable(r, caller, status)
  {
    forall r ensures AllHold(conditions, r) <==> Listable(r, caller, status) {
      if caller.role == User && Truthy(status) {
        assert conditions == [OwnedBy(caller.id), HasStatus(status.value)];
        assert AllHold(conditions, r) <==> Holds(conditions[0], r) && Holds(conditions[1], r);
      } else if caller.role == User {
        assert conditions == [OwnedBy(caller.id)];
        assert AllHold(conditions, r) <==> Holds(conditions[0], r);
      } else if Truthy(status) {
        assert conditions == [HasStatus(status.value)];
        assert AllHold(conditions, r) <==> Holds(conditions[0], r);
      }
    }
  }

  /** `updateReleaseStatus`: role user may only ask for 'pending'. There is no ownership check:
      every row with the id takes the status (NULL when none was sent) and, when a non-zero
      aggregator id was sent, that aggregator. */
  method UpdateReleaseStatus(db: Database, caller: AuthUser, id: int, status: Option<string>, aggregatorId: Option<int>)
    returns (res: Response<string>)
    requires db.Valid()
    modifies db
    ensures db.Valid()
    ensures db.users == old(db.users) && db.tracks == old(db.tracks) && db.revenues == old(db.revenues)
    ensures caller.role == User && status != Some("pending") ==>
      res == Fail(403, "Unauthorized status change") && db.releases == old(db.releases)
    ensures !(caller.role == User && status != Some("pending")) ==> (
      res == Ok(200, "Status updated successfully") && |db.releases| == |old(db.releases)| &&
      forall i :: 0 <= i < |db.releases| ==>
        db.releases[i] == if old(db.releases)[i].id == id then
          old(db.releases)[i].(status := status,
            aggregatorId := if TruthyNumber(aggregatorId) then aggregatorId else old(db.releases)[i].aggregatorId)
        else old(db.releases)[i])
  {
    if caller.role == User && status != Some("pending") {
      return Fail(403, "Unauthorized status change");
    }
    var setAggregator := TruthyNumber(aggregatorId);
    var updated := UpdateWhereId(db.releases, id,
      (r: ReleaseRow) => r.(status := status, aggregatorId := if setAggregator then aggregatorId else r.aggregatorId));
    assert forall i :: 0 <= i < |updated| ==>
      updated[i] == if db.releases[i].id == id then
        db.releases[i].(status := status, aggregatorId := if setAggregator then aggregatorId else db.releases[i].aggregatorId)
      else db.releases[i];
    assert SameIds(db.releases, updated);
    SameIdsKeepKeys(db.releases, updated, db.nextReleaseId);
    db.releases := updated;
    res := Ok(200, "Status updated successfully");
  }
}
