/** The database tables the handlers read and write, as sequences of rows. Optional columns
    are `Option`s (`None` is SQL NULL); amounts are integer cents. */
module Tables {
  import opened Common

  /** `createdAt` is the column's CURRENT_TIMESTAMP default, as the server renders it. */
  datatype UserRow = UserRow(id: int, name: string, email: string, passwordHash: string, role: Role,
                             createdAt: string)

  datatype ReleaseRow = ReleaseRow(
    id: int,
    userId: int,
    aggregatorId: Option<int>,
    releaseType: string,
    title: string,
    coverPath: Option<string>,
    upc: Option<string>,
    recordLabel: Option<string>,
    pLine: Option<string>,
    cLine: Option<string>,
    genre: Option<string>,
    language: Option<string>,
    version: Option<string>,
    releaseDate: Option<string>,
    status: Option<string>,
    createdAt: int)

  datatype TrackRow = TrackRow(
    id: int,
    releaseId: int,
    trackNumber: int,
    title: string,
    audioPath: string,
    audioClipPath: string,
    isrc: Option<string>,
    genre: Option<string>,
    explicit: bool,
    composer: Option<string>,
    lyricist: Option<string>,
    lyrics: Option<string>)

  datatype RevenueRow = RevenueRow(id: int, releaseId: int, amountCents: int)

  /** The caller as the authentication middleware decoded it from the token. */
  datatype AuthUser = AuthUser(id: int, email: string, role: Role)

  /** Whether `caller` may see a release: role user sees its own, the other roles see all. */
  predicate Visible(r: ReleaseRow, caller: AuthUser) {
    caller.role != User || r.userId == caller.id
  }

  predicate UniqueReleaseIds(rs: seq<ReleaseRow>) {
    forall i, j :: 0 <= i < j < |rs| ==> rs[i].id != rs[j].id
  }

  /** Every row whose key matches an `UPDATE ... WHERE id = ?` is changed by `f`. */
  function UpdateWhereId(rs: seq<ReleaseRow>, id: int, f: ReleaseRow -> ReleaseRow): (r: seq<ReleaseRow>)
    ensures |r| == |rs|
    ensures forall i :: 0 <= i < |rs| ==> r[i] == if rs[i].id == id then f(rs[i]) else rs[i]
  {
    if rs == [] then []
    else [if rs[0].id == id then f(rs[0]) else rs[0]] + UpdateWhereId(rs[1..], id, f)
  }

  /** Two versions of a table with the same key at every position. */
  predicate SameIds(a: seq<ReleaseRow>, b: seq<ReleaseRow>) {
    |a| == |b| && forall i :: 0 <= i < |a| ==> a[i].id == b[i].id
  }

  /** Rewriting rows without touching their keys keeps the keys unique and below the counter. */
  lemma SameIdsKeepKeys(a: seq<ReleaseRow>, b: seq<ReleaseRow>, next: int)
    requires SameIds(a, b) && UniqueReleaseIds(a)
    requires forall i :: 0 <= i < |a| ==> a[i].id < next
    ensures UniqueReleaseIds(b)
    ensures forall i :: 0 <= i < |b| ==> b[i].id < next
  {
  }

  /** The database, with the next value of each AUTO_INCREMENT counter. */
  class Database {
    var users: seq<UserRow>
    var releases: seq<ReleaseRow>
    var tracks: seq<TrackRow>
    var revenues: seq<RevenueRow>
    var nextUserId: int
    var nextReleaseId: int
    var nextTrackId: int

    /** Keys are unique and below their counters. */
    predicate Valid()
      reads this
    {
      (forall i :: 0 <= i < |users| ==> users[i].id < nextUserId) &&
      (forall i, j :: 0 <= i < j < |users| ==> users[i].id != users[j].id) &&
      (forall i :: 0 <= i < |releases| ==> releases[i].id < nextReleaseId) &&
      UniqueReleaseIds(releases) &&
      (forall i :: 0 <= i < |tracks| ==> tracks[i].id < nextTrackId) &&
      (forall i, j :: 0 <= i < j < |tracks| ==> tracks[i].id != tracks[j].id)
    }

    constructor()
      ensures users == [] && releases == [] && tracks == [] && revenues == []
      ensures Valid()
    {
      users, releases, tracks, revenues := [], [], [], [];
      nextUserId, nextReleaseId, nextTrackId := 1, 1, 1;
    }
  }
}
