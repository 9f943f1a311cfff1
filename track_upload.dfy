/** The way a track travels from step 3 of the wizard to the tracks table: the multipart body
    the client builds, the text fields multer hands to `addTrack`, and the row it inserts. */
module TrackUpload {
  import opened Common
  import opened Strings
  import opened ReleaseStore
  import opened Tables
  import Step2BasicInfo
  import Step3Tracks
  import ReleaseController

  type FormData = Step2BasicInfo.FormData

  /** Every text value sent under a name, in order. File parts never reach `req.body`. */
  function TextParts(fd: FormData, key: string): seq<string> {
    if fd == [] then []
    else
      var last := fd[|fd| - 1];
      TextParts(fd[..|fd| - 1], key) + if last.0 == key && last.1.Text? then [last.1.text] else []
  }

  /** A `req.body[key]` as multer fills it: one text part gives a string, and a name repeated
      in the body gives the array of its values. */
  datatype BodyValue = Value(text: string) | Values(texts: seq<string>)

  function BodyField(fd: FormData, key: string): (v: Option<BodyValue>)
    ensures v.None? <==> TextParts(fd, key) == []
    ensures |TextParts(fd, key)| == 1 ==> v == Some(Value(TextParts(fd, key)[0]))
    ensures |TextParts(fd, key)| > 1 ==> v == Some(Values(TextParts(fd, key)))
  {
    var ps := TextParts(fd, key);
    if ps == [] then None else if |ps| == 1 then Some(Value(ps[0])) else Some(Values(ps))
  }

  /** The one string a name carries when the handler reads it as text: for a name sent at most
      once this is multer's value (`BodyFieldOfSingle`); for a repeated name it picks the last
      value, which multer does not do, and no body this model builds repeats a name
      (`TrackBodySendsNamesOnce`). */
  function TextField(fd: FormData, key: string): (v: Option<string>)
    ensures v.Some? ==> (key, Step2BasicInfo.Text(v.value)) in fd
    ensures v.None? <==> forall i :: 0 <= i < |fd| ==> !(fd[i].0 == key && fd[i].1.Text?)
  {
    if fd == [] then None
    else
      var last := fd[|fd| - 1];
      if last.0 == key && last.1.Text? then Some(last.1.text) else TextField(fd[..|fd| - 1], key)
  }

  /** A string from the value multer gives a name sent at most once. */
  function AsText(v: Option<BodyValue>): Option<string> {
    match v
    case Some(Value(s)) => Some(s)
    case _ => None
  }

  /** For a name sent at most once, the handler's text is multer's value: absent, or the one
      string sent. */
  lemma {:induction false} BodyFieldOfSingle(fd: FormData, key: string)
    requires |TextParts(fd, key)| <= 1
    ensures BodyField(fd, key) == (match TextField(fd, key) case None => None case Some(s) => Some(Value(s)))
    ensures TextField(fd, key) == AsText(BodyField(fd, key))
  {
    if fd != [] {
      var init := fd[..|fd| - 1];
      var last := fd[|fd| - 1];
      BodyFieldOfSingle(init, key);
      if last.0 == key && last.1.Text? {
        assert TextParts(init, key) == [];
        TextPartsEmpty(init, key);
      }
    }
  }

  /** No text part under a name leaves it out of the body. */
  lemma {:induction false} TextPartsEmpty(fd: FormData, key: string)
    requires TextParts(fd, key) == []
    ensures TextField(fd, key) == None
  {
    if fd != [] {
      TextPartsEmpty(fd[..|fd| - 1], key);
    }
  }

  lemma {:induction false} TextPartsAppend(a: FormData, b: FormData, key: string)
    ensures TextParts(a + b, key) == TextParts(a, key) + TextParts(b, key)
  {
    if b != [] {
      var init := b[..|b| - 1];
      assert (a + b)[..|a + b| - 1] == a + init;
      assert (a + b)[|a + b| - 1] == b[|b| - 1];
      TextPartsAppend(a, init, key);
    } else {
      assert a + b == a;
    }
  }

  /** The last defined value the entries hold under a key. */
  function LastDefined(entries: seq<(string, Option<string>)>, key: string): Option<string> {
    if entries == [] then None
    else
      var last := entries[|entries| - 1];
      if last.0 == key && last.1.Some? then last.1 else LastDefined(entries[..|entries| - 1], key)
  }

  /** Of the two halves of a body, the text `TextField` finds in the later one is preferred. */
  lemma {:induction false} TextFieldAppend(a: FormData, b: FormData, key: string)
    ensures TextField(a + b, key) == if TextField(b, key).Some? then TextField(b, key) else TextField(a, key)
  {
    if b != [] {
      var init := b[..|b| - 1];
      assert (a + b)[..|a + b| - 1] == a + init;
      assert (a + b)[|a + b| - 1] == b[|b| - 1];
      TextFieldAppend(a, init, key);
    } else {
      assert a + b == a;
    }
  }

  /** The text parts `forEach` appends carry exactly the defined entries. */
  lemma {:induction false} TextFieldOfDefined(entries: seq<(string, Option<string>)>, key: string)
    ensures TextField(Step3Tracks.DefinedFields(entries), key) == LastDefined(entries, key)
  {
    if entries != [] {
      var init := entries[..|entries| - 1];
      var last := entries[|entries| - 1];
      TextFieldOfDefined(init, key);
      var tail: FormData := if last.1.Some? then [(last.0, Step2BasicInfo.Text(last.1.value))] else [];
      assert Step3Tracks.DefinedFields(entries) == Step3Tracks.DefinedFields(init) + tail;
      TextFieldAppend(Step3Tracks.DefinedFields(init), tail, key);
      if last.1.Some? {
        assert tail[..0] == [];
      }
    }
  }

  lemma NoTextInFiles(t: Track, key: string)
    ensures TextField(Step3Tracks.FileParts(t), key) == None
  {
  }

  /** The text fields `addTrack` destructures from the body. */
  function ReceivedBody(fd: FormData): ReleaseController.TrackBody {
    ReleaseController.TrackBody(TextField(fd, "title"), TextField(fd, "track_number"), TextField(fd, "isrc"),
      TextField(fd, "genre"), TextField(fd, "explicit"), TextField(fd, "composer"), TextField(fd, "lyricist"),
      TextField(fd, "lyrics"))
  }

  /** The server reads the client's rendering of a track number back as that number exactly
      when it fits the INT column; outside that range the insert fails. */
  lemma TrackNumberReadBack(n: int)
    ensures ReleaseController.NumericText(Some(IntToDecimal(n))) ==
      if ReleaseController.IntMin <= n <= ReleaseController.IntMax then Some(n) else None
  {
    if n >= 0 {
      DecimalRoundTrip(n);
    } else {
      var s := IntToDecimal(n);
      assert s == "-" + NatToDecimal(-n);
      assert s[1..] == NatToDecimal(-n);
      assert !IsDigit(s[0]);
      DecimalRoundTrip(-n);
    }
  }

  /** The client's `toString()` of the explicit flag is read back as the flag. */
  lemma ExplicitReadBack(b: bool)
    ensures ReleaseController.ExplicitValue(Some(Step3Tracks.BoolText(b))) == b
  {
  }

  /** What the client sends for a track is what the server receives, field by field. */
  lemma ReceivedTrack(t: Track)
    ensures var b := ReceivedBody(Step3Tracks.DefinedFields(Step3Tracks.TrackEntries(t)) + Step3Tracks.FileParts(t));
      b.title == Some(t.title) && b.trackNumber == Some(IntToDecimal(t.trackNumber)) && b.isrc == t.isrc &&
      b.genre == Some(t.genre) && b.explicit == Some(Step3Tracks.BoolText(t.explicit)) &&
      b.composer == t.composer && b.lyricist == t.lyricist && b.lyrics == t.lyrics
  {
    ReceivedField(t, "title");
    ReceivedField(t, "track_number");
    ReceivedField(t, "isrc");
    ReceivedField(t, "genre");
    ReceivedField(t, "explicit");
    ReceivedField(t, "composer");
    ReceivedField(t, "lyricist");
    ReceivedField(t, "lyrics");
    LastDefinedOfTrack(t);
  }

  /** Each text field the server reads is the last defined entry of the track under that key. */
  lemma ReceivedField(t: Track, key: string)
    ensures TextField(Step3Tracks.DefinedFields(Step3Tracks.TrackEntries(t)) + Step3Tracks.FileParts(t), key) ==
      LastDefined(Step3Tracks.TrackEntries(t), key)
  {
    var entries := Step3Tracks.TrackEntries(t);
    TextFieldAppend(Step3Tracks.DefinedFields(entries), Step3Tracks.FileParts(t), key);
    NoTextInFiles(t, key);
    TextFieldOfDefined(entries, key);
  }

  /** Under a key that occurs once, the entries give the value stored at that place. */
  lemma {:induction false} LastDefinedOnly(entries: seq<(string, Option<string>)>, i: nat, key: string)
    requires i < |entries| && entries[i].0 == key
    requires forall j :: 0 <= j < |entries| && j != i ==> entries[j].0 != key
    ensures LastDefined(entries, key) == entries[i].1
  {
    var init := entries[..|entries| - 1];
    if i < |entries| - 1 {
      LastDefinedOnly(init, i, key);
    } else {
      LastDefinedAbsent(init, key);
    }
  }

  lemma {:induction false} LastDefinedAbsent(entries: seq<(string, Option<string>)>, key: string)
    requires forall j :: 0 <= j < |entries| ==> entries[j].0 != key
    ensures LastDefined(entries, key) == None
  {
    if entries != [] {
      LastDefinedAbsent(entries[..|entries| - 1], key);
    }
  }

  lemma LastDefinedOfTrack(t: Track)
    ensures var e := Step3Tracks.TrackEntries(t);
      LastDefined(e, "title") == Some(t.title) &&
      LastDefined(e, "track_number") == Some(IntToDecimal(t.trackNumber)) &&
      LastDefined(e, "isrc") == t.isrc && LastDefined(e, "genre") == Some(t.genre) &&
      LastDefined(e, "explicit") == Some(Step3Tracks.BoolText(t.explicit)) &&
      LastDefined(e, "composer") == t.composer && LastDefined(e, "lyricist") == t.lyricist &&
      LastDefined(e, "lyrics") == t.lyrics
  {
    var e := Step3Tracks.TrackEntries(t);
    TrackKeysDistinct(t);
    LastDefinedOnly(e, 0, e[0].0);
    LastDefinedOnly(e, 1, e[1].0);
    LastDefinedOnly(e, 2, e[2].0);
    LastDefinedOnly(e, 3, e[3].0);
    LastDefinedOnly(e, 4, e[4].0);
    LastDefinedOnly(e, 5, e[5].0);
    LastDefinedOnly(e, 6, e[6].0);
    LastDefinedOnly(e, 7, e[7].0);
  }

  /** Step 3's entries carry eight distinct names. */
  lemma TrackKeysDistinct(t: Track)
    ensures var e := Step3Tracks.TrackEntries(t);
      |e| == 8 && forall j, k :: 0 <= j < 8 && 0 <= k < 8 && j != k ==> e[j].0 != e[k].0
  {
    var e := Step3Tracks.TrackEntries(t);
    var keys := ["title", "track_number", "isrc", "genre", "explicit", "composer", "lyricist", "lyrics"];
    assert forall j :: 0 <= j < 8 ==> e[j].0 == keys[j];
    assert keys[0][0] == 't' && keys[3][0] == 'g' && keys[4][0] == 'e' && keys[5][0] == 'c' && keys[6][0] == 'l';
  }

  /** A name the entries hold at most at one place is sent at most once. */
  lemma {:induction false} DefinedOnceSentOnce(entries: seq<(string, Option<string>)>, key: string)
    requires forall j, k :: 0 <= j < k < |entries| ==> !(entries[j].0 == key && entries[k].0 == key)
    ensures |TextParts(Step3Tracks.DefinedFields(entries), key)| <= 1
    ensures (forall j :: 0 <= j < |entries| ==> entries[j].0 != key) ==>
      TextParts(Step3Tracks.DefinedFields(entries), key) == []
  {
    if entries != [] {
      var init := entries[..|entries| - 1];
      var last := entries[|entries| - 1];
      DefinedOnceSentOnce(init, key);
      var tail: FormData := if last.1.Some? then [(last.0, Step2BasicInfo.Text(last.1.value))] else [];
      assert Step3Tracks.DefinedFields(entries) == Step3Tracks.DefinedFields(init) + tail;
      TextPartsAppend(Step3Tracks.DefinedFields(init), tail, key);
      if tail != [] {
        assert tail[..0] == [];
      }
    }
  }

  lemma NoTextPartsInFiles(t: Track, key: string)
    ensures TextParts(Step3Tracks.FileParts(t), key) == []
  {
    var a: FormData := if t.audioFile.Some? then [("audio_file", Step2BasicInfo.Blob(t.audioFile.value))] else [];
    var b: FormData := if t.audioClip.Some? then [("audio_clip", Step2BasicInfo.Blob(t.audioClip.value))] else [];
    TextPartsAppend(a, b, key);
    assert a == [] || a[..0] == [];
    assert b == [] || b[..0] == [];
  }

  /** Step 3's body repeats no name, so multer gives `addTrack` a plain string or nothing for
      every field, and that string is the one `TextField` reads. */
  lemma TrackBodySendsNamesOnce(t: Track, key: string)
    ensures var fd := Step3Tracks.DefinedFields(Step3Tracks.TrackEntries(t)) + Step3Tracks.FileParts(t);
      |TextParts(fd, key)| <= 1 && TextField(fd, key) == AsText(BodyField(fd, key))
  {
    var e := Step3Tracks.TrackEntries(t);
    TrackKeysDistinct(t);
    DefinedOnceSentOnce(e, key);
    TextPartsAppend(Step3Tracks.DefinedFields(e), Step3Tracks.FileParts(t), key);
    NoTextPartsInFiles(t, key);
    BodyFieldOfSingle(Step3Tracks.DefinedFields(e) + Step3Tracks.FileParts(t), key);
  }

  /** A track the form completed is stored with the client's number, title, flag and texts,
      and with the two uploaded files under /uploads/audio/. */
  lemma StoredTrack(t: Track, trackId: int, releaseId: int, audio: string, clip: string)
    requires ReleaseController.IntMin <= t.trackNumber <= ReleaseController.IntMax
    ensures var b := ReceivedBody(Step3Tracks.DefinedFields(Step3Tracks.TrackEntries(t)) + Step3Tracks.FileParts(t));
      b.title.Some? && ReleaseController.NumericText(b.trackNumber) == Some(t.trackNumber) &&
      ReleaseController.NewTrack(trackId, releaseId, t.trackNumber, b, audio, clip) ==
        TrackRow(trackId, releaseId, t.trackNumber, t.title, ReleaseController.AudioPath(audio),
          ReleaseController.AudioPath(clip), t.isrc, Some(t.genre), t.explicit, t.composer, t.lyricist, t.lyrics)
  {
    ReceivedTrack(t);
    TrackNumberReadBack(t.trackNumber);
  }
}
