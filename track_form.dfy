/** The form for one track: text fields, the explicit flag, and the two audio files. */
module TrackForm {
  import opened Common
  import opened ReleaseStore

  /** The values the user edits; the track number is a default the form does not expose. */
  datatype TrackFields = TrackFields(
    title: string,
    isrc: Option<string>,
    genre: string,
    explicit: bool,
    composer: Option<string>,
    lyricist: Option<string>,
    lyrics: Option<string>)

  /** Title and genre are required. */
  predicate RequiredFilled(f: TrackFields) {
    f.title != "" && f.genre != ""
  }

  class Form {
    const trackNumber: int
    var audioFile: Option<File>
    var clipFile: Option<File>

    /** The form opens with no files chosen. */
    constructor(trackNumber: int)
      ensures this.trackNumber == trackNumber && audioFile.None? && clipFile.None?
    {
      this.trackNumber := trackNumber;
      audioFile := None;
      clipFile := None;
    }

    /** `setAudioFile(e.target.files?.[0] || null)`: a cleared input clears the file. */
    method SelectAudio(f: Option<File>)
      modifies this
      ensures audioFile == f && clipFile == old(clipFile)
    {
      audioFile := f;
    }

    method SelectClip(f: Option<File>)
      modifies this
      ensures clipFile == f && audioFile == old(audioFile)
    {
      clipFile := f;
    }

    /** What `onSave` receives, if it is called: nothing for an invalid form or a missing file,
        otherwise the fields with the default number and both files attached. */
    method Submit(fields: TrackFields) returns (saved: Option<Track>)
      ensures saved.Some? <==> RequiredFilled(fields) && audioFile.Some? && clipFile.Some?
      ensures saved.Some? ==> saved.value == Track(fields.title, trackNumber, fields.isrc, fields.genre,
        fields.explicit, fields.composer, fields.lyricist, fields.lyrics, audioFile, clipFile)
    {
      if !RequiredFilled(fields) {
        return None;
      }
      if audioFile.None? || clipFile.None? {
        return None;
      }
      saved := Some(Track(fields.title, trackNumber, fields.isrc, fields.genre, fields.explicit,
        fields.composer, fields.lyricist, fields.lyrics, audioFile, clipFile));
    }
  }
}
