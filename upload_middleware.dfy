/** The multer configuration the release routes use (backend/middleware/upload.ts): where each
    uploaded field is stored, how the stored file is named, and which names pass the filter. */
module UploadMiddleware {
  import Common
  import opened Strings
  import opened NodePath

  /** The per-file size limit, 50 MiB. */
  const MaxFileSize: nat := 50 * 1024 * 1024

  /** multer refuses a file once it grows past the limit. */
  predicate WithinSizeLimit(size: nat) {
    size <= MaxFileSize
  }

  /** multer's message for a file past the size limit. */
  const FileTooLarge := "File too large"

  predicate IsAudioField(fieldname: string) {
    fieldname == "audio_file" || fieldname == "audio_clip"
  }

  /** The directory an uploaded field is written to. */
  function Destination(fieldname: string): (dir: string)
    ensures StartsWith(dir, "uploads/")
    ensures dir == "uploads/covers/" <==> fieldname == "cover"
    ensures dir == "uploads/audio/" <==> IsAudioField(fieldname)
    ensures dir == "uploads/others/" <==> fieldname != "cover" && !IsAudioField(fieldname)
  {
    var uploadPath := "uploads/";
    if fieldname == "cover" then uploadPath + "covers/"
    else if IsAudioField(fieldname) then uploadPath + "audio/"
    else uploadPath + "others/"
  }

  /** The `uniqueSuffix` built from the clock reading and the random draw. */
  function UniqueSuffix(now: nat, random: nat): (r: string)
    ensures |r| >= 3 && '-' in r
  {
    NatToDecimal(now) + "-" + NatToDecimal(random)
  }

  /** The suffix holds a single '-', right after the clock reading's digits; every other
      character is a digit, and the two digit runs read back as the clock reading and the draw. */
  lemma UniqueSuffixReadBack(now: nat, random: nat)
    ensures var r, k := UniqueSuffix(now, random), |NatToDecimal(now)|;
      k < |r| && r[k] == '-' &&
      (forall i :: 0 <= i < |r| && i != k ==> IsDigit(r[i])) &&
      DecimalValue(r[..k]) == now && DecimalValue(r[k + 1..]) == random
  {
    var r, k := UniqueSuffix(now, random), |NatToDecimal(now)|;
    assert r[..k] == NatToDecimal(now);
    assert r[k + 1..] == NatToDecimal(random);
    DecimalRoundTrip(now);
    DecimalRoundTrip(random);
  }

  /** Distinct clock readings or draws never give the same suffix. */
  lemma UniqueSuffixInjective(now: nat, random: nat, now': nat, random': nat)
    requires UniqueSuffix(now, random) == UniqueSuffix(now', random')
    ensures now == now' && random == random'
  {
    var r := UniqueSuffix(now, random);
    var k, k' := |NatToDecimal(now)|, |NatToDecimal(now')|;
    UniqueSuffixReadBack(now, random);
    UniqueSuffixReadBack(now', random');
    assert k == k' by {
      assert r[k] == '-' && r[k'] == '-';
    }
  }

  /** The stored name: the unique suffix followed by the original extension. */
  function Filename(suffix: string, originalname: string): (r: string)
    ensures StartsWith(r, suffix) && r[|suffix|..] == ExtName(originalname)
    ensures forall j :: |suffix| <= j < |r| ==> r[j] != '/'
  {
    suffix + ExtName(originalname)
  }

  /** The names the regular expressions /\.(jpg|jpeg|png)$/ and /\.(wav|mp3)$/ match. */
  predicate IsImageName(name: string) {
    EndsWith(name, ".jpg") || EndsWith(name, ".jpeg") || EndsWith(name, ".png")
  }

  predicate IsAudioName(name: string) {
    EndsWith(name, ".wav") || EndsWith(name, ".mp3")
  }

  datatype FilterDecision = Accept | Reject(message: string)

  function FileFilter(fieldname: string, originalname: string): (d: FilterDecision)
    ensures d.Accept? <==>
      (fieldname == "cover" ==> IsImageName(originalname)) &&
      (IsAudioField(fieldname) ==> IsAudioName(originalname))
    ensures fieldname != "cover" && !IsAudioField(fieldname) ==> d.Accept?
    ensures d.Reject? ==>
      d.message == if fieldname == "cover" then "Only image files are allowed!" else "Only audio files are allowed!"
  {
    if fieldname == "cover" then
      if !IsImageName(originalname) then Reject("Only image files are allowed!") else Accept
    else if IsAudioField(fieldname) then
      if !IsAudioName(originalname) then Reject("Only audio files are allowed!") else Accept
    else Accept
  }

  /** The outcome for one uploaded file: the filter decides from the name first, and a file
      that passes is refused once more than the size limit has arrived. */
  function UploadDecision(fieldname: string, originalname: string, size: nat): (d: FilterDecision)
    ensures d.Accept? <==> FileFilter(fieldname, originalname).Accept? && WithinSizeLimit(size)
    ensures FileFilter(fieldname, originalname).Reject? ==> d == FileFilter(fieldname, originalname)
    ensures FileFilter(fieldname, originalname).Accept? && !WithinSizeLimit(size) ==> d == Reject(FileTooLarge)
  {
    match FileFilter(fieldname, originalname)
    case Reject(m) => Reject(m)
    case Accept => if WithinSizeLimit(size) then Accept else Reject(FileTooLarge)
  }

  /** The suffix test is case-sensitive: an upper-case extension is refused. */
  lemma UpperCaseCoverRejected()
    ensures FileFilter("cover", "photo.PNG").Reject?
    ensures FileFilter("audio_file", "song.WAV").Reject?
    ensures FileFilter("cover", "photo.png").Accept?
  {
    assert !EndsWith("photo.PNG", ".png");
    assert !EndsWith("song.WAV", ".wav");
    assert "photo.png"[5..] == ".png";
  }

  /** A file that passes the filter keeps its accepted extension in the stored name, provided its
      last path component has something before the extension. */
  lemma {:induction false} AcceptedKeepsExtension(suffix: string, fieldname: string, originalname: string, ext: string)
    requires ext in [".jpg", ".jpeg", ".png", ".wav", ".mp3"]
    requires EndsWith(originalname, ext)
    requires |originalname| > |ext| && originalname[|originalname| - |ext| - 1] != '/'
    ensures EndsWith(Filename(suffix, originalname), ext)
  {
    ExtNameOfSuffix(originalname, ext);
  }

  /** A cover named just ".png" passes the filter but extname finds no extension in it, so it is
      stored under the bare suffix. */
  lemma DotfileCoverStoredWithoutExtension(suffix: string)
    ensures FileFilter("cover", ".png").Accept?
    ensures Filename(suffix, ".png") == suffix
  {
    assert ".png"[0..] == ".png";
    assert LastIndexOf(".png", '/') == Common.None;
    var dot := LastIndexOf(".png", '.');
    assert ".png"[0] == '.';
    assert dot.Some? && dot.value == 0;
  }
}
