/** The alternative multer configuration of backend/utils/upload.ts: absolute directories under
    `api/uploads`, a `report_file` directory, and stored names prefixed by the field name. */
module UploadUtils {
  import Common
  import opened Strings
  import opened NodePath
  import UploadMiddleware

  /** The per-file size limit, 50 MiB. */
  const MaxFileSize: nat := 50 * 1024 * 1024

  /** `path.join(process.cwd(), 'api', 'uploads')`; the working directory is a parameter. */
  function UploadDir(cwd: string): (r: string)
    ensures StartsWith(r, cwd) && EndsWith(r, "/api/uploads")
  {
    JoinTwice(cwd, "api", "uploads");
    assert "/" + "api" + "/" + "uploads" == "/api/uploads";
    Join(Join(cwd, "api"), "uploads")
  }

  /** Joining two plain names adds a '/' before each, except before the first when the
      directory already ends in one. */
  lemma JoinTwice(dir: string, a: string, b: string)
    requires a != [] && a[|a| - 1] != '/'
    ensures StartsWith(Join(Join(dir, a), b), dir)
    ensures EndsWith(Join(Join(dir, a), b), "/" + a + "/" + b)
  {
    var d := Join(dir, a);
    JoinEndsWith(dir, a);
    assert d[|d| - 1] == d[|d| - |"/" + a|..][|a|];
    EndsWithSlash(d);
    var r := d + "/" + b;
    assert Join(d, b) == r;
    EndsWithAppend(d, "/" + a, "/" + b);
    assert "/" + a + ("/" + b) == "/" + a + "/" + b;
    assert r[..|dir|] == d[..|dir|];
  }

  lemma EndsWithSlash(s: string)
    ensures EndsWith(s, "/") <==> |s| > 0 && s[|s| - 1] == '/'
  {
    if |s| > 0 {
      assert s[|s| - 1..] == [s[|s| - 1]];
    }
  }

  /** A joined path ends with a slash followed by the name. */
  lemma JoinEndsWith(dir: string, name: string)
    ensures EndsWith(Join(dir, name), "/" + name)
  {
    var r := Join(dir, name);
    if EndsWith(dir, "/") {
      assert r == dir + name;
      assert r[|r| - |name| - 1] == dir[|dir| - 1] == '/';
      assert r[|r| - |"/" + name|..] == [r[|r| - |name| - 1]] + name;
    } else {
      assert r == dir + "/" + name;
      assert r[|r| - |"/" + name|..] == "/" + name;
    }
  }

  lemma EndsWithAppend(a: string, suffix: string, b: string)
    requires EndsWith(a, suffix)
    ensures EndsWith(a + b, suffix + b)
  {
    assert (a + b)[|a + b| - |suffix + b|..] == a[|a| - |suffix|..] + b;
  }

  function CoversDir(cwd: string): string { Join(UploadDir(cwd), "covers") }
  function AudioDir(cwd: string): string { Join(UploadDir(cwd), "audio") }
  function ReportsDir(cwd: string): string { Join(UploadDir(cwd), "reports") }

  /** The four directories are distinct and the last three sit inside the first. */
  lemma DirectoriesDistinct(cwd: string)
    ensures UploadDir(cwd) != CoversDir(cwd) && UploadDir(cwd) != AudioDir(cwd) && UploadDir(cwd) != ReportsDir(cwd)
    ensures CoversDir(cwd) != AudioDir(cwd) && CoversDir(cwd) != ReportsDir(cwd) && AudioDir(cwd) != ReportsDir(cwd)
    ensures StartsWith(CoversDir(cwd), UploadDir(cwd) + "/")
    ensures StartsWith(AudioDir(cwd), UploadDir(cwd) + "/")
    ensures StartsWith(ReportsDir(cwd), UploadDir(cwd) + "/")
  {
    var u := UploadDir(cwd);
    assert u[|u| - 1] == 's' by {
      assert u[|u| - 1] == u[|u| - |"/api/uploads"|..][11];
    }
    EndsWithSlash(u);
    JoinUnder(u, "covers");
    JoinUnder(u, "audio");
    JoinUnder(u, "reports");
  }

  /** Below a directory that does not end in '/', a join adds exactly one separator. */
  lemma JoinUnder(dir: string, name: string)
    requires !EndsWith(dir, "/")
    ensures |Join(dir, name)| == |dir| + 1 + |name|
    ensures StartsWith(Join(dir, name), dir + "/")
  {
    var r := Join(dir, name);
    assert r == (dir + "/") + name;
    assert r[..|dir + "/"|] == dir + "/";
  }

  function Destination(cwd: string, fieldname: string): (dir: string)
    ensures StartsWith(dir, UploadDir(cwd))
    ensures fieldname == "cover" ==> dir == CoversDir(cwd)
    ensures UploadMiddleware.IsAudioField(fieldname) ==> dir == AudioDir(cwd)
    ensures fieldname == "report_file" ==> dir == ReportsDir(cwd)
    ensures fieldname != "cover" && !UploadMiddleware.IsAudioField(fieldname) && fieldname != "report_file" ==>
      dir == UploadDir(cwd)
  {
    if fieldname == "cover" then CoversDir(cwd)
    else if UploadMiddleware.IsAudioField(fieldname) then AudioDir(cwd)
    else if fieldname == "report_file" then ReportsDir(cwd)
    else UploadDir(cwd)
  }

  /** `fieldname + '-' + uniqueSuffix + extname(originalname)`. */
  function Filename(fieldname: string, suffix: string, originalname: string): (r: string)
    ensures StartsWith(r, fieldname + "-")
    ensures r[|fieldname| + 1..] == UploadMiddleware.Filename(suffix, originalname)
  {
    var prefix := fieldname + "-";
    var ext := ExtName(originalname);
    var r := fieldname + "-" + suffix + ext;
    assert r == prefix + (suffix + ext);
    assert r[..|prefix|] == prefix && r[|prefix|..] == suffix + ext;
    r
  }

  function FileFilter(fieldname: string, originalname: string): (d: UploadMiddleware.FilterDecision)
    ensures d.Reject? ==>
      d.message == if fieldname == "cover" then "Only image files are allowed!" else "Only audio files (WAV) are allowed!"
  {
    if fieldname == "cover" then
      if !UploadMiddleware.IsImageName(originalname) then UploadMiddleware.Reject("Only image files are allowed!")
      else UploadMiddleware.Accept
    else if UploadMiddleware.IsAudioField(fieldname) then
      if !UploadMiddleware.IsAudioName(originalname) then UploadMiddleware.Reject("Only audio files (WAV) are allowed!")
      else UploadMiddleware.Accept
    else UploadMiddleware.Accept
  }

  /** Both configurations accept and refuse exactly the same files. */
  lemma SameDecisionsAsMiddleware(fieldname: string, originalname: string)
    ensures FileFilter(fieldname, originalname).Accept? == UploadMiddleware.FileFilter(fieldname, originalname).Accept?
  {
  }
}
