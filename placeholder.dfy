/** The heading of a placeholder page: the given title, or one derived from the URL path by
    `path.split('/').filter(Boolean).map(capitalize).join(' > ')`. */
module Placeholder {
  import opened Common

  /** `s.split(sep)` for a one-character separator. */
  function Split(s: string, sep: char): (parts: seq<string>)
    ensures |parts| >= 1
    ensures forall i :: 0 <= i < |parts| ==> sep !in parts[i]
  {
    if s == [] then [""]
    else
      var rest := Split(s[1..], sep);
      if s[0] == sep then [""] + rest
      else [[s[0]] + rest[0]] + rest[1..]
  }

  /** `parts.join(sep)`. */
  function Join(parts: seq<string>, sep: string): string {
    if parts == [] then ""
    else if |parts| == 1 then parts[0]
    else parts[0] + sep + Join(parts[1..], sep)
  }

  /** Splitting on a character and joining with it gives back the string. */
  lemma {:induction false} JoinSplit(s: string, sep: char)
    ensures Join(Split(s, sep), [sep]) == s
  {
    if s != [] {
      var rest := Split(s[1..], sep);
      JoinSplit(s[1..], sep);
      if s[0] != sep {
        if |rest| == 1 {
          assert Split(s, sep) == [[s[0]] + rest[0]];
        } else {
          assert Split(s, sep)[1..] == rest[1..];
          assert Join(rest, [sep]) == rest[0] + [sep] + Join(rest[1..], [sep]);
        }
      }
    }
  }

  /** `filter(Boolean)` on strings: drops the empty ones. */
  function NonEmpty(parts: seq<string>): (r: seq<string>)
    ensures forall i :: 0 <= i < |r| ==> r[i] != "" && r[i] in parts
    ensures forall p :: p in parts && p != "" ==> p in r
    ensures |r| <= |parts|
  {
    if parts == [] then []
    else if parts[0] == "" then NonEmpty(parts[1..])
    else [parts[0]] + NonEmpty(parts[1..])
  }

  /** The non-empty pieces of a path between slashes. */
  function Segments(path: string): (segs: seq<string>)
    ensures forall i :: 0 <= i < |segs| ==> segs[i] != "" && '/' !in segs[i]
  {
    var parts := Split(path, '/');
    var segs := NonEmpty(parts);
    assert forall i :: 0 <= i < |segs| ==> segs[i] in parts;
    segs
  }

  function Concat(parts: seq<string>): string {
    if parts == [] then "" else parts[0] + Concat(parts[1..])
  }

  function RemoveChar(s: string, c: char): string {
    if s == [] then "" else (if s[0] == c then "" else [s[0]]) + RemoveChar(s[1..], c)
  }

  lemma {:induction false} ConcatSplit(s: string, sep: char)
    ensures Concat(Split(s, sep)) == RemoveChar(s, sep)
  {
    if s != [] {
      ConcatSplit(s[1..], sep);
      var rest := Split(s[1..], sep);
      if s[0] != sep {
        assert Concat(Split(s, sep)) == [s[0]] + rest[0] + Concat(rest[1..]);
      }
    }
  }

  lemma {:induction false} ConcatNonEmpty(parts: seq<string>)
    ensures Concat(NonEmpty(parts)) == Concat(parts)
  {
    if parts != [] {
      ConcatNonEmpty(parts[1..]);
    }
  }

  /** Dropping the empty pieces loses no character: the segments spell the path without its
      slashes, whatever leading, trailing or repeated slashes it has. */
  lemma SegmentsSpellPath(path: string)
    ensures Concat(Segments(path)) == RemoveChar(path, '/')
  {
    ConcatNonEmpty(Split(path, '/'));
    ConcatSplit(path, '/');
  }

  /** `toUpperCase` on the ASCII letters a-z. */
  function ToUpper(c: char): char {
    if 'a' <= c <= 'z' then (c as int - 32) as char else c
  }

  /** `p.charAt(0).toUpperCase() + p.slice(1)`. */
  function Capitalize(p: string): (r: string)
    ensures |r| == |p|
    ensures p != "" ==> r[0] == ToUpper(p[0]) && r[1..] == p[1..]
  {
    if p == [] then [] else [ToUpper(p[0])] + p[1..]
  }

  function CapitalizeAll(parts: seq<string>): (r: seq<string>)
    ensures |r| == |parts|
    ensures forall i :: 0 <= i < |parts| ==> r[i] == Capitalize(parts[i])
  {
    if parts == [] then [] else [Capitalize(parts[0])] + CapitalizeAll(parts[1..])
  }

  function LengthSum(parts: seq<string>): nat {
    if parts == [] then 0 else |parts[0]| + LengthSum(parts[1..])
  }

  /** A join holds every part and one separator between each two neighbours. */
  lemma {:induction false} JoinLength(parts: seq<string>, sep: string)
    requires parts != []
    ensures |Join(parts, sep)| == LengthSum(parts) + |sep| * (|parts| - 1)
  {
    if |parts| > 1 {
      JoinLength(parts[1..], sep);
    }
  }

  /** The heading: a non-empty `title` wins, otherwise the path's parts. The contract only picks
      the branch; what the derived heading holds is stated on its parts: `Segments` (the
      non-empty pieces between slashes, `SegmentsSpellPath`), `CapitalizeAll`, and
      `DerivedTitleLength` for the joined result. */
  function DisplayTitle(title: Option<string>, pathname: string): (r: string)
    ensures Truthy(title) ==> r == title.value
    ensures !Truthy(title) ==> r == Join(CapitalizeAll(Segments(pathname)), " > ")
  {
    if Truthy(title) then title.value
    else Join(CapitalizeAll(Segments(pathname)), " > ")
  }

  /** The derived title has every segment, capitalized, with " > " between neighbours. */
  lemma DerivedTitleLength(pathname: string)
    requires Segments(pathname) != []
    ensures |DisplayTitle(None, pathname)| ==
            LengthSum(Segments(pathname)) + 3 * (|Segments(pathname)| - 1)
  {
    var segs := Segments(pathname);
    JoinLength(CapitalizeAll(segs), " > ");
    CapitalizedLengthSum(segs);
  }

  lemma {:induction false} CapitalizedLengthSum(parts: seq<string>)
    ensures LengthSum(CapitalizeAll(parts)) == LengthSum(parts)
  {
    if parts != [] {
      CapitalizedLengthSum(parts[1..]);
      assert CapitalizeAll(parts)[1..] == CapitalizeAll(parts[1..]);
    }
  }

  /** Concrete cases: the root path gives the empty title, slashes collapse, and a given title
      wins over the path. */
  lemma DisplayTitleExamples()
    ensures DisplayTitle(None, "/") == ""
    ensures DisplayTitle(None, "//ab/") == "Ab"
    ensures DisplayTitle(Some("Revenue Report"), "/reports/revenue") == "Revenue Report"
  {
    SegmentsOfRoot();
    SegmentsOfSlashes();
    assert Capitalize("ab") == "Ab";
    assert CapitalizeAll(["ab"]) == ["Ab"];
    assert Join(["Ab"], " > ") == "Ab";
    assert CapitalizeAll([]) == [];
  }

  lemma SegmentsOfRoot()
    ensures Segments("/") == []
  {
    assert Split("/", '/') == ["", ""];
  }

  lemma SegmentsOfSlashes()
    ensures Segments("//ab/") == ["ab"]
  {
    assert "b/"[1..] == "/" && "ab/"[1..] == "b/" && "/ab/"[1..] == "ab/" && "//ab/"[1..] == "/ab/";
    assert "b/"[0] == 'b' && "ab/"[0] == 'a';
    assert ['b'] + "" == "b" && ['a'] + "b" == "ab";
    assert Split("b/", '/') == [['b'] + ""] + [""] == ["b", ""];
    assert Split("ab/", '/') == [['a'] + "b"] + [""] == ["ab", ""];
    assert Split("/ab/", '/') == ["", "ab", ""];
    assert Split("//ab/", '/') == ["", "", "ab", ""];
    assert NonEmpty(["", "", "ab", ""]) == ["ab"];
  }
}
