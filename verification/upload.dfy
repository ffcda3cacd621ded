/** The upload filter `allowed_file` (backend/app.py, lines 15-18). */
module Upload {
  import opened Text

  /** `ALLOWED_EXTENSIONS` (line 15). */
  const AllowedExtensions: set<string> := {"pdf"}

  /** Python's `s.rsplit(sep, 1)`: `[s]` when `sep` does not occur, otherwise
      the text before and after the last `sep`. */
  function RSplitOnce(s: string, sep: char): (parts: seq<string>)
    ensures sep !in s ==> parts == [s]
    ensures sep in s ==> |parts| == 2 && s == parts[0] + [sep] + parts[1] && sep !in parts[1]
    decreases |s|
  {
    if s == [] then [s]
    else
      var last := s[|s| - 1];
      var init := s[..|s| - 1];
      assert s == init + [last];
      if last == sep then [init, []]
      else
        var parts := RSplitOnce(init, sep);
        if |parts| == 1 then [s] else [parts[0], parts[1] + [last]]
  }

  /** The split at the last separator is the only split whose second part
      has no separator. */
  lemma RSplitOnceUnique(s: string, sep: char, a: string, b: string)
    requires s == a + [sep] + b && sep !in b
    ensures RSplitOnce(s, sep) == [a, b]
  {
    assert s[|a|] == sep;
    var parts := RSplitOnce(s, sep);
    var p, q := parts[0], parts[1];
    assert s[|p|] == sep;
    assert |p| == |a|;
    assert p == s[..|a|] == a;
    assert q == s[|a| + 1..] == b;
  }

  /** Line 18: the name has a `.` and its text after the last `.`,
      lower-cased, is an allowed extension. */
  function AllowedFile(filename: string): (ok: bool)
    ensures ok ==> |filename| >= 4 && filename[|filename| - 4] == '.'
    ensures ok ==> Lower(filename[|filename| - 3..]) == "pdf"
  {
    if '.' in filename && Lower(RSplitOnce(filename, '.')[1]) in AllowedExtensions then
      var parts := RSplitOnce(filename, '.');
      assert |parts[1]| == 3;
      assert filename[|parts[0]|] == '.';
      assert filename[|filename| - 3..] == parts[1];
      true
    else false
  }

  /** A name is allowed exactly when it ends in `.pdf`, in any letter case. */
  lemma AllowedFileIff(filename: string)
    ensures AllowedFile(filename) <==>
      |filename| >= 4 && filename[|filename| - 4] == '.' && Lower(filename[|filename| - 3..]) == "pdf"
  {
    var n := |filename|;
    if n >= 4 && filename[n - 4] == '.' && Lower(filename[n - 3..]) == "pdf" {
      var ext := filename[n - 3..];
      assert '.' !in ext by {
        forall k | 0 <= k < 3 ensures ext[k] != '.' {
          assert LowerChar(ext[k]) == "pdf"[k];
        }
      }
      assert filename == filename[..n - 4] + ['.'] + ext;
      RSplitOnceUnique(filename, '.', filename[..n - 4], ext);
      assert '.' in filename;
    }
  }

  /** `.pdf` passes. */
  lemma AllowedFileAcceptsBare()
    ensures AllowedFile(".pdf")
  {
    AllowedFileIff(".pdf");
    assert ".pdf"[1..] == "pdf";
    assert Lower("pdf") == "pdf";
  }

  /** `X.PDF` passes: the extension is compared lower-cased. */
  lemma AllowedFileAcceptsUpper()
    ensures AllowedFile("X.PDF")
  {
    AllowedFileIff("X.PDF");
    assert "X.PDF"[2..] == "PDF";
    assert Lower("PDF") == "pdf";
  }

  /** `a.pdf.exe` does not pass: only the last extension counts. */
  lemma AllowedFileRejectsDouble()
    ensures !AllowedFile("a.pdf.exe")
  {
    AllowedFileIff("a.pdf.exe");
    assert "a.pdf.exe"[5] == '.';
  }

  /** `pdf` and `report`, which have no dot, do not pass. */
  lemma AllowedFileRejectsUndotted()
    ensures !AllowedFile("pdf") && !AllowedFile("report")
  {
    assert '.' !in "pdf";
    assert '.' !in "report";
  }
}
