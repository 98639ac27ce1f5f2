/** The classifier of smart_file_organizer.py: a file name is put into a
    category by looking up its lower-cased extension in a fixed table. */
module Classifier {

  /** The fallback category of every extension the table does not know. */
  const Others: string := "Others"

  /** CATEGORY_MAP: lower-case extension (without its dot) to category name. */
  const CategoryMap: map<string, string> := map[
    "pdf" := "Documents", "docx" := "Documents", "txt" := "Documents", "csv" := "Documents",
    "jpg" := "Images", "jpeg" := "Images", "png" := "Images", "gif" := "Images",
    "mp4" := "Videos", "mkv" := "Videos", "mov" := "Videos",
    "zip" := "Archives", "rar" := "Archives", "7z" := "Archives", "tar" := "Archives",
    "py" := "Code", "cpp" := "Code", "java" := "Code", "js" := "Code", "html" := "Code", "css" := "Code"
  ]

  /** The folders the organizer creates under the destination. */
  ghost const AllCategories: set<string> := CategoryMap.Values + {Others}

  /** Python's str.lower on one character, for the ASCII letters. */
  function LowerChar(c: char): char {
    if 'A' <= c <= 'Z' then (c as int + 32) as char else c
  }

  function Lower(s: string): (r: string)
    ensures |r| == |s| && forall i :: 0 <= i < |s| ==> r[i] == LowerChar(s[i])
  {
    seq(|s|, i requires 0 <= i < |s| => LowerChar(s[i]))
  }

  /** The index of the last `c` in `s`, or -1 (Python's str.rfind). */
  function LastIndexOf(s: string, c: char): (r: int)
    ensures -1 <= r < |s|
    ensures r >= 0 ==> s[r] == c
    ensures forall j :: r < j < |s| ==> s[j] != c
  {
    if s == [] then -1
    else if s[|s| - 1] == c then |s| - 1
    else LastIndexOf(s[..|s| - 1], c)
  }

  predicate OnlyDots(s: string) {
    forall i :: 0 <= i < |s| ==> s[i] == '.'
  }

  /** Where os.path.splitext (POSIX) starts the extension: at the last
      dot of the last path component, unless every character before that
      dot in the component is a dot too (".bashrc", "..", "...x"); -1 when
      there is no extension. */
  function ExtensionStart(p: string): (k: int)
    ensures k == -1 || (0 < k < |p| && p[k] == '.')
  {
    var sep := LastIndexOf(p, '/');
    var dot := LastIndexOf(p, '.');
    if sep < dot && !OnlyDots(p[sep + 1..dot]) then dot else -1
  }

  /** os.path.splitext: (root, ext) with root + ext == p. */
  function SplitExt(p: string): (r: (string, string))
    ensures r.0 + r.1 == p
    ensures r.1 == [] || r.1[0] == '.'
  {
    var k := ExtensionStart(p);
    if k < 0 then (p, "") else (p[..k], p[k..])
  }

  /** The extension without its dot, lower-cased: the key looked up in
      CategoryMap (ExtensionKeyOfSplit below shows it is `ext[1:].lower()`
      for the `ext` of splitext). It holds no dot and no upper-case letter. */
  function ExtensionKey(fileName: string): (key: string)
    ensures |key| < |fileName| || key == []
    ensures forall i :: 0 <= i < |key| ==> key[i] != '.' && !('A' <= key[i] <= 'Z')
  {
    var k := ExtensionStart(fileName);
    if k < 0 then [] else Lower(fileName[k + 1..])
  }

  lemma ExtensionKeyOfSplit(fileName: string)
    ensures var ext := SplitExt(fileName).1;
            ExtensionKey(fileName) == Lower(if ext == [] then [] else ext[1..])
  {
    var k := ExtensionStart(fileName);
    if k >= 0 {
      assert fileName[k..][1..] == fileName[k + 1..];
    }
  }

  /** CATEGORY_MAP.get(key, "Others"): the category a lower-case extension
      key stands for. */
  function CategoryOfKey(key: string): (c: string)
    ensures c in AllCategories
  {
    if key in CategoryMap then CategoryMap[key] else Others
  }

  /** get_category: the category of the extension key of the name. */
  function GetCategory(fileName: string): (c: string)
    ensures c in AllCategories
  {
    CategoryOfKey(ExtensionKey(fileName))
  }

  lemma {:induction false} LastIndexOfSkips(s: string, t: string, c: char)
    requires c !in t
    ensures LastIndexOf(s + t, c) == LastIndexOf(s, c)
  {
    if t != [] {
      assert (s + t)[..|s + t| - 1] == s + t[..|t| - 1];
      LastIndexOfSkips(s, t[..|t| - 1], c);
    } else {
      assert s + t == s;
    }
  }

  /** splitext cuts `stem.e` at its last dot when the stem is not made of
      dots only. */
  lemma SplitAtLastDot(stem: string, e: string)
    requires '.' !in e && '/' !in e && '/' !in stem
    requires !OnlyDots(stem)
    ensures SplitExt(stem + "." + e) == (stem, "." + e)
  {
    var p := stem + "." + e;
    assert p == (stem + ".") + e;
    LastIndexOfSkips(stem + ".", e, '.');
    assert LastIndexOf(stem + ".", '.') == |stem|;
    LastIndexOfSkips(stem + ".", e, '/');
    LastIndexOfSkips(stem, ".", '/');
    assert LastIndexOf(stem, '/') == -1;
    assert p[0..|stem|] == stem;
    assert p[..|stem|] == stem;
    assert p[|stem|..] == "." + e;
  }

  /** Only the last extension counts: a name `stem.e`, whose stem is not
      made of dots only, is classified by `e` alone. */
  lemma LastExtensionDecides(stem: string, e: string)
    requires '.' !in e && '/' !in e && '/' !in stem
    requires !OnlyDots(stem)
    ensures GetCategory(stem + "." + e) == CategoryOfKey(Lower(e))
  {
    SplitAtLastDot(stem, e);
    assert ("." + e)[1..] == e;
  }

  /** A name without any dot has no extension. */
  lemma NoDotIsOthers(fileName: string)
    requires '.' !in fileName
    ensures GetCategory(fileName) == Others
  {
    assert LastIndexOf(fileName, '.') == -1;
    EmptyKeyIsOthers();
  }

  /** A name ending in a dot has the empty extension key. */
  lemma TrailingDotIsOthers(stem: string)
    ensures GetCategory(stem + ".") == Others
  {
    var p := stem + ".";
    assert LastIndexOf(p, '.') == |stem|;
    assert p[|stem|..] == ".";
    EmptyKeyIsOthers();
  }

  /** Leading dots do not start an extension: ".bashrc", "..x". */
  lemma LeadingDotsOnlyIsOthers(dots: string, rest: string)
    requires OnlyDots(dots)
    requires '.' !in rest && '/' !in rest
    ensures GetCategory(dots + rest) == Others
  {
    var p := dots + rest;
    var sep, dot := LastIndexOf(p, '/'), LastIndexOf(p, '.');
    assert sep == -1 by {
      LastIndexOfSkips(dots, rest, '/');
      assert '/' !in dots;
    }
    assert dot < |dots| by {
      LastIndexOfSkips(dots, rest, '.');
    }
    if dot >= 0 {
      DotsBefore(dots, rest, dot);
    }
    assert ExtensionStart(p) == -1;
    EmptyKeyIsOthers();
  }

  lemma DotsBefore(dots: string, rest: string, k: int)
    requires OnlyDots(dots) && 0 <= k <= |dots|
    ensures OnlyDots((dots + rest)[0..k])
  {
    assert (dots + rest)[0..k] == dots[0..k];
  }

  /** The empty key, that of a name without extension, is not in the table. */
  lemma EmptyKeyIsOthers()
    ensures "" !in CategoryMap
  {
  }

  lemma {:induction false} LastIndexOfLower(s: string, c: char)
    requires c == '.' || c == '/'
    ensures LastIndexOf(Lower(s), c) == LastIndexOf(s, c)
  {
    if s != [] {
      assert Lower(s)[..|s| - 1] == Lower(s[..|s| - 1]);
      LastIndexOfLower(s[..|s| - 1], c);
    }
  }

  lemma LowerIdempotent(s: string)
    ensures Lower(Lower(s)) == Lower(s)
  {
  }

  /** Lowering a name keeps its dots and slashes where they are, so its
      extension starts at the same index. */
  lemma ExtensionStartLower(p: string)
    ensures ExtensionStart(Lower(p)) == ExtensionStart(p)
  {
    var q := Lower(p);
    LastIndexOfLower(p, '.');
    LastIndexOfLower(p, '/');
    var sep, dot := LastIndexOf(p, '/'), LastIndexOf(p, '.');
    if sep < dot {
      assert q[sep + 1..dot] == Lower(p[sep + 1..dot]);
      assert OnlyDots(q[sep + 1..dot]) == OnlyDots(p[sep + 1..dot]);
    }
  }

  lemma ExtensionKeyLower(fileName: string)
    ensures ExtensionKey(Lower(fileName)) == ExtensionKey(fileName)
  {
    ExtensionStartLower(fileName);
    var k := ExtensionStart(fileName);
    if k >= 0 {
      assert Lower(fileName)[k + 1..] == Lower(fileName[k + 1..]);
      LowerIdempotent(fileName[k + 1..]);
    }
  }

  /** Classification ignores case: "a.PDF" and "a.pdf" fall together. */
  lemma CaseInsensitive(a: string, b: string)
    requires Lower(a) == Lower(b)
    ensures GetCategory(a) == GetCategory(b)
  {
    ExtensionKeyLower(a);
    ExtensionKeyLower(b);
  }

  // Literal facts the examples below are built from; kept in lemmas of
  // their own so that no proof has to evaluate a whole classification.

  lemma LowerLiterals()
    ensures Lower("PDF") == "pdf" && Lower("pdf") == "pdf"
    ensures Lower("JPG") == "jpg" && Lower("gz") == "gz"
  {
  }

  lemma TableLiterals()
    ensures CategoryOfKey("pdf") == "Documents" && CategoryOfKey("jpg") == "Images"
    ensures CategoryOfKey("gz") == Others && "tar" in CategoryMap
  {
  }

  lemma NameLiterals()
    ensures !OnlyDots("a") && !OnlyDots("a.tar") && !OnlyDots("report") && !OnlyDots("photo")
    ensures "a" + "." + "PDF" == "a.PDF" && "a" + "." + "pdf" == "a.pdf"
    ensures "a.tar" + "." + "gz" == "a.tar.gz"
    ensures "report" + "." + "pdf" == "report.pdf" && "photo" + "." + "JPG" == "photo.JPG"
    ensures "." + "bashrc" == ".bashrc" && "a" + "." == "a." && OnlyDots(".")
  {
    assert "a"[0] != '.' && "a.tar"[0] != '.' && "report"[0] != '.' && "photo"[0] != '.';
  }

  /** "a.PDF" and "a.pdf" are both Documents. */
  lemma UpperCaseExample()
    ensures GetCategory("a.PDF") == GetCategory("a.pdf") == "Documents"
  {
    NameLiterals();
    LastExtensionDecides("a", "PDF");
    LastExtensionDecides("a", "pdf");
    LowerLiterals();
    TableLiterals();
  }

  /** "a.tar.gz" is classified by "gz", which the table does not know,
      although "tar" is an Archives extension. */
  lemma DoubleExtensionExample()
    ensures GetCategory("a.tar.gz") == Others
    ensures "tar" in CategoryMap
  {
    NameLiterals();
    LastExtensionDecides("a.tar", "gz");
    LowerLiterals();
    TableLiterals();
  }

  /** The files report.pdf and photo.JPG go to Documents and Images. */
  lemma ScenarioExample()
    ensures GetCategory("report.pdf") == "Documents"
    ensures GetCategory("photo.JPG") == "Images"
  {
    NameLiterals();
    LastExtensionDecides("report", "pdf");
    LastExtensionDecides("photo", "JPG");
    LowerLiterals();
    TableLiterals();
  }

  /** Names without a dot, dot files and names ending in a dot have no
      extension. */
  lemma NoExtensionExamples()
    ensures GetCategory("notes") == Others
    ensures GetCategory(".bashrc") == Others
    ensures GetCategory("a.") == Others
  {
    DotFileExample();
    TrailingDotExample();
    NoDotIsOthers("notes");
  }

  lemma DotFileExample()
    ensures GetCategory(".bashrc") == Others
  {
    assert "." + "bashrc" == ".bashrc" && OnlyDots(".");
    LeadingDotsOnlyIsOthers(".", "bashrc");
  }

  lemma TrailingDotExample()
    ensures GetCategory("a.") == Others
  {
    assert "a" + "." == "a.";
    TrailingDotIsOthers("a");
  }
}
