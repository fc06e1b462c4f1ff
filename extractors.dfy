/**
 * The extractor factory: a closed set of extractor kinds, the choice of a
 * kind by the lower-cased suffix of a file path, and the sorted list of
 * every supported extension.
 */
module Extractors {
  import opened Wrappers
  import opened Text

  /** The extractor classes, one per document format. */
  datatype Kind = Pdf | Docx | Excel | PlainText

  /** `_EXTRACTORS`: the order in which the factory tries the kinds. */
  const Registry: seq<Kind> := [Pdf, Docx, Excel, PlainText]

  /** `SUPPORTED_EXTENSIONS` of each kind. */
  function Extensions(k: Kind): seq<string> {
    match k
    case Pdf => [".pdf"]
    case Docx => [".docx"]
    case Excel => [".xlsx", ".xls"]
    case PlainText => [".txt", ".md"]
  }

  // ---------------------------------------------------------------- suffixes

  /** `Path.name`: the text after the last '/'. */
  function FileName(path: string): (r: string)
    ensures EndsWith(path, r) && '/' !in r
  {
    if path == [] || path[|path| - 1] == '/' then []
    else
      var init := path[..|path| - 1];
      var r := FileName(init) + [path[|path| - 1]];
      assert path == init + [path[|path| - 1]];
      assert r[..|r| - 1] == FileName(init);
      r
  }

  /** The position of the last '.' in `s`. */
  function LastDot(s: string): (r: Option<nat>)
    ensures r.Some? ==> r.value < |s| && s[r.value] == '.' && '.' !in s[r.value + 1..]
    ensures r.None? ==> '.' !in s
  {
    if s == [] then None
    else if s[|s| - 1] == '.' then Some(|s| - 1)
    else
      var r := LastDot(s[..|s| - 1]);
      assert s == s[..|s| - 1] + [s[|s| - 1]];
      if r.Some? then
        assert s[r.value + 1..] == s[..|s| - 1][r.value + 1..] + [s[|s| - 1]];
        r
      else r
  }

  /**
   * `Path.suffix`: the name from its last '.' on, when that '.' is neither
   * the first nor the last character of the name; otherwise empty.
   */
  function Suffix(path: string): (r: string)
    ensures r != [] ==> |r| >= 2 && r[0] == '.' && '.' !in r[1..] && '/' !in r
    ensures r != [] ==> EndsWith(path, r) && |r| < |FileName(path)|
  {
    var name := FileName(path);
    match LastDot(name)
    case None => []
    case Some(i) =>
      if 0 < i < |name| - 1 then
        assert name[i..][1..] == name[i + 1..];
        assert EndsWith(path, name[i..]) by {
          assert path[|path| - |name|..] == name;
          assert path[|path| - |name[i..]|..] == name[i..];
        }
        name[i..]
      else []
  }

  /** `DocumentExtractor.supports`: the kind lists the lower-cased suffix of the path. */
  predicate Supports(k: Kind, path: string) {
    Lower(Suffix(path)) in Extensions(k)
  }

  // ---------------------------------------------------------- the factory

  /** `ExtractionError`: a message about the file at `filePath`. */
  datatype ExtractionError = ExtractionError(message: string, filePath: string)

  /** What `str` of an `ExtractionError` reads. */
  function Display(e: ExtractionError): string {
    "Failed to extract '" + e.filePath + "': " + e.message
  }

  /** The first of `kinds` that lists `ext`. */
  function FirstSupporting(kinds: seq<Kind>, ext: string): (r: Option<Kind>)
    ensures r.Some? ==> r.value in kinds && ext in Extensions(r.value)
    ensures r.None? ==> forall k :: k in kinds ==> ext !in Extensions(k)
  {
    if kinds == [] then None
    else if ext in Extensions(kinds[0]) then Some(kinds[0])
    else FirstSupporting(kinds[1..], ext)
  }

  /** `repr` of a tuple of strings without quotes inside them. */
  function TupleRepr(xs: seq<string>): string {
    var quoted := seq(|xs|, k requires 0 <= k < |xs| => "'" + xs[k] + "'");
    if |xs| == 1 then "(" + quoted[0] + ",)" else "(" + Join(", ", quoted) + ")"
  }

  function UnsupportedMessage(ext: string): string {
    "Unsupported file format '" + ext + "'. Supported formats: " + TupleRepr(SupportedExtensions())
  }

  /**
   * `create_extractor`: the first kind in registry order that lists the
   * lower-cased suffix, or an `ExtractionError` naming the suffix and the
   * supported formats.
   */
  function CreateExtractor(path: string): Result<Kind, ExtractionError> {
    var ext := Lower(Suffix(path));
    match FirstSupporting(Registry, ext)
    case Some(k) => Ok(k)
    case None => Err(ExtractionError(UnsupportedMessage(ext), path))
  }

  // ------------------------------------------------ the supported extensions

  /** Every extension of `kinds`, kind by kind. */
  function AllExtensions(kinds: seq<Kind>): (r: seq<string>)
    ensures forall e :: e in r <==> exists k :: k in kinds && e in Extensions(k)
  {
    if kinds == [] then []
    else
      var init := kinds[..|kinds| - 1];
      var last := kinds[|kinds| - 1];
      assert forall k :: k in kinds <==> k in init || k == last;
      AllExtensions(init) + Extensions(last)
  }

  /** Strictly ascending in Python's string order, hence without repeats. */
  predicate Increasing(s: seq<string>) {
    forall i, j :: 0 <= i < j < |s| ==> LexLess(s[i], s[j])
  }

  /** An element below every element of an ascending list may go in front. */
  lemma ConsIncreasing(a: string, s: seq<string>)
    requires Increasing(s) && forall e :: e in s ==> LexLess(a, e)
    ensures Increasing([a] + s)
  {
    var r := [a] + s;
    forall i, j | 0 <= i < j < |r| ensures LexLess(r[i], r[j]) {
      assert r[j] == s[j - 1];
      if i > 0 {
        assert r[i] == s[i - 1];
      }
    }
  }

  /** `x` put into an ascending list, unless it is there already. */
  function InsertNew(x: string, s: seq<string>): (r: seq<string>)
    requires Increasing(s)
    ensures Increasing(r)
    ensures forall e :: e in r <==> e in s || e == x
  {
    if s == [] then [x]
    else if x == s[0] then s
    else if LexLess(x, s[0]) then
      forall e | e in s ensures LexLess(x, e) {
        var k :| 0 <= k < |s| && s[k] == e;
        if k > 0 {
          LexLessTransitive(x, s[0], e);
        }
      }
      ConsIncreasing(x, s);
      [x] + s
    else
      assert Increasing(s[1..]) by {
        forall i, j | 0 <= i < j < |s[1..]| ensures LexLess(s[1..][i], s[1..][j]) {
          assert s[1..][i] == s[i + 1] && s[1..][j] == s[j + 1];
        }
      }
      var rest := InsertNew(x, s[1..]);
      LexLessTotal(x, s[0]);
      forall e | e in rest ensures LexLess(s[0], e) {
        if e != x {
          var k :| 0 <= k < |s[1..]| && s[1..][k] == e;
          assert s[k + 1] == e;
        }
      }
      ConsIncreasing(s[0], rest);
      assert forall e :: e in s <==> e == s[0] || e in s[1..] by {
        assert s == [s[0]] + s[1..];
      }
      [s[0]] + rest
  }

  /** `sorted(set(xs))`: the distinct elements of `xs`, ascending. */
  function SortedSet(xs: seq<string>): (r: seq<string>)
    ensures Increasing(r)
    ensures forall e :: e in r <==> e in xs
  {
    if xs == [] then []
    else
      var init := xs[..|xs| - 1];
      assert forall e :: e in xs <==> e in init || e == xs[|xs| - 1] by {
        assert xs == init + [xs[|xs| - 1]];
      }
      InsertNew(xs[|xs| - 1], SortedSet(init))
  }

  /** The supported extensions, as `get_supported_extensions` returns them. */
  function SupportedExtensions(): seq<string> {
    SortedSet(AllExtensions(Registry))
  }

  /**
   * `get_supported_extensions`: every kind's extensions gathered in registry
   * order, then the distinct ones sorted.
   */
  method GetSupportedExtensions() returns (r: seq<string>)
    ensures r == SortedSet(AllExtensions(Registry))
  {
    var extensions: seq<string> := [];
    for i := 0 to |Registry|
      invariant extensions == AllExtensions(Registry[..i])
    {
      assert Registry[..i + 1][..i] == Registry[..i];
      extensions := extensions + Extensions(Registry[i]);
    }
    assert Registry[..|Registry|] == Registry;
    r := SortedSet(extensions);
  }

  // ------------------------------------------------------------ properties

  /** Two ascending lists with the same elements are the same list. */
  lemma {:induction false} IncreasingUnique(a: seq<string>, b: seq<string>)
    requires Increasing(a) && Increasing(b) && forall e :: e in a <==> e in b
    ensures a == b
    decreases |a|
  {
    if a != [] {
      assert a[0] in b;
      assert b != [] && b[0] in a;
      var i :| 0 <= i < |a| && a[i] == b[0];
      var j :| 0 <= j < |b| && b[j] == a[0];
      if i > 0 && j > 0 {
        LexLessTransitive(a[0], b[0], a[0]);
        LexLessIrreflexive(a[0]);
      }
      if i > 0 {
        assert LexLess(a[0], a[i]);
        LexLessIrreflexive(a[0]);
      }
      if j > 0 {
        assert LexLess(b[0], b[j]);
        LexLessIrreflexive(b[0]);
      }
      assert a[0] == b[0];
      TailsAgree(a, b);
      IncreasingUnique(a[1..], b[1..]);
      assert a == [a[0]] + a[1..] && b == [b[0]] + b[1..];
    } else if b != [] {
      HeadIn(b);
      assert false;
    }
  }

  lemma HeadIn(b: seq<string>)
    requires b != []
    ensures b[0] in b
  {
  }

  /** Ascending lists with the same elements and the same head have tails with the same elements. */
  lemma TailsAgree(a: seq<string>, b: seq<string>)
    requires Increasing(a) && Increasing(b) && a != [] && b != [] && a[0] == b[0]
    requires forall e :: e in a <==> e in b
    ensures Increasing(a[1..]) && Increasing(b[1..]) && forall e :: e in a[1..] <==> e in b[1..]
  {
    forall e ensures e in a[1..] ==> e in b[1..] {
      if e in a[1..] {
        var i :| 0 <= i < |a[1..]| && a[1..][i] == e;
        assert LexLess(a[0], a[i + 1]);
        LexLessIrreflexive(a[0]);
        assert e in a;
        var j :| 0 <= j < |b| && b[j] == e;
        assert j > 0;
        assert b[1..][j - 1] == e;
      }
    }
    forall e ensures e in b[1..] ==> e in a[1..] {
      if e in b[1..] {
        var j :| 0 <= j < |b[1..]| && b[1..][j] == e;
        assert LexLess(b[0], b[j + 1]);
        LexLessIrreflexive(b[0]);
        assert e in b;
        var i :| 0 <= i < |a| && a[i] == e;
        assert i > 0;
        assert a[1..][i - 1] == e;
      }
    }
    forall i, j | 0 <= i < j < |a[1..]| ensures LexLess(a[1..][i], a[1..][j]) {
      assert a[1..][i] == a[i + 1] && a[1..][j] == a[j + 1];
    }
    forall i, j | 0 <= i < j < |b[1..]| ensures LexLess(b[1..][i], b[1..][j]) {
      assert b[1..][i] == b[i + 1] && b[1..][j] == b[j + 1];
    }
  }

  /** The supported extensions are the six of the four kinds, in Python's string order. */
  lemma SupportedList()
    ensures SupportedExtensions() == [".docx", ".md", ".pdf", ".txt", ".xls", ".xlsx"]
  {
    var lit := [".docx", ".md", ".pdf", ".txt", ".xls", ".xlsx"];
    assert LexLess(lit[0], lit[1]) && LexLess(lit[1], lit[2]) && LexLess(lit[2], lit[3]);
    assert LexLess(lit[3], lit[4]) && LexLess(lit[4], lit[5]);
    ChainIncreasing(lit);
    RegistryExtensions();
    IncreasingUnique(SupportedExtensions(), lit);
  }

  /** A list ascending between neighbours is ascending. */
  lemma {:induction false} ChainIncreasing(s: seq<string>)
    requires forall k :: 0 <= k < |s| - 1 ==> LexLess(s[k], s[k + 1])
    ensures Increasing(s)
    decreases |s|
  {
    if |s| > 1 {
      var t := s[1..];
      forall k | 0 <= k < |t| - 1 ensures LexLess(t[k], t[k + 1]) {
        assert t[k] == s[k + 1] && t[k + 1] == s[k + 2];
      }
      ChainIncreasing(t);
      forall j | 1 <= j < |s| ensures LexLess(s[0], s[j]) {
        if j > 1 {
          assert t[0] == s[1] && t[j - 1] == s[j];
          LexLessTransitive(s[0], s[1], s[j]);
        }
      }
      forall i, j | 0 <= i < j < |s| ensures LexLess(s[i], s[j]) {
        if i > 0 {
          assert t[i - 1] == s[i] && t[j - 1] == s[j];
        }
      }
    }
  }

  /** No extension is listed by two kinds. */
  lemma ExtensionsDisjoint(k1: Kind, k2: Kind, e: string)
    requires e in Extensions(k1) && e in Extensions(k2)
    ensures k1 == k2
  {
  }

  /**
   * `create_extractor` returns a kind exactly when that kind supports the
   * path; since no extension is listed twice, that kind is the only one.
   */
  lemma CreatedIffSupports(path: string, k: Kind)
    ensures CreateExtractor(path) == Ok(k) <==> Supports(k, path)
  {
    var ext := Lower(Suffix(path));
    if Supports(k, path) {
      assert k in Registry;
      var r := FirstSupporting(Registry, ext);
      assert r.Some?;
      ExtensionsDisjoint(r.value, k, ext);
    }
  }

  /** Every kind's extensions in registry order. */
  lemma RegistryExtensions()
    ensures AllExtensions(Registry) == [".pdf", ".docx", ".xlsx", ".xls", ".txt", ".md"]
  {
    assert Registry[..3] == [Pdf, Docx, Excel];
    assert [Pdf, Docx, Excel][..2] == [Pdf, Docx];
    assert [Pdf, Docx][..1] == [Pdf];
    assert [Pdf][..0] == [];
    assert AllExtensions([Pdf]) == [".pdf"];
    assert AllExtensions([Pdf, Docx]) == [".pdf", ".docx"];
    assert AllExtensions([Pdf, Docx, Excel]) == [".pdf", ".docx", ".xlsx", ".xls"];
  }

  /** A path is refused exactly when its lower-cased suffix is not among the supported extensions. */
  lemma RefusedIffUnlisted(path: string)
    ensures CreateExtractor(path).Err? <==> Lower(Suffix(path)) !in SupportedExtensions()
  {
    var ext := Lower(Suffix(path));
    assert ext in SupportedExtensions() <==> ext in AllExtensions(Registry);
    if FirstSupporting(Registry, ext).Some? {
      var k := FirstSupporting(Registry, ext).value;
      assert ext in AllExtensions(Registry);
    }
  }

  /** The error names the path, and its text says the format is unsupported and names the suffix. */
  lemma RefusalMessage(path: string)
    requires CreateExtractor(path).Err?
    ensures var e := CreateExtractor(path).error;
      && e.filePath == path
      && StartsWith(e.message, "Unsupported file format '" + Lower(Suffix(path)) + "'")
      && StartsWith(Display(e), "Failed to extract '" + path + "': ")
      && Contains(Display(e), "Unsupported")
  {
    RefusalText(Lower(Suffix(path)), TupleRepr(SupportedExtensions()), path);
  }

  lemma RefusalText(ext: string, supported: string, path: string)
    ensures var m := "Unsupported file format '" + ext + "'. Supported formats: " + supported;
      && StartsWith(m, "Unsupported file format '" + ext + "'")
      && StartsWith("Failed to extract '" + path + "': " + m, "Failed to extract '" + path + "': ")
      && Contains("Failed to extract '" + path + "': " + m, "Unsupported")
  {
    var head := "Unsupported file format '" + ext + "'";
    var m := "Unsupported file format '" + ext + "'. Supported formats: " + supported;
    assert m[..|head|] == head;
    var pre := "Failed to extract '" + path + "': ";
    assert (pre + m)[|pre|..|pre| + |"Unsupported"|] == "Unsupported";
    ContainsAt(pre + m, "Unsupported", |pre|);
    StartsWithAppend(pre, m);
  }

  /** The documented mapping: .pdf, .docx, .xlsx and .xls, .txt and .md, in any letter case. */
  lemma KindOfEachExtension(path: string)
    ensures Lower(Suffix(path)) == ".pdf" ==> CreateExtractor(path) == Ok(Pdf)
    ensures Lower(Suffix(path)) == ".docx" ==> CreateExtractor(path) == Ok(Docx)
    ensures Lower(Suffix(path)) in [".xlsx", ".xls"] ==> CreateExtractor(path) == Ok(Excel)
    ensures Lower(Suffix(path)) in [".txt", ".md"] ==> CreateExtractor(path) == Ok(PlainText)
  {
    CreatedIffSupports(path, Pdf);
    CreatedIffSupports(path, Docx);
    CreatedIffSupports(path, Excel);
    CreatedIffSupports(path, PlainText);
  }

  /** A name without '/' is its own file name. */
  lemma {:induction false} FileNameOfName(s: string)
    requires '/' !in s
    ensures FileName(s) == s
    decreases |s|
  {
    if s != [] {
      assert s == s[..|s| - 1] + [s[|s| - 1]];
      FileNameOfName(s[..|s| - 1]);
    }
  }

  /** The last '.' is the one with no '.' after it. */
  lemma {:induction false} LastDotAt(s: string, i: nat)
    requires i < |s| && s[i] == '.' && '.' !in s[i + 1..]
    ensures LastDot(s) == Some(i)
    decreases |s|
  {
    if i < |s| - 1 {
      assert s[|s| - 1] in s[i + 1..];
      assert s[..|s| - 1][i + 1..] == s[i + 1..|s| - 1];
      var t := s[..|s| - 1][i + 1..];
      forall k | 0 <= k < |t| ensures t[k] != '.' {
        assert t[k] == s[i + 1..][k];
      }
      LastDotAt(s[..|s| - 1], i);
    }
  }

  /** A name made of a non-empty stem and a '.'-led extension without further dots has that extension as its suffix. */
  lemma SuffixOfName(stem: string, ext: string)
    requires stem != [] && '/' !in stem && '/' !in ext
    requires |ext| >= 2 && ext[0] == '.' && '.' !in ext[1..]
    ensures Suffix(stem + ext) == ext
  {
    var name := stem + ext;
    forall k | 0 <= k < |name| ensures name[k] != '/' {
      if k < |stem| {
        assert name[k] == stem[k];
      } else {
        assert name[k] == ext[k - |stem|];
      }
    }
    FileNameOfName(name);
    assert name[|stem| + 1..] == ext[1..];
    LastDotAt(name, |stem|);
    assert name[|stem|..] == ext;
  }

  /** A file named like "test.txt" gets the text extractor. */
  lemma TextFileExample(stem: string)
    requires stem != [] && '/' !in stem
    ensures CreateExtractor(stem + ".txt") == Ok(PlainText)
  {
    LowerSuffix(stem, ".txt");
    KindOfEachExtension(stem + ".txt");
  }

  /** A file named like "test.jpg" is refused. */
  lemma ImageFileExample(stem: string)
    requires stem != [] && '/' !in stem
    ensures CreateExtractor(stem + ".jpg").Err?
  {
    LowerSuffix(stem, ".jpg");
    JpgUnlisted();
  }

  /** A lower-case extension after a stem is the lower-cased suffix. */
  lemma LowerSuffix(stem: string, ext: string)
    requires stem != [] && '/' !in stem && '/' !in ext
    requires |ext| >= 2 && ext[0] == '.' && '.' !in ext[1..]
    requires forall k :: 0 <= k < |ext| ==> !('A' <= ext[k] <= 'Z')
    ensures Lower(Suffix(stem + ext)) == ext
  {
    SuffixOfName(stem, ext);
    forall k | 0 <= k < |ext| ensures Lower(ext)[k] == ext[k] {
    }
  }

  lemma JpgUnlisted()
    ensures forall k: Kind :: ".jpg" !in Extensions(k)
  {
    forall k: Kind ensures ".jpg" !in Extensions(k) {
      forall e | e in Extensions(k) ensures e != ".jpg" {
        assert e[1] != 'j';
      }
    }
  }
}
