/**
  The upload filter of the Flask back end: a file name is accepted for upload
  only if it has an extension and that extension, lower-cased, is one of the
  allowed point-cloud extensions.
 */
module UploadFilter {
  import opened Wrappers

  /** The extensions the back end accepts for upload. */
  const AllowedExtensions: set<string> := {"pts", "md"}

  /** Lower-cases one character; only 'A'..'Z' change (see README for non-ASCII). */
  function LowerChar(c: char): (r: char)
    ensures r == c <==> !('A' <= c <= 'Z')
    ensures 'a' <= r <= 'z' <==> ('a' <= c <= 'z' || 'A' <= c <= 'Z')
    ensures 'A' <= c <= 'Z' ==> r as int - 'a' as int == c as int - 'A' as int
  {
    if 'A' <= c <= 'Z' then (c as int + 32) as char else c
  }

  /** Python's `str.lower()`, character by character. */
  function Lower(s: string): (r: string)
    ensures |r| == |s|
    ensures forall i :: 0 <= i < |s| ==> r[i] == LowerChar(s[i])
  {
    seq(|s|, i requires 0 <= i < |s| => LowerChar(s[i]))
  }

  /** The position of the last occurrence of `c` in `s`, if there is one. */
  function LastIndexOf(s: string, c: char): (r: Option<nat>)
    ensures r.None? <==> c !in s
    ensures r.Some? ==> r.value < |s| && s[r.value] == c
    ensures r.Some? ==> forall j :: r.value < j < |s| ==> s[j] != c
  {
    if s == [] then None
    else if s[|s| - 1] == c then Some(|s| - 1)
    else LastIndexOf(s[..|s| - 1], c)
  }

  /**
    Python's `s.rsplit(sep, 1)`: the whole string when `sep` does not occur,
    otherwise the text before and the text after the last `sep`.
   */
  function RSplitOnce(s: string, sep: char): (r: seq<string>)
    ensures 1 <= |r| <= 2
    ensures |r| == 1 <==> sep !in s
    ensures |r| == 1 ==> r[0] == s
    ensures |r| == 2 ==> s == r[0] + [sep] + r[1] && sep !in r[1]
  {
    match LastIndexOf(s, sep)
    case None => [s]
    case Some(i) =>
      assert s == s[..i] + [sep] + s[i + 1..];
      [s[..i], s[i + 1..]]
  }

  /** The dot at position `i` is the last dot, and the text after it, lower-cased, is allowed. */
  ghost predicate AllowedExtensionAt(filename: string, i: int)
  {
    0 <= i < |filename| && filename[i] == '.' && '.' !in filename[i + 1..]
      && Lower(filename[i + 1..]) in AllowedExtensions
  }

  /**
    Reference reading of the rule: some dot in the name is the last dot, and
    what follows it, lower-cased, is an allowed extension.
   */
  ghost predicate EndsInAllowedExtension(filename: string)
  {
    exists i :: AllowedExtensionAt(filename, i)
  }

  /**
    A split at a dot with no dot after it is the split `rsplit` makes.
    This lemma and the string lemmas below that carry `{:induction false}` make
    no recursive call: the attribute only stops the solver from trying
    automatic induction on their string arguments.
   */
  lemma {:induction false} SplitAtLastDot(stem: string, ext: string)
    requires '.' !in ext
    ensures RSplitOnce(stem + "." + ext, '.') == [stem, ext]
  {
    var s := stem + "." + ext;
    assert s[|stem|] == '.';
    assert forall j :: |stem| < j < |s| ==> s[j] == ext[j - |stem| - 1];
    var i := LastIndexOf(s, '.').value;
    assert i == |stem|;
    assert s[..i] == stem;
    assert s[i + 1..] == ext;
  }

  /** The text after the last dot, as `rsplit` finds it, is a witness of the reference reading. */
  lemma SplitWitnessesReading(filename: string)
    requires '.' in filename && Lower(RSplitOnce(filename, '.')[1]) in AllowedExtensions
    ensures EndsInAllowedExtension(filename)
  {
    var i := LastIndexOf(filename, '.').value;
    var ext := filename[i + 1..];
    assert ext == RSplitOnce(filename, '.')[1];
    assert '.' !in ext by {
      forall j | 0 <= j < |ext| ensures ext[j] != '.' {
        assert ext[j] == filename[i + 1 + j];
      }
    }
    assert AllowedExtensionAt(filename, i);
  }

  /** Any witness of the reference reading is the split `rsplit` makes. */
  lemma ReadingGivesSplit(filename: string, i: nat)
    requires i < |filename| && filename[i] == '.' && '.' !in filename[i + 1..]
    requires Lower(filename[i + 1..]) in AllowedExtensions
    ensures '.' in filename && Lower(RSplitOnce(filename, '.')[1]) in AllowedExtensions
  {
    var stem, ext := filename[..i], filename[i + 1..];
    assert filename == stem + "." + ext;
    SplitAtLastDot(stem, ext);
  }

  /** Testing the second part of `rsplit('.', 1)` is testing the text after the last dot. */
  lemma LastDotReading(filename: string)
    ensures EndsInAllowedExtension(filename)
      <==> '.' in filename && Lower(RSplitOnce(filename, '.')[1]) in AllowedExtensions
  {
    if '.' in filename && Lower(RSplitOnce(filename, '.')[1]) in AllowedExtensions {
      SplitWitnessesReading(filename);
    }
    if EndsInAllowedExtension(filename) {
      var i :| AllowedExtensionAt(filename, i);
      ReadingGivesSplit(filename, i);
    }
  }

  /**
    `allowed_file`: there is a dot, and the text after the last dot,
    lower-cased, is allowed; this agrees with the reference reading in both
    directions.
   */
  function AllowedFile(filename: string): (ok: bool)
    ensures ok <==> EndsInAllowedExtension(filename)
  {
    LastDotReading(filename);
    '.' in filename && Lower(RSplitOnce(filename, '.')[1]) in AllowedExtensions
  }

  /**
    The extension is the text after the LAST dot, whatever the stem holds
    (other dots, or nothing at all), and it must lower-case to pts or md.
    (No automatic induction: see `SplitAtLastDot`.)
   */
  lemma {:induction false} ExtensionAfterLastDot(stem: string, ext: string)
    requires '.' !in ext
    ensures AllowedFile(stem + "." + ext) <==> Lower(ext) == "pts" || Lower(ext) == "md"
  {
    SplitAtLastDot(stem, ext);
  }

  /** A name without a dot has no extension and is rejected. */
  lemma NoDotRejected(filename: string)
    requires '.' !in filename
    ensures !AllowedFile(filename)
  {
  }

  /**
    Lower-casing keeps dots where they are and nothing else becomes a dot.
    (No automatic induction: see `SplitAtLastDot`.)
   */
  lemma {:induction false} LowerKeepsDots(s: string)
    ensures forall i :: 0 <= i < |s| ==> (Lower(s)[i] == '.' <==> s[i] == '.')
    ensures ('.' in Lower(s)) <==> ('.' in s)
  {
    forall i | 0 <= i < |s| ensures Lower(s)[i] == '.' <==> s[i] == '.' {
      assert Lower(s)[i] == LowerChar(s[i]);
    }
    if '.' in s {
      var i :| 0 <= i < |s| && s[i] == '.';
      assert Lower(s)[i] == '.';
    }
    if '.' in Lower(s) {
      var i :| 0 <= i < |s| && Lower(s)[i] == '.';
      assert s[i] == '.';
    }
  }

  /** Lower-casing distributes over concatenation. */
  lemma LowerAppend(a: string, b: string)
    ensures Lower(a + b) == Lower(a) + Lower(b)
  {
  }

  /** Lower-casing twice is lower-casing once. */
  lemma LowerIdempotent(s: string)
    ensures Lower(Lower(s)) == Lower(s)
  {
  }

  /**
    The check ignores case: a name is accepted exactly when its lower-cased form is.
    (No automatic induction: see `SplitAtLastDot`.)
   */
  lemma {:induction false} AllowedFileIgnoresCase(filename: string)
    ensures AllowedFile(Lower(filename)) <==> AllowedFile(filename)
  {
    LowerKeepsDots(filename);
    if '.' in filename {
      var i := LastIndexOf(filename, '.').value;
      var stem, ext := filename[..i], filename[i + 1..];
      assert filename == stem + "." + ext;
      ExtensionAfterLastDot(stem, ext);
      LowerAppend(stem + ".", ext);
      LowerAppend(stem, ".");
      assert Lower(".") == ".";
      LowerKeepsDots(ext);
      ExtensionAfterLastDot(Lower(stem), Lower(ext));
      LowerIdempotent(ext);
    }
  }

  /** A name with no upper-case letter is its own lower-cased form. */
  lemma LowerOfLowerCase(s: string)
    requires forall i :: 0 <= i < |s| ==> !('A' <= s[i] <= 'Z')
    ensures Lower(s) == s
  {
  }

  /** "scan.tar.pts": only the text after the last dot is the extension. */
  lemma ExampleDoubleExtensionAccepted()
    ensures AllowedFile("scan.tar.pts")
  {
    assert "scan.tar.pts" == "scan.tar" + "." + "pts";
    ExtensionAfterLastDot("scan.tar", "pts");
    LowerOfLowerCase("pts");
  }

  /** "scan.pts.txt": an allowed extension in the middle does not count. */
  lemma ExampleInnerExtensionRejected()
    ensures !AllowedFile("scan.pts.txt")
  {
    assert "scan.pts.txt" == "scan.pts" + "." + "txt";
    ExtensionAfterLastDot("scan.pts", "txt");
    LowerOfLowerCase("txt");
  }

  /** "SCAN.PTS": the extension is compared lower-cased. */
  lemma ExampleUpperCaseAccepted()
    ensures AllowedFile("SCAN.PTS")
  {
    assert "SCAN.PTS" == "SCAN" + "." + "PTS";
    ExtensionAfterLastDot("SCAN", "PTS");
    var low := Lower("PTS");
    assert low[0] == 'p' && low[1] == 't' && low[2] == 's';
    assert low == "pts";
  }

  /** "notes.Md": mixed case is lower-cased too. */
  lemma ExampleMixedCaseAccepted()
    ensures AllowedFile("notes.Md")
  {
    assert "notes.Md" == "notes" + "." + "Md";
    ExtensionAfterLastDot("notes", "Md");
    var low := Lower("Md");
    assert low[0] == 'm' && low[1] == 'd';
    assert low == "md";
  }

  /** "scan.": a trailing dot gives an empty extension, which is rejected. */
  lemma ExampleTrailingDotRejected()
    ensures !AllowedFile("scan.")
  {
    assert "scan." == "scan" + "." + "";
    ExtensionAfterLastDot("scan", "");
  }

  /** ".pts": the stem may be empty. */
  lemma ExampleEmptyStemAccepted()
    ensures AllowedFile(".pts")
  {
    assert ".pts" == "" + "." + "pts";
    ExtensionAfterLastDot("", "pts");
    LowerOfLowerCase("pts");
  }
}
