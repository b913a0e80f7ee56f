/** School names: how a name is read off a file name, and the order Python's
    `sorted` puts names in. */
module Names {

  /** A school name (a Python `str`). */
  type Name = string

  /** `normalize_name` (main.py:31-32): Unicode NFC normalisation, which the
      dashboard delegates to `unicodedata`. The model takes it as a parameter. */
  type Normalizer = Name -> Name

  // ---------------------------------------------------------------------------
  // File names
  // ---------------------------------------------------------------------------

  function LowerChar(c: char): char
  {
    if 'A' <= c <= 'Z' then (c as int + 32) as char else c
  }

  /** `str.lower()` on the characters that can make up ".csv" or ".xlsx". */
  function Lower(s: string): string
  {
    if |s| == 0 then "" else Lower(s[..|s| - 1]) + [LowerChar(s[|s| - 1])]
  }

  /** `str.rfind(c)`: the last position of `c` in `s`, or -1. */
  function LastIndexOf(s: string, c: char): int
  {
    if |s| == 0 then -1
    else if s[|s| - 1] == c then |s| - 1
    else LastIndexOf(s[..|s| - 1], c)
  }

  /** `rfind` finds the last occurrence, and -1 means there is none. */
  lemma {:induction false} LastIndexOfIsLast(s: string, c: char)
    ensures var i := LastIndexOf(s, c);
      && -1 <= i < |s|
      && (0 <= i ==> s[i] == c)
      && (forall j :: i < j < |s| ==> s[j] != c)
  {
    if |s| > 0 && s[|s| - 1] != c {
      LastIndexOfIsLast(s[..|s| - 1], c);
    }
  }

  /** The position of the dot that starts a file name's suffix, if it has one:
      the last dot, unless it is the first or the last character. */
  function SuffixDot(name: Name): (r: int)
    ensures r == -1 || 0 < r < |name| - 1
  {
    var i := LastIndexOf(name, '.');
    if 0 < i < |name| - 1 then i else -1
  }

  /** The suffix dot is the last dot of the name, and there is none exactly
      when every dot strictly inside the name is followed by another dot,
      that is, when the last dot is the first or the last character or absent. */
  lemma SuffixDotIsLastDot(name: Name)
    ensures var r := SuffixDot(name);
      && (r >= 0 ==> name[r] == '.' && '.' !in name[r + 1..])
      && (r == -1 <==> forall j :: 0 < j < |name| - 1 && name[j] == '.' ==> '.' in name[j + 1..])
  {
    LastIndexOfIsLast(name, '.');
    var i := LastIndexOf(name, '.');
    if !(0 < i < |name| - 1) {
      forall j | 0 < j < |name| - 1 && name[j] == '.'
        ensures '.' in name[j + 1..]
      {
        assert i >= j;
        assert name[j + 1..][i - j - 1] == name[i];
      }
    }
  }

  /** `Path.suffix`: the file name from its last dot on, or "" when there is none. */
  function Suffix(name: Name): string
  {
    var i := SuffixDot(name);
    if i < 0 then "" else name[i..]
  }

  /** `Path.stem`: the file name without its suffix. */
  function Stem(name: Name): string
  {
    var i := SuffixDot(name);
    if i < 0 then name else name[..i]
  }

  /** A file name is its stem followed by its suffix; a suffix is empty or a
      dot followed by text without a dot, and never the whole name. */
  lemma StemAndSuffix(name: Name)
    ensures name == Stem(name) + Suffix(name)
    ensures var x := Suffix(name); x == "" || (x[0] == '.' && '.' !in x[1..] && |x| < |name|)
  {
    LastIndexOfIsLast(name, '.');
    var x := Suffix(name);
    if x != "" {
      var i := SuffixDot(name);
      assert forall k :: 1 <= k < |x| ==> x[k] == name[i + k];
    }
  }

  /** `s.split(sep)[0]`: the text before the first `sep`, or all of `s`. */
  function FirstField(s: string, sep: char): (r: string)
    ensures r <= s
    ensures sep !in r
    ensures |r| < |s| ==> s[|r|] == sep
  {
    if |s| == 0 || s[0] == sep then "" else [s[0]] + FirstField(s[1..], sep)
  }

  /** Lower-casing works character by character, so it distributes over concatenation. */
  lemma {:induction false} LowerAppend(a: string, b: string)
    ensures Lower(a + b) == Lower(a) + Lower(b)
    decreases |b|
  {
    if |b| > 0 {
      var n := |b| - 1;
      assert (a + b)[..|a + b| - 1] == a + b[..n];
      LowerAppend(a, b[..n]);
    } else {
      assert a + b == a;
    }
  }

  /** A file name "<stem>.<ext>", with a non-empty stem and a non-empty
      dot-free extension, has suffix "." + ext and stem "<stem>". */
  lemma SuffixOfDotted(stem: string, ext: string)
    requires |stem| > 0 && |ext| > 0 && '.' !in ext
    ensures Suffix(stem + "." + ext) == "." + ext
    ensures Stem(stem + "." + ext) == stem
  {
    var name := stem + "." + ext;
    assert name[|stem|] == '.';
    assert forall j :: |stem| < j < |name| ==> name[j] == ext[j - |stem| - 1];
    LastIndexOfIsLast(name, '.');
    assert LastIndexOf(name, '.') == |stem|;
    assert name[|stem|..] == "." + ext;
  }

  /** A directory entry whose suffix, lower-cased, is ".csv" (main.py:41). */
  predicate IsCsv(name: Name)
  {
    Lower(Suffix(name)) == ".csv"
  }

  /** A directory entry whose suffix, lower-cased, is ".xlsx" (main.py:52). */
  predicate IsXlsx(name: Name)
  {
    Lower(Suffix(name)) == ".xlsx"
  }

  /** Lower-casing "." followed by `ext` is "." followed by `ext` lower-cased. */
  lemma LowerDotted(ext: string)
    ensures Lower("." + ext) == "." + Lower(ext)
  {
    LowerAppend(".", ext);
    assert Lower(".") == Lower("") + [LowerChar('.')];
  }

  /** The lower-cased suffix of "<stem>.<ext>" is `target` iff `target` is a
      dot followed by the lower-cased extension. */
  lemma LowerSuffixOfDotted(stem: string, ext: string, target: string)
    requires |stem| > 0 && |ext| > 0 && '.' !in ext
    ensures Lower(Suffix(stem + "." + ext)) == target
        <==> |target| > 0 && target[0] == '.' && Lower(ext) == target[1..]
  {
    SuffixOfDotted(stem, ext);
    LowerDotted(ext);
    var x := Lower(ext);
    if "." + x == target {
      assert x == ("." + x)[1..];
    }
    if |target| > 0 && target[0] == '.' && x == target[1..] {
      assert target == [target[0]] + target[1..];
    }
  }

  /** "<stem>.<ext>" is taken as an environment log iff its extension is
      "csv" in any mix of cases ("A_1.CSV" is one; "A_1.csv.bak" is not). */
  lemma IsCsvIff(stem: string, ext: string)
    requires |stem| > 0 && |ext| > 0 && '.' !in ext
    ensures IsCsv(stem + "." + ext) <==> Lower(ext) == "csv"
  {
    LowerSuffixOfDotted(stem, ext, ".csv");
  }

  /** "<stem>.<ext>" is taken as the growth workbook iff its extension is
      "xlsx" in any mix of cases. */
  lemma IsXlsxIff(stem: string, ext: string)
    requires |stem| > 0 && |ext| > 0 && '.' !in ext
    ensures IsXlsx(stem + "." + ext) <==> Lower(ext) == "xlsx"
  {
    LowerSuffixOfDotted(stem, ext, ".xlsx");
  }

  /** The school an environment file belongs to (main.py:42): the stem's text
      before the first '_', normalised. */
  function CsvSchool(name: Name, norm: Normalizer): Name
  {
    norm(FirstField(Stem(name), '_'))
  }

  lemma {:induction false} FirstFieldOfPrefix(prefix: string, rest: string, sep: char)
    requires sep !in prefix
    ensures FirstField(prefix + [sep] + rest, sep) == prefix
  {
    if |prefix| > 0 {
      FirstFieldOfPrefix(prefix[1..], rest, sep);
      assert (prefix + [sep] + rest)[1..] == prefix[1..] + [sep] + rest;
    }
  }

  /** A file named "<school>_<anything>.<ext>" belongs to school `norm(<school>)`. */
  lemma CsvSchoolOfFileName(prefix: string, rest: string, ext: string, norm: Normalizer)
    requires '_' !in prefix && '.' !in ext && |ext| > 0
    ensures Stem(prefix + "_" + rest + "." + ext) == prefix + "_" + rest
    ensures CsvSchool(prefix + "_" + rest + "." + ext, norm) == norm(prefix)
  {
    var stem := prefix + "_" + rest;
    var name := stem + "." + ext;
    assert prefix + "_" + rest + "." + ext == name;
    assert name[|stem|] == '.';
    assert forall j :: |stem| < j < |name| ==> name[j] == ext[j - |stem| - 1];
    LastIndexOfIsLast(name, '.');
    assert LastIndexOf(name, '.') == |stem|;
    assert Stem(name) == stem;
    FirstFieldOfPrefix(prefix, rest, '_');
  }

  // ---------------------------------------------------------------------------
  // Python's order on strings
  // ---------------------------------------------------------------------------

  /** `a < b` on Python strings: lexicographic by code point, and a proper
      prefix comes first. */
  predicate Below(a: Name, b: Name)
    decreases |a|
  {
    if |a| == 0 then |b| > 0
    else |b| > 0 && (a[0] < b[0] || (a[0] == b[0] && Below(a[1..], b[1..])))
  }

  lemma {:induction false} BelowIrreflexive(a: Name)
    ensures !Below(a, a)
  {
    if |a| > 0 {
      BelowIrreflexive(a[1..]);
    }
  }

  lemma {:induction false} BelowTransitive(a: Name, b: Name, c: Name)
    requires Below(a, b) && Below(b, c)
    ensures Below(a, c)
    decreases |a|
  {
    if |a| > 0 && a[0] == b[0] && b[0] == c[0] {
      BelowTransitive(a[1..], b[1..], c[1..]);
    }
  }

  lemma {:induction false} BelowTotal(a: Name, b: Name)
    ensures a == b || Below(a, b) || Below(b, a)
    ensures !(Below(a, b) && Below(b, a))
    decreases |a|
  {
    if |a| > 0 && |b| > 0 && a[0] == b[0] {
      BelowTotal(a[1..], b[1..]);
      if a[1..] == b[1..] {
        assert a == [a[0]] + a[1..] && b == [b[0]] + b[1..];
      }
    }
  }

  predicate StrictlyAscending(s: seq<Name>)
  {
    forall i, j :: 0 <= i < j < |s| ==> Below(s[i], s[j])
  }

  predicate IsLeast(m: Name, s: set<Name>)
  {
    m in s && forall x :: x in s && x != m ==> Below(m, x)
  }

  lemma {:induction false} LeastExists(s: set<Name>)
    requires s != {}
    ensures exists m :: IsLeast(m, s)
    decreases |s|
  {
    var x :| x in s;
    if s == {x} {
      assert IsLeast(x, s);
    } else {
      var rest := s - {x};
      LeastExists(rest);
      var m :| IsLeast(m, rest);
      BelowTotal(m, x);
      if Below(m, x) {
        assert IsLeast(m, s);
      } else {
        forall y | y in s && y != x
          ensures Below(x, y)
        {
          if y != m {
            BelowTransitive(x, m, y);
          }
        }
        assert IsLeast(x, s);
      }
    }
  }

  lemma LeastUnique(s: set<Name>)
    ensures forall m, n :: IsLeast(m, s) && IsLeast(n, s) ==> m == n
  {
    forall m, n | IsLeast(m, s) && IsLeast(n, s)
      ensures m == n
    {
      BelowTotal(m, n);
    }
  }

  /** `sorted(s)` for a set of names: its elements in ascending order. */
  function SortedNames(s: set<Name>): (r: seq<Name>)
    ensures StrictlyAscending(r)
    ensures forall x :: x in r <==> x in s
    ensures |r| == |s|
    decreases |s|
  {
    if s == {} then []
    else
      LeastExists(s);
      LeastUnique(s);
      var m :| IsLeast(m, s);
      var rest := SortedNames(s - {m});
      assert forall j :: 0 <= j < |rest| ==> rest[j] in s - {m};
      assert forall j :: 0 <= j < |rest| ==> Below(m, rest[j]);
      [m] + rest
  }

  /** "A_1.CSV" is an environment log: the suffix test ignores case. */
  lemma UpperCaseCsvIsKept()
    ensures IsCsv("A_1.CSV")
  {
    assert "A_1.CSV" == "A_1" + "." + "CSV";
    IsCsvIff("A_1", "CSV");
    LowerOfUpperCsv();
  }

  /** "A_1.CSV" belongs to school `normalize_name("A")`. */
  lemma UpperCaseCsvSchool(norm: Normalizer)
    ensures CsvSchool("A_1.CSV", norm) == norm("A")
  {
    CsvSchoolOfFileName("A", "1", "CSV", norm);
    assert "A" + "_" + "1" + "." + "CSV" == "A_1.CSV";
  }

  lemma LowerOfUpperCsv()
    ensures Lower("CSV") == "csv"
  {
    assert "CSV"[..2] == "CS" && "CS"[..1] == "C" && "C"[..0] == "";
  }
}
