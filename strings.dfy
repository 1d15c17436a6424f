/** String helpers of FileService: ASCII case folding (the part of Java's
    toLowerCase / compareToIgnoreCase this model covers), suffix and substring
    tests, lastIndexOf, decimal rendering of integers, root-relative path
    joining, the parent-folder substring and the two extension conventions. */
module Strings {

  /** Java's Character.toLowerCase restricted to ASCII: 'A'..'Z' become
      'a'..'z', every other character is left alone. */
  function LowerChar(c: char): char
  {
    if 'A' <= c <= 'Z' then (c as int + 32) as char else c
  }

  function Lower(s: string): (r: string)
    ensures |r| == |s|
    ensures forall i :: 0 <= i < |s| ==> r[i] == LowerChar(s[i])
  {
    seq(|s|, i requires 0 <= i < |s| => LowerChar(s[i]))
  }

  /** `s` holds an ASCII upper-case letter. */
  predicate HasUpper(s: string)
  {
    exists i :: 0 <= i < |s| && 'A' <= s[i] <= 'Z'
  }

  /** Lower-casing twice is lower-casing once. */
  lemma LowerIdempotent(s: string)
    ensures Lower(Lower(s)) == Lower(s)
  {
  }

  /** Lower-casing leaves no upper-case letter, and it changes a string
      exactly when the string holds one. */
  lemma LowerFixesExactlyLowerCase(s: string)
    ensures !HasUpper(Lower(s))
    ensures Lower(s) == s <==> !HasUpper(s)
  {
    if HasUpper(s) {
      var i :| 0 <= i < |s| && 'A' <= s[i] <= 'Z';
      assert Lower(s)[i] != s[i];
    }
  }

  lemma LowerConcat(a: string, b: string)
    ensures Lower(a + b) == Lower(a) + Lower(b)
  {
  }

  lemma LowerSlice(s: string, i: nat)
    requires i <= |s|
    ensures Lower(s[i..]) == Lower(s)[i..] && Lower(s[..i]) == Lower(s)[..i]
  {
  }

  /** Only '.' folds to '.', and only '/' folds to '/'. */
  lemma LowerCharKeepsPunctuation(c: char)
    ensures LowerChar(c) == '.' <==> c == '.'
    ensures LowerChar(c) == '/' <==> c == '/'
    ensures LowerChar(c) == '_' <==> c == '_'
  {
  }

  /** Java's String.endsWith. */
  predicate EndsWith(s: string, suffix: string)
  {
    |suffix| <= |s| && s[|s| - |suffix|..] == suffix
  }

  /** Java's String.contains: `t` occurs in `s` at some position. */
  predicate Contains(s: string, t: string)
  {
    t <= s || (s != [] && Contains(s[1..], t))
  }

  /** The empty search term is contained in every name. */
  lemma ContainsEmpty(s: string)
    ensures Contains(s, "")
  {
  }

  /** `t` occurs in `s` starting at index `i`. */
  predicate OccursAt(s: string, t: string, i: int)
  {
    0 <= i <= |s| - |t| && s[i..i + |t|] == t
  }

  /** `Contains` means "occurs at some index", both ways. */
  lemma ContainsAt(s: string, t: string)
    ensures Contains(s, t) <==> exists i :: OccursAt(s, t, i)
  {
    if Contains(s, t) {
      var i := ContainsIndex(s, t);
    }
    if exists i :: OccursAt(s, t, i) {
      var i :| OccursAt(s, t, i);
      OccursContains(s, t, i);
    }
  }

  /** A position at which a contained string occurs. */
  lemma {:induction false} ContainsIndex(s: string, t: string) returns (i: int)
    requires Contains(s, t)
    ensures OccursAt(s, t, i)
    decreases |s|
  {
    if t <= s {
      i := 0;
    } else {
      var j := ContainsIndex(s[1..], t);
      i := j + 1;
      assert 0 <= i <= |s| - |t|;
      forall k | 0 <= k < |t|
        ensures s[i..i + |t|][k] == t[k]
      {
        assert s[i..i + |t|][k] == s[i + k] == s[1..][j + k] == s[1..][j..j + |t|][k];
      }
    }
  }

  /** An occurrence at index `i` makes the string contained. */
  lemma {:induction false} OccursContains(s: string, t: string, i: int)
    requires OccursAt(s, t, i)
    ensures Contains(s, t)
    decreases i
  {
    if i == 0 {
      assert t == s[..|t|];
    } else {
      assert s[1..][i - 1..i - 1 + |t|] == s[i..i + |t|];
      OccursContains(s[1..], t, i - 1);
    }
  }

  /** Java's String.lastIndexOf(char): the last position holding `c`, or -1. */
  function LastIndexOf(s: string, c: char): (r: int)
    ensures -1 <= r < |s|
    ensures r == -1 <==> c !in s
    ensures 0 <= r ==> s[r] == c && c !in s[r + 1..]
  {
    if s == [] then -1
    else if s[|s| - 1] == c then |s| - 1
    else
      var r := LastIndexOf(s[..|s| - 1], c);
      assert s == s[..|s| - 1] + [s[|s| - 1]];
      assert 0 <= r ==> s[r + 1..] == s[..|s| - 1][r + 1..] + [s[|s| - 1]];
      r
  }

  /** The last occurrence of `c` in `a + [c] + b` is the one between them when
      `b` holds no `c`. */
  lemma LastIndexOfSeparator(a: string, c: char, b: string)
    requires c !in b
    ensures LastIndexOf(a + [c] + b, c) == |a|
  {
    assert (a + [c] + b)[|a|] == c;
  }

  function DigitChar(d: nat): (c: char)
    requires d < 10
    ensures '0' <= c <= '9'
  {
    ('0' as int + d) as char
  }

  predicate AllDigits(s: string)
  {
    forall i :: 0 <= i < |s| ==> '0' <= s[i] <= '9'
  }

  /** Java's decimal rendering of a non-negative integer (Long.toString, string
      concatenation with an int): no sign, no leading zeros. */
  function DecimalString(n: nat): (r: string)
    ensures |r| >= 1 && AllDigits(r)
    ensures n >= 10 ==> r[0] != '0'
  {
    if n < 10 then [DigitChar(n)] else DecimalString(n / 10) + [DigitChar(n % 10)]
  }

  function ParseDecimal(s: string): nat
    requires AllDigits(s)
  {
    if s == [] then 0
    else 10 * ParseDecimal(s[..|s| - 1]) + (s[|s| - 1] as int - '0' as int)
  }

  /** Reading back the decimal rendering gives the number. */
  lemma {:induction false} DecimalRoundTrip(n: nat)
    ensures ParseDecimal(DecimalString(n)) == n
  {
    if n >= 10 {
      DecimalRoundTrip(n / 10);
      var s := DecimalString(n);
      assert s[..|s| - 1] == DecimalString(n / 10);
    }
  }

  lemma DecimalInjective(a: nat, b: nat)
    requires DecimalString(a) == DecimalString(b)
    ensures a == b
  {
    DecimalRoundTrip(a);
    DecimalRoundTrip(b);
  }

  /** Digits are not changed by case folding. */
  lemma LowerDigits(s: string)
    requires AllDigits(s)
    ensures Lower(s) == s
  {
  }

  /** The string of a child's path relative to the data root, as
      `basePath.relativize(dir.resolve(name)).toString()` gives it: the name
      alone at the root, otherwise joined to its directory's path by '/'. */
  function Join(dir: string, name: string): string
  {
    if dir == "" then name else dir + "/" + name
  }

  /** The parent folder of a relative path: the text before its last '/', or
      "" when it has none. */
  function FolderPath(relativePath: string): string
  {
    var k := LastIndexOf(relativePath, '/');
    if k < 0 then "" else relativePath[..k]
  }

  /** Taking the folder part of a joined path gives back the directory's path
      when the name holds no '/' (true of every file name on the server). */
  lemma FolderPathOfJoin(dir: string, name: string)
    requires '/' !in name
    ensures FolderPath(Join(dir, name)) == dir
  {
    if dir != "" {
      LastIndexOfSeparator(dir, '/', name);
      assert (dir + ['/'] + name)[..|dir|] == dir;
      assert dir + "/" + name == dir + ['/'] + name;
    }
  }

  /** The extension as convertToPowerBIFormat and processExcelFile compute it:
      the text after the last '.', lower-cased, and "" for a name without '.'. */
  function ExtensionLower(name: string): string
  {
    var k := LastIndexOf(name, '.');
    if k < 0 then "" else Lower(name[k + 1..])
  }

  /** The extension as the Power BI compatible records compute it: from the
      last '.' on, with the dot and in the original case, "" without a '.'. */
  function ExtensionWithDot(name: string): string
  {
    var k := LastIndexOf(name, '.');
    if k < 0 then "" else name[k..]
  }

  /** The name with its last '.' and everything after it removed (the effect
      of `replaceAll("\\.[^.]*$", "")`); a name without '.' is kept whole. */
  function BaseName(name: string): string
  {
    var k := LastIndexOf(name, '.');
    if k < 0 then name else name[..k]
  }

  /** Base name and dotted extension split the name, the dotted extension
      has exactly one '.', its first character, and the two extension
      conventions agree up to the dot and the case. */
  lemma ExtensionConventions(name: string)
    ensures BaseName(name) + ExtensionWithDot(name) == name
    ensures ExtensionWithDot(name) == "" <==> '.' !in name
    ensures ExtensionWithDot(name) != "" ==>
      ExtensionWithDot(name)[0] == '.' && '.' !in ExtensionWithDot(name)[1..]
    ensures ExtensionLower(name) == if '.' in name then Lower(ExtensionWithDot(name)[1..]) else ""
  {
    var k := LastIndexOf(name, '.');
    if k >= 0 {
      assert name[k..][1..] == name[k + 1..];
    }
  }

  /** FileService.isExcelFile on a file name. */
  predicate IsExcelFile(name: string)
  {
    EndsWith(Lower(name), ".xlsx") || EndsWith(Lower(name), ".xls")
  }

  /** A name is a spreadsheet name exactly when its lower-cased extension is
      "xlsx" or "xls". */
  lemma IsExcelFileIffExtension(name: string)
    ensures IsExcelFile(name) <==> ExtensionLower(name) == "xlsx" || ExtensionLower(name) == "xls"
  {
    if IsExcelFile(name) {
      ExcelFileHasExcelExtension(name);
    } else {
      OtherFileHasOtherExtension(name);
    }
  }

  lemma ExcelFileHasExcelExtension(name: string)
    requires IsExcelFile(name)
    ensures ExtensionLower(name) == "xlsx" || ExtensionLower(name) == "xls"
  {
    if EndsWith(Lower(name), ".xlsx") {
      ExcelSuffixExtension(name, "xlsx");
    } else {
      ExcelSuffixExtension(name, "xls");
    }
  }

  lemma OtherFileHasOtherExtension(name: string)
    requires !IsExcelFile(name)
    ensures ExtensionLower(name) != "xlsx" && ExtensionLower(name) != "xls"
  {
    if ExtensionLower(name) == "xlsx" || ExtensionLower(name) == "xls" {
      ExtensionExcelSuffix(name, ExtensionLower(name));
      DottedSuffixIsExcel(name, ExtensionLower(name));
    }
  }

  lemma DottedSuffixIsExcel(name: string, e: string)
    requires e == "xlsx" || e == "xls"
    requires EndsWith(Lower(name), "." + e)
    ensures IsExcelFile(name)
  {
    if e == "xlsx" {
      assert "." + e == ".xlsx";
    } else {
      assert "." + e == ".xls";
    }
  }

  lemma ExtensionExcelSuffix(name: string, e: string)
    requires e == "xlsx" || e == "xls"
    requires ExtensionLower(name) == e
    ensures EndsWith(Lower(name), "." + e)
  {
    var k := LastIndexOf(name, '.');
    assert k >= 0;
    LowerSlice(name, k);
    LowerSlice(name, k + 1);
    var l := Lower(name);
    assert l[k] == '.';
    assert l[k + 1..] == e;
    assert l[k..] == [l[k]] + l[k + 1..];
    assert |l| - |"." + e| == k;
  }

  lemma ExcelSuffixExtension(name: string, e: string)
    requires e == "xlsx" || e == "xls"
    requires EndsWith(Lower(name), "." + e)
    ensures ExtensionLower(name) == e
  {
    var p := |name| - |e| - 1;
    DottedSuffixSplit(Lower(name), e);
    LowerSlice(name, p + 1);
    DotFreeUnderLower(name[p + 1..], e);
    LowerCharKeepsPunctuation(name[p]);
    assert name == name[..p] + ['.'] + name[p + 1..];
    LastIndexOfSeparator(name[..p], '.', name[p + 1..]);
  }

  /** A string ending in "." + e holds the dot just before the last |e| characters. */
  lemma DottedSuffixSplit(l: string, e: string)
    requires EndsWith(l, "." + e)
    ensures l[|l| - |e| - 1] == '.' && l[|l| - |e|..] == e
  {
    var k := |l| - |e| - 1;
    assert l[k..] == "." + e;
    assert l[k..][0] == '.';
    assert l[k..][1..] == l[k + 1..];
  }

  /** A string whose lower-cased form holds no '.' holds none itself. */
  lemma DotFreeUnderLower(t: string, e: string)
    requires Lower(t) == e && '.' !in e
    ensures '.' !in t
  {
    forall j | 0 <= j < |t|
      ensures t[j] != '.'
    {
      LowerCharKeepsPunctuation(t[j]);
      assert Lower(t)[j] == e[j];
    }
  }
}
