/** The fixed character tables of the generator and the one operation that reads
    them directly, `get_test_string`. A category stands for the Ruby symbol
    (`:chinese`, `:german`, ...) whose upper-cased name picks a constant. */
module CharTables {

  datatype Category = Chinese | German | English | Numeric | WhiteSpace | MaxLength | Syntax

  /** The Ruby range `[*lo..hi]` of single characters: every code point from
      `lo` to `hi` inclusive, in ascending order. */
  function CharRange(lo: int, hi: int): (r: seq<char>)
    requires 0 <= lo && hi < 0xD800
    ensures |r| == if lo <= hi then hi - lo + 1 else 0
    ensures forall i :: 0 <= i < |r| ==> r[i] as int == lo + i
    decreases hi - lo
  {
    if lo > hi then [] else [lo as char] + CharRange(lo + 1, hi)
  }

  /** U+4E00 .. U+4E20 */
  const ChineseChars: seq<char> := CharRange(0x4E00, 0x4E20)

  /** Ä ä Ö ö Ü ü */
  const GermanChars: seq<char> := ['\U{00C4}', '\U{00E4}', '\U{00D6}', '\U{00F6}', '\U{00DC}', '\U{00FC}']

  /** U+0041 .. U+007A: A-Z, the six punctuation marks between them, a-z */
  const EnglishChars: seq<char> := CharRange(0x41, 0x7A)

  /** 0 .. 9 */
  const NumericChars: seq<char> := CharRange(0x30, 0x39)

  /** a plain space, then U+2002 .. U+200B */
  const WhiteSpaceChars: seq<char> := [' '] + CharRange(0x2002, 0x200B)

  /** ß, the table the Ruby code calls the max-length characters */
  const MaxLengthChars: seq<char> := ['\U{00DF}']

  const SyntaxChars: seq<char> :=
    ['&', '+', '/', '\\', '"', '\'', '(', ')', '?', '.', '#', '@', '_', '-', '~']

  /** The table a category names; replaces the name lookup of the Ruby code.
      Every table is non-empty, and only the white-space table holds a space. */
  function Table(c: Category): (r: seq<char>)
    ensures |r| >= 1
    ensures ' ' in r <==> c == WhiteSpace
  {
    match c
    case Chinese => assert ChineseChars[0] != ' '; ChineseChars
    case German => GermanChars
    case English => EnglishChars
    case Numeric => NumericChars
    case WhiteSpace => assert WhiteSpaceChars[0] == ' '; WhiteSpaceChars
    case MaxLength => MaxLengthChars
    case Syntax => SyntaxChars
  }

  lemma TableSizes()
    ensures |Table(Chinese)| == 33 && |Table(German)| == 6 && |Table(English)| == 58
    ensures |Table(Numeric)| == 10 && |Table(WhiteSpace)| == 11
    ensures |Table(MaxLength)| == 1 && |Table(Syntax)| == 15
  {
  }

  /** How many elements `a[0...len]` keeps of an array of n: `len` capped at
      n, and for a negative `len` all but the last `-len` (none if that is
      more than n). */
  function PrefixLength(n: nat, len: int): (k: nat)
    ensures k <= n
    ensures 0 <= len <= n ==> k == len
    ensures len > n ==> k == n
    ensures len < 0 ==> k == if n + len >= 0 then n + len else 0
  {
    if len >= 0 then (if len <= n then len else n)
    else if n + len >= 0 then n + len
    else 0
  }

  /** Ruby's `a[0...len]`: a prefix of `a`, all of it when `len` is past the end,
      and for a negative `len` everything but the last `-len` elements. */
  function RubyPrefix<T>(a: seq<T>, len: int): (r: seq<T>)
    ensures |r| <= |a| && r == a[..|r|]
    ensures r == a[..PrefixLength(|a|, len)]
    ensures 0 <= len ==> |r| == if len <= |a| then len else |a|
    ensures len < 0 ==> |r| == if |a| + len >= 0 then |a| + len else 0
  {
    if len >= 0 then (if len <= |a| then a[..len] else a)
    else if |a| + len >= 0 then a[..|a| + len]
    else []
  }

  /** `get_test_string(len)`: the first `len` characters of the Chinese,
      English, German and syntax tables, in that order, each capped at its
      table (and for a negative `len`, each table without its last `-len`). */
  function GetTestString(len: int): (r: seq<char>)
    ensures r == ChineseChars[..PrefixLength(|ChineseChars|, len)] + EnglishChars[..PrefixLength(|EnglishChars|, len)]
      + GermanChars[..PrefixLength(|GermanChars|, len)] + SyntaxChars[..PrefixLength(|SyntaxChars|, len)]
    ensures forall ch :: ch in r ==>
      ch in ChineseChars || ch in EnglishChars || ch in GermanChars || ch in SyntaxChars
    ensures 0 <= len <= 6 ==> |r| == 4 * len
    ensures 0 <= len <= 6 ==> r[..len] == ChineseChars[..len] && r[len..2 * len] == EnglishChars[..len]
    ensures 0 <= len <= 6 ==> r[2 * len..3 * len] == GermanChars[..len] && r[3 * len..] == SyntaxChars[..len]
    ensures len >= 58 ==> r == ChineseChars + EnglishChars + GermanChars + SyntaxChars
  {
    var c, e, g, y := RubyPrefix(ChineseChars, len), RubyPrefix(EnglishChars, len),
      RubyPrefix(GermanChars, len), RubyPrefix(SyntaxChars, len);
    PrefixMembers(ChineseChars, c);
    PrefixMembers(EnglishChars, e);
    PrefixMembers(GermanChars, g);
    PrefixMembers(SyntaxChars, y);
    if 0 <= len <= 6 then
      TableSizes();
      FourEqualParts(c, e, g, y);
      c + e + g + y
    else
      c + e + g + y
  }

  /** Four parts of one length are recovered from their join by slicing. */
  lemma FourEqualParts<T>(c: seq<T>, e: seq<T>, g: seq<T>, y: seq<T>)
    requires |c| == |e| == |g| == |y|
    ensures var r, n := c + e + g + y, |c|;
      && |r| == 4 * n && r[..n] == c && r[n..2 * n] == e && r[2 * n..3 * n] == g && r[3 * n..] == y
  {
  }

  lemma PrefixMembers<T>(a: seq<T>, p: seq<T>)
    requires |p| <= |a| && p == a[..|p|]
    ensures forall x :: x in p ==> x in a
  {
    assert a == p + a[|p|..];
  }

  /** Lengths on both sides of the small tables: 10 + 10 + 6 + 10 characters
      for len 10, and 32 + 57 + 5 + 14 for len -1. */
  lemma TestStringLengths()
    ensures |GetTestString(10)| == 36
    ensures GetTestString(10)[20..26] == GermanChars
    ensures |GetTestString(-1)| == 108
    ensures |GetTestString(-20)| == 13 + 38
  {
    TableSizes();
  }

  /** With the default length of 5: five CJK ideographs, ABCDE, ÄäÖöÜ and &+/\" */
  lemma DefaultTestString()
    ensures GetTestString(5) ==
      ['\U{4E00}', '\U{4E01}', '\U{4E02}', '\U{4E03}', '\U{4E04}']
      + "ABCDE" + ['\U{00C4}', '\U{00E4}', '\U{00D6}', '\U{00F6}', '\U{00DC}']
      + ['&', '+', '/', '\\', '"']
  {
  }

  /** Among the driven tables no character is in two of them. */
  lemma TableApart(c: Category, d: Category, ch: char)
    requires c in {Chinese, German, MaxLength, Syntax, WhiteSpace}
    requires d in {Syntax, WhiteSpace} && c != d && ch in Table(c)
    ensures ch !in Table(d)
  {
    TableRanges();
    assert GermanChars <= GermanChars + MaxLengthChars;
    assert ch in GermanChars ==> ch in GermanChars + MaxLengthChars;
    assert ch in MaxLengthChars ==> ch in GermanChars + MaxLengthChars;
  }

  /** Where the driven tables lie: Chinese and German and ß above U+00C3,
      white space the plain space and U+2002 .. U+200B, syntax in printable
      ASCII without the space. */
  lemma TableRanges()
    ensures forall ch :: ch in ChineseChars ==> 0x4E00 <= ch as int <= 0x4E20
    ensures forall ch :: ch in GermanChars + MaxLengthChars ==> 0xC4 <= ch as int <= 0xFC
    ensures forall ch :: ch in WhiteSpaceChars ==> ch == ' ' || 0x2002 <= ch as int <= 0x200B
    ensures forall ch :: ch in SyntaxChars ==> 0x21 <= ch as int <= 0x7E
  {
  }
}
