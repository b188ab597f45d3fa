/**
 * String helpers of the script: `str_to_bool`, `str.partition` with a
 * one-character separator, `int()` of a decimal string, the root part of
 * `os.path.splitext`, and the parsing of 2-D slice file names of the form
 * `<seriesuid>_<slice>.<ext>`.
 */
module Text {
  import opened Wrappers

  /** ASCII lower-casing of one character; every other character is kept. */
  function LowerAscii(c: char): char
  {
    if 'A' <= c <= 'Z' then (c as int + 32) as char else c
  }

  /** ASCII lower-casing of a string: no upper-case ASCII letter is left, and only those letters change. */
  function Lower(s: string): (r: string)
    ensures |r| == |s|
    ensures forall i :: 0 <= i < |s| ==> !('A' <= r[i] <= 'Z') && (r[i] != s[i] ==> 'A' <= s[i] <= 'Z')
    ensures forall i :: 0 <= i < |s| && 'A' <= s[i] <= 'Z' ==> r[i] as int == s[i] as int + 32
  {
    seq(|s|, i requires 0 <= i < |s| => LowerAscii(s[i]))
  }


  /** The character `c` lower-cases to the ASCII letter `lo`, whose upper case is `up`. */
  lemma LowerAsciiIs(c: char, lo: char, up: char)
    requires 'a' <= lo <= 'z' && up as int == lo as int - 32
    ensures LowerAscii(c) == lo <==> c == lo || c == up
  {
  }

  /**
   * `str_to_bool`: true exactly when the lower-cased text is "true", that is
   * for the sixteen spellings of "true" in mixed case.  Python's `str.lower`
   * also maps non-ASCII letters, but none of them maps to an ASCII letter of
   * "true", so ASCII lower-casing decides the same.
   */
  function StrToBool(s: string): (b: bool)
    ensures b <==>
      |s| == 4 && (s[0] == 't' || s[0] == 'T') && (s[1] == 'r' || s[1] == 'R')
      && (s[2] == 'u' || s[2] == 'U') && (s[3] == 'e' || s[3] == 'E')
  {
    if |s| == 4 then
      LowerAsciiIs(s[0], 't', 'T');
      LowerAsciiIs(s[1], 'r', 'R');
      LowerAsciiIs(s[2], 'u', 'U');
      LowerAsciiIs(s[3], 'e', 'E');
      assert Lower(s) == [LowerAscii(s[0]), LowerAscii(s[1]), LowerAscii(s[2]), LowerAscii(s[3])];
      Lower(s) == "true"
    else
      Lower(s) == "true"
  }

  /** The three parts returned by `str.partition`. */
  datatype Parts = Parts(head: string, sep: string, tail: string)

  /**
   * `s.partition(sep)`: the text before the first `sep`, the separator, and
   * the text after it; `(s, "", "")` when `sep` does not occur.
   */
  function Partition(s: string, sep: char): (p: Parts)
    ensures p.head + p.sep + p.tail == s
    ensures sep !in p.head
    ensures p.sep == [sep] || (p.sep == [] && p.tail == [])
  {
    if s == [] then Parts([], [], [])
    else if s[0] == sep then Parts([], [sep], s[1..])
    else
      var p := Partition(s[1..], sep);
      assert s == [s[0]] + s[1..];
      Parts([s[0]] + p.head, p.sep, p.tail)
  }

  /** Text before the first separator, then the separator, is split there. */
  lemma {:induction false} PartitionAt(a: string, sep: char, b: string)
    requires sep !in a
    ensures Partition(a + [sep] + b, sep) == Parts(a, [sep], b)
  {
    if a != [] {
      assert (a + [sep] + b)[1..] == a[1..] + [sep] + b;
      PartitionAt(a[1..], sep, b);
    }
  }

  /** Text without the separator comes back whole, with empty separator and tail. */
  lemma {:induction false} PartitionAbsent(s: string, sep: char)
    requires sep !in s
    ensures Partition(s, sep) == Parts(s, [], [])
  {
    if s != [] {
      PartitionAbsent(s[1..], sep);
      assert s == [s[0]] + s[1..];
    }
  }

  predicate IsDigit(c: char)
  {
    '0' <= c <= '9'
  }

  predicate AllDigits(s: string)
  {
    forall i :: 0 <= i < |s| ==> IsDigit(s[i])
  }

  /** The value of a string of decimal digits, most significant first. */
  function DigitsValue(ds: string): nat
    requires AllDigits(ds)
  {
    if ds == [] then 0
    else DigitsValue(ds[..|ds| - 1]) * 10 + (ds[|ds| - 1] as int - '0' as int)
  }

  /** The spellings `int()` accepts here: an optional sign, then at least one ASCII digit. */
  predicate IntSpelling(s: string)
  {
    (|s| > 1 && (s[0] == '+' || s[0] == '-') && AllDigits(s[1..])) || (s != [] && AllDigits(s))
  }

  /**
   * `int(s)` for an optional sign followed by at least one ASCII digit;
   * `None` where Python raises `ValueError`.
   */
  function ParseInt(s: string): (r: Option<int>)
    ensures r.Some? <==> IntSpelling(s)
    ensures r.Some? && r.value < 0 ==> s[0] == '-'
  {
    if |s| > 0 && (s[0] == '+' || s[0] == '-') then
      var ds := s[1..];
      if ds != [] && AllDigits(ds) then
        var v: int := DigitsValue(ds);
        Some(if s[0] == '-' then -v else v)
      else None
    else if s != [] && AllDigits(s) then Some(DigitsValue(s))
    else None
  }

  /** `str(n)` for a natural number. */
  function DecimalString(n: nat): (s: string)
    ensures s != [] && AllDigits(s)
  {
    var d := ['0' + (n % 10) as char];
    if n < 10 then d else DecimalString(n / 10) + d
  }

  lemma {:induction false} DigitsValueOfDecimalString(n: nat)
    ensures DigitsValue(DecimalString(n)) == n
  {
    var s := DecimalString(n);
    if n >= 10 {
      DigitsValueOfDecimalString(n / 10);
      assert s[..|s| - 1] == DecimalString(n / 10);
    }
  }

  /** `int(str(n)) == n`: parsing is the inverse of printing. */
  lemma ParseDecimalString(n: nat)
    ensures ParseInt(DecimalString(n)) == Some(n)
    ensures ParseInt("-" + DecimalString(n)) == Some(-(n as int))
  {
    DigitsValueOfDecimalString(n);
    assert ("-" + DecimalString(n))[1..] == DecimalString(n);
  }

  /** A run of `m` zero digits. */
  function Zeros(m: nat): (z: string)
    ensures |z| == m && AllDigits(z)
  {
    seq(m, _ => '0')
  }

  lemma {:induction false} ZerosValue(m: nat)
    ensures DigitsValue(Zeros(m)) == 0
  {
    if m > 0 {
      assert Zeros(m)[..m - 1] == Zeros(m - 1);
      ZerosValue(m - 1);
    }
  }

  /** Leading zeros do not change the value of a digit string. */
  lemma {:induction false} LeadingZerosValue(m: nat, ds: string)
    requires AllDigits(ds)
    ensures AllDigits(Zeros(m) + ds) && DigitsValue(Zeros(m) + ds) == DigitsValue(ds)
  {
    var s := Zeros(m) + ds;
    if ds == [] {
      assert s == Zeros(m);
      ZerosValue(m);
    } else {
      assert s[..|s| - 1] == Zeros(m) + ds[..|ds| - 1];
      LeadingZerosValue(m, ds[..|ds| - 1]);
    }
  }

  /** `int()` of a zero-padded decimal spelling, such as "012", is the number itself. */
  lemma ParseZeroPadded(m: nat, n: nat)
    ensures ParseInt(Zeros(m) + DecimalString(n)) == Some(n)
  {
    LeadingZerosValue(m, DecimalString(n));
    DigitsValueOfDecimalString(n);
  }

  /** The index of the last occurrence of `c` in `s`. */
  function LastIndexOf(s: string, c: char): (r: Option<nat>)
    ensures r.Some? ==> r.value < |s| && s[r.value] == c && c !in s[r.value + 1..]
    ensures r.None? ==> c !in s
  {
    if s == [] then None
    else if s[|s| - 1] == c then Some(|s| - 1)
    else
      var r := LastIndexOf(s[..|s| - 1], c);
      assert s == s[..|s| - 1] + [s[|s| - 1]];
      r
  }

  /**
   * `os.path.splitext(name)[0]` for a name without a directory part: the
   * name cut before its last dot, unless only dots precede that dot (a
   * leading-dot name such as ".mhd" has no extension).
   */
  function SplitextRoot(name: string): (r: string)
    ensures r <= name
    ensures r != name ==>
      name[|r|] == '.' && '.' !in name[|r| + 1..] && exists i :: 0 <= i < |r| && r[i] != '.'
  {
    match LastIndexOf(name, '.')
    case None => name
    case Some(d) => if forall i :: 0 <= i < d ==> name[i] == '.' then name else name[..d]
  }

  /** The last occurrence of `c` is the one followed by text without `c`. */
  lemma {:induction false} LastIndexOfSplit(a: string, c: char, b: string)
    requires c !in b
    ensures LastIndexOf(a + [c] + b, c) == Some(|a|)
  {
    var s := a + [c] + b;
    if b != [] {
      assert s[|s| - 1] == b[|b| - 1];
      assert s[..|s| - 1] == a + [c] + b[..|b| - 1];
      LastIndexOfSplit(a, c, b[..|b| - 1]);
    }
  }

  /** A root holding a non-dot character and a dot-free extension split apart again. */
  lemma SplitextRootOf(root: string, ext: string, k: nat)
    requires '.' !in ext && k < |root| && root[k] != '.'
    ensures SplitextRoot(root + "." + ext) == root
  {
    var name := root + "." + ext;
    LastIndexOfSplit(root, '.', ext);
    assert name[k] == root[k];
    assert name[..|root|] == root;
  }

  /**
   * The series id and slice number of a 2-D slice file name: the text before
   * the first `_`, and the integer between that `_` and the next `.`.
   */
  function SliceNameParts(name: string): (r: Option<(string, int)>)
    ensures r.Some? ==> '_' !in r.value.0 && r.value.0 + "_" <= name
  {
    var seriesuid := Partition(name, '_').head;
    var rest := Partition(name, '_').tail;
    match ParseInt(Partition(rest, '.').head)
    case None => None
    case Some(z) => Some((seriesuid, z))
  }

  /** A name written as `<id>_<n>.<ext>` gives back `id` and `n`. */
  lemma SliceNamePartsOf(id: string, n: nat, ext: string)
    requires '_' !in id
    ensures SliceNameParts(id + "_" + DecimalString(n) + "." + ext) == Some((id, n))
  {
    var digits := DecimalString(n);
    var name := id + "_" + digits + "." + ext;
    assert name == id + ['_'] + (digits + "." + ext);
    PartitionAt(id, '_', digits + "." + ext);
    assert forall i :: 0 <= i < |digits| ==> digits[i] != '.';
    assert digits + "." + ext == digits + ['.'] + ext;
    PartitionAt(digits, '.', ext);
    ParseDecimalString(n);
  }

  /** Without an underscore the slice part is empty and `int("")` fails. */
  lemma SliceNamePartsNoUnderscore(name: string)
    requires '_' !in name
    ensures SliceNameParts(name).None?
  {
    PartitionAbsent(name, '_');
  }
}
