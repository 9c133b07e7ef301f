/** Character and string helpers shared by the backend and frontend models:
    ASCII lower-casing (`str.lower()`), substring and prefix tests (`in`,
    `startswith`), decimal rendering (`str(n)`, template literals),
    `padStart(2, '0')`, and the file-name pieces `pathlib.Path` computes. */
module Text {
  import opened Wrappers

  // ---------------------------------------------------------------- case

  function LowerChar(c: char): (r: char)
    ensures 'A' <= c <= 'Z' ==> r as int == c as int + 32
    ensures !('A' <= c <= 'Z') ==> r == c
  {
    if 'A' <= c <= 'Z' then (c as int + 32) as char else c
  }

  /** Lower-cases each character, as `str.lower()` does on ASCII text. */
  function Lower(s: string): (r: string)
    ensures |r| == |s|
  {
    if s == [] then [] else [LowerChar(s[0])] + Lower(s[1..])
  }

  lemma {:induction false} LowerAt(s: string, i: nat)
    requires i < |s|
    ensures Lower(s)[i] == LowerChar(s[i])
  {
    if i > 0 { LowerAt(s[1..], i - 1); }
  }

  /** Lower-casing twice is lower-casing once. */
  lemma {:induction false} LowerIdempotent(s: string)
    ensures Lower(Lower(s)) == Lower(s)
  {
    if s != [] {
      LowerIdempotent(s[1..]);
      assert Lower(s)[1..] == Lower(s[1..]);
    }
  }

  lemma {:induction false} LowerAppend(a: string, b: string)
    ensures Lower(a + b) == Lower(a) + Lower(b)
  {
    if a != [] {
      assert (a + b)[1..] == a[1..] + b;
      LowerAppend(a[1..], b);
      calc {
        Lower(a + b);
        [LowerChar(a[0])] + Lower(a[1..] + b);
        [LowerChar(a[0])] + (Lower(a[1..]) + Lower(b));
        ([LowerChar(a[0])] + Lower(a[1..])) + Lower(b);
      }
    } else {
      assert a + b == b;
    }
  }

  /** Lower-casing never creates or removes a given non-letter character. */
  lemma LowerKeepsChar(s: string, i: nat, c: char)
    requires i < |s|
    requires !('A' <= c <= 'Z') && !('a' <= c <= 'z')
    ensures Lower(s)[i] == c <==> s[i] == c
  {
    LowerAt(s, i);
  }

  // -------------------------------------------------- prefixes, substrings

  predicate StartsWith(s: string, prefix: string) {
    |prefix| <= |s| && s[..|prefix|] == prefix
  }

  lemma StartsWithAppend(prefix: string, rest: string)
    ensures StartsWith(prefix + rest, prefix)
  {
    assert (prefix + rest)[..|prefix|] == prefix;
  }

  /** Python's `needle in hay` on strings. */
  predicate Contains(hay: string, needle: string)
    decreases |hay|
  {
    StartsWith(hay, needle) || (hay != [] && Contains(hay[1..], needle))
  }

  /** `needle` occurs in `hay` starting at offset `i`. */
  predicate OccursAt(hay: string, needle: string, i: int) {
    0 <= i && i + |needle| <= |hay| && hay[i..i + |needle|] == needle
  }

  /** `needle in hay` holds exactly when `needle` occurs at some offset. */
  lemma {:induction false} ContainsIff(hay: string, needle: string)
    ensures Contains(hay, needle) <==> exists i :: OccursAt(hay, needle, i)
    decreases |hay|
  {
    if StartsWith(hay, needle) {
      assert OccursAt(hay, needle, 0);
    } else if hay == [] {
    } else {
      ContainsIff(hay[1..], needle);
      if exists i :: OccursAt(hay, needle, i) {
        var i :| OccursAt(hay, needle, i);
        assert i != 0;
        TailSlice(hay, i - 1, i - 1 + |needle|);
        assert OccursAt(hay[1..], needle, i - 1);
      }
      if Contains(hay[1..], needle) {
        var j :| OccursAt(hay[1..], needle, j);
        TailSlice(hay, j, j + |needle|);
        assert OccursAt(hay, needle, j + 1);
      }
    }
  }

  /** A slice of the tail is the slice one further along. */
  lemma TailSlice(hay: string, a: nat, b: nat)
    requires hay != [] && a <= b <= |hay| - 1
    ensures hay[1..][a..b] == hay[a + 1..b + 1]
  {
  }

  lemma ContainsEmpty(hay: string)
    ensures Contains(hay, "")
  {
    assert StartsWith(hay, "");
  }

  // ---------------------------------------------------------- decimal text

  function DigitChar(d: nat): (c: char)
    requires d < 10
  {
    ('0' as int + d) as char
  }

  predicate IsDigit(c: char) { '0' <= c <= '9' }

  function DigitValue(c: char): (d: nat)
    requires IsDigit(c)
    ensures d < 10
  {
    c as int - '0' as int
  }

  /** `str(n)` for a natural number: its decimal digits, no leading zero. */
  function NatToString(n: nat): (r: string)
    ensures |r| >= 1
    ensures forall i :: 0 <= i < |r| ==> IsDigit(r[i])
    decreases n
  {
    if n < 10 then [DigitChar(n)] else NatToString(n / 10) + [DigitChar(n % 10)]
  }

  /** `str(i)` for any integer: a minus sign before the digits of |i|. */
  function IntToString(i: int): (r: string)
    ensures |r| >= 1
  {
    if i < 0 then "-" + NatToString(-i) else NatToString(i)
  }

  /** The number a string of decimal digits denotes (0 for the empty string). */
  function DigitsValue(s: string): nat
    requires forall i :: 0 <= i < |s| ==> IsDigit(s[i])
  {
    if s == [] then 0 else DigitsValue(s[..|s| - 1]) * 10 + DigitValue(s[|s| - 1])
  }

  /** Reading back the rendering of `n` gives `n`, and the rendering has no
      leading zero unless it is "0". */
  lemma {:induction false} NatToStringRoundTrip(n: nat)
    ensures DigitsValue(NatToString(n)) == n
    ensures NatToString(n)[0] == '0' ==> n == 0
    decreases n
  {
    if n >= 10 {
      NatToStringRoundTrip(n / 10);
      var s := NatToString(n);
      assert s[..|s| - 1] == NatToString(n / 10);
    }
  }

  /** Different numbers render differently. */
  lemma NatToStringInjective(a: nat, b: nat)
    requires NatToString(a) == NatToString(b)
    ensures a == b
  {
    NatToStringRoundTrip(a);
    NatToStringRoundTrip(b);
  }

  /** Different integers render differently. */
  lemma IntToStringInjective(a: int, b: int)
    requires IntToString(a) == IntToString(b)
    ensures a == b
  {
    var sa, sb := IntToString(a), IntToString(b);
    assert a >= 0 ==> IsDigit(sa[0]);
    assert b >= 0 ==> IsDigit(sb[0]);
    assert (a < 0) == (b < 0);
    if a < 0 {
      assert sa[1..] == NatToString(-a) && sb[1..] == NatToString(-b);
      NatToStringInjective(-a, -b);
    } else {
      NatToStringInjective(a, b);
    }
  }

  /** Two digit strings, each followed by text that does not start with a
      digit, make the same text only if the digits and the rests agree. */
  lemma DigitPrefixUnique(sa: string, sb: string, xa: string, xb: string)
    requires forall i :: 0 <= i < |sa| ==> IsDigit(sa[i])
    requires forall i :: 0 <= i < |sb| ==> IsDigit(sb[i])
    requires xa != [] && !IsDigit(xa[0]) && xb != [] && !IsDigit(xb[0])
    requires sa + xa == sb + xb
    ensures sa == sb && xa == xb
  {
    var t := sa + xa;
    assert forall i :: 0 <= i < |sa| ==> t[i] == sa[i];
    assert forall i :: 0 <= i < |sb| ==> t[i] == sb[i];
    assert t[|sa|] == xa[0] && t[|sb|] == xb[0];
    assert |sa| == |sb|;
    assert sa == t[..|sa|] && sb == t[..|sb|];
    assert xa == t[|sa|..] && xb == t[|sb|..];
  }

  /** `n.toString().padStart(2, '0')`. */
  function PadStart2(s: string): (r: string)
    ensures |s| >= 2 ==> r == s
    ensures |s| < 2 ==> |r| == 2 && r[2 - |s|..] == s && forall i :: 0 <= i < 2 - |s| ==> r[i] == '0'
  {
    if |s| == 0 then "00" else if |s| == 1 then "0" + s else s
  }

  /** A number below 100 pads to exactly two digits that read back as it. */
  lemma TwoDigits(n: nat)
    requires n < 100
    ensures |PadStart2(NatToString(n))| == 2
    ensures forall i :: 0 <= i < 2 ==> IsDigit(PadStart2(NatToString(n))[i])
    ensures DigitsValue(PadStart2(NatToString(n))) == n
  {
    var s := NatToString(n);
    NatToStringRoundTrip(n);
    if n < 10 {
      assert s == [DigitChar(n)];
      var p := PadStart2(s);
      assert p == ['0', DigitChar(n)];
      assert p[..1] == ['0'];
    } else {
      assert NatToString(n / 10) == [DigitChar(n / 10)];
      assert |s| == 2;
    }
  }

  // --------------------------------------------------------- path pieces

  function LastIndexOf(s: string, c: char): (r: Option<nat>)
    ensures r.Some? ==> r.value < |s| && s[r.value] == c &&
                        forall j :: r.value < j < |s| ==> s[j] != c
    ensures r.None? ==> forall j :: 0 <= j < |s| ==> s[j] != c
  {
    if s == [] then None
    else if s[|s| - 1] == c then Some(|s| - 1)
    else LastIndexOf(s[..|s| - 1], c)
  }

  /** `s.split('/')[-1]`: the text after the last '/', or all of `s`. */
  function AfterLastSlash(s: string): (r: string)
    ensures |r| <= |s| && r == s[|s| - |r|..]
    ensures forall j :: 0 <= j < |r| ==> r[j] != '/'
    ensures |r| < |s| ==> s[|s| - |r| - 1] == '/'
  {
    match LastIndexOf(s, '/')
    case None => s
    case Some(i) => s[i + 1..]
  }

  function StripTrailingSlashes(s: string): (r: string)
    ensures |r| <= |s| && r == s[..|r|]
    ensures r == [] || r[|r| - 1] != '/'
  {
    if s != [] && s[|s| - 1] == '/' then StripTrailingSlashes(s[..|s| - 1]) else s
  }

  /** `Path(s).name`: the last component, trailing slashes ignored. */
  function PathName(s: string): (r: string)
    ensures forall j :: 0 <= j < |r| ==> r[j] != '/'
  {
    AfterLastSlash(StripTrailingSlashes(s))
  }

  /** `Path(s).suffix`: from the last '.' of the name, provided that dot is
      neither the name's first nor its last character; "" otherwise. */
  function Suffix(s: string): (r: string)
    ensures r == [] || (|r| >= 2 && r[0] == '.')
    ensures forall j :: 1 <= j < |r| ==> r[j] != '.'
    ensures forall j :: 0 <= j < |r| ==> r[j] != '/'
  {
    NameSuffix(PathName(s))
  }

  /** The suffix of a name that holds no '/'. */
  function NameSuffix(name: string): (r: string)
    requires forall j :: 0 <= j < |name| ==> name[j] != '/'
    ensures r == [] || (|r| >= 2 && r[0] == '.')
    ensures forall j :: 1 <= j < |r| ==> r[j] != '.'
    ensures forall j :: 0 <= j < |r| ==> r[j] != '/'
  {
    match LastIndexOf(name, '.')
    case None => ""
    case Some(i) => if 0 < i < |name| - 1 then name[i..] else ""
  }

  /** The last `c` of `a + b` is the last in `b` when `b` has one, else the
      last in `a`. */
  lemma {:induction false} LastIndexOfAppend(a: string, b: string, c: char)
    ensures LastIndexOf(a + b, c) == match LastIndexOf(b, c)
                                     case Some(i) => Some(|a| + i)
                                     case None => LastIndexOf(a, c)
    decreases |b|
  {
    if b == [] {
      assert a + b == a;
    } else if b[|b| - 1] != c {
      assert (a + b)[..|a + b| - 1] == a + b[..|b| - 1];
      LastIndexOfAppend(a, b[..|b| - 1], c);
    }
  }

  /** A name with no `c` after its first character, which is `c`, has its
      last `c` at position 0. */
  lemma LastIndexOfLeading(s: string, c: char)
    requires s != [] && s[0] == c
    requires forall j :: 1 <= j < |s| ==> s[j] != c
    ensures LastIndexOf(s, c) == Some(0)
  {
  }

  /** The last component of `dir/name`, for a non-empty name with no '/',
      is that name. */
  lemma PathNameAfterSlash(dir: string, name: string)
    requires name != [] && forall j :: 0 <= j < |name| ==> name[j] != '/'
    ensures AfterLastSlash(dir + "/" + name) == name
    ensures PathName(dir + "/" + name) == name
  {
    var full := (dir + "/") + name;
    assert dir + "/" + name == full;
    assert full[|full| - 1] == name[|name| - 1];
    assert StripTrailingSlashes(full) == full;
    LastIndexOfAppend(dir + "/", name, '/');
    assert LastIndexOf(dir + "/", '/') == Some(|dir|);
    assert full[|dir| + 1..] == name;
  }

  /** A dot-free stem followed by an extension that is empty or a dot and
      at least one other character has that extension as its suffix. */
  lemma NameSuffixOfStem(stem: string, ext: string)
    requires stem != [] && forall j :: 0 <= j < |stem| ==> stem[j] != '.' && stem[j] != '/'
    requires ext == [] || (|ext| >= 2 && ext[0] == '.')
    requires forall j :: 1 <= j < |ext| ==> ext[j] != '.'
    requires forall j :: 0 <= j < |ext| ==> ext[j] != '/'
    ensures forall j :: 0 <= j < |stem + ext| ==> (stem + ext)[j] != '/'
    ensures NameSuffix(stem + ext) == ext
  {
    var name := stem + ext;
    LastIndexOfAppend(stem, ext, '.');
    if ext != [] {
      LastIndexOfLeading(ext, '.');
      assert name[|stem|..] == ext;
    }
  }

  /** A file name written as `dir/stem ext`, with a dot-free stem and an
      extension that is empty or a dot followed by at least one other
      character, has exactly that extension as its `Path(...).suffix`. */
  lemma SuffixOfStoredName(dir: string, stem: string, ext: string)
    requires stem != [] && forall j :: 0 <= j < |stem| ==> stem[j] != '.' && stem[j] != '/'
    requires ext == [] || (|ext| >= 2 && ext[0] == '.')
    requires forall j :: 1 <= j < |ext| ==> ext[j] != '.'
    requires forall j :: 0 <= j < |ext| ==> ext[j] != '/'
    ensures AfterLastSlash(dir + "/" + stem + ext) == stem + ext
    ensures PathName(dir + "/" + stem + ext) == stem + ext
    ensures Suffix(dir + "/" + stem + ext) == ext
  {
    assert dir + "/" + stem + ext == dir + "/" + (stem + ext);
    NameSuffixOfStem(stem, ext);
    PathNameAfterSlash(dir, stem + ext);
  }

  /** `Path(s).suffix.lower()` is empty or a dot and at least one more
      character, with no further dot and no slash. */
  lemma LoweredSuffixShape(s: string)
    ensures var e := Lower(Suffix(s));
            (e == [] || (|e| >= 2 && e[0] == '.')) &&
            (forall j :: 1 <= j < |e| ==> e[j] != '.') &&
            (forall j :: 0 <= j < |e| ==> e[j] != '/')
  {
    LowerKeepsSuffixShape(Suffix(s));
  }

  /** Lower-casing keeps every '.' and '/' where it was, so it keeps the
      shape of a suffix. */
  lemma LowerKeepsSuffixShape(r: string)
    requires r == [] || (|r| >= 2 && r[0] == '.')
    requires forall j :: 1 <= j < |r| ==> r[j] != '.'
    requires forall j :: 0 <= j < |r| ==> r[j] != '/'
    ensures var e := Lower(r);
            (e == [] || (|e| >= 2 && e[0] == '.')) &&
            (forall j :: 1 <= j < |e| ==> e[j] != '.') &&
            (forall j :: 0 <= j < |e| ==> e[j] != '/')
  {
    var e := Lower(r);
    forall j | 0 <= j < |e|
      ensures (j == 0 ==> e[j] == '.') && (j >= 1 ==> e[j] != '.') && e[j] != '/'
    {
      LowerKeepsChar(r, j, '.');
      LowerKeepsChar(r, j, '/');
    }
  }

  /** A name with no '/' is its own last path component. */
  lemma SlashFreePathName(name: string)
    requires name != [] && forall j :: 0 <= j < |name| ==> name[j] != '/'
    ensures PathName(name) == name
  {
    assert LastIndexOf(name, '/') == None;
  }

  /** A dot-free stem followed by an extension: the path's suffix is the
      extension. */
  lemma SuffixOfName(stem: string, ext: string)
    requires stem != [] && forall j :: 0 <= j < |stem| ==> stem[j] != '.' && stem[j] != '/'
    requires ext == [] || (|ext| >= 2 && ext[0] == '.')
    requires forall j :: 1 <= j < |ext| ==> ext[j] != '.'
    requires forall j :: 0 <= j < |ext| ==> ext[j] != '/'
    ensures Suffix(stem + ext) == ext
  {
    NameSuffixOfStem(stem, ext);
    SlashFreePathName(stem + ext);
  }
}
