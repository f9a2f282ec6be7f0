/** The part of Python's `str` methods and `re` character classes that the normaliser and
    the scraper rely on, over ASCII characters. */
module TextOps {
  import opened Basics

  predicate IsDigit(c: char) { '0' <= c <= '9' }
  predicate IsUpper(c: char) { 'A' <= c <= 'Z' }
  predicate IsLower(c: char) { 'a' <= c <= 'z' }
  predicate IsLetter(c: char) { IsUpper(c) || IsLower(c) }

  /** `\s` and `str.isspace()` restricted to ASCII. */
  predicate IsSpace(c: char) {
    c == ' ' || c == '\t' || c == '\n' || c == '\r' || c == '\U{B}' || c == '\U{C}'
    || '\U{1C}' <= c <= '\U{1F}'
  }

  /** `\w` restricted to ASCII. */
  predicate IsWordChar(c: char) { IsLetter(c) || IsDigit(c) || c == '_' }

  predicate AllDigits(s: string) { forall k :: 0 <= k < |s| ==> IsDigit(s[k]) }

  function LowerChar(c: char): char { if IsUpper(c) then (c as int + 32) as char else c }
  function UpperChar(c: char): char { if IsLower(c) then (c as int - 32) as char else c }

  /** `str.lower()` */
  function Lower(s: string): (r: string)
    ensures |r| == |s|
    ensures forall i :: 0 <= i < |s| ==> r[i] == LowerChar(s[i])
  {
    if s == [] then [] else [LowerChar(s[0])] + Lower(s[1..])
  }

  function TitleFrom(s: string, prevCased: bool): (r: string)
    ensures |r| == |s|
    ensures forall i :: 0 <= i < |s| ==>
      r[i] == if (if i == 0 then prevCased else IsLetter(s[i - 1])) then LowerChar(s[i]) else UpperChar(s[i])
  {
    if s == [] then []
    else [if prevCased then LowerChar(s[0]) else UpperChar(s[0])] + TitleFrom(s[1..], IsLetter(s[0]))
  }

  /** `str.title()`: a letter is upper-cased when the character before it is not a letter,
      lower-cased otherwise. */
  function Title(s: string): (r: string)
    ensures |r| == |s|
    ensures forall i :: 0 <= i < |s| ==>
      r[i] == if i > 0 && IsLetter(s[i - 1]) then LowerChar(s[i]) else UpperChar(s[i])
  {
    TitleFrom(s, false)
  }

  function StripLeft(s: string): (r: string)
    ensures |r| <= |s| && r == s[|s| - |r|..]
    ensures r == [] || !IsSpace(r[0])
    ensures forall i :: 0 <= i < |s| - |r| ==> IsSpace(s[i])
  {
    if s != [] && IsSpace(s[0]) then StripLeft(s[1..]) else s
  }

  function StripRight(s: string): (r: string)
    ensures |r| <= |s| && r == s[..|r|]
    ensures r == [] || !IsSpace(r[|r| - 1])
    ensures forall i :: |r| <= i < |s| ==> IsSpace(s[i])
  {
    if s != [] && IsSpace(s[|s| - 1]) then StripRight(s[..|s| - 1]) else s
  }

  /** `str.strip()` */
  function Strip(s: string): (r: string)
    ensures |r| <= |s|
    ensures r == [] || (!IsSpace(r[0]) && !IsSpace(r[|r| - 1]))
  {
    StripRight(StripLeft(s))
  }

  function CollapseFrom(s: string, afterSpace: bool): (r: string)
    ensures |r| <= |s|
  {
    if s == [] then []
    else if IsSpace(s[0]) then (if afterSpace then [] else [' ']) + CollapseFrom(s[1..], true)
    else [s[0]] + CollapseFrom(s[1..], false)
  }

  /** `re.sub(r'\s+', ' ', s)`: every maximal run of whitespace becomes one space. */
  function Collapse(s: string): (r: string)
    ensures |r| <= |s|
  {
    CollapseFrom(s, false)
  }

  /** The characters of `s` that satisfy `keep`, in order (a `re.sub` with a character class). */
  function Filter(s: string, keep: char -> bool): (r: string)
    ensures |r| <= |s|
    ensures forall i :: 0 <= i < |r| ==> keep(r[i]) && r[i] in s
  {
    if s == [] then []
    else (if keep(s[0]) then [s[0]] else []) + Filter(s[1..], keep)
  }

  /** `s.replace(c, '')` */
  function Delete(s: string, c: char): (r: string)
    ensures c !in r
  {
    if s == [] then []
    else (if s[0] != c then [s[0]] else []) + Delete(s[1..], c)
  }

  // ------------------------------------------- when a clean-up changes nothing

  lemma {:induction false} LowerIdentity(s: string)
    requires forall i :: 0 <= i < |s| ==> !IsUpper(s[i])
    ensures Lower(s) == s
  {
  }

  lemma {:induction false} StripIdentity(s: string)
    requires s == [] || (!IsSpace(s[0]) && !IsSpace(s[|s| - 1]))
    ensures Strip(s) == s
  {
  }

  lemma {:induction false} FilterIdentity(s: string, keep: char -> bool)
    requires forall i :: 0 <= i < |s| ==> keep(s[i])
    ensures Filter(s, keep) == s
  {
    if s != [] {
      FilterIdentity(s[1..], keep);
    }
  }

  /** Single plain spaces between non-space characters. */
  predicate SingleSpaced(s: string) {
    (forall i :: 0 <= i < |s| && IsSpace(s[i]) ==> s[i] == ' ')
    && forall i :: 0 <= i < |s| - 1 && IsSpace(s[i]) ==> !IsSpace(s[i + 1])
  }

  lemma {:induction false} CollapseFromIdentity(s: string, afterSpace: bool)
    requires SingleSpaced(s)
    requires afterSpace && s != [] ==> !IsSpace(s[0])
    ensures CollapseFrom(s, afterSpace) == s
  {
    if s != [] {
      assert SingleSpaced(s[1..]);
      CollapseFromIdentity(s[1..], IsSpace(s[0]));
    }
  }

  lemma {:induction false} CollapseIdentity(s: string)
    requires SingleSpaced(s)
    ensures Collapse(s) == s
  {
    CollapseFromIdentity(s, false);
  }

  // ------------------------------------------------ which characters survive

  /** Lower-casing keeps every character that is not a letter, and adds none. */
  lemma {:induction false} LowerKeeps(s: string, c: char)
    requires !IsLetter(c)
    ensures c in Lower(s) <==> c in s
  {
    if c in s {
      var i :| 0 <= i < |s| && s[i] == c;
      assert Lower(s)[i] == c;
    }
    if c in Lower(s) {
      var i :| 0 <= i < |s| && Lower(s)[i] == c;
      assert s[i] == c;
    }
  }

  /** Stripping keeps every character that is not whitespace, and adds none. */
  lemma {:induction false} StripKeeps(s: string, c: char)
    requires !IsSpace(c)
    ensures c in Strip(s) <==> c in s
  {
    StripLeftKeeps(s, c);
    StripRightKeeps(StripLeft(s), c);
  }

  /** Lower-casing then stripping leaves no capital letter. */
  lemma {:induction false} LowerStripNoUpper(s: string)
    ensures forall c :: c in Strip(Lower(s)) ==> !IsUpper(c)
  {
    var low := Lower(s);
    forall c | c in Strip(low) ensures !IsUpper(c) {
      if IsUpper(c) {
        StripKeeps(low, c);
        var i :| 0 <= i < |low| && low[i] == c;
        LowerCharNotUpper(s[i]);
      }
    }
  }

  lemma {:induction false} LowerCharNotUpper(c: char)
    ensures !IsUpper(LowerChar(c))
  {
  }

  lemma {:induction false} StripLeftKeeps(s: string, c: char)
    requires !IsSpace(c)
    ensures c in StripLeft(s) <==> c in s
  {
    var r := StripLeft(s);
    var spaces := s[..|s| - |r|];
    assert s == spaces + r;
    assert c !in spaces by {
      assert forall i :: 0 <= i < |spaces| ==> IsSpace(spaces[i]);
    }
  }

  lemma {:induction false} StripRightKeeps(s: string, c: char)
    requires !IsSpace(c)
    ensures c in StripRight(s) <==> c in s
  {
    var r := StripRight(s);
    if c in s {
      var i :| 0 <= i < |s| && s[i] == c;
      assert i < |r|;
      assert r[i] == c;
    }
    if c in r {
      var j :| 0 <= j < |r| && r[j] == c;
      assert s[j] == c;
    }
  }

  /** Collapsing whitespace keeps every character that is not whitespace, and adds none. */
  lemma {:induction false} CollapseFromKeeps(s: string, afterSpace: bool, c: char)
    requires !IsSpace(c)
    ensures c in CollapseFrom(s, afterSpace) <==> c in s
  {
    if s != [] {
      CollapseFromKeeps(s[1..], IsSpace(s[0]), c);
      assert s == [s[0]] + s[1..];
    }
  }

  lemma {:induction false} CollapseKeeps(s: string, c: char)
    requires !IsSpace(c)
    ensures c in Collapse(s) <==> c in s
  {
    CollapseFromKeeps(s, false, c);
  }

  /** Filtering keeps every character the filter accepts. */
  lemma {:induction false} FilterKeeps(s: string, keep: char -> bool, c: char)
    requires keep(c)
    ensures c in Filter(s, keep) <==> c in s
  {
    if s != [] {
      FilterKeeps(s[1..], keep, c);
      assert s == [s[0]] + s[1..];
    }
  }

  /** Deleting one character keeps every other. */
  lemma {:induction false} DeleteKeeps(s: string, d: char, c: char)
    requires c != d
    ensures c in Delete(s, d) <==> c in s
  {
    if s != [] {
      DeleteKeeps(s[1..], d, c);
      assert s == [s[0]] + s[1..];
      assert Delete(s, d) == (if s[0] != d then [s[0]] else []) + Delete(s[1..], d);
    }
  }

  /** Deleting a character the text does not hold changes nothing. */
  lemma {:induction false} DeleteAbsent(s: string, c: char)
    requires c !in s
    ensures Delete(s, c) == s
  {
    if s != [] {
      DeleteAbsent(s[1..], c);
    }
  }

  /** Deleting the one space between two words joins them. */
  lemma {:induction false} DeleteOneSpace(a: string, b: string)
    requires ' ' !in a && ' ' !in b
    ensures Delete(a + " " + b, ' ') == a + b
  {
    var sb := " " + b;
    assert a + " " + b == a + sb;
    DeleteAppend(a, sb, ' ');
    DeleteAbsent(a, ' ');
    assert sb[0] == ' ' && sb[1..] == b;
    assert Delete(sb, ' ') == Delete(b, ' ');
    DeleteAbsent(b, ' ');
  }

  lemma {:induction false} DeleteAppend(a: string, b: string, c: char)
    ensures Delete(a + b, c) == Delete(a, c) + Delete(b, c)
  {
    if a != [] {
      DeleteAppend(a[1..], b, c);
      assert (a + b)[0] == a[0];
      assert (a + b)[1..] == a[1..] + b;
    } else {
      assert a + b == b;
    }
  }

  /** The text holds a decimal digit. */
  predicate HasDigit(s: string) {
    exists i :: 0 <= i < |s| && IsDigit(s[i])
  }

  lemma {:induction false} HasDigitIff(s: string)
    ensures HasDigit(s) <==> exists c :: c in s && IsDigit(c)
  {
    if exists c :: c in s && IsDigit(c) {
      var c :| c in s && IsDigit(c);
      var i :| 0 <= i < |s| && s[i] == c;
    }
  }

  /** Two texts holding the same digits both hold one or neither does. */
  lemma {:induction false} SameDigits(s: string, t: string)
    requires forall c :: IsDigit(c) ==> (c in s <==> c in t)
    ensures HasDigit(s) <==> HasDigit(t)
  {
    HasDigitIff(s);
    HasDigitIff(t);
  }

  lemma {:induction false} LowerDigits(s: string)
    ensures HasDigit(Lower(s)) <==> HasDigit(s)
  {
    forall c | IsDigit(c) ensures c in Lower(s) <==> c in s {
      LowerKeeps(s, c);
    }
    SameDigits(Lower(s), s);
  }

  lemma {:induction false} StripDigits(s: string)
    ensures HasDigit(Strip(s)) <==> HasDigit(s)
  {
    forall c | IsDigit(c) ensures c in Strip(s) <==> c in s {
      StripKeeps(s, c);
    }
    SameDigits(Strip(s), s);
  }

  lemma {:induction false} CollapseDigits(s: string)
    ensures HasDigit(Collapse(s)) <==> HasDigit(s)
  {
    forall c | IsDigit(c) ensures c in Collapse(s) <==> c in s {
      CollapseKeeps(s, c);
    }
    SameDigits(Collapse(s), s);
  }

  lemma {:induction false} FilterDigits(s: string, keep: char -> bool)
    requires forall c :: IsDigit(c) ==> keep(c)
    ensures HasDigit(Filter(s, keep)) <==> HasDigit(s)
  {
    forall c | IsDigit(c) ensures c in Filter(s, keep) <==> c in s {
      FilterKeeps(s, keep, c);
    }
    SameDigits(Filter(s, keep), s);
  }

  lemma {:induction false} DeleteDigits(s: string, d: char)
    requires !IsDigit(d)
    ensures HasDigit(Delete(s, d)) <==> HasDigit(s)
  {
    forall c | IsDigit(c) ensures c in Delete(s, d) <==> c in s {
      DeleteKeeps(s, d, c);
    }
    SameDigits(Delete(s, d), s);
  }

  // ---------------------------------------------------------------- substrings

  /** The characters `[\d.,\w\s]` that survive the removal of currency symbols. */
  predicate KeepPriceChar(c: char) {
    IsDigit(c) || c == '.' || c == ',' || IsWordChar(c) || IsSpace(c)
  }


  /** `w` occurs in `t` at position `i`, compared character by character from `k` on. */
  predicate MatchAt(t: string, w: string, i: nat, k: nat)
    requires i + |w| <= |t| && k <= |w|
    decreases |w| - k
  {
    k == |w| || (t[i + k] == w[k] && MatchAt(t, w, i, k + 1))
  }

  predicate OccursAt(t: string, w: string, i: nat) {
    i + |w| <= |t| && MatchAt(t, w, i, 0)
  }

  function ContainsFrom(t: string, w: string, i: nat): bool
    decreases |t| - i
  {
    i + |w| <= |t| && (MatchAt(t, w, i, 0) || ContainsFrom(t, w, i + 1))
  }

  /** Python's `w in t` on strings. */
  function Contains(t: string, w: string): bool {
    ContainsFrom(t, w, 0)
  }

  lemma {:induction false} MatchAtIff(t: string, w: string, i: nat, k: nat)
    requires i + |w| <= |t| && k <= |w|
    ensures MatchAt(t, w, i, k) <==> t[i + k..i + |w|] == w[k..]
    decreases |w| - k
  {
    if k < |w| {
      MatchAtIff(t, w, i, k + 1);
      assert t[i + k..i + |w|] == [t[i + k]] + t[i + k + 1..i + |w|];
      assert w[k..] == [w[k]] + w[k + 1..];
    }
  }

  lemma {:induction false} OccursAtIff(t: string, w: string, i: nat)
    ensures OccursAt(t, w, i) <==> i + |w| <= |t| && t[i..i + |w|] == w
  {
    if i + |w| <= |t| { MatchAtIff(t, w, i, 0); }
  }

  lemma {:induction false} ContainsFromIff(t: string, w: string, i: nat)
    ensures ContainsFrom(t, w, i) <==> exists j: nat :: i <= j && OccursAt(t, w, j)
    decreases |t| - i
  {
    if i + |w| <= |t| {
      ContainsFromIff(t, w, i + 1);
      if MatchAt(t, w, i, 0) {
        assert OccursAt(t, w, i);
      } else if exists j: nat :: i <= j && OccursAt(t, w, j) {
        var j: nat :| i <= j && OccursAt(t, w, j);
        assert j != i;
      }
    }
  }

  /** `w in t` holds exactly when `w` is a slice of `t`. */
  lemma {:induction false} ContainsIff(t: string, w: string)
    ensures Contains(t, w) <==> exists j: nat :: OccursAt(t, w, j)
  {
    ContainsFromIff(t, w, 0);
  }

  /** A slice equal to `w` makes `w in t` hold. */
  lemma {:induction false} OccursContains(t: string, w: string, j: nat)
    requires j + |w| <= |t| && t[j..j + |w|] == w
    ensures Contains(t, w)
  {
    OccursAtIff(t, w, j);
    ContainsIff(t, w);
  }

  /** Being a substring is transitive. */
  lemma {:induction false} ContainsTransitive(t: string, v: string, w: string)
    requires Contains(t, v) && Contains(v, w)
    ensures Contains(t, w)
  {
    ContainsIff(t, v);
    ContainsIff(v, w);
    var i: nat :| OccursAt(t, v, i);
    var j: nat :| OccursAt(v, w, j);
    OccursAtIff(t, v, i);
    OccursAtIff(v, w, j);
    forall k | 0 <= k < |w|
      ensures t[i + j..i + j + |w|][k] == w[k]
    {
      assert t[i + j + k] == t[i..i + |v|][j + k] == v[j + k] == v[j..j + |w|][k];
    }
    assert t[i + j..i + j + |w|] == w;
    OccursAtIff(t, w, i + j);
    ContainsIff(t, w);
  }

  /** A word whose first character never occurs in `t` is not in `t`. */
  lemma {:induction false} AbsentFirstChar(t: string, w: string, i: nat)
    requires w != [] && w[0] !in t
    ensures !ContainsFrom(t, w, i)
    decreases |t| - i
  {
    if i + |w| <= |t| {
      assert t[i] in t;
      AbsentFirstChar(t, w, i + 1);
    }
  }

  // ------------------------------------------------------------------ numbers

  function DigitValue(c: char): nat
    requires IsDigit(c)
  {
    c as int - '0' as int
  }

  /** The natural number a run of decimal digits spells. */
  function NatOf(ds: string): nat
    requires AllDigits(ds)
  {
    if ds == [] then 0 else NatOf(ds[..|ds| - 1]) * 10 + DigitValue(ds[|ds| - 1])
  }

  /** The value of the digits after a decimal point: `0.d1d2...` */
  function FractionOf(ds: string): (x: real)
    requires AllDigits(ds)
    ensures 0.0 <= x <= 1.0
  {
    if ds == [] then 0.0 else (DigitValue(ds[0]) as real + FractionOf(ds[1..])) / 10.0
  }

  /** The end of the run of characters satisfying `p` that starts at `i`. */
  function RunEnd(s: string, i: nat, p: char -> bool): (j: nat)
    requires i <= |s|
    ensures i <= j <= |s|
    ensures forall k :: i <= k < j ==> p(s[k])
    ensures j == |s| || !p(s[j])
    decreases |s| - i
  {
    if i < |s| && p(s[i]) then RunEnd(s, i + 1, p) else i
  }

  /** The first index from `i` on whose character satisfies `p`, or `|s|`: where the first
      run of such characters starts. */
  function FirstWhere(s: string, i: nat, p: char -> bool): (j: nat)
    requires i <= |s|
    ensures i <= j <= |s|
    ensures forall k :: i <= k < j ==> !p(s[k])
    ensures j < |s| ==> p(s[j])
    decreases |s| - i
  {
    if i < |s| && !p(s[i]) then FirstWhere(s, i + 1, p) else i
  }

  /** The run from `i` ends at `e` when every character before `e` satisfies `p` and the
      one at `e`, if any, does not. */
  lemma {:induction false} RunEndAt(s: string, i: nat, e: nat, p: char -> bool)
    requires i <= e <= |s|
    requires forall k :: i <= k < e ==> p(s[k])
    requires e == |s| || !p(s[e])
    ensures RunEnd(s, i, p) == e
    decreases e - i
  {
    if i < e {
      RunEndAt(s, i + 1, e, p);
    }
  }

  function DigitsEnd(s: string, i: nat): (j: nat)
    requires i <= |s|
    ensures i <= j <= |s|
    ensures AllDigits(s[i..j])
    ensures j == |s| || !IsDigit(s[j])
  {
    RunEnd(s, i, IsDigit)
  }

  function SpacesEnd(s: string, i: nat): (j: nat)
    requires i <= |s|
    ensures i <= j <= |s|
    ensures j == |s| || !IsSpace(s[j])
  {
    RunEnd(s, i, IsSpace)
  }

  /** `<first>\s*<second>` matched at `k`: the text it spans. */
  function SpacedWordsAt(s: string, k: nat, first: string, second: string): Option<string> {
    if OccursAt(s, first, k) then
      var m := SpacesEnd(s, k + |first|);
      if OccursAt(s, second, m) then Some(s[k..m + |second|]) else None
    else None
  }

  /** What `<first>\s*<second>` spans: the first word, white space, the second word. */
  lemma {:induction false} SpacedWordsShape(s: string, k: nat, first: string, second: string)
    requires SpacedWordsAt(s, k, first, second).Some?
    ensures var u := SpacedWordsAt(s, k, first, second).value;
      |first| + |second| <= |u| && u[..|first|] == first && u[|u| - |second|..] == second
      && forall j :: |first| <= j < |u| - |second| ==> IsSpace(u[j])
  {
    var m := SpacesEnd(s, k + |first|);
    OccursAtIff(s, first, k);
    OccursAtIff(s, second, m);
    var u := s[k..m + |second|];
    assert u[..|first|] == s[k..k + |first|];
    assert u[|u| - |second|..] == s[m..m + |second|];
    forall j | |first| <= j < |u| - |second| ensures IsSpace(u[j]) {
      assert u[j] == s[k + j];
    }
  }

  /** Lower-casing twice is lower-casing once. */
  lemma {:induction false} LowerTwice(s: string)
    ensures Lower(Lower(s)) == Lower(s)
  {
  }

  /** A scanned number and the index just past it. */
  datatype Scanned = Scanned(value: real, end: nat)

  /** The match of `\d+(?:\.\d+)?` that starts at the digit `s[i]`: the whole digit run,
      then a fraction when a '.' is followed by a digit. Both runs are taken whole, which
      is the only way the pattern can be followed by a letter, a space or the end. */
  function DecimalAt(s: string, i: nat): (n: Scanned)
    requires i < |s| && IsDigit(s[i])
    ensures i < n.end <= |s| && n.value >= 0.0
    ensures n.end == |s| || !IsDigit(s[n.end])
  {
    var j := DigitsEnd(s, i);
    if j + 1 < |s| && s[j] == '.' && IsDigit(s[j + 1]) then
      var k := DigitsEnd(s, j + 1);
      Scanned(NatOf(s[i..j]) as real + FractionOf(s[j + 1..k]), k)
    else
      Scanned(NatOf(s[i..j]) as real, j)
  }

  function FirstDecimalFrom(s: string, i: nat): (r: Option<real>)
    requires i <= |s|
    ensures r.Some? ==> r.value >= 0.0
    decreases |s| - i
  {
    if i == |s| then None
    else if IsDigit(s[i]) then Some(DecimalAt(s, i).value)
    else FirstDecimalFrom(s, i + 1)
  }

  /** `re.findall(r'\d+(?:\.\d+)?', s)[0]` read as a number, or None when there is no match. */
  function FirstDecimal(s: string): (r: Option<real>)
    ensures r.Some? ==> r.value >= 0.0
  {
    FirstDecimalFrom(s, 0)
  }

  lemma {:induction false} FirstDecimalFromNone(s: string, i: nat)
    requires i <= |s|
    ensures FirstDecimalFrom(s, i).None? <==> forall k :: i <= k < |s| ==> !IsDigit(s[k])
    decreases |s| - i
  {
    if i < |s| { FirstDecimalFromNone(s, i + 1); }
  }

  /** A number is found exactly when the text holds a digit. */
  lemma {:induction false} FirstDecimalNone(s: string)
    ensures FirstDecimal(s).None? <==> forall k :: 0 <= k < |s| ==> !IsDigit(s[k])
  {
    FirstDecimalFromNone(s, 0);
  }

  function DigitChar(d: nat): (c: char)
    requires d < 10
    ensures IsDigit(c) && DigitValue(c) == d
  {
    ('0' as int + d) as char
  }

  /** `str(n)` for a natural number. */
  function NatToString(n: nat): (s: string)
    ensures s != [] && AllDigits(s)
  {
    if n < 10 then [DigitChar(n)] else NatToString(n / 10) + [DigitChar(n % 10)]
  }

  /** Reading back the decimal rendering of a natural number gives the number. */
  lemma {:induction false} NatToStringRoundTrip(n: nat)
    ensures NatOf(NatToString(n)) == n
  {
    if n >= 10 {
      var s := NatToString(n);
      assert s[..|s| - 1] == NatToString(n / 10);
      NatToStringRoundTrip(n / 10);
    }
  }

  /** Distinct numbers have distinct renderings. */
  lemma {:induction false} NatToStringInjective(m: nat, n: nat)
    requires NatToString(m) == NatToString(n)
    ensures m == n
  {
    NatToStringRoundTrip(m);
    NatToStringRoundTrip(n);
  }

  /** `str(i)` for an integer. */
  function IntToString(i: int): string {
    if i < 0 then "-" + NatToString(-i) else NatToString(i)
  }

  // ---------------------------------------------------------- split and join

  /** `s.split(sep)`: always at least one part; the parts hold no separator. */
  function Split(s: string, sep: char): (parts: seq<string>)
    ensures |parts| >= 1
    ensures forall k :: 0 <= k < |parts| ==> sep !in parts[k]
  {
    if s == [] then [[]]
    else
      var rest := Split(s[1..], sep);
      if s[0] == sep then [[]] + rest else [[s[0]] + rest[0]] + rest[1..]
  }

  /** `sep.join(parts)` */
  function Join(parts: seq<string>, sep: char): string
    requires |parts| >= 1
  {
    if |parts| == 1 then parts[0] else parts[0] + [sep] + Join(parts[1..], sep)
  }

  /** Splitting loses nothing: joining the parts with the separator gives the text back. */
  lemma {:induction false} SplitJoin(s: string, sep: char)
    ensures Join(Split(s, sep), sep) == s
  {
    if s != [] {
      var rest := Split(s[1..], sep);
      SplitJoin(s[1..], sep);
      if s[0] == sep {
        assert Split(s, sep)[1..] == rest;
      } else {
        var parts := Split(s, sep);
        if |rest| == 1 {
          assert parts == [[s[0]] + rest[0]];
        } else {
          assert parts[1..] == rest[1..];
          assert Join(rest, sep) == rest[0] + [sep] + Join(rest[1..], sep);
        }
      }
    }
  }

  /** How many times `c` occurs in `s`. */
  function CountChar(s: string, c: char): nat {
    if s == [] then 0 else (if s[0] == c then 1 else 0) + CountChar(s[1..], c)
  }

  lemma {:induction false} CountCharZero(s: string, c: char)
    ensures CountChar(s, c) == 0 <==> c !in s
  {
    if s != [] {
      CountCharZero(s[1..], c);
      assert s == [s[0]] + s[1..];
    }
  }

  /** `s.split(sep)` has one part more than `s` has separators. */
  lemma {:induction false} SplitCount(s: string, sep: char)
    ensures |Split(s, sep)| == CountChar(s, sep) + 1
  {
    if s != [] {
      SplitCount(s[1..], sep);
    }
  }

  /** The first part is the text before the first separator. */
  lemma {:induction false} SplitHead(s: string, sep: char)
    ensures |Split(s, sep)[0]| <= |s| && Split(s, sep)[0] == s[..|Split(s, sep)[0]|]
    ensures |Split(s, sep)| >= 2 ==> |Split(s, sep)[0]| < |s| && s[|Split(s, sep)[0]|] == sep
  {
    var parts := Split(s, sep);
    SplitJoin(s, sep);
    if |parts| >= 2 {
      assert s == parts[0] + [sep] + Join(parts[1..], sep);
    } else {
      assert s == parts[0];
    }
  }

  /** The last part joined is the text's tail, after a separator when there are two parts
      or more. */
  lemma {:induction false} JoinLast(parts: seq<string>, sep: char)
    requires |parts| >= 1
    ensures var j, last := Join(parts, sep), parts[|parts| - 1];
      |last| <= |j| && j[|j| - |last|..] == last
      && (|parts| >= 2 ==> |last| < |j| && j[|j| - |last| - 1] == sep)
  {
    if |parts| >= 2 {
      JoinLast(parts[1..], sep);
      var rest := Join(parts[1..], sep);
      assert Join(parts, sep) == parts[0] + [sep] + rest;
    }
  }

  /** The last part is the text after the last separator (the whole text when there is none). */
  lemma {:induction false} SplitLast(s: string, sep: char)
    ensures var parts := Split(s, sep); var last := parts[|parts| - 1];
      |last| <= |s| && last == s[|s| - |last|..]
      && (|parts| == 1 ==> last == s)
      && (|parts| >= 2 ==> |last| < |s| && s[|s| - |last| - 1] == sep)
  {
    SplitJoin(s, sep);
    JoinLast(Split(s, sep), sep);
  }

  /** Where the last part of `s.split(sep)` starts: just after the last separator, or 0. */
  function AfterLast(s: string, sep: char): (k: nat)
    ensures k <= |s| && (k == 0 || s[k - 1] == sep) && sep !in s[k..]
  {
    if s == [] then 0
    else if s[|s| - 1] == sep then |s|
    else
      var k := AfterLast(s[..|s| - 1], sep);
      assert s[k..] == s[..|s| - 1][k..] + [s[|s| - 1]];
      k
  }

  /** `s.split(sep)[-1]` is the text after the last separator. */
  lemma {:induction false} SplitLastAfter(s: string, sep: char)
    ensures Split(s, sep)[|Split(s, sep)| - 1] == s[AfterLast(s, sep)..]
  {
    var parts := Split(s, sep);
    var last := parts[|parts| - 1];
    SplitLast(s, sep);
    var k := |s| - |last|;
    assert s[k..] == last;
  }
}
