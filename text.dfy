/**
  ASCII text primitives the generator relies on: `str.title()`,
  `str.replace('-', ' ')`, `sep.join(parts)`, `str * int`, decimal
  rendering of integers, and substring containment.
 */
module Text {
  import opened Wrappers

  predicate IsUpper(c: char) { 'A' <= c <= 'Z' }
  predicate IsLower(c: char) { 'a' <= c <= 'z' }
  predicate IsLetter(c: char) { IsUpper(c) || IsLower(c) }

  function ToUpper(c: char): (r: char)
    ensures IsLetter(r) == IsLetter(c)
    ensures IsLetter(c) ==> IsUpper(r)
    ensures IsUpper(c) || !IsLetter(c) ==> r == c
  {
    if IsLower(c) then (c as int - 32) as char else c
  }

  function ToLower(c: char): (r: char)
    ensures IsLetter(r) == IsLetter(c)
    ensures IsLetter(c) ==> IsLower(r)
    ensures IsLower(c) || !IsLetter(c) ==> r == c
  {
    if IsUpper(c) then (c as int + 32) as char else c
  }

  /** How `str.title()` treats one character, given whether the character before it is a letter. */
  function CaseAfter(c: char, afterLetter: bool): (r: char)
    ensures IsLetter(r) == IsLetter(c)
    ensures !IsLetter(c) ==> r == c
    ensures IsLetter(c) && afterLetter ==> IsLower(r)
    ensures IsLetter(c) && !afterLetter ==> IsUpper(r)
  {
    if !IsLetter(c) then c else if afterLetter then ToLower(c) else ToUpper(c)
  }

  function TitleFrom(s: string, afterLetter: bool): (r: string)
    ensures |r| == |s|
  {
    if s == [] then []
    else [CaseAfter(s[0], afterLetter)] + TitleFrom(s[1..], IsLetter(s[0]))
  }

  /** Python's `str.title()` over ASCII: in every maximal run of letters the
      first letter is upper-cased and the rest lower-cased; other characters
      are kept. */
  function TitleCase(s: string): (r: string)
    ensures |r| == |s|
  {
    TitleFrom(s, false)
  }

  lemma {:induction false} TitleFromAt(s: string, afterLetter: bool, i: nat)
    requires i < |s|
    ensures TitleFrom(s, afterLetter)[i] == CaseAfter(s[i], if i == 0 then afterLetter else IsLetter(s[i - 1]))
  {
    if i > 0 {
      TitleFromAt(s[1..], IsLetter(s[0]), i - 1);
    }
  }

  /** Character `i` of the title-cased string: upper-case at the start of a
      run of letters, lower-case inside one, unchanged when not a letter. */
  lemma TitleCaseAt(s: string, i: nat)
    requires i < |s|
    ensures TitleCase(s)[i] == CaseAfter(s[i], i > 0 && IsLetter(s[i - 1]))
    ensures IsLetter(s[i]) && (i == 0 || !IsLetter(s[i - 1])) ==> IsUpper(TitleCase(s)[i])
    ensures IsLetter(s[i]) && i > 0 && IsLetter(s[i - 1]) ==> IsLower(TitleCase(s)[i])
  {
    TitleFromAt(s, false, i);
  }

  /** Title-casing an already title-cased string changes nothing. */
  lemma TitleCaseIdempotent(s: string)
    ensures TitleCase(TitleCase(s)) == TitleCase(s)
  {
    var t := TitleCase(s);
    forall i | 0 <= i < |s|
      ensures TitleCase(t)[i] == t[i]
    {
      TitleCaseAt(s, i);
      TitleCaseAt(t, i);
      if i > 0 {
        TitleCaseAt(s, i - 1);
      }
    }
  }

  /** A lower-case word is title-cased by capitalising its first letter. */
  lemma TitleCaseLowerWord(w: string)
    requires |w| > 0 && forall i :: 0 <= i < |w| ==> IsLower(w[i])
    ensures TitleCase(w) == [ToUpper(w[0])] + w[1..]
  {
    forall i | 0 <= i < |w|
      ensures TitleCase(w)[i] == ([ToUpper(w[0])] + w[1..])[i]
    {
      TitleCaseAt(w, i);
    }
  }

  /** Python's `s.replace('-', ' ')`. */
  function ReplaceHyphens(s: string): (r: string)
    ensures |r| == |s|
    ensures forall i :: 0 <= i < |s| ==> r[i] == (if s[i] == '-' then ' ' else s[i])
    ensures '-' !in r
  {
    if s == [] then []
    else [if s[0] == '-' then ' ' else s[0]] + ReplaceHyphens(s[1..])
  }

  /** Hyphens and spaces both end a run of letters, so replacing hyphens
      before or after title-casing gives the same string. */
  lemma ReplaceHyphensCommutesWithTitle(s: string)
    ensures TitleCase(ReplaceHyphens(s)) == ReplaceHyphens(TitleCase(s))
  {
    var h := ReplaceHyphens(s);
    forall i | 0 <= i < |s|
      ensures TitleCase(h)[i] == ReplaceHyphens(TitleCase(s))[i]
    {
      TitleCaseAt(h, i);
      TitleCaseAt(s, i);
    }
  }

  /** Python's `sep.join(parts)`. */
  function Join(parts: seq<string>, sep: string): string
  {
    if |parts| == 0 then ""
    else if |parts| == 1 then parts[0]
    else parts[0] + sep + Join(parts[1..], sep)
  }

  /** Joining one more part appends the separator and that part at the end,
      so the parts appear in their original order. */
  lemma {:induction false} JoinSnoc(parts: seq<string>, last: string, sep: string)
    requires |parts| > 0
    ensures Join(parts + [last], sep) == Join(parts, sep) + sep + last
  {
    if |parts| == 1 {
      assert parts + [last] == [parts[0], last];
    } else {
      assert (parts + [last])[1..] == parts[1..] + [last];
      JoinSnoc(parts[1..], last, sep);
    }
  }

  function TotalLength(parts: seq<string>): nat
  {
    if parts == [] then 0 else |parts[0]| + TotalLength(parts[1..])
  }

  /** The joined string holds every part and one separator between each pair. */
  lemma {:induction false} JoinLength(parts: seq<string>, sep: string)
    requires |parts| > 0
    ensures |Join(parts, sep)| == TotalLength(parts) + (|parts| - 1) * |sep|
  {
    if |parts| > 1 {
      JoinLength(parts[1..], sep);
    }
  }

  /** Python's `c * n`: `n` copies of `c`, empty when `n` is zero or negative. */
  function Repeat(c: char, n: int): (r: string)
    ensures |r| == if n < 0 then 0 else n
    ensures forall i :: 0 <= i < |r| ==> r[i] == c
    decreases if n < 0 then 0 else n
  {
    if n <= 0 then "" else [c] + Repeat(c, n - 1)
  }

  function Concat(pieces: seq<string>): string
  {
    if pieces == [] then "" else pieces[0] + Concat(pieces[1..])
  }

  predicate OccursAt(s: string, t: string, i: int)
  {
    0 <= i && i + |t| <= |s| && s[i..i + |t|] == t
  }

  /** Python's `t in s` for strings. */
  ghost predicate Contains(s: string, t: string)
  {
    exists i :: OccursAt(s, t, i)
  }

  /** Every piece of a concatenation occurs in it, right after the pieces before it. */
  lemma {:induction false} ConcatContains(pieces: seq<string>, k: nat)
    requires k < |pieces|
    ensures OccursAt(Concat(pieces), pieces[k], |Concat(pieces[..k])|)
    ensures Contains(Concat(pieces), pieces[k])
  {
    if k == 0 {
      assert pieces[..0] == [];
      assert Concat(pieces)[..|pieces[0]|] == pieces[0];
    } else {
      var rest := pieces[1..];
      ConcatContains(rest, k - 1);
      assert pieces[..k][1..] == rest[..k - 1];
      var i := |Concat(rest[..k - 1])|;
      var p := pieces[0];
      assert Concat(pieces) == p + Concat(rest);
      assert Concat(pieces)[|p| + i..|p| + i + |pieces[k]|] == Concat(rest)[i..i + |pieces[k]|];
    }
    assert OccursAt(Concat(pieces), pieces[k], |Concat(pieces[..k])|);
  }

  predicate IsDigit(c: char) { '0' <= c <= '9' }

  predicate AllDigits(s: string)
  {
    forall i :: 0 <= i < |s| ==> IsDigit(s[i])
  }

  function DigitChar(d: nat): (c: char)
    requires d < 10
    ensures IsDigit(c)
  {
    (d + '0' as int) as char
  }

  function DigitValue(c: char): (d: nat)
    requires IsDigit(c)
    ensures d < 10 && DigitChar(d) == c
  {
    c as int - '0' as int
  }

  /** The number a string of decimal digits denotes (leading zeros allowed). */
  function ParseDigits(s: string): nat
    requires AllDigits(s)
  {
    if s == [] then 0 else 10 * ParseDigits(s[..|s| - 1]) + DigitValue(s[|s| - 1])
  }

  /** Python's `str(n)` for a natural number: decimal, no leading zeros. */
  function NatToString(n: nat): (r: string)
    ensures |r| > 0 && AllDigits(r)
    ensures r[0] == '0' ==> n == 0
  {
    if n < 10 then [DigitChar(n)] else NatToString(n / 10) + [DigitChar(n % 10)]
  }

  /** Reading back the decimal rendering gives the number. */
  lemma {:induction false} NatToStringRoundTrip(n: nat)
    ensures ParseDigits(NatToString(n)) == n
  {
    if n >= 10 {
      NatToStringRoundTrip(n / 10);
      var s := NatToString(n);
      assert s[..|s| - 1] == NatToString(n / 10);
    }
  }

  /** Leading zeros do not change the value of a digit string. */
  lemma {:induction false} ParseDigitsLeadingZero(s: string)
    requires AllDigits(s)
    ensures AllDigits("0" + s) && ParseDigits("0" + s) == ParseDigits(s)
    decreases |s|
  {
    if s != [] {
      var z := "0" + s;
      assert z[..|z| - 1] == "0" + s[..|s| - 1];
      ParseDigitsLeadingZero(s[..|s| - 1]);
    }
  }

  lemma {:induction false} ParseDigitsLeadingZeros(k: nat, s: string)
    requires AllDigits(s)
    ensures AllDigits(Repeat('0', k) + s) && ParseDigits(Repeat('0', k) + s) == ParseDigits(s)
  {
    if k == 0 {
      assert Repeat('0', k) + s == s;
    } else {
      ParseDigitsLeadingZeros(k - 1, s);
      assert Repeat('0', k) + s == "0" + (Repeat('0', k - 1) + s);
      ParseDigitsLeadingZero(Repeat('0', k - 1) + s);
    }
  }

  /** Python's `str(i)` for an integer. */
  function IntToString(i: int): (r: string)
    ensures |r| > 0
    ensures forall k :: 0 <= k < |r| ==> IsDigit(r[k]) || r[k] == '-'
  {
    if i < 0 then "-" + NatToString(-i) else NatToString(i)
  }

  /** Python's `int(s)` on an optionally signed decimal string. */
  function ParseInt(s: string): Option<int>
  {
    if |s| > 1 && s[0] == '-' && AllDigits(s[1..]) then Some(0 - ParseDigits(s[1..]) as int)
    else if |s| > 0 && AllDigits(s) then Some(ParseDigits(s))
    else None
  }

  /** Reading back the decimal rendering of an integer gives the integer. */
  lemma IntToStringRoundTrip(i: int)
    ensures ParseInt(IntToString(i)) == Some(i)
  {
    var s := IntToString(i);
    if i < 0 {
      assert s[1..] == NatToString(-i);
      NatToStringRoundTrip(-i);
    } else {
      NatToStringRoundTrip(i);
    }
  }
}
