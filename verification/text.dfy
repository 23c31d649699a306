/** The string operations the planner applies to its time and category fields:
    `toLowerCase`, `split`, `parseInt` and template-literal number formatting. */
module Text {
  import opened Options

  // ---------------------------------------------------------------- case

  function LowerChar(c: char): char {
    if 'A' <= c <= 'Z' then (c as int + 32) as char else c
  }

  /** `s.toLowerCase()` over the ASCII letters. */
  function ToLower(s: string): (r: string)
    ensures |r| == |s|
    ensures forall i :: 0 <= i < |s| ==> r[i] == LowerChar(s[i])
  {
    if |s| == 0 then "" else [LowerChar(s[0])] + ToLower(s[1..])
  }

  /** Lower-casing twice is lower-casing once. */
  lemma ToLowerIdempotent(s: string)
    ensures ToLower(ToLower(s)) == ToLower(s)
  {
  }

  // ---------------------------------------------------------------- split

  /** `sep` occurs in `s` starting at index `k`. */
  predicate OccursAt(s: string, sep: string, k: nat) {
    k + |sep| <= |s| && s[k..k + |sep|] == sep
  }

  /** The first index at or after `from` where `sep` occurs (`indexOf`). */
  function IndexOf(s: string, sep: string, from: nat): (r: Option<nat>)
    requires |sep| > 0
    ensures r.None? ==> forall k :: from <= k ==> !OccursAt(s, sep, k)
    ensures r.Some? ==> from <= r.value && OccursAt(s, sep, r.value)
    ensures r.Some? ==> forall k :: from <= k < r.value ==> !OccursAt(s, sep, k)
    decreases |s| - from
  {
    if from + |sep| > |s| then None
    else if OccursAt(s, sep, from) then Some(from)
    else IndexOf(s, sep, from + 1)
  }

  /** The pieces glued back together with `sep` between neighbours (`join`). */
  function Join(pieces: seq<string>, sep: string): (r: string)
    requires |pieces| >= 1
    ensures pieces[0] <= r
  {
    if |pieces| == 1 then pieces[0] else pieces[0] + sep + Join(pieces[1..], sep)
  }

  /** `s.split(sep)` for a non-empty separator: the pieces between the
      non-overlapping occurrences of `sep`, scanning left to right. There is
      always at least one piece, a single one exactly when `sep` does not occur,
      no piece but the last contains `sep`, and joining the pieces with `sep`
      gives `s` back. */
  function Split(s: string, sep: string): (r: seq<string>)
    requires |sep| > 0
    ensures |r| >= 1
    ensures |r| == 1 <==> forall k :: !OccursAt(s, sep, k)
    ensures forall j, k :: 0 <= j < |r| - 1 ==> !OccursAt(r[j], sep, k)
    ensures |r| >= 2 ==> IndexOf(s, sep, 0) == Some(|r[0]|)
    ensures Join(r, sep) == s
    decreases |s|
  {
    match IndexOf(s, sep, 0)
    case None => [s]
    case Some(i) =>
      var rest := Split(s[i + |sep|..], sep);
      var r := [s[..i]] + rest;
      NoOccurrenceInPrefix(s, sep, i);
      assert forall j :: 1 <= j < |r| ==> r[j] == rest[j - 1];
      JoinCons(s[..i], rest, sep);
      assert s == s[..i] + sep + s[i + |sep|..];
      r
  }

  /** A prefix ending before the first occurrence of `sep` holds no occurrence. */
  lemma {:induction false} NoOccurrenceInPrefix(s: string, sep: string, i: nat)
    requires |sep| > 0 && i <= |s|
    requires forall k :: 0 <= k < i ==> !OccursAt(s, sep, k)
    ensures forall k :: !OccursAt(s[..i], sep, k)
  {
    forall k: nat | OccursAt(s[..i], sep, k)
      ensures false
    {
      assert s[..i][k..k + |sep|] == s[k..k + |sep|];
      assert OccursAt(s, sep, k);
    }
  }

  /** Joining a piece in front of more pieces. */
  lemma {:induction false} JoinCons(x: string, rest: seq<string>, sep: string)
    requires |rest| >= 1
    ensures Join([x] + rest, sep) == x + sep + Join(rest, sep)
  {
    assert ([x] + rest)[1..] == rest;
  }

  /** Where piece `j` starts in the joined text: the lengths of the pieces
      before it, each followed by a separator. */
  function Offset(pieces: seq<string>, sep: string, j: nat): nat
    requires j <= |pieces|
  {
    if j == 0 then 0 else Offset(pieces, sep, j - 1) + |pieces[j - 1]| + |sep|
  }

  /** The start of every piece. */
  function Starts(pieces: seq<string>, sep: string): (r: seq<nat>)
    ensures |r| == |pieces|
  {
    seq(|pieces|, j requires 0 <= j < |pieces| => Offset(pieces, sep, j))
  }

  /** Past the first piece, offsets are the remaining pieces' offsets, shifted. */
  lemma {:induction false} OffsetTail(pieces: seq<string>, sep: string, j: nat)
    requires 1 <= j <= |pieces|
    ensures Offset(pieces, sep, j) == |pieces[0]| + |sep| + Offset(pieces[1..], sep, j - 1)
  {
    if j > 1 {
      OffsetTail(pieces, sep, j - 1);
      assert pieces[1..][j - 2] == pieces[j - 1];
    }
  }

  /** Past the first piece, starts are the remaining pieces' starts, shifted. */
  lemma {:induction false} StartsTail(pieces: seq<string>, sep: string, j: nat)
    requires 1 <= j < |pieces|
    ensures Starts(pieces, sep)[j] == |pieces[0]| + |sep| + Starts(pieces[1..], sep)[j - 1]
  {
    OffsetTail(pieces, sep, j);
  }

  /** Searching from `d + i` in `s` is searching from `i` in `s[d..]`, shifted by `d`. */
  lemma {:induction false} IndexOfShift(s: string, sep: string, d: nat, i: nat)
    requires |sep| > 0 && d <= |s|
    ensures IndexOf(s[d..], sep, i).None? ==> IndexOf(s, sep, d + i).None?
    ensures IndexOf(s[d..], sep, i).Some? ==> IndexOf(s, sep, d + i) == Some(d + IndexOf(s[d..], sep, i).value)
    decreases |s| - (d + i)
  {
    if d + i + |sep| <= |s| {
      assert s[d..][i..i + |sep|] == s[d + i..d + i + |sep|];
      if !OccursAt(s, sep, d + i) {
        IndexOfShift(s, sep, d, i + 1);
      }
    }
  }

  /** The pieces `r` cut `s` left to right: every piece but the last ends at the
      first occurrence of `sep` at or after the piece's start, and no occurrence
      starts at or after the last piece's start. */
  predicate CutsLeftToRight(s: string, sep: string, r: seq<string>)
    requires |sep| > 0 && |r| >= 1
  {
    && (forall j {:trigger Starts(r, sep)[j]} :: 0 <= j < |r| - 1 ==>
          IndexOf(s, sep, Starts(r, sep)[j]) == Some(Starts(r, sep)[j] + |r[j]|))
    && IndexOf(s, sep, Starts(r, sep)[|r| - 1]) == None
  }

  /** `split` scans left to right. */
  lemma {:induction false} SplitScansLeftToRight(s: string, sep: string)
    requires |sep| > 0
    ensures CutsLeftToRight(s, sep, Split(s, sep))
    decreases |s|
  {
    var r := Split(s, sep);
    match IndexOf(s, sep, 0)
    case None =>
      assert r == [s];
      assert Starts(r, sep)[0] == 0;
    case Some(i) =>
      var d := i + |sep|;
      var rest := Split(s[d..], sep);
      assert r == [s[..i]] + rest;
      SplitScansLeftToRight(s[d..], sep);
      CutsFromRest(s, sep, d, r, rest);
  }

  /** A first piece ending at the first occurrence, followed by a left-to-right
      cut of the text after that occurrence, is a left-to-right cut. */
  lemma {:induction false} CutsFromRest(s: string, sep: string, d: nat, r: seq<string>, rest: seq<string>)
    requires |sep| > 0 && d <= |s| && |r| >= 2 && r[1..] == rest && d == |r[0]| + |sep|
    requires IndexOf(s, sep, 0) == Some(|r[0]|)
    requires CutsLeftToRight(s[d..], sep, rest)
    ensures CutsLeftToRight(s, sep, r)
  {
    forall j | 0 <= j < |r| - 1
      ensures IndexOf(s, sep, Starts(r, sep)[j]) == Some(Starts(r, sep)[j] + |r[j]|)
    {
      if j > 0 {
        PieceInRest(s, sep, d, r, rest, j);
      } else {
        assert Starts(r, sep)[0] == 0;
      }
    }
    PieceInRest(s, sep, d, r, rest, |r| - 1);
  }

  /** Piece `k` of a left-to-right cut, read off the cut. */
  lemma {:induction false} CutAt(t: string, sep: string, pieces: seq<string>, k: nat)
    requires |sep| > 0 && k < |pieces| && CutsLeftToRight(t, sep, pieces)
    ensures k < |pieces| - 1 ==> IndexOf(t, sep, Starts(pieces, sep)[k]) == Some(Starts(pieces, sep)[k] + |pieces[k]|)
    ensures k == |pieces| - 1 ==> IndexOf(t, sep, Starts(pieces, sep)[k]) == None
  {
  }

  /** A piece after the first, located through the rest of the text. */
  lemma {:induction false} PieceInRest(s: string, sep: string, d: nat, r: seq<string>, rest: seq<string>, j: nat)
    requires |sep| > 0 && d <= |s| && |r| >= 2 && r[1..] == rest && d == |r[0]| + |sep|
    requires CutsLeftToRight(s[d..], sep, rest)
    requires 1 <= j < |r|
    ensures j < |r| - 1 ==> IndexOf(s, sep, Starts(r, sep)[j]) == Some(Starts(r, sep)[j] + |r[j]|)
    ensures j == |r| - 1 ==> IndexOf(s, sep, Starts(r, sep)[j]) == None
  {
    var o := Starts(rest, sep)[j - 1];
    StartsTail(r, sep, j);
    assert r[j] == rest[j - 1];
    CutAt(s[d..], sep, rest, j - 1);
    if j < |r| - 1 {
      ShiftedFound(s, sep, d, o, |r[j]|);
    } else {
      ShiftedNotFound(s, sep, d, o);
    }
  }

  /** An occurrence found searching `s[d..]` from `o` is found searching `s` from `d + o`. */
  lemma {:induction false} ShiftedFound(s: string, sep: string, d: nat, o: nat, len: nat)
    requires |sep| > 0 && d <= |s| && IndexOf(s[d..], sep, o) == Some(o + len)
    ensures IndexOf(s, sep, d + o) == Some(d + o + len)
  {
    IndexOfShift(s, sep, d, o);
  }

  /** No occurrence searching `s[d..]` from `o` means none searching `s` from `d + o`. */
  lemma {:induction false} ShiftedNotFound(s: string, sep: string, d: nat, o: nat)
    requires |sep| > 0 && d <= |s| && IndexOf(s[d..], sep, o).None?
    ensures IndexOf(s, sep, d + o).None?
  {
    IndexOfShift(s, sep, d, o);
  }

  /** Where the piece starting at `from` ends: at the next occurrence of `sep`,
      or at the end of the text when there is none. */
  function PieceEnd(s: string, sep: string, from: nat): (e: nat)
    requires |sep| > 0 && from <= |s|
    ensures from <= e <= |s|
    ensures forall k :: from <= k < e ==> !OccursAt(s, sep, k)
  {
    match IndexOf(s, sep, from)
    case None => |s|
    case Some(j) => j
  }

  /** The second piece of a split runs from just past the first occurrence of
      `sep` to the next occurrence, or to the end of the text. */
  lemma {:induction false} SecondOfSplit(s: string, sep: string, r: seq<string>)
    requires |sep| > 0 && r == Split(s, sep) && |r| >= 2
    ensures |r[0]| + |sep| <= |s|
    ensures r[1] == s[|r[0]| + |sep|..PieceEnd(s, sep, |r[0]| + |sep|)]
  {
    SplitScansLeftToRight(s, sep);
    SecondCut(s, sep, r);
    SecondPieceOfJoin(s, sep, r);
  }

  /** In a left-to-right cut, the search from the second piece's start stops
      at its end, or finds nothing when it is the last piece. */
  lemma {:induction false} SecondCut(s: string, sep: string, r: seq<string>)
    requires |sep| > 0 && |r| >= 2 && CutsLeftToRight(s, sep, r)
    ensures |r| == 2 ==> IndexOf(s, sep, |r[0]| + |sep|).None?
    ensures |r| > 2 ==> IndexOf(s, sep, |r[0]| + |sep|) == Some(|r[0]| + |sep| + |r[1]|)
  {
    CutAt(s, sep, r, 1);
    assert Starts(r, sep)[1] == Offset(r, sep, 1) == |r[0]| + |sep|;
  }

  /** The text after the first piece and separator is the rest joined, and
      starts with the second piece. */
  lemma {:induction false} SecondPieceText(r: seq<string>, sep: string)
    requires |r| >= 2
    ensures |r[0]| + |sep| <= |Join(r, sep)|
    ensures Join(r, sep)[|r[0]| + |sep|..] == Join(r[1..], sep)
    ensures r[1] <= Join(r[1..], sep)
  {
    JoinCons(r[0], r[1..], sep);
    assert r == [r[0]] + r[1..];
  }

  /** The second of the joined pieces runs to where the next search from its
      start stops. */
  lemma {:induction false} SecondPieceOfJoin(s: string, sep: string, r: seq<string>)
    requires |sep| > 0 && |r| >= 2 && Join(r, sep) == s
    requires |r| == 2 ==> IndexOf(s, sep, |r[0]| + |sep|).None?
    requires |r| > 2 ==> IndexOf(s, sep, |r[0]| + |sep|) == Some(|r[0]| + |sep| + |r[1]|)
    ensures |r[0]| + |sep| <= |s|
    ensures r[1] == s[|r[0]| + |sep|..PieceEnd(s, sep, |r[0]| + |sep|)]
  {
    SecondPieceText(r, sep);
    if |r| == 2 {
      assert Join(r[1..], sep) == r[1];
      PieceFrom(s, sep, |r[0]| + |sep|, r[1], Join(r[1..], sep), true);
    } else {
      PieceFrom(s, sep, |r[0]| + |sep|, r[1], Join(r[1..], sep), false);
    }
  }

  /** A piece `p` at the head of the text `t` after `d`: it runs to the end when
      it is the last piece, and otherwise to the next occurrence. */
  lemma {:induction false} PieceFrom(s: string, sep: string, d: nat, p: string, t: string, last: bool)
    requires |sep| > 0 && d <= |s| && s[d..] == t && p <= t
    requires last ==> t == p && IndexOf(s, sep, d).None?
    requires !last ==> IndexOf(s, sep, d) == Some(d + |p|)
    ensures p == s[d..PieceEnd(s, sep, d)]
  {
  }

  /** Joining is `a + sep + b`. */
  function Join2(a: string, sep: string, b: string): string {
    a + sep + b
  }

  /** A string that does not contain the separator's first character cannot
      contain the separator. */
  lemma NoOccurrence(s: string, sep: string)
    requires |sep| > 0 && sep[0] !in s
    ensures forall k :: !OccursAt(s, sep, k)
  {
    forall k: nat
      ensures !OccursAt(s, sep, k)
    {
      if k + |sep| <= |s| {
        assert s[k..k + |sep|][0] == s[k];
      }
    }
  }

  /** Splitting two separator-free strings joined by the separator gives them back. */
  lemma SplitJoin2(a: string, sep: string, b: string)
    requires |sep| > 0 && sep[0] !in a && sep[0] !in b
    ensures Split(Join2(a, sep, b), sep) == [a, b]
  {
    var s := Join2(a, sep, b);
    assert OccursAt(s, sep, |a|) by {
      assert s[|a|..|a| + |sep|] == sep;
    }
    forall k: nat | k < |a|
      ensures !OccursAt(s, sep, k)
    {
      if k + |sep| <= |s| {
        assert s[k..k + |sep|][0] == a[k];
      }
    }
    assert IndexOf(s, sep, 0) == Some(|a|);
    assert s[|a| + |sep|..] == b;
    NoOccurrence(b, sep);
    assert IndexOf(b, sep, 0) == None;
    assert s[..|a|] == a;
  }

  // ---------------------------------------------------------------- digits

  predicate IsDigit(c: char) {
    '0' <= c <= '9'
  }

  predicate AllDigits(s: string) {
    forall i :: 0 <= i < |s| ==> IsDigit(s[i])
  }

  /** The longest prefix of `s` made of decimal digits. */
  function LeadingDigits(s: string): (r: string)
    ensures |r| <= |s| && r == s[..|r|]
    ensures AllDigits(r)
    ensures |r| < |s| ==> !IsDigit(s[|r|])
  {
    if |s| == 0 || !IsDigit(s[0]) then "" else [s[0]] + LeadingDigits(s[1..])
  }

  /** The number a string of decimal digits denotes. */
  function DigitsValue(ds: string): nat
    requires AllDigits(ds)
  {
    if |ds| == 0 then 0
    else DigitsValue(ds[..|ds| - 1]) * 10 + (ds[|ds| - 1] as int - '0' as int)
  }

  /** `parseInt(s, 10)` for unsigned input: the value of the leading digits, or
      `None` (`NaN`) when `s` does not start with a digit. */
  function ParseInt(s: string): (r: Option<nat>)
    ensures r.None? <==> |s| == 0 || !IsDigit(s[0])
    ensures r.Some? ==> r.value == DigitsValue(LeadingDigits(s))
  {
    var ds := LeadingDigits(s);
    if |ds| == 0 then None else Some(DigitsValue(ds))
  }

  function DigitChar(d: nat): (c: char)
    requires d < 10
    ensures IsDigit(c)
  {
    ('0' as int + d) as char
  }

  /** `${n}`: the decimal representation of a natural number, without leading zeros. */
  function Decimal(n: nat): (r: string)
    ensures |r| >= 1 && AllDigits(r)
    ensures |r| == 1 <==> n < 10
    ensures r[0] == '0' ==> n == 0
  {
    if n < 10 then [DigitChar(n)] else Decimal(n / 10) + [DigitChar(n % 10)]
  }

  /** Parsing the decimal representation gives the number back. */
  lemma {:induction false} DecimalValue(n: nat)
    ensures DigitsValue(Decimal(n)) == n
  {
    if n >= 10 {
      var ds := Decimal(n);
      assert ds[..|ds| - 1] == Decimal(n / 10);
      DecimalValue(n / 10);
    }
  }

  /** The value of a digit character. */
  function DigitValue(c: char): int {
    c as int - '0' as int
  }

  /** Two digits denote ten times the first plus the second. */
  lemma TwoDigitsValue(ds: string)
    requires |ds| == 2 && AllDigits(ds)
    ensures DigitsValue(ds) == 10 * DigitValue(ds[0]) + DigitValue(ds[1])
  {
    assert ds[..1][..0] == "";
    assert DigitsValue(ds[..1]) == DigitValue(ds[0]);
  }

  /** A string made of digits is its own leading-digit prefix. */
  lemma {:induction false} LeadingDigitsOfDigits(s: string)
    requires AllDigits(s)
    ensures LeadingDigits(s) == s
  {
    if |s| > 0 {
      LeadingDigitsOfDigits(s[1..]);
    }
  }

  /** Digits followed by a non-digit: the digits are the leading-digit prefix. */
  lemma {:induction false} LeadingDigitsStop(ds: string, rest: string)
    requires AllDigits(ds) && |rest| > 0 && !IsDigit(rest[0])
    ensures LeadingDigits(ds + rest) == ds
  {
    if |ds| > 0 {
      assert (ds + rest)[1..] == ds[1..] + rest;
      LeadingDigitsStop(ds[1..], rest);
    }
  }

  /** `parseInt(`${n}`) == n`. */
  lemma ParseDecimal(n: nat)
    ensures ParseInt(Decimal(n)) == Some(n)
  {
    LeadingDigitsOfDigits(Decimal(n));
    DecimalValue(n);
  }
}
