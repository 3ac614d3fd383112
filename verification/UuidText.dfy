/** Text form and order of UUIDs: `FromString`/`ConvertFromString`, `ToString`,
    `CompareTo`, `operator<`, `IsValidUuid` and `ConvertUuidToUpperCase`. */
module UuidText {
  import opened Common
  import opened Uuid

  // -------------------------------------------------------------- hex digits

  function HexChar(n: bv8): char
    requires n < 16
  {
    match n
    case 0 => '0' case 1 => '1' case 2 => '2' case 3 => '3'
    case 4 => '4' case 5 => '5' case 6 => '6' case 7 => '7'
    case 8 => '8' case 9 => '9' case 10 => 'A' case 11 => 'B'
    case 12 => 'C' case 13 => 'D' case 14 => 'E' case 15 => 'F'
  }

  function HexValue(c: char): (r: Option<bv8>)
    ensures r.Some? ==> r.value < 16
  {
    match c
    case '0' => Some(0) case '1' => Some(1) case '2' => Some(2) case '3' => Some(3)
    case '4' => Some(4) case '5' => Some(5) case '6' => Some(6) case '7' => Some(7)
    case '8' => Some(8) case '9' => Some(9)
    case 'a' => Some(10) case 'b' => Some(11) case 'c' => Some(12)
    case 'd' => Some(13) case 'e' => Some(14) case 'f' => Some(15)
    case 'A' => Some(10) case 'B' => Some(11) case 'C' => Some(12)
    case 'D' => Some(13) case 'E' => Some(14) case 'F' => Some(15)
    case _ => None
  }

  predicate IsHex(c: char) {
    HexValue(c).Some?
  }

  predicate AllHex(s: string) {
    forall i :: 0 <= i < |s| ==> IsHex(s[i])
  }

  function Upper(c: char): char {
    if 'a' <= c <= 'f' then (c as int - 'a' as int + 'A' as int) as char else c
  }

  function UpperAll(s: string): (r: string)
    ensures |r| == |s|
  {
    seq(|s|, i requires 0 <= i < |s| => Upper(s[i]))
  }

  lemma HexInverse(n: bv8, c: char)
    ensures n < 16 ==> HexValue(HexChar(n)) == Some(n)
    ensures IsHex(c) ==> HexChar(HexValue(c).value) == Upper(c)
    ensures !IsHex('-')
  {
  }

  lemma HexMonotone(m: bv8, n: bv8)
    requires m < 16 && n < 16
    ensures HexChar(m) < HexChar(n) <==> m < n
    ensures HexChar(m) == HexChar(n) <==> m == n
  {
    HexInverse(m, ' ');
    HexInverse(n, ' ');
  }

  function Join(hi: bv8, lo: bv8): bv8 {
    (hi << 4) | lo
  }

  lemma Nibbles(b: bv8)
    ensures b >> 4 < 16 && b & 0xF < 16 && Join(b >> 4, b & 0xF) == b
  {
  }

  lemma NibblesOfJoin(hi: bv8, lo: bv8)
    requires hi < 16 && lo < 16
    ensures Join(hi, lo) >> 4 == hi && Join(hi, lo) & 0xF == lo
  {
  }

  lemma NibbleOrder(a: bv8, b: bv8)
    ensures a < b <==> a >> 4 < b >> 4 || (a >> 4 == b >> 4 && a & 0xF < b & 0xF)
  {
  }

  // -------------------------------------------------------------------- text

  function Digits(u: seq<bv8>): (s: string)
    ensures |s| == 2 * |u|
  {
    if u == [] then [] else Pair(u[0]) + Digits(u[1..])
  }

  function Pair(b: bv8): (s: string)
    ensures |s| == 2
  {
    Nibbles(b);
    [HexChar(b >> 4), HexChar(b & 0xF)]
  }

  /** The 8-4-4-4-12 layout of section 4 of RFC 9562. */
  function Dashed(d: string): (s: string)
    requires |d| == 32
    ensures |s| == 36
  {
    d[..8] + "-" + d[8..12] + "-" + d[12..16] + "-" + d[16..20] + "-" + d[20..]
  }

  function ToText(u: Uuid): string {
    Dashed(Digits(u))
  }

  function Strip(s: string): string {
    if s == [] then [] else (if s[0] == '-' then [] else [s[0]]) + Strip(s[1..])
  }

  /** Reads digit pairs into `into` until one is not hexadecimal; the rest keeps its value. */
  function Parse(d: string, into: seq<bv8>): (r: seq<bv8>)
    requires |d| == 2 * |into|
    ensures |r| == |into|
  {
    if into == [] || !IsHex(d[0]) || !IsHex(d[1]) then into
    else [Join(HexValue(d[0]).value, HexValue(d[1]).value)] + Parse(d[2..], into[1..])
  }

  function FromText(s: string, initial: Uuid): Uuid {
    var d := Strip(s);
    if |d| != 32 then initial else Parse(d, initial)
  }

  // --------------------------------------------------------------- round trips

  lemma ParseCons(a: char, b: char, d: string, into: seq<bv8>)
    requires into != [] && |d| == 2 * (|into| - 1) && IsHex(a) && IsHex(b)
    ensures Parse([a, b] + d, into) == [Join(HexValue(a).value, HexValue(b).value)] + Parse(d, into[1..])
  {
    hide HexValue, Join;
    assert ([a, b] + d)[2..] == d;
  }

  lemma PairValue(b: bv8)
    ensures var p := Pair(b);
            IsHex(p[0]) && IsHex(p[1]) && Join(HexValue(p[0]).value, HexValue(p[1]).value) == b
  {
    hide HexChar, HexValue, Join;
    Nibbles(b);
    HexInverse(b >> 4, ' ');
    HexInverse(b & 0xF, ' ');
  }

  lemma AllHexCons(p: string, d: string)
    requires |p| == 2 && IsHex(p[0]) && IsHex(p[1]) && AllHex(d)
    ensures AllHex(p + d)
  {
    hide IsHex;
  }

  lemma {:induction false} ParseDigits(u: seq<bv8>, into: seq<bv8>)
    requires |into| == |u|
    ensures Parse(Digits(u), into) == u && AllHex(Digits(u))
  {
    if u == [] {
    } else {
      hide HexValue, IsHex, AllHex, Join, Parse, Pair;
      var p, rest := Pair(u[0]), Digits(u[1..]);
      PairValue(u[0]);
      ParseDigits(u[1..], into[1..]);
      assert p == [p[0], p[1]];
      ParseCons(p[0], p[1], rest, into);
      AllHexCons(p, rest);
    }
  }

  lemma {:induction false} DigitsParse(d: string, into: seq<bv8>)
    requires |d| == 2 * |into| && AllHex(d)
    ensures Digits(Parse(d, into)) == UpperAll(d)
  {
    hide HexChar, HexValue, Join;
    if into == [] {
    } else {
      var hi, lo := HexValue(d[0]).value, HexValue(d[1]).value;
      NibblesOfJoin(hi, lo);
      HexInverse(hi, d[0]);
      HexInverse(lo, d[1]);
      DigitsParse(d[2..], into[1..]);
      var p := Parse(d, into);
      assert p[0] == Join(hi, lo) && p[1..] == Parse(d[2..], into[1..]);
      assert UpperAll(d) == [Upper(d[0]), Upper(d[1])] + UpperAll(d[2..]);
    }
  }

  lemma {:induction false} StripConcat(a: string, b: string)
    ensures Strip(a + b) == Strip(a) + Strip(b)
  {
    if a == [] {
      assert a + b == b;
    } else {
      assert (a + b)[1..] == a[1..] + b;
      StripConcat(a[1..], b);
    }
  }

  lemma {:induction false} StripNothing(s: string)
    requires forall i :: 0 <= i < |s| ==> s[i] != '-'
    ensures Strip(s) == s
  {
    if s == [] {
    } else {
      StripNothing(s[1..]);
    }
  }

  lemma StripDash(a: string, b: string)
    ensures Strip(a + "-" + b) == Strip(a) + Strip(b)
  {
    hide Strip;
    StripConcat(a + "-", b);
    StripConcat(a, "-");
    StripOneDash();
  }

  lemma StripOneDash()
    ensures Strip("-") == ""
  {
    assert "-"[1..] == "";
  }

  lemma StripDashed(d: string)
    requires |d| == 32 && AllHex(d)
    ensures Strip(Dashed(d)) == d
  {
    hide HexValue, Strip;
    HexInverse(0, '-');
    forall i | 0 <= i < |d| ensures d[i] != '-' {
      assert IsHex(d[i]);
    }
    var a, b, c, e, f := d[..8], d[8..12], d[12..16], d[16..20], d[20..];
    StripDash(a + "-" + b + "-" + c + "-" + e, f);
    StripDash(a + "-" + b + "-" + c, e);
    StripDash(a + "-" + b, c);
    StripDash(a, b);
    StripNothing(a);
    StripNothing(b);
    StripNothing(c);
    StripNothing(e);
    StripNothing(f);
    assert d == a + b + c + e + f;
  }

  /** Writing then reading returns the UUID, whatever the default of the reading class. */
  lemma TextRoundTrip(u: Uuid, initial: Uuid)
    ensures FromText(ToText(u), initial) == u
  {
    hide Strip, Dashed;
    ParseDigits(u, initial);
    StripDashed(Digits(u));
  }

  lemma PairIs(b: bv8, hi: bv8, lo: bv8)
    requires hi < 16 && lo < 16 && b == Join(hi, lo)
    ensures Pair(b) == [HexChar(hi), HexChar(lo)]
  {
    hide HexChar;
    NibblesOfJoin(hi, lo);
  }

  lemma {:induction false} DigitsAppend(a: seq<bv8>, b: seq<bv8>)
    ensures Digits(a + b) == Digits(a) + Digits(b)
  {
    hide Pair;
    if a == [] {
      assert a + b == b;
    } else {
      DigitsAppend(a[1..], b);
      assert (a + b)[1..] == a[1..] + b;
    }
  }

  lemma OneByte(b: bv8)
    ensures Digits([b]) == Pair(b)
  {
    hide Pair;
    assert [b][1..] == [];
    assert Digits([b]) == Pair(b) + Digits([]);
  }

  lemma TwoBytes(a: bv8, b: bv8)
    ensures Digits([a, b]) == Pair(a) + Pair(b)
  {
    hide Pair, Digits;
    assert [a, b] == [a] + [b];
    DigitsAppend([a], [b]);
    OneByte(a);
    OneByte(b);
  }

  lemma BaseDigits()
    ensures Digits([0x37, 0xBE]) == "37BE" && Digits([0xA8, 0x80]) == "A880" && Digits([0xFC, 0x70]) == "FC70"
    ensures Digits([0x11, 0xEA]) == "11EA" && Digits([0xB7, 0x20]) == "B720" && Digits([0, 0]) == "0000"
  {
    hide Pair;
    TwoBytes(0x37, 0xBE);
    TwoBytes(0xA8, 0x80);
    TwoBytes(0xFC, 0x70);
    TwoBytes(0x11, 0xEA);
    TwoBytes(0xB7, 0x20);
    TwoBytes(0, 0);
    PairIs(0x37, 3, 7);
    PairIs(0xBE, 11, 14);
    PairIs(0xA8, 10, 8);
    PairIs(0x80, 8, 0);
    PairIs(0xFC, 15, 12);
    PairIs(0x70, 7, 0);
    PairIs(0x11, 1, 1);
    PairIs(0xEA, 14, 10);
    PairIs(0xB7, 11, 7);
    PairIs(0x20, 2, 0);
    PairIs(0, 0, 0);
  }

  lemma DashedParts(a: string, b: string, c: string, e: string, f: string)
    requires |a| == 8 && |b| == |c| == |e| == 4 && |f| == 12
    ensures Dashed(a + (b + (c + (e + f)))) == a + "-" + b + "-" + c + "-" + e + "-" + f
  {
    var d := a + (b + (c + (e + f)));
    assert d[..8] == a && d[8..12] == b && d[12..16] == c && d[16..20] == e && d[20..] == f;
  }

  /** The base UUID of the service in its text form. */
  lemma BaseText()
    ensures ToText(BASE_UUID) ==
            ("37BE" + "A880") + "-" + "FC70" + "-" + "11EA" + "-" + "B720" + "-" + ("0000" + ("0000" + "0000"))
  {
    hide Digits, Dashed;
    var a, b, c, e := [0x37, 0xBE] + [0xA8, 0x80], [0xFC, 0x70], [0x11, 0xEA], [0xB7, 0x20];
    var f := [0, 0] + ([0, 0] + [0, 0]);
    assert BASE_UUID == a + (b + (c + (e + f)));
    DigitsAppend(a, b + (c + (e + f)));
    DigitsAppend(b, c + (e + f));
    DigitsAppend(c, e + f);
    DigitsAppend(e, f);
    DigitsAppend([0x37, 0xBE], [0xA8, 0x80]);
    DigitsAppend([0, 0], [0, 0] + [0, 0]);
    DigitsAppend([0, 0], [0, 0]);
    BaseDigits();
    DashedParts("37BE" + "A880", "FC70", "11EA", "B720", "0000" + ("0000" + "0000"));
  }

  /** Any placement of dashes around 32 hex digits reads as the same UUID, and writing it
      back gives the canonical upper-case text of those digits. */
  lemma CanonicalText(s: string, initial: Uuid)
    requires |Strip(s)| == 32 && AllHex(Strip(s))
    ensures ToText(FromText(s, initial)) == Dashed(UpperAll(Strip(s)))
  {
    DigitsParse(Strip(s), initial);
  }

  predicate ValidText(s: string) {
    && |s| == 36
    && s[8] == '-' && s[13] == '-' && s[18] == '-' && s[23] == '-'
    && (forall i :: 0 <= i < 36 && i != 8 && i != 13 && i != 18 && i != 23 ==> IsHex(s[i]))
  }

  lemma ValidIsDashed(s: string)
    requires ValidText(s)
    ensures |Strip(s)| == 32 && AllHex(Strip(s)) && s == Dashed(Strip(s))
  {
    var d := s[..8] + s[9..13] + s[14..18] + s[19..23] + s[24..];
    assert AllHex(d) by {
      forall i | 0 <= i < 32 ensures IsHex(d[i]) {
        var j := if i < 8 then i else if i < 12 then i + 1 else if i < 16 then i + 2
                 else if i < 20 then i + 3 else i + 4;
        assert d[i] == s[j];
      }
    }
    assert d[..8] == s[..8] && d[8..12] == s[9..13] && d[12..16] == s[14..18]
        && d[16..20] == s[19..23] && d[20..] == s[24..];
    assert s == Dashed(d);
    StripDashed(d);
  }

  /** On text that `IsValidUuid` accepts, reading and writing back only upper-cases it. */
  lemma ValidTextRoundTrip(s: string, initial: Uuid)
    requires ValidText(s)
    ensures ToText(FromText(s, initial)) == UpperAll(s)
  {
    ValidIsDashed(s);
    CanonicalText(s, initial);
    UpperDashed(Strip(s));
  }

  lemma UpperConcat(a: string, b: string)
    ensures UpperAll(a + b) == UpperAll(a) + UpperAll(b)
  {
  }

  lemma UpperSlice(d: string, i: nat, j: nat)
    requires i <= j <= |d|
    ensures UpperAll(d[i..j]) == UpperAll(d)[i..j]
  {
  }

  lemma UpperDashed(d: string)
    requires |d| == 32
    ensures UpperAll(Dashed(d)) == Dashed(UpperAll(d))
  {
    var a, b, c, e, f := d[..8], d[8..12], d[12..16], d[16..20], d[20..];
    UpperSlice(d, 0, 8);
    UpperSlice(d, 8, 12);
    UpperSlice(d, 12, 16);
    UpperSlice(d, 16, 20);
    UpperSlice(d, 20, 32);
    assert UpperAll("-") == "-";
    hide UpperAll;
    UpperConcat(a, "-");
    UpperConcat(a + "-", b);
    UpperConcat(a + "-" + b, "-");
    UpperConcat(a + "-" + b + "-", c);
    UpperConcat(a + "-" + b + "-" + c, "-");
    UpperConcat(a + "-" + b + "-" + c + "-", e);
    UpperConcat(a + "-" + b + "-" + c + "-" + e, "-");
    UpperConcat(a + "-" + b + "-" + c + "-" + e + "-", f);
  }

  // ------------------------------------------------------- the two classes agree

  /** How many leading digit pairs of `d` are hexadecimal. */
  function Good(d: string, n: nat): nat
    requires |d| == 2 * n
  {
    if n == 0 || !IsHex(d[0]) || !IsHex(d[1]) then 0 else 1 + Good(d[2..], n - 1)
  }

  lemma {:induction false} ParseAgree(d: string, a: seq<bv8>, b: seq<bv8>)
    requires |d| == 2 * |a| == 2 * |b|
    ensures Good(d, |a|) <= |a|
    ensures Parse(d, a) == Parse(d, b) <==> a[Good(d, |a|)..] == b[Good(d, |a|)..]
  {
    if a == [] || !IsHex(d[0]) || !IsHex(d[1]) {
    } else {
      ParseAgree(d[2..], a[1..], b[1..]);
      var g := Good(d[2..], |a| - 1);
      assert Good(d, |a|) == 1 + g;
      assert a[1..][g..] == a[1 + g..] && b[1..][g..] == b[1 + g..];
      assert Parse(d, a)[1..] == Parse(d[2..], a[1..]);
      assert Parse(d, b)[1..] == Parse(d[2..], b[1..]);
    }
  }

  lemma {:induction false} GoodPairs(d: string, n: nat, k: nat)
    requires |d| == 2 * n && k <= n
    ensures Good(d, n) >= k <==> AllHex(d[..2 * k])
  {
    if k == 0 {
    } else {
      GoodPairs(d[2..], n - 1, k - 1);
      assert d[2..][..2 * (k - 1)] == d[2..2 * k];
      if AllHex(d[..2 * k]) {
        assert IsHex(d[..2 * k][0]) && IsHex(d[..2 * k][1]);
        forall i | 0 <= i < 2 * (k - 1) ensures IsHex(d[2..2 * k][i]) {
          assert d[2..2 * k][i] == d[..2 * k][i + 2];
        }
      } else if IsHex(d[0]) && IsHex(d[1]) {
        var i :| 0 <= i < 2 * k && !IsHex(d[..2 * k][i]);
        assert d[2..2 * k][i - 2] == d[i];
      }
    }
  }

  /** `UUID::FromString` and `Uuid::ConvertFromString` agree exactly on the texts with 32
      digits whose first twenty are hexadecimal: their defaults differ in the first
      ten bytes only, and a failed parse keeps the unread part of the default. */
  lemma ClassesAgreeExactly(s: string)
    ensures FromText(s, ZERO_UUID) == FromText(s, BASE_UUID)
            <==> |Strip(s)| == 32 && AllHex(Strip(s)[..20])
  {
    var d := Strip(s);
    assert ZERO_UUID[0] != BASE_UUID[0];
    if |d| == 32 {
      ParseAgree(d, ZERO_UUID, BASE_UUID);
      var g := Good(d, 16);
      GoodPairs(d, 16, 10);
      if g >= 10 {
        assert ZERO_UUID[g..] == BASE_UUID[g..];
      } else {
        assert ZERO_UUID[g..][9 - g] != BASE_UUID[g..][9 - g];
      }
    }
  }

  // ------------------------------------------------------------------- order

  predicate TextLess(a: string, b: string) {
    if a == [] || b == [] then b != []
    else a[0] < b[0] || (a[0] == b[0] && TextLess(a[1..], b[1..]))
  }

  predicate ByteLess(a: seq<bv8>, b: seq<bv8>) {
    if a == [] || b == [] then b != []
    else a[0] < b[0] || (a[0] == b[0] && ByteLess(a[1..], b[1..]))
  }

  /** The sign of `std::string::compare`. */
  function Compare(a: string, b: string): int {
    if TextLess(a, b) then -1 else if a == b then 0 else 1
  }

  function CompareTo(u: Uuid, v: Uuid): int {
    Compare(ToText(u), ToText(v))
  }

  lemma {:induction false} LessConcat(a: string, b: string, x: string, y: string)
    requires |a| == |b|
    ensures TextLess(a + x, b + y) <==> TextLess(a, b) || (a == b && TextLess(x, y))
  {
    if a == [] {
      assert a + x == x && b + y == y;
    } else {
      assert (a + x)[1..] == a[1..] + x && (b + y)[1..] == b[1..] + y;
      assert a == [a[0]] + a[1..] && b == [b[0]] + b[1..];
      LessConcat(a[1..], b[1..], x, y);
    }
  }

  lemma LessDash(a: string, b: string, x: string, y: string)
    requires |a| == |b|
    ensures TextLess(a + "-" + x, b + "-" + y) <==> TextLess(a + x, b + y)
  {
    LessConcat(a, b, x, y);
    LessConcat(a + "-", b + "-", x, y);
    LessConcat(a, b, "-", "-");
    assert !TextLess("-", "-") by { assert "-"[1..] == ""; }
    if a + "-" == b + "-" {
      assert a == (a + "-")[..|a|] && b == (b + "-")[..|b|];
    }
  }

  /** Dashes at fixed places do not change the order of the digits. */
  lemma DashedOrder(d: string, e: string)
    requires |d| == 32 && |e| == 32
    ensures TextLess(Dashed(d), Dashed(e)) <==> TextLess(d, e)
  {
    hide TextLess, Dashed;
    var x4, y4 := d[20..], e[20..];
    var x3, y3 := d[16..20] + "-" + x4, e[16..20] + "-" + y4;
    var x2, y2 := d[12..16] + "-" + x3, e[12..16] + "-" + y3;
    var x1, y1 := d[8..12] + "-" + x2, e[8..12] + "-" + y2;
    DashedGroups(d);
    DashedGroups(e);
    LessDash(d[..8], e[..8], x1, y1);
    NextGroup(d, 8, 12, x2);
    NextGroup(e, 8, 12, y2);
    LessDash(d[..12], e[..12], x2, y2);
    NextGroup(d, 12, 16, x3);
    NextGroup(e, 12, 16, y3);
    LessDash(d[..16], e[..16], x3, y3);
    NextGroup(d, 16, 20, x4);
    NextGroup(e, 16, 20, y4);
    LessDash(d[..20], e[..20], x4, y4);
    assert d[..20] + x4 == d && e[..20] + y4 == e;
  }

  lemma DashedGroups(d: string)
    requires |d| == 32
    ensures Dashed(d) == d[..8] + "-" + (d[8..12] + "-" + (d[12..16] + "-" + (d[16..20] + "-" + d[20..])))
  {
  }

  lemma NextGroup(d: string, i: nat, j: nat, x: string)
    requires i <= j <= |d|
    ensures d[..i] + (d[i..j] + "-" + x) == d[..j] + "-" + x
  {
  }

  lemma {:induction false} DigitsOrder(a: seq<bv8>, b: seq<bv8>)
    requires |a| == |b|
    ensures TextLess(Digits(a), Digits(b)) <==> ByteLess(a, b)
  {
    if a == [] {
    } else {
      var (x, y) := (a[0], b[0]);
      Nibbles(x);
      Nibbles(y);
      HexMonotone(x >> 4, y >> 4);
      HexMonotone(x & 0xF, y & 0xF);
      NibbleOrder(x, y);
      DigitsOrder(a[1..], b[1..]);
      PairLess(HexChar(x >> 4), HexChar(x & 0xF), Digits(a[1..]), HexChar(y >> 4), HexChar(y & 0xF), Digits(b[1..]));
    }
  }

  lemma PairLess(a: char, b: char, s: string, c: char, d: char, t: string)
    ensures TextLess([a, b] + s, [c, d] + t) <==>
            a < c || (a == c && (b < d || (b == d && TextLess(s, t))))
  {
    assert ([a, b] + s)[1..] == [b] + s && ([c, d] + t)[1..] == [d] + t;
    assert ([b] + s)[1..] == s && ([d] + t)[1..] == t;
  }

  lemma {:induction false} ByteTrichotomy(a: seq<bv8>, b: seq<bv8>)
    requires |a| == |b|
    ensures a == b || ByteLess(a, b) || ByteLess(b, a)
    ensures ByteLess(a, b) ==> a != b && !ByteLess(b, a)
  {
    if a == [] {
    } else {
      ByteTrichotomy(a[1..], b[1..]);
      assert a == [a[0]] + a[1..] && b == [b[0]] + b[1..];
    }
  }

  lemma {:induction false} ByteTransitive(a: seq<bv8>, b: seq<bv8>, c: seq<bv8>)
    requires |a| == |b| == |c| && ByteLess(a, b) && ByteLess(b, c)
    ensures ByteLess(a, c)
  {
    if a[0] != b[0] || b[0] != c[0] {
    } else {
      ByteTransitive(a[1..], b[1..], c[1..]);
    }
  }

  /** `CompareTo` on upper-case dashed text is the lexicographic order of the bytes, a
      strict total order whose ties are exactly the equal UUIDs. */
  lemma OrderIsByteOrder(u: Uuid, v: Uuid, w: Uuid)
    ensures CompareTo(u, v) < 0 <==> ByteLess(u, v)
    ensures CompareTo(u, v) == 0 <==> u == v
    ensures CompareTo(u, v) > 0 <==> ByteLess(v, u)
    ensures CompareTo(u, v) < 0 && CompareTo(v, w) < 0 ==> CompareTo(u, w) < 0
  {
    hide ByteLess, TextLess, Digits, Dashed;
    TextOrder(u, v);
    TextOrder(v, w);
    TextOrder(u, w);
    ByteTrichotomy(u, v);
    if ByteLess(u, v) && ByteLess(v, w) {
      ByteTransitive(u, v, w);
    }
    TextRoundTrip(u, u);
    TextRoundTrip(v, u);
  }

  lemma TextOrder(u: Uuid, v: Uuid)
    ensures TextLess(ToText(u), ToText(v)) <==> ByteLess(u, v)
  {
    DashedOrder(Digits(u), Digits(v));
    DigitsOrder(u, v);
  }

  // ------------------------------------------------------------------ the code

  lemma {:induction false} StripRemoves(s: string, pos: nat)
    requires pos < |s| && s[pos] == '-'
    ensures Strip(s[..pos] + s[pos + 1..]) == Strip(s)
  {
    assert s == s[..pos] + "-" + s[pos + 1..];
    StripDash(s[..pos], s[pos + 1..]);
    StripConcat(s[..pos], s[pos + 1..]);
  }

  method Find(s: string, c: char) returns (pos: int)
    ensures pos == -1 ==> c !in s
    ensures pos != -1 ==> 0 <= pos < |s| && s[pos] == c
  {
    pos := 0;
    while pos < |s|
      invariant 0 <= pos <= |s| && c !in s[..pos]
    {
      if s[pos] == c {
        return;
      }
      pos := pos + 1;
    }
    pos := -1;
  }

  /** Both readers: erase dashes one at a time, then read digit pairs until one fails. */
  method FromString(name: string, initial: Uuid) returns (u: Uuid)
    ensures u == FromText(name, initial)
  {
    hide Strip, Parse;
    var tmp := name;
    var pos := Find(tmp, '-');
    while pos != -1
      invariant pos != -1 ==> 0 <= pos < |tmp| && tmp[pos] == '-'
      invariant pos == -1 ==> '-' !in tmp
      invariant Strip(tmp) == Strip(name)
      decreases |tmp|, pos != -1
    {
      StripRemoves(tmp, pos);
      tmp := tmp[..pos] + tmp[pos + 1..];
      pos := Find(tmp, '-');
    }
    StripNothing(tmp);
    if |tmp| != 32 {
      return initial;
    }
    u := ReadPairs(tmp, initial);
  }

  method ReadPairs(tmp: string, initial: Uuid) returns (ret: Uuid)
    requires |tmp| == 32
    ensures ret == Parse(tmp, initial)
  {
    hide HexValue, Join, Parse;
    ret := initial;
    var i := 0;
    assert tmp[0..] == tmp && ret[0..] == ret;
    while i + 1 < |tmp|
      invariant 0 <= i <= 32 && i % 2 == 0
      invariant ret[..i / 2] + Parse(tmp[i..], ret[i / 2..]) == Parse(tmp, initial)
    {
      ParseStep(tmp, ret, i / 2);
      if !IsHex(tmp[i]) || !IsHex(tmp[i + 1]) {
        return;
      }
      ret := ret[i / 2 := Join(HexValue(tmp[i]).value, HexValue(tmp[i + 1]).value)];
      i := i + 2;
    }
    assert ret[..16] + Parse(tmp[32..], ret[16..]) == ret;
  }

  /** Reading the pair of byte `k`, or stopping there. */
  lemma ParseStep(d: string, ret: Uuid, k: nat)
    requires |d| == 32 && k < 16
    ensures !(IsHex(d[2 * k]) && IsHex(d[2 * k + 1])) ==> ret[..k] + Parse(d[2 * k..], ret[k..]) == ret
    ensures IsHex(d[2 * k]) && IsHex(d[2 * k + 1]) ==>
              var next := ret[k := Join(HexValue(d[2 * k]).value, HexValue(d[2 * k + 1]).value)];
              ret[..k] + Parse(d[2 * k..], ret[k..]) == next[..k + 1] + Parse(d[2 * (k + 1)..], next[k + 1..])
  {
    hide HexValue, Join;
    var s, rest := d[2 * k..], ret[k..];
    assert s[0] == d[2 * k] && s[1] == d[2 * k + 1];
    assert ret[..k] + rest == ret;
    if IsHex(s[0]) && IsHex(s[1]) {
      var b := Join(HexValue(s[0]).value, HexValue(s[1]).value);
      var next := ret[k := b];
      assert s[2..] == d[2 * (k + 1)..] && rest[1..] == ret[k + 1..] == next[k + 1..];
      assert next[..k + 1] == ret[..k] + [b];
      assert Parse(s, rest) == [b] + Parse(s[2..], rest[1..]);
    }
  }

  method ToString(u: Uuid) returns (s: string)
    ensures s == ToText(u)
  {
    hide HexChar, Digits;
    var tmp := "";
    assert u[0..] == u;
    for i := 0 to 16
      invariant |tmp| == 2 * i
      invariant tmp + Digits(u[i..]) == Digits(u)
    {
      Nibbles(u[i]);
      DigitsStep(u, i);
      tmp := tmp + [HexChar(u[i] >> 4), HexChar(u[i] & 0xF)];
    }
    assert tmp + Digits(u[16..]) == tmp;
    s := tmp[..8] + "-" + tmp[8..12] + "-" + tmp[12..16] + "-" + tmp[16..20] + "-" + tmp[20..];
  }

  lemma DigitsStep(u: Uuid, i: nat)
    requires i < 16 && u[i] >> 4 < 16 && u[i] & 0xF < 16
    ensures Digits(u[i..]) == [HexChar(u[i] >> 4), HexChar(u[i] & 0xF)] + Digits(u[i + 1..])
  {
    hide HexChar;
    assert u[i..][0] == u[i] && u[i..][1..] == u[i + 1..];
  }

  lemma {:induction false} FirstDifference(a: seq<bv8>, b: seq<bv8>, i: nat)
    requires |a| == |b| && i <= |a| && a[..i] == b[..i]
    ensures i == |a| ==> a == b
    ensures i < |a| && a[i] != b[i] ==> (ByteLess(a, b) <==> a[i] < b[i])
  {
    if i == 0 {
    } else {
      assert a[0] == a[..i][0] == b[..i][0] == b[0];
      assert a[1..][..i - 1] == a[..i][1..] == b[..i][1..] == b[1..][..i - 1];
      FirstDifference(a[1..], b[1..], i - 1);
      assert a == [a[0]] + a[1..] && b == [b[0]] + b[1..];
    }
  }

  /** `operator<` of both classes; `equal` is the answer of `Equals`. */
  method Less(u: Uuid, v: Uuid) returns (less: bool, equal: bool)
    ensures less <==> CompareTo(u, v) < 0
    ensures equal <==> CompareTo(u, v) == 0
  {
    hide CompareTo;
    OrderIsByteOrder(u, v, v);
    for i := 0 to 16
      invariant u[..i] == v[..i]
    {
      if u[i] != v[i] {
        FirstDifference(u, v, i);
        return u[i] < v[i], false;
      }
    }
    FirstDifference(u, v, 16);
    ByteTrichotomy(u, v);
    return false, true;
  }

  method IsValidUuid(uuid: string) returns (ok: bool)
    ensures ok <==> ValidText(uuid)
  {
    hide HexValue;
    if |uuid| != 36 {
      return false;
    }
    if uuid[8] != '-' || uuid[13] != '-' || uuid[18] != '-' || uuid[23] != '-' {
      return false;
    }
    for i := 0 to 36
      invariant forall j :: 0 <= j < i && j != 8 && j != 13 && j != 18 && j != 23 ==> IsHex(uuid[j])
    {
      if i != 8 && i != 13 && i != 18 && i != 23 && !IsHex(uuid[i]) {
        return false;
      }
    }
    return true;
  }

  method ConvertUuidToUpperCase(uuid: array<char>)
    modifies uuid
    ensures uuid[..] == UpperAll(old(uuid[..]))
  {
    for i := 0 to uuid.Length
      invariant forall j :: 0 <= j < i ==> uuid[j] == Upper(old(uuid[j]))
      invariant forall j :: i <= j < uuid.Length ==> uuid[j] == old(uuid[j])
    {
      uuid[i] := Upper(uuid[i]);
    }
  }
}
