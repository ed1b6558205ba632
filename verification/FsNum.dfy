/**
 * Localised counters (agent/src/snmp/ews-parsers/hp-futuresmart.ts, `fsNum`).
 *
 * A printer page shows a counter grouped by thousands in its own locale, sometimes with a fraction.
 * `FsNum` reads it back. Numbers are exact; the exponent, radix and infinity forms of the
 * language's own number parser are not part of this model.
 */
module FsNum {
  import opened Wrappers

  // ---- the text operations of the source ----

  predicate IsDigit(c: char) {
    '0' <= c <= '9'
  }

  predicate IsSep(c: char) {
    c == '.' || c == ','
  }

  predicate IsSpace(c: char) {
    || '\t' <= c <= '\r' || c == ' ' || c == '\U{00a0}' || c == '\U{1680}' || '\U{2000}' <= c <= '\U{200a}'
    || c == '\U{2028}' || c == '\U{2029}' || c == '\U{202f}' || c == '\U{205f}' || c == '\U{3000}' || c == '\U{feff}'
  }

  predicate AllDigits(s: string) {
    forall i | 0 <= i < |s| :: IsDigit(s[i])
  }

  /** replace(/[%\s*]/g, '') */
  function DropMarks(s: string): string {
    if s == "" then ""
    else (if s[0] == '%' || s[0] == '*' || IsSpace(s[0]) then "" else [s[0]]) + DropMarks(s[1..])
  }

  /** replace(/[^\d.,-]+$/, '') */
  function TrimTail(s: string): string {
    if s == "" then ""
    else
      var c := s[|s| - 1];
      if IsDigit(c) || IsSep(c) || c == '-' then s else TrimTail(s[..|s| - 1])
  }

  /** split(c).join('') */
  function RemoveAll(s: string, c: char): string {
    if s == "" then "" else (if s[0] == c then "" else [s[0]]) + RemoveAll(s[1..], c)
  }

  function CountSeps(s: string): nat {
    if s == "" then 0 else (if IsSep(s[0]) then 1 else 0) + CountSeps(s[1..])
  }

  function IndexOf(s: string, c: char): (i: nat)
    ensures i <= |s| && (i < |s| ==> s[i] == c) && forall j | 0 <= j < i :: s[j] != c
  {
    if s == "" || s[0] == c then 0 else 1 + IndexOf(s[1..], c)
  }

  /** replace of one character, its first occurrence only */
  function ReplaceFirst(s: string, c: char, to: string): string {
    var i := IndexOf(s, c);
    if i == |s| then s else s[..i] + to + s[i + 1..]
  }

  /** The separator that stands last. */
  function LastSep(s: string): Option<char> {
    if s == "" then None
    else if IsSep(s[|s| - 1]) then Some(s[|s| - 1])
    else LastSep(s[..|s| - 1])
  }

  /** [.,]\d{3} in front */
  predicate GroupFirst(s: string) {
    |s| >= 4 && IsSep(s[0]) && AllDigits(s[1..4])
  }

  /** ([.,]\d{3})+$ */
  predicate OnlyGroups(s: string) {
    GroupFirst(s) && (s[4..] == "" || OnlyGroups(s[4..]))
  }

  /** [.,]\d+$ */
  predicate Fraction(s: string) {
    |s| >= 2 && IsSep(s[0]) && AllDigits(s[1..])
  }

  /** ([.,]\d{3})+([.,]\d+)?$ */
  predicate GroupsAndFraction(s: string) {
    GroupFirst(s) && (s[4..] == "" || Fraction(s[4..]) || GroupsAndFraction(s[4..]))
  }

  predicate MatchesGroupedOrFraction(t: string) {
    exists p | 1 <= p <= 3 && p <= |t| :: AllDigits(t[..p]) && GroupsAndFraction(t[p..])
  }

  predicate MatchesGrouped(t: string) {
    exists p | 1 <= p <= 3 && p <= |t| :: AllDigits(t[..p]) && OnlyGroups(t[p..])
  }

  /** \.\d{3}$ */
  predicate EndsInThousand(t: string) {
    |t| >= 4 && t[|t| - 4] == '.' && AllDigits(t[|t| - 3..])
  }

  // ---- reading a plain decimal ----

  function DigitOf(c: char): nat
    requires IsDigit(c)
  {
    c as int - '0' as int
  }

  function Value(s: string): nat
    requires AllDigits(s)
  {
    if s == "" then 0 else Value(s[..|s| - 1]) * 10 + DigitOf(s[|s| - 1])
  }

  function Pow10(k: nat): nat
    ensures Pow10(k) >= 1
  {
    if k == 0 then 1 else 10 * Pow10(k - 1)
  }

  /** The value of the digits of `a` and then of `b`. */
  function Joined(a: string, b: string): nat
    requires AllDigits(a) && AllDigits(b)
  {
    Value(a) * Pow10(|b|) + Value(b)
  }

  /** `units / 10^scale` */
  datatype Decimal = Decimal(units: int, scale: nat)

  function Unsigned(t: string): Option<Decimal> {
    var i := IndexOf(t, '.');
    if !AllDigits(t[..i]) then None
    else if i == |t| then (if t == "" then None else Some(Decimal(Value(t), 0)))
    else if !AllDigits(t[i + 1..]) || |t| == 1 then None
    else Some(Decimal(Joined(t[..i], t[i + 1..]), |t| - i - 1))
  }

  /** None is NaN. */
  function Number(t: string): Option<Decimal> {
    if t != "" && t[0] == '-' then
      var u := Unsigned(t[1..]);
      if u.Some? then Some(u.value.(units := -u.value.units)) else None
    else if t != "" && t[0] == '+' then Unsigned(t[1..])
    else Unsigned(t)
  }

  /** Math.round: to the nearest integer, a half upwards. */
  function Round(d: Decimal): int {
    (2 * d.units + Pow10(d.scale)) / (2 * Pow10(d.scale))
  }

  // ---- fsNum ----

  function Normalise(t: string): string {
    if MatchesGroupedOrFraction(t) && CountSeps(t) >= 2 then
      var lastSep := if LastSep(t) == Some(',') then ',' else '.';
      var other := if lastSep == '.' then ',' else '.';
      var u := ReplaceFirst(RemoveAll(t, other), lastSep, ".");
      if EndsInThousand(u) then ReplaceFirst(u, '.', "") else u
    else if MatchesGrouped(t) then RemoveAll(RemoveAll(t, '.'), ',')
    else ReplaceFirst(t, ',', ".")
  }

  function FsNum(s: Option<string>): Option<int> {
    if s.None? then None
    else
      var t := TrimTail(DropMarks(s.value));
      if t == "" || (forall i | 0 <= i < |t| :: !IsDigit(t[i])) then None
      else
        var n := Number(Normalise(t));
        if n.Some? then Some(Round(n.value)) else None
  }

  // ---- how a printer shows a counter ----

  function DigitChar(d: nat): (c: char)
    requires d < 10
    ensures IsDigit(c) && DigitOf(c) == d
  {
    ('0' as int + d) as char
  }

  /** Three digits, zeros in front. */
  function Pad3(n: nat): (s: string)
    requires n < 1000
    ensures |s| == 3 && AllDigits(s)
  {
    [DigitChar(n / 100), DigitChar(n / 10 % 10), DigitChar(n % 10)]
  }

  /** Up to three digits, no zeros in front. */
  function Small(n: nat): (s: string)
    requires n < 1000
    ensures 1 <= |s| <= 3 && AllDigits(s)
  {
    if n < 10 then [DigitChar(n)] else if n < 100 then [DigitChar(n / 10), DigitChar(n % 10)] else Pad3(n)
  }

  /** What stands before the first separator, and the rest. */
  function Head(n: nat): (s: string)
    ensures 1 <= |s| <= 3 && AllDigits(s)
  {
    if n < 1000 then Small(n) else Head(n / 1000)
  }

  function Groups(n: nat, sep: char): string {
    if n < 1000 then "" else Groups(n / 1000, sep) + [sep] + Pad3(n % 1000)
  }

  /** The number `n` grouped by thousands: 1053000 as 1,053,000. */
  function Grouped(n: nat, sep: char): string {
    Head(n) + Groups(n, sep)
  }

  /** The digits of `n` alone. */
  function Plain(n: nat): (s: string)
    ensures AllDigits(s) && s != ""
  {
    if n < 1000 then Small(n) else Plain(n / 1000) + Pad3(n % 1000)
  }

  // ---- facts about the text operations ----

  predicate Numeric(s: string) {
    forall i | 0 <= i < |s| :: IsDigit(s[i]) || IsSep(s[i]) || s[i] == '-'
  }

  lemma {:induction false} DropsNothing(s: string)
    requires Numeric(s)
    ensures DropMarks(s) == s
    decreases |s|
  {
    if s != "" {
      DropsNothing(s[1..]);
      assert s == [s[0]] + s[1..];
    }
  }

  lemma {:induction false} RemoveJoin(a: string, b: string, c: char)
    ensures RemoveAll(a + b, c) == RemoveAll(a, c) + RemoveAll(b, c)
    decreases |a|
  {
    if a == "" {
      assert a + b == b;
    } else {
      assert (a + b)[1..] == a[1..] + b;
      RemoveJoin(a[1..], b, c);
    }
  }

  lemma {:induction false} RemoveAbsent(s: string, c: char)
    requires c !in s
    ensures RemoveAll(s, c) == s
    decreases |s|
  {
    if s != "" {
      RemoveAbsent(s[1..], c);
      assert s == [s[0]] + s[1..];
    }
  }

  lemma {:induction false} CountJoin(a: string, b: string)
    ensures CountSeps(a + b) == CountSeps(a) + CountSeps(b)
    decreases |a|
  {
    if a == "" {
      assert a + b == b;
    } else {
      assert (a + b)[1..] == a[1..] + b;
      CountJoin(a[1..], b);
    }
  }

  lemma {:induction false} NoSepsInDigits(s: string)
    requires AllDigits(s)
    ensures CountSeps(s) == 0
    decreases |s|
  {
    if s != "" {
      NoSepsInDigits(s[1..]);
    }
  }

  lemma {:induction false} LastSepOf(a: string, c: char, digits: string)
    requires IsSep(c) && AllDigits(digits)
    ensures LastSep(a + [c] + digits) == Some(c)
    decreases |digits|
  {
    var s := a + [c] + digits;
    if digits == "" {
      assert s[|s| - 1] == c;
    } else {
      assert s[..|s| - 1] == a + [c] + digits[..|digits| - 1];
      LastSepOf(a, c, digits[..|digits| - 1]);
    }
  }

  /** The first `c` is right behind a text that has none. */
  lemma ReplaceBehind(a: string, c: char, b: string, to: string)
    requires c !in a
    ensures ReplaceFirst(a + [c] + b, c, to) == a + to + b
  {
    var s := a + [c] + b;
    assert s[|a|] == c && forall j | 0 <= j < |a| :: s[j] == a[j];
    assert IndexOf(s, c) == |a|;
    assert s[..|a|] == a && s[|a| + 1..] == b;
  }

  lemma {:induction false} OnlyGroupsJoin(x: string, y: string)
    requires OnlyGroups(x) && GroupFirst(y) && |y| == 4
    ensures OnlyGroups(x + y)
    decreases |x|
  {
    assert (x + y)[4..] == x[4..] + y && (x + y)[1..4] == x[1..4];
    if x[4..] == "" {
      assert x[4..] + y == y && y[4..] == "";
    } else {
      OnlyGroupsJoin(x[4..], y);
    }
  }

  lemma {:induction false} GroupsThenFraction(x: string, f: string)
    requires OnlyGroups(x) && (f == "" || Fraction(f))
    ensures GroupsAndFraction(x + f)
    decreases |x|
  {
    assert (x + f)[4..] == x[4..] + f && (x + f)[1..4] == x[1..4];
    if x[4..] == "" {
      assert x[4..] + f == f;
    } else {
      GroupsThenFraction(x[4..], f);
    }
  }

  // ---- what stands around or between the digits ----

  /** A percent sign, an asterisk, or white space of any kind: tabs, no-break, thin and ideographic spaces. */
  predicate IsMark(c: char) {
    || c == '%' || c == '*' || c == ' ' || c == '\t' || c == '\n' || c == '\r' || c == '\U{000b}' || c == '\U{000c}'
    || c == '\U{00a0}' || c == '\U{1680}' || '\U{2000}' <= c <= '\U{200a}' || c == '\U{2028}' || c == '\U{2029}'
    || c == '\U{202f}' || c == '\U{205f}' || c == '\U{3000}' || c == '\U{feff}'
  }

  lemma {:induction false} DropJoin(a: string, b: string)
    ensures DropMarks(a + b) == DropMarks(a) + DropMarks(b)
    decreases |a|
  {
    hide IsSpace;
    if a == "" {
      assert a + b == b;
    } else {
      assert (a + b)[1..] == a[1..] + b;
      DropJoin(a[1..], b);
    }
  }

  lemma OneMark(m: char)
    ensures DropMarks([m]) == if IsMark(m) then "" else [m]
  {
    assert [m][1..] == "";
  }

  lemma MarkDropped(a: string, m: char, b: string)
    requires IsMark(m)
    ensures DropMarks(a + [m] + b) == DropMarks(a + b)
  {
    hide DropMarks;
    DropJoin(a, b);
    DropJoin(a + [m], b);
    DropJoin(a, [m]);
    OneMark(m);
    assert DropMarks(a) + "" == DropMarks(a);
  }

  /** Such marks do not matter, wherever they stand: "30 %", "1 053*" and "1.053" with a no-break space. */
  lemma MarksDoNotMatter(a: string, m: char, b: string)
    requires IsMark(m)
    ensures FsNum(Some(a + [m] + b)) == FsNum(Some(a + b))
  {
    hide DropMarks, TrimTail, Normalise, Number, Round;
    MarkDropped(a, m, b);
  }

  lemma TailTrimmed(a: string, c: char)
    requires !IsDigit(c) && c != '.' && c != ',' && c != '-'
    ensures TrimTail(DropMarks(a + [c])) == TrimTail(DropMarks(a))
  {
    hide DropMarks;
    DropJoin(a, [c]);
    OneMark(c);
    var t := DropMarks(a);
    assert IsMark(c) ==> t + "" == t;
    assert (t + [c])[..|t|] == t;
  }

  /** Nor does a unit behind the number. */
  lemma TailDoesNotMatter(a: string, c: char)
    requires !IsDigit(c) && c != '.' && c != ',' && c != '-'
    ensures FsNum(Some(a + [c])) == FsNum(Some(a))
  {
    hide DropMarks, TrimTail, Normalise, Number, Round;
    TailTrimmed(a, c);
  }

  // ---- facts about values ----

  lemma {:induction false} ValueJoin(a: string, b: string)
    requires AllDigits(a) && AllDigits(b)
    ensures AllDigits(a + b) && Value(a + b) == Value(a) * Pow10(|b|) + Value(b)
    decreases |b|
  {
    if b == "" {
      assert a + b == a;
    } else {
      var b' := b[..|b| - 1];
      ValueJoin(a, b');
      assert (a + b)[..|a + b| - 1] == a + b';
      Shift(Value(a), Pow10(|b'|), Value(b'), DigitOf(b[|b| - 1]));
    }
  }

  lemma Shift(v: nat, p: nat, w: nat, d: nat)
    ensures (v * p + w) * 10 + d == v * (10 * p) + (w * 10 + d)
  {
  }

  lemma Pow10Three()
    ensures Pow10(0) == 1 && Pow10(1) == 10 && Pow10(3) == 1000
  {
    assert Pow10(2) == 10 * Pow10(1);
  }

  lemma ValueOfOne(c: char)
    requires IsDigit(c)
    ensures AllDigits([c]) && Value([c]) == DigitOf(c)
  {
    assert [c][..0] == "";
  }

  lemma ValueOfPad3(n: nat)
    requires n < 1000
    ensures Value(Pad3(n)) == n
  {
    var a, b, c := DigitChar(n / 100), DigitChar(n / 10 % 10), DigitChar(n % 10);
    assert Pad3(n) == ([a] + [b]) + [c];
    ValueOfOne(a);
    ValueOfOne(b);
    ValueOfOne(c);
    ValueJoin([a], [b]);
    ValueJoin([a] + [b], [c]);
    Pow10Three();
    assert n / 10 == (n / 100) * 10 + n / 10 % 10;
  }

  lemma ValueOfSmall(n: nat)
    requires n < 1000
    ensures Value(Small(n)) == n
  {
    if n < 10 {
      ValueOfOne(DigitChar(n));
    } else if n < 100 {
      assert Small(n) == [DigitChar(n / 10)] + [DigitChar(n % 10)];
      ValueOfOne(DigitChar(n / 10));
      ValueOfOne(DigitChar(n % 10));
      ValueJoin([DigitChar(n / 10)], [DigitChar(n % 10)]);
      Pow10Three();
    } else {
      ValueOfPad3(n);
    }
  }

  lemma {:induction false} ValueOfPlain(n: nat)
    ensures Value(Plain(n)) == n
  {
    if n < 1000 {
      ValueOfSmall(n);
    } else {
      ValueOfPlain(n / 1000);
      ValueOfPad3(n % 1000);
      ValueJoin(Plain(n / 1000), Pad3(n % 1000));
      Pow10Three();
    }
  }

  // ---- facts about grouped numbers ----

  lemma {:induction false} GroupsAreGroups(n: nat, sep: char)
    requires n >= 1000 && IsSep(sep)
    ensures OnlyGroups(Groups(n, sep))
  {
    var last := [sep] + Pad3(n % 1000);
    assert last[1..4] == Pad3(n % 1000) && last[4..] == "";
    if n / 1000 < 1000 {
      assert Groups(n, sep) == last;
    } else {
      GroupsAreGroups(n / 1000, sep);
      OnlyGroupsJoin(Groups(n / 1000, sep), last);
      assert Groups(n, sep) == Groups(n / 1000, sep) + last;
    }
  }

  lemma {:induction false} GroupsAreNumeric(n: nat, sep: char)
    requires IsSep(sep)
    ensures forall i | 0 <= i < |Groups(n, sep)| :: IsDigit(Groups(n, sep)[i]) || Groups(n, sep)[i] == sep
  {
    if n >= 1000 {
      GroupsAreNumeric(n / 1000, sep);
    }
  }

  lemma {:induction false} GroupedIsPlain(n: nat, sep: char)
    requires IsSep(sep)
    ensures RemoveAll(Grouped(n, sep), sep) == Plain(n)
  {
    if n < 1000 {
      assert Grouped(n, sep) == Small(n);
      RemoveAbsent(Small(n), sep);
    } else {
      var last := [sep] + Pad3(n % 1000);
      assert Grouped(n, sep) == Grouped(n / 1000, sep) + last;
      GroupedIsPlain(n / 1000, sep);
      RemoveJoin(Grouped(n / 1000, sep), last, sep);
      RemoveAbsent(Pad3(n % 1000), sep);
      assert last[1..] == Pad3(n % 1000);
    }
  }

  lemma {:induction false} GroupCount(n: nat, sep: char)
    requires IsSep(sep)
    ensures CountSeps(Grouped(n, sep)) >= 1 <==> n >= 1000
    ensures CountSeps(Grouped(n, sep)) >= 2 <==> n >= 1_000_000
  {
    if n < 1000 {
      assert Grouped(n, sep) == Small(n);
      NoSepsInDigits(Small(n));
    } else {
      var last := [sep] + Pad3(n % 1000);
      assert Grouped(n, sep) == Grouped(n / 1000, sep) + last;
      GroupCount(n / 1000, sep);
      CountJoin(Grouped(n / 1000, sep), last);
      NoSepsInDigits(Pad3(n % 1000));
      assert last[1..] == Pad3(n % 1000);
    }
  }

  /** A printed counter passes the cleaning untouched, and has a digit. */
  lemma CleanText(t: string, u: string, v: Option<Decimal>)
    requires Numeric(t) && t != "" && IsDigit(t[|t| - 1])
    requires u == Normalise(t) && v == Number(u)
    ensures FsNum(Some(t)) == if v.Some? then Some(Round(v.value)) else None
  {
    DropsNothing(t);
    assert TrimTail(t) == t;
  }

  lemma GroupedIsNumeric(n: nat, sep: char)
    requires IsSep(sep)
    ensures Numeric(Grouped(n, sep)) && IsDigit(Grouped(n, sep)[|Grouped(n, sep)| - 1])
    ensures forall c | IsSep(c) && c != sep :: c !in Grouped(n, sep)
  {
    GroupsAreNumeric(n, sep);
  }

  lemma PlainWhole(a: string)
    requires AllDigits(a) && a != ""
    ensures Number(a) == Some(Decimal(Value(a), 0))
  {
    assert IndexOf(a, '.') == |a| && a[..|a|] == a;
  }

  lemma PointAt(a: string, f: string)
    requires '.' !in a
    ensures IndexOf(a + "." + f, '.') == |a|
  {
    var t := a + "." + f;
    assert t[|a|] == '.';
    assert forall i | 0 <= i < |a| :: t[i] == a[i];
  }

  lemma UnsignedAt(t: string, a: string, f: string)
    requires AllDigits(a) && AllDigits(f) && a != "" && f != ""
    requires |t| == |a| + 1 + |f| && t[..|a|] == a && t[|a| + 1..] == f && IndexOf(t, '.') == |a|
    ensures Unsigned(t) == Some(Decimal(Joined(a, f), |f|))
  {
    hide Joined;
  }

  lemma UnsignedDecimal(a: string, f: string)
    requires AllDigits(a) && AllDigits(f) && a != "" && f != ""
    ensures Unsigned(a + "." + f) == Some(Decimal(Joined(a, f), |f|))
  {
    hide Joined, Unsigned;
    var t := a + "." + f;
    PointAt(a, f);
    assert t[..|a|] == a && t[|a| + 1..] == f;
    UnsignedAt(t, a, f);
  }

  lemma PlainDecimal(a: string, f: string)
    requires AllDigits(a) && AllDigits(f) && a != "" && f != ""
    ensures Number(a + "." + f) == Some(Decimal(Joined(a, f), |f|))
  {
    UnsignedDecimal(a, f);
    assert (a + "." + f)[0] == a[0];
  }

  /** A separator behind a point spoils the number. */
  lemma NotANumber(t: string, i: nat, j: nat)
    requires i < j < |t| && t[i] == '.' && IsSep(t[j]) && IsDigit(t[0])
    ensures Number(t) == None
  {
    var k := IndexOf(t, '.');
    assert k <= i;
    assert t[k + 1..][j - k - 1] == t[j];
  }

  lemma ReplaceAbsent(t: string, c: char, to: string)
    requires c !in t
    ensures ReplaceFirst(t, c, to) == t
  {
  }

  // ---- with a fraction ----

  /** The mark and one digit. */
  function Tail(mark: char, d: nat): (f: string)
    requires IsSep(mark) && d < 10
    ensures Fraction(f) && |f| == 2
  {
    var f := [mark, DigitChar(d)];
    assert f[1..] == [DigitChar(d)];
    f
  }

  /** Digits without separators and a fraction: only the mark is replaced. */
  lemma DigitsWithFraction(a: string, mark: char, d: nat)
    requires AllDigits(a) && IsSep(mark) && d < 10
    ensures Normalise(a + Tail(mark, d)) == a + "." + [DigitChar(d)]
  {
    var f := Tail(mark, d);
    var t := a + f;
    CountJoin(a, f);
    NoSepsInDigits(a);
    NoSepsInDigits(f[1..]);
    assert CountSeps(t) == 1;
    forall p | 1 <= p <= 3 && p <= |t| ensures !OnlyGroups(t[p..]) {
      assert p < |a| ==> t[p..][0] == a[p];
    }
    assert !MatchesGrouped(t);
    assert t == a + [mark] + [DigitChar(d)] && a + "." + [DigitChar(d)] == a + ['.'] + [DigitChar(d)];
    if mark == ',' {
      ReplaceBehind(a, ',', [DigitChar(d)], ".");
    } else {
      ReplaceAbsent(t, ',', ".");
    }
  }

  lemma {:induction false} GroupedMatches(n: nat, sep: char, f: string)
    requires n >= 1000 && IsSep(sep) && (f == "" || Fraction(f))
    ensures MatchesGroupedOrFraction(Grouped(n, sep) + f)
    ensures f == "" ==> MatchesGrouped(Grouped(n, sep))
  {
    var h, g := Head(n), Groups(n, sep);
    var t := h + g + f;
    GroupsAreGroups(n, sep);
    GroupsThenFraction(g, f);
    assert t[..|h|] == h && t[|h|..] == g + f;
    assert Grouped(n, sep)[..|h|] == h && Grouped(n, sep)[|h|..] == g;
  }

  function Other(sep: char): char {
    if sep == '.' then ',' else '.'
  }

  /** Two separators or more: what `Normalise` does, step by step. */
  lemma NormaliseTwo(t: string, mark: char, x: string, u: string)
    requires MatchesGroupedOrFraction(t) && CountSeps(t) >= 2
    requires IsSep(mark) && LastSep(t) == Some(mark)
    requires x == RemoveAll(t, Other(mark)) && u == ReplaceFirst(x, mark, ".")
    ensures Normalise(t) == if EndsInThousand(u) then ReplaceFirst(u, '.', "") else u
  {
  }

  lemma WithFractionRemoved(n: nat, sep: char, mark: char, d: nat)
    requires n >= 1000 && IsSep(sep) && IsSep(mark) && sep != mark && d < 10
    ensures RemoveAll(Grouped(n, sep) + Tail(mark, d), sep) == Plain(n) + [mark] + [DigitChar(d)]
  {
    var f := Tail(mark, d);
    RemoveJoin(Grouped(n, sep), f, sep);
    GroupedIsPlain(n, sep);
    RemoveAbsent(f, sep);
  }

  lemma TwoSeparators(n: nat, sep: char, mark: char, d: nat)
    requires n >= 1000 && IsSep(sep) && IsSep(mark) && d < 10
    ensures CountSeps(Grouped(n, sep) + Tail(mark, d)) >= 2
  {
    GroupCount(n, sep);
    CountJoin(Grouped(n, sep), Tail(mark, d));
  }

  lemma LargeWithFraction(n: nat, sep: char, mark: char, d: nat)
    requires n >= 1000 && IsSep(sep) && IsSep(mark) && sep != mark && d < 10
    ensures Normalise(Grouped(n, sep) + Tail(mark, d)) == Plain(n) + "." + [DigitChar(d)]
  {
    var a, g, z := Plain(n), Grouped(n, sep), [DigitChar(d)];
    var t := g + Tail(mark, d);
    var u := a + "." + z;
    assert LastSep(t) == Some(mark) by {
      LastSepOf(g, mark, z);
      assert t == g + [mark] + z;
    }
    assert MatchesGroupedOrFraction(t) by { GroupedMatches(n, sep, Tail(mark, d)); }
    TwoSeparators(n, sep, mark, d);
    WithFractionRemoved(n, sep, mark, d);
    ReplaceBehind(a, mark, z, ".");
    assert Other(mark) == sep;
    NormaliseTwo(t, mark, a + [mark] + z, u);
    assert !EndsInThousand(u) by {
      assert |u| >= 4 ==> u[|u| - 4] == a[|a| - 2];
    }
  }

  lemma RoundsTenth(n: nat, d: nat)
    requires d < 10
    ensures Round(Decimal(n * 10 + d, 1)) == n + if d >= 5 then 1 else 0
  {
    Pow10Three();
  }

  lemma FractionNormalised(n: nat, sep: char, mark: char, d: nat)
    requires IsSep(sep) && IsSep(mark) && sep != mark && d < 10
    ensures Normalise(Grouped(n, sep) + Tail(mark, d)) == Plain(n) + "." + [DigitChar(d)]
  {
    if n < 1000 {
      assert Grouped(n, sep) == Small(n);
      DigitsWithFraction(Small(n), mark, d);
    } else {
      LargeWithFraction(n, sep, mark, d);
    }
  }

  lemma TenthsRead(n: nat, d: nat)
    requires d < 10
    ensures Number(Plain(n) + "." + [DigitChar(d)]) == Some(Decimal(n * 10 + d, 1))
  {
    PlainDecimal(Plain(n), [DigitChar(d)]);
    ValueOfPlain(n);
    ValueOfOne(DigitChar(d));
    Pow10Three();
  }

  /** A grouped counter with the other mark and one decimal is read as the number printed, rounded. */
  lemma PrintedWithFraction(n: nat, sep: char, mark: char, d: nat)
    requires IsSep(sep) && IsSep(mark) && sep != mark && d < 10
    ensures FsNum(Some(Grouped(n, sep) + [mark, DigitChar(d)])) == Some(n + if d >= 5 then 1 else 0)
  {
    var t, u := Grouped(n, sep) + Tail(mark, d), Plain(n) + "." + [DigitChar(d)];
    GroupedIsNumeric(n, sep);
    FractionNormalised(n, sep, mark, d);
    TenthsRead(n, d);
    CleanText(t, u, Some(Decimal(n * 10 + d, 1)));
    RoundsTenth(n, d);
  }

  /** So is one without groups, whichever the mark. */
  lemma UngroupedWithFraction(n: nat, mark: char, d: nat)
    requires IsSep(mark) && d < 10
    ensures FsNum(Some(Plain(n) + [mark, DigitChar(d)])) == Some(n + if d >= 5 then 1 else 0)
  {
    hide Normalise, FsNum, Plain;
    var t, u := Plain(n) + Tail(mark, d), Plain(n) + "." + [DigitChar(d)];
    DigitsWithFraction(Plain(n), mark, d);
    TenthsRead(n, d);
    CleanText(t, u, Some(Decimal(n * 10 + d, 1)));
    RoundsTenth(n, d);
  }

  /**
   * Below 2^50 neighbouring doubles are at most an eighth apart, so the double nearest to `n` and `d` tenths is
   * within a sixteenth of it, and a half is exact. Any such number rounds to the same integer.
   */
  lemma DoublesRoundAlike(n: nat, d: nat, x: real)
    requires d < 10 && n as real + d as real / 10.0 - 1.0 / 16.0 <= x <= n as real + d as real / 10.0 + 1.0 / 16.0
    requires d == 5 ==> x == n as real + 0.5
    ensures (x + 0.5).Floor == n + if d >= 5 then 1 else 0
  {
    var k: int := n + if d >= 5 then 1 else 0;
    assert d <= 4 ==> d as real / 10.0 <= 0.4;
    assert d >= 6 ==> d as real / 10.0 >= 0.6;
    assert k as real <= x + 0.5 < k as real + 1.0;
  }

  /** At 2^50 doubles are a quarter apart, the one nearest to four tenths is a half, and it rounds up. */
  lemma FourTenthsRoundUp(n: nat)
    ensures forall q: int :: q != 2 ==> AbsDistance(q, 4) > 0.1
    ensures AbsDistance(2, 4) == 0.1
    ensures (n as real + 2.0 / 4.0 + 0.5).Floor == n + 1
  {
    forall q: int | q != 2 ensures AbsDistance(q, 4) > 0.1 {
      assert q <= 1 || q >= 3;
      assert q <= 1 ==> q as real / 4.0 <= 0.25;
      assert q >= 3 ==> q as real / 4.0 >= 0.75;
    }
  }

  /** How far `q` quarters are from `d` tenths. */
  function AbsDistance(q: int, d: nat): real {
    var gap := q as real / 4.0 - d as real / 10.0;
    if gap >= 0.0 then gap else -gap
  }

  // ---- without one ----

  lemma WholeUpTo999(n: nat, sep: char)
    requires n < 1000 && IsSep(sep)
    ensures Normalise(Grouped(n, sep)) == Plain(n)
  {
    var t := Small(n);
    assert Grouped(n, sep) == t;
    NoSepsInDigits(t);
    forall p | 1 <= p <= 3 && p <= |t| ensures !OnlyGroups(t[p..]) {
      assert p < |t| ==> t[p..][0] == t[p];
    }
    ReplaceAbsent(t, ',', ".");
  }

  lemma BothRemoved(n: nat, sep: char)
    requires IsSep(sep)
    ensures RemoveAll(RemoveAll(Grouped(n, sep), '.'), ',') == Plain(n)
  {
    GroupedIsPlain(n, sep);
    if sep == '.' {
      RemoveAbsent(Plain(n), ',');
    } else {
      GroupedIsNumeric(n, sep);
      RemoveAbsent(Grouped(n, sep), '.');
    }
  }

  lemma NormaliseOne(t: string, u: string)
    requires MatchesGrouped(t) && CountSeps(t) < 2 && u == RemoveAll(RemoveAll(t, '.'), ',')
    ensures Normalise(t) == u
  {
  }

  lemma WholeUpToAMillion(n: nat, sep: char)
    requires 1000 <= n < 1_000_000 && IsSep(sep)
    ensures Normalise(Grouped(n, sep)) == Plain(n)
  {
    GroupCount(n, sep);
    GroupedMatches(n, sep, "");
    BothRemoved(n, sep);
    NormaliseOne(Grouped(n, sep), Plain(n));
  }

  lemma SplitAtFirst(n: nat, sep: char)
    requires n >= 1000 && IsSep(sep)
    ensures |Groups(n, sep)| >= 4 && Grouped(n, sep) == Head(n) + [sep] + Groups(n, sep)[1..]
  {
    GroupsAreGroups(n, sep);
    GroupsAreNumeric(n, sep);
  }

  /** From a million on, what is left of the text after the first separator is replaced. */
  lemma WholeLastSep(n: nat, sep: char)
    requires n >= 1000 && IsSep(sep)
    ensures LastSep(Grouped(n, sep)) == Some(sep)
  {
    assert Grouped(n, sep) == Grouped(n / 1000, sep) + [sep] + Pad3(n % 1000);
    LastSepOf(Grouped(n / 1000, sep), sep, Pad3(n % 1000));
  }

  /** How the text behind the first separator ends. */
  lemma RestEnds(n: nat, sep: char)
    requires n >= 1_000_000 && IsSep(sep)
    ensures |Groups(n, sep)| >= 8
    ensures var rest := Groups(n, sep)[1..]; rest[|rest| - 4] == sep && rest[|rest| - 3..] == Pad3(n % 1000)
  {
    SplitAtFirst(n / 1000, sep);
    assert Groups(n, sep) == Groups(n / 1000, sep) + [sep] + Pad3(n % 1000);
  }

  lemma WholeReplaced(n: nat, sep: char, to: string)
    requires n >= 1_000_000 && IsSep(sep)
    ensures |Groups(n, sep)| >= 8
    ensures ReplaceFirst(Grouped(n, sep), sep, to) == Head(n) + to + Groups(n, sep)[1..]
  {
    RestEnds(n, sep);
    SplitAtFirst(n, sep);
    ReplaceBehind(Head(n), sep, Groups(n, sep)[1..], to);
  }

  lemma EndOfText(a: string, rest: string)
    requires |rest| >= 4 && AllDigits(rest[|rest| - 3..])
    ensures EndsInThousand(a + rest) <==> rest[|rest| - 4] == '.'
  {
    var u := a + rest;
    assert u[|u| - 3..] == rest[|rest| - 3..];
  }

  /** From a million on, the first separator becomes a point, and a point goes if the text ends in a group. */
  lemma WholeNormalised(n: nat, sep: char)
    requires n >= 1_000_000 && IsSep(sep)
    ensures |Groups(n, sep)| >= 8
    ensures var u := Head(n) + "." + Groups(n, sep)[1..];
         Normalise(Grouped(n, sep)) == if sep == '.' then ReplaceFirst(u, '.', "") else u
  {
    hide Normalise, RemoveAll, ReplaceFirst, LastSep, CountSeps, MatchesGroupedOrFraction;
    var t := Grouped(n, sep);
    RestEnds(n, sep);
    var u := Head(n) + "." + Groups(n, sep)[1..];
    GroupCount(n, sep);
    assert MatchesGroupedOrFraction(t) by {
      GroupedMatches(n, sep, "");
      assert t + "" == t;
    }
    WholeLastSep(n, sep);
    GroupedIsNumeric(n, sep);
    RemoveAbsent(t, Other(sep));
    WholeReplaced(n, sep, ".");
    NormaliseTwo(t, sep, t, u);
    EndOfText(Head(n) + ".", Groups(n, sep)[1..]);
  }

  lemma FirstPointGone(a: string, rest: string)
    requires AllDigits(a)
    ensures ReplaceFirst(a + "." + rest, '.', "") == a + rest
  {
    ReplaceBehind(a, '.', rest, "");
    assert a + "" == a;
  }

  lemma PointsNormalised(n: nat)
    requires n >= 1_000_000
    ensures |Groups(n, '.')| >= 8
    ensures Normalise(Grouped(n, '.')) == Head(n) + Groups(n, '.')[1..]
  {
    WholeNormalised(n, '.');
    FirstPointGone(Head(n), Groups(n, '.')[1..]);
  }

  lemma CommasAreNoNumber(n: nat)
    requires n >= 1_000_000
    ensures |Groups(n, ',')| >= 8 && Number(Head(n) + "." + Groups(n, ',')[1..]) == None
  {
    RestEnds(n, ',');
    var u := Head(n) + "." + Groups(n, ',')[1..];
    NotANumber(u, |Head(n)|, |u| - 4);
  }

  lemma RoundsThousandth(n: nat)
    requires n >= 1_000_000
    ensures Round(Decimal(n, 3)) < n
  {
    Pow10Three();
  }

  lemma OneGroupJoined(m: nat)
    requires 1000 <= m < 1_000_000
    ensures |Groups(m, '.')| >= 4 && Head(m) + Groups(m, '.')[1..] == Plain(m)
  {
    assert Groups(m / 1000, '.') == "";
    assert Groups(m, '.') == ['.'] + Pad3(m % 1000);
  }

  lemma TwoPointsLeft(n: nat)
    requires 1_000_000 <= n < 1_000_000_000
    ensures Number(Plain(n / 1000) + "." + Pad3(n % 1000)) == Some(Decimal(n, 3))
  {
    hide Number, Plain, Pad3, Value;
    PlainDecimal(Plain(n / 1000), Pad3(n % 1000));
    ValueOfPlain(n / 1000);
    ValueOfPad3(n % 1000);
    Pow10Three();
  }

  lemma MorePointsLeft(n: nat)
    requires n >= 1_000_000_000
    ensures |Groups(n / 1000, '.')| >= 8
    ensures Number(Head(n / 1000) + Groups(n / 1000, '.')[1..] + "." + Pad3(n % 1000)) == None
  {
    RestEnds(n / 1000, '.');
    var a := Head(n / 1000) + Groups(n / 1000, '.')[1..];
    NotANumber(a + "." + Pad3(n % 1000), |a| - 4, |a|);
  }

  lemma PointsAreNotTheNumber(n: nat)
    requires n >= 1_000_000
    ensures |Groups(n, '.')| >= 8
    ensures var v := Number(Head(n) + Groups(n, '.')[1..]); v.Some? ==> Round(v.value) < n
  {
    RestEnds(n, '.');
    var m, k := n / 1000, Pad3(n % 1000);
    SplitAtFirst(m, '.');
    var a := Head(m) + Groups(m, '.')[1..];
    assert Head(n) + Groups(n, '.')[1..] == a + "." + k by {
      assert Groups(n, '.') == Groups(m, '.') + ['.'] + k;
    }
    if m < 1_000_000 {
      OneGroupJoined(m);
      TwoPointsLeft(n);
      RoundsThousandth(n);
    } else {
      MorePointsLeft(n);
    }
  }

  lemma BelowAMillion(n: nat, sep: char)
    requires IsSep(sep) && n < 1_000_000
    ensures Normalise(Grouped(n, sep)) == Plain(n)
    ensures Number(Plain(n)) == Some(Decimal(n, 0))
  {
    if n < 1000 {
      WholeUpTo999(n, sep);
    } else {
      WholeUpToAMillion(n, sep);
    }
    PlainWhole(Plain(n));
    ValueOfPlain(n);
  }

  lemma FromAMillion(n: nat, sep: char)
    requires IsSep(sep) && n >= 1_000_000
    ensures var v := Number(Normalise(Grouped(n, sep))); v.Some? ==> Round(v.value) < n
  {
    if sep == ',' {
      WholeNormalised(n, ',');
      CommasAreNoNumber(n);
    } else {
      PointsNormalised(n);
      PointsAreNotTheNumber(n);
    }
  }

  lemma RoundsWhole(n: nat)
    ensures Round(Decimal(n, 0)) == n
  {
  }

  lemma DigitsAlone(a: string)
    requires AllDigits(a)
    ensures Normalise(a) == a
  {
    forall p | 1 <= p <= 3 && p <= |a| ensures !OnlyGroups(a[p..]) {
      assert p < |a| ==> a[p..][0] == a[p];
    }
    NoSepsInDigits(a);
    ReplaceAbsent(a, ',', ".");
  }

  lemma MinusAlone(a: string)
    requires AllDigits(a)
    ensures Normalise("-" + a) == "-" + a
  {
    var t := "-" + a;
    assert forall p | 1 <= p <= 3 && p <= |t| :: t[..p][0] == t[0];
    assert t[1..] == a;
    NoSepsInDigits(a);
    ReplaceAbsent(t, ',', ".");
  }

  /** Digits alone are the number they say. */
  lemma DigitsAreRead(n: nat)
    ensures FsNum(Some(Plain(n))) == Some(n)
  {
    hide Normalise, Plain, FsNum, Round;
    DigitsAlone(Plain(n));
    PlainWhole(Plain(n));
    ValueOfPlain(n);
    CleanText(Plain(n), Plain(n), Some(Decimal(n, 0)));
    RoundsWhole(n);
  }

  /** And behind a minus the negative one. */
  lemma MinusIsRead(n: nat)
    ensures FsNum(Some("-" + Plain(n))) == Some(-(n as int))
  {
    hide Normalise, Plain, FsNum, Round, Number;
    MinusAlone(Plain(n));
    PlainWhole(Plain(n));
    ValueOfPlain(n);
    MinusOf(Plain(n), Decimal(n, 0));
    CleanText("-" + Plain(n), "-" + Plain(n), Some(Decimal(-(n as int), 0)));
    MinusRounds(n);
  }

  lemma MinusOf(a: string, v: Decimal)
    requires AllDigits(a) && a != "" && Number(a) == Some(v)
    ensures Number("-" + a) == Some(Decimal(-v.units, v.scale))
  {
    hide Unsigned;
    assert ("-" + a)[1..] == a;
  }

  lemma MinusRounds(n: nat)
    ensures Round(Decimal(-(n as int), 0)) == -(n as int)
  {
  }

  lemma ReadBelow(n: nat, sep: char, u: string)
    requires IsSep(sep) && n < 1_000_000
    requires u == Plain(n)
    ensures FsNum(Some(Grouped(n, sep))) == Some(n)
  {
    BelowAMillion(n, sep);
    GroupedIsNumeric(n, sep);
    CleanText(Grouped(n, sep), u, Some(Decimal(n, 0)));
    RoundsWhole(n);
  }

  lemma ReadAbove(n: nat, sep: char, u: string)
    requires IsSep(sep) && n >= 1_000_000
    requires u == Normalise(Grouped(n, sep))
    ensures FsNum(Some(Grouped(n, sep))) != Some(n)
  {
    FromAMillion(n, sep);
    GroupedIsNumeric(n, sep);
    CleanText(Grouped(n, sep), u, Number(u));
  }

  /**
   * A grouped counter without a decimal mark is read for what it is below a million, and only there:
   * with two groups or more, all of them behind the same separator, the last is taken for a fraction.
   */
  lemma PrintedWhole(n: nat, sep: char)
    requires IsSep(sep)
    ensures FsNum(Some(Grouped(n, sep))) == Some(n) <==> n < 1_000_000
  {
    if n < 1_000_000 {
      ReadBelow(n, sep, Plain(n));
    } else {
      ReadAbove(n, sep, Normalise(Grouped(n, sep)));
    }
  }
}
