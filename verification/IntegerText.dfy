/** The integers a source may write: what Python's `int(token, 0)` makes of an operand, over ASCII, and what
    an integer looks like, told without it. */
module IntegerText {
  import opened Wrappers

  // ---- `int(token, 0)` ----

  /** The value of a digit or letter. */
  function DigitOf(c: char): Option<nat> {
    if '0' <= c <= '9' then Some((c - '0') as nat)
    else if 'a' <= c <= 'z' then Some((c - 'a') as nat + 10)
    else if 'A' <= c <= 'Z' then Some((c - 'A') as nat + 10)
    else None
  }

  predicate DigitIn(c: char, base: nat) { DigitOf(c).Some? && DigitOf(c).value < base }

  /** Digits with single underscores between them, by Horner's rule. */
  function Horner(s: string, base: nat): Option<nat> {
    if s == "" || !DigitIn(s[|s| - 1], base) then None
    else
      var n, d := |s| - 1, DigitOf(s[|s| - 1]).value;
      if n == 0 then Some(d)
      else
        match Horner(if s[n - 1] == '_' then s[..n - 1] else s[..n], base)
        case None => None
        case Some(v) => Some(v * base + d)
  }

  /** The base a marker after a zero stands for. */
  function BaseOf(c: char): Option<nat> {
    if c == 'x' || c == 'X' then Some(16)
    else if c == 'o' || c == 'O' then Some(8)
    else if c == 'b' || c == 'B' then Some(2)
    else None
  }

  /** An integer without a sign: behind a marker one underscore may stand, and a decimal that starts with a
      zero must be zero. */
  function Unsigned(s: string): Option<nat> {
    if |s| >= 2 && s[0] == '0' && BaseOf(s[1]).Some? then
      Horner(if |s| >= 3 && s[2] == '_' then s[3..] else s[2..], BaseOf(s[1]).value)
    else
      match Horner(s, 10)
      case None => None
      case Some(v) => if s[0] == '0' && v != 0 then None else Some(v)
  }

  /** `_try_int`. */
  function ParseInt(s: string): Option<int> {
    if s != "" && (s[0] == '-' || s[0] == '+') then
      match Unsigned(s[1..])
      case None => None
      case Some(v) => if s[0] == '-' then Some(-(v as int)) else Some(v)
    else
      match Unsigned(s)
      case None => None
      case Some(v) => Some(v)
  }

  // ---- what an integer looks like ----

  /** A digit as it is written, an underscore in front of it or not. */
  datatype Digit = Digit(symbol: char, apart: bool)

  /** Decimal digits, or those of the base a marker stands for. */
  datatype Numeral = Decimal(digits: seq<Digit>) | Marked(marker: char, apart: bool, digits: seq<Digit>)

  datatype Signed = Signed(sign: string, numeral: Numeral)

  predicate ValidDigits(ds: seq<Digit>, base: nat) {
    ds != [] && !ds[0].apart && forall i :: 0 <= i < |ds| ==> DigitIn(ds[i].symbol, base)
  }

  predicate ValidNumeral(n: Numeral) {
    match n
    case Decimal(ds) => ValidDigits(ds, 10) && (ds[0].symbol == '0' ==> forall i :: 0 <= i < |ds| ==> ds[i].symbol == '0')
    case Marked(marker, _, ds) => BaseOf(marker).Some? && ValidDigits(ds, BaseOf(marker).value)
  }

  predicate ValidSigned(t: Signed) { t.sign in {"", "+", "-"} && ValidNumeral(t.numeral) }

  function WriteDigits(ds: seq<Digit>): string {
    if ds == [] then "" else WriteDigits(ds[..|ds| - 1]) + ((if ds[|ds| - 1].apart then "_" else "") + [ds[|ds| - 1].symbol])
  }

  function WriteNumeral(n: Numeral): string {
    match n
    case Decimal(ds) => WriteDigits(ds)
    case Marked(marker, apart, ds) => ['0', marker] + ((if apart then "_" else "") + WriteDigits(ds))
  }

  function WriteSigned(t: Signed): string { t.sign + WriteNumeral(t.numeral) }

  function Power(base: nat, k: nat): nat { if k == 0 then 1 else base * Power(base, k - 1) }

  /** Every digit counts by its place. */
  function PlaceValue(ds: seq<Digit>, base: nat): nat {
    if ds == [] then 0 else Worth(ds[0]) * Power(base, |ds| - 1) + PlaceValue(ds[1..], base)
  }

  function Worth(d: Digit): nat { if DigitOf(d.symbol).Some? then DigitOf(d.symbol).value else 0 }

  function NumeralValue(n: Numeral): nat
    requires ValidNumeral(n)
  {
    match n
    case Decimal(ds) => PlaceValue(ds, 10)
    case Marked(marker, _, ds) => PlaceValue(ds, BaseOf(marker).value)
  }

  function ValueOf(t: Signed): int
    requires ValidSigned(t)
  {
    if t.sign == "-" then -(NumeralValue(t.numeral) as int) else NumeralValue(t.numeral)
  }

  // ---- the characters, written out ----

  const LOWER := "0123456789abcdefghijklmnopqrstuvwxyz"
  const UPPER := "0123456789ABCDEFGHIJKLMNOPQRSTUVWXYZ"

  /** A digit is worth its place in the row of digits and letters, in either case. */
  lemma DigitsInARow(c: char, v: nat)
    ensures |LOWER| == |UPPER| == 36
    ensures DigitOf(c) == Some(v) <==> v < 36 && (c == LOWER[v] || c == UPPER[v])
  {
    if DigitOf(c) == Some(v) {
      RowAt(v);
    }
    if v < 36 {
      RowAt(v);
    }
  }

  lemma RowAt(v: nat)
    requires v < 36
    ensures |LOWER| == |UPPER| == 36
    ensures LOWER[v] as int == if v < 10 then 48 + v else 87 + v
    ensures UPPER[v] as int == if v < 10 then 48 + v else 55 + v
  {
  }

  lemma Markers(c: char, base: nat)
    ensures BaseOf(c) == Some(base)
       <==> (c in {'x', 'X'} && base == 16) || (c in {'o', 'O'} && base == 8) || (c in {'b', 'B'} && base == 2)
  {
  }

  // ---- digits ----

  /** Place by place from the front is Horner's rule from the back. */
  lemma {:induction false} PlacesAreHorner(ds: seq<Digit>, base: nat)
    requires ds != []
    ensures PlaceValue(ds, base) == PlaceValue(ds[..|ds| - 1], base) * base + Worth(ds[|ds| - 1])
  {
    hide Worth;
    var n := |ds| - 1;
    if n > 0 {
      PlacesAreHorner(ds[1..], base);
      assert ds[1..][..n - 1] == ds[..n][1..];
      OnePlaceUp(Worth(ds[0]), base, Power(base, n - 1), PlaceValue(ds[..n][1..], base));
    } else {
      assert ds[1..] == [] && ds[..0] == [];
    }
  }

  lemma OnePlaceUp(d: nat, b: nat, p: nat, rest: nat)
    ensures d * (b * p) + rest * b == (d * p + rest) * b
  {
  }

  lemma {:induction false} DigitsRead(ds: seq<Digit>, base: nat)
    requires ValidDigits(ds, base)
    ensures Horner(WriteDigits(ds), base) == Some(PlaceValue(ds, base))
  {
    var n := |ds| - 1;
    var s := WriteDigits(ds);
    PlacesAreHorner(ds, base);
    assert s[|s| - 1] == ds[n].symbol;
    if n == 0 {
      assert ds[..0] == [] && WriteDigits(ds[..0]) == "";
    } else {
      var front := WriteDigits(ds[..n]);
      DigitsRead(ds[..n], base);
      LastIsDigit(ds[..n], base);
      if ds[n].apart {
        assert s[..|s| - 2] == front && s[|s| - 2] == '_';
      } else {
        assert s[..|s| - 1] == front;
      }
    }
  }

  lemma LastIsDigit(ds: seq<Digit>, base: nat)
    requires ValidDigits(ds, base)
    ensures WriteDigits(ds) != "" && WriteDigits(ds)[|WriteDigits(ds)| - 1] != '_'
  {
  }

  /** And every text Horner's rule accepts is some digits written down. */
  lemma {:induction false} DigitsFound(s: string, base: nat) returns (ds: seq<Digit>)
    requires Horner(s, base).Some?
    ensures ValidDigits(ds, base) && WriteDigits(ds) == s
  {
    var n := |s| - 1;
    if n == 0 {
      ds := [Digit(s[0], false)];
      assert ds[..0] == [];
    } else {
      var apart := s[n - 1] == '_';
      var front := DigitsFound(if apart then s[..n - 1] else s[..n], base);
      ds := front + [Digit(s[n], apart)];
      assert ds[..|ds| - 1] == front;
    }
  }

  lemma {:induction false} DigitsAndUnderscores(ds: seq<Digit>, base: nat)
    requires ValidDigits(ds, base)
    ensures var s := WriteDigits(ds);
      s != "" && s[0] == ds[0].symbol && forall i :: 0 <= i < |s| ==> s[i] == '_' || DigitIn(s[i], base)
  {
    var n := |ds| - 1;
    if n > 0 {
      DigitsAndUnderscores(ds[..n], base);
    } else {
      assert ds[..0] == [];
    }
  }

  lemma {:induction false} NothingButZeros(ds: seq<Digit>)
    requires forall i :: 0 <= i < |ds| ==> DigitIn(ds[i].symbol, 10)
    ensures PlaceValue(ds, 10) == 0 <==> forall i :: 0 <= i < |ds| ==> ds[i].symbol == '0'
  {
    var n := |ds| - 1;
    if n >= 0 {
      NothingButZeros(ds[..n]);
      PlacesAreHorner(ds, 10);
      assert Worth(ds[n]) == 0 <==> ds[n].symbol == '0';
    }
  }

  // ---- integers ----

  lemma NumeralRead(n: Numeral)
    requires ValidNumeral(n)
    ensures Unsigned(WriteNumeral(n)) == Some(NumeralValue(n))
    ensures WriteNumeral(n) != "" && '0' <= WriteNumeral(n)[0] <= '9'
  {
    hide Horner, WriteDigits, PlaceValue;
    var s := WriteNumeral(n);
    match n
    case Decimal(ds) =>
      DigitsRead(ds, 10);
      DigitsAndUnderscores(ds, 10);
      NothingButZeros(ds);
      assert |s| >= 2 ==> s[1] == '_' || DigitIn(s[1], 10);
    case Marked(marker, apart, ds) =>
      var base := BaseOf(marker).value;
      DigitsRead(ds, base);
      DigitsAndUnderscores(ds, base);
      if apart {
        assert s[2] == '_' && s[3..] == WriteDigits(ds);
      } else {
        assert s[2..] == WriteDigits(ds) && s[2] == WriteDigits(ds)[0];
      }
  }

  lemma NumeralFound(s: string) returns (n: Numeral)
    requires Unsigned(s).Some?
    ensures ValidNumeral(n) && WriteNumeral(n) == s
  {
    hide Horner, WriteDigits, PlaceValue;
    if |s| >= 2 && s[0] == '0' && BaseOf(s[1]).Some? {
      var apart := |s| >= 3 && s[2] == '_';
      var rest := if apart then s[3..] else s[2..];
      var ds := DigitsFound(rest, BaseOf(s[1]).value);
      n := Marked(s[1], apart, ds);
      assert s == ['0', s[1]] + ((if apart then "_" else "") + rest);
    } else {
      var ds := DigitsFound(s, 10);
      DigitsRead(ds, 10);
      DigitsAndUnderscores(ds, 10);
      NothingButZeros(ds);
      n := Decimal(ds);
    }
  }

  lemma SignedRead(t: Signed)
    requires ValidSigned(t)
    ensures ParseInt(WriteSigned(t)) == Some(ValueOf(t))
  {
    hide Unsigned, WriteNumeral, NumeralValue, ValidNumeral;
    NumeralRead(t.numeral);
    var s := WriteSigned(t);
    if t.sign == "" {
      assert s == WriteNumeral(t.numeral);
    } else {
      assert s[1..] == WriteNumeral(t.numeral);
    }
  }

  lemma NothingIsNoInteger()
    ensures Unsigned("") == None
  {
  }

  lemma SignedFound(s: string) returns (t: Signed)
    requires ParseInt(s).Some?
    ensures ValidSigned(t) && WriteSigned(t) == s
  {
    hide Unsigned, WriteNumeral, ValidNumeral;
    NothingIsNoInteger();
    if s[0] == '-' {
      var n := NumeralFound(s[1..]);
      t := Signed("-", n);
    } else if s[0] == '+' {
      var n := NumeralFound(s[1..]);
      t := Signed("+", n);
    } else {
      var n := NumeralFound(s);
      t := Signed("", n);
    }
  }

  /** `s` is some way of writing `v`. */
  ghost predicate Writes(s: string, v: int) { exists t: Signed :: ValidSigned(t) && WriteSigned(t) == s && ValueOf(t) == v }

  /** A token is an integer exactly when it is written as one: a sign or none, decimal digits or a marker and
      digits of its base, single underscores between digits and behind the marker, no leading zero but in
      zero. */
  lemma ReadsExactly(s: string, v: int)
    ensures ParseInt(s) == Some(v) <==> Writes(s, v)
  {
    hide ParseInt, WriteSigned, ValueOf, ValidSigned;
    if ParseInt(s) == Some(v) {
      var t := SignedFound(s);
      SignedRead(t);
      assert ValidSigned(t) && WriteSigned(t) == s && ValueOf(t) == v;
    }
    if Writes(s, v) {
      var t: Signed :| ValidSigned(t) && WriteSigned(t) == s && ValueOf(t) == v;
      SignedRead(t);
    }
  }

  // ---- an integer in decimal ----

  function Shown(n: nat): string {
    if n < 10 then ['0' + n as char] else Shown(n / 10) + ['0' + (n % 10) as char]
  }

  lemma {:induction false} ShownRead(n: nat)
    ensures Shown(n) != "" && Horner(Shown(n), 10) == Some(n) && (Shown(n)[0] == '0' <==> n == 0)
    ensures forall i :: 0 <= i < |Shown(n)| ==> '0' <= Shown(n)[i] <= '9'
  {
    if n >= 10 {
      ShownRead(n / 10);
      var s := Shown(n);
      assert s[..|s| - 1] == Shown(n / 10);
    }
  }

  /** Every integer is read back from its decimal text. */
  lemma DecimalRead(v: int)
    ensures ParseInt((if v < 0 then "-" else "") + Shown(if v < 0 then -v else v)) == Some(v)
  {
    hide Horner, Shown;
    var n := if v < 0 then -v else v;
    ShownRead(n);
    var s := (if v < 0 then "-" else "") + Shown(n);
    assert Shown(n) == if v < 0 then s[1..] else s;
    assert Unsigned(Shown(n)) == Some(n);
  }
}
