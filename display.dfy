/** What the component shows of its state: the CSS class of each cell and the
    tally text under each player. */
module Display {
  import opened Board

  /** The five cell states behind the signed disk codes: the sign says whose
      disk it is (positive the CPU's red, negative the human's green), the
      magnitude whether it belongs to a winning run (4) or not (1). */
  datatype Cell = Empty | Red | Green | RedWon | GreenWon

  function Code(c: Cell): (code: int)
    ensures (code == 0) <==> c == Empty
    ensures code > 0 <==> (c == Red || c == RedWon)
    ensures code < 0 <==> (c == Green || c == GreenWon)
    ensures (code == CpuWon || code == HumanWon) <==> (c == RedWon || c == GreenWon)
  {
    match c
    case Empty => 0
    case Red => Cpu
    case Green => Human
    case RedWon => CpuWon
    case GreenWon => HumanWon
  }

  function ClassName(c: Cell): string
  {
    match c
    case Empty => "no_coin"
    case Red => "red_coin"
    case Green => "green_coin"
    case RedWon => "red_won_coin"
    case GreenWon => "green_won_coin"
  }

  /** The class `cellMaker` gives the cell holding `code`. */
  function CellClass(code: int): (name: string)
    ensures forall c: Cell :: code == Code(c) ==> name == ClassName(c)
    ensures name == "no_coin" <==> (code != CpuWon && code != Cpu && code != Human && code != HumanWon)
  {
    match code
    case 4 => "red_won_coin"
    case 1 => "red_coin"
    case -1 => "green_coin"
    case -4 => "green_won_coin"
    case _ => "no_coin"
  }

  function DigitChar(d: nat): (ch: char)
    requires d < 10
    ensures '0' <= ch <= '9' && ch as int - '0' as int == d
  {
    ('0' as int + d) as char
  }

  predicate IsNumeral(s: string)
  {
    |s| > 0 && forall i :: 0 <= i < |s| ==> '0' <= s[i] <= '9'
  }

  /** `String(n)` for a non-negative integer: its decimal numeral. */
  function Decimal(n: nat): (s: string)
    ensures IsNumeral(s)
    ensures s[0] == '0' ==> n == 0
    ensures n < 10 <==> |s| == 1
  {
    if n < 10 then [DigitChar(n)] else Decimal(n / 10) + [DigitChar(n % 10)]
  }

  /** The value of a decimal numeral. */
  function ValueOf(s: string): nat
    requires IsNumeral(s)
  {
    var last := s[|s| - 1] as int - '0' as int;
    if |s| == 1 then last else 10 * ValueOf(s[..|s| - 1]) + last
  }

  /** The numeral `String(n)` produces reads back as n. */
  lemma {:induction false} DecimalRoundTrip(n: nat)
    ensures ValueOf(Decimal(n)) == n
  {
    if n >= 10 {
      var s := Decimal(n);
      assert s[..|s| - 1] == Decimal(n / 10);
      DecimalRoundTrip(n / 10);
    }
  }

  /** Distinct tallies are written with distinct numerals. */
  lemma DecimalInjective(m: nat, n: nat)
    requires Decimal(m) == Decimal(n)
    ensures m == n
  {
    DecimalRoundTrip(m);
    DecimalRoundTrip(n);
  }

  /** The tally text `proclaim(n)`: the count, then the singular only for exactly one. */
  function Proclaim(n: nat): (text: string)
    ensures |Decimal(n)| < |text| && text[..|Decimal(n)|] == Decimal(n)
    ensures text[|Decimal(n)|..] == " victory." <==> n == 1
    ensures text[|Decimal(n)|..] == " victory." || text[|Decimal(n)|..] == " victories."
  {
    Decimal(n) + " victor" + (if n == 1 then "y." else "ies.")
  }
}
