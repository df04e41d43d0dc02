/** Python's `datetime.date`: proleptic Gregorian dates with years 1 to 9999, and the
    zero-padded decimal fields `strftime` and `isoformat` write. */
module Calendar {
  import opened Common
  import opened PyStr

  datatype Date = Date(year: int, month: int, day: int)

  const MinYear: int := 1
  const MaxYear: int := 9999

  predicate IsLeap(y: int) {
    y % 4 == 0 && (y % 100 != 0 || y % 400 == 0)
  }

  function DaysInMonth(y: int, m: int): (r: int)
    requires 1 <= m <= 12
    ensures 28 <= r <= 31
    ensures r == 29 <==> m == 2 && IsLeap(y)
  {
    if m == 2 then (if IsLeap(y) then 29 else 28)
    else if m == 4 || m == 6 || m == 9 || m == 11 then 30
    else 31
  }

  predicate ValidDate(d: Date) {
    MinYear <= d.year <= MaxYear && 1 <= d.month <= 12 && 1 <= d.day <= DaysInMonth(d.year, d.month)
  }

  /** A `datetime.date` object: always a valid date. */
  type PyDate = d: Date | ValidDate(d) witness Date(1, 1, 1)

  /** `date(y, m, d)`: the date, or ValueError (`None`) when a field is out of range. */
  function MakeDate(y: int, m: int, d: int): (r: Option<Date>)
    ensures r.Some? <==> ValidDate(Date(y, m, d))
    ensures r.Some? ==> r.value == Date(y, m, d)
  {
    if ValidDate(Date(y, m, d)) then Some(Date(y, m, d)) else None
  }

  /** A year and the same year 2000 years later are both leap or both not. */
  lemma LeapShift2000(y: int)
    ensures IsLeap(y) <==> IsLeap(y + 2000)
  {
    Shift4(y);
    Shift100(y);
    Shift400(y);
  }

  lemma Shift4(y: int)
    ensures (y + 2000) % 4 == y % 4
  {
  }

  lemma Shift100(y: int)
    ensures (y + 2000) % 100 == y % 100
  {
  }

  lemma Shift400(y: int)
    ensures (y + 2000) % 400 == y % 400
  {
  }

  // ---------------------------------------------------------------------------
  // zero-padded fields

  function Zeros(k: nat): (r: string)
    ensures |r| == k && AllDigits(r)
    ensures forall i | 0 <= i < k :: r[i] == '0'
  {
    if k == 0 then [] else "0" + Zeros(k - 1)
  }

  /** `n` written with at least `w` digits, zeros in front (`%0wd`). */
  function PadNat(n: nat, w: nat): (r: string)
    ensures AllDigits(r) && |r| >= w
  {
    var s := NatToString(n);
    if |s| >= w then s else Zeros(w - |s|) + s
  }

  lemma {:induction false} NatToStringLength(n: nat, w: nat)
    requires 1 <= w && n < Pow10(w)
    ensures |NatToString(n)| <= w
    decreases w
  {
    if w == 1 {
      assert Pow10(1) == 10;
    } else if n >= 10 {
      assert n / 10 < Pow10(w - 1);
      NatToStringLength(n / 10, w - 1);
    }
  }

  lemma {:induction false} DigitsValueZeros(k: nat)
    ensures DigitsValue(Zeros(k)) == 0
    decreases k
  {
    if k > 0 {
      var z := Zeros(k);
      assert z[..k - 1] == Zeros(k - 1);
      DigitsValueZeros(k - 1);
    }
  }

  /** A padded field has exactly `w` digits when the value fits, and reads back as the value. */
  lemma PadNatValue(n: nat, w: nat)
    requires 1 <= w && n < Pow10(w)
    ensures |PadNat(n, w)| == w
    ensures DigitsValue(PadNat(n, w)) == n
  {
    var s := NatToString(n);
    NatToStringLength(n, w);
    DigitsValueOfNatToString(n);
    if |s| < w {
      var z := Zeros(w - |s|);
      DigitsValueAppend(z, s);
      DigitsValueZeros(w - |s|);
      assert DigitsValue(z + s) == 0 * Pow10(|s|) + n;
      assert PadNat(n, w) == z + s;
    }
  }

  /** `date.isoformat()`: `YYYY-MM-DD`. */
  function IsoFormat(d: Date): string
    requires ValidDate(d)
  {
    PadNat(d.year, 4) + "-" + PadNat(d.month, 2) + "-" + PadNat(d.day, 2)
  }

  /** `date.strftime("%d/%m/%Y")` (four-digit years). */
  function FormatDmySlash(d: Date): string
    requires ValidDate(d)
  {
    PadNat(d.day, 2) + "/" + PadNat(d.month, 2) + "/" + PadNat(d.year, 4)
  }

  /** Text of the shape `\d{4}-\d{2}-\d{2}` (ASCII digits). */
  predicate IsIsoDateText(t: string) {
    |t| == 10 && t[4] == '-' && t[7] == '-'
    && forall k | 0 <= k < 10 && k != 4 && k != 7 :: IsDigit(t[k])
  }

  /** `date.fromisoformat(t)` on text of that shape: the date, or ValueError (`None`)
      when a field is out of range. */
  function FromIsoFormat(t: string): (r: Option<Date>)
    requires IsIsoDateText(t)
    ensures r.Some? ==> ValidDate(r.value)
  {
    MakeDate(DigitsValue(t[..4]), DigitsValue(t[5..7]), DigitsValue(t[8..]))
  }

  /** `a < b` on dates. */
  predicate Before(a: Date, b: Date) {
    a.year < b.year || (a.year == b.year && (a.month < b.month || (a.month == b.month && a.day < b.day)))
  }
}
