/** Managed release ids: their format and their calendar day. */
module CleanupNames {

  predicate IsDigit(c: char) { '0' <= c <= '9' }

  predicate IsHex(c: char) { IsDigit(c) || 'a' <= c <= 'f' }

  predicate Digits(s: string) { forall c <- s :: IsDigit(c) }

  predicate Hexes(s: string) { forall c <- s :: IsHex(c) }

  /** `YYYYMMDD-HHMMSS-<12 hex>-<8 hex>-astra-saas`, or `clawith-saas`. */
  predicate IsReleaseId(s: string) {
    && |s| > 38
    && Digits(s[..8]) && s[8] == '-' && Digits(s[9..15]) && s[15] == '-'
    && Hexes(s[16..28]) && s[28] == '-' && Hexes(s[29..37]) && s[37] == '-'
    && (s[38..] == "astra-saas" || s[38..] == "clawith-saas")
  }

  function Number(s: string): nat
    requires Digits(s)
  {
    if s == "" then 0
    else
      assert s[|s| - 1] in s && forall c <- s[..|s| - 1] :: c in s;
      10 * Number(s[..|s| - 1]) + (s[|s| - 1] as int - '0' as int)
  }

  predicate Leap(y: nat) { y % 4 == 0 && (y % 100 != 0 || y % 400 == 0) }

  const DAYS_BEFORE := [0, 31, 59, 90, 120, 151, 181, 212, 243, 273, 304, 334]

  /** The proleptic Gregorian ordinal of a date. */
  function Ordinal(y: nat, m: nat, d: nat): int
    requires 1 <= m <= 12
  {
    var p := y - 1;
    365 * p + p / 4 - p / 100 + p / 400 + DAYS_BEFORE[m - 1] + (if m > 2 && Leap(y) then 1 else 0) + d
  }

  /** The month of a release id is one that exists; the day is taken as it is. */
  predicate Dated(s: string) {
    && |s| >= 8 && Digits(s[..8])
    && Digits(s[4..6])
    && 1 <= Number(s[4..6]) <= 12
  }

  lemma PartsAreDigits(s: string, i: nat, j: nat)
    requires i <= j <= |s| && Digits(s)
    ensures Digits(s[i..j])
  {
    forall c | c in s[i..j] ensures IsDigit(c) { assert c in s; }
  }

  /** The day of a release id as an ordinal. */
  function Day(s: string): int {
    if Dated(s) then
      PartsAreDigits(s[..8], 0, 4);
      PartsAreDigits(s[..8], 6, 8);
      assert s[..8][0..4] == s[..4] && s[..8][6..8] == s[6..8];
      Ordinal(Number(s[..4]), Number(s[4..6]), Number(s[6..8]))
    else 0
  }
}
