/** Python's `str.isspace`, `str.strip` and `str.lower`. */
module PythonText {

  /** `str.isspace` on one character. */
  predicate IsSpace(c: char) {
    var n := c as int;
    9 <= n <= 13 || 28 <= n <= 32 || n == 0x85 || n == 0xa0 || n == 0x1680 || 0x2000 <= n <= 0x200a
    || n == 0x2028 || n == 0x2029 || n == 0x202f || n == 0x205f || n == 0x3000
  }

  function StripLeft(s: string): string {
    if s != "" && IsSpace(s[0]) then StripLeft(s[1..]) else s
  }

  function StripRight(s: string): string {
    if s != "" && IsSpace(s[|s| - 1]) then StripRight(s[..|s| - 1]) else s
  }

  function Strip(s: string): string { StripRight(StripLeft(s)) }

  /** `str.lower` of a text without letters outside ASCII. */
  function Lower(s: string): string {
    seq(|s|, i requires 0 <= i < |s| => if 'A' <= s[i] <= 'Z' then s[i] + 32 as char else s[i])
  }

  // ----- What stripping leaves

  lemma {:induction false} StripLeftEnds(s: string)
    ensures var t := StripLeft(s);
      |t| <= |s| && (t != "" ==> !IsSpace(t[0])) && (s != "" && !IsSpace(s[0]) ==> t == s)
  {
    if s != "" && IsSpace(s[0]) { StripLeftEnds(s[1..]); }
  }

  lemma {:induction false} StripRightEnds(s: string)
    ensures var t := StripRight(s);
      t <= s && (t != "" ==> !IsSpace(t[|t| - 1])) && (s != "" && !IsSpace(s[|s| - 1]) ==> t == s)
  {
    if s != "" && IsSpace(s[|s| - 1]) { StripRightEnds(s[..|s| - 1]); }
  }

  /** The stripped text neither starts nor ends with whitespace; such a text stays whole. */
  lemma StripEnds(s: string)
    ensures var t := Strip(s);
      |t| <= |s| && (t != "" ==> !IsSpace(t[0]) && !IsSpace(t[|t| - 1]))
    ensures s == "" || (!IsSpace(s[0]) && !IsSpace(s[|s| - 1])) ==> Strip(s) == s
  {
    hide IsSpace, StripLeft, StripRight;
    StripLeftEnds(s);
    StripRightEnds(StripLeft(s));
    if s == "" { EmptyStrips(); }
  }

  lemma EmptyStrips()
    ensures StripLeft("") == "" && StripRight("") == ""
  {}
}
