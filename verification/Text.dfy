/** Options, and the handful of std::string and libc routines the parsers rest on. */
module Text {

  datatype Option<+T> = None | Some(value: T)

  const UINT32_MAX: nat := 0xFFFF_FFFF
  const UINT64_MAX: nat := 0xFFFF_FFFF_FFFF_FFFF

  /** `pat` occurs in `s` at position `i`. */
  predicate At(s: string, pat: string, i: nat) {
    i + |pat| <= |s| && s[i..i + |pat|] == pat
  }

  /** std::string::find: the first occurrence at or after `from`. */
  function Find(s: string, pat: string, from: nat): (r: Option<nat>)
    ensures r.Some? ==> from <= r.value && At(s, pat, r.value) && forall j :: from <= j < r.value ==> !At(s, pat, j)
    ensures r.None? ==> forall j :: from <= j ==> !At(s, pat, j)
    decreases |s| - from
  {
    if from + |pat| > |s| then None
    else if At(s, pat, from) then Some(from)
    else Find(s, pat, from + 1)
  }

  /** The first occurrence is unique, so a witness for it is what Find returns. */
  lemma FindIs(s: string, pat: string, from: nat, i: nat)
    requires from <= i && At(s, pat, i)
    requires forall j :: from <= j < i ==> !At(s, pat, j)
    ensures Find(s, pat, from) == Some(i)
  {
  }

  /** std::string::find for one character: the first index at or after `from` that holds it. */
  function IndexOf(s: string, c: char, from: nat): (r: Option<nat>)
    ensures r.Some? ==> from <= r.value < |s| && s[r.value] == c && forall j :: from <= j < r.value ==> s[j] != c
    ensures r.None? ==> forall j :: from <= j < |s| ==> s[j] != c
    decreases |s| - from
  {
    if from >= |s| then None
    else if s[from] == c then Some(from)
    else IndexOf(s, c, from + 1)
  }

  lemma IndexOfIs(s: string, c: char, from: nat, i: nat)
    requires from <= i < |s| && s[i] == c
    requires forall j :: from <= j < i ==> s[j] != c
    ensures IndexOf(s, c, from) == Some(i)
  {
  }

  predicate IsDigit(c: char) {
    '0' <= c <= '9'
  }

  predicate AllDigits(s: string) {
    forall i :: 0 <= i < |s| ==> IsDigit(s[i])
  }

  /** The number a run of decimal digits denotes; what strtoul computes when nothing overflows. */
  function Value(ds: string): nat
    requires AllDigits(ds)
  {
    if ds == "" then 0 else Value(ds[..|ds| - 1]) * 10 + (ds[|ds| - 1] - '0') as nat
  }

  /** std::to_string on an unsigned number. */
  function Dec(n: nat): (ds: string)
    ensures ds != "" && AllDigits(ds) && Value(ds) == n
  {
    if n < 10 then
      var d := [n as char + '0'];
      assert d[..0] == "";
      d
    else
      var ds := Dec(n / 10) + [(n % 10) as char + '0'];
      assert ds[..|ds| - 1] == Dec(n / 10);
      ds
  }

  /** How many leading characters are digits. */
  function DigitRun(text: string): (i: nat)
    ensures i <= |text| && AllDigits(text[..i]) && (i < |text| ==> !IsDigit(text[i]))
  {
    if text == "" || !IsDigit(text[0]) then 0
    else
      var more := DigitRun(text[1..]);
      assert text[..1 + more] == [text[0]] + text[1..][..more];
      1 + more
  }

  lemma DigitRunIs(text: string, i: nat)
    requires i <= |text| && (forall j :: 0 <= j < i ==> IsDigit(text[j])) && (i < |text| ==> !IsDigit(text[i]))
    ensures DigitRun(text) == i
  {
    var r := DigitRun(text);
    assert forall j :: 0 <= j < r ==> text[j] == text[..r][j];
  }
}
