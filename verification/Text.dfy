/** The parts of Rust's `str` that the modelled code leans on. Unicode case mapping is not
    spelled out: the functions that need it take it as an argument. */
module Text {
  /** The code points with the Unicode White_Space property, which is what `trim` removes. */
  predicate IsWhitespace(c: char) {
    || '\t' <= c <= '\r'
    || c == ' '
    || c == '\U{0085}' || c == '\U{00A0}' || c == '\U{1680}'
    || '\U{2000}' <= c <= '\U{200A}'
    || c == '\U{2028}' || c == '\U{2029}' || c == '\U{202F}' || c == '\U{205F}' || c == '\U{3000}'
  }

  predicate IsDigit(c: char) {
    '0' <= c <= '9'
  }

  predicate AllDigits(s: string) {
    forall i | 0 <= i < |s| :: IsDigit(s[i])
  }

  function DigitValue(c: char): nat
    requires IsDigit(c)
  {
    c as int - '0' as int
  }

  /** The number a run of digits denotes. */
  function Value(s: string): nat
    requires AllDigits(s)
  {
    if s == [] then 0 else 10 * Value(s[..|s| - 1]) + DigitValue(s[|s| - 1])
  }

  function TrimStart(s: string): string {
    if s != [] && IsWhitespace(s[0]) then TrimStart(s[1..]) else s
  }

  function TrimEnd(s: string): (t: string)
    ensures t <= s
  {
    if s != [] && IsWhitespace(s[|s| - 1]) then TrimEnd(s[..|s| - 1]) else s
  }

  function Trim(s: string): string {
    TrimEnd(TrimStart(s))
  }

  /** Trimming leaves nothing exactly of a text that is all white space. */
  lemma {:induction false} BlankText(s: string)
    ensures Trim(s) == "" <==> forall i | 0 <= i < |s| :: IsWhitespace(s[i])
  {
    if s != [] && IsWhitespace(s[0]) {
      BlankText(s[1..]);
      assert forall i | 0 < i < |s| :: s[i] == s[1..][i - 1];
    } else if s != [] {
      KeepsFirst(s);
    }
  }

  lemma {:induction false} KeepsFirst(s: string)
    requires s != [] && !IsWhitespace(s[0])
    ensures TrimEnd(s) != ""
  {
    if IsWhitespace(s[|s| - 1]) {
      KeepsFirst(s[..|s| - 1]);
    }
  }

  /** `trim_start_matches('0')`. */
  function StripZeros(s: string): (t: string)
    ensures t == [] || t[0] != '0'
    ensures |t| <= |s| && t == s[|s| - |t|..]
    ensures AllDigits(s) ==> AllDigits(t)
  {
    if s != [] && s[0] == '0' then StripZeros(s[1..]) else s
  }

  /** ASCII case folding: `to_ascii_lowercase`, and what SQLite's NOCASE compares by. */
  function LowerChar(c: char): char {
    if 'A' <= c <= 'Z' then c + 32 as char else c
  }

  function AsciiLower(s: string): (t: string)
    ensures |t| == |s|
  {
    if s == [] then [] else [LowerChar(s[0])] + AsciiLower(s[1..])
  }

  predicate HasAt(text: string, part: string, i: int) {
    0 <= i <= |text| - |part| && text[i..i + |part|] == part
  }

  /** `str::contains`. */
  predicate Contains(text: string, part: string) {
    exists i | 0 <= i <= |text| :: HasAt(text, part, i)
  }

  /** Capital letters from A to Z become small, everything else stays. */
  lemma {:induction false} AsciiLowerMeaning(s: string, i: nat)
    requires i < |s|
    ensures AsciiLower(s)[i] as int == s[i] as int + (if 'A' <= s[i] <= 'Z' then 'a' as int - 'A' as int else 0)
  {
    if i > 0 {
      AsciiLowerMeaning(s[1..], i - 1);
    }
  }

  predicate AllBlank(s: string) {
    forall i | 0 <= i < |s| :: IsWhitespace(s[i])
  }

  lemma {:induction false} TrimmedFront(s: string) returns (front: string)
    ensures s == front + TrimStart(s) && AllBlank(front)
    ensures TrimStart(s) == "" || !IsWhitespace(TrimStart(s)[0])
  {
    front := "";
    if s != "" && IsWhitespace(s[0]) {
      var more := TrimmedFront(s[1..]);
      front := [s[0]] + more;
      assert s == [s[0]] + s[1..];
    }
  }

  lemma {:induction false} TrimmedBack(s: string) returns (back: string)
    ensures s == TrimEnd(s) + back && AllBlank(back)
    ensures TrimEnd(s) == "" || !IsWhitespace(TrimEnd(s)[|TrimEnd(s)| - 1])
  {
    back := "";
    if s != "" && IsWhitespace(s[|s| - 1]) {
      var more := TrimmedBack(s[..|s| - 1]);
      back := more + [s[|s| - 1]];
      assert s == s[..|s| - 1] + [s[|s| - 1]];
    }
  }

  /** Trimming takes white space off both ends, all of it and nothing else. */
  lemma TrimMeaning(s: string)
    ensures exists front, back :: AllBlank(front) && AllBlank(back) && s == front + Trim(s) + back
    ensures Trim(s) == "" || (!IsWhitespace(Trim(s)[0]) && !IsWhitespace(Trim(s)[|Trim(s)| - 1]))
  {
    var front := TrimmedFront(s);
    var back := TrimmedBack(TrimStart(s));
    assert s == front + Trim(s) + back;
  }
}
