/** The text clean-up an import row goes through before it is compared with the catalog. */
module CardText {
  import opened Text
  import opened Orders
  import opened Natural

  /** `str::to_lowercase`, and the folding of names that the sealed importer also uses. Nothing here
      depends on which maps they are. */
  datatype Folding = Folding(lower: string -> string, fold: string -> string)

  // ----- Collector numbers -----

  function NormalizeNumber(raw: string): string {
    var s := Trim(raw);
    if s != "" && AllDigits(s) then
      var stripped := StripZeros(s);
      if stripped == "" then "0" else stripped
    else s
  }

  function NumberCore(f: Folding, number: string, setCode: string): string {
    var lower, prefix := f.lower(Trim(number)), f.lower(setCode);
    NormalizeNumber(if prefix <= lower then TrimStart(lower[|prefix|..]) else lower)
  }

  lemma DigitsNeedNoTrim(s: string)
    requires AllDigits(s)
    ensures Trim(s) == s
  {
    assert TrimStart(s) == s;
    assert s != [] ==> IsDigit(s[|s| - 1]);
  }

  /** Two runs of digits are the same collector number exactly when they denote the same number. */
  lemma NumbersNormalizeByValue(a: string, b: string)
    requires AllDigits(a) && AllDigits(b) && a != "" && b != ""
    ensures NormalizeNumber(a) == NormalizeNumber(b) <==> Value(a) == Value(b)
  {
    DigitsNeedNoTrim(a);
    DigitsNeedNoTrim(b);
    DigitsCompareAsNumbers(a, b);
    var sa, sb := StripZeros(a), StripZeros(b);
    CmpTextIsAnOrder(sa, sb, sa);
    assert CmpDigits(a, b) == Equal <==> sa == sb;
    assert "0"[0] == '0';
  }

  lemma TrimmedEnds(s: string)
    ensures var t := Trim(s); t == "" || (!IsWhitespace(t[0]) && !IsWhitespace(t[|t| - 1]))
  {
    TrimEndStops(TrimStart(s));
    TrimStartStops(s);
  }

  lemma {:induction false} TrimEndStops(s: string)
    ensures var t := TrimEnd(s); t == "" || !IsWhitespace(t[|t| - 1])
  {
    if s != [] && IsWhitespace(s[|s| - 1]) {
      TrimEndStops(s[..|s| - 1]);
    }
  }

  lemma {:induction false} TrimStartStops(s: string)
    ensures var t := TrimStart(s); t == "" || !IsWhitespace(t[0])
  {
    if s != [] && IsWhitespace(s[0]) {
      TrimStartStops(s[1..]);
    }
  }

  lemma TrimOfTrimmed(s: string)
    requires s == "" || (!IsWhitespace(s[0]) && !IsWhitespace(s[|s| - 1]))
    ensures Trim(s) == s
  {
  }

  /** Normalizing twice is normalizing once, so a number the catalog stores normalized is found. */
  lemma NormalizeIsIdempotent(raw: string)
    ensures NormalizeNumber(NormalizeNumber(raw)) == NormalizeNumber(raw)
  {
    var s := Trim(raw);
    TrimmedEnds(raw);
    if s != "" && AllDigits(s) {
      var t := NormalizeNumber(raw);
      DigitsNeedNoTrim(t);
      assert t == "0" || StripZeros(t) == t;
    } else {
      TrimOfTrimmed(s);
    }
  }

  // ----- Trailing descriptors -----

  /** The opener of a group that a text ends with the closer of. */
  function OpenerFor(s: string): (open: char)
    ensures open in {'(', '[', ' '}
  {
    if s == "" then ' '
    else if s[|s| - 1] == ')' then '('
    else if s[|s| - 1] == ']' then '['
    else ' '
  }

  /** `rfind`, or the length when there is none. */
  function LastIndexOf(s: string, c: char): (i: nat)
    ensures i <= |s| && (i < |s| ==> s[i] == c)
    ensures i == |s| <==> c !in s
    ensures forall k | i < k < |s| :: s[k] != c
  {
    if s == "" then 0
    else if s[|s| - 1] == c then |s| - 1
    else
      var i := LastIndexOf(s[..|s| - 1], c);
      assert s == s[..|s| - 1] + [s[|s| - 1]];
      if i == |s| - 1 then |s| else i
  }

  predicate EndsWithAGroup(s: string) {
    OpenerFor(s) != ' ' && OpenerFor(s) in s
  }

  /** What is left in front of the last group. */
  function BeforeLastGroup(s: string): (t: string)
    requires EndsWithAGroup(s)
    ensures |t| < |s| && t <= s
  {
    TrimEnd(s[..LastIndexOf(s, OpenerFor(s))])
  }

  function StripGroups(s: string): (t: string)
    ensures t <= s && !EndsWithAGroup(t)
    decreases |s|
  {
    if EndsWithAGroup(s) then StripGroups(BeforeLastGroup(s)) else s
  }

  method StripTrailingDescriptors(name: string) returns (s: string)
    ensures s == StripGroups(Trim(name))
  {
    s := Trim(name);
    while true
      invariant StripGroups(s) == StripGroups(Trim(name))
      decreases |s|
    {
      var open := OpenerFor(s);
      if open == ' ' {
        break;
      }
      var pos := LastIndexOf(s, open);
      if pos == |s| {
        break;
      }
      s := TrimEnd(s[..pos]);
    }
  }

  /** A descriptor added to the end of a name is gone again, brackets of either kind, whatever is in it
      except another opener of its kind. */
  lemma DescriptorsAreDropped(name: string, descriptor: string)
    ensures '(' !in descriptor ==> StripGroups(name + "(" + descriptor + ")") == StripGroups(TrimEnd(name))
    ensures '[' !in descriptor ==> StripGroups(name + "[" + descriptor + "]") == StripGroups(TrimEnd(name))
  {
    if '(' !in descriptor {
      GroupIsDropped(name, descriptor, '(', ')');
      assert "(" == ['('] && ")" == [')'];
    }
    if '[' !in descriptor {
      GroupIsDropped(name, descriptor, '[', ']');
      assert "[" == ['['] && "]" == [']'];
    }
  }

  lemma GroupIsDropped(name: string, descriptor: string, open: char, close: char)
    requires open !in descriptor && (open, close) in {('(', ')'), ('[', ']')}
    ensures StripGroups(name + [open] + descriptor + [close]) == StripGroups(TrimEnd(name))
  {
    var s := name + [open] + descriptor + [close];
    assert s[|s| - 1] == close && OpenerFor(s) == open;
    assert s[|name|] == open && open in s;
    var i := LastIndexOf(s, open);
    assert forall k | |name| < k < |s| - 1 :: s[k] == descriptor[k - |name| - 1];
    assert i == |name|;
    assert s[..i] == name;
  }
}
