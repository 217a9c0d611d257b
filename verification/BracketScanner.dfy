/** The userscript's scan of a flight chunk for balanced `{...}` and `[...]` runs.

    What it looks for is defined here position by position: which characters are escaped, which lie
    in a string, and how deep the bracket that opened the run is, each reckoned from the opener. */
module BracketScanner {
  import opened Wrappers

  predicate IsOpener(c: char) {
    c == '{' || c == '['
  }

  function CloserOf(c: char): char {
    if c == '{' then '}' else ']'
  }

  /** The character at `k` follows a backslash that is not itself escaped. */
  predicate Escaped(text: string, i: nat, k: nat)
    requires i <= k <= |text|
    decreases k
  {
    k > i && text[k - 1] == '\\' && !Escaped(text, i, k - 1)
  }

  /** How many of the characters from `i` up to `k` satisfy `text[n] == c` without being escaped. */
  function Unescaped(text: string, i: nat, k: nat, c: char): nat
    requires i <= k <= |text|
    decreases k
  {
    if k == i then 0
    else Unescaped(text, i, k - 1, c) + (if text[k - 1] == c && !Escaped(text, i, k - 1) then 1 else 0)
  }

  /** An odd number of unescaped quotes lies between the opener and `k`. */
  predicate InString(text: string, i: nat, k: nat)
    requires i <= k <= |text|
  {
    Unescaped(text, i, k, '"') % 2 == 1
  }

  /** How many brackets `c` from `i` up to `k` stand outside strings and unescaped. */
  function Live(text: string, i: nat, k: nat, c: char): nat
    requires i <= k <= |text|
    decreases k
  {
    if k == i then 0
    else
      var here := text[k - 1] == c && !Escaped(text, i, k - 1) && !InString(text, i, k - 1);
      Live(text, i, k - 1, c) + (if here then 1 else 0)
  }

  /** The depth of the opener at `i` just before `k`. */
  function Depth(text: string, i: nat, k: nat): int
    requires i <= k <= |text| && i < |text|
  {
    Live(text, i, k, text[i]) - Live(text, i, k, CloserOf(text[i]))
  }

  /** The opener at `i` is closed by the character at `j`: its depth returns to zero there, and not
      before. */
  predicate Closes(text: string, i: nat, j: nat) {
    && i < j < |text|
    && IsOpener(text[i])
    && Depth(text, i, j + 1) == 0
    && forall k | i < k <= j :: Depth(text, i, k) > 0
  }

  /** Slices as (first, last) positions. */
  type Slices = seq<(nat, nat)>

  type Pairing = (nat, nat) -> bool

  function ClosesIn(text: string): Pairing {
    (i: nat, j: nat) => Closes(text, i, j)
  }

  /** The position lies inside a taken slice, or opens one. */
  predicate Covered(taken: Slices, i: nat) {
    exists n | 0 <= n < |taken| :: taken[n].0 <= i <= taken[n].1
  }

  predicate AllClose(closes: Pairing, taken: Slices) {
    forall n | 0 <= n < |taken| :: closes(taken[n].0, taken[n].1)
  }

  predicate LeftToRight(taken: Slices) {
    forall n, m | 0 <= n < m < |taken| :: taken[n].1 < taken[m].0
  }

  /** The slices a scan takes from `from` on: each closed by its own closer, disjoint and left to
      right, and no closable opener outside them. */
  ghost predicate IsScan(closes: Pairing, from: nat, taken: Slices) {
    && AllClose(closes, taken)
    && LeftToRight(taken)
    && (forall n | 0 <= n < |taken| :: from <= taken[n].0)
    && (forall i: nat, j: nat | from <= i && closes(i, j) :: Covered(taken, i))
  }

  function SliceOf(text: string, s: (nat, nat)): string {
    if s.0 <= s.1 < |text| then text[s.0..s.1 + 1] else ""
  }

  function BlobOf<V>(slice: string, parse: string -> Option<V>): seq<V> {
    if |slice| > 32 && parse(slice).Some? then [parse(slice).value] else []
  }

  function BlobAt<V>(text: string, parse: string -> Option<V>): ((nat, nat)) -> seq<V> {
    (s: (nat, nat)) => BlobOf(SliceOf(text, s), parse)
  }

  function Gather<T, V>(f: T -> seq<V>, s: seq<T>): seq<V> {
    if s == [] then [] else Gather(f, s[..|s| - 1]) + f(s[|s| - 1])
  }

  /** What is pushed: the slices longer than 32 characters that parse. */
  function Pushed<V>(text: string, taken: Slices, parse: string -> Option<V>): seq<V> {
    Gather(BlobAt(text, parse), taken)
  }

  lemma GatherOneMore<T, V>(f: T -> seq<V>, s: seq<T>, x: T)
    ensures Gather(f, s + [x]) == Gather(f, s) + f(x)
  {
    assert (s + [x])[..|s|] == s;
  }

  lemma PushSlice<V>(text: string, parse: string -> Option<V>, i: nat, j: nat, taken: Slices)
    requires i <= j < |text|
    ensures Pushed(text, taken + [(i, j)], parse) == Pushed(text, taken, parse) + BlobOf(text[i..j + 1], parse)
  {
    GatherOneMore(BlobAt(text, parse), taken, (i, j));
  }

  lemma OpenerIsDeep(text: string, i: nat)
    requires i < |text| && IsOpener(text[i])
    ensures Depth(text, i, i) == 0 && Depth(text, i, i + 1) == 1
  {}

  /** One character of the inner loop. */
  lemma DepthStep(text: string, i: nat, j: nat)
    requires i <= j < |text| && IsOpener(text[i])
    ensures var counted := !Escaped(text, i, j) && !InString(text, i, j);
            Depth(text, i, j + 1) == Depth(text, i, j)
              + (if counted && text[j] == text[i] then 1 else 0)
              - (if counted && text[j] == CloserOf(text[i]) then 1 else 0)
    ensures Escaped(text, i, j + 1) == (text[j] == '\\' && !Escaped(text, i, j))
    ensures InString(text, i, j + 1)
         == (InString(text, i, j) != (text[j] == '"' && !Escaped(text, i, j)))
  {}

  /** `j` is where the opener at `i` closes, or the end of the text if it never does. */
  ghost predicate FoundCloser(text: string, i: nat, j: nat) {
    if j < |text| then Closes(text, i, j) else forall k: nat :: !Closes(text, i, k)
  }

  /** The inner loop. */
  method FindCloser(text: string, i: nat) returns (j: nat)
    requires i < |text| && IsOpener(text[i])
    ensures i <= j <= |text|
    ensures FoundCloser(text, i, j)
  {
    var open := text[i];
    var close := if open == '{' then '}' else ']';
    var depth, inStr, esc := 0, false, false;
    j := i;
    while j < |text|
      invariant i <= j <= |text|
      invariant depth == Depth(text, i, j) && esc == Escaped(text, i, j) && inStr == InString(text, i, j)
      invariant forall k | i < k <= j :: Depth(text, i, k) > 0
    {
      var c := text[j];
      DepthStep(text, i, j);
      OpenerIsDeep(text, i);
      if esc {
        esc := false;
      } else if c == '\\' {
        esc := true;
      } else if c == '"' {
        inStr := !inStr;
      } else if inStr {
      } else if c == open {
        depth := depth + 1;
      } else if c == close {
        depth := depth - 1;
        if depth == 0 {
          return;
        }
      }
      j := j + 1;
    }
    NeverCloses(text, i);
  }

  ghost predicate IsExtraction<V>(text: string, parse: string -> Option<V>, out: seq<V>, taken: Slices) {
    IsScan(ClosesIn(text), 0, taken) && out == Pushed(text, taken, parse)
  }

  /** The blobs of a scan's slices, in order: those longer than 32 characters that parse. */
  ghost predicate Extracted<V>(text: string, parse: string -> Option<V>, out: seq<V>) {
    exists taken: Slices :: IsExtraction(text, parse, out, taken)
  }

  /** What one slice adds: its blob, if it is long enough and parses. */
  method ParseSlice<V>(slice: string, parse: string -> Option<V>) returns (blob: seq<V>)
    ensures blob == BlobOf(slice, parse)
  {
    blob := [];
    if |slice| > 32 {
      var parsed := parse(slice);
      if parsed.Some? {
        blob := [parsed.value];
      }
    }
  }

  /** The turn of the outer loop at an opener: over its slice if it closes, past it if it does not. */
  method AtOpener<V>(text: string, parse: string -> Option<V>, i: nat, out: seq<V>, ghost taken: Slices)
    returns (next: nat, more: seq<V>, ghost grown: Slices)
    requires i < |text| && IsOpener(text[i]) && Scanned(text, parse, i, taken, out)
    ensures i < next <= |text| && Scanned(text, parse, next, grown, more)
  {
    var j := FindCloser(text, i);
    Turn(text, parse, i, j, taken, out);
    if j == |text| {
      return i + 1, out, taken;
    }
    var blob := ParseSlice(text[i..j + 1], parse);
    return j + 1, out + blob, taken + [(i, j)];
  }

  method ExtractJsonBlobs<V>(text: string, parse: string -> Option<V>) returns (out: seq<V>)
    ensures Extracted(text, parse, out)
  {
    out := [];
    ghost var taken: Slices := [];
    var i := 0;
    StartScan(text, parse);
    while i < |text|
      invariant i <= |text| && Scanned(text, parse, i, taken, out)
    {
      if text[i] != '{' && text[i] != '[' {
        SkipText(text, parse, i, taken, out);
        i := i + 1;
      } else {
        i, out, taken := AtOpener(text, parse, i, out, taken);
      }
    }
    EndScan(text, parse, taken, out);
  }

  // ----- One turn of the outer loop -----

  /** The invariant of the outer loop. */
  ghost predicate Scanned<V>(text: string, parse: string -> Option<V>, i: nat, taken: Slices, out: seq<V>) {
    ScannedTo(ClosesIn(text), i, taken) && out == Pushed(text, taken, parse)
  }

  lemma StartScan<V>(text: string, parse: string -> Option<V>)
    ensures Scanned(text, parse, 0, [], [])
  {
  }

  lemma SkipText<V>(text: string, parse: string -> Option<V>, i: nat, taken: Slices, out: seq<V>)
    requires i < |text| && !IsOpener(text[i]) && Scanned(text, parse, i, taken, out)
    ensures Scanned(text, parse, i + 1, taken, out)
  {
    NothingClosesHere(ClosesIn(text), i, taken);
  }

  lemma SkipUnclosed<V>(text: string, parse: string -> Option<V>, i: nat, taken: Slices, out: seq<V>)
    requires (forall k: nat :: !Closes(text, i, k)) && Scanned(text, parse, i, taken, out)
    ensures Scanned(text, parse, i + 1, taken, out)
  {
    NothingClosesHere(ClosesIn(text), i, taken);
  }

  lemma TakeClosed(text: string, i: nat, j: nat, taken: Slices)
    requires Closes(text, i, j) && ScannedTo(ClosesIn(text), i, taken)
    ensures ScannedTo(ClosesIn(text), j + 1, taken + [(i, j)])
  {
    TakeOne(ClosesIn(text), i, j, taken);
  }

  lemma TakeSlice<V>(text: string, parse: string -> Option<V>, i: nat, j: nat, taken: Slices, out: seq<V>)
    requires Closes(text, i, j) && Scanned(text, parse, i, taken, out)
    ensures Scanned(text, parse, j + 1, taken + [(i, j)], out + BlobOf(text[i..j + 1], parse))
  {
    TakeClosed(text, i, j, taken);
    PushSlice(text, parse, i, j, taken);
  }

  lemma Turn<V>(text: string, parse: string -> Option<V>, i: nat, j: nat, taken: Slices, out: seq<V>)
    requires i <= j <= |text| && i < |text| && FoundCloser(text, i, j) && Scanned(text, parse, i, taken, out)
    ensures j == |text| ==> Scanned(text, parse, i + 1, taken, out)
    ensures j < |text| ==> Scanned(text, parse, j + 1, taken + [(i, j)], out + BlobOf(text[i..j + 1], parse))
  {
    if j < |text| {
      TakeSlice(text, parse, i, j, taken, out);
    } else {
      SkipUnclosed(text, parse, i, taken, out);
    }
  }

  lemma EndScan<V>(text: string, parse: string -> Option<V>, taken: Slices, out: seq<V>)
    requires Scanned(text, parse, |text|, taken, out)
    ensures Extracted(text, parse, out)
  {
    ScanEnds(ClosesIn(text), |text|, taken);
    assert IsExtraction(text, parse, out, taken);
  }

  /** The invariant of the outer loop: everything that opens before `i` has been dealt with. */
  ghost predicate ScannedTo(closes: Pairing, i: nat, taken: Slices) {
    && AllClose(closes, taken)
    && LeftToRight(taken)
    && (forall n | 0 <= n < |taken| :: taken[n].1 < i)
    && (forall a: nat, b: nat | a < i && closes(a, b) :: Covered(taken, a))
  }

  lemma NothingClosesHere(closes: Pairing, i: nat, taken: Slices)
    requires ScannedTo(closes, i, taken) && forall j: nat :: !closes(i, j)
    ensures ScannedTo(closes, i + 1, taken)
  {}

  lemma NeverCloses(text: string, i: nat)
    requires i < |text| && forall k | i < k <= |text| :: Depth(text, i, k) > 0
    ensures forall j: nat :: !Closes(text, i, j)
  {
    forall j: nat ensures !Closes(text, i, j) {
      if i < j < |text| {
        assert Depth(text, i, j + 1) > 0;
      }
    }
  }

  lemma TakeOne(closes: Pairing, i: nat, j: nat, taken: Slices)
    requires ScannedTo(closes, i, taken) && closes(i, j) && i < j
    ensures ScannedTo(closes, j + 1, taken + [(i, j)])
  {
    var more := taken + [(i, j)];
    forall a: nat, b: nat | a < j + 1 && closes(a, b) ensures Covered(more, a) {
      if a < i {
        var n :| 0 <= n < |taken| && taken[n].0 <= a <= taken[n].1;
        assert more[n] == taken[n];
      } else {
        assert more[|taken|] == (i, j);
      }
    }
  }

  lemma ScanEnds(closes: Pairing, end: nat, taken: Slices)
    requires ScannedTo(closes, end, taken)
    requires forall i: nat, j: nat :: closes(i, j) ==> i < end
    ensures IsScan(closes, 0, taken)
  {}

  // ----- There is only one such scan -----

  /** A bracket closes in one place only. */
  lemma ClosesOnce(text: string, i: nat, j: nat, k: nat)
    requires Closes(text, i, j) && Closes(text, i, k)
    ensures j == k
  {
    assert forall m | i < m <= j :: Depth(text, i, m) > 0;
    assert Depth(text, i, k + 1) == 0;
    assert j <= k;
  }

  ghost predicate IsFunctional(closes: Pairing) {
    forall i: nat, j: nat, k: nat :: closes(i, j) && closes(i, k) ==> j == k
  }

  ghost predicate GoesForward(closes: Pairing) {
    forall i: nat, j: nat :: closes(i, j) ==> i < j
  }

  lemma FirstsAgree(closes: Pairing, from: nat, t: Slices, u: Slices)
    requires IsFunctional(closes) && GoesForward(closes)
    requires IsScan(closes, from, t) && IsScan(closes, from, u)
    ensures t == [] <==> u == []
    ensures t != [] && u != [] ==> t[0] == u[0]
  {
    if u != [] {
      FirstIsCovered(closes, from, u, t);
    }
    if t != [] {
      FirstIsCovered(closes, from, t, u);
      assert closes(t[0].0, t[0].1) && closes(u[0].0, u[0].1);
    }
  }

  lemma {:induction false} OneScan(closes: Pairing, from: nat, t: Slices, u: Slices)
    requires IsFunctional(closes) && GoesForward(closes)
    requires IsScan(closes, from, t) && IsScan(closes, from, u)
    ensures t == u
    decreases |t|
  {
    FirstsAgree(closes, from, t, u);
    if t != [] {
      RestIsAScan(closes, from, t);
      RestIsAScan(closes, from, u);
      OneScan(closes, t[0].1 + 1, t[1..], u[1..]);
      Rejoin(t, u);
    }
  }

  lemma Rejoin<T>(t: seq<T>, u: seq<T>)
    requires t != [] && u != [] && t[0] == u[0] && t[1..] == u[1..]
    ensures t == u
  {
    assert t == [t[0]] + t[1..] && u == [u[0]] + u[1..];
  }

  lemma FirstIsCovered(closes: Pairing, from: nat, t: Slices, u: Slices)
    requires GoesForward(closes)
    requires IsScan(closes, from, t) && IsScan(closes, from, u) && t != []
    ensures u != [] && u[0].0 <= t[0].0
  {
    assert closes(t[0].0, t[0].1);
    assert Covered(u, t[0].0);
    var n :| 0 <= n < |u| && u[n].0 <= t[0].0 <= u[n].1;
    if n > 0 {
      assert closes(u[0].0, u[0].1);
      assert u[0].1 < u[n].0;
    }
  }

  lemma RestIsInOrder(closes: Pairing, t: Slices)
    requires AllClose(closes, t) && LeftToRight(t) && t != []
    ensures AllClose(closes, t[1..]) && LeftToRight(t[1..])
    ensures forall n | 0 <= n < |t[1..]| :: t[0].1 + 1 <= t[1..][n].0
  {
    var rest := t[1..];
    assert forall n | 0 <= n < |rest| :: rest[n] == t[n + 1];
    assert forall n | 0 < n < |t| :: t[0].1 < t[n].0;
  }

  lemma RestIsAScan(closes: Pairing, from: nat, t: Slices)
    requires GoesForward(closes)
    requires IsScan(closes, from, t) && t != []
    ensures IsScan(closes, t[0].1 + 1, t[1..])
  {
    RestIsInOrder(closes, t);
    assert closes(t[0].0, t[0].1);
    forall i: nat, j: nat | t[0].1 + 1 <= i && closes(i, j) ensures Covered(t[1..], i) {
      assert Covered(t, i);
      CoveredByTheRest(t, i);
    }
  }

  lemma CoveredByTheRest(t: Slices, i: nat)
    requires t != [] && t[0].1 < i && Covered(t, i)
    ensures Covered(t[1..], i)
  {
    var n :| 0 <= n < |t| && t[n].0 <= i <= t[n].1;
    assert t[1..][n - 1] == t[n];
  }

  /** Disjointness, order and leaving no closable opener outside pin the slices of a text down: the
      scan could take no others. */
  lemma ScanIsUnique(text: string, t: Slices, u: Slices)
    requires IsScan(ClosesIn(text), 0, t) && IsScan(ClosesIn(text), 0, u)
    ensures t == u
  {
    forall i: nat, j: nat, k: nat | ClosesIn(text)(i, j) && ClosesIn(text)(i, k) ensures j == k {
      ClosesOnce(text, i, j, k);
    }
    OneScan(ClosesIn(text), 0, t, u);
  }

  /** So what the scanner extracts from a text is determined. */
  lemma ExtractionIsUnique<V>(text: string, parse: string -> Option<V>, a: seq<V>, b: seq<V>)
    requires Extracted(text, parse, a) && Extracted(text, parse, b)
    ensures a == b
  {
    var t :| IsExtraction(text, parse, a, t);
    var u :| IsExtraction(text, parse, b, u);
    ScanIsUnique(text, t, u);
  }

  /** A taken slice ends with its opener's own closer, outside strings and unescaped. */
  lemma SliceEnds(text: string, i: nat, j: nat)
    requires Closes(text, i, j)
    ensures text[j] == CloserOf(text[i]) && !Escaped(text, i, j) && !InString(text, i, j)
  {
    DepthStep(text, i, j);
    assert Depth(text, i, j) > 0;
  }
}
