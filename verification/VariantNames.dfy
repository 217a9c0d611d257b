/** Reading a foil treatment out of a product name: the first parenthetical that names one wins. */
module VariantNames {
  import opened Wrappers
  import opened Text

  /** A parenthetical and the text in front of it. */
  datatype Piece = Piece(outside: string, inside: string)

  // ----- Where the parentheticals are -----

  function IndexOf(s: string, c: char): (i: nat)
    ensures i <= |s| && (i < |s| ==> s[i] == c)
    ensures forall k | 0 <= k < i :: s[k] != c
    ensures i == |s| <==> c !in s
  {
    if s == "" || s[0] == c then 0
    else
      assert s == [s[0]] + s[1..];
      var i := IndexOf(s[1..], c);
      assert forall k | 0 < k < i + 1 :: s[k] == s[1..][k - 1];
      i + 1
  }

  /** No complete parenthetical: no opener, or no closer after the first one. */
  predicate NoParenthetical(s: string) {
    var open := IndexOf(s, '(');
    open == |s| || ')' !in s[open + 1..]
  }

  predicate WellPlaced(pieces: seq<Piece>, tail: string) {
    && (forall k | 0 <= k < |pieces| :: '(' !in pieces[k].outside && ')' !in pieces[k].inside)
    && NoParenthetical(tail)
  }

  function Assemble(pieces: seq<Piece>, tail: string): string {
    if pieces == [] then tail
    else pieces[0].outside + "(" + pieces[0].inside + ")" + Assemble(pieces[1..], tail)
  }

  /** The front piece of a text that has a parenthetical, and what follows it. */
  function FrontPiece(s: string): (r: (Piece, string))
    requires !NoParenthetical(s)
    ensures |r.1| < |s|
  {
    var open := IndexOf(s, '(');
    var after := s[open + 1..];
    var close := IndexOf(after, ')');
    (Piece(s[..open], after[..close]), after[close + 1..])
  }

  lemma SplitAt(s: string, i: nat)
    requires i < |s|
    ensures s == s[..i] + [s[i]] + s[i + 1..]
  {
  }

  lemma FrontPieceFits(s: string)
    requires !NoParenthetical(s)
    ensures var (p, rest) := FrontPiece(s);
      s == p.outside + "(" + p.inside + ")" + rest && '(' !in p.outside && ')' !in p.inside
  {
    var open := IndexOf(s, '(');
    var after := s[open + 1..];
    var close := IndexOf(after, ')');
    SplitAt(s, open);
    SplitAt(after, close);
    Splice(s, after, s[..open], after[..close], after[close + 1..]);
  }

  lemma Splice(s: string, after: string, a: string, b: string, c: string)
    requires s == a + ['('] + after && after == b + [')'] + c
    ensures s == a + "(" + b + ")" + c
  {
    assert s == a + "(" + (b + ")" + c);
  }

  function Pieces(s: string): seq<Piece>
    decreases |s|
  {
    if NoParenthetical(s) then [] else [FrontPiece(s).0] + Pieces(FrontPiece(s).1)
  }

  function Tail(s: string): string
    decreases |s|
  {
    if NoParenthetical(s) then s else Tail(FrontPiece(s).1)
  }

  /** Every text is its pieces and its tail, well placed. */
  lemma {:induction false} PiecesAssemble(s: string)
    ensures WellPlaced(Pieces(s), Tail(s)) && Assemble(Pieces(s), Tail(s)) == s
    decreases |s|
  {
    if !NoParenthetical(s) {
      PiecesAssemble(FrontPiece(s).1);
      FrontPieceFits(s);
      assert Pieces(s)[1..] == Pieces(FrontPiece(s).1);
    }
  }

  lemma FirstAt(s: string, i: nat, c: char)
    requires i < |s| && s[i] == c && forall k | 0 <= k < i :: s[k] != c
    ensures IndexOf(s, c) == i
  {
    var j := IndexOf(s, c);
    assert j < |s|;
  }

  lemma CutAt(a: string, c: char, b: string)
    ensures var s := a + [c] + b;
            |a| < |s| && s[|a|] == c && s[..|a|] == a && s[|a| + 1..] == b && forall k | 0 <= k < |a| :: s[k] == a[k]
  {
  }

  lemma FrontOfAssembled(p: Piece, rest: string, s: string)
    requires '(' !in p.outside && ')' !in p.inside
    requires s == p.outside + "(" + p.inside + ")" + rest
    ensures !NoParenthetical(s) && FrontPiece(s) == (p, rest)
  {
    var after := p.inside + [')'] + rest;
    assert s == p.outside + ['('] + after;
    CutAt(p.outside, '(', after);
    FirstAt(s, |p.outside|, '(');
    CutAt(p.inside, ')', rest);
    FirstAt(after, |p.inside|, ')');
  }

  /** And well-placed pieces are found again, so the decomposition is the only one. */
  lemma {:induction false} AssembledPieces(pieces: seq<Piece>, tail: string)
    requires WellPlaced(pieces, tail)
    ensures Pieces(Assemble(pieces, tail)) == pieces && Tail(Assemble(pieces, tail)) == tail
  {
    if pieces != [] {
      AssembledPieces(pieces[1..], tail);
      PiecesOfAssembled(pieces[0], Assemble(pieces[1..], tail), Assemble(pieces, tail));
      assert pieces == [pieces[0]] + pieces[1..];
    }
  }

  lemma PiecesOfAssembled(p: Piece, rest: string, s: string)
    requires '(' !in p.outside && ')' !in p.inside
    requires s == p.outside + "(" + p.inside + ")" + rest
    ensures Pieces(s) == [p] + Pieces(rest) && Tail(s) == Tail(rest)
  {
    FrontOfAssembled(p, rest, s);
  }

  // ----- The first treatment -----

  type Treatment = string -> Option<string>

  function FirstTreatment(treat: Treatment, pieces: seq<Piece>): Option<string> {
    if pieces == [] then None
    else
      var found := treat(Trim(pieces[0].inside));
      if found.Some? then found else FirstTreatment(treat, pieces[1..])
  }

  predicate FirstRecognised(treat: Treatment, pieces: seq<Piece>, k: int) {
    && 0 <= k < |pieces|
    && treat(Trim(pieces[k].inside)).Some?
    && forall j | 0 <= j < k :: treat(Trim(pieces[j].inside)).None?
  }

  lemma {:induction false} FirstTreatmentMeaning(treat: Treatment, pieces: seq<Piece>)
    ensures forall k | FirstRecognised(treat, pieces, k) ::
              FirstTreatment(treat, pieces) == treat(Trim(pieces[k].inside))
    ensures FirstTreatment(treat, pieces).Some? ==> exists k :: FirstRecognised(treat, pieces, k)
  {
    if pieces != [] {
      FirstTreatmentMeaning(treat, pieces[1..]);
      if treat(Trim(pieces[0].inside)).Some? {
        assert FirstRecognised(treat, pieces, 0);
      } else {
        forall k | FirstRecognised(treat, pieces, k) ensures FirstRecognised(treat, pieces[1..], k - 1) {}
        forall k | FirstRecognised(treat, pieces[1..], k) ensures FirstRecognised(treat, pieces, k + 1) {}
      }
    }
  }

  lemma NextPiece(treat: Treatment, rest: string)
    requires !NoParenthetical(rest)
    ensures FirstTreatment(treat, Pieces(rest))
         == var (p, more) := FrontPiece(rest);
            if treat(Trim(p.inside)).Some? then treat(Trim(p.inside)) else FirstTreatment(treat, Pieces(more))
  {
    assert Pieces(rest)[1..] == Pieces(FrontPiece(rest).1);
  }

  lemma NoMorePieces(treat: Treatment, rest: string)
    requires NoParenthetical(rest)
    ensures FirstTreatment(treat, Pieces(rest)) == None
  {
  }

  /** The text of the next parenthetical, trimmed, and what follows it. */
  method NextInner(rest: string) returns (found: bool, inner: string, more: string)
    ensures found <==> !NoParenthetical(rest)
    ensures found ==> inner == Trim(FrontPiece(rest).0.inside) && more == FrontPiece(rest).1
  {
    found, inner, more := false, "", "";
    var open := IndexOf(rest, '(');
    if open < |rest| {
      var after := rest[open + 1..];
      var close := IndexOf(after, ')');
      if close < |after| {
        return true, Trim(after[..close]), after[close + 1..];
      }
    }
  }

  /** The loop: it walks from parenthetical to parenthetical and stops at the first that names a
      treatment, or at an opener that is never closed. */
  method FirstTreatmentIn(treat: Treatment, text: string) returns (variant: Option<string>)
    ensures variant == FirstTreatment(treat, Pieces(text))
  {
    var rest := text;
    while true
      invariant FirstTreatment(treat, Pieces(text)) == FirstTreatment(treat, Pieces(rest))
      decreases |rest|
    {
      var found, inner, more := NextInner(rest);
      if !found {
        NoMorePieces(treat, rest);
        return None;
      }
      NextPiece(treat, rest);
      if treat(inner).Some? {
        return treat(inner);
      }
      rest := more;
    }
  }

  // ----- The treatments -----

  /** A treatment and the phrases that give it away. */
  datatype Rule = Rule(phrases: seq<string>, code: string)

  /** In the order they are tried: specific before general. */
  function Rules(): seq<Rule> {
    [
      Rule(["master ball"], "masterball_rh"),
      Rule(["quick ball"], "quickball_rh"),
      Rule(["dusk ball"], "duskball_rh"),
      Rule(["love ball"], "loveball_rh"),
      Rule(["friend ball"], "friendball_rh"),
      Rule(["poke ball", "pok\U{00E9} ball"], "pokeball_rh"),
      Rule(["energy symbol"], "energy_symbol_rh"),
      Rule(["team rocket"], "team_rocket_rh"),
      Rule(["reverse cosmos"], "reverse_cosmos_holo"),
      Rule(["pixel"], "pixel_holo"),
      Rule(["cosmo holo", "cosmos holo"], "cosmos_holo"),
      Rule(["cosmo foil", "cosmos foil"], "cosmos_foil"),
      Rule(["water web"], "water_web_holo"),
      Rule(["sheen holo"], "sheen_holo"),
      Rule(["mirage holo"], "mirage_holo"),
      Rule(["mirror holo"], "mirror_holo"),
      Rule(["line holo"], "line_holo"),
      Rule(["sparkle holo"], "sparkle_holo"),
      Rule(["energy holo"], "energy_holo"),
      Rule(["metal card"], "metal_card"),
      Rule(["cracked ice"], "cracked_ice_holo"),
      Rule(["peelable ditto"], "peelable_ditto"),
      Rule(["black dot error"], "black_dot_error")
    ]
  }

  predicate Fires(rule: Rule, inner: string) {
    exists k | 0 <= k < |rule.phrases| :: Contains(inner, rule.phrases[k])
  }

  function ByRules(rules: seq<Rule>, inner: string): Option<string> {
    if rules == [] then None
    else if Fires(rules[0], inner) then Some(rules[0].code)
    else ByRules(rules[1..], inner)
  }

  function TreatmentFor(inner: string): Option<string> {
    ByRules(Rules(), inner)
  }

  predicate FirstToFire(rules: seq<Rule>, inner: string, k: int) {
    0 <= k < |rules| && Fires(rules[k], inner) && forall j | 0 <= j < k :: !Fires(rules[j], inner)
  }

  /** The first rule that fires decides; when none does there is no treatment. */
  lemma {:induction false} RulesInOrder(rules: seq<Rule>, inner: string)
    ensures forall k | FirstToFire(rules, inner, k) :: ByRules(rules, inner) == Some(rules[k].code)
    ensures ByRules(rules, inner).None? <==> forall k | 0 <= k < |rules| :: !Fires(rules[k], inner)
  {
    if rules != [] {
      RulesInOrder(rules[1..], inner);
      if !Fires(rules[0], inner) {
        forall k | FirstToFire(rules, inner, k) ensures FirstToFire(rules[1..], inner, k - 1) {}
        assert forall k | 0 < k < |rules| :: rules[k] == rules[1..][k - 1];
      }
    }
  }

  /** `lower` stands for `to_lowercase`. */
  method VariantFromProductName(lower: string -> string, name: string) returns (variant: Option<string>)
    ensures variant == FirstTreatment(TreatmentFor, Pieces(lower(name)))
  {
    variant := FirstTreatmentIn(TreatmentFor, lower(name));
  }

  lemma SomeRuleIsFirst(rules: seq<Rule>, inner: string, k: nat) returns (j: nat)
    requires k < |rules| && Fires(rules[k], inner)
    ensures j <= k && FirstToFire(rules, inner, j)
  {
    j := 0;
    while !Fires(rules[j], inner)
      invariant j <= k && forall i | 0 <= i < j :: !Fires(rules[i], inner)
      decreases k - j
    {
      j := j + 1;
    }
  }

  /** A rule further up always beats the plain cosmos rule, so "reverse cosmos holo" and "pixel cosmos
      holo" keep their own treatments. */
  lemma CosmosComesLast(inner: string)
    requires Contains(inner, "reverse cosmos") || Contains(inner, "pixel")
    ensures TreatmentFor(inner).Some? && TreatmentFor(inner) != Some("cosmos_holo")
  {
    var rules := Rules();
    assert rules[8].phrases == ["reverse cosmos"] && rules[9].phrases == ["pixel"];
    assert rules[8].phrases[0] == "reverse cosmos" && rules[9].phrases[0] == "pixel";
    var j := SomeRuleIsFirst(rules, inner, if Fires(rules[8], inner) then 8 else 9);
    RulesInOrder(rules, inner);
    EarlierCodes(j);
  }

  lemma EarlierCodes(j: nat)
    requires j <= 9
    ensures Rules()[j].code != "cosmos_holo"
  {
    var code := Rules()[j].code;
    assert |code| != 11 || code[0] != 'c';
  }

  // ----- The phrases, one by one -----

  /** The treatment of the first of these phrases that the text contains. */
  function BallTreatment(inner: string): Option<string> {
    if Contains(inner, "master ball") then Some("masterball_rh")
    else if Contains(inner, "quick ball") then Some("quickball_rh")
    else if Contains(inner, "dusk ball") then Some("duskball_rh")
    else OtherBallTreatment(inner)
  }

  function OtherBallTreatment(inner: string): Option<string> {
    if Contains(inner, "love ball") then Some("loveball_rh")
    else if Contains(inner, "friend ball") then Some("friendball_rh")
    else if Contains(inner, "poke ball") || Contains(inner, "pok\U{00E9} ball") then Some("pokeball_rh")
    else PatternTreatment(inner)
  }

  function PatternTreatment(inner: string): Option<string> {
    if Contains(inner, "energy symbol") then Some("energy_symbol_rh")
    else if Contains(inner, "team rocket") then Some("team_rocket_rh")
    else CosmosTreatment(inner)
  }

  function CosmosTreatment(inner: string): Option<string> {
    if Contains(inner, "reverse cosmos") then Some("reverse_cosmos_holo")
    else if Contains(inner, "pixel") then Some("pixel_holo")
    else if Contains(inner, "cosmo holo") || Contains(inner, "cosmos holo") then Some("cosmos_holo")
    else if Contains(inner, "cosmo foil") || Contains(inner, "cosmos foil") then Some("cosmos_foil")
    else FoilTreatment(inner)
  }

  function FoilTreatment(inner: string): Option<string> {
    if Contains(inner, "water web") then Some("water_web_holo")
    else if Contains(inner, "sheen holo") then Some("sheen_holo")
    else if Contains(inner, "mirage holo") then Some("mirage_holo")
    else if Contains(inner, "mirror holo") then Some("mirror_holo")
    else HoloTreatment(inner)
  }

  function HoloTreatment(inner: string): Option<string> {
    if Contains(inner, "line holo") then Some("line_holo")
    else if Contains(inner, "sparkle holo") then Some("sparkle_holo")
    else if Contains(inner, "energy holo") then Some("energy_holo")
    else if Contains(inner, "metal card") then Some("metal_card")
    else PromoTreatment(inner)
  }

  function PromoTreatment(inner: string): Option<string> {
    if Contains(inner, "cracked ice") then Some("cracked_ice_holo")
    else if Contains(inner, "peelable ditto") then Some("peelable_ditto")
    else if Contains(inner, "black dot error") then Some("black_dot_error")
    else None
  }

  /** Rule k on its own. */
  lemma RuleAt(rules: seq<Rule>, inner: string, k: nat)
    requires k < |rules|
    ensures ByRules(rules[k..], inner)
         == if Fires(rules[k], inner) then Some(rules[k].code) else ByRules(rules[k + 1..], inner)
  {
    assert rules[k..][1..] == rules[k + 1..];
  }

  lemma OnePhrase(rule: Rule, inner: string, phrase: string)
    requires rule.phrases == [phrase]
    ensures Fires(rule, inner) <==> Contains(inner, phrase)
  {
    assert rule.phrases[0] == phrase;
  }

  lemma TwoPhrases(rule: Rule, inner: string, phrase: string, other: string)
    requires rule.phrases == [phrase, other]
    ensures Fires(rule, inner) <==> Contains(inner, phrase) || Contains(inner, other)
  {
    assert rule.phrases[0] == phrase && rule.phrases[1] == other;
  }

  lemma PromoRules(inner: string)
    ensures ByRules(Rules()[20..], inner) == PromoTreatment(inner)
  {
    var rules := Rules();
    RuleAt(rules, inner, 20);
    OnePhrase(rules[20], inner, "cracked ice");
    RuleAt(rules, inner, 21);
    OnePhrase(rules[21], inner, "peelable ditto");
    RuleAt(rules, inner, 22);
    OnePhrase(rules[22], inner, "black dot error");
  }

  lemma HoloRules(inner: string)
    ensures ByRules(Rules()[16..], inner) == HoloTreatment(inner)
  {
    var rules := Rules();
    PromoRules(inner);
    RuleAt(rules, inner, 16);
    OnePhrase(rules[16], inner, "line holo");
    RuleAt(rules, inner, 17);
    OnePhrase(rules[17], inner, "sparkle holo");
    RuleAt(rules, inner, 18);
    OnePhrase(rules[18], inner, "energy holo");
    RuleAt(rules, inner, 19);
    OnePhrase(rules[19], inner, "metal card");
  }

  lemma FoilRules(inner: string)
    ensures ByRules(Rules()[12..], inner) == FoilTreatment(inner)
  {
    var rules := Rules();
    HoloRules(inner);
    RuleAt(rules, inner, 12);
    OnePhrase(rules[12], inner, "water web");
    RuleAt(rules, inner, 13);
    OnePhrase(rules[13], inner, "sheen holo");
    RuleAt(rules, inner, 14);
    OnePhrase(rules[14], inner, "mirage holo");
    RuleAt(rules, inner, 15);
    OnePhrase(rules[15], inner, "mirror holo");
  }

  lemma CosmosRules(inner: string)
    ensures ByRules(Rules()[8..], inner) == CosmosTreatment(inner)
  {
    var rules := Rules();
    FoilRules(inner);
    RuleAt(rules, inner, 8);
    OnePhrase(rules[8], inner, "reverse cosmos");
    RuleAt(rules, inner, 9);
    OnePhrase(rules[9], inner, "pixel");
    RuleAt(rules, inner, 10);
    TwoPhrases(rules[10], inner, "cosmo holo", "cosmos holo");
    RuleAt(rules, inner, 11);
    TwoPhrases(rules[11], inner, "cosmo foil", "cosmos foil");
  }

  lemma PatternRules(inner: string)
    ensures ByRules(Rules()[6..], inner) == PatternTreatment(inner)
  {
    var rules := Rules();
    CosmosRules(inner);
    RuleAt(rules, inner, 6);
    OnePhrase(rules[6], inner, "energy symbol");
    RuleAt(rules, inner, 7);
    OnePhrase(rules[7], inner, "team rocket");
  }

  lemma OtherBallRules(inner: string)
    ensures ByRules(Rules()[3..], inner) == OtherBallTreatment(inner)
  {
    var rules := Rules();
    PatternRules(inner);
    RuleAt(rules, inner, 3);
    OnePhrase(rules[3], inner, "love ball");
    RuleAt(rules, inner, 4);
    OnePhrase(rules[4], inner, "friend ball");
    RuleAt(rules, inner, 5);
    TwoPhrases(rules[5], inner, "poke ball", "pok\U{00E9} ball");
  }

  lemma BallRules(inner: string)
    ensures ByRules(Rules()[0..], inner) == BallTreatment(inner)
  {
    var rules := Rules();
    OtherBallRules(inner);
    RuleAt(rules, inner, 0);
    OnePhrase(rules[0], inner, "master ball");
    RuleAt(rules, inner, 1);
    OnePhrase(rules[1], inner, "quick ball");
    RuleAt(rules, inner, 2);
    OnePhrase(rules[2], inner, "dusk ball");
  }

  /** A text gets the treatment of the first of these phrases that it contains. */
  lemma TreatmentsByPhrase(inner: string)
    ensures TreatmentFor(inner) == BallTreatment(inner)
  {
    assert Rules()[0..] == Rules();
    BallRules(inner);
  }

  // ----- What does not matter -----

  predicate SameInside(a: seq<Piece>, b: seq<Piece>) {
    |a| == |b| && forall k | 0 <= k < |a| :: a[k].inside == b[k].inside
  }

  lemma {:induction false} OnlyInsidesMatter(treat: Treatment, a: seq<Piece>, b: seq<Piece>)
    requires SameInside(a, b)
    ensures FirstTreatment(treat, a) == FirstTreatment(treat, b)
  {
    if a != [] {
      OnlyInsidesMatter(treat, a[1..], b[1..]);
    }
  }

  /** The text outside the parentheticals can be anything without an opener, and the answer is the same. */
  lemma OutsideTextDoesNotMatter(treat: Treatment, a: seq<Piece>, s: string, b: seq<Piece>, t: string)
    requires WellPlaced(a, s) && WellPlaced(b, t) && SameInside(a, b)
    ensures FirstTreatment(treat, Pieces(Assemble(a, s))) == FirstTreatment(treat, Pieces(Assemble(b, t)))
  {
    AssembledPieces(a, s);
    AssembledPieces(b, t);
    OnlyInsidesMatter(treat, a, b);
  }

  /** A parenthetical that names no treatment, such as a retailer's tag, can be put anywhere. */
  lemma {:induction false} UnknownTagsAreSkipped(treat: Treatment, a: seq<Piece>, tag: Piece, b: seq<Piece>)
    requires treat(Trim(tag.inside)).None?
    ensures FirstTreatment(treat, a + [tag] + b) == FirstTreatment(treat, a + b)
  {
    if a == [] {
      assert a + [tag] + b == [tag] + b && a + b == b && ([tag] + b)[1..] == b;
    } else {
      assert (a + [tag] + b)[1..] == a[1..] + [tag] + b && (a + b)[1..] == a[1..] + b;
      UnknownTagsAreSkipped(treat, a[1..], tag, b);
    }
  }
}
