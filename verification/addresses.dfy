/** Coordinate extraction from module paths such as `leaf[2].host[5].app[0]`.

    The scripts run `re.search` with patterns built from `.*`, `\[(\d*)\]`,
    `\.` and `.`. This model splits a path into the text between brackets
    ("gaps") and the bracketed digit runs ("tokens"). When the path holds
    exactly as many tokens as the pattern has groups, every `\[` of the
    pattern must take one `[` of the path in order, so the match exists exactly
    when each gap between two groups fits what the pattern puts there; `.`
    never matches a newline. Paths with more tokens than groups, or with a
    bracket that does not enclose a digit run, are outside this model. */
module Addresses {
  import opened Results
  import opened Text

  /** What a pattern puts between the `\]` of one group and the `\[` of the next. */
  datatype Gap =
    | DotThenAny // `\..*`
    | AnyThenAny // `..*`
    | Any        // `.*`

  /** `.*\[(\d*)\]` followed by one gap and group per element of `gaps`, then `.*`. */
  datatype Pattern = Pattern(gaps: seq<Gap>) {
    function Groups(): nat {
      |gaps| + 1
    }
  }

  /** spineleaf: `.*\[(\d*)\]\..*\[(\d*)\]..*\[(\d*)\].*` on the parameter key. */
  const SpineLeafKeyPattern := Pattern([DotThenAny, AnyThenAny])
  /** spineleaf: `.*\[(\d*)\]\..*\[(\d*)\].*` on the parameter value. */
  const SpineLeafValuePattern := Pattern([DotThenAny])
  /** owcell: `.*\[(\d*)\]\..*\[(\d*)\].*\[(\d*)\].*\[(\d*)\].*` on the key. */
  const OwCellKeyPattern := Pattern([DotThenAny, Any, Any])
  /** owcell: `.*\[(\d*)\]\..*\[(\d*)\].*\[(\d*)\].*` on the value. */
  const OwCellValuePattern := Pattern([DotThenAny, Any])

  predicate IsBracket(c: char) {
    c == '[' || c == ']'
  }

  /** A path cut at its brackets: gaps[0] [tokens[0]] gaps[1] ... [tokens[n-1]] gaps[n]. */
  datatype Layout = Layout(gaps: seq<string>, tokens: seq<string>)

  predicate BracketFree(s: string) {
    forall k :: 0 <= k < |s| ==> !IsBracket(s[k])
  }

  predicate WellFormed(l: Layout) {
    && |l.gaps| == |l.tokens| + 1
    && (forall i :: 0 <= i < |l.gaps| ==> BracketFree(l.gaps[i]))
    && (forall i :: 0 <= i < |l.tokens| ==> AllDigits(l.tokens[i]))
  }

  /** One more gap and token in front of a layout. */
  function Cons(g: string, t: string, tail: Layout): (l: Layout)
    requires |tail.gaps| == |tail.tokens| + 1
    ensures |l.gaps| == |l.tokens| + 1
    ensures Join(l) == g + "[" + t + "]" + Join(tail)
    ensures BracketFree(g) && AllDigits(t) && WellFormed(tail) ==> WellFormed(l)
  {
    var l := Layout([g] + tail.gaps, [t] + tail.tokens);
    assert Layout(l.gaps[1..], l.tokens[1..]) == tail;
    l
  }

  function Join(l: Layout): string
    requires |l.gaps| == |l.tokens| + 1
    decreases |l.tokens|
  {
    if |l.tokens| == 0 then l.gaps[0]
    else l.gaps[0] + "[" + l.tokens[0] + "]" + Join(Layout(l.gaps[1..], l.tokens[1..]))
  }

  /** Position of the first bracket of `s`, or `|s|` when there is none. */
  function FirstBracket(s: string): (i: nat)
    ensures i <= |s|
    ensures forall k :: 0 <= k < i ==> !IsBracket(s[k])
    ensures i < |s| ==> IsBracket(s[i])
  {
    if |s| == 0 || IsBracket(s[0]) then 0 else 1 + FirstBracket(s[1..])
  }

  /** Length of the digit run that starts `s`. */
  function DigitRun(s: string): (i: nat)
    ensures i <= |s| && AllDigits(s[..i])
    ensures i < |s| ==> !IsDigit(s[i])
  {
    if |s| == 0 || !IsDigit(s[0]) then 0
    else
      var n := DigitRun(s[1..]);
      assert s[..n + 1] == [s[0]] + s[1..][..n];
      n + 1
  }

  /** A path cut around the bracketed run that starts at `i`. */
  lemma CutAroundToken(s: string, i: nat, j: nat)
    requires i < |s| && s[i] == '[' && i + 1 + j < |s| && s[i + 1 + j] == ']'
    ensures s == s[..i] + "[" + s[i + 1..][..j] + "]" + s[i + 1..][j + 1..]
  {
    var rest := s[i + 1..];
    assert s == s[..i] + [s[i]] + rest;
    assert rest == rest[..j] + [rest[j]] + rest[j + 1..];
  }

  /** Cuts a path at its brackets; fails when a bracket does not enclose a digit run. */
  function Tokenize(s: string): (r: Result<Layout>)
    ensures r.Ok? ==> WellFormed(r.value) && Join(r.value) == s
    ensures r.Err? ==> r.failure == OutOfScope
    decreases |s|
  {
    var i := FirstBracket(s);
    if i == |s| then Ok(Layout([s], []))
    else if s[i] == ']' then Err(OutOfScope)
    else
      var rest := s[i + 1..];
      var j := DigitRun(rest);
      if j == |rest| || rest[j] != ']' then Err(OutOfScope)
      else match Tokenize(rest[j + 1..])
        case Err(e) => Err(e)
        case Ok(tail) =>
          CutAroundToken(s, i, j);
          Ok(Cons(s[..i], rest[..j], tail))
  }

  lemma FirstBracketAfterGap(g: string, rest: string)
    requires BracketFree(g)
    ensures FirstBracket(g + "[" + rest) == |g|
  {
    var s := g + "[" + rest;
    var i := FirstBracket(s);
    assert s[|g|] == '[';
  }

  lemma DigitRunBeforeClose(t: string, rest: string)
    requires AllDigits(t)
    ensures DigitRun(t + "]" + rest) == |t|
  {
    var s := t + "]" + rest;
    var j := DigitRun(s);
    assert s[|t|] == ']';
  }

  /** Tokenize reads one gap and one token off the front of a path. */
  lemma TokenizeCons(g: string, t: string, after: string)
    requires BracketFree(g) && AllDigits(t)
    ensures Tokenize(g + "[" + t + "]" + after) ==
      match Tokenize(after)
        case Err(e) => Err(e)
        case Ok(tail) => Ok(Cons(g, t, tail))
  {
    var rest := t + "]" + after;
    var s := g + "[" + rest;
    assert s == g + "[" + t + "]" + after;
    FirstBracketAfterGap(g, rest);
    assert s[|g|] == '[' && s[|g| + 1..] == rest && s[..|g|] == g;
    DigitRunBeforeClose(t, after);
    assert rest[|t| + 1..] == after && rest[..|t|] == t && rest[|t|] == ']';
  }

  lemma {:induction false} TokenizeJoin(l: Layout)
    requires WellFormed(l)
    ensures Tokenize(Join(l)) == Ok(l)
    decreases |l.tokens|
  {
    var g := l.gaps[0];
    if |l.tokens| == 0 {
      assert BracketFree(g);
      assert l.gaps == [g];
    } else {
      var t := l.tokens[0];
      var tail := Layout(l.gaps[1..], l.tokens[1..]);
      assert l.gaps == [g] + tail.gaps && l.tokens == [t] + tail.tokens;
      assert Cons(g, t, tail) == l;
      assert WellFormed(tail);
      assert BracketFree(g) && AllDigits(t);
      assert Join(l) == g + "[" + t + "]" + Join(tail);
      TokenizeCons(g, t, Join(tail));
      TokenizeJoin(tail);
    }
  }

  /** The text between two groups matches what the pattern puts there. */
  predicate GapFits(gap: Gap, text: string) {
    && '\n' !in text
    && match gap
       case DotThenAny => |text| > 0 && text[0] == '.'
       case AnyThenAny => |text| > 0
       case Any => true
  }

  predicate Fits(p: Pattern, l: Layout)
    requires |l.gaps| == |l.tokens| + 1 && |l.tokens| == p.Groups()
  {
    forall i :: 0 <= i < |p.gaps| ==> GapFits(p.gaps[i], l.gaps[i + 1])
  }

  /** `re.search(pattern, s)`: the captured groups, in order. */
  function Search(s: string, p: Pattern): (r: Result<seq<string>>)
    ensures r.Ok? ==> |r.value| == p.Groups() && forall i :: 0 <= i < |r.value| ==> AllDigits(r.value[i])
    ensures r.Err? ==> r.failure in {NoMatch, OutOfScope}
  {
    var l :- Tokenize(s);
    if |l.tokens| < p.Groups() then Err(NoMatch)
    else if |l.tokens| > p.Groups() then Err(OutOfScope)
    else if !Fits(p, l) then Err(NoMatch)
    else Ok(l.tokens)
  }

  /** A path written with exactly the pattern's group count matches iff its
      gaps fit the pattern, and then the groups are its bracket tokens. */
  lemma SearchJoin(l: Layout, p: Pattern)
    requires WellFormed(l) && |l.tokens| == p.Groups()
    ensures Search(Join(l), p) == if Fits(p, l) then Ok(l.tokens) else Err(NoMatch)
  {
    TokenizeJoin(l);
  }

  /** A path with fewer bracket tokens than the pattern has groups never matches. */
  lemma SearchTooFewTokens(l: Layout, p: Pattern)
    requires WellFormed(l) && |l.tokens| < p.Groups()
    ensures Search(Join(l), p) == Err(NoMatch)
  {
    TokenizeJoin(l);
  }

  /** A two-level coordinate, e.g. (leaf, host) or (cell, rack). */
  type Coordinate = (nat, nat)

  /** `int(capture.group(1)), int(capture.group(2))`; the other groups are never
      converted, so an empty third group does not fail. */
  function CoordinateOf(s: string, p: Pattern): (r: Result<Coordinate>)
    requires p.Groups() >= 2
    ensures r.Ok? <==> Search(s, p).Ok? && |Search(s, p).value[0]| > 0 && |Search(s, p).value[1]| > 0
    ensures r.Err? && Search(s, p).Err? ==> r.failure == Search(s, p).failure
    ensures r.Err? && Search(s, p).Ok? ==> r.failure == BadInteger
  {
    var groups :- Search(s, p);
    if |groups[0]| == 0 || |groups[1]| == 0 then Err(BadInteger)
    else Ok((DigitsValue(groups[0]), DigitsValue(groups[1])))
  }

  /** Coordinate extraction on a path written with exactly the pattern's
      groups: the first two bracket numbers, or the failure Python raises. */
  lemma CoordinateOfJoin(l: Layout, p: Pattern)
    requires WellFormed(l) && |l.tokens| == p.Groups() && p.Groups() >= 2
    ensures !Fits(p, l) ==> CoordinateOf(Join(l), p) == Err(NoMatch)
    ensures Fits(p, l) && (|l.tokens[0]| == 0 || |l.tokens[1]| == 0) ==> CoordinateOf(Join(l), p) == Err(BadInteger)
    ensures Fits(p, l) && |l.tokens[0]| > 0 && |l.tokens[1]| > 0 ==>
      CoordinateOf(Join(l), p) == Ok((DigitsValue(l.tokens[0]), DigitsValue(l.tokens[1])))
  {
    SearchJoin(l, p);
  }

  /** Writing numbers into a path and reading them back gives the numbers. */
  lemma CoordinateRoundTrip(l: Layout, p: Pattern, a: nat, b: nat)
    requires WellFormed(l) && |l.tokens| == p.Groups() && p.Groups() >= 2 && Fits(p, l)
    requires l.tokens[0] == ShowNat(a) && l.tokens[1] == ShowNat(b)
    ensures CoordinateOf(Join(l), p) == Ok((a, b))
  {
    CoordinateOfJoin(l, p);
    DigitsValueShowNat(a);
    DigitsValueShowNat(b);
  }
}
