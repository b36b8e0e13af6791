/** The glob matcher of the KEYS command: `*`, `?`, escapes, and bracket classes with ranges, negation and
    a missing closing bracket. */
module Glob {
  /** A signed character. */
  type SChar = c: int | -128 <= c < 128

  const STAR: SChar := 42
  const QUESTION: SChar := 63
  const OPEN: SChar := 91
  const BACKSLASH: SChar := 92
  const CLOSE: SChar := 93
  const CARET: SChar := 94
  const DASH: SChar := 45

  /** `tolower` in the C locale. */
  function ToLower(c: SChar): SChar {
    if 65 <= c <= 90 then c + 32 else c
  }

  function Fold(c: SChar, nocase: bool): SChar {
    if nocase then ToLower(c) else c
  }

  // ---------------------------------------------------------------- what a pattern means

  datatype Item = Exact(c: SChar) | Single(c: SChar) | Between(a: SChar, b: SChar)

  datatype Token = AnyRun | AnyOne | Literal(c: SChar) | Class(negated: bool, items: seq<Item>)

  /** An escaped member of a class is compared as it is; a range may be written backwards. */
  predicate ItemAccepts(it: Item, c: SChar, nocase: bool) {
    match it
    case Exact(x) => x == c
    case Single(x) => Fold(x, nocase) == Fold(c, nocase)
    case Between(a, b) =>
      var lo, hi := if a > b then b else a, if a > b then a else b;
      Fold(lo, nocase) <= Fold(c, nocase) <= Fold(hi, nocase)
  }

  predicate SomeItem(items: seq<Item>, c: SChar, nocase: bool) {
    items != [] && (ItemAccepts(items[0], c, nocase) || SomeItem(items[1..], c, nocase))
  }

  /** Whether a token other than `*` accepts a character. */
  predicate Accepts(t: Token, c: SChar, nocase: bool) {
    match t
    case AnyRun => false
    case AnyOne => true
    case Literal(x) => Fold(x, nocase) == Fold(c, nocase)
    case Class(negated, items) => SomeItem(items, c, nocase) != negated
  }

  /** The relation a glob pattern stands for. */
  ghost predicate Matches(ts: seq<Token>, s: seq<SChar>, nocase: bool) {
    if ts == [] then s == []
    else if ts[0] == AnyRun then exists k :: 0 <= k <= |s| && Matches(ts[1..], s[k..], nocase)
    else s != [] && Accepts(ts[0], s[0], nocase) && Matches(ts[1..], s[1..], nocase)
  }

  // ---------------------------------------------------------------- how a pattern is read

  /** The members of a class from position i on, up to a closing bracket or the end. */
  function Items(p: seq<SChar>, i: nat): seq<Item>
    requires i <= |p|
    decreases |p| - i
  {
    if i == |p| then []
    else if p[i] == BACKSLASH && i + 2 <= |p| then [Exact(p[i + 1])] + Items(p, i + 2)
    else if p[i] == CLOSE then []
    else if i + 3 <= |p| && p[i + 1] == DASH then [Between(p[i], p[i + 2])] + Items(p, i + 3)
    else [Single(p[i])] + Items(p, i + 1)
  }

  /** The position behind the class whose members begin at i. */
  function ClassEnd(p: seq<SChar>, i: nat): (e: nat)
    requires i <= |p|
    ensures i <= e <= |p|
    decreases |p| - i
  {
    if i == |p| then i
    else if p[i] == BACKSLASH && i + 2 <= |p| then ClassEnd(p, i + 2)
    else if p[i] == CLOSE then i + 1
    else if i + 3 <= |p| && p[i + 1] == DASH then ClassEnd(p, i + 3)
    else ClassEnd(p, i + 1)
  }

  /** Where the members of the class that opens at i begin. */
  function ClassStart(p: seq<SChar>, i: nat): (e: nat)
    requires i < |p|
    ensures i < e <= |p|
  {
    if i + 1 < |p| && p[i + 1] == CARET then i + 2 else i + 1
  }

  function TokenAt(p: seq<SChar>, i: nat): Token
    requires i < |p|
  {
    if p[i] == STAR then AnyRun
    else if p[i] == QUESTION then AnyOne
    else if p[i] == OPEN then Class(ClassStart(p, i) == i + 2, Items(p, ClassStart(p, i)))
    else if p[i] == BACKSLASH && i + 2 <= |p| then Literal(p[i + 1])
    else Literal(p[i])
  }

  function TokenEnd(p: seq<SChar>, i: nat): (e: nat)
    requires i < |p|
    ensures i < e <= |p|
  {
    if p[i] == OPEN then ClassEnd(p, ClassStart(p, i))
    else if p[i] == BACKSLASH && i + 2 <= |p| then i + 2
    else i + 1
  }

  /** The tokens of a pattern from position i on. */
  function Tokens(p: seq<SChar>, i: nat): seq<Token>
    requires i <= |p|
    decreases |p| - i
  {
    if i == |p| then [] else [TokenAt(p, i)] + Tokens(p, TokenEnd(p, i))
  }

  // ---------------------------------------------------------------- the relation between positions

  /** The pattern from position i on matches the string from position j on. */
  ghost predicate From(p: seq<SChar>, i: nat, s: seq<SChar>, j: nat, nocase: bool)
    requires i <= |p| && j <= |s|
  {
    Matches(Tokens(p, i), s[j..], nocase)
  }

  /** It matches from some position in [low, high) on. */
  ghost predicate FromSome(p: seq<SChar>, i: nat, s: seq<SChar>, low: nat, high: nat, nocase: bool)
    requires i <= |p| && high <= |s| + 1
  {
    exists k :: low <= k < high && From(p, i, s, k, nocase)
  }

  lemma FromEnd(p: seq<SChar>, s: seq<SChar>, j: nat, nocase: bool)
    requires j <= |s|
    ensures From(p, |p|, s, j, nocase) <==> j == |s|
  {
  }

  /** One token other than `*`. */
  lemma FromOne(p: seq<SChar>, i: nat, s: seq<SChar>, j: nat, nocase: bool)
    requires i < |p| && j <= |s| && p[i] != STAR
    ensures From(p, i, s, j, nocase) <==>
              j < |s| && Accepts(TokenAt(p, i), s[j], nocase) && From(p, TokenEnd(p, i), s, j + 1, nocase)
  {
    var ts := Tokens(p, i);
    assert ts[1..] == Tokens(p, TokenEnd(p, i));
    if j < |s| { assert s[j..][1..] == s[j + 1..]; }
  }

  /** A star. */
  lemma FromStar(p: seq<SChar>, i: nat, s: seq<SChar>, j: nat, nocase: bool)
    requires i < |p| && j <= |s| && p[i] == STAR
    ensures From(p, i, s, j, nocase) <==> FromSome(p, i + 1, s, j, |s| + 1, nocase)
  {
    var ts, next := Tokens(p, i), i + 1;
    var rest := Tokens(p, next);
    assert ts[1..] == rest;
    if From(p, i, s, j, nocase) {
      var k :| 0 <= k <= |s[j..]| && Matches(rest, s[j..][k..], nocase);
      assert s[j..][k..] == s[j + k..];
      assert From(p, next, s, j + k, nocase);
    }
    if FromSome(p, next, s, j, |s| + 1, nocase) {
      var k :| j <= k <= |s| && From(p, next, s, k, nocase);
      assert s[j..][k - j..] == s[k..];
    }
  }

  /** Several stars in a row mean the same as one. */
  lemma StarsCollapse(p: seq<SChar>, i: nat, s: seq<SChar>, j: nat, nocase: bool)
    requires i + 1 < |p| && j <= |s| && p[i] == STAR && p[i + 1] == STAR
    ensures From(p, i, s, j, nocase) <==> From(p, i + 1, s, j, nocase)
  {
    FromStar(p, i, s, j, nocase);
    FromStar(p, i + 1, s, j, nocase);
    var next := i + 1;
    if FromSome(p, next, s, j, |s| + 1, nocase) {
      var k :| j <= k <= |s| && From(p, next, s, k, nocase);
      FromStar(p, next, s, k, nocase);
      var m :| k <= m <= |s| && From(p, next + 1, s, m, nocase);
      assert FromSome(p, next + 1, s, j, |s| + 1, nocase);
    }
    if From(p, next, s, j, nocase) { assert FromSome(p, next, s, j, |s| + 1, nocase); }
  }

  /** A star at the end matches the rest, whatever it is. */
  lemma LastStar(p: seq<SChar>, i: nat, s: seq<SChar>, j: nat, nocase: bool)
    requires i + 1 == |p| && j <= |s| && p[i] == STAR
    ensures From(p, i, s, j, nocase)
  {
    FromStar(p, i, s, j, nocase);
    FromEnd(p, s, |s|, nocase);
    assert FromSome(p, i + 1, s, j, |s| + 1, nocase);
  }

  /** Behind a star that something else follows, the empty rest of the string need not be tried. */
  lemma NonEmptyRests(p: seq<SChar>, i: nat, s: seq<SChar>, j: nat, nocase: bool)
    requires i + 1 < |p| && j <= |s| && p[i] == STAR && p[i + 1] != STAR
    ensures From(p, i, s, j, nocase) <==> FromSome(p, i + 1, s, j, |s|, nocase)
  {
    FromStar(p, i, s, j, nocase);
    FromOne(p, i + 1, s, |s|, nocase);
    if FromSome(p, i + 1, s, j, |s| + 1, nocase) {
      var next := i + 1;
      var k :| j <= k <= |s| && From(p, next, s, k, nocase);
      assert FromSome(p, next, s, j, |s|, nocase);
    }
  }

  /** At the end of the string only stars may be left. */
  lemma StarAtEnd(p: seq<SChar>, i: nat, s: seq<SChar>, nocase: bool)
    requires i < |p| && p[i] == STAR
    ensures From(p, i, s, |s|, nocase) <==> From(p, i + 1, s, |s|, nocase)
  {
    FromStar(p, i, s, |s|, nocase);
    var next := i + 1;
    assert FromSome(p, next, s, |s|, |s| + 1, nocase) <==> From(p, next, s, |s|, nocase);
  }

  /** One more member of a class. */
  lemma SomeItemCons(it: Item, items: seq<Item>, c: SChar, nocase: bool)
    ensures SomeItem([it] + items, c, nocase) <==> ItemAccepts(it, c, nocase) || SomeItem(items, c, nocase)
  {
    assert ([it] + items)[1..] == items;
  }

  /** What the members from position i on come to, by what stands there. */
  lemma ItemsFrom(p: seq<SChar>, i: nat, c: SChar, nocase: bool)
    requires i <= |p|
    ensures var found := SomeItem(Items(p, i), c, nocase);
            if i == |p| then !found && ClassEnd(p, i) == i
            else if p[i] == BACKSLASH && i + 2 <= |p| then
              (found <==> p[i + 1] == c || SomeItem(Items(p, i + 2), c, nocase)) && ClassEnd(p, i) == ClassEnd(p, i + 2)
            else if p[i] == CLOSE then !found && ClassEnd(p, i) == i + 1
            else if i + 3 <= |p| && p[i + 1] == DASH then
              && (found <==> ItemAccepts(Between(p[i], p[i + 2]), c, nocase) || SomeItem(Items(p, i + 3), c, nocase))
              && ClassEnd(p, i) == ClassEnd(p, i + 3)
            else
              && (found <==> Fold(p[i], nocase) == Fold(c, nocase) || SomeItem(Items(p, i + 1), c, nocase))
              && ClassEnd(p, i) == ClassEnd(p, i + 1)
  {
    if i < |p| {
      if p[i] == BACKSLASH && i + 2 <= |p| {
        SomeItemCons(Exact(p[i + 1]), Items(p, i + 2), c, nocase);
      } else if p[i] != CLOSE {
        if i + 3 <= |p| && p[i + 1] == DASH {
          SomeItemCons(Between(p[i], p[i + 2]), Items(p, i + 3), c, nocase);
        } else {
          SomeItemCons(Single(p[i]), Items(p, i + 1), c, nocase);
        }
      }
    }
  }

  // ---------------------------------------------------------------- the matcher

  /** The byte at a cursor; the pattern ends in NUL. */
  function At(p: seq<SChar>, i: nat): SChar {
    if i < |p| then p[i] else 0
  }

  /** The loop over a bracket class: whether c is among the members that begin at `from`, and the
      position behind the class. */
  method ScanClass(p: seq<SChar>, from: nat, c: SChar, nocase: bool) returns (found: bool, i: nat)
    requires from <= |p|
    ensures found == SomeItem(Items(p, from), c, nocase) && i == ClassEnd(p, from)
  {
    found, i := false, from;
    while true
      invariant i <= |p| && ClassEnd(p, i) == ClassEnd(p, from)
      invariant SomeItem(Items(p, from), c, nocase) <==> found || SomeItem(Items(p, i), c, nocase)
      decreases |p| - i
    {
      ItemsFrom(p, i, c, nocase);
      if At(p, i) == BACKSLASH && |p| - i >= 2 {
        if p[i + 1] == c { found := true; }
        i := i + 2;
      } else if At(p, i) == CLOSE {
        return found, i + 1;
      } else if |p| - i == 0 {
        return found, i;
      } else if |p| - i >= 3 && p[i + 1] == DASH {
        var start, end := p[i], p[i + 2];
        if start > end { start, end := end, start; }
        if nocase {
          if ToLower(start) <= ToLower(c) <= ToLower(end) { found := true; }
        } else {
          if start <= c <= end { found := true; }
        }
        i := i + 3;
      } else {
        if Fold(p[i], nocase) == Fold(c, nocase) { found := true; }
        i := i + 1;
      }
    }
  }

  /** `string_match_len` at two cursors.  With something left of the string the answer is the relation;
      with nothing left the source never enters its loop. */
  method MatchAt(p: seq<SChar>, from: nat, s: seq<SChar>, at: nat, nocase: bool) returns (b: bool)
    requires from <= |p| && at <= |s|
    ensures b <==> if at == |s| then from == |p| else From(p, from, s, at, nocase)
    decreases |p| - from, 2
  {
    var i, j := from, at;
    if j == |s| { return i == |p|; }
    while i < |p| && j < |s|
      invariant from <= i <= |p| && at <= j < |s|
      invariant From(p, from, s, at, nocase) <==> From(p, i, s, j, nocase)
      decreases |p| - i
    {
      if p[i] == STAR {
        b := MatchStar(p, i, s, j, nocase);
        return;
      }
      FromOne(p, i, s, j, nocase);
      var ok, next := MatchOne(p, i, s[j], nocase);
      if !ok { return false; }
      i := next;
      j := j + 1;
      if j == |s| {
        i := SkipStars(p, i, s, nocase);
        return i == |p|;
      }
    }
    FromEnd(p, s, j, nocase);
    return false;
  }

  /** One token against one character. */
  method MatchOne(p: seq<SChar>, i: nat, c: SChar, nocase: bool) returns (ok: bool, next: nat)
    requires i < |p| && p[i] != STAR
    ensures ok == Accepts(TokenAt(p, i), c, nocase) && next == TokenEnd(p, i)
  {
    if p[i] == QUESTION { return true, i + 1; }
    if p[i] == OPEN {
      var first := i + 1;
      var negated := At(p, first) == CARET;
      if negated { first := first + 1; }
      ok, next := ScanClass(p, first, c, nocase);
      if negated { ok := !ok; }
      return;
    }
    var k := i;
    if p[i] == BACKSLASH && |p| - i >= 2 { k := k + 1; }
    return Fold(p[k], nocase) == Fold(c, nocase), k + 1;
  }

  /** Skips the stars at the end of the string; what is left must be the end of the pattern. */
  method SkipStars(p: seq<SChar>, from: nat, s: seq<SChar>, nocase: bool) returns (i: nat)
    requires from <= |p|
    ensures from <= i <= |p| && (i == |p| <==> From(p, from, s, |s|, nocase))
  {
    i := from;
    while At(p, i) == STAR
      invariant from <= i <= |p| && (From(p, from, s, |s|, nocase) <==> From(p, i, s, |s|, nocase))
      decreases |p| - i
    {
      StarAtEnd(p, i, s, nocase);
      i := i + 1;
    }
    if i == |p| { FromEnd(p, s, |s|, nocase); } else { FromOne(p, i, s, |s|, nocase); }
  }

  /** A run of stars: the rest of the pattern is tried at every non-empty rest of the string. */
  method MatchStar(p: seq<SChar>, from: nat, s: seq<SChar>, at: nat, nocase: bool) returns (b: bool)
    requires from < |p| && at < |s| && p[from] == STAR
    ensures b <==> From(p, from, s, at, nocase)
    decreases |p| - from, 1
  {
    var i := from;
    while At(p, i + 1) == STAR
      invariant from <= i < |p| && p[i] == STAR && (From(p, from, s, at, nocase) <==> From(p, i, s, at, nocase))
      decreases |p| - i
    {
      StarsCollapse(p, i, s, at, nocase);
      i := i + 1;
    }
    if i + 1 == |p| {
      LastStar(p, i, s, at, nocase);
      return true;
    }
    NonEmptyRests(p, i, s, at, nocase);
    b := MatchRests(p, i + 1, s, at, nocase);
  }

  method MatchRests(p: seq<SChar>, next: nat, s: seq<SChar>, at: nat, nocase: bool) returns (b: bool)
    requires next <= |p| && at <= |s|
    ensures b <==> FromSome(p, next, s, at, |s|, nocase)
    decreases |p| - next, 3
  {
    var j := at;
    while j < |s|
      invariant at <= j <= |s|
      invariant forall k :: at <= k < j ==> !From(p, next, s, k, nocase)
    {
      var here := MatchAt(p, next, s, j, nocase);
      if here { return true; }
      j := j + 1;
    }
    return false;
  }

  /** `string_match_len`.  On a non-empty string the answer is the glob relation. */
  method StringMatchLen(p: seq<SChar>, s: seq<SChar>, nocase: bool) returns (b: bool)
    ensures s != [] ==> (b <==> Matches(Tokens(p, 0), s, nocase))
    ensures s == [] ==> (b <==> p == [])
  {
    b := MatchAt(p, 0, s, 0, nocase);
    assert s[0..] == s;
  }

  /** Nothing but stars from position i on. */
  predicate AllStars(p: seq<SChar>, i: nat)
    requires i <= |p|
    decreases |p| - i
  {
    i == |p| || (p[i] == STAR && AllStars(p, i + 1))
  }

  lemma {:induction false} OnlyStarsMatchEmpty(p: seq<SChar>, i: nat, none: seq<SChar>, nocase: bool)
    requires i <= |p| && none == []
    ensures From(p, i, none, 0, nocase) <==> AllStars(p, i)
    decreases |p| - i
  {
    if i == |p| {
      FromEnd(p, none, 0, nocase);
    } else if p[i] == STAR {
      OnlyStarsMatchEmpty(p, i + 1, none, nocase);
      StarAtEnd(p, i, none, nocase);
    } else {
      FromOne(p, i, none, 0, nocase);
    }
  }

  /** On the empty string the source accepts only the empty pattern; that differs from the relation
      exactly for the patterns of one or more stars and nothing else. */
  lemma EmptyStringFlaw(p: seq<SChar>, nocase: bool)
    ensures (p == [] <==> Matches(Tokens(p, 0), [], nocase)) <==> !(p != [] && AllStars(p, 0))
  {
    var none: seq<SChar> := [];
    OnlyStarsMatchEmpty(p, 0, none, nocase);
    assert none[0..] == none;
  }

  // ---------------------------------------------------------------- patterns as they are written

  /** A character that stands for itself inside and outside of brackets. */
  predicate Plain(c: SChar) {
    c != STAR && c != QUESTION && c != OPEN && c != BACKSLASH && c != CLOSE && c != CARET && c != DASH
  }

  predicate PlainItem(it: Item) {
    match it
    case Exact(_) => true
    case Single(x) => Plain(x)
    case Between(a, _) => Plain(a)
  }

  predicate PlainToken(t: Token) {
    t.Class? ==> forall i {:trigger t.items[i]} :: 0 <= i < |t.items| ==> PlainItem(t.items[i])
  }

  ghost predicate AllPlain(ts: seq<Token>) {
    forall i {:trigger ts[i]} :: 0 <= i < |ts| ==> PlainToken(ts[i])
  }

  function WriteItem(it: Item): (p: seq<SChar>)
    ensures p != []
  {
    match it
    case Exact(c) => [BACKSLASH, c]
    case Single(c) => [c]
    case Between(a, b) => [a, DASH, b]
  }

  function WriteItems(items: seq<Item>): seq<SChar> {
    if items == [] then [CLOSE] else WriteItem(items[0]) + WriteItems(items[1..])
  }

  /** A literal is escaped unless it is plain. */
  function WriteToken(t: Token): (p: seq<SChar>)
    ensures p != []
  {
    match t
    case AnyRun => [STAR]
    case AnyOne => [QUESTION]
    case Literal(c) => if Plain(c) then [c] else [BACKSLASH, c]
    case Class(negated, items) => (if negated then [OPEN, CARET] else [OPEN]) + WriteItems(items)
  }

  function WriteTokens(ts: seq<Token>): seq<SChar> {
    if ts == [] then [] else WriteToken(ts[0]) + WriteTokens(ts[1..])
  }

  /** The characters of `part` stand in `p` from position i on. */
  ghost predicate StandsAt(p: seq<SChar>, i: nat, part: seq<SChar>) {
    i + |part| <= |p| && p[i..i + |part|] == part
  }

  lemma StandsSplit(p: seq<SChar>, i: nat, a: seq<SChar>, b: seq<SChar>)
    requires StandsAt(p, i, a + b)
    ensures StandsAt(p, i, a) && StandsAt(p, i + |a|, b)
  {
    var all := p[i..i + |a + b|];
    assert all[..|a|] == a && all[|a|..] == b;
    assert p[i..i + |a|] == all[..|a|] && p[i + |a|..i + |a| + |b|] == all[|a|..];
  }

  lemma StandsChars(p: seq<SChar>, i: nat, part: seq<SChar>, k: nat)
    requires StandsAt(p, i, part) && k < |part|
    ensures p[i + k] == part[k]
  {
    assert p[i..i + |part|][k] == part[k];
  }

  /** What a class is written with begins with nothing that would be read as part of what came before. */
  lemma ItemsBegin(items: seq<Item>)
    requires forall i {:trigger items[i]} :: 0 <= i < |items| ==> PlainItem(items[i])
    ensures WriteItems(items) != [] && WriteItems(items)[0] != DASH && WriteItems(items)[0] != CARET
  {
  }

  /** The members of a class are read back as they were written, and the class ends behind its bracket. */
  lemma {:induction false} ItemsReadBack(p: seq<SChar>, i: nat, items: seq<Item>)
    requires forall k {:trigger items[k]} :: 0 <= k < |items| ==> PlainItem(items[k])
    requires StandsAt(p, i, WriteItems(items))
    ensures Items(p, i) == items && ClassEnd(p, i) == i + |WriteItems(items)|
    decreases |items|
  {
    StandsChars(p, i, WriteItems(items), 0);
    if items != [] {
      var it, rest := items[0], items[1..];
      StandsSplit(p, i, WriteItem(it), WriteItems(rest));
      ItemsBegin(rest);
      StandsChars(p, i + |WriteItem(it)|, WriteItems(rest), 0);
      ItemsReadBack(p, i + |WriteItem(it)|, rest);
      ItemReadBack(p, i, it);
      assert items == [it] + rest;
    }
  }

  lemma ItemReadBack(p: seq<SChar>, i: nat, it: Item)
    requires PlainItem(it) && StandsAt(p, i, WriteItem(it)) && i + |WriteItem(it)| < |p| && p[i + |WriteItem(it)|] != DASH
    ensures Items(p, i) == [it] + Items(p, i + |WriteItem(it)|) && ClassEnd(p, i) == ClassEnd(p, i + |WriteItem(it)|)
  {
    StandsChars(p, i, WriteItem(it), 0);
    if |WriteItem(it)| > 1 { StandsChars(p, i, WriteItem(it), 1); }
    if |WriteItem(it)| > 2 { StandsChars(p, i, WriteItem(it), 2); }
  }

  lemma TokenReadBack(p: seq<SChar>, i: nat, t: Token)
    requires PlainToken(t) && StandsAt(p, i, WriteToken(t))
    ensures i < |p| && TokenAt(p, i) == t && TokenEnd(p, i) == i + |WriteToken(t)|
  {
    StandsChars(p, i, WriteToken(t), 0);
    if |WriteToken(t)| > 1 { StandsChars(p, i, WriteToken(t), 1); }
    if t.Class? {
      var open := if t.negated then [OPEN, CARET] else [OPEN];
      StandsSplit(p, i, open, WriteItems(t.items));
      ItemsBegin(t.items);
      StandsChars(p, i + |open|, WriteItems(t.items), 0);
      ItemsReadBack(p, i + |open|, t.items);
    }
  }

  lemma RestSplit(p: seq<SChar>, i: nat, a: seq<SChar>, b: seq<SChar>)
    requires i <= |p| && p[i..] == a + b
    ensures StandsAt(p, i, a) && i + |a| <= |p| && p[i + |a|..] == b
  {
    assert |p| - i == |a| + |b|;
    assert p[i..][..|a|] == a && p[i..][|a|..] == b;
    assert p[i..i + |a|] == p[i..][..|a|] && p[i + |a|..] == p[i..][|a|..];
  }

  lemma TokensFrom(p: seq<SChar>, i: nat, t: Token, j: nat, rest: seq<Token>)
    requires i < |p| && j <= |p| && TokenAt(p, i) == t && TokenEnd(p, i) == j && Tokens(p, j) == rest
    ensures Tokens(p, i) == [t] + rest
  {
  }

  lemma FirstReadBack(p: seq<SChar>, i: nat, t: Token, more: seq<SChar>) returns (j: nat)
    requires PlainToken(t) && i <= |p| && p[i..] == WriteToken(t) + more
    ensures i < j <= |p| && TokenAt(p, i) == t && TokenEnd(p, i) == j && p[j..] == more
  {
    RestSplit(p, i, WriteToken(t), more);
    TokenReadBack(p, i, t);
    j := i + |WriteToken(t)|;
  }

  lemma {:induction false} TokensReadBack(p: seq<SChar>, i: nat, ts: seq<Token>)
    requires AllPlain(ts) && i <= |p| && p[i..] == WriteTokens(ts)
    ensures Tokens(p, i) == ts
    decreases |ts|
  {
    if ts != [] {
      var j := FirstReadBack(p, i, ts[0], WriteTokens(ts[1..]));
      TokensReadBack(p, j, ts[1..]);
      TokensFrom(p, i, ts[0], j, ts[1..]);
      assert ts == [ts[0]] + ts[1..];
    }
  }

  /** Reading is the inverse of writing: any list of tokens, written down, is read back as it was. */
  lemma ReadsWhatIsWritten(ts: seq<Token>)
    requires AllPlain(ts)
    ensures Tokens(WriteTokens(ts), 0) == ts
  {
    assert WriteTokens(ts)[0..] == WriteTokens(ts);
    TokensReadBack(WriteTokens(ts), 0, ts);
  }

  function Literals(s: seq<SChar>): (ts: seq<Token>)
    ensures |ts| == |s|
  {
    if s == [] then [] else [Literal(s[0])] + Literals(s[1..])
  }

  /** A text written as a pattern, every special character escaped, matches that very text and no other; with
      `nocase`, the texts that differ from it in case at most. */
  lemma {:induction false} TextMatchesItself(text: seq<SChar>, s: seq<SChar>, nocase: bool)
    ensures Matches(Literals(text), s, nocase)
            <==> |s| == |text| && forall i :: 0 <= i < |s| ==> Fold(text[i], nocase) == Fold(s[i], nocase)
    ensures AllPlain(Literals(text))
  {
    if text != [] {
      var ts := Literals(text);
      assert ts[1..] == Literals(text[1..]);
      TextMatchesItself(text[1..], if s == [] then s else s[1..], nocase);
      forall i | 0 <= i < |ts| ensures PlainToken(ts[i]) {
        if i > 0 { assert ts[i] == ts[1..][i - 1]; }
      }
      if s != [] && |s| == |text| { SameTail(text, s, nocase); }
    }
  }

  lemma SameTail(text: seq<SChar>, s: seq<SChar>, nocase: bool)
    requires |s| == |text| > 0
    ensures (forall i :: 0 <= i < |s| ==> Fold(text[i], nocase) == Fold(s[i], nocase))
            <==> Fold(text[0], nocase) == Fold(s[0], nocase)
                 && forall i :: 0 <= i < |s[1..]| ==> Fold(text[1..][i], nocase) == Fold(s[1..][i], nocase)
  {
    if forall i :: 0 <= i < |s[1..]| ==> Fold(text[1..][i], nocase) == Fold(s[1..][i], nocase) {
      forall i | 1 <= i < |s| ensures Fold(text[i], nocase) == Fold(s[i], nocase) {
        assert text[i] == text[1..][i - 1] && s[i] == s[1..][i - 1];
      }
    }
  }

  /** A class accepts a character if and only if one of its members does, unless it is negated: then exactly
      the others.  A range holds what lies between its ends, whichever way round it is written. */
  lemma ClassRule(negated: bool, items: seq<Item>, c: SChar)
    ensures Accepts(Class(negated, items), c, false) <==> (exists i :: 0 <= i < |items| && IsIn(items[i], c)) != negated
  {
    SomeItemIs(items, c);
  }

  predicate IsIn(it: Item, c: SChar) {
    match it
    case Exact(x) => c == x
    case Single(x) => c == x
    case Between(a, b) => a <= c <= b || b <= c <= a
  }

  lemma {:induction false} SomeItemIs(items: seq<Item>, c: SChar)
    ensures SomeItem(items, c, false) <==> exists i :: 0 <= i < |items| && IsIn(items[i], c)
  {
    if items != [] {
      SomeItemIs(items[1..], c);
      if SomeItem(items[1..], c, false) {
        var i :| 0 <= i < |items[1..]| && IsIn(items[1..][i], c);
        assert IsIn(items[i + 1], c);
      }
      if exists i :: 0 <= i < |items| && IsIn(items[i], c) {
        var i :| 0 <= i < |items| && IsIn(items[i], c);
        if i > 0 { assert IsIn(items[1..][i - 1], c); }
      }
    }
  }
}
