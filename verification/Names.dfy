/** Templates whose names contain an id only where it was substituted. */
module Names {
  import opened Uuids
  import opened Templates

  /** What is substituted: an id, or nothing where there is none. */
  predicate IsIdOrEmpty(x: string) { IsUuid(x) || x == "" }

  function Name(t: string, o: string, p: string): string { Fill(t, ORG_HOLE, o, PROJECT_HOLE, p) }

  /** Whether an id was substituted into a template. */
  predicate Substituted(t: string, o: string, p: string, u: string) {
    (u == o && Contains(t, ORG_HOLE)) || (u == p && Contains(t, PROJECT_HOLE))
  }

  /** What is asked of a template: whatever ids are substituted, the name contains those and no other. */
  ghost predicate Clean(t: string) {
    forall o, p, u :: IsIdOrEmpty(o) && IsIdOrEmpty(p) && IsUuid(u) ==>
                        (Contains(Expand(t, o, p), u) <==> Substituted(t, o, p, u))
  }

  lemma CleanName(t: string, o: string, p: string, u: string)
    requires Clean(t) && IsIdOrEmpty(o) && IsIdOrEmpty(p) && IsUuid(u)
    ensures Contains(Expand(t, o, p), u) <==> Substituted(t, o, p, u)
  {
  }

  // --- Templates without stray brackets: the order of the replacements ---

  /** Every opening bracket begins a placeholder. */
  predicate Bracketed(t: string) {
    if t == "" then true
    else if ORG_HOLE <= t then Bracketed(t[|ORG_HOLE|..])
    else if PROJECT_HOLE <= t then Bracketed(t[|PROJECT_HOLE|..])
    else t[0] != '<' && Bracketed(t[1..])
  }

  lemma {:induction false} BracketedTwoPasses(t: string, o: string, p: string)
    requires Bracketed(t) && Plain(o)
    ensures Expand(t, o, p) == Name(t, o, p)
    decreases |t|
  {
    TheHoles();
    if t == "" {
    } else if ORG_HOLE <= t {
      BracketedTwoPasses(t[|ORG_HOLE|..], o, p);
      PassOver(o, ReplaceAll(t[|ORG_HOLE|..], ORG_HOLE, o), PROJECT_HOLE, p);
    } else if PROJECT_HOLE <= t {
      BracketedTwoPasses(t[|PROJECT_HOLE|..], o, p);
      SkipHole(t, ORG_HOLE, o, PROJECT_HOLE);
      ReplaceFirst(PROJECT_HOLE, ReplaceAll(t[|PROJECT_HOLE|..], ORG_HOLE, o), p);
    } else {
      BracketedTwoPasses(t[1..], o, p);
      PassOver([t[0]], ReplaceAll(t[1..], ORG_HOLE, o), PROJECT_HOLE, p);
    }
  }

  lemma {:induction false} BracketedBackwards(t: string, o: string, p: string)
    requires Bracketed(t) && Plain(p)
    ensures ReplaceAll(ReplaceAll(t, PROJECT_HOLE, p), ORG_HOLE, o) == Name(t, o, p)
    decreases |t|
  {
    TheHoles();
    if t == "" {
    } else if ORG_HOLE <= t {
      BracketedBackwards(t[|ORG_HOLE|..], o, p);
      SkipHole(t, PROJECT_HOLE, p, ORG_HOLE);
      ReplaceFirst(ORG_HOLE, ReplaceAll(t[|ORG_HOLE|..], PROJECT_HOLE, p), o);
    } else if PROJECT_HOLE <= t {
      BracketedBackwards(t[|PROJECT_HOLE|..], o, p);
      PassOver(p, ReplaceAll(t[|PROJECT_HOLE|..], PROJECT_HOLE, p), ORG_HOLE, o);
    } else {
      BracketedBackwards(t[1..], o, p);
      PassOver([t[0]], ReplaceAll(t[1..], PROJECT_HOLE, p), ORG_HOLE, o);
    }
  }

  /** Where every opening bracket begins a placeholder, the order of the replacements does not matter,
      for ids and for their absence alike. */
  lemma BracketedCommute(t: string, o: string, p: string)
    requires Bracketed(t) && Plain(o) && Plain(p)
    ensures Expand(t, o, p) == ReplaceAll(ReplaceAll(t, PROJECT_HOLE, p), ORG_HOLE, o) == Name(t, o, p)
  {
    BracketedTwoPasses(t, o, p);
    BracketedBackwards(t, o, p);
  }

  // --- Exactly when the order does not matter ---

  /** How often a pattern is replaced. */
  function Count(s: string, pattern: string): nat
    requires pattern != ""
  {
    if s == "" then 0
    else if pattern <= s then 1 + Count(s[|pattern|..], pattern)
    else Count(s[1..], pattern)
  }

  lemma {:induction false} CountBeyond(x: string, s: string, a: string)
    requires IsHole(a) && forall i :: 0 <= i < |x| ==> x[i] != '<'
    ensures Count(x + s, a) == Count(s, a)
    decreases |x|
  {
    if x == "" {
      assert x + s == s;
    } else {
      assert (x + s)[0] == x[0] && (x + s)[1..] == x[1..] + s;
      CountBeyond(x[1..], s, a);
    }
  }

  lemma CountPastHole(t: string, a: string, b: string)
    requires IsHole(a) && IsHole(b) && b <= t
    ensures Count(t, a) == Count(t[|b|..], a) + if a == b then 1 else 0
  {
    if a != b {
      if a <= t { HolesAreNotPrefixes(t, a, b); }
      assert t[1..] == b[1..] + t[|b|..];
      CountBeyond(b[1..], t[|b|..], a);
    }
  }

  lemma CountOfHole(s: string, b: string)
    requires IsHole(b)
    ensures Count(b + s, b) == 1 + Count(s, b)
  {
    assert (b + s)[|b|..] == s;
  }

  /** Where removing one placeholder brings about another one, there is one more of these. */
  lemma CountOfNewHole(s: string, b: string)
    requires IsHole(b) && b <= s
    ensures Count(s, b) == 1 + Count(s[1..], b)
  {
    assert s[1..] == b[1..] + s[|b|..];
    CountBeyond(b[1..], s[|b|..], b);
  }

  /** How the counts go on from the first character or placeholder of a template when the placeholder `a`
      is removed from it. */
  lemma RemovalAt(t: string, a: string, b: string, x: string)
    requires IsHole(a) && IsHole(b) && a != b && x == "" && t != ""
    ensures var n, s := Count(ReplaceAll(t, a, x), b), Count(t, b);
            if a <= t then
              n == Count(ReplaceAll(t[|a|..], a, x), b) && s == Count(t[|a|..], b)
            else if b <= t then
              n == 1 + Count(ReplaceAll(t[|b|..], a, x), b) && s == 1 + Count(t[|b|..], b)
            else
              n == Count(ReplaceAll(t[1..], a, x), b) + (if b <= ReplaceAll(t, a, x) then 1 else 0)
              && s == Count(t[1..], b)
  {
    if a <= t {
      CountPastHole(t, b, a);
      assert x + ReplaceAll(t[|a|..], a, x) == ReplaceAll(t[|a|..], a, x);
    } else if b <= t {
      SkipHole(t, a, x, b);
      CountOfHole(ReplaceAll(t[|b|..], a, x), b);
    } else {
      assert ReplaceAll(t, a, x)[1..] == ReplaceAll(t[1..], a, x);
      if b <= ReplaceAll(t, a, x) { CountOfNewHole(ReplaceAll(t, a, x), b); }
    }
  }

  /** Removing one placeholder never leaves fewer of the other. */
  lemma {:induction false} RemovalKeepsCount(t: string, a: string, b: string, x: string)
    requires IsHole(a) && IsHole(b) && a != b && x == ""
    ensures Count(ReplaceAll(t, a, x), b) >= Count(t, b)
    decreases |t|
  {
    if t != "" {
      RemovalAt(t, a, b, x);
      RemovalKeepsCount(if a <= t then t[|a|..] else if b <= t then t[|b|..] else t[1..], a, b, x);
    }
  }

  /** If it leaves as many, two passes do what one pass does. */
  lemma {:induction false} SameCountTwoPasses(t: string, a: string, b: string, x: string, y: string)
    requires IsHole(a) && IsHole(b) && a != b && x == "" && Count(ReplaceAll(t, a, x), b) == Count(t, b)
    ensures ReplaceAll(ReplaceAll(t, a, x), b, y) == Fill(t, a, x, b, y)
    decreases |t|
  {
    if t != "" {
      RemovalAt(t, a, b, x);
      if a <= t {
        SameCountTwoPasses(t[|a|..], a, b, x, y);
        assert x + ReplaceAll(t[|a|..], a, x) == ReplaceAll(t[|a|..], a, x);
      } else if b <= t {
        SameCountTwoPasses(t[|b|..], a, b, x, y);
        SkipHole(t, a, x, b);
        ReplaceFirst(b, ReplaceAll(t[|b|..], a, x), y);
      } else {
        RemovalKeepsCount(t[1..], a, b, x);
        SameCountTwoPasses(t[1..], a, b, x, y);
        assert ReplaceAll(t, a, x)[1..] == ReplaceAll(t[1..], a, x);
      }
    }
  }

  /** By how much n replacements lengthen a text. */
  function Growth(n: nat, step: nat): nat { if n == 0 then 0 else step + Growth(n - 1, step) }

  lemma {:induction false} GrowthIsStrict(m: nat, n: nat, step: nat)
    requires m < n && step > 0
    ensures Growth(m, step) < Growth(n, step)
    decreases n
  {
    if m < n - 1 { GrowthIsStrict(m, n - 1, step); }
  }

  lemma {:induction false} ReplacedLength(s: string, b: string, y: string)
    requires 0 < |b| <= |y|
    ensures |ReplaceAll(s, b, y)| == |s| + Growth(Count(s, b), |y| - |b|)
    decreases |s|
  {
    if s != "" { ReplacedLength(if b <= s then s[|b|..] else s[1..], b, y); }
  }

  lemma {:induction false} FilledLength(t: string, a: string, x: string, b: string, y: string)
    requires IsHole(a) && IsHole(b) && a != b && |b| <= |y|
    ensures |Fill(t, a, x, b, y)| == |ReplaceAll(t, a, x)| + Growth(Count(t, b), |y| - |b|)
    decreases |t|
  {
    if t == "" {
    } else if a <= t {
      FilledLength(t[|a|..], a, x, b, y);
      CountPastHole(t, b, a);
    } else if b <= t {
      FilledLength(t[|b|..], a, x, b, y);
      SkipHole(t, a, x, b);
    } else {
      FilledLength(t[1..], a, x, b, y);
    }
  }

  lemma MoreGrow(t: string, a: string, b: string, x: string, y: string)
    requires IsHole(a) && IsHole(b) && a != b && |b| < |y| && Count(ReplaceAll(t, a, x), b) > Count(t, b)
    ensures |ReplaceAll(ReplaceAll(t, a, x), b, y)| > |Fill(t, a, x, b, y)|
  {
    ReplacedLength(ReplaceAll(t, a, x), b, y);
    FilledLength(t, a, x, b, y);
    GrowthIsStrict(Count(t, b), Count(ReplaceAll(t, a, x), b), |y| - |b|);
  }

  /** With one id absent and the other there, the order does not matter exactly if removing the placeholder
      of the absent one brings about none of the other. */
  lemma OneAbsentExactly(t: string, a: string, b: string, x: string, y: string)
    requires IsHole(a) && IsHole(b) && a != b && x == "" && IsUuid(y)
    ensures ReplaceAll(ReplaceAll(t, a, x), b, y) == ReplaceAll(ReplaceAll(t, b, y), a, x) <==>
        Count(ReplaceAll(t, a, x), b) == Count(t, b)
  {
    UuidIsPlain(y);
    TwoPasses(t, b, y, a, x);
    FillIsSymmetric(t, a, x, b, y);
    RemovalKeepsCount(t, a, b, x);
    if Count(ReplaceAll(t, a, x), b) == Count(t, b) {
      SameCountTwoPasses(t, a, b, x, y);
    } else {
      MoreGrow(t, a, b, x, y);
    }
  }

  /** Removing the one placeholder does not bring about the other. */
  predicate Independent(t: string) {
    && Count(ReplaceAll(t, ORG_HOLE, ""), PROJECT_HOLE) == Count(t, PROJECT_HOLE)
    && Count(ReplaceAll(t, PROJECT_HOLE, ""), ORG_HOLE) == Count(t, ORG_HOLE)
  }

  ghost predicate OrderIsIrrelevant(t: string) {
    forall o, p :: IsIdOrEmpty(o) && IsIdOrEmpty(p) ==> Agree(t, o, p)
  }

  /** The two orders of replacement. */
  predicate Agree(t: string, o: string, p: string) {
    ReplaceAll(ReplaceAll(t, ORG_HOLE, o), PROJECT_HOLE, p) == ReplaceAll(ReplaceAll(t, PROJECT_HOLE, p), ORG_HOLE, o)
  }

  lemma IndependentCommute(t: string, o: string, p: string)
    requires Independent(t) && IsIdOrEmpty(o) && IsIdOrEmpty(p)
    ensures Agree(t, o, p)
  {
    TheHoles();
    if IsUuid(o) && IsUuid(p) {
      ReplacementsCommute(t, o, p);
    } else if IsUuid(o) {
      OneAbsentExactly(t, PROJECT_HOLE, ORG_HOLE, p, o);
    } else if IsUuid(p) {
      OneAbsentExactly(t, ORG_HOLE, PROJECT_HOLE, o, p);
    } else {
      SameCountTwoPasses(t, ORG_HOLE, PROJECT_HOLE, o, p);
      SameCountTwoPasses(t, PROJECT_HOLE, ORG_HOLE, p, o);
      FillIsSymmetric(t, ORG_HOLE, o, PROJECT_HOLE, p);
    }
  }

  /** For every template: the two orders of replacement agree for all ids and absences if and only if
      removing neither placeholder brings about the other. */
  lemma OrderIsIrrelevantExactly(t: string)
    ensures OrderIsIrrelevant(t) <==> Independent(t)
  {
    TheHoles();
    if OrderIsIrrelevant(t) {
      var u := seq(UUID_LENGTH, i => if IsDashPosition(i) then '-' else '0');
      assert Agree(t, "", u) && Agree(t, u, "");
      OneAbsentExactly(t, ORG_HOLE, PROJECT_HOLE, "", u);
      OneAbsentExactly(t, PROJECT_HOLE, ORG_HOLE, "", u);
    }
    if Independent(t) {
      forall o, p | IsIdOrEmpty(o) && IsIdOrEmpty(p) ensures Agree(t, o, p) { IndependentCommute(t, o, p); }
    }
  }

  // --- Templates whose placeholders stand apart ---

  /** A dash, four digits and a dash: how a text can go on the first group of an id. */
  predicate ContinuesId(rest: string) {
    && |rest| >= 6 && rest[0] == '-' && rest[5] == '-'
    && forall i :: 1 <= i < 5 ==> IsHex(rest[i])
  }

  /** What may follow a placeholder: the end, or anything but a digit, another placeholder, and a text
      that could be the rest of an id. */
  predicate AfterHole(rest: string) {
    rest == "" || (rest[0] != '<' && !IsHex(rest[0]) && !ContinuesId(rest))
  }

  /** No placeholder comes right after a digit, and after it comes nothing that could go on an id;
      `apart` says whether a placeholder may come first. */
  predicate Tidy(t: string, apart: bool) {
    if t == "" then true
    else if ORG_HOLE <= t then apart && AfterHole(t[|ORG_HOLE|..]) && Tidy(t[|ORG_HOLE|..], false)
    else if PROJECT_HOLE <= t then apart && AfterHole(t[|PROJECT_HOLE|..]) && Tidy(t[|PROJECT_HOLE|..], false)
    else Tidy(t[1..], !IsHex(t[0]))
  }

  predicate AtHole(t: string) { ORG_HOLE <= t || PROJECT_HOLE <= t }

  function HoleLength(t: string): nat { if ORG_HOLE <= t then |ORG_HOLE| else |PROJECT_HOLE| }

  /** The placeholder at position i stands apart. */
  predicate StandsApart(t: string, i: nat)
    requires i < |t|
  {
    AtHole(t[i..]) ==> (i > 0 ==> !IsHex(t[i - 1])) && AfterHole(t[i..][HoleLength(t[i..])..])
  }

  lemma NoneWithin(t: string, a: string, i: nat)
    requires IsHole(a) && a <= t && 0 < i < |a|
    ensures !AtHole(t[i..])
  {
    assert t[i..][0] == a[i];
  }

  /** What tidy means, position by position. */
  lemma {:induction false} TidyExactly(t: string, apart: bool)
    ensures Tidy(t, apart) <==> (AtHole(t) ==> apart) && forall i :: 0 <= i < |t| ==> StandsApart(t, i)
    decreases |t|
  {
    TheHoles();
    if t == "" {
    } else if AtHole(t) {
      var n := HoleLength(t);
      var rest := t[n..];
      TidyExactly(rest, false);
      forall i | 0 < i < n ensures StandsApart(t, i) { NoneWithin(t, t[..n], i); }
      forall i | 0 <= i < |rest| ensures t[n + i..] == rest[i..] { }
      assert t[0..] == t && t[n - 1] == '>';
      StandsAfterHole(t, n);
    } else {
      TidyExactly(t[1..], !IsHex(t[0]));
      assert t[0..] == t;
      StandsAfterChar(t);
    }
  }

  lemma StandsAfterHole(t: string, n: nat)
    requires AtHole(t) && n == HoleLength(t) && t[n - 1] == '>'
    requires forall i :: 0 < i < n ==> StandsApart(t, i)
    ensures (forall i :: 0 <= i < |t| ==> StandsApart(t, i)) <==>
            AfterHole(t[n..]) && !AtHole(t[n..]) && forall i :: 0 <= i < |t[n..]| ==> StandsApart(t[n..], i)
  {
    var rest := t[n..];
    assert t[0..] == t;
    forall i | 0 <= i < |rest| ensures StandsApart(t, n + i) <==> StandsApart(rest, i) {
      assert t[n + i..] == rest[i..];
      assert i > 0 ==> t[n + i - 1] == rest[i - 1];
    }
    if forall i :: 0 <= i < |t| ==> StandsApart(t, i) {
      assert StandsApart(t, 0);
      forall i | 0 <= i < |rest| ensures StandsApart(rest, i) { assert StandsApart(t, n + i); }
    }
    if AfterHole(rest) && forall i :: 0 <= i < |rest| ==> StandsApart(rest, i) {
      forall i | 0 <= i < |t| ensures StandsApart(t, i) {
        if i >= n { assert StandsApart(rest, i - n); }
      }
    }
  }

  lemma StandsAfterChar(t: string)
    requires t != "" && !AtHole(t)
    ensures (forall i :: 0 <= i < |t| ==> StandsApart(t, i)) <==>
            (AtHole(t[1..]) ==> !IsHex(t[0])) && forall i :: 0 <= i < |t[1..]| ==> StandsApart(t[1..], i)
  {
    var rest := t[1..];
    assert t[0..] == t;
    forall i | 0 <= i < |rest|
      ensures StandsApart(t, i + 1) <==> StandsApart(rest, i) && (i == 0 && AtHole(rest) ==> !IsHex(t[0]))
    {
      assert t[i + 1..] == rest[i..];
      assert i > 0 ==> t[i] == rest[i - 1];
    }
    if forall i :: 0 <= i < |t| ==> StandsApart(t, i) {
      forall i | 0 <= i < |rest| ensures StandsApart(rest, i) { assert StandsApart(t, i + 1); }
      assert AtHole(rest) ==> StandsApart(t, 1);
    }
    if (AtHole(rest) ==> !IsHex(t[0])) && forall i :: 0 <= i < |rest| ==> StandsApart(rest, i) {
      forall i | 0 <= i < |t| ensures StandsApart(t, i) {
        if i > 0 { assert StandsApart(rest, i - 1); }
      }
    }
  }

  lemma IdIsPlain(x: string)
    requires IsIdOrEmpty(x)
    ensures Plain(x)
  {
  }

  /** The name at a placeholder: what was substituted, and the name of the rest. */
  lemma NameAtHole(t: string, o: string, p: string) returns (x: string, rest: string)
    requires AtHole(t) && IsIdOrEmpty(o) && IsIdOrEmpty(p)
    ensures Name(t, o, p) == x + Name(rest, o, p) && IsIdOrEmpty(x) && |rest| < |t|
    ensures forall apart :: Tidy(t, apart) ==> apart && AfterHole(rest) && Tidy(rest, false)
  {
    if ORG_HOLE <= t {
      x, rest := o, t[|ORG_HOLE|..];
    } else {
      x, rest := p, t[|PROJECT_HOLE|..];
    }
  }

  /** What follows a placeholder is literal, and no digit. */
  lemma AfterHoleIsLiteral(rest: string, o: string, p: string)
    requires AfterHole(rest) && rest != ""
    ensures !AtHole(rest) && Name(rest, o, p) == [rest[0]] + Name(rest[1..], o, p)
  {
  }

  /** From the position m on, an id that goes on into a name without meeting a placeholder is literal
      text there; and it meets none, for what is substituted has its dashes elsewhere. */
  lemma {:induction false} LiteralFrom(t: string, apart: bool, o: string, p: string, u: string, m: nat)
    requires IsUuid(u) && IsIdOrEmpty(o) && IsIdOrEmpty(p) && m <= |u| && u[m..] <= Name(t, o, p)
    requires Tidy(t, apart) && (if m == 0 then !AtHole(t) else apart == !IsHex(u[m - 1]))
    ensures u[m..] <= t
    decreases |u| - m
  {
    if m < |u| && t != "" {
      if AtHole(t) {
        NoHoleInside(t, o, p, u, m);
      } else {
        assert Name(t, o, p)[1..] == Name(t[1..], o, p) && u[m..][1..] == u[m + 1..];
        assert u[m] == u[m..][0] == t[0];
        LiteralFrom(t[1..], !IsHex(t[0]), o, p, u, m + 1);
        assert u[m..] == [u[m]] + u[m + 1..] && t == [t[0]] + t[1..];
      }
    }
  }

  lemma NoHoleInside(t: string, o: string, p: string, u: string, m: nat)
    requires IsUuid(u) && IsIdOrEmpty(o) && IsIdOrEmpty(p) && 0 < m < |u| && !IsHex(u[m - 1])
    requires Tidy(t, true) && AtHole(t)
    ensures !(u[m..] <= Name(t, o, p))
  {
    var x, rest := NameAtHole(t, o, p);
    var n := Name(t, o, p);
    if x != "" {
      assert n[8] == x[8] == '-' && u[m + 8] == u[m..][8];
    } else if rest != "" {
      AfterHoleIsLiteral(rest, o, p);
      assert n == Name(rest, o, p) && n[0] == rest[0] && u[m] == u[m..][0];
    } else {
      assert n == "";
    }
  }

  /** Four digits and a dash in the name, right after a dash, are literal. */
  lemma {:induction false} GroupIsLiteral(t: string, apart: bool, o: string, p: string, w: string)
    requires IsIdOrEmpty(o) && IsIdOrEmpty(p) && Tidy(t, apart) && 0 < |w| <= 5 && w <= Name(t, o, p)
    requires w[|w| - 1] == '-' && forall i :: 0 <= i < |w| - 1 ==> IsHex(w[i])
    requires |w| == 5 || !apart
    ensures w <= t
    decreases |w|
  {
    var n := Name(t, o, p);
    if AtHole(t) {
      GroupIsNotInId(t, o, p, w);
    } else if t != "" && |w| > 1 {
      assert n[1..] == Name(t[1..], o, p) && w[1..] <= n[1..] && w[0] == t[0];
      GroupIsLiteral(t[1..], false, o, p, w[1..]);
    }
  }

  lemma GroupIsNotInId(t: string, o: string, p: string, w: string)
    requires IsIdOrEmpty(o) && IsIdOrEmpty(p) && Tidy(t, true) && AtHole(t) && |w| == 5 && w[4] == '-' && IsHex(w[0])
    ensures !(w <= Name(t, o, p))
  {
    var x, rest := NameAtHole(t, o, p);
    var n := Name(t, o, p);
    if x != "" {
      assert n[4] == x[4];
    } else if rest != "" {
      AfterHoleIsLiteral(rest, o, p);
      assert n == Name(rest, o, p) && n[0] == rest[0];
    } else {
      assert n == "";
    }
  }

  /** An id that begins inside another one does not fit its dashes. */
  lemma DashesDiffer(x: string, k: nat, s: string, u: string)
    requires IsUuid(x) && IsUuid(u) && 1 <= k < 28
    ensures !(u <= x[k..] + s)
  {
    var r := x[k..] + s;
    assert r[8] == x[k + 8];
    if k == 5 || k == 10 || k == 15 { assert r[28 - k] == x[28]; }
  }

  /** Nor can it begin in the last group of digits and go on after it. */
  lemma TailDoesNotContinue(x: string, k: nat, rest: string, o: string, p: string, u: string)
    requires IsUuid(x) && IsUuid(u) && 28 <= k < |x| && IsIdOrEmpty(o) && IsIdOrEmpty(p)
    requires AfterHole(rest) && Tidy(rest, false)
    ensures !(u <= x[k..] + Name(rest, o, p))
  {
    var n, j := Name(rest, o, p), |x| - k;
    var r := x[k..] + n;
    if rest == "" {
      assert |r| < |u|;
    } else if u <= r {
      AfterHoleIsLiteral(rest, o, p);
      assert r[j] == n[0] == rest[0] && u[j] == r[j];
      assert j == 8 && rest[0] == '-';
      var w := u[9..14];
      assert forall i :: 0 <= i < 5 ==> w[i] == r[9 + i] == n[1 + i];
      assert n[1..] == Name(rest[1..], o, p) && w <= n[1..];
      GroupIsLiteral(rest[1..], true, o, p, w);
      GroupContinues(rest, w);
    }
  }

  lemma GroupContinues(rest: string, w: string)
    requires rest != "" && rest[0] == '-' && |w| == 5 && w <= rest[1..] && w[4] == '-'
    requires forall i :: 0 <= i < 4 ==> IsHex(w[i])
    ensures ContinuesId(rest)
  {
    assert forall i :: 0 <= i < 5 ==> rest[1 + i] == rest[1..][i] == w[i];
    assert forall i :: 1 <= i < 5 ==> rest[i] == w[i - 1];
  }

  lemma NotPrefix(u: string, x: string, s: string)
    requires u != x && |u| == |x|
    ensures !(u <= x + s)
  {
    assert (x + s)[..|x|] == x;
  }

  /** An id found from a placeholder on is the one substituted for it, or comes later. */
  lemma FoundAtHole(x: string, rest: string, o: string, p: string, u: string)
    requires IsIdOrEmpty(x) && IsIdOrEmpty(o) && IsIdOrEmpty(p) && IsUuid(u) && AfterHole(rest) && Tidy(rest, false)
    requires Contains(x + Name(rest, o, p), u) && u != x
    ensures Contains(Name(rest, o, p), u)
  {
    var n := Name(rest, o, p);
    forall k | 0 <= k < |x| ensures !(u <= x[k..] + n) {
      if k == 0 {
        NotPrefix(u, x, n);
        assert x[0..] == x;
      } else if k < 28 {
        DashesDiffer(x, k, n, u);
      } else {
        TailDoesNotContinue(x, k, rest, o, p, u);
      }
    }
    ContainsBeyond(x, n, u);
  }

  lemma Beyond(a: string, t: string, u: string)
    requires a <= t && !Contains(t, u)
    ensures !Contains(t[|a|..], u) && t == a + t[|a|..]
  {
    assert t == a + t[|a|..];
    if Contains(t[|a|..], u) { ContainsAfter(a, t[|a|..], u); }
  }

  lemma {:induction false} OnlySubstituted(t: string, apart: bool, o: string, p: string, u: string)
    requires Tidy(t, apart) && IsIdOrEmpty(o) && IsIdOrEmpty(p) && IsUuid(u)
    requires !Contains(t, u) && Contains(Name(t, o, p), u)
    ensures Substituted(t, o, p, u)
    decreases |t|
  {
    TheHoles();
    if t == "" {
    } else if ORG_HOLE <= t {
      Beyond(ORG_HOLE, t, u);
      if u != o {
        FoundAtHole(o, t[|ORG_HOLE|..], o, p, u);
        OnlySubstituted(t[|ORG_HOLE|..], false, o, p, u);
        ContainsAfter(ORG_HOLE, t[|ORG_HOLE|..], PROJECT_HOLE);
      }
    } else if PROJECT_HOLE <= t {
      Beyond(PROJECT_HOLE, t, u);
      if u != p {
        FoundAtHole(p, t[|PROJECT_HOLE|..], o, p, u);
        OnlySubstituted(t[|PROJECT_HOLE|..], false, o, p, u);
        ContainsAfter(PROJECT_HOLE, t[|PROJECT_HOLE|..], ORG_HOLE);
      }
    } else {
      assert u[0..] == u;
      if u <= Name(t, o, p) { LiteralFrom(t, apart, o, p, u, 0); }
      assert Name(t, o, p)[1..] == Name(t[1..], o, p);
      OnlySubstituted(t[1..], !IsHex(t[0]), o, p, u);
    }
  }

  /** The name made of a tidy template without ids of its own contains an id exactly when the id was
      substituted for a placeholder of the template. */
  lemma NameContains(t: string, o: string, p: string, u: string)
    requires Bracketed(t) && Tidy(t, true) && IsIdOrEmpty(o) && IsIdOrEmpty(p) && IsUuid(u) && !Contains(t, u)
    ensures Contains(Expand(t, o, p), u) <==> Substituted(t, o, p, u)
  {
    TheHoles();
    IdIsPlain(o);
    BracketedTwoPasses(t, o, p);
    if Contains(Name(t, o, p), u) { OnlySubstituted(t, true, o, p, u); }
    if Contains(t, ORG_HOLE) { FillContains(t, ORG_HOLE, o, PROJECT_HOLE, p); }
    if Contains(t, PROJECT_HOLE) {
      FillContains(t, PROJECT_HOLE, p, ORG_HOLE, o);
      FillIsSymmetric(t, ORG_HOLE, o, PROJECT_HOLE, p);
    }
  }

  /** A template that can be seen to be clean: brackets only for placeholders, these apart from digits,
      and no id in the text. */
  lemma TidyIsClean(t: string)
    requires Bracketed(t) && Tidy(t, true) && forall u :: IsUuid(u) ==> !Contains(t, u)
    ensures Clean(t)
  {
    forall o, p, u | IsIdOrEmpty(o) && IsIdOrEmpty(p) && IsUuid(u)
      ensures Contains(Expand(t, o, p), u) <==> Substituted(t, o, p, u)
    {
      NameContains(t, o, p, u);
    }
  }
}
