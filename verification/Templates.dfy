/** Names of roles and groups as templates with placeholders, and what substituting ids into them
    gives. */
module Templates {
  import opened Uuids

  const ORG_HOLE := "<org-id>"
  const PROJECT_HOLE := "<project-id>"

  /** Go's strings.ReplaceAll for a non-empty pattern: leftmost occurrences, none rescanned. */
  function ReplaceAll(s: string, pattern: string, x: string): string
    requires pattern != ""
  {
    if s == "" then ""
    else if pattern <= s then x + ReplaceAll(s[|pattern|..], pattern, x)
    else [s[0]] + ReplaceAll(s[1..], pattern, x)
  }

  /** The name made of a template: first the org's placeholder is replaced, then the project's. */
  function Expand(template: string, o: string, p: string): string {
    ReplaceAll(ReplaceAll(template, ORG_HOLE, o), PROJECT_HOLE, p)
  }

  function Contains(s: string, part: string): bool {
    part <= s || (s != "" && Contains(s[1..], part))
  }

  // --- One pass instead of two ---

  /** A placeholder has an angle bracket at either end and none inside, and is shorter than an id. */
  predicate IsHole(a: string) {
    && 2 <= |a| < UUID_LENGTH && a[0] == '<' && a[|a| - 1] == '>'
    && forall i :: 0 < i < |a| - 1 ==> a[i] != '<' && a[i] != '>'
  }

  predicate Plain(x: string) { forall i :: 0 <= i < |x| ==> x[i] != '<' && x[i] != '>' }

  /** Both placeholders replaced in one pass. */
  function Fill(t: string, a: string, x: string, b: string, y: string): string
    requires a != "" && b != ""
  {
    if t == "" then ""
    else if a <= t then x + Fill(t[|a|..], a, x, b, y)
    else if b <= t then y + Fill(t[|b|..], a, x, b, y)
    else [t[0]] + Fill(t[1..], a, x, b, y)
  }

  lemma ShorterHole(a: string, b: string)
    requires IsHole(a) && IsHole(b) && |a| < |b|
    ensures a[|a| - 1] != b[|a| - 1]
  {
  }

  /** Two placeholders do not begin at the same place. */
  lemma HolesAreNotPrefixes(t: string, a: string, b: string)
    requires IsHole(a) && IsHole(b) && a <= t && b <= t
    ensures a == b
  {
    if |a| < |b| { ShorterHole(a, b); } else if |b| < |a| { ShorterHole(b, a); }
  }

  /** Replacement leaves a stretch alone in which the pattern cannot begin. */
  lemma {:induction false} PassOver(x: string, s: string, b: string, y: string)
    requires IsHole(b) && forall i :: 0 <= i < |x| ==> x[i] != '<'
    ensures ReplaceAll(x + s, b, y) == x + ReplaceAll(s, b, y)
    decreases |x|
  {
    if x == "" {
      assert x + s == s;
    } else {
      assert (x + s)[1..] == x[1..] + s;
      assert !(b <= x + s) by { assert (x + s)[0] == x[0]; }
      PassOver(x[1..], s, b, y);
    }
  }

  /** The end of a placeholder does not lie within a plain text. */
  lemma PlainStart(x: string, s: string, w: string)
    requires Plain(x) && |x| >= |w| > 0 && w[|w| - 1] == '>'
    ensures !(w <= x + s)
  {
    assert (x + s)[|w| - 1] == x[|w| - 1];
  }

  /** No end of a placeholder comes about by replacing another one with a long plain text. */
  lemma {:induction false} NoNewEnds(t: string, a: string, x: string, w: string)
    requires IsHole(a) && Plain(x) && |x| >= |w| > 0 && w[|w| - 1] == '>'
    requires w <= ReplaceAll(t, a, x)
    requires forall i :: 0 <= i < |w| ==> w[i] != '<'
    ensures w <= t
    decreases |w|
  {
    if t != "" && !(a <= t) && |w| > 1 {
      assert ReplaceAll(t, a, x)[1..] == ReplaceAll(t[1..], a, x);
      NoNewEnds(t[1..], a, x, w[1..]);
    }
  }

  lemma NoNewHoles(t: string, a: string, x: string, b: string)
    requires IsHole(a) && IsHole(b) && Plain(x) && |x| >= |b| && t != "" && !(a <= t)
    requires b <= ReplaceAll(t, a, x)
    ensures b <= t
  {
    var r := ReplaceAll(t, a, x);
    assert r[1..] == ReplaceAll(t[1..], a, x) && b[1..] <= r[1..];
    NoNewEnds(t[1..], a, x, b[1..]);
    assert b[0] == r[0] == t[0] && b == [b[0]] + b[1..] && t == [t[0]] + t[1..];
  }

  lemma ReplaceFirst(b: string, s: string, y: string)
    requires IsHole(b)
    ensures ReplaceAll(b + s, b, y) == y + ReplaceAll(s, b, y)
  {
    assert (b + s)[|b|..] == s;
  }

  lemma SkipHole(t: string, a: string, x: string, b: string)
    requires IsHole(a) && IsHole(b) && a != b && b <= t
    ensures ReplaceAll(t, a, x) == b + ReplaceAll(t[|b|..], a, x)
  {
    if a <= t { HolesAreNotPrefixes(t, a, b); }
    assert t == [t[0]] + (b[1..] + t[|b|..]);
    PassOver(b[1..], t[|b|..], a, x);
  }

  /** Two passes do what one pass does, when what the first one puts in is plain and not shorter than
      the placeholder of the second one. */
  lemma {:induction false} TwoPasses(t: string, a: string, x: string, b: string, y: string)
    requires IsHole(a) && IsHole(b) && a != b && Plain(x) && |x| >= |b|
    ensures ReplaceAll(ReplaceAll(t, a, x), b, y) == Fill(t, a, x, b, y)
    decreases |t|
  {
    if t == "" {
    } else if a <= t {
      TwoPasses(t[|a|..], a, x, b, y);
      PassOver(x, ReplaceAll(t[|a|..], a, x), b, y);
    } else if b <= t {
      TwoPasses(t[|b|..], a, x, b, y);
      SkipHole(t, a, x, b);
      ReplaceFirst(b, ReplaceAll(t[|b|..], a, x), y);
    } else {
      TwoPasses(t[1..], a, x, b, y);
      assert ReplaceAll(t, a, x)[1..] == ReplaceAll(t[1..], a, x);
      if b <= ReplaceAll(t, a, x) { NoNewHoles(t, a, x, b); }
    }
  }

  lemma {:induction false} FillIsSymmetric(t: string, a: string, x: string, b: string, y: string)
    requires IsHole(a) && IsHole(b) && a != b
    ensures Fill(t, a, x, b, y) == Fill(t, b, y, a, x)
    decreases |t|
  {
    if t == "" {
    } else if a <= t {
      if b <= t { HolesAreNotPrefixes(t, a, b); }
      FillIsSymmetric(t[|a|..], a, x, b, y);
    } else if b <= t {
      FillIsSymmetric(t[|b|..], a, x, b, y);
    } else {
      FillIsSymmetric(t[1..], a, x, b, y);
    }
  }

  lemma TheHoles()
    ensures IsHole(ORG_HOLE) && IsHole(PROJECT_HOLE) && ORG_HOLE != PROJECT_HOLE
  {
  }

  lemma UuidIsPlain(u: string)
    requires IsUuid(u)
    ensures Plain(u) && |u| == UUID_LENGTH
  {
  }

  /** For ids the order of the two replacements does not matter. */
  lemma ReplacementsCommute(t: string, o: string, p: string)
    requires IsUuid(o) && IsUuid(p)
    ensures Expand(t, o, p) == ReplaceAll(ReplaceAll(t, PROJECT_HOLE, p), ORG_HOLE, o)
    ensures Expand(t, o, p) == Fill(t, ORG_HOLE, o, PROJECT_HOLE, p)
  {
    TheHoles();
    UuidIsPlain(o);
    UuidIsPlain(p);
    TwoPasses(t, ORG_HOLE, o, PROJECT_HOLE, p);
    TwoPasses(t, PROJECT_HOLE, p, ORG_HOLE, o);
    FillIsSymmetric(t, ORG_HOLE, o, PROJECT_HOLE, p);
  }

  // --- What the result contains ---

  lemma {:induction false} ContainsAfter(x: string, s: string, part: string)
    requires Contains(s, part)
    ensures Contains(x + s, part)
    decreases |x|
  {
    if x == "" {
      assert x + s == s;
    } else {
      assert (x + s)[1..] == x[1..] + s;
      ContainsAfter(x[1..], s, part);
    }
  }

  lemma PrefixIsContained(x: string, s: string)
    ensures Contains(x + s, x)
  {
  }

  lemma {:induction false} ContainsBeyond(x: string, s: string, part: string)
    requires Contains(x + s, part) && forall i :: 0 <= i < |x| ==> !(part <= x[i..] + s)
    ensures Contains(s, part)
    decreases |x|
  {
    if x == "" {
      assert x + s == s;
    } else {
      assert x[0..] + s == x + s;
      assert (x + s)[1..] == x[1..] + s;
      forall i | 0 <= i < |x[1..]| ensures !(part <= x[1..][i..] + s) { assert x[1..][i..] == x[i + 1..]; }
      ContainsBeyond(x[1..], s, part);
    }
  }

  /** A placeholder does not begin inside a text without its first character. */
  lemma HoleBeyond(x: string, s: string, a: string)
    requires IsHole(a) && Contains(x + s, a) && forall i :: 0 <= i < |x| ==> x[i] != '<'
    ensures Contains(s, a)
  {
    forall i | 0 <= i < |x| ensures !(a <= x[i..] + s) { assert (x[i..] + s)[0] == x[i]; }
    ContainsBeyond(x, s, a);
  }

  lemma HoleBeyondHole(t: string, a: string, b: string)
    requires IsHole(a) && IsHole(b) && a != b && Contains(t, a) && b <= t
    ensures Contains(t[|b|..], a)
  {
    if a <= t { HolesAreNotPrefixes(t, a, b); }
    assert t[1..] == b[1..] + t[|b|..];
    HoleBeyond(b[1..], t[|b|..], a);
  }

  /** Every id whose placeholder the template had is in the name. */
  lemma {:induction false} FillContains(t: string, a: string, x: string, b: string, y: string)
    requires IsHole(a) && IsHole(b) && a != b && Contains(t, a)
    ensures Contains(Fill(t, a, x, b, y), x)
    decreases |t|
  {
    if a <= t {
      PrefixIsContained(x, Fill(t[|a|..], a, x, b, y));
    } else if b <= t {
      HoleBeyondHole(t, a, b);
      FillContains(t[|b|..], a, x, b, y);
      ContainsAfter(y, Fill(t[|b|..], a, x, b, y), x);
    } else {
      FillContains(t[1..], a, x, b, y);
      ContainsAfter([t[0]], Fill(t[1..], a, x, b, y), x);
    }
  }

  /** No end of a placeholder comes about in the one pass either. */
  lemma {:induction false} NoNewEndsInFill(t: string, a: string, x: string, b: string, y: string, w: string)
    requires IsHole(a) && IsHole(b) && Plain(x) && Plain(y) && |x| >= |w| && |y| >= |w| > 0 && w[|w| - 1] == '>'
    requires w <= Fill(t, a, x, b, y) && forall i :: 0 <= i < |w| ==> w[i] != '<'
    ensures w <= t
    decreases |w|
  {
    var r := Fill(t, a, x, b, y);
    if t == "" {
    } else if a <= t {
      PlainStart(x, Fill(t[|a|..], a, x, b, y), w);
    } else if b <= t {
      PlainStart(y, Fill(t[|b|..], a, x, b, y), w);
    } else if |w| > 1 {
      assert r[1..] == Fill(t[1..], a, x, b, y);
      NoNewEndsInFill(t[1..], a, x, b, y, w[1..]);
    }
  }

  lemma NoNewHolesInFill(t: string, a: string, x: string, b: string, y: string, c: string)
    requires IsHole(a) && IsHole(b) && IsHole(c) && Plain(x) && Plain(y) && |x| >= |c| && |y| >= |c|
    requires t != "" && !(a <= t) && !(b <= t) && c <= Fill(t, a, x, b, y)
    ensures c <= t
  {
    var r := Fill(t, a, x, b, y);
    assert r[1..] == Fill(t[1..], a, x, b, y) && c[1..] <= r[1..];
    NoNewEndsInFill(t[1..], a, x, b, y, c[1..]);
    assert c[0] == r[0] == t[0] && c == [c[0]] + c[1..] && t == [t[0]] + t[1..];
  }

  /** No placeholder is left. */
  lemma {:induction false} NoHoleLeft(t: string, a: string, x: string, b: string, y: string, c: string)
    requires IsHole(a) && IsHole(b) && a != b && Plain(x) && Plain(y) && |x| >= UUID_LENGTH && |y| >= UUID_LENGTH
    requires c == a || c == b
    ensures !Contains(Fill(t, a, x, b, y), c)
    decreases |t|
  {
    var r := Fill(t, a, x, b, y);
    if t == "" {
    } else if a <= t {
      NoHoleLeft(t[|a|..], a, x, b, y, c);
      if Contains(r, c) { HoleBeyond(x, Fill(t[|a|..], a, x, b, y), c); }
    } else if b <= t {
      NoHoleLeft(t[|b|..], a, x, b, y, c);
      if Contains(r, c) { HoleBeyond(y, Fill(t[|b|..], a, x, b, y), c); }
    } else {
      NoHoleLeft(t[1..], a, x, b, y, c);
      assert r[1..] == Fill(t[1..], a, x, b, y);
      if c <= r { NoNewHolesInFill(t, a, x, b, y, c); }
    }
  }

  /** Ids of equal length can be read off the name. */
  lemma {:induction false} FillIsInjective(t: string, a: string, b: string, x: string, y: string, x': string,
        y': string)
    requires IsHole(a) && IsHole(b) && a != b && |x| == |x'| && |y| == |y'|
    requires Fill(t, a, x, b, y) == Fill(t, a, x', b, y')
    ensures Contains(t, a) ==> x == x'
    ensures Contains(t, b) ==> y == y'
    decreases |t|
  {
    var r, r' := Fill(t, a, x, b, y), Fill(t, a, x', b, y');
    if t == "" {
    } else if a <= t {
      assert r[..|x|] == x && r'[..|x|] == x';
      assert r[|x|..] == Fill(t[|a|..], a, x, b, y) && r'[|x|..] == Fill(t[|a|..], a, x', b, y');
      FillIsInjective(t[|a|..], a, b, x, y, x', y');
      if Contains(t, b) { HoleBeyondHole(t, b, a); }
    } else if b <= t {
      assert r[..|y|] == y && r'[..|y|] == y';
      assert r[|y|..] == Fill(t[|b|..], a, x, b, y) && r'[|y|..] == Fill(t[|b|..], a, x', b, y');
      FillIsInjective(t[|b|..], a, b, x, y, x', y');
      if Contains(t, a) { HoleBeyondHole(t, a, b); }
    } else {
      assert r[1..] == Fill(t[1..], a, x, b, y) && r'[1..] == Fill(t[1..], a, x', b, y');
      FillIsInjective(t[1..], a, b, x, y, x', y');
    }
  }

  /** Substitution of ids leaves no placeholder, contains every id whose placeholder the template had,
      and is injective in each such id. */
  lemma SubstitutionIsFaithful(t: string, o: string, p: string, o': string, p': string)
    requires IsUuid(o) && IsUuid(p) && IsUuid(o') && IsUuid(p')
    ensures !Contains(Expand(t, o, p), ORG_HOLE) && !Contains(Expand(t, o, p), PROJECT_HOLE)
    ensures Contains(t, ORG_HOLE) ==> Contains(Expand(t, o, p), o)
    ensures Contains(t, PROJECT_HOLE) ==> Contains(Expand(t, o, p), p)
    ensures Expand(t, o, p) == Expand(t, o', p') ==>
              (Contains(t, ORG_HOLE) ==> o == o') && (Contains(t, PROJECT_HOLE) ==> p == p')
  {
    var a, b := ORG_HOLE, PROJECT_HOLE;
    TheHoles();
    UuidIsPlain(o);
    UuidIsPlain(p);
    ReplacementsCommute(t, o, p);
    ReplacementsCommute(t, o', p');
    NoHoleLeft(t, a, o, b, p, a);
    NoHoleLeft(t, a, o, b, p, b);
    if Contains(t, a) { FillContains(t, a, o, b, p); }
    if Contains(t, b) {
      FillContains(t, b, p, a, o);
      FillIsSymmetric(t, a, o, b, p);
    }
    if Expand(t, o, p) == Expand(t, o', p') { FillIsInjective(t, a, b, o, p, o', p'); }
  }

  lemma KeepBracket(s: string, a: string, x: string)
    requires IsHole(a) && s != "" && s[0] == '<'
    ensures ReplaceAll("<" + s, a, x) == "<" + ReplaceAll(s, a, x)
  {
    assert ("<" + s)[1] == '<' && a[1] != '<';
    assert ("<" + s)[1..] == s;
  }

  lemma RemovalCompletes(a: string, rest: string, x: string, s: string)
    requires IsHole(a) && forall i :: 0 <= i < |rest| ==> rest[i] != '<'
    ensures ReplaceAll("<" + (a + (rest + s)), a, x) == "<" + (x + (rest + ReplaceAll(s, a, x)))
  {
    KeepBracket(a + (rest + s), a, x);
    ReplaceFirst(a, rest + s, x);
    PassOver(rest, s, a, x);
  }

  lemma NothingToReplace(a: string, rest: string, b: string, y: string)
    requires IsHole(a) && IsHole(b) && a != b && forall i :: 0 <= i < |rest| ==> rest[i] != '<'
    ensures ReplaceAll("<" + (a + rest), b, y) == "<" + (a + rest)
  {
    KeepBracket(a + rest, b, y);
    SkipHole(a + rest, b, y, a);
    assert (a + rest)[|a|..] == rest;
    PassOver(rest, "", b, y);
    assert rest + "" == rest;
  }

  lemma OrderMatters(a: string, b: string, x: string, y: string)
    requires IsHole(a) && IsHole(b) && a != b && x == ""
    ensures var t := "<" + (a + b[1..]);
            ReplaceAll(ReplaceAll(t, a, x), b, y) == y && ReplaceAll(ReplaceAll(t, b, y), a, x) == b
  {
    var rest := b[1..];
    assert rest + x == rest && x + rest == rest && y + x == y;
    RemovalCompletes(a, rest, x, x);
    NothingToReplace(a, rest, b, y);
    ReplaceFirst(b, x, y);
    assert "<" + rest == b == b + x;
  }

  /** With an empty org id the order does matter: removing one placeholder can complete another. */
  lemma EmptyIdsDoNotCommute(p: string)
    requires p != PROJECT_HOLE
    ensures var t := "<" + (ORG_HOLE + PROJECT_HOLE[1..]);
            Expand(t, "", p) == p && ReplaceAll(ReplaceAll(t, PROJECT_HOLE, p), ORG_HOLE, "") != p
  {
    TheHoles();
    OrderMatters(ORG_HOLE, PROJECT_HOLE, "", p);
  }
}
