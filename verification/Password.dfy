/** Generated passwords and the in-place shuffle. */
module Passwords {

  // --- The shuffle as a function of its random choices ---

  function Swap<T>(s: seq<T>, i: nat, j: nat): seq<T>
    requires i < |s| && j < |s|
  {
    s[i := s[j]][j := s[i]]
  }

  /** Choices for the positions below n, from the last one down: each at most the position. */
  predicate InRange(choices: seq<nat>, n: nat) {
    && |choices| == (if n == 0 then 0 else n - 1)
    && forall k :: 0 <= k < |choices| ==> choices[k] <= n - 1 - k
  }

  function Shuffled<T>(s: seq<T>, n: nat, choices: seq<nat>): seq<T>
    requires n <= |s| && InRange(choices, n)
    decreases n
  {
    if n <= 1 then s else
      InRangeRest(choices, n);
      Shuffled(Swap(s, n - 1, choices[0]), n - 1, choices[1..])
  }

  lemma InRangeRest(choices: seq<nat>, n: nat)
    requires InRange(choices, n) && n > 1
    ensures InRange(choices[1..], n - 1)
  {
    forall k | 0 <= k < |choices[1..]| ensures choices[1..][k] <= n - 2 - k {
      assert choices[1..][k] == choices[k + 1];
    }
  }

  lemma SwapPermutes<T>(s: seq<T>, i: nat, j: nat)
    requires i < |s| && j < |s|
    ensures multiset(Swap(s, i, j)) == multiset(s)
  {
  }

  /** A shuffle permutes the first n elements and leaves the others where they are. */
  lemma {:induction false} ShufflePermutes<T>(s: seq<T>, n: nat, choices: seq<nat>)
    requires n <= |s| && InRange(choices, n)
    ensures multiset(Shuffled(s, n, choices)) == multiset(s)
    ensures |Shuffled(s, n, choices)| == |s| && Shuffled(s, n, choices)[n..] == s[n..]
    decreases n
  {
    if n > 1 {
      InRangeRest(choices, n);
      var s1 := Swap(s, n - 1, choices[0]);
      SwapPermutes(s, n - 1, choices[0]);
      ShufflePermutes(s1, n - 1, choices[1..]);
      var t := Shuffled(s1, n - 1, choices[1..]);
      assert t[n..] == t[n - 1..][1..] && s1[n..] == s1[n - 1..][1..];
      assert s1[n..] == s[n..];
    }
  }

  lemma LastSettled<T>(s: seq<T>, n: nat, choices: seq<nat>)
    requires 1 < n <= |s| && InRange(choices, n)
    ensures |Shuffled(s, n, choices)| == |s| && Shuffled(s, n, choices)[n - 1] == s[choices[0]]
  {
    InRangeRest(choices, n);
    var s1 := Swap(s, n - 1, choices[0]);
    ShufflePermutes(s1, n - 1, choices[1..]);
    assert Shuffled(s1, n - 1, choices[1..])[n - 1..][0] == s1[n - 1..][0];
  }

  lemma HeadsAgree<T>(s: seq<T>, t: seq<T>, n: nat)
    requires n <= |s| == |t| && multiset(s) == multiset(t) && s[n..] == t[n..]
    ensures multiset(s[..n]) == multiset(t[..n])
  {
    assert s == s[..n] + s[n..] && t == t[..n] + t[n..];
    var a, b, c := multiset(s[..n]), multiset(t[..n]), multiset(s[n..]);
    assert a + c == b + c;
    assert a == (a + c) - c && b == (b + c) - c;
  }

  lemma FirstSettled<T>(s: seq<T>, t: seq<T>, n: nat)
    requires n <= 1 && n <= |s| == |t| && multiset(s) == multiset(t) && s[n..] == t[n..]
    ensures s == t
  {
    HeadsAgree(s, t, n);
    if n == 1 {
      assert s[..1] == [s[0]] && t[..1] == [t[0]];
      assert s[0] in multiset(t[..1]);
    }
    assert s == s[..n] + s[n..] && t == t[..n] + t[n..];
  }

  lemma WantedIsThere<T>(s: seq<T>, t: seq<T>, n: nat) returns (j: nat)
    requires 0 < n <= |s| == |t| && multiset(s) == multiset(t) && s[n..] == t[n..]
    ensures j < n && s[j] == t[n - 1]
  {
    HeadsAgree(s, t, n);
    assert t[..n][n - 1] in multiset(t[..n]);
    assert t[n - 1] in s[..n];
    j :| 0 <= j < n && s[..n][j] == t[n - 1];
  }

  lemma PutInPlace<T>(s: seq<T>, t: seq<T>, n: nat, j: nat)
    requires j < n <= |s| == |t| && s[j] == t[n - 1] && s[n..] == t[n..]
    ensures Swap(s, n - 1, j)[n - 1..] == t[n - 1..]
  {
    var s1 := Swap(s, n - 1, j);
    assert s1[n..] == s[n..];
    assert s1[n - 1..] == [s1[n - 1]] + s1[n..] && t[n - 1..] == [t[n - 1]] + t[n..];
  }

  lemma ShuffledFirst<T>(s: seq<T>, n: nat, j: nat, rest: seq<nat>)
    requires 1 < n <= |s| && j < n && InRange(rest, n - 1)
    ensures InRange([j] + rest, n)
    ensures Shuffled(s, n, [j] + rest) == Shuffled(Swap(s, n - 1, j), n - 1, rest)
  {
    assert ([j] + rest)[1..] == rest;
  }

  /** Every arrangement can come out of the shuffle. */
  lemma {:induction false} EveryArrangementIsReached<T>(s: seq<T>, t: seq<T>, n: nat) returns (choices: seq<nat>)
    requires n <= |s| == |t| && multiset(s) == multiset(t) && s[n..] == t[n..]
    ensures InRange(choices, n) && Shuffled(s, n, choices) == t
    decreases n
  {
    if n <= 1 {
      FirstSettled(s, t, n);
      choices := [];
    } else {
      var j := WantedIsThere(s, t, n);
      SwapPermutes(s, n - 1, j);
      PutInPlace(s, t, n, j);
      var rest := EveryArrangementIsReached(Swap(s, n - 1, j), t, n - 1);
      ShuffledFirst(s, n, j, rest);
      choices := [j] + rest;
    }
  }

  predicate NoRepeats<T(==)>(s: seq<T>) { forall i, j :: 0 <= i < j < |s| ==> s[i] != s[j] }

  /** Each arrangement of different elements comes out for one sequence of choices only, so that with
      uniform choices all are equally likely. */
  lemma {:induction false} ChoicesAreUnique<T>(s: seq<T>, n: nat, a: seq<nat>, b: seq<nat>)
    requires n <= |s| && NoRepeats(s) && InRange(a, n) && InRange(b, n)
    requires Shuffled(s, n, a) == Shuffled(s, n, b)
    ensures a == b
    decreases n
  {
    if n > 1 {
      LastSettled(s, n, a);
      LastSettled(s, n, b);
      assert a[0] == b[0];
      InRangeRest(a, n);
      InRangeRest(b, n);
      var s1 := Swap(s, n - 1, a[0]);
      forall i, j | 0 <= i < j < |s1| ensures s1[i] != s1[j] {
        var i', j' := From(i, n - 1, a[0]), From(j, n - 1, a[0]);
        assert s1[i] == s[i'] && s1[j] == s[j'] && i' != j';
        assert if i' < j' then s[i'] != s[j'] else s[j'] != s[i'];
      }
      ChoicesAreUnique(s1, n - 1, a[1..], b[1..]);
      assert a == [a[0]] + a[1..] && b == [b[0]] + b[1..];
    }
  }

  function From(k: nat, i: nat, j: nat): nat { if k == i then j else if k == j then i else k }

  // --- The code ---

  const UPPERCASE := "ABCDEFGHIJKLMNOPQRSTUVWXYZ"
  const LOWERCASE := "abcdefghijklmnopqrstuvwxyz"
  const DIGITS := "0123456789"
  const SPECIAL := "!@#$%^&*()_+|:<>?="
  const PASSWORD_LENGTH := 16

  datatype Draw<+T> = Drawn(value: T) | NoEntropy

  /** A random number below the bound; `working` says that the source of randomness never fails. */
  method RandInt(bound: nat, working: bool) returns (r: Draw<nat>)
    requires bound > 0
    ensures r.Drawn? ==> r.value < bound
    ensures working ==> r.Drawn?
  {
    var down: bool := *;
    if down && !working { return NoEntropy; }
    var n: nat :| n < bound;
    return Drawn(n);
  }

  /** The character at a random position, which is `number`. */
  method RandChar(charset: string, working: bool) returns (r: Draw<char>, ghost number: nat)
    requires charset != ""
    ensures r.Drawn? ==> number < |charset| && r.value == charset[number]
    ensures working ==> r.Drawn?
  {
    var n := RandInt(|charset|, working);
    if n.NoEntropy? { return NoEntropy, 0; }
    return Drawn(charset[n.value]), n.value;
  }

  /** The choices made so far, down to position i, have brought the elements into the order `now`. */
  ghost predicate SoFar(start: seq<char>, now: seq<char>, i: nat, choices: seq<nat>) {
    && i <= |now| == |start|
    && forall rest :: InRange(rest, i) ==>
         InRange(choices + rest, |start|) && Shuffled(start, |start|, choices + rest) == Shuffled(now, i, rest)
  }

  lemma ShuffleBegins(start: seq<char>)
    ensures SoFar(start, start, |start|, [])
  {
    assert forall rest: seq<nat> :: [] + rest == rest;
  }

  lemma ShuffleStep(start: seq<char>, now: seq<char>, i: nat, choices: seq<nat>, j: nat)
    requires 0 < i < |now| && j <= i && SoFar(start, now, i + 1, choices)
    ensures SoFar(start, Swap(now, i, j), i, choices + [j])
  {
    forall rest | InRange(rest, i)
      ensures InRange(choices + [j] + rest, |start|)
      ensures Shuffled(start, |start|, choices + [j] + rest) == Shuffled(Swap(now, i, j), i, rest)
    {
      assert InRange([j] + rest, i + 1) && ([j] + rest)[1..] == rest;
      assert choices + [j] + rest == choices + ([j] + rest);
    }
  }

  lemma ShuffleEnds(start: seq<char>, now: seq<char>, i: nat, choices: seq<nat>)
    requires SoFar(start, now, i, choices) && i <= 1
    ensures InRange(choices, |start|) && now == Shuffled(start, |start|, choices)
  {
    assert choices + [] == choices && InRange([], i);
  }

  /** Fisher-Yates from the last element down. Even when the source of randomness fails half-way the
      elements are only rearranged. */
  method Shuffle(data: array<char>, working: bool) returns (ok: bool, ghost choices: seq<nat>)
    modifies data
    ensures working ==> ok
    ensures multiset(data[..]) == multiset(old(data[..]))
    ensures ok ==> InRange(choices, data.Length) && data[..] == Shuffled(old(data[..]), data.Length, choices)
  {
    choices := [];
    ghost var start := data[..];
    ShuffleBegins(start);
    var i := data.Length - 1;
    while i > 0
      invariant i < data.Length && -1 <= i && (i == -1 ==> data.Length == 0)
      invariant multiset(data[..]) == multiset(start)
      invariant SoFar(start, data[..], i + 1, choices)
      decreases i
    {
      var r := RandInt(i + 1, working);
      if r.NoEntropy? { return false, choices; }
      var j := r.value;
      ghost var before := data[..];
      data[i], data[j] := data[j], data[i];
      assert data[..] == Swap(before, i, j);
      SwapPermutes(before, i, j);
      ShuffleStep(start, before, i, choices, j);
      choices := choices + [j];
      i := i - 1;
    }
    ShuffleEnds(start, data[..], i + 1, choices);
    ok := true;
  }

  ghost predicate Among(pw: string, charset: string) { exists c :: c in pw && c in charset }

  /** A password of sixteen characters, all from the charsets and at least one from each. */
  ghost predicate Strong(pw: string, upper: string, lower: string, digits: string, special: string) {
    && |pw| == PASSWORD_LENGTH
    && (forall c :: c in pw ==> c in upper + lower + digits + special)
    && Among(pw, upper) && Among(pw, lower) && Among(pw, digits) && Among(pw, special)
  }

  /** The four charsets. */
  datatype Charsets = Charsets(upper: string, lower: string, digits: string, special: string)
  {
    function All(): string { upper + lower + digits + special }

    /** From which of them the character at a position is drawn. */
    function For(i: nat): string {
      if i == 0 then upper else if i == 1 then lower else if i == 2 then digits else if i == 3 then special else All()
    }

    ghost predicate Usable() { upper != "" && lower != "" && digits != "" && special != "" }

    /** No character is in two of them. */
    ghost predicate Disjoint() {
      forall c :: (c in upper ==> c !in lower + digits + special) && (c in lower ==> c !in digits + special)
                  && (c in digits ==> c !in special)
    }
  }

  const CHARSETS := Charsets(UPPERCASE, LOWERCASE, DIGITS, SPECIAL)

  predicate InBounds(numbers: seq<nat>, sets: Charsets) {
    |numbers| == PASSWORD_LENGTH && forall i :: 0 <= i < PASSWORD_LENGTH ==> numbers[i] < |sets.For(i)|
  }

  /** The characters drawn with random numbers, before they are shuffled. */
  function DrawnWith(numbers: seq<nat>, sets: Charsets): string
    requires InBounds(numbers, sets)
  {
    seq(PASSWORD_LENGTH, i requires 0 <= i < PASSWORD_LENGTH => sets.For(i)[numbers[i]])
  }

  /** The password that random numbers and random choices make. */
  function MadeOf(numbers: seq<nat>, choices: seq<nat>, sets: Charsets): string
    requires InBounds(numbers, sets) && InRange(choices, PASSWORD_LENGTH)
  {
    Shuffled(DrawnWith(numbers, sets), PASSWORD_LENGTH, choices)
  }

  ghost predicate IsMadeOf(pw: string, numbers: seq<nat>, choices: seq<nat>, sets: Charsets) {
    InBounds(numbers, sets) && InRange(choices, PASSWORD_LENGTH) && pw == MadeOf(numbers, choices, sets)
  }

  method GeneratePassword(working: bool) returns (r: Draw<string>, ghost numbers: seq<nat>, ghost choices: seq<nat>)
    ensures working ==> r.Drawn?
    ensures r.Drawn? ==> IsMadeOf(r.value, numbers, choices, CHARSETS)
    ensures r.Drawn? ==> Strong(r.value, UPPERCASE, LOWERCASE, DIGITS, SPECIAL)
  {
    r, numbers, choices := GenerateFrom(CHARSETS, working);
  }

  method GenerateFrom(sets: Charsets, working: bool)
    returns (r: Draw<string>, ghost numbers: seq<nat>, ghost choices: seq<nat>)
    requires sets.Usable()
    ensures working ==> r.Drawn?
    ensures r.Drawn? ==> IsMadeOf(r.value, numbers, choices, sets)
    ensures r.Drawn? ==> Strong(r.value, sets.upper, sets.lower, sets.digits, sets.special)
  {
    numbers, choices := [], [];
    var pw := new char[16](_ => '\0');
    var c;
    ghost var n0, n1, n2, n3;
    c, n0 := RandChar(sets.upper, working);
    if c.NoEntropy? { return NoEntropy, numbers, choices; }
    pw[0] := c.value;
    c, n1 := RandChar(sets.lower, working);
    if c.NoEntropy? { return NoEntropy, numbers, choices; }
    pw[1] := c.value;
    c, n2 := RandChar(sets.digits, working);
    if c.NoEntropy? { return NoEntropy, numbers, choices; }
    pw[2] := c.value;
    c, n3 := RandChar(sets.special, working);
    if c.NoEntropy? { return NoEntropy, numbers, choices; }
    pw[3] := c.value;
    numbers := [n0, n1, n2, n3];
    var all := sets.upper + sets.lower + sets.digits + sets.special;
    for i := 4 to 16
      invariant |numbers| == i
      invariant forall k :: 0 <= k < i ==> numbers[k] < |sets.For(k)| && pw[k] == sets.For(k)[numbers[k]]
    {
      ghost var n;
      c, n := RandChar(all, working);
      if c.NoEntropy? { return NoEntropy, numbers, choices; }
      pw[i] := c.value;
      numbers := numbers + [n];
    }
    assert pw[..] == DrawnWith(numbers, sets);
    var ok;
    ok, choices := Shuffle(pw, working);
    if !ok { return NoEntropy, numbers, choices; }
    MadeIsStrong(numbers, choices, sets);
    return Drawn(pw[..]), numbers, choices;
  }

  /** Whatever the random numbers, what they make is a strong password. */
  lemma MadeIsStrong(numbers: seq<nat>, choices: seq<nat>, sets: Charsets)
    requires InBounds(numbers, sets) && InRange(choices, PASSWORD_LENGTH)
    ensures Strong(MadeOf(numbers, choices, sets), sets.upper, sets.lower, sets.digits, sets.special)
  {
    var drawn := DrawnWith(numbers, sets);
    ShufflePermutes(drawn, PASSWORD_LENGTH, choices);
    SameElements(drawn, MadeOf(numbers, choices, sets));
    assert drawn[0] in drawn && drawn[1] in drawn && drawn[2] in drawn && drawn[3] in drawn;
    forall c | c in drawn ensures c in sets.All() {
      var i :| 0 <= i < |drawn| && drawn[i] == c;
      assert c in sets.For(i);
    }
  }

  /** A character of a charset is brought to position k when there is none before it. */
  lemma BringTo(s: string, k: nat, charset: string) returns (t: string)
    requires k < |s| && Among(s, charset) && forall i :: 0 <= i < k ==> s[i] !in charset
    ensures |t| == |s| && multiset(t) == multiset(s) && t[k] in charset && t[..k] == s[..k]
    ensures forall c :: c in t <==> c in s
  {
    var c :| c in s && c in charset;
    var j :| 0 <= j < |s| && s[j] == c;
    SwapPermutes(s, k, j);
    t := Swap(s, k, j);
    SameElements(t, s);
  }

  lemma InOrder(pw: string, sets: Charsets) returns (t: string)
    requires sets.Disjoint() && Strong(pw, sets.upper, sets.lower, sets.digits, sets.special)
    ensures |t| == |pw| && multiset(t) == multiset(pw) && forall i :: 0 <= i < |t| ==> t[i] in sets.For(i)
  {
    var t1 := BringTo(pw, 0, sets.upper);
    var t2 := BringTo(t1, 1, sets.lower);
    assert t2[0] == t2[..1][0];
    var t3 := BringTo(t2, 2, sets.digits);
    assert t3[0] == t3[..2][0] && t3[1] == t3[..2][1];
    t := BringTo(t3, 3, sets.special);
    assert t[0] == t[..3][0] && t[1] == t[..3][1] && t[2] == t[..3][2];
    forall i | 0 <= i < |t| ensures t[i] in sets.For(i) { assert t[i] in t; }
  }

  function PositionIn(c: char, charset: string): (n: nat)
    requires c in charset
    ensures n < |charset| && charset[n] == c
  {
    if charset[0] == c then 0 else 1 + PositionIn(c, charset[1..])
  }

  /** And every strong password is made by some random numbers, where the charsets are disjoint. */
  lemma EveryStrongPasswordIsMade(pw: string, sets: Charsets) returns (numbers: seq<nat>, choices: seq<nat>)
    requires sets.Disjoint() && Strong(pw, sets.upper, sets.lower, sets.digits, sets.special)
    ensures IsMadeOf(pw, numbers, choices, sets)
  {
    var t := InOrder(pw, sets);
    numbers := seq(PASSWORD_LENGTH, i requires 0 <= i < PASSWORD_LENGTH => PositionIn(t[i], sets.For(i)));
    assert DrawnWith(numbers, sets) == t;
    choices := EveryArrangementIsReached(t, pw, PASSWORD_LENGTH);
  }

  lemma UppercaseIs()
    ensures forall i :: 0 <= i < |UPPERCASE| ==> 'A' <= UPPERCASE[i] <= 'Z'
  {
  }

  lemma LowercaseIs()
    ensures forall i :: 0 <= i < |LOWERCASE| ==> 'a' <= LOWERCASE[i] <= 'z'
  {
  }

  lemma DigitsAre()
    ensures forall i :: 0 <= i < |DIGITS| ==> '0' <= DIGITS[i] <= '9'
  {
  }

  predicate IsSpecial(c: char) { !('A' <= c <= 'Z') && !('a' <= c <= 'z') && !('0' <= c <= '9') }

  lemma SpecialIs()
    ensures forall i :: 0 <= i < |SPECIAL| ==> IsSpecial(SPECIAL[i])
  {
  }

  lemma RangesAreApart(sets: Charsets)
    requires forall c :: c in sets.upper ==> 'A' <= c <= 'Z'
    requires forall c :: c in sets.lower ==> 'a' <= c <= 'z'
    requires forall c :: c in sets.digits ==> '0' <= c <= '9'
    requires forall c :: c in sets.special ==> IsSpecial(c)
    ensures sets.Disjoint()
  {
  }

  lemma CharsetsAreApart()
    ensures CHARSETS.Disjoint()
  {
    UppercaseIs();
    LowercaseIs();
    DigitsAre();
    SpecialIs();
    RangesAreApart(CHARSETS);
  }

  lemma SameElements<T>(s: seq<T>, t: seq<T>)
    requires multiset(s) == multiset(t)
    ensures |s| == |t| && forall x :: x in s <==> x in t
  {
    assert |multiset(s)| == |s| && |multiset(t)| == |t|;
    assert forall x :: (x in s <==> x in multiset(s)) && (x in t <==> x in multiset(t));
  }
}
