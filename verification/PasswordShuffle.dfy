/** One-time passwords: a letter, a digit and six more characters, shuffled in place. */
module PasswordShuffle {
  import opened Wrappers

  const LETTERS := "abcdefghijkmnpqrstuvwxyz"
  const DIGITS := "23456789"
  const CHARSET := LETTERS + DIGITS

  // ---------------------------------------------------------------- the shuffle

  /** The partner drawn for each place: place i is swapped with one of 0..i. */
  predicate Choices(c: seq<nat>) { forall i | 0 <= i < |c| :: c[i] <= i }

  function Swap<T>(s: seq<T>, i: nat, j: nat): (r: seq<T>)
    requires i < |s| && j < |s|
    ensures |r| == |s|
  {
    s[i := s[j]][j := s[i]]
  }

  /** The swaps of places i, i-1, ..., 1, in that order. */
  function Shuffle<T>(s: seq<T>, c: seq<nat>, i: nat): (r: seq<T>)
    requires |c| == |s| && Choices(c) && i < |s|
    ensures |r| == |s|
    decreases i
  {
    if i == 0 then s else Shuffle(Swap(s, i, c[i]), c, i - 1)
  }

  lemma SwapPermutes<T>(s: seq<T>, i: nat, j: nat)
    requires i < |s| && j < |s|
    ensures multiset(Swap(s, i, j)) == multiset(s)
  {}

  lemma {:induction false} ShufflePermutes<T>(s: seq<T>, c: seq<nat>, i: nat)
    requires |c| == |s| && Choices(c) && i < |s|
    ensures multiset(Shuffle(s, c, i)) == multiset(s)
    ensures forall k | i < k < |s| :: Shuffle(s, c, i)[k] == s[k]
    decreases i
  {
    if i > 0 {
      SwapPermutes(s, i, c[i]);
      ShufflePermutes(Swap(s, i, c[i]), c, i - 1);
    }
  }

  predicate Distinct<T(==)>(s: seq<T>) { forall i, j | 0 <= i < j < |s| :: s[i] != s[j] }

  lemma SwapAt<T>(s: seq<T>, i: nat, j: nat)
    requires i < |s| && j < |s|
    ensures Swap(s, i, j)[i] == s[j] && (Distinct(s) ==> Distinct(Swap(s, i, j)))
  {}

  lemma {:induction false} ShuffleInjective<T>(s: seq<T>, c: seq<nat>, d: seq<nat>, i: nat)
    requires |c| == |d| == |s| && Choices(c) && Choices(d) && i < |s| && Distinct(s)
    requires Shuffle(s, c, i) == Shuffle(s, d, i)
    ensures forall k | 0 < k <= i :: c[k] == d[k]
    decreases i
  {
    hide Swap;
    if i > 0 {
      ShufflePermutes(Swap(s, i, c[i]), c, i - 1);
      ShufflePermutes(Swap(s, i, d[i]), d, i - 1);
      SwapAt(s, i, c[i]);
      SwapAt(s, i, d[i]);
      assert s[c[i]] == Shuffle(s, c, i)[i] == Shuffle(s, d, i)[i] == s[d[i]];
      ShuffleInjective(Swap(s, i, c[i]), c, d, i - 1);
    }
  }

  /** Some swap of place i brings t's element there, and leaves a smaller arrangement to reach. */
  lemma SwapReaches<T>(s: seq<T>, t: seq<T>, i: nat) returns (j: nat)
    requires |s| == |t| && 0 < i < |s| && multiset(s[..i + 1]) == multiset(t[..i + 1]) && s[i + 1..] == t[i + 1..]
    ensures j <= i && Swap(s, i, j)[i..] == t[i..] && multiset(Swap(s, i, j)[..i]) == multiset(t[..i])
  {
    hide Swap;
    InPrefix(s, t, i);
    j :| 0 <= j < i + 1 && s[..i + 1][j] == t[i];
    SwapPrefix(s, i, j);
    SwapPermutes(s[..i + 1], i, j);
    var r := Swap(s, i, j);
    SwapAt(s, i, j);
    TailFrom(r, i);
    TailFrom(t, i);
    assert t[..i + 1] == t[..i] + [t[i]];
    SameRest(r[..i], t[..i], t[i]);
  }

  lemma TailFrom<T>(s: seq<T>, i: nat)
    requires i < |s|
    ensures s[i..] == [s[i]] + s[i + 1..]
  {}

  lemma InPrefix<T>(s: seq<T>, t: seq<T>, i: nat)
    requires i < |s| && i < |t| && multiset(s[..i + 1]) == multiset(t[..i + 1])
    ensures t[i] in s[..i + 1]
  {
    assert t[..i + 1][i] in multiset(t[..i + 1]);
  }

  lemma SwapPrefix<T>(s: seq<T>, i: nat, j: nat)
    requires j <= i < |s|
    ensures Swap(s, i, j)[..i] + [s[j]] == Swap(s[..i + 1], i, j) && Swap(s, i, j)[i + 1..] == s[i + 1..]
  {}

  lemma SameRest<T>(a: seq<T>, b: seq<T>, x: T)
    requires multiset(a + [x]) == multiset(b + [x])
    ensures multiset(a) == multiset(b)
  {
    assert multiset(a) == multiset(a + [x]) - multiset{x};
    assert multiset(b) == multiset(b + [x]) - multiset{x};
  }

  /** Any arrangement t of s, equal to s beyond place i, is reached by swaps of the places up to i. */
  lemma {:induction false} ShuffleReaches<T>(s: seq<T>, t: seq<T>, i: nat) returns (c: seq<nat>)
    requires |s| == |t| && i < |s| && multiset(s[..i + 1]) == multiset(t[..i + 1]) && s[i + 1..] == t[i + 1..]
    ensures |c| == |s| && Choices(c) && Shuffle(s, c, i) == t
    decreases i
  {
    if i == 0 {
      c := seq(|s|, _ => 0);
      assert s[..1] == [s[0]] && t[..1] == [t[0]];
      assert s[0] in multiset(t[..1]);
      assert s == s[..1] + s[1..] && t == t[..1] + t[1..];
    } else {
      var j := SwapReaches(s, t, i);
      var d := ShuffleReaches(Swap(s, i, j), t, i - 1);
      c := d[i := j];
      SameChoices(Swap(s, i, j), d, c, i - 1);
    }
  }

  lemma {:induction false} SameChoices<T>(s: seq<T>, c: seq<nat>, d: seq<nat>, i: nat)
    requires |c| == |d| == |s| && Choices(c) && Choices(d) && i < |s|
    requires forall k | 0 < k <= i :: c[k] == d[k]
    ensures Shuffle(s, c, i) == Shuffle(s, d, i)
    decreases i
  {
    if i > 0 { SameChoices(Swap(s, i, c[i]), c, d, i - 1); }
  }

  /** Every arrangement of s comes out of the shuffle, and if the elements of s are distinct, out of
      exactly one sequence of choices: with uniform choices, no arrangement is favoured. */
  lemma {:induction false} ShuffleIsABijection<T>(s: seq<T>, t: seq<T>) returns (c: seq<nat>)
    requires s != [] && multiset(s) == multiset(t)
    ensures |c| == |s| && Choices(c) && Shuffle(s, c, |s| - 1) == t
    ensures Distinct(s) ==> forall d: seq<nat> | |d| == |s| && Choices(d) && Shuffle(s, d, |s| - 1) == t :: d == c
  {
    assert |s| == |multiset(s)| == |multiset(t)| == |t|;
    assert s[..|s|] == s && t[..|t|] == t;
    c := ShuffleReaches(s, t, |s| - 1);
    if Distinct(s) {
      forall d: seq<nat> | |d| == |s| && Choices(d) && Shuffle(s, d, |s| - 1) == t ensures d == c {
        ShuffleInjective(s, c, d, |s| - 1);
      }
    }
  }

  // ---------------------------------------------------------------- the generator

  /** The alphabet of each place before the shuffle. */
  function Alphabet(i: nat): string { if i == 0 then LETTERS else if i == 1 then DIGITS else CHARSET }

  /** The random numbers drawn, None where the random source fails: for each place an index into its
      alphabet, and, place 0 apart, the place to swap it with. */
  datatype Draws = Draws(chars: seq<Option<nat>>, swaps: seq<Option<nat>>)

  predicate Drawn(d: Draws) {
    && |d.chars| == |d.swaps| == 8 && d.swaps[0] == Some(0)
    && (forall i | 0 <= i < 8 :: d.chars[i].Some? ==> d.chars[i].value < |Alphabet(i)|)
    && (forall i | 0 <= i < 8 :: d.swaps[i].Some? ==> d.swaps[i].value <= i)
  }

  predicate AllSome(s: seq<Option<nat>>) { forall i | 0 <= i < |s| :: s[i].Some? }

  /** The characters before the shuffle. */
  function Filled(d: Draws): seq<char>
    requires Drawn(d) && AllSome(d.chars)
  {
    seq(8, i requires 0 <= i < 8 => Alphabet(i)[d.chars[i].value])
  }

  function Partners(d: Draws): (c: seq<nat>)
    requires Drawn(d) && AllSome(d.swaps)
    ensures |c| == 8 && Choices(c)
  {
    seq(8, i requires 0 <= i < 8 => d.swaps[i].value)
  }

  predicate Usable(p: seq<char>) {
    && |p| == 8 && (forall c | c in p :: c in CHARSET)
    && (exists i | 0 <= i < |p| :: p[i] in LETTERS) && (exists i | 0 <= i < |p| :: p[i] in DIGITS)
  }

  /** Whatever is drawn, shuffling keeps the letter and the digit. */
  lemma {:induction false} ShuffledIsUsable(d: Draws)
    requires Drawn(d) && AllSome(d.chars) && AllSome(d.swaps)
    ensures var p := Shuffle(Filled(d), Partners(d), 7);
            && Usable(p) && |p| == 8 && (forall i | 0 <= i < 8 :: IsLetter(p[i]) || IsDigit(p[i]))
            && (exists i | 0 <= i < 8 :: IsLetter(p[i])) && (exists i | 0 <= i < 8 :: IsDigit(p[i]))
  {
    var f := Filled(d);
    FilledIsUsable(d);
    ShufflePermutes(f, Partners(d), 7);
    StillUsable(f, Shuffle(f, Partners(d), 7));
    UsableMeans(Shuffle(f, Partners(d), 7));
  }

  lemma FilledIsUsable(d: Draws)
    requires Drawn(d) && AllSome(d.chars)
    ensures Usable(Filled(d))
  {
    var f := Filled(d);
    assert f[0] in LETTERS && f[1] in DIGITS;
    forall i | 0 <= i < 8 ensures f[i] in CHARSET { assert f[i] in Alphabet(i); }
  }

  lemma StillUsable(f: seq<char>, p: seq<char>)
    requires Usable(f) && multiset(p) == multiset(f)
    ensures Usable(p)
  {
    assert |p| == |multiset(p)| == |multiset(f)| == |f|;
    forall c ensures c in p <==> c in f { assert c in multiset(p) <==> c in multiset(f); }
    var i :| 0 <= i < |f| && f[i] in LETTERS;
    var j :| 0 <= j < |f| && f[j] in DIGITS;
    assert f[i] in p && f[j] in p;
  }

  lemma AlphabetMeans(c: char)
    ensures c in LETTERS <==> 'a' <= c <= 'z' && c != 'l' && c != 'o'
    ensures c in DIGITS <==> '2' <= c <= '9'
    ensures c in CHARSET <==> c in LETTERS || c in DIGITS
  {
    LettersMean(c);
    if '2' <= c <= '9' { assert DIGITS[c as int - '2' as int] == c; }
  }

  lemma LettersMean(c: char)
    ensures c in LETTERS <==> 'a' <= c <= 'z' && c != 'l' && c != 'o'
  {
    if 'a' <= c <= 'z' && c != 'l' && c != 'o' {
      var place := c as int - 'a' as int;
      assert LETTERS[if c < 'l' then place else if c < 'o' then place - 1 else place - 2] == c;
    }
  }

  lemma UsableMeans(p: string)
    ensures Usable(p) <==>
              && |p| == 8 && (exists i | 0 <= i < 8 :: IsLetter(p[i])) && (exists i | 0 <= i < 8 :: IsDigit(p[i]))
              && forall i | 0 <= i < 8 :: IsLetter(p[i]) || IsDigit(p[i])
  {
    forall c: char ensures (c in LETTERS <==> IsLetter(c)) && (c in DIGITS <==> IsDigit(c))
                           && (c in CHARSET <==> c in LETTERS || c in DIGITS) {
      AlphabetMeans(c);
    }
  }

  /** The usable characters as people read them: neither l nor o, neither 0 nor 1. */
  predicate IsLetter(c: char) { 'a' <= c <= 'z' && c != 'l' && c != 'o' }

  predicate IsDigit(c: char) { '2' <= c <= '9' }

  /** The draws all succeed and make the password p. */
  predicate Gives(d: Draws, p: string) {
    Drawn(d) && AllSome(d.chars) && AllSome(d.swaps) && Shuffle(Filled(d), Partners(d), 7) == p
  }

  /** Nor does the generator leave any password out: some draws produce each one that has a letter and a
      digit. */
  lemma EveryPasswordCanBeDrawn(p: string) returns (d: Draws)
    requires |p| == 8 && (exists i | 0 <= i < 8 :: IsLetter(p[i])) && (exists i | 0 <= i < 8 :: IsDigit(p[i]))
    requires forall i | 0 <= i < 8 :: IsLetter(p[i]) || IsDigit(p[i])
    ensures Gives(d, p)
  {
    var i :| 0 <= i < 8 && IsLetter(p[i]);
    var j :| 0 <= j < 8 && IsDigit(p[j]);
    d := PasswordFrom(p, i, j);
  }

  lemma PasswordFrom(p: string, i: nat, j: nat) returns (d: Draws)
    requires |p| == 8 && i < 8 && j < 8 && i != j && IsLetter(p[i]) && IsDigit(p[j])
    requires forall k | 0 <= k < 8 :: IsLetter(p[k]) || IsDigit(p[k])
    ensures Gives(d, p)
  {
    hide *;
    var f := Fronted(p, i, j);
    FrontedFits(p, f);
    var c := ShuffleIsABijection(f, p);
    d := DrawsFor(f, c);
  }

  lemma FrontedFits(p: string, f: string)
    requires |f| == |p| == 8 && multiset(f) == multiset(p) && IsLetter(f[0]) && IsDigit(f[1])
    requires forall i | 0 <= i < 8 :: IsLetter(p[i]) || IsDigit(p[i])
    ensures forall k | 0 <= k < 8 :: f[k] in Alphabet(k)
  {
    forall k | 0 <= k < 8 ensures f[k] in Alphabet(k) {
      assert f[k] in multiset(p);
      AlphabetMeans(f[k]);
    }
  }

  lemma DrawsFor(f: string, c: seq<nat>) returns (d: Draws)
    requires |f| == |c| == 8 && Choices(c) && forall k | 0 <= k < 8 :: f[k] in Alphabet(k)
    ensures Gives(d, Shuffle(f, c, 7))
  {
    var chars := IndicesIn(f);
    hide Alphabet;
    d := Draws(chars, seq(8, k requires 0 <= k < 8 => Some(c[k])));
    assert Filled(d) == f && Partners(d) == c;
  }

  lemma Fronted<T>(p: seq<T>, i: nat, j: nat) returns (f: seq<T>)
    requires i < |p| && j < |p| && i != j
    ensures |f| == |p| && multiset(f) == multiset(p) && f[0] == p[i] && f[1] == p[j]
  {
    var q := Swap(p, 0, i);
    f := Swap(q, 1, if j == 0 then i else j);
    SwapPermutes(p, 0, i);
    SwapPermutes(q, 1, if j == 0 then i else j);
  }

  lemma IndicesIn(f: string) returns (chars: seq<Option<nat>>)
    requires |f| == 8 && forall k | 0 <= k < 8 :: f[k] in Alphabet(k)
    ensures |chars| == 8 && AllSome(chars)
    ensures forall k | 0 <= k < 8 :: chars[k].value < |Alphabet(k)| && Alphabet(k)[chars[k].value] == f[k]
  {
    chars := seq(8, k requires 0 <= k < 8 => (var n: nat :| n < |Alphabet(k)| && Alphabet(k)[n] == f[k]; Some(n)));
  }

  method FillBytes(d: Draws) returns (result: array<char>, ok: bool)
    requires Drawn(d)
    ensures fresh(result) && result.Length == 8
    ensures ok <==> AllSome(d.chars)
    ensures ok ==> result[..] == Filled(d)
  {
    result := new char[8](_ => '0');
    for i := 0 to 8
      invariant forall k | 0 <= k < i :: d.chars[k].Some? && result[k] == Alphabet(k)[d.chars[k].value]
    {
      if d.chars[i].None? {
        return result, false;
      }
      result[i] := Alphabet(i)[d.chars[i].value];
    }
    ok := true;
  }

  /** None exactly when the random source failed; otherwise the shuffled characters, which are always
      eight characters of the alphabet with a letter and a digit among them. */
  method GenerateRandomPassword(d: Draws) returns (password: Option<string>)
    requires Drawn(d)
    ensures password.Some? <==> AllSome(d.chars) && AllSome(d.swaps)
    ensures password.Some? ==> password.value == Shuffle(Filled(d), Partners(d), 7) && Usable(password.value)
  {
    var result, ok := FillBytes(d);
    if !ok {
      return None;
    }
    hide Usable, Alphabet, Filled;
    var i := 7;
    while i > 0
      invariant 0 <= i <= 7 && forall k | i < k <= 7 :: d.swaps[k].Some?
      invariant AllSome(d.swaps) ==> Shuffle(result[..], Partners(d), i) == Shuffle(Filled(d), Partners(d), 7)
    {
      if d.swaps[i].None? {
        return None;
      }
      var j := d.swaps[i].value;
      ghost var before := result[..];
      result[i], result[j] := result[j], result[i];
      assert result[..] == Swap(before, i, j);
      i := i - 1;
    }
    ShuffledIsUsable(d);
    return Some(result[..]);
  }
}
