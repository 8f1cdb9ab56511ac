/**
 * The password generator of src/pages/examples/ApiPage.ts. The page object draws one
 * character from each of four classes, pads the password from all seventy characters up to
 * the requested length, and shuffles the result. `Math.random` is not modelled as such:
 * each draw is given as the index `Math.floor(Math.random() * str.length)` it produces,
 * and the shuffle done by `sort` with a random comparator as the permutation it applies.
 */
module ApiPage {

  /** The `n` consecutive code points from `first` on. */
  function CharRun(first: char, n: nat): (r: string)
    requires first as int + n <= 0xD800
    ensures |r| == n && forall k :: 0 <= k < n ==> r[k] as int == first as int + k
  {
    seq(n, k requires 0 <= k < n => (first as int + k) as char)
  }

  const Uppercase := CharRun('A', 26)
  const Lowercase := CharRun('a', 26)
  const Numbers := CharRun('0', 10)
  const SpecialChars := "!@#$%^&*"
  const AllChars := Uppercase + Lowercase + Numbers + SpecialChars

  /** The first three classes are the alphabets written out in ApiPage.ts. */
  lemma ClassesAsWritten()
    ensures Uppercase == "ABCDEFGHIJKLMNOPQRSTUVWXYZ"
    ensures Lowercase == "abcdefghijklmnopqrstuvwxyz"
    ensures Numbers == "0123456789"
    ensures |AllChars| == 70
  {
  }

  /** `generateStrongPassword()` with its default argument. */
  const DefaultLength := 12

  predicate IsUpper(c: char) { 'A' <= c <= 'Z' }
  predicate IsLower(c: char) { 'a' <= c <= 'z' }
  predicate IsDigit(c: char) { '0' <= c <= '9' }
  predicate IsSpecial(c: char) { c in SpecialChars }

  predicate IsPasswordChar(c: char) {
    IsUpper(c) || IsLower(c) || IsDigit(c) || IsSpecial(c)
  }

  /** `AllChars` holds exactly the characters of the four classes. */
  lemma AllCharsAreTheClasses(c: char)
    ensures c in AllChars <==> IsPasswordChar(c)
  {
    AllCharsClassified();
    if IsUpper(c) {
      assert AllChars[c as int - 'A' as int] == c;
    } else if IsLower(c) {
      assert AllChars[26 + c as int - 'a' as int] == c;
    } else if IsDigit(c) {
      assert AllChars[52 + c as int - '0' as int] == c;
    } else if IsSpecial(c) {
      var k :| 0 <= k < 8 && SpecialChars[k] == c;
      assert AllChars[62 + k] == c;
    }
  }

  /** Every character of `AllChars`, by position, is in one of the classes. */
  lemma AllCharsClassified()
    ensures |AllChars| == 70
    ensures forall i :: 0 <= i < 26 ==> AllChars[i] == Uppercase[i] && IsUpper(AllChars[i])
    ensures forall i :: 26 <= i < 52 ==> AllChars[i] == Lowercase[i - 26] && IsLower(AllChars[i])
    ensures forall i :: 52 <= i < 62 ==> AllChars[i] == Numbers[i - 52] && IsDigit(AllChars[i])
    ensures forall i :: 62 <= i < 70 ==> AllChars[i] == SpecialChars[i - 62] && IsSpecial(AllChars[i])
  {
  }

  /** How long the password comes out: four mandatory characters, padded up to `length`. */
  function PasswordLength(length: int): (n: nat)
    ensures n >= 4 && n >= length
    ensures length >= 4 ==> n == length
  {
    if length > 4 then length else 4
  }

  /** `getRandomChar(str)`, where `draw` is the index `Math.random` led to (below `str.length`). */
  function GetRandomChar(str: string, draw: nat): (c: char)
    requires draw < |str|
    ensures c in str
  {
    str[draw]
  }

  // ---------------------------------------------------------------------------
  // The draws
  // ---------------------------------------------------------------------------

  /**
   * Draws `Math.random` can produce for a password of `n` characters: one index into each
   * class for the first four, one index into `AllChars` for each further character.
   */
  predicate ValidDraws(draws: seq<nat>, n: nat) {
    |draws| == n && n >= 4
    && draws[0] < |Uppercase| && draws[1] < |Lowercase|
    && draws[2] < |Numbers| && draws[3] < |SpecialChars|
    && forall k :: 4 <= k < n ==> draws[k] < |AllChars|
  }

  /**
   * The password before the shuffle: one upper-case letter, one lower-case letter, one digit
   * and one special character, in that order, then the padding, all from `AllChars`.
   */
  function Drawn(draws: seq<nat>): (s: string)
    requires ValidDraws(draws, |draws|)
    ensures |s| == |draws|
    ensures IsUpper(s[0]) && IsLower(s[1]) && IsDigit(s[2]) && IsSpecial(s[3])
    ensures forall k :: 0 <= k < |s| ==> IsPasswordChar(s[k])
  {
    AllCharsClassified();
    [Uppercase[draws[0]], Lowercase[draws[1]], Numbers[draws[2]], SpecialChars[draws[3]]]
      + seq(|draws| - 4, k requires 0 <= k < |draws| - 4 => AllChars[draws[k + 4]])
  }

  /** Each padding character is the one its draw picks out of `AllChars`. */
  lemma PaddingDraw(draws: seq<nat>, i: nat)
    requires ValidDraws(draws, |draws|) && 4 <= i < |draws|
    ensures Drawn(draws)[..i + 1] == Drawn(draws)[..i] + [AllChars[draws[i]]]
  {
    var d := Drawn(draws);
    var padding := seq(|draws| - 4, k requires 0 <= k < |draws| - 4 => AllChars[draws[k + 4]]);
    assert d[4..] == padding;
    assert d[i] == padding[i - 4];
    TakeOneMore(d, i);
  }

  lemma TakeOneMore(s: string, i: nat)
    requires i < |s|
    ensures s[..i + 1] == s[..i] + [s[i]]
  {
  }

  // ---------------------------------------------------------------------------
  // The shuffle
  // ---------------------------------------------------------------------------

  function Range(n: nat): (r: seq<nat>)
    ensures |r| == n && forall k :: 0 <= k < n ==> r[k] == k
  {
    seq(n, k requires 0 <= k < n => k)
  }

  predicate InRange(order: seq<nat>, n: nat) {
    forall k :: 0 <= k < |order| ==> order[k] < n
  }

  /** `order` lists every position below `n` exactly once. */
  predicate IsPermutation(order: seq<nat>, n: nat) {
    InRange(order, n) && multiset(order) == multiset(Range(n))
  }

  /**
   * `s.split('').sort(...).join('')`: the characters of `s` rearranged, the one at
   * position `order[k]` coming to position `k`.
   */
  function Shuffle(s: string, order: seq<nat>): string
    requires InRange(order, |s|)
  {
    seq(|order|, k requires 0 <= k < |order| => s[order[k]])
  }

  lemma ShuffleConcat(s: string, a: seq<nat>, b: seq<nat>)
    requires InRange(a, |s|) && InRange(b, |s|)
    ensures InRange(a + b, |s|) && Shuffle(s, a + b) == Shuffle(s, a) + Shuffle(s, b)
  {
  }

  /** `q` without its element at position `j`. */
  function Without(q: seq<nat>, j: nat): (r: seq<nat>)
    requires j < |q|
    ensures multiset(r) == multiset(q) - multiset{q[j]}
  {
    assert q == q[..j] + [q[j]] + q[j + 1..];
    q[..j] + q[j + 1..]
  }

  /** Leaving out position `j` leaves out one copy of the character picked there. */
  lemma ShuffleWithout(s: string, q: seq<nat>, j: nat)
    requires InRange(q, |s|) && j < |q|
    ensures InRange(Without(q, j), |s|)
    ensures multiset(Shuffle(s, q)) == multiset(Shuffle(s, Without(q, j))) + multiset{s[q[j]]}
  {
    var before, after := q[..j], q[j + 1..];
    assert q == before + [q[j]] + after;
    assert Without(q, j) == before + after;
    ShuffleConcat(s, before + [q[j]], after);
    ShuffleConcat(s, before, [q[j]]);
    ShuffleConcat(s, before, after);
    assert Shuffle(s, [q[j]]) == [s[q[j]]];
  }

  /** Picking positions that are the same multiset picks the same multiset of characters. */
  lemma {:induction false} SamePositionsSameCharacters(s: string, p: seq<nat>, q: seq<nat>)
    requires InRange(p, |s|) && InRange(q, |s|) && multiset(p) == multiset(q)
    ensures multiset(Shuffle(s, p)) == multiset(Shuffle(s, q))
    decreases |p|
  {
    if p == [] {
      assert |q| == |multiset(q)| == 0;
    } else {
      assert p[0] in multiset(q) by {
        assert p[0] in multiset(p);
      }
      var j :| 0 <= j < |q| && q[j] == p[0];
      ShuffleWithout(s, p, 0);
      ShuffleWithout(s, q, j);
      SamePositionsSameCharacters(s, Without(p, 0), Without(q, j));
    }
  }

  /** The shuffle keeps the length and the multiset of characters. */
  lemma ShuffleIsPermutation(s: string, order: seq<nat>)
    requires IsPermutation(order, |s|)
    ensures |Shuffle(s, order)| == |s|
    ensures multiset(Shuffle(s, order)) == multiset(s)
  {
    assert |order| == |multiset(order)| == |multiset(Range(|s|))| == |s|;
    SamePositionsSameCharacters(s, order, Range(|s|));
    assert Shuffle(s, Range(|s|)) == s;
  }

  // ---------------------------------------------------------------------------
  // generateStrongPassword
  // ---------------------------------------------------------------------------

  /** The promise of the generator: the length, every character from `AllChars`, every class present. */
  predicate IsStrong(password: string, n: nat) {
    |password| == n
    && (forall k :: 0 <= k < |password| ==> IsPasswordChar(password[k]))
    && (exists k :: 0 <= k < |password| && IsUpper(password[k]))
    && (exists k :: 0 <= k < |password| && IsLower(password[k]))
    && (exists k :: 0 <= k < |password| && IsDigit(password[k]))
    && (exists k :: 0 <= k < |password| && IsSpecial(password[k]))
  }

  /** A character of `drawn` turns up somewhere in the shuffled password. */
  lemma Survives(drawn: string, password: string, q: nat)
    requires multiset(password) == multiset(drawn) && q < |drawn|
    ensures exists k :: 0 <= k < |password| && password[k] == drawn[q]
  {
    assert drawn[q] in multiset(password);
  }

  /** Shuffling a password drawn by the generator leaves it strong. */
  lemma ShuffledDrawIsStrong(draws: seq<nat>, order: seq<nat>)
    requires ValidDraws(draws, |draws|) && IsPermutation(order, |draws|)
    ensures IsStrong(Shuffle(Drawn(draws), order), |draws|)
  {
    var drawn := Drawn(draws);
    var password := Shuffle(drawn, order);
    ShuffleIsPermutation(drawn, order);
    forall k | 0 <= k < |password| ensures IsPasswordChar(password[k]) {
      assert password[k] in multiset(drawn);
    }
    Survives(drawn, password, 0);
    Survives(drawn, password, 1);
    Survives(drawn, password, 2);
    Survives(drawn, password, 3);
  }

  /**
   * `generateStrongPassword(length)`: the four class draws, the padding loop over
   * `AllChars`, then the shuffle. `draws` and `order` stand for the calls to `Math.random`.
   */
  method GenerateStrongPassword(length: int, draws: seq<nat>, order: seq<nat>)
    returns (password: string)
    requires ValidDraws(draws, PasswordLength(length))
    requires IsPermutation(order, PasswordLength(length))
    ensures password == Shuffle(Drawn(draws), order)
    ensures IsStrong(password, PasswordLength(length))
    ensures forall k :: 0 <= k < |password| ==> password[k] in AllChars
  {
    var drawn := "";
    drawn := drawn + [GetRandomChar(Uppercase, draws[0])];
    drawn := drawn + [GetRandomChar(Lowercase, draws[1])];
    drawn := drawn + [GetRandomChar(Numbers, draws[2])];
    drawn := drawn + [GetRandomChar(SpecialChars, draws[3])];
    var i := |drawn|;
    while i < length
      invariant 4 <= i <= PasswordLength(length)
      invariant |drawn| == i
      invariant drawn == Drawn(draws)[..i]
      invariant forall k :: 0 <= k < i ==> IsPasswordChar(drawn[k])
    {
      PaddingDraw(draws, i);
      drawn := drawn + [GetRandomChar(AllChars, draws[i])];
      i := i + 1;
    }
    assert drawn == Drawn(draws);
    password := Shuffle(drawn, order);
    ShuffledDrawIsStrong(draws, order);
    forall k | 0 <= k < |password| ensures password[k] in AllChars {
      AllCharsAreTheClasses(password[k]);
    }
  }

  /** The page object: the generated password is kept in a field for the account calls. */
  class ApiPage {
    var baseUrl: string
    var password: string

    /** The constructor generates a password of the default length. */
    constructor(baseUrl: string, draws: seq<nat>, order: seq<nat>)
      requires ValidDraws(draws, DefaultLength) && IsPermutation(order, DefaultLength)
      ensures this.baseUrl == baseUrl
      ensures password == Shuffle(Drawn(draws), order) && IsStrong(password, DefaultLength)
    {
      var generated := GenerateStrongPassword(DefaultLength, draws, order);
      this.baseUrl := baseUrl;
      password := generated;
    }
  }
}
