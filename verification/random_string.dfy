/** `getRandomString(size)`: an identifier built by concatenating chunks of at
    most seven base-36 characters, recursing while more than seven are still
    wanted. The randomness is an input: `draws(k)` is the text that the k-th
    evaluation of `Math.random().toString(36)` produced ("0." followed by
    base-36 digits), so the model is a function of those texts. */
module RandomString {

  /** `maxLength`, the most characters one chunk contributes. */
  const MaxLength := 7
  /** The default `size`, and the size the client asks for when it makes a request id. */
  const DefaultSize := 10

  predicate IsBase36Digit(c: char) {
    '0' <= c <= '9' || 'a' <= c <= 'z'
  }

  /** The text of `Math.random().toString(36)`: base-36 digits after the "0." prefix. */
  predicate RadixText(d: string) {
    forall j :: 2 <= j < |d| ==> IsBase36Digit(d[j])
  }

  function Clamp(x: int, n: nat): (c: nat)
    ensures c <= n
  {
    if x < 0 then 0 else if x > n then n else x
  }

  /** `String.prototype.substring(start, end)`: both ends are clamped to the
      string, and swapped when the start is past the end. */
  function Substring(s: string, start: int, end: int): string {
    var a, b := Clamp(start, |s|), Clamp(end, |s|);
    if a <= b then s[a..b] else s[b..a]
  }

  /** `substring` gives the run of `s` between the two clamped positions,
      whichever comes first, so the order of the arguments does not matter. */
  lemma SubstringSpan(s: string, start: int, end: int)
    ensures var lo, hi := Clamp(start, |s|), Clamp(end, |s|);
      var from := if lo <= hi then lo else hi;
      && |Substring(s, start, end)| == (if lo <= hi then hi - lo else lo - hi)
      && forall i :: 0 <= i < |Substring(s, start, end)| ==> Substring(s, start, end)[i] == s[from + i]
    ensures Substring(s, start, end) == Substring(s, end, start)
  {
  }

  /** `.substring(2, 9)` of a draw: the (at most seven) characters after "0.". */
  function Chunk(d: string): (c: string)
    ensures |c| == if |d| <= 2 then 0 else if |d| - 2 < MaxLength then |d| - 2 else MaxLength
    ensures forall i :: 0 <= i < |c| ==> c[i] == d[i + 2]
  {
    Substring(d, 2, 9)
  }

  /** `getRandomString(size)`, with the chunk of this call drawn from `draws(k)` and
      the recursive call's from `draws(k + 1)` onwards (the left operand of `+` is
      evaluated first). */
  function GetRandomString(size: int, draws: nat -> string, k: nat): (r: string)
    ensures |r| <= if size > 0 then size else 0
    decreases size
  {
    Substring(Chunk(draws(k)), 0, size)
    + (if size > MaxLength then GetRandomString(size - MaxLength, draws, k + 1) else "")
  }

  /** How many times a call with this `size` evaluates its body, i.e. how many draws it consumes. */
  function Calls(size: int): (n: nat)
    ensures n >= 1
    decreases size
  {
    if size > MaxLength then 1 + Calls(size - MaxLength) else 1
  }

  /** A call with `size <= 0` returns the empty text and makes no recursive call. */
  lemma NonPositiveSize(size: int, draws: nat -> string, k: nat)
    requires size <= 0
    ensures GetRandomString(size, draws, k) == "" && Calls(size) == 1
  {
  }

  /** The recursion runs ceil(size / 7) times for a positive size: each recursive
      call takes seven off `size` and is only made while `size > 7`. */
  lemma {:induction false} CallsIsCeiling(size: int)
    requires size >= 1
    ensures Calls(size) == (size + MaxLength - 1) / MaxLength
  {
    if size > MaxLength {
      CallsIsCeiling(size - MaxLength);
    }
  }

  /** The result depends on exactly the draws `k .. k + Calls(size) - 1`. */
  lemma {:induction false} UsesOnlyItsDraws(size: int, d1: nat -> string, d2: nat -> string, k: nat)
    requires forall i :: k <= i < k + Calls(size) ==> d1(i) == d2(i)
    ensures GetRandomString(size, d1, k) == GetRandomString(size, d2, k)
  {
    assert d1(k) == d2(k);
    if size > MaxLength {
      UsesOnlyItsDraws(size - MaxLength, d1, d2, k + 1);
    }
  }

  /** When every draw used yields a full seven-character chunk, the result has
      exactly the requested length. */
  lemma {:induction false} FullChunksGiveExactLength(size: int, draws: nat -> string, k: nat)
    requires size >= 1
    requires forall i :: k <= i < k + Calls(size) ==> |Chunk(draws(i))| == MaxLength
    ensures |GetRandomString(size, draws, k)| == size
  {
    assert |Chunk(draws(k))| == MaxLength;
    if size > MaxLength {
      FullChunksGiveExactLength(size - MaxLength, draws, k + 1);
    }
  }

  /** Nothing pads a chunk: when the draw at recursion depth `j` yields fewer
      characters than both seven and the size still wanted at that depth, the
      result is shorter than `size`. */
  lemma {:induction false} ShortChunkGivesShortResult(size: int, draws: nat -> string, k: nat, j: nat)
    requires j < Calls(size)
    requires |Chunk(draws(k + j))| < MaxLength && |Chunk(draws(k + j))| < size - MaxLength * j
    ensures |GetRandomString(size, draws, k)| < size
  {
    var c := Chunk(draws(k));
    SubstringSpan(c, 0, size);
    if j == 0 {
      assert |Substring(c, 0, size)| == |c|;
    } else {
      assert size > MaxLength;
      assert |Chunk(draws((k + 1) + (j - 1)))| < size - MaxLength - MaxLength * (j - 1);
      ShortChunkGivesShortResult(size - MaxLength, draws, k + 1, j - 1);
    }
  }

  /** A request id can be as short as two characters: when every draw is "0.i"
      (the text of 0.5 in base 36), each chunk is the single character "i". */
  lemma DefaultSizeCanGiveTwoCharacters()
    ensures GetRandomString(DefaultSize, (i: nat) => "0.i", 0) == "ii"
  {
    var draws := (i: nat) => "0.i";
    assert Chunk(draws(0)) == "i" && Chunk(draws(1)) == "i";
    DefaultSizeShape(draws, 0);
    assert Substring("i", 0, DefaultSize - MaxLength) == "i";
  }

  /** The part one call takes from its draw consists of base-36 digits. */
  lemma HeadIsBase36(d: string, size: int)
    requires RadixText(d)
    ensures forall j :: 0 <= j < |Substring(Chunk(d), 0, size)| ==> IsBase36Digit(Substring(Chunk(d), 0, size)[j])
  {
    var c := Chunk(d);
    var head := Substring(c, 0, size);
    SubstringSpan(c, 0, size);
    forall j | 0 <= j < |head| ensures IsBase36Digit(head[j]) {
      assert head[j] == c[j] == d[j + 2];
    }
  }

  /** Every character of the result is a base-36 digit, given draws of the
      `Math.random().toString(36)` form. */
  lemma {:induction false} ResultIsBase36(size: int, draws: nat -> string, k: nat)
    requires forall i :: k <= i < k + Calls(size) ==> RadixText(draws(i))
    ensures forall j :: 0 <= j < |GetRandomString(size, draws, k)| ==> IsBase36Digit(GetRandomString(size, draws, k)[j])
  {
    var head := Substring(Chunk(draws(k)), 0, size);
    var tail := if size > MaxLength then GetRandomString(size - MaxLength, draws, k + 1) else "";
    assert forall j :: 0 <= j < |head| ==> IsBase36Digit(head[j]) by {
      assert RadixText(draws(k));
      HeadIsBase36(draws(k), size);
    }
    assert forall j :: 0 <= j < |tail| ==> IsBase36Digit(tail[j]) by {
      if size > MaxLength {
        assert Calls(size) == 1 + Calls(size - MaxLength);
        ResultIsBase36(size - MaxLength, draws, k + 1);
      }
    }
    var r := GetRandomString(size, draws, k);
    assert r == head + tail;
    forall j | 0 <= j < |r| ensures IsBase36Digit(r[j]) {
      if j < |head| {
        assert r[j] == head[j];
      } else {
        assert r[j] == tail[j - |head|];
      }
    }
  }

  /** With the default size of 10 the identifier is the whole first chunk (up to
      seven characters) followed by at most three characters of the second. */
  lemma DefaultSizeShape(draws: nat -> string, k: nat)
    ensures GetRandomString(DefaultSize, draws, k)
         == Chunk(draws(k)) + Substring(Chunk(draws(k + 1)), 0, DefaultSize - MaxLength)
    ensures |Chunk(draws(k))| <= MaxLength
    ensures |Substring(Chunk(draws(k + 1)), 0, DefaultSize - MaxLength)| <= DefaultSize - MaxLength
  {
    var c := Chunk(draws(k));
    assert Substring(c, 0, DefaultSize) == c;
  }
}
