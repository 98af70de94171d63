/**
 * The parts of `std::string_view` the path helpers use: `find_last_of` with
 * its `npos` sentinel and `substr` with its out-of-range error, over
 * unsigned `size_t` arithmetic made explicit.
 */
module StringView {

  datatype Option<T> = None | Some(value: T)

  /** 2^64, the modulus of `size_t` arithmetic. */
  const SIZE_MOD: int := 0x1_0000_0000_0000_0000

  /** `npos`, the largest `size_t`, returned by a search that finds nothing. */
  const NPOS: nat := SIZE_MOD - 1

  /** A `string_view` never holds `npos` characters. */
  predicate IsView(s: string) { |s| < NPOS }

  /** A string short enough to be searched. */
  type View = s: string | IsView(s) witness []

  /** Wrap-around to `size_t`: unsigned subtraction never goes negative. */
  function SizeT(x: int): (r: nat)
    ensures r < SIZE_MOD
    ensures 0 <= x < SIZE_MOD ==> r == x
    ensures -SIZE_MOD <= x < 0 ==> r == x + SIZE_MOD
    ensures SIZE_MOD <= x < 2 * SIZE_MOD ==> r == x - SIZE_MOD
  {
    x % SIZE_MOD
  }

  /**
   * `s.find_last_of(c)`: the index of the last `c`, or `npos` when `s` holds
   * none.
   */
  function FindLastOf(s: string, c: char): (r: nat)
    requires IsView(s)
    ensures r == NPOS <==> c !in s
    ensures r != NPOS ==> r < |s| && s[r] == c && c !in s[r + 1..]
  {
    if |s| == 0 then NPOS
    else if s[|s| - 1] == c then |s| - 1
    else
      var r := FindLastOf(s[..|s| - 1], c);
      assert s == s[..|s| - 1] + [s[|s| - 1]];
      r
  }

  /**
   * `s.find_first_of(c)`: the index of the first `c`, or `npos` when `s`
   * holds none.
   */
  function FindFirstOf(s: string, c: char): (r: nat)
    requires IsView(s)
    ensures r == NPOS <==> c !in s
    ensures r != NPOS ==> r < |s| && s[r] == c && c !in s[..r]
  {
    if |s| == 0 then NPOS
    else if s[0] == c then 0
    else
      var r := FindFirstOf(s[1..], c);
      assert s == [s[0]] + s[1..];
      if r == NPOS then NPOS else r + 1
  }

  /** `s.starts_with(prefix)`. */
  predicate StartsWith(s: string, prefix: string)
  {
    |prefix| <= |s| && s[..|prefix|] == prefix
  }

  /**
   * `s.substr(pos, count)`: the characters from `pos` on, at most `count` of
   * them; `None` stands for the `std::out_of_range` thrown when `pos > |s|`.
   */
  function Substr(s: string, pos: nat, count: nat): (r: Option<string>)
    ensures r.None? <==> pos > |s|
    ensures r.Some? ==> |r.value| == (if count < |s| - pos then count else |s| - pos)
    ensures r.Some? ==> r.value == s[pos..pos + |r.value|]
  {
    if pos > |s| then None
    else if count < |s| - pos then Some(s[pos..pos + count])
    else Some(s[pos..])
  }
}
