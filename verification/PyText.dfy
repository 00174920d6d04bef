/** The few Python conventions that the modelled code relies on: results, calls that raise, strings. */
module PyText {

  datatype Option<+T> = None | Some(value: T)

  datatype Result<+T, +E> = Ok(value: T) | Err(error: E)

  /** A call that raises. It may have taken effect before: a repository call commits and then refreshes the
      row, and a store or broker may have done what was asked when the answer is lost. */
  datatype Fault = Fault(message: string, applied: bool)

  /** The call raises before it takes effect. */
  predicate Blocks(fault: Option<Fault>) { fault.Some? && !fault.value.applied }

  /** The call takes effect and raises all the same. */
  predicate Late(fault: Option<Fault>) { fault.Some? && fault.value.applied }

  function Min(a: int, b: int): int { if a <= b then a else b }

  function Max(a: int, b: int): int { if a <= b then b else a }

  /** `sep` occurs in `text` at position `i`. */
  predicate At(text: string, sep: string, i: int) {
    0 <= i && i + |sep| <= |text| && text[i..i + |sep|] == sep
  }

  /** `text.find(sep, start)`: the least occurrence at or after `start`, or -1. */
  function Find(text: string, sep: string, start: nat): (r: int)
    ensures r == -1 || (start <= r && r + |sep| <= |text|)
    decreases |text| - start
  {
    if start + |sep| > |text| then -1
    else if At(text, sep, start) then start
    else Find(text, sep, start + 1)
  }

  lemma {:induction false} FindIsFirst(text: string, sep: string, start: nat)
    ensures Find(text, sep, start) != -1 ==> At(text, sep, Find(text, sep, start))
    ensures forall i :: start <= i && (Find(text, sep, start) == -1 || i < Find(text, sep, start)) ==> !At(text, sep, i)
    decreases |text| - start
  {
    if start + |sep| <= |text| && !At(text, sep, start) {
      FindIsFirst(text, sep, start + 1);
    }
  }

  /** `sep in text`. */
  predicate Contains(text: string, sep: string) {
    Find(text, sep, 0) != -1
  }

  /** `text[lo:hi]` for non-negative bounds, which Python clamps to the length. */
  function Slice(text: string, lo: nat, hi: nat): (r: string)
    ensures lo <= hi <= |text| ==> r == text[lo..hi]
  {
    var h := Min(hi, |text|);
    if lo <= h then text[lo..h] else ""
  }

  /** The decimal digits of a natural number, as `f"{n}"` prints them. */
  function Decimal(n: nat): (s: string)
    ensures s != ""
    ensures forall i :: 0 <= i < |s| ==> '0' <= s[i] <= '9'
  {
    var digit := ('0' as int + n % 10) as char;
    if n < 10 then [digit] else Decimal(n / 10) + [digit]
  }

  /** The number that a string of decimal digits denotes. */
  function Reading(s: string): int {
    if s == "" then 0 else 10 * Reading(s[..|s| - 1]) + (s[|s| - 1] as int - '0' as int)
  }

  /** A number prints as the digits that denote it, without leading zeros. */
  lemma {:induction false} DecimalReads(n: nat)
    ensures Reading(Decimal(n)) == n && (n > 0 ==> Decimal(n)[0] != '0')
    decreases n
  {
    if n >= 10 {
      DecimalReads(n / 10);
      assert Decimal(n)[..|Decimal(n)| - 1] == Decimal(n / 10);
    }
  }

  lemma {:induction false} FirstAndRest<T>(a: seq<T>, b: seq<T>)
    requires a != [] && b != [] && a[0] == b[0] && a[1..] == b[1..]
    ensures a == b
  {
    assert a == [a[0]] + a[1..] && b == [b[0]] + b[1..];
  }

  lemma {:induction false} PartOfPart<T>(s: seq<T>, lo: nat, hi: nat, i: nat, j: nat)
    requires lo <= hi <= |s| && i <= j <= hi - lo
    ensures s[lo..hi][i..j] == s[lo + i..lo + j]
  {
    var part, inner := s[lo..hi], s[lo..hi][i..j];
    forall k | 0 <= k < j - i ensures inner[k] == s[lo + i..lo + j][k] {
      assert inner[k] == part[i + k];
    }
  }

  lemma {:induction false} Regroup<T>(a: seq<T>, b: seq<T>, c: seq<T>)
    ensures a + (b + c) == (a + b) + c
  {
  }

  lemma {:induction false} FirstMoves<T>(done: seq<T>, x: T, rest: seq<T>, left: seq<T>)
    requires left == [x] + rest
    ensures done + left == (done + [x]) + rest
  {
  }
}
