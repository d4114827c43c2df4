/**
 * The regular expressions of the parsers, as sequences of pieces matched
 * left to right. A piece is a literal word or a repeated character class
 * taken greedily. Alternations and optional groups are written out by the
 * callers as separate piece sequences.
 *
 * Greedy matching without backtracking agrees with the backtracking engine
 * for every pattern this model writes: in each of them the character class
 * of a repetition never contains the first character the next piece needs,
 * so giving characters back could never let the rest of the pattern match.
 */
module Regex {
  import opened Wrappers
  import opened Strings

  datatype CharClass =
    | Digit               // \d
    | Space               // \s
    | AnyOf(cs: string)   // [abc], or one literal character
    | NoneOf(cs: string)  // [^abc]
    | AnyChar             // [\s\S]

  datatype Bound = AtMost(n: nat) | Unbounded

  datatype Piece =
    | Lit(w: string)                              // a literal word
    | Rep(cls: CharClass, min: nat, max: Bound)   // cls{min,max}, greedy

  /** Character equality, case-insensitive under the `/i` flag. */
  predicate CharEq(c: char, p: char, ci: bool) {
    if ci then CiEq(c, p) else c == p
  }

  predicate InChars(c: char, cs: string, ci: bool) {
    |cs| > 0 && (CharEq(c, cs[0], ci) || InChars(c, cs[1..], ci))
  }

  predicate InClass(c: char, cls: CharClass, ci: bool) {
    match cls
    case Digit => IsDigit(c)
    case Space => IsSpace(c)
    case AnyOf(cs) => InChars(c, cs, ci)
    case NoneOf(cs) => !InChars(c, cs, ci)
    case AnyChar => true
  }

  predicate Below(k: nat, max: Bound) {
    max.Unbounded? || k < max.n
  }

  function Less(max: Bound): Bound {
    match max
    case Unbounded => Unbounded
    case AtMost(n) => if n == 0 then AtMost(0) else AtMost(n - 1)
  }

  /** The length of the longest run of `cls` characters from `i`, at most `max`. */
  function RunLength(s: string, i: nat, cls: CharClass, ci: bool, max: Bound): (k: nat)
    requires i <= |s|
    ensures i + k <= |s|
    ensures forall j :: i <= j < i + k ==> InClass(s[j], cls, ci)
    ensures max.AtMost? ==> k <= max.n
    ensures Below(k, max) && i + k < |s| ==> !InClass(s[i + k], cls, ci)
    decreases |s| - i
  {
    if i == |s| || !Below(0, max) || !InClass(s[i], cls, ci) then 0
    else 1 + RunLength(s, i + 1, cls, ci, Less(max))
  }

  /** An unbounded run is exactly the class characters up to the first other one. */
  lemma RunLengthIs(s: string, i: nat, cls: CharClass, ci: bool, n: nat)
    requires i + n <= |s|
    requires forall j :: i <= j < i + n ==> InClass(s[j], cls, ci)
    requires i + n == |s| || !InClass(s[i + n], cls, ci)
    ensures RunLength(s, i, cls, ci, Unbounded) == n
  {
  }

  /** `w` occurs in `s` at `i`, letter case ignored when `ci`. */
  predicate WordAt(s: string, i: nat, w: string, ci: bool) {
    i + |w| <= |s| && forall k :: 0 <= k < |w| ==> CharEq(s[i + k], w[k], ci)
  }

  /** Where one piece matched from `i` ends, if it matches. */
  function MatchPiece(s: string, i: nat, p: Piece, ci: bool): (r: Option<nat>)
    ensures r.Some? ==> i <= r.value <= |s|
  {
    if i > |s| then None
    else match p
      case Lit(w) => if WordAt(s, i, w, ci) then Some(i + |w|) else None
      case Rep(cls, min, max) =>
        var k := RunLength(s, i, cls, ci, max);
        if k >= min then Some(i + k) else None
  }

  /** Where a sequence of pieces matched from `i` ends, if it matches. */
  function Match(s: string, i: nat, ps: seq<Piece>, ci: bool): (r: Option<nat>)
    ensures r.Some? ==> i <= r.value <= |s|
    decreases |ps|
  {
    if i > |s| then None
    else if ps == [] then Some(i)
    else match MatchPiece(s, i, ps[0], ci)
      case None => None
      case Some(j) => Match(s, j, ps[1..], ci)
  }

  /** Matching a concatenation is matching its halves one after the other. */
  lemma {:induction false} MatchAppend(s: string, i: nat, a: seq<Piece>, b: seq<Piece>, ci: bool)
    ensures Match(s, i, a + b, ci) == (match Match(s, i, a, ci) case None => None case Some(j) => Match(s, j, b, ci))
    decreases |a|
  {
    if a == [] {
      assert a + b == b;
    } else if i <= |s| {
      assert (a + b)[0] == a[0] && (a + b)[1..] == a[1..] + b;
      match MatchPiece(s, i, a[0], ci)
      case None =>
      case Some(j) => MatchAppend(s, j, a[1..], b, ci);
    }
  }

  /** `^pattern$`: the pieces match the whole of `s`. */
  predicate FullMatch(s: string, ps: seq<Piece>, ci: bool) {
    Match(s, 0, ps, ci) == Some(|s|)
  }

  /** `^pattern`: the pieces match a prefix of `s`. */
  predicate PrefixMatch(s: string, ps: seq<Piece>, ci: bool) {
    Match(s, 0, ps, ci).Some?
  }

  /** `s.replace(/^pattern/, '')`: the text after the matched prefix, or `s`. */
  function StripPrefix(s: string, ps: seq<Piece>, ci: bool): (r: string)
    ensures |r| <= |s|
    ensures r == s[|s| - |r|..]
    ensures !PrefixMatch(s, ps, ci) ==> r == s
  {
    match Match(s, 0, ps, ci)
    case None => s
    case Some(j) => s[j..]
  }

  // Shorthands for the pieces the patterns use.

  /** `c` alone, or a class of alternatives such as `[ée]`. */
  function One(cs: string): Piece { Rep(AnyOf(cs), 1, AtMost(1)) }
  /** `c?` */
  function Opt(c: char): Piece { Rep(AnyOf([c]), 0, AtMost(1)) }
  /** `\s*` */
  const Spaces: Piece := Rep(Space, 0, Unbounded)
  /** `\s+` */
  const Spaces1: Piece := Rep(Space, 1, Unbounded)
  /** `\d+` */
  const Digits1: Piece := Rep(Digit, 1, Unbounded)
  /** `#{0,3}` */
  const Hashes: Piece := Rep(AnyOf("#"), 0, AtMost(3))
}
