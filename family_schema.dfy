/**
 * The zod schemas of the family-sharing forms: creating a group (its name
 * and the member's display name) and joining one with a six-character
 * invitation code, which the schema upper-cases.
 */
module FamilySchema {
  import opened Wrappers
  import opened Strings

  datatype CreateGroupForm = CreateGroupForm(name: string, displayName: string)
  datatype JoinGroupForm = JoinGroupForm(code: string, displayName: string)

  const MaxGroupName := 50
  const MaxDisplayName := 30
  const CodeLength := 6

  // ---------------------------------------------------------------------------
  // toUpperCase
  // ---------------------------------------------------------------------------

  /**
   * The upper case of one character as `String.prototype.toUpperCase`
   * writes it, for Basic Latin and Latin-1: `ß` becomes two letters, `ÿ`
   * and `µ` leave Latin-1. Other characters are kept.
   */
  function UpperOf(c: char): (r: string)
    ensures |r| == (if c == '\U{DF}' then 2 else 1)
  {
    if 'a' <= c <= 'z' then [(c as int - 32) as char]
    else if '\U{E0}' <= c <= '\U{FE}' && c != '\U{F7}' then [(c as int - 32) as char]
    else if c == '\U{FF}' then ['\U{178}']
    else if c == '\U{B5}' then ['\U{39C}']
    else if c == '\U{DF}' then "SS"
    else [c]
  }

  /** `s.toUpperCase()`. */
  function Upper(s: string): (r: string)
    ensures |r| >= |s|
    ensures (forall i :: 0 <= i < |s| ==> s[i] != '\U{DF}') ==> |r| == |s|
    ensures forall i :: 0 <= i < |r| ==> !('a' <= r[i] <= 'z')
  {
    if s == [] then [] else UpperOf(s[0]) + Upper(s[1..])
  }

  lemma {:induction false} UpperAppend(a: string, b: string)
    ensures Upper(a + b) == Upper(a) + Upper(b)
  {
    if a == [] {
      assert a + b == b;
    } else {
      assert (a + b)[0] == a[0] && (a + b)[1..] == a[1..] + b;
      UpperAppend(a[1..], b);
    }
  }

  /** What upper-casing one character produces is already upper case. */
  lemma UpperOfFixed(c: char)
    ensures Upper(UpperOf(c)) == UpperOf(c)
  {
    var u := UpperOf(c);
    if c == '\U{DF}' {
      assert u == ['S'] + ['S'];
      UpperAppend(['S'], ['S']);
    } else {
      assert u == [u[0]];
      assert Upper(u) == UpperOf(u[0]) + Upper([]);
    }
  }

  /** Upper-casing is idempotent. */
  lemma {:induction false} UpperTwice(s: string)
    ensures Upper(Upper(s)) == Upper(s)
  {
    if s != [] {
      UpperAppend(UpperOf(s[0]), Upper(s[1..]));
      UpperOfFixed(s[0]);
      UpperTwice(s[1..]);
    }
  }

  /** On ASCII text, upper-casing forgets the case: the lower-cased text has the same upper case. */
  lemma {:induction false} UpperIgnoresCase(s: string)
    requires forall i :: 0 <= i < |s| ==> s[i] < '\U{80}'
    ensures Upper(Lower(s)) == Upper(s)
  {
    if s != [] {
      var l := LowerChar(s[0]);
      assert Lower(s) == [l] + Lower(s[1..]);
      UpperAppend([l], Lower(s[1..]));
      UpperSingle(l);
      UpperOfLower(s[0]);
      UpperIgnoresCase(s[1..]);
    }
  }

  /** An ASCII character and its lower case have the same upper case. */
  lemma UpperOfLower(c: char)
    requires c < '\U{80}'
    ensures UpperOf(LowerChar(c)) == UpperOf(c)
  {
  }

  /** Upper-casing a one-character text. */
  lemma UpperSingle(c: char)
    ensures Upper([c]) == UpperOf(c)
  {
    assert [c][1..] == [];
  }

  // ---------------------------------------------------------------------------
  // The schemas
  // ---------------------------------------------------------------------------

  /** `z.string().min(1).max(30)` on the display name, in both schemas. */
  predicate DisplayNameValid(n: string) {
    1 <= |n| <= MaxDisplayName
  }

  /** `createGroupSchema.safeParse(f)`. */
  function CreateGroup(f: CreateGroupForm): (r: Option<CreateGroupForm>)
    ensures r.Some? <==> 1 <= |f.name| <= MaxGroupName && 1 <= |f.displayName| <= MaxDisplayName
    ensures r.Some? ==> r.value == f
  {
    if 1 <= |f.name| <= MaxGroupName && DisplayNameValid(f.displayName) then Some(f) else None
  }

  /**
   * `joinGroupSchema.safeParse(f)`: the length is checked on the code as
   * typed, then the code is upper-cased.
   */
  function JoinGroup(f: JoinGroupForm): (r: Option<JoinGroupForm>)
    ensures r.Some? <==> |f.code| == CodeLength && 1 <= |f.displayName| <= MaxDisplayName
    ensures r.Some? ==> r.value.displayName == f.displayName
    ensures r.Some? ==> forall i :: 0 <= i < |r.value.code| ==> !('a' <= r.value.code[i] <= 'z')
    ensures r.Some? ==> Upper(r.value.code) == r.value.code
  {
    if |f.code| == CodeLength && DisplayNameValid(f.displayName) then
      UpperTwice(f.code);
      Some(JoinGroupForm(Upper(f.code), f.displayName))
    else None
  }

  /** A code typed in lower case joins the same group as the code in capitals. */
  lemma JoinIgnoresCase(code: string, displayName: string)
    requires forall i :: 0 <= i < |code| ==> code[i] < '\U{80}'
    ensures JoinGroup(JoinGroupForm(Lower(code), displayName)) == JoinGroup(JoinGroupForm(code, displayName))
  {
    UpperIgnoresCase(code);
  }

  /** A code of six capitals and digits, as the server generates them, is accepted unchanged. */
  lemma {:induction false} GeneratedCodeKept(code: string, displayName: string)
    requires |code| == CodeLength && DisplayNameValid(displayName)
    requires forall i :: 0 <= i < |code| ==> 'A' <= code[i] <= 'Z' || '0' <= code[i] <= '9'
    ensures JoinGroup(JoinGroupForm(code, displayName)) == Some(JoinGroupForm(code, displayName))
  {
    UpperKeeps(code);
  }

  lemma {:induction false} UpperKeeps(s: string)
    requires forall i :: 0 <= i < |s| ==> 'A' <= s[i] <= 'Z' || '0' <= s[i] <= '9'
    ensures Upper(s) == s
  {
    if s != [] {
      UpperKeeps(s[1..]);
    }
  }

  /**
   * The length is checked before the case is changed: a six-character code
   * holding `ß` passes and comes back seven characters long.
   */
  lemma SharpSLengthens(rest: string, displayName: string)
    requires |rest| == 5 && DisplayNameValid(displayName)
    requires forall i :: 0 <= i < |rest| ==> rest[i] != '\U{DF}'
    ensures var r := JoinGroup(JoinGroupForm("\U{DF}" + rest, displayName));
      r.Some? && |r.value.code| == 7
  {
    var s := "\U{DF}" + rest;
    assert s[1..] == rest;
  }
}
