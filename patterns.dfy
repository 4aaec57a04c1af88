/** The fragment of JavaScript regular expressions the booking validators use, always matched
    against the whole input as the anchors `^…$` demand, and without the `m` flag, so `$` only
    matches at the end of the input. */
module Patterns {

  /** A character class is a list of inclusive character ranges. */
  datatype Pattern =
    | Class(ranges: seq<(char, char)>)     // [..]
    | Optional(inner: Pattern)             // p?
    | Concat(first: Pattern, second: Pattern)
    | Repeat(inner: Pattern, lo: nat, hi: nat)  // p{lo,hi}
    | OneOrMore(inner: Pattern)            // p+

  predicate InClass(c: char, ranges: seq<(char, char)>) {
    exists i :: 0 <= i < |ranges| && ranges[i].0 <= c <= ranges[i].1
  }

  /** `p` matches the whole of `s`: the set of strings the pattern denotes, with no
      commitment to a search strategy. */
  predicate Matches(p: Pattern, s: string)
    decreases |s|, p
  {
    match p
    case Class(rs) => |s| == 1 && InClass(s[0], rs)
    case Optional(q) => |s| == 0 || Matches(q, s)
    case Concat(a, b) => exists k :: 0 <= k <= |s| && Matches(a, s[..k]) && Matches(b, s[k..])
    case Repeat(q, lo, hi) =>
      (lo == 0 && |s| == 0)
      || (0 < hi && exists k :: 1 <= k <= |s| && Matches(q, s[..k])
                                && Matches(Repeat(q, if lo == 0 then 0 else lo - 1, hi - 1), s[k..]))
    case OneOrMore(q) =>
      Matches(q, s) || exists k :: 1 <= k < |s| && Matches(q, s[..k]) && Matches(OneOrMore(q), s[k..])
  }

  /** A class in front of a pattern consumes exactly the first character. */
  lemma ConcatClassFirst(rs: seq<(char, char)>, b: Pattern, s: string)
    ensures Matches(Concat(Class(rs), b), s) <==> |s| >= 1 && InClass(s[0], rs) && Matches(b, s[1..])
  {
    if |s| >= 1 && InClass(s[0], rs) && Matches(b, s[1..]) {
      assert s[..1] == [s[0]];
      assert Matches(Class(rs), s[..1]);
    }
  }

  /** An optional first part is either skipped or taken. */
  lemma ConcatOptionalFirst(a: Pattern, b: Pattern, s: string)
    ensures Matches(Concat(Optional(a), b), s) <==> Matches(b, s) || Matches(Concat(a, b), s)
  {
    if Matches(b, s) {
      assert s[..0] == [] && s[0..] == s;
      assert Matches(Optional(a), s[..0]);
    }
    if k :| 0 <= k <= |s| && Matches(Optional(a), s[..k]) && Matches(b, s[k..]) {
      if k == 0 {
        assert s[k..] == s;
      } else {
        assert Matches(a, s[..k]);
      }
    }
  }

  /** A bounded repetition of a class matches exactly the strings of `lo` to `hi` characters
      all in the class. */
  lemma {:induction false} RepeatClass(rs: seq<(char, char)>, lo: nat, hi: nat, s: string)
    requires lo <= hi
    ensures Matches(Repeat(Class(rs), lo, hi), s)
            <==> lo <= |s| <= hi && forall i :: 0 <= i < |s| ==> InClass(s[i], rs)
    decreases |s|
  {
    var lo' := if lo == 0 then 0 else lo - 1;
    if |s| > 0 && hi > 0 {
      RepeatClass(rs, lo', hi - 1, s[1..]);
      assert s[..1] == [s[0]];
      assert Matches(Class(rs), s[..1]) <==> InClass(s[0], rs);
      if Matches(Repeat(Class(rs), lo, hi), s) {
        var k :| 1 <= k <= |s| && Matches(Class(rs), s[..k]) && Matches(Repeat(Class(rs), lo', hi - 1), s[k..]);
        assert k == 1;
        forall i | 0 <= i < |s|
          ensures InClass(s[i], rs)
        {
          if i > 0 {
            assert s[1..][i - 1] == s[i];
          }
        }
      }
      if lo <= |s| <= hi && forall i :: 0 <= i < |s| ==> InClass(s[i], rs) {
        assert forall i :: 0 <= i < |s[1..]| ==> s[1..][i] == s[i + 1];
        assert Matches(Repeat(Class(rs), lo', hi - 1), s[1..]);
      }
    }
  }

  /** `[..]+` matches exactly the non-empty strings whose every character is in the class. */
  lemma {:induction false} OneOrMoreClass(rs: seq<(char, char)>, s: string)
    ensures Matches(OneOrMore(Class(rs)), s) <==> |s| >= 1 && forall i :: 0 <= i < |s| ==> InClass(s[i], rs)
    decreases |s|
  {
    if |s| > 1 {
      OneOrMoreClass(rs, s[1..]);
      assert s[..1] == [s[0]];
      if Matches(OneOrMore(Class(rs)), s) {
        assert !Matches(Class(rs), s);
        var k :| 1 <= k < |s| && Matches(Class(rs), s[..k]) && Matches(OneOrMore(Class(rs)), s[k..]);
        assert k == 1;
        forall i | 0 <= i < |s|
          ensures InClass(s[i], rs)
        {
          if i > 0 {
            assert s[1..][i - 1] == s[i];
          }
        }
      }
      if forall i :: 0 <= i < |s| ==> InClass(s[i], rs) {
        assert forall i :: 0 <= i < |s[1..]| ==> s[1..][i] == s[i + 1];
        assert Matches(Class(rs), s[..1]);
        assert Matches(OneOrMore(Class(rs)), s[1..]);
      }
    }
  }

  /** A class of one range holds exactly the characters of that range. */
  lemma InSingleRange(c: char, lo: char, hi: char)
    ensures InClass(c, [(lo, hi)]) <==> lo <= c <= hi
  {
    if lo <= c <= hi {
      assert [(lo, hi)][0] == (lo, hi);
    }
  }
}
