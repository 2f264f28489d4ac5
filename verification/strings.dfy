/**
 * The java.lang.String operations the chat code relies on, over `string` (a sequence of chars):
 * `trim`, `equalsIgnoreCase`, `contains`, `split` on a one-character pattern and `lastIndexOf`.
 */
module Strings {

  // ---------------------------------------------------------------- trim

  /** `String.trim()` treats every char whose code is at most U+0020 as white space. */
  predicate IsBlank(c: char) {
    c <= ' '
  }

  predicate AllBlank(s: string) {
    forall i :: 0 <= i < |s| ==> IsBlank(s[i])
  }

  /** `r` is `s` with a blank prefix and a blank suffix taken away. */
  ghost predicate Surrounds(s: string, r: string) {
    exists k :: 0 <= k <= |s| - |r| && s[k..k + |r|] == r && AllBlank(s[..k]) && AllBlank(s[k + |r|..])
  }

  /** Neither end of `r` is blank. */
  predicate Tight(r: string) {
    r == [] || (!IsBlank(r[0]) && !IsBlank(r[|r| - 1]))
  }

  /** Number of blank chars at the start of `s`. */
  function LeadingBlanks(s: string): (n: nat)
    ensures n <= |s|
    ensures AllBlank(s[..n])
    ensures n < |s| ==> !IsBlank(s[n])
  {
    if s == [] || !IsBlank(s[0]) then 0 else 1 + LeadingBlanks(s[1..])
  }

  /** Number of blank chars at the end of `s`. */
  function TrailingBlanks(s: string): (n: nat)
    ensures n <= |s|
    ensures AllBlank(s[|s| - n..])
    ensures n < |s| ==> !IsBlank(s[|s| - 1 - n])
  {
    if s == [] || !IsBlank(s[|s| - 1]) then 0 else 1 + TrailingBlanks(s[..|s| - 1])
  }

  /** `String.trim()`: the text between the leading and the trailing white space. */
  function Trim(s: string): (r: string)
    ensures Surrounds(s, r) && Tight(r)
    ensures r == [] <==> AllBlank(s)
  {
    var st := LeadingBlanks(s);
    var t := TrailingBlanks(s[st..]);
    TrimParts(s, st, t);
    s[st..|s| - t]
  }

  /** What the two counts promise about `s` and the rest after its leading blanks is all the cut needs. */
  lemma TrimParts(s: string, st: nat, t: nat)
    requires st <= |s| && AllBlank(s[..st]) && (st < |s| ==> !IsBlank(s[st]))
    requires var rest := s[st..];
      t <= |rest| && AllBlank(rest[|rest| - t..]) && (t < |rest| ==> !IsBlank(rest[|rest| - 1 - t]))
    ensures st <= |s| - t
    ensures Surrounds(s, s[st..|s| - t]) && Tight(s[st..|s| - t])
    ensures s[st..|s| - t] == [] <==> AllBlank(s)
  {
    var rest := s[st..];
    assert s[|s| - t..] == rest[|rest| - t..];
    if st < |s| - t {
      assert s[|s| - t - 1] == rest[|rest| - 1 - t];
    }
    if st < |s| && t > 0 {
      // the first trailing blank is not the non-blank char at `st`
      assert rest[|rest| - t..][0] == rest[|rest| - t] && rest[0] == s[st];
    }
    TrimShape(s, st, |s| - t);
  }

  /** A cut whose outer parts are blank and whose inner part starts and ends non-blank. */
  lemma TrimShape(s: string, st: nat, e: nat)
    requires st <= e <= |s|
    requires AllBlank(s[..st]) && AllBlank(s[e..])
    requires st < e ==> !IsBlank(s[st]) && !IsBlank(s[e - 1])
    requires st == e ==> e == |s|
    ensures Surrounds(s, s[st..e]) && Tight(s[st..e])
    ensures s[st..e] == [] <==> AllBlank(s)
  {
    var r := s[st..e];
    assert s[st..st + |r|] == r;
    if st == e {
      assert s[..st] == s;
    } else {
      assert r[0] == s[st];
      assert r[|r| - 1] == s[e - 1];
    }
  }

  lemma {:induction false} LeadingBlanksAfterBlank(a: string, t: string)
    requires AllBlank(a)
    ensures LeadingBlanks(a + t) == |a| + LeadingBlanks(t)
  {
    if a == [] {
      assert a + t == t;
    } else {
      assert (a + t)[0] == a[0] && IsBlank(a[0]);
      assert (a + t)[1..] == a[1..] + t;
      LeadingBlanksAfterBlank(a[1..], t);
    }
  }

  lemma {:induction false} TrailingBlanksBeforeBlank(t: string, b: string)
    requires AllBlank(b)
    ensures TrailingBlanks(t + b) == TrailingBlanks(t) + |b|
  {
    if b == [] {
      assert t + b == t;
    } else {
      assert (t + b)[|t + b| - 1] == b[|b| - 1] && IsBlank(b[|b| - 1]);
      assert (t + b)[..|t + b| - 1] == t + b[..|b| - 1];
      TrailingBlanksBeforeBlank(t, b[..|b| - 1]);
    }
  }

  /**
   * Trim has exactly one possible result: any text with non-blank ends that `s` surrounds with
   * white space is `Trim(s)`.
   */
  lemma TrimUnique(a: string, r: string, b: string)
    requires AllBlank(a) && AllBlank(b) && Tight(r)
    ensures Trim(a + r + b) == r
  {
    var s := a + r + b;
    if r == [] {
      assert AllBlank(s) by {
        forall i | 0 <= i < |s| ensures IsBlank(s[i]) {
          if i < |a| { assert s[i] == a[i]; } else { assert s[i] == b[i - |a|]; }
        }
      }
    } else {
      assert s == a + (r + b);
      LeadingBlanksAfterBlank(a, r + b);
      assert LeadingBlanks(r + b) == 0;
      var rest := s[|a|..];
      assert rest == r + b;
      TrailingBlanksBeforeBlank(r, b);
      assert TrailingBlanks(r) == 0;
      assert rest[..|rest| - |b|] == r;
    }
  }

  // ---------------------------------------------------------------- equalsIgnoreCase

  /**
   * `Character.toUpperCase` on the chars whose upper case is an ASCII letter: the ASCII
   * letters, U+0131 (dotless i) and U+017F (long s). Other chars are left as they are.
   */
  function ToUpper(c: char): char {
    if 'a' <= c <= 'z' then (c as int - 32) as char
    else if c == '\U{131}' then 'I'
    else if c == '\U{17F}' then 'S'
    else c
  }

  /**
   * `Character.toLowerCase` on the chars whose lower case is an ASCII letter: the ASCII
   * letters, U+0130 (dotted capital I) and U+212A (Kelvin sign). Other chars are left as they are.
   */
  function ToLower(c: char): char {
    if 'A' <= c <= 'Z' then (c as int + 32) as char
    else if c == '\U{130}' then 'i'
    else if c == '\U{212A}' then 'k'
    else c
  }

  /** The per-char test of `String.equalsIgnoreCase`. */
  predicate CharEqualsIgnoreCase(a: char, b: char) {
    a == b || ToUpper(a) == ToUpper(b) || ToLower(ToUpper(a)) == ToLower(ToUpper(b))
  }

  /** `String.equalsIgnoreCase`: the chars are compared pairwise, and the lengths must agree. */
  predicate EqualsIgnoreCase(s: string, t: string) {
    if s == [] || t == [] then s == t
    else CharEqualsIgnoreCase(s[0], t[0]) && EqualsIgnoreCase(s[1..], t[1..])
  }

  /** Two texts are equal ignoring case exactly when they have the same length and every pair of chars is. */
  lemma {:induction false} EqualsIgnoreCasePairwise(s: string, t: string)
    ensures EqualsIgnoreCase(s, t) <==>
      |s| == |t| && forall i :: 0 <= i < |s| ==> CharEqualsIgnoreCase(s[i], t[i])
  {
    if s != [] && t != [] {
      EqualsIgnoreCasePairwise(s[1..], t[1..]);
      if |s| == |t| && forall i :: 0 <= i < |s| ==> CharEqualsIgnoreCase(s[i], t[i]) {
        forall i | 0 <= i < |s| - 1 ensures CharEqualsIgnoreCase(s[1..][i], t[1..][i]) {
          assert s[1..][i] == s[i + 1] && t[1..][i] == t[i + 1];
        }
      }
    }
  }

  // ---------------------------------------------------------------- contains, lastIndexOf

  /** `String.contains`: `t` occurs in `s` at some index. */
  predicate Contains(s: string, t: string) {
    exists k :: 0 <= k <= |s| - |t| && OccursAt(s, t, k)
  }

  predicate OccursAt(s: string, t: string, k: int)
    requires 0 <= k <= |s| - |t|
  {
    s[k..k + |t|] == t
  }

  /** `String.lastIndexOf(c)`: the last index holding `c`, or -1 when there is none. */
  function LastIndexOf(s: string, c: char): (r: int)
    ensures -1 <= r < |s|
    ensures r >= 0 ==> s[r] == c
    ensures forall j :: r < j < |s| ==> s[j] != c
  {
    if s == [] then -1
    else if s[|s| - 1] == c then |s| - 1
    else LastIndexOf(s[..|s| - 1], c)
  }

  lemma LastIndexOfAfter(a: string, c: char, b: string)
    requires c !in b
    ensures LastIndexOf(a + [c] + b, c) == |a|
  {
    var s := a + [c] + b;
    var r := LastIndexOf(s, c);
    assert s[|a|] == c;
    assert |a| <= r;
  }

  // ---------------------------------------------------------------- split

  /** The pieces joined back with `d` between them. */
  function Join(ps: seq<string>, d: char): string
    requires |ps| >= 1
  {
    if |ps| == 1 then ps[0] else ps[0] + [d] + Join(ps[1..], d)
  }

  /**
   * Every piece of `s` between occurrences of `d`, empty ones included: one more than the
   * number of occurrences. Joining them back with `d` gives `s`.
   */
  function Pieces(s: string, d: char): (r: seq<string>)
    ensures |r| >= 1
    ensures forall i :: 0 <= i < |r| ==> d !in r[i]
    ensures Join(r, d) == s
  {
    if s == [] then [""]
    else
      var rest := Pieces(s[1..], d);
      if s[0] == d then
        assert Join([""] + rest, d) == [d] + Join(rest, d) by {
          assert ([""] + rest)[1..] == rest;
        }
        [""] + rest
      else
        var r := [[s[0]] + rest[0]] + rest[1..];
        assert Join(r, d) == [s[0]] + Join(rest, d) by {
          if |rest| > 1 {
            assert r[1..] == rest[1..];
          }
        }
        r
  }

  /** Splitting what was joined gives back the pieces, when no piece holds the separator. */
  lemma {:induction false} PiecesOfJoin(ps: seq<string>, d: char)
    requires |ps| >= 1
    requires forall i :: 0 <= i < |ps| ==> d !in ps[i]
    ensures Pieces(Join(ps, d), d) == ps
  {
    if |ps| == 1 {
      PiecesWithout(ps[0], d);
    } else {
      PiecesOfJoin(ps[1..], d);
      PiecesAfter(ps[0], d, Join(ps[1..], d));
      assert ps == [ps[0]] + ps[1..];
    }
  }

  /** A text without the separator is a single piece. */
  lemma {:induction false} PiecesWithout(s: string, d: char)
    requires d !in s
    ensures Pieces(s, d) == [s]
  {
    if s != [] {
      PiecesWithout(s[1..], d);
    }
  }

  /** The first occurrence of the separator ends the first piece. */
  lemma {:induction false} PiecesAfter(x: string, d: char, y: string)
    requires d !in x
    ensures Pieces(x + [d] + y, d) == [x] + Pieces(y, d)
  {
    if x == [] {
      assert [d] + y == x + [d] + y;
      assert ([d] + y)[1..] == y;
    } else {
      assert (x + [d] + y)[1..] == x[1..] + [d] + y;
      PiecesAfter(x[1..], d, y);
      assert [x[0]] + x[1..] == x;
    }
  }

  /** The pieces without the empty ones at the end. */
  function DropTrailingEmpty(ps: seq<string>): (r: seq<string>)
    ensures |r| <= |ps| && r == ps[..|r|]
    ensures forall i :: |r| <= i < |ps| ==> ps[i] == ""
    ensures r == [] || r[|r| - 1] != ""
  {
    if ps == [] || ps[|ps| - 1] != "" then ps
    else DropTrailingEmpty(ps[..|ps| - 1])
  }

  /**
   * `s.split(d)` for a one-character pattern that is not a regular-expression metacharacter:
   * the text itself when `d` does not occur; otherwise the pieces, with trailing empty pieces
   * removed (a limit of zero).
   */
  function Split(s: string, d: char): seq<string> {
    if d !in s then [s] else DropTrailingEmpty(Pieces(s, d))
  }

  /**
   * A text `p'n'rest`, with no separator in `p` or `n` and some char other than the separator
   * in `rest` (at `i`), splits into at least two parts, and the second is `n`.
   */
  lemma SplitSecond(p: string, n: string, d: char, rest: string, i: nat)
    requires d !in p && d !in n
    requires i < |rest| && rest[i] != d
    ensures var parts := Split(p + [d] + n + [d] + rest, d); |parts| >= 2 && parts[1] == n
  {
    var s := p + [d] + n + [d] + rest;
    assert s[|p|] == d;
    assert s == p + [d] + (n + [d] + rest);
    PiecesAfter(p, d, n + [d] + rest);
    PiecesAfter(n, d, rest);
    var tail := Pieces(rest, d);
    var j := PiecesSomeFilled(rest, d, i);
    var ps := Pieces(s, d);
    assert ps == [p] + ([n] + tail);
    assert ps[1] == n && ps[2 + j] == tail[j];
    DropTrailingKeeps(ps, 2 + j);
  }

  /** A text `p'rest` with a single separator, and something after it, splits into exactly `p` and `rest`. */
  lemma SplitOne(p: string, d: char, rest: string)
    requires d !in p && d !in rest && rest != []
    ensures Split(p + [d] + rest, d) == [p, rest]
  {
    var s := p + [d] + rest;
    assert s[|p|] == d;
    PiecesAfter(p, d, rest);
    PiecesWithout(rest, d);
    assert Pieces(s, d) == [p, rest];
  }

  /** Text that does not start with the separator has a non-empty first piece. */
  lemma PiecesHeadFilled(s: string, d: char)
    requires s != [] && s[0] != d
    ensures Pieces(s, d)[0] != ""
  {
    assert Pieces(s, d)[0] == [s[0]] + Pieces(s[1..], d)[0];
  }

  /** Text holding a char other than the separator has a non-empty piece. */
  lemma {:induction false} PiecesSomeFilled(s: string, d: char, i: nat) returns (j: nat)
    requires i < |s| && s[i] != d
    ensures j < |Pieces(s, d)| && Pieces(s, d)[j] != ""
  {
    if s[0] != d {
      PiecesHeadFilled(s, d);
      j := 0;
    } else {
      assert Pieces(s, d) == [""] + Pieces(s[1..], d);
      var k := PiecesSomeFilled(s[1..], d, i - 1);
      j := k + 1;
    }
  }

  /** Dropping trailing empty pieces keeps every piece up to a non-empty one. */
  lemma DropTrailingKeeps(ps: seq<string>, k: nat)
    requires k < |ps| && ps[k] != ""
    ensures |DropTrailingEmpty(ps)| > k && DropTrailingEmpty(ps)[..k + 1] == ps[..k + 1]
  {
    var r := DropTrailingEmpty(ps);
    assert r == ps[..|r|];
  }

}
