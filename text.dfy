/**
 * The string operations the dashboard relies on: `toLowerCase` (ASCII only),
 * `includes`, `split` on one character and `join`.
 */
module Text {

  /** ASCII lower-casing of one character; every other character is left alone. */
  function LowerChar(c: char): (r: char)
    ensures 'A' <= c <= 'Z' ==> r as int == c as int + 32
    ensures !('A' <= c <= 'Z') ==> r == c
    ensures !('A' <= r <= 'Z')
  {
    if 'A' <= c <= 'Z' then (c as int + 32) as char else c
  }

  /** `s.toLowerCase()`, restricted to ASCII letters. */
  function Lower(s: string): (r: string)
    ensures |r| == |s|
    ensures forall i :: 0 <= i < |s| ==> r[i] == LowerChar(s[i])
  {
    if s == [] then [] else [LowerChar(s[0])] + Lower(s[1..])
  }

  /** Lower-casing a lower-cased string changes nothing. */
  lemma LowerIdempotent(s: string)
    ensures Lower(Lower(s)) == Lower(s)
  {
  }

  /** Lower-casing works character by character, so it distributes over concatenation. */
  lemma LowerAppend(a: string, b: string)
    ensures Lower(a + b) == Lower(a) + Lower(b)
  {
  }

  /** `s.includes(t)`: `t` occurs in `s` at some position. */
  function Includes(s: string, t: string): (r: bool)
    ensures r <==> exists i :: 0 <= i <= |s| - |t| && t <= s[i..]
  {
    if t <= s then
      assert t <= s[0..];
      true
    else if s == [] then false
    else
      var r := Includes(s[1..], t);
      assert forall i :: 1 <= i <= |s| ==> s[1..][i - 1..] == s[i..];
      r
  }

  /** The empty string occurs in every string: an empty search term matches everything. */
  lemma IncludesEmpty(s: string)
    ensures Includes(s, "")
  {
    assert "" <= s[0..];
  }

  /** `a + t` contains `t`. */
  lemma IncludesSuffix(a: string, t: string)
    ensures Includes(a + t, t)
  {
    assert t <= (a + t)[|a|..];
  }

  /** `a + t + b` contains `t`. */
  lemma IncludesMiddle(a: string, t: string, b: string)
    ensures Includes(a + t + b, t)
  {
    assert t <= (a + t + b)[|a|..];
  }

  /** A string that contains `t + u` contains `t`: lengthening a search term only narrows it. */
  lemma IncludesPrefixOfTerm(s: string, t: string, u: string)
    requires Includes(s, t + u)
    ensures Includes(s, t)
  {
    var i :| 0 <= i <= |s| - |t + u| && t + u <= s[i..];
    assert t <= s[i..];
  }

  /** `parts.join(sep)`. */
  function Join(parts: seq<string>, sep: string): (r: string)
    ensures parts == [] ==> r == ""
    ensures |parts| == 1 ==> r == parts[0]
  {
    if parts == [] then ""
    else if |parts| == 1 then parts[0]
    else parts[0] + sep + Join(parts[1..], sep)
  }

  /** `s.split(c)` for a one-character separator: the pieces between occurrences of `c`. */
  function Split(s: string, c: char): (r: seq<string>)
    ensures |r| >= 1
    ensures forall k :: 0 <= k < |r| ==> c !in r[k]
  {
    if s == [] then [""]
    else
      var rest := Split(s[1..], c);
      if s[0] == c then [""] + rest
      else [[s[0]] + rest[0]] + rest[1..]
  }

  /** Joining the pieces of a split with the separator gives back the original string. */
  lemma {:induction false} JoinSplit(s: string, c: char)
    ensures Join(Split(s, c), [c]) == s
  {
    if s != [] {
      JoinSplit(s[1..], c);
      var rest := Split(s[1..], c);
      if s[0] == c {
        assert Split(s, c) == [""] + rest;
        assert ([""] + rest)[1..] == rest;
      } else {
        var r := [[s[0]] + rest[0]] + rest[1..];
        assert Split(s, c) == r;
        if |rest| == 1 {
          assert Join(r, [c]) == [s[0]] + rest[0];
        } else {
          assert r[1..] == rest[1..];
          assert Join(rest, [c]) == rest[0] + [c] + Join(rest[1..], [c]);
          assert Join(r, [c]) == [s[0]] + rest[0] + [c] + Join(rest[1..], [c]);
        }
      }
      assert s == [s[0]] + s[1..];
    }
  }

  /** Splitting a joined list of separator-free pieces gives back the pieces. */
  lemma {:induction false} SplitJoin(parts: seq<string>, c: char)
    requires |parts| >= 1
    requires forall k :: 0 <= k < |parts| ==> c !in parts[k]
    ensures Split(Join(parts, [c]), c) == parts
  {
    if |parts| == 1 {
      SplitFree(parts[0], c);
    } else {
      SplitJoin(parts[1..], c);
      SplitAppend(parts[0], Join(parts[1..], [c]), c);
      assert parts == [parts[0]] + parts[1..];
    }
  }

  /** A string without the separator splits into itself alone. */
  lemma {:induction false} SplitFree(s: string, c: char)
    requires c !in s
    ensures Split(s, c) == [s]
  {
    if s != [] {
      SplitFree(s[1..], c);
      assert s == [s[0]] + s[1..];
    }
  }

  /** Splitting `a + c + b`, where `a` is separator-free, puts `a` in front of the pieces of `b`. */
  lemma {:induction false} SplitAppend(a: string, b: string, c: char)
    requires c !in a
    ensures Split(a + [c] + b, c) == [a] + Split(b, c)
  {
    if a == [] {
      assert [c] + b == a + [c] + b;
      assert ([c] + b)[1..] == b;
    } else {
      SplitAppend(a[1..], b, c);
      assert (a + [c] + b)[1..] == a[1..] + [c] + b;
      assert a == [a[0]] + a[1..];
    }
  }

  /** Splitting at one occurrence of the separator splits the two sides apart: the pieces of
   * `a + c + b` are the pieces of `a` followed by the pieces of `b`. */
  lemma {:induction false} SplitConcat(a: string, b: string, c: char)
    ensures Split(a + [c] + b, c) == Split(a, c) + Split(b, c)
  {
    if a == [] {
      assert a + [c] + b == [c] + b;
      SplitHead(c, b, c);
      assert Split(a, c) == [""];
    } else {
      var x, a' := a[0], a[1..];
      assert a == [x] + a';
      var t := a' + [c] + b;
      assert a + [c] + b == [x] + t;
      var left, right := Split(a', c), Split(b, c);
      calc {
        Split(a + [c] + b, c);
        Split([x] + t, c);
        { SplitHead(x, t, c); SplitConcat(a', b, c); }
        if x == c then [""] + (left + right) else [[x] + (left + right)[0]] + (left + right)[1..];
        { FirstPieceAppend([x], left, right); }
        if x == c then ([""] + left) + right else ([[x] + left[0]] + left[1..]) + right;
        { SplitHead(x, a', c); }
        Split(a, c) + right;
      }
    }
  }

  /** One step of the split: a separator closes the current piece, any other character starts it. */
  lemma SplitHead(x: char, t: string, c: char)
    ensures Split([x] + t, c) ==
      if x == c then [""] + Split(t, c) else [[x] + Split(t, c)[0]] + Split(t, c)[1..]
  {
    assert ([x] + t)[0] == x && ([x] + t)[1..] == t;
  }

  /** Extending the first piece of `left + right` extends the first piece of `left`. */
  lemma FirstPieceAppend(h: string, left: seq<string>, right: seq<string>)
    requires |left| >= 1
    ensures [""] + (left + right) == ([""] + left) + right
    ensures [h + (left + right)[0]] + (left + right)[1..] == ([h + left[0]] + left[1..]) + right
  {
    assert (left + right)[1..] == left[1..] + right;
  }
}
