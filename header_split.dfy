/**
 * JavaScript's `String.prototype.split(" ")`, the first step of the bearer
 * gate: the string is cut at every single space, so consecutive spaces
 * give empty pieces and the result always has at least one piece
 * (`"".split(" ")` is `[""]`).
 */
module HeaderSplit {

  /** The pieces of `s` between single spaces, in order. */
  function Split(s: string): (r: seq<string>)
    ensures |r| >= 1
    ensures forall i :: 0 <= i < |r| ==> ' ' !in r[i]
  {
    if s == [] then [""]
    else
      var rest := Split(s[1..]);
      if s[0] == ' ' then [""] + rest
      else [[s[0]] + rest[0]] + rest[1..]
  }

  /** The inverse of Split: the pieces glued back with one space between neighbours. */
  function Join(pieces: seq<string>): (s: string)
    requires |pieces| >= 1
  {
    if |pieces| == 1 then pieces[0] else pieces[0] + " " + Join(pieces[1..])
  }

  /** Gluing the pieces back gives the original string. */
  lemma {:induction false} JoinSplit(s: string)
    ensures Join(Split(s)) == s
  {
    if s != [] {
      var rest := Split(s[1..]);
      JoinSplit(s[1..]);
      if s[0] == ' ' {
        assert Split(s) == [""] + rest;
        assert Join(Split(s)) == "" + " " + Join(rest);
      } else {
        assert Split(s) == [[s[0]] + rest[0]] + rest[1..];
        if |rest| == 1 {
          assert Join(Split(s)) == [s[0]] + rest[0];
        } else {
          assert Join(rest) == rest[0] + " " + Join(rest[1..]);
          assert Join(Split(s)) == ([s[0]] + rest[0]) + " " + Join(rest[1..]);
        }
      }
    }
  }

  /** A string without spaces is a single piece. */
  lemma {:induction false} SplitNoSpace(a: string)
    requires ' ' !in a
    ensures Split(a) == [a]
  {
    if a != [] {
      SplitNoSpace(a[1..]);
      assert [a[0]] + a[1..] == a;
    }
  }

  /** Splitting at a space splits the two sides independently. */
  lemma {:induction false} SplitAppend(a: string, b: string)
    ensures Split(a + " " + b) == Split(a) + Split(b)
  {
    var s := a + " " + b;
    if a == [] {
      assert s[1..] == b;
      assert Split(s) == [""] + Split(b);
    } else {
      assert s[0] == a[0];
      assert s[1..] == a[1..] + " " + b;
      SplitAppend(a[1..], b);
      var left, right := Split(a[1..]), Split(b);
      var tail := Split(s[1..]);
      assert tail == left + right;
      if a[0] == ' ' {
        assert Split(s) == [""] + tail;
        assert Split(a) == [""] + left;
      } else {
        assert tail[0] == left[0];
        assert tail[1..] == left[1..] + right;
        assert Split(s) == [[a[0]] + left[0]] + tail[1..];
        assert Split(a) == [[a[0]] + left[0]] + left[1..];
      }
    }
  }

  /** Splitting the joined pieces gives back the pieces, when none of them holds a space. */
  lemma {:induction false} SplitJoin(pieces: seq<string>)
    requires |pieces| >= 1
    requires forall i :: 0 <= i < |pieces| ==> ' ' !in pieces[i]
    ensures Split(Join(pieces)) == pieces
  {
    SplitNoSpace(pieces[0]);
    if |pieces| > 1 {
      SplitJoin(pieces[1..]);
      SplitAppend(pieces[0], Join(pieces[1..]));
      assert [pieces[0]] + pieces[1..] == pieces;
    }
  }

  /**
   * The first piece is the longest space-free prefix: it is a prefix of `s`
   * and is followed by the end of `s` or by a space.
   */
  lemma {:induction false} SplitHead(s: string)
    ensures |Split(s)[0]| <= |s|
    ensures s[..|Split(s)[0]|] == Split(s)[0]
    ensures |Split(s)[0]| == |s| || s[|Split(s)[0]|] == ' '
  {
    if s != [] && s[0] != ' ' {
      SplitHead(s[1..]);
      var w := Split(s[1..])[0];
      assert Split(s)[0] == [s[0]] + w;
      assert s[..1 + |w|] == [s[0]] + s[1..][..|w|];
    }
  }
}
