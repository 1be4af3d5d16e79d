/** Splitting sequences at a separator. */
module Text {

  /** The pieces between separators; one piece more than there are separators. */
  function SplitOn<T(==)>(s: seq<T>, sep: T): (pieces: seq<seq<T>>)
    ensures |pieces| > 0
  {
    if s == [] then [[]]
    else
      var rest := SplitOn(s[1..], sep);
      if s[0] == sep then [[]] + rest else [[s[0]] + rest[0]] + rest[1..]
  }

  function Join<T>(pieces: seq<seq<T>>, sep: T): seq<T> {
    if pieces == [] then []
    else if |pieces| == 1 then pieces[0]
    else pieces[0] + [sep] + Join(pieces[1..], sep)
  }

  /** Splitting loses nothing, and no piece holds a separator. */
  lemma {:induction false} JoinSplit<T>(s: seq<T>, sep: T)
    ensures Join(SplitOn(s, sep), sep) == s
    ensures forall p :: p in SplitOn(s, sep) ==> sep !in p
  {
    if s != [] {
      JoinSplit(s[1..], sep);
      var rest := SplitOn(s[1..], sep);
      var pieces := SplitOn(s, sep);
      if s[0] == sep {
        assert pieces[1..] == rest;
      } else {
        assert pieces[1..] == rest[1..];
        assert s == [s[0]] + s[1..];
      }
    }
  }

  /** Only one list of separator-free pieces joins to a given sequence. */
  lemma {:induction false} SplitJoin<T>(pieces: seq<seq<T>>, sep: T)
    requires pieces != [] && forall p :: p in pieces ==> sep !in p
    ensures SplitOn(Join(pieces, sep), sep) == pieces
  {
    if |pieces| == 1 {
      SplitWithout(pieces[0], sep);
    } else {
      SplitJoin(pieces[1..], sep);
      SplitAtFirst(pieces[0], Join(pieces[1..], sep), sep);
    }
  }

  /** The part before the first separator, and the part after it. */
  lemma {:induction false} SplitAtFirst<T>(before: seq<T>, after: seq<T>, sep: T)
    requires sep !in before
    ensures SplitOn(before + [sep] + after, sep) == [before] + SplitOn(after, sep)
  {
    var s := before + [sep] + after;
    if before == [] {
      assert s[1..] == after;
    } else {
      assert s[1..] == before[1..] + [sep] + after;
      SplitAtFirst(before[1..], after, sep);
      assert before == [before[0]] + before[1..];
    }
  }

  /** Appending data only continues the last piece. */
  lemma {:induction false} SplitAppend<T>(a: seq<T>, b: seq<T>, sep: T)
    ensures SplitOn(a + b, sep) == Continued(SplitOn(a, sep), b, sep)
  {
    if a == [] {
      assert a + b == b;
    } else {
      SplitAppend(a[1..], b, sep);
      assert (a + b)[1..] == a[1..] + b;
      SplitCons(a, sep);
      SplitCons(a + b, sep);
      if a[0] == sep {
        ContinuedAfter(SplitOn(a[1..], sep), b, sep);
      } else {
        ContinuedGrow(SplitOn(a[1..], sep), b, sep, a[0]);
      }
    }
  }

  /** Splitting goes on in the last of the pieces so far. */
  function Continued<T(==)>(pieces: seq<seq<T>>, b: seq<T>, sep: T): (r: seq<seq<T>>)
    requires pieces != []
    ensures r != []
  {
    pieces[..|pieces| - 1] + SplitOn(pieces[|pieces| - 1] + b, sep)
  }

  lemma ContinuedAfter<T>(rest: seq<seq<T>>, b: seq<T>, sep: T)
    requires rest != []
    ensures Continued([[]] + rest, b, sep) == [[]] + Continued(rest, b, sep)
  {
  }

  lemma ContinuedGrow<T>(rest: seq<seq<T>>, b: seq<T>, sep: T, x: T)
    requires rest != [] && x != sep
    ensures Continued([[x] + rest[0]] + rest[1..], b, sep) ==
              [[x] + Continued(rest, b, sep)[0]] + Continued(rest, b, sep)[1..]
  {
    if |rest| == 1 {
      SplitGrow(x, rest[0] + b, sep);
      assert [x] + (rest[0] + b) == ([x] + rest[0]) + b;
    }
  }

  lemma SplitCons<T>(s: seq<T>, sep: T)
    requires s != []
    ensures var rest := SplitOn(s[1..], sep);
            SplitOn(s, sep) == if s[0] == sep then [[]] + rest else [[s[0]] + rest[0]] + rest[1..]
  {
  }

  lemma SplitGrow<T>(x: T, s: seq<T>, sep: T)
    requires x != sep
    ensures SplitOn([x] + s, sep) == [[x] + SplitOn(s, sep)[0]] + SplitOn(s, sep)[1..]
  {
    assert ([x] + s)[1..] == s;
  }

  lemma {:induction false} SplitWithout<T>(s: seq<T>, sep: T)
    requires sep !in s
    ensures SplitOn(s, sep) == [s]
  {
    if s != [] {
      SplitWithout(s[1..], sep);
      assert s == [s[0]] + s[1..];
    }
  }

  /** The least index of c, or the length. */
  function IndexOf<T(==)>(s: seq<T>, c: T): (i: nat)
    ensures i <= |s| && c !in s[..i] && (i < |s| ==> s[i] == c)
    ensures i == |s| <==> c !in s
  {
    if s == [] then 0
    else if s[0] == c then 0
    else
      var i := 1 + IndexOf(s[1..], c);
      assert s[..i] == [s[0]] + s[1..][..i - 1];
      i
  }

  lemma IndexOfFirst<T>(before: seq<T>, after: seq<T>, c: T)
    requires c !in before
    ensures IndexOf(before + [c] + after, c) == |before|
  {
    var s := before + [c] + after;
    var i := IndexOf(s, c);
    assert s[|before|] == c;
    assert forall k :: 0 <= k < |before| ==> s[k] == before[k] != c;
    assert forall k :: 0 <= k < i ==> s[k] in s[..i];
  }
}
