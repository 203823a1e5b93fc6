/** Facts about sequences that several components share: concatenation of a
    list of pieces, splitting on a separator as `bytes.split(sep)` does, and
    occurrences of one text inside another. */
module Sequences {

  datatype Option<+T> = None | Some(value: T)

  function Last<T>(xs: seq<T>): T
    requires xs != []
  {
    xs[|xs| - 1]
  }

  function DropLast<T>(xs: seq<T>): seq<T>
    requires xs != []
  {
    xs[..|xs| - 1]
  }

  function Flatten<T>(xss: seq<seq<T>>): seq<T> {
    if xss == [] then [] else xss[0] + Flatten(xss[1..])
  }

  lemma {:induction false} FlattenSnoc<T>(xss: seq<seq<T>>, xs: seq<T>)
    ensures Flatten(xss + [xs]) == Flatten(xss) + xs
  {
    if xss == [] {
      assert Flatten([xs]) == xs + Flatten<T>([]);
    } else {
      assert (xss + [xs])[1..] == xss[1..] + [xs];
      FlattenSnoc(xss[1..], xs);
    }
  }

  function Map<A, B>(f: A -> B, xs: seq<A>): (ys: seq<B>)
    ensures |ys| == |xs|
    ensures forall i :: 0 <= i < |xs| ==> ys[i] == f(xs[i])
  {
    seq(|xs|, i requires 0 <= i < |xs| => f(xs[i]))
  }

  // ---- splitting and joining ----

  function Split<T(==)>(s: seq<T>, sep: T): (pieces: seq<seq<T>>)
    ensures pieces != []
  {
    if s == [] then [[]]
    else Grow(s[0], Split(s[1..], sep), sep)
  }

  function Join<T>(pieces: seq<seq<T>>, sep: T): seq<T>
    requires pieces != []
  {
    if |pieces| == 1 then pieces[0] else pieces[0] + [sep] + Join(pieces[1..], sep)
  }

  predicate AllFreeOf<T(==)>(pieces: seq<seq<T>>, sep: T) {
    forall p :: p in pieces ==> sep !in p
  }

  lemma {:induction false} SplitFree<T>(s: seq<T>, sep: T)
    requires sep !in s
    ensures Split(s, sep) == [s]
  {
    if s != [] {
      SplitFree(s[1..], sep);
      assert [s[0]] + s[1..] == s;
    }
  }

  /** Prefixing a split by one more character, the recursive case of `Split`. */
  function Grow<T(==)>(c: T, rest: seq<seq<T>>, sep: T): (pieces: seq<seq<T>>)
    requires rest != []
    ensures pieces != []
  {
    if c == sep then [[]] + rest else [[c] + rest[0]] + rest[1..]
  }

  lemma GrowAppend<T>(c: T, rest: seq<seq<T>>, tail: seq<seq<T>>, sep: T)
    requires |rest| >= 2 || c == sep
    requires rest != [] && tail != []
    ensures Last(Grow(c, rest, sep)) == Last(rest)
    ensures Grow(c, DropLast(rest) + tail, sep) == DropLast(Grow(c, rest, sep)) + tail
  {
    if c == sep {
      PrependAppend([], rest, tail);
    } else {
      var whole := DropLast(rest) + tail;
      assert whole[0] == rest[0] && whole[1..] == DropLast(rest[1..]) + tail;
      PrependAppend([c] + rest[0], rest[1..], tail);
    }
  }

  lemma PrependAppend<T>(first: seq<T>, rest: seq<seq<T>>, tail: seq<seq<T>>)
    requires rest != []
    ensures Last([first] + rest) == Last(rest)
    ensures [first] + (DropLast(rest) + tail) == DropLast([first] + rest) + tail
  {
    assert DropLast([first] + rest) == [first] + DropLast(rest);
  }

  lemma SplitOpen<T>(c: T, open: seq<T>, b: seq<T>, sep: T)
    requires c != sep
    ensures Split([c] + open + b, sep) == Grow(c, Split(open + b, sep), sep)
  {
    var text := [c] + open + b;
    assert text[0] == c && text[1..] == open + b;
  }

  /** Splitting a longer text only re-splits the last, still open, piece. */
  lemma {:induction false} SplitAppend<T>(a: seq<T>, b: seq<T>, sep: T)
    ensures Split(a + b, sep) == DropLast(Split(a, sep)) + Split(Last(Split(a, sep)) + b, sep)
  {
    if a == [] {
      assert a + b == b;
      assert Last(Split(a, sep)) + b == b;
    } else {
      SplitAppend(a[1..], b, sep);
      assert (a + b)[1..] == a[1..] + b && (a + b)[0] == a[0];
      var rest := Split(a[1..], sep);
      if a[0] != sep && |rest| == 1 {
        SplitOpen(a[0], rest[0], b, sep);
        hide Split;
        assert DropLast(rest) == [] && DropLast([[a[0]] + rest[0]]) == [];
      } else {
        GrowAppend(a[0], rest, Split(Last(rest) + b, sep), sep);
      }
    }
  }

  lemma {:induction false} SplitAtFirst<T>(s: seq<T>, i: nat, sep: T)
    requires i < |s| && s[i] == sep && sep !in s[..i]
    ensures Split(s, sep) == [s[..i]] + Split(s[i + 1..], sep)
  {
    if i > 0 {
      assert s[1..][..i - 1] == s[..i][1..];
      assert s[1..][i..] == s[i + 1..];
      SplitAtFirst(s[1..], i - 1, sep);
      assert s[0] == s[..i][0];
      assert [s[0]] + s[1..][..i - 1] == s[..i];
    }
  }

  /** Splitting loses nothing and leaves no separator in any piece. */
  lemma {:induction false} JoinSplit<T>(s: seq<T>, sep: T)
    ensures Join(Split(s, sep), sep) == s
    ensures AllFreeOf(Split(s, sep), sep)
  {
    if s != [] {
      JoinSplit(s[1..], sep);
      var rest := Split(s[1..], sep);
      if s[0] == sep {
        assert ([[]] + rest)[1..] == rest;
      } else {
        assert ([[s[0]] + rest[0]] + rest[1..])[1..] == rest[1..];
        assert sep !in rest[0];
      }
    }
  }

  /** Separator-free pieces are recovered exactly from their join. */
  lemma {:induction false} SplitJoin<T>(pieces: seq<seq<T>>, sep: T)
    requires pieces != [] && AllFreeOf(pieces, sep)
    ensures Split(Join(pieces, sep), sep) == pieces
  {
    if |pieces| == 1 {
      assert pieces[0] in pieces;
      SplitFree(pieces[0], sep);
    } else {
      var s := Join(pieces, sep);
      assert pieces[0] in pieces;
      assert s[..|pieces[0]|] == pieces[0];
      assert s[|pieces[0]| + 1..] == Join(pieces[1..], sep);
      SplitAtFirst(s, |pieces[0]|, sep);
      assert AllFreeOf(pieces[1..], sep);
      SplitJoin(pieces[1..], sep);
    }
  }

  lemma {:induction false} JoinAround<T>(pieces: seq<seq<T>>, sep: T, i: nat) returns (before: seq<T>, after: seq<T>)
    requires i < |pieces|
    ensures Join(pieces, sep) == before + pieces[i] + after
    ensures (before == [] || Last(before) == sep) && (after == [] || after[0] == sep)
    decreases i
  {
    if i == 0 {
      before, after := [], if |pieces| == 1 then [] else [sep] + Join(pieces[1..], sep);
      assert before + pieces[0] + after == pieces[0] + after;
    } else {
      var inner;
      inner, after := JoinAround(pieces[1..], sep, i - 1);
      before := pieces[0] + [sep] + inner;
      assert before + pieces[i] + after == pieces[0] + [sep] + (inner + pieces[i] + after);
    }
  }

  /** A text without separators, cut out between separators or the ends. */
  ghost predicate PieceOf<T(!new)>(s: seq<T>, sep: T, piece: seq<T>) {
    sep !in piece && exists before, after :: CutOut(s, sep, before, piece, after)
  }

  ghost predicate CutOut<T>(s: seq<T>, sep: T, before: seq<T>, piece: seq<T>, after: seq<T>) {
    s == before + piece + after && (before == [] || Last(before) == sep) && (after == [] || after[0] == sep)
  }

  lemma InTail<T>(front: seq<T>, middle: T, tail: seq<T>, x: T)
    requires x in tail
    ensures x in front + ([middle] + tail)
  {
  }

  lemma SplitCutOut<T>(sep: T, before: seq<T>, piece: seq<T>, after: seq<T>)
    requires sep !in piece && (before == [] || Last(before) == sep) && (after == [] || after[0] == sep)
    ensures piece in Split(before + piece + after, sep)
  {
    hide Split, Join;
    var rest := piece + after;
    SplitFirst(sep, piece, after);
    if before == [] {
      assert before + piece + after == rest;
    } else {
      var front := DropLast(before);
      var pieces := Split(front, sep);
      assert before + piece + after == front + ([sep] + rest);
      JoinSplit(front, sep);
      assert Last(pieces) in pieces;
      SplitAppend(front, [sep] + rest, sep);
      SplitAfterOpen(sep, Last(pieces), rest);
      InTail(DropLast(pieces), Last(pieces), Split(rest, sep), piece);
    }
  }

  lemma SplitAfterOpen<T>(sep: T, open: seq<T>, rest: seq<T>)
    requires sep !in open
    ensures Split(open + ([sep] + rest), sep) == [open] + Split(rest, sep)
  {
    var text := open + ([sep] + rest);
    assert text[..|open|] == open && text[|open| + 1..] == rest;
    SplitAtFirst(text, |open|, sep);
  }

  lemma SplitFirst<T>(sep: T, piece: seq<T>, after: seq<T>)
    requires sep !in piece && (after == [] || after[0] == sep)
    ensures piece in Split(piece + after, sep)
  {
    var text := piece + after;
    if after == [] {
      assert text == piece;
      SplitFree(piece, sep);
    } else {
      assert text[..|piece|] == piece;
      SplitAtFirst(text, |piece|, sep);
    }
  }

  /** The pieces of a split are the texts between separators. */
  lemma SplitPieces<T(!new)>(s: seq<T>, sep: T, piece: seq<T>)
    ensures piece in Split(s, sep) <==> PieceOf(s, sep, piece)
  {
    hide Split, Join;
    if piece in Split(s, sep) {
      var i :| 0 <= i < |Split(s, sep)| && Split(s, sep)[i] == piece;
      JoinSplit(s, sep);
      var before, after := JoinAround(Split(s, sep), sep, i);
      assert CutOut(s, sep, before, piece, after);
    }
    if PieceOf(s, sep, piece) {
      var before, after :| CutOut(s, sep, before, piece, after);
      SplitCutOut(sep, before, piece, after);
    }
  }

  // ---- occurrences ----

  predicate OccursAt<T(==)>(p: seq<T>, s: seq<T>, k: nat) {
    k + |p| <= |s| && s[k..k + |p|] == p
  }

  predicate Contains<T(==)>(s: seq<T>, p: seq<T>) {
    exists k: nat :: k <= |s| && OccursAt(p, s, k)
  }

  /** Index of the first separator, or the length of the text. */
  function Find<T(==)>(s: seq<T>, sep: T): (i: nat)
    ensures i <= |s|
    ensures forall j :: 0 <= j < i ==> s[j] != sep
    ensures i < |s| ==> s[i] == sep
  {
    if s == [] || s[0] == sep then 0 else 1 + Find(s[1..], sep)
  }
}
