/** Decimal text and left-to-right replacement. */
module Text {

  // ---------------------------------------------------------------------------------------------
  // Decimal digits
  // ---------------------------------------------------------------------------------------------

  predicate IsDigit(c: char) {
    '0' <= c <= '9'
  }

  predicate AllDigits(s: string) {
    forall i :: 0 <= i < |s| ==> IsDigit(s[i])
  }

  function Digit(d: nat): (c: char)
    requires d < 10
    ensures IsDigit(c) && (c as int) - ('0' as int) == d
  {
    '0' + d as char
  }

  function Decimal(n: nat): string {
    if n < 10 then [Digit(n)] else Decimal(n / 10) + [Digit(n % 10)]
  }

  /** The number a digit string denotes. */
  function Number(s: string): nat
    requires AllDigits(s)
  {
    if s == "" then 0
    else 10 * Number(s[..|s| - 1]) + ((s[|s| - 1] as int) - ('0' as int))
  }

  lemma {:induction false} DecimalReadsBack(n: nat)
    ensures Decimal(n) != "" && AllDigits(Decimal(n)) && Number(Decimal(n)) == n
  {
    if n >= 10 {
      DecimalReadsBack(n / 10);
      assert Decimal(n)[..|Decimal(n)| - 1] == Decimal(n / 10);
    }
  }

  /** The last separator splits a text in one way when what follows it has no separator. */
  lemma LastSeparator(a1: string, b1: string, a2: string, b2: string, sep: char)
    requires a1 + [sep] + b1 == a2 + [sep] + b2
    requires sep !in b1 && sep !in b2
    ensures a1 == a2 && b1 == b2
  {
    var s := a1 + [sep] + b1;
    assert s[|a1|] == sep && s[|a2|] == sep;
    assert forall k :: |a1| < k < |s| ==> s[k] in b1;
    assert forall k :: |a2| < k < |s| ==> s[k] in b2;
    assert a1 == s[..|a1|] && a2 == s[..|a2|];
    assert b1 == s[|a1| + 1..] && b2 == s[|a2| + 1..];
  }

  // ---------------------------------------------------------------------------------------------
  // Replacement
  // ---------------------------------------------------------------------------------------------

  /** Every leftmost non-overlapping `target` becomes `new`. */
  function ReplaceAll(s: string, target: string, insert: string): (r: string)
    requires target != ""
    ensures target <= s ==> insert <= r
  {
    if target <= s then insert + ReplaceAll(s[|target|..], target, insert)
    else if s == "" then ""
    else [s[0]] + ReplaceAll(s[1..], target, insert)
  }

  ghost predicate Contains(s: string, t: string) {
    exists i :: 0 <= i <= |s| && t <= s[i..]
  }

  ghost predicate Disjoint(s: string, t: string) {
    forall i, j :: 0 <= i < |s| && 0 <= j < |t| ==> s[i] != t[j]
  }

  /** The stretches between the replaced texts. */
  function Pieces(s: string, target: string): (r: seq<string>)
    requires target != ""
    ensures r != [] && r[0] <= s
  {
    if target <= s then [""] + Pieces(s[|target|..], target)
    else if s == "" then [""]
    else
      var r := Pieces(s[1..], target);
      [[s[0]] + r[0]] + r[1..]
  }

  function Join(pieces: seq<string>, separator: string): string
    requires pieces != []
  {
    if |pieces| == 1 then pieces[0] else pieces[0] + separator + Join(pieces[1..], separator)
  }

  lemma JoinFront(c: char, pieces: seq<string>, separator: string)
    requires pieces != []
    ensures Join([[c] + pieces[0]] + pieces[1..], separator) == [c] + Join(pieces, separator)
  {
    var r := [[c] + pieces[0]] + pieces[1..];
    assert r[1..] == pieces[1..];
  }

  lemma JoinEmptyFront(pieces: seq<string>, separator: string)
    requires pieces != []
    ensures Join([""] + pieces, separator) == separator + Join(pieces, separator)
  {
    assert ([""] + pieces)[1..] == pieces;
  }

  /** Rejoining the pieces with any text is replacing by that text. */
  lemma {:induction false} PiecesRejoin(s: string, target: string, separator: string)
    requires target != ""
    ensures Join(Pieces(s, target), separator) == ReplaceAll(s, target, separator)
    decreases |s|
  {
    if target <= s {
      PiecesRejoin(s[|target|..], target, separator);
      JoinEmptyFront(Pieces(s[|target|..], target), separator);
    } else if s != "" {
      PiecesRejoin(s[1..], target, separator);
      JoinFront(s[0], Pieces(s[1..], target), separator);
    }
  }

  lemma {:induction false} ReplaceByItself(s: string, target: string)
    requires target != ""
    ensures ReplaceAll(s, target, target) == s
    decreases |s|
  {
    if target <= s {
      ReplaceByItself(s[|target|..], target);
      assert s == target + s[|target|..];
    } else if s != "" {
      ReplaceByItself(s[1..], target);
    }
  }

  /** The first character of `t` occurs nowhere else in it, so `t` cannot overlap itself. */
  predicate NoOverlap(t: string) {
    t != "" && t[0] !in t[1..]
  }

  lemma NoEarlyMatch(p: string, target: string, rest: string)
    requires NoOverlap(target) && p != "" && !Contains(p, target)
    ensures !(target <= p + target + rest)
  {
    var s := p + target + rest;
    assert p[0..] == p && !(target <= p[0..]);
    if |p| < |target| {
      assert s[|p|] == target[0];
      assert target[|p|] in target[1..];
    }
  }

  lemma ContainsTail(s: string, t: string)
    requires s != "" && Contains(s[1..], t)
    ensures Contains(s, t)
  {
    var i :| 0 <= i <= |s[1..]| && t <= s[1..][i..];
    assert s[i + 1..] == s[1..][i..];
  }

  /** No piece contains the old text. */
  lemma {:induction false} PiecesFree(s: string, target: string)
    requires target != ""
    ensures forall k :: 0 <= k < |Pieces(s, target)| ==> !Contains(Pieces(s, target)[k], target)
    decreases |s|
  {
    if target <= s {
      PiecesFree(s[|target|..], target);
    } else if s != "" {
      PiecesFree(s[1..], target);
      var r := Pieces(s[1..], target);
      var first := [s[0]] + r[0];
      assert first <= s;
      forall i | 0 <= i <= |first| ensures !(target <= first[i..]) {
        if i > 0 {
          assert first[i..] == r[0][i - 1..];
        } else {
          assert first[0..] == first;
        }
      }
    }
  }

  /** A character at the front of the first piece joins that piece. */
  lemma PiecesWithFront(pieces: seq<string>, target: string)
    requires pieces != [] && pieces[0] != "" && NoOverlap(target) && !Contains(pieces[0], target)
    requires var shorter := [pieces[0][1..]] + pieces[1..]; Pieces(Join(shorter, target), target) == shorter
    ensures Pieces(Join(pieces, target), target) == pieces
  {
    var s, p := Join(pieces, target), pieces[0];
    var shorter := [p[1..]] + pieces[1..];
    JoinFront(p[0], shorter, target);
    assert p == [p[0]] + p[1..];
    assert shorter[1..] == pieces[1..] && [[p[0]] + shorter[0]] + shorter[1..] == pieces;
    assert s == [p[0]] + Join(shorter, target);
    assert s[1..] == Join(shorter, target);
    assert p[0..] == p && !(target <= p[0..]);
    if |pieces| > 1 {
      NoEarlyMatch(p, target, Join(pieces[1..], target));
    }
  }

  /** The cut is the only one: any text assembled from pieces free of a non-overlapping `target` is cut back
      into exactly those pieces. */
  lemma {:induction false} PiecesUnique(pieces: seq<string>, target: string)
    requires pieces != [] && NoOverlap(target)
    requires forall k :: 0 <= k < |pieces| ==> !Contains(pieces[k], target)
    ensures Pieces(Join(pieces, target), target) == pieces
    decreases |pieces|, |pieces[0]|
  {
    var s, p := Join(pieces, target), pieces[0];
    if p == "" {
      if |pieces| > 1 {
        PiecesUnique(pieces[1..], target);
        assert s[|target|..] == Join(pieces[1..], target);
      }
    } else {
      var shorter := [p[1..]] + pieces[1..];
      assert p == [p[0]] + p[1..];
      if Contains(p[1..], target) { ContainsTail(p, target); }
      PiecesUnique(shorter, target);
      PiecesWithFront(pieces, target);
    }
  }

  /** Characters of `target` at the front of a result were copied, not inserted. */
  lemma {:induction false} FrontIsCopied(s: string, target: string, insert: string, p: string)
    requires target != "" && insert != "" && Disjoint(target, insert)
    requires p <= ReplaceAll(s, target, insert) && forall i :: 0 <= i < |p| ==> p[i] in target
    ensures p <= s
    decreases |s|
  {
    if p != "" {
      assert p[0] in target;
      if s != "" && !(target <= s) {
        FrontIsCopied(s[1..], target, insert, p[1..]);
        assert p == [p[0]] + p[1..] && s == [s[0]] + s[1..];
      }
    }
  }

  /** Replacing by a non-empty text that shares no character with `target` leaves no `target` behind, not even one
      put together across an insertion. */
  lemma {:induction false} NoneLeft(s: string, target: string, insert: string)
    requires target != "" && insert != "" && Disjoint(target, insert)
    ensures !Contains(ReplaceAll(s, target, insert), target)
    decreases |s|
  {
    var r := ReplaceAll(s, target, insert);
    if target <= s {
      var rest := ReplaceAll(s[|target|..], target, insert);
      NoneLeft(s[|target|..], target, insert);
      forall i | 0 <= i <= |r| ensures !(target <= r[i..]) {
        if i < |insert| {
          assert r[i..][0] == insert[i];
        } else {
          assert r[i..] == rest[i - |insert|..];
        }
      }
    } else if s != "" {
      var rest := ReplaceAll(s[1..], target, insert);
      NoneLeft(s[1..], target, insert);
      assert !(target <= r) by {
        if target <= r { FrontIsCopied(s, target, insert, target); }
      }
      forall i | 0 <= i <= |r| ensures !(target <= r[i..]) {
        if i > 0 {
          assert r[i..] == rest[i - 1..];
        } else {
          assert r[0..] == r;
        }
      }
    }
  }
}
