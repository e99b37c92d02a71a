/**
 * `splitNamespaces`: a qualified class name cut at every "::", scanning left
 * to right. The token iterator with submatch -1 yields the text before each
 * separator and then the text after the last one, except that an empty
 * trailing piece is not produced.
 */
module Namespaces {

  const Sep: string := "::"

  predicate StartsWithSep(s: string) {
    |s| >= 2 && s[0] == ':' && s[1] == ':'
  }

  predicate ContainsSep(s: string) {
    exists i :: 0 <= i < |s| - 1 && s[i] == ':' && s[i + 1] == ':'
  }

  /** The pieces between separators, empty trailing piece included. */
  function Pieces(s: string): (ps: seq<string>)
    ensures |ps| >= 1 && |ps[0]| <= |s| && ps[0] == s[..|ps[0]|]
    ensures |ps| > 1 ==> StartsWithSep(s[|ps[0]|..])
    decreases |s|
  {
    if |s| < 2 then [s]
    else if StartsWithSep(s) then [""] + Pieces(s[2..])
    else
      var rest := Pieces(s[1..]);
      [[s[0]] + rest[0]] + rest[1..]
  }

  /** splitNamespaces: the pieces, without an empty trailing one. */
  function SplitNamespaces(className: string): (ps: seq<string>)
    ensures |ps| >= 1
  {
    var ps := Pieces(className);
    if |ps| > 1 && ps[|ps| - 1] == "" then ps[..|ps| - 1] else ps
  }

  function Join(ps: seq<string>): string
    requires |ps| >= 1
  {
    if |ps| == 1 then ps[0] else ps[0] + Sep + Join(ps[1..])
  }

  /** Joining the pieces with "::" gives back the name: nothing is lost or reordered. */
  lemma {:induction false} JoinPieces(s: string)
    ensures Join(Pieces(s)) == s
    decreases |s|
  {
    if |s| >= 2 {
      if StartsWithSep(s) {
        JoinPieces(s[2..]);
        JoinEmptyFront(Pieces(s[2..]));
        assert s == Sep + s[2..];
      } else {
        JoinPieces(s[1..]);
        JoinCons(s[0], Pieces(s[1..]));
        assert s == [s[0]] + s[1..];
      }
    }
  }

  lemma JoinEmptyFront(ps: seq<string>)
    requires |ps| >= 1
    ensures Join([""] + ps) == Sep + Join(ps)
  {
    var qs := [""] + ps;
    assert qs[0] == "" && qs[1..] == ps;
    assert Join(qs) == "" + Sep + Join(ps);
    EmptyConcat(Sep + Join(ps));
  }

  lemma EmptyConcat<T>(x: seq<T>)
    ensures [] + x == x
  {
  }

  /** Prefixing the first piece with a character prefixes the joined name with it. */
  lemma JoinCons(c: char, ps: seq<string>)
    requires |ps| >= 1
    ensures Join([[c] + ps[0]] + ps[1..]) == [c] + Join(ps)
  {
    var qs := [[c] + ps[0]] + ps[1..];
    assert qs[0] == [c] + ps[0] && qs[1..] == ps[1..];
    if |ps| > 1 {
      var j := Join(ps[1..]);
      assert Join(qs) == [c] + ps[0] + Sep + j;
      assert Join(ps) == ps[0] + Sep + j;
      Regroup4([c], ps[0], Sep, j);
    }
  }

  /** No piece contains "::", and every piece but the last is not followed by a stray ':'. */
  lemma {:induction false} PiecesAreSeparatorFree(s: string)
    ensures SeparatorFree(Pieces(s))
    decreases |s|
  {
    if |s| >= 2 {
      if StartsWithSep(s) {
        PiecesAreSeparatorFree(s[2..]);
        EmptyFrontKeepsSeparatorFree(Pieces(s[2..]));
      } else {
        PiecesAreSeparatorFree(s[1..]);
        ConsKeepsSeparatorFree(s, Pieces(s[1..]));
      }
    }
  }

  predicate SeparatorFree(ps: seq<string>) {
    (forall k :: 0 <= k < |ps| ==> !ContainsSep(ps[k])) &&
    (forall k :: 0 <= k < |ps| - 1 ==> ps[k] == "" || ps[k][|ps[k]| - 1] != ':')
  }

  lemma EmptyFrontKeepsSeparatorFree(rest: seq<string>)
    requires SeparatorFree(rest)
    ensures SeparatorFree([""] + rest)
  {
    var ps := [""] + rest;
    forall k | 0 <= k < |ps| ensures !ContainsSep(ps[k]) {
      if k > 0 { assert ps[k] == rest[k - 1]; }
    }
  }

  /** The step of Pieces that extends the first piece by the leading character. */
  lemma ConsKeepsSeparatorFree(s: string, rest: seq<string>)
    requires |s| >= 2 && !StartsWithSep(s) && rest == Pieces(s[1..]) && SeparatorFree(rest)
    ensures SeparatorFree([[s[0]] + rest[0]] + rest[1..])
  {
    var first := [s[0]] + rest[0];
    var ps := [first] + rest[1..];
    FirstPieceSeparatorFree(s, rest[0], |rest| > 1);
    forall k | 0 <= k < |ps| ensures !ContainsSep(ps[k]) {
      if k > 0 { assert ps[k] == rest[k]; }
    }
    forall k | 0 <= k < |ps| - 1 ensures ps[k] == "" || ps[k][|ps[k]| - 1] != ':' {
      if k > 0 {
        assert ps[k] == rest[k];
      } else if rest[0] == "" {
        assert StartsWithSep(s[1..]) && s[1] == ':';
      } else {
        assert first[|first| - 1] == rest[0][|rest[0]| - 1];
      }
    }
  }

  lemma FirstPieceSeparatorFree(s: string, r: string, more: bool)
    requires |s| >= 2 && !StartsWithSep(s) && !ContainsSep(r) && |r| < |s|
    requires r == s[1..][..|r|]
    ensures !ContainsSep([s[0]] + r)
  {
    var first := [s[0]] + r;
    forall i | 0 <= i < |first| - 1 ensures !(first[i] == ':' && first[i + 1] == ':') {
      if i == 0 {
        assert first[1] == r[0] == s[1];
      } else {
        assert first[i] == r[i - 1] && first[i + 1] == r[i];
      }
    }
  }

  /** A leading component without any ':' is cut off at the first separator. */
  lemma {:induction false} PiecesOfComponent(a: string, rest: string)
    requires ColonFree(a)
    ensures Pieces(a + Sep + rest) == [a] + Pieces(rest)
    decreases |a|
  {
    var s := a + Sep + rest;
    if a == [] {
      assert s == Sep + rest && StartsWithSep(s) && s[2..] == rest;
    } else {
      assert !StartsWithSep(s) && s[0] == a[0];
      assert s[1..] == a[1..] + Sep + rest;
      PiecesOfComponent(a[1..], rest);
      assert [a[0]] + a[1..] == a;
    }
  }

  predicate ColonFree(a: string) {
    forall i :: 0 <= i < |a| ==> a[i] != ':'
  }

  /** A name of three colon-free components, such as "engine::duk::SomeClass", splits into them. */
  lemma SplitThreeLevels(a: string, b: string, c: string)
    requires ColonFree(a) && ColonFree(b) && ColonFree(c) && c != ""
    ensures SplitNamespaces(a + Sep + b + Sep + c) == [a, b, c]
  {
    PiecesOfThree(a, b, c);
    Regroup(a, Sep, b, Sep, c);
  }

  /** A name of two colon-free components, such as "PolymorphicTests::Concrete", splits into them. */
  lemma SplitTwoLevels(a: string, b: string)
    requires ColonFree(a) && ColonFree(b) && b != ""
    ensures SplitNamespaces(a + Sep + b) == [a, b]
  {
    ColonFreeHasNoSep(b);
    UnqualifiedPieces(b);
    PiecesOfComponent(a, b);
  }

  lemma PiecesOfThree(a: string, b: string, c: string)
    requires ColonFree(a) && ColonFree(b) && ColonFree(c)
    ensures Pieces(a + Sep + (b + Sep + c)) == [a, b, c]
  {
    ColonFreeHasNoSep(c);
    UnqualifiedPieces(c);
    PiecesOfComponent(b, c);
    PiecesOfComponent(a, b + Sep + c);
  }

  lemma Regroup4<T>(x: seq<T>, y: seq<T>, z: seq<T>, w: seq<T>)
    ensures x + y + z + w == x + (y + z + w)
  {
  }

  lemma Regroup<T>(x: seq<T>, y: seq<T>, z: seq<T>, u: seq<T>, w: seq<T>)
    ensures x + y + z + u + w == x + y + (z + u + w)
  {
  }

  lemma ColonFreeHasNoSep(c: string)
    requires ColonFree(c)
    ensures !ContainsSep(c)
  {
    forall i | 0 <= i < |c| - 1 ensures c[i] != ':' { }
  }

  /** A name ending in "::" gives no empty last piece: "a::" splits into ["a"]. */
  lemma SplitDropsTrailingEmpty(a: string)
    requires ColonFree(a)
    ensures SplitNamespaces(a + Sep) == [a]
  {
    PiecesOfComponent(a, "");
    assert a + Sep + "" == a + Sep;
  }

  /** A name without "::" is returned as the only piece. */
  lemma {:induction false} SplitUnqualified(s: string)
    requires !ContainsSep(s)
    ensures SplitNamespaces(s) == [s]
  {
    UnqualifiedPieces(s);
  }

  lemma {:induction false} UnqualifiedPieces(s: string)
    requires !ContainsSep(s)
    ensures Pieces(s) == [s]
    decreases |s|
  {
    if |s| >= 2 {
      assert !StartsWithSep(s) by { assert !(s[0] == ':' && s[1] == ':'); }
      forall i | 0 <= i < |s[1..]| - 1 ensures !(s[1..][i] == ':' && s[1..][i + 1] == ':') {
        assert s[1..][i] == s[i + 1] && s[1..][i + 1] == s[i + 2];
        assert !(s[i + 1] == ':' && s[i + 2] == ':');
      }
      UnqualifiedPieces(s[1..]);
      assert [s[0]] + s[1..] == s;
    }
  }
}
