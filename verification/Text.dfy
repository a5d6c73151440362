/** Text order (by code point, as Python's `sorted` uses it) and stripping of white space. */
module Text {

  predicate Leq(a: string, b: string) {
    a == [] || (b != [] && (a[0] < b[0] || (a[0] == b[0] && Leq(a[1..], b[1..]))))
  }

  lemma {:induction false} LeqTotal(a: string, b: string)
    ensures Leq(a, b) || Leq(b, a)
  {
    if a != [] && b != [] && a[0] == b[0] {
      LeqTotal(a[1..], b[1..]);
    }
  }

  lemma {:induction false} LeqAntisymmetric(a: string, b: string)
    requires Leq(a, b) && Leq(b, a)
    ensures a == b
  {
    if a != [] {
      LeqAntisymmetric(a[1..], b[1..]);
      assert a == [a[0]] + a[1..] && b == [b[0]] + b[1..];
    }
  }

  lemma {:induction false} LeqTransitive(a: string, b: string, c: string)
    requires Leq(a, b) && Leq(b, c)
    ensures Leq(a, c)
  {
    if a != [] && a[0] == b[0] == c[0] {
      LeqTransitive(a[1..], b[1..], c[1..]);
    }
  }

  /** The texts agree before position `i`, where `a` has the lower code point. */
  predicate LowerAt(a: string, b: string, i: nat) {
    i < |a| && i < |b| && a[..i] == b[..i] && a[i] < b[i]
  }

  lemma {:induction false} LowerAtNext(a: string, b: string, i: nat)
    requires a != [] && b != [] && a[0] == b[0]
    ensures LowerAt(a, b, i + 1) <==> LowerAt(a[1..], b[1..], i)
  {
    if i < |a| - 1 && i < |b| - 1 {
      assert a[..i + 1] == [a[0]] + a[1..][..i] && b[..i + 1] == [b[0]] + b[1..][..i];
      assert a[..i + 1][1..] == a[1..][..i] && b[..i + 1][1..] == b[1..][..i];
    }
  }

  /** One text comes before another if it is a start of it, or lower at the first position where they differ. */
  lemma {:induction false} LeqIsLexicographic(a: string, b: string)
    ensures Leq(a, b) <==> a <= b || exists i: nat :: LowerAt(a, b, i)
  {
    if a != [] && b != [] && a[0] == b[0] {
      LeqIsLexicographic(a[1..], b[1..]);
      assert a == [a[0]] + a[1..] && b == [b[0]] + b[1..];
      assert a <= b <==> a[1..] <= b[1..];
      if i: nat :| LowerAt(a[1..], b[1..], i) {
        LowerAtNext(a, b, i);
      }
      if i: nat :| LowerAt(a, b, i) {
        LowerAtNext(a, b, i - 1);
      }
    } else if a != [] && b != [] && a[0] < b[0] {
      assert LowerAt(a, b, 0);
    }
  }

  predicate IsLeast(m: string, s: set<string>) {
    m in s && forall x | x in s :: Leq(m, x)
  }

  lemma {:induction false} LeastExists(s: set<string>) returns (m: string)
    requires s != {}
    ensures IsLeast(m, s)
  {
    var x :| x in s;
    if s == {x} {
      LeqTotal(x, x);
      m := x;
    } else {
      var rest := LeastExists(s - {x});
      LeqTotal(x, rest);
      if Leq(x, rest) {
        m := x;
        LeqTotal(x, x);
        forall y | y in s - {x} ensures Leq(x, y) {
          LeqTransitive(x, rest, y);
        }
      } else {
        m := rest;
      }
      assert forall y | y in s :: y == x || y in s - {x};
    }
  }

  ghost function Least(s: set<string>): (m: string)
    requires s != {}
    ensures IsLeast(m, s)
  {
    LeastWitness(s);
    var m :| IsLeast(m, s);
    m
  }

  lemma {:induction false} LeastWitness(s: set<string>)
    requires s != {}
    ensures exists m :: IsLeast(m, s)
  {
    var m := LeastExists(s);
  }

  lemma {:induction false} LeastUnique(s: set<string>, m: string)
    requires s != {} && IsLeast(m, s)
    ensures m == Least(s)
  {
    LeqAntisymmetric(m, Least(s));
  }

  function Elements(ids: seq<string>): set<string> {
    set x | x in ids
  }

  lemma {:induction false} ElementsUpTo(ids: seq<string>, i: nat)
    requires i < |ids|
    ensures ids[..i + 1][..i] == ids[..i] && ids[..i + 1][i] == ids[i]
    ensures Elements(ids[..i + 1]) == Elements(ids[..i]) + {ids[i]}
  {
    assert ids[..i + 1] == ids[..i] + [ids[i]];
  }

  lemma {:induction false} ElementsPrepend(x: string, ids: seq<string>)
    ensures Elements([x] + ids) == {x} + Elements(ids)
  {
    forall y | y in Elements(ids) ensures y in [x] + ids {
      var i :| 0 <= i < |ids| && ids[i] == y;
      assert ([x] + ids)[i + 1] == y;
    }
    assert ([x] + ids)[0] == x;
  }

  /** `sorted(s)` for a set of texts. */
  ghost function Sorted(s: set<string>): (r: seq<string>)
    ensures Elements(r) == s && |r| == |s|
    decreases |s|
  {
    if s == {} then [] else
      var m := Least(s);
      var rest := Sorted(s - {m});
      ElementsPrepend(m, rest);
      [m] + rest
  }

  lemma {:induction false} SortedIsDistinct(s: set<string>)
    ensures forall i, j | 0 <= i < j < |Sorted(s)| :: Sorted(s)[i] != Sorted(s)[j]
    decreases |s|
  {
    if s != {} {
      var m := Least(s);
      SortedIsDistinct(s - {m});
      var rest := Sorted(s - {m});
      assert m !in Elements(rest);
      assert forall j | 0 <= j < |rest| :: rest[j] in Elements(rest);
    }
  }

  lemma {:induction false} SortedIsOrdered(s: set<string>)
    ensures forall i, j | 0 <= i < j < |Sorted(s)| :: Leq(Sorted(s)[i], Sorted(s)[j])
    decreases |s|
  {
    if s != {} {
      var m := Least(s);
      SortedIsOrdered(s - {m});
      var rest := Sorted(s - {m});
      assert forall j | 0 <= j < |rest| :: rest[j] in Elements(rest);
    }
  }

  lemma {:induction false} SortedNext(r: seq<string>, todo: set<string>, m: string)
    requires IsLeast(m, todo)
    ensures r + [m] + Sorted(todo - {m}) == r + Sorted(todo)
  {
    LeastUnique(todo, m);
    assert Sorted(todo) == [m] + Sorted(todo - {m});
  }

  method SortIds(s: set<string>) returns (r: seq<string>)
    ensures r == Sorted(s)
  {
    r := [];
    var todo := s;
    while todo != {}
      invariant r + Sorted(todo) == Sorted(s)
      decreases todo
    {
      LeastWitness(todo);
      var m :| IsLeast(m, todo);
      SortedNext(r, todo, m);
      r, todo := r + [m], todo - {m};
    }
  }

  /** The white space that `str.strip` removes. */
  predicate IsSpace(c: char) {
    || c == ' ' || '\t' <= c <= '\r' || '\U{1C}' <= c <= '\U{1F}'
    || c in {'\U{85}', '\U{A0}', '\U{1680}', '\U{2028}', '\U{2029}', '\U{202F}', '\U{205F}', '\U{3000}'}
    || '\U{2000}' <= c <= '\U{200A}'
  }

  predicate BlankIn(s: string, lo: int, hi: int) {
    forall i | lo <= i < hi && 0 <= i < |s| :: IsSpace(s[i])
  }

  /** The position of the first character from `i` on that is no white space. */
  function StartFrom(s: string, i: nat): (a: nat)
    requires i <= |s|
    ensures i <= a <= |s| && BlankIn(s, i, a) && (a < |s| ==> !IsSpace(s[a]))
    decreases |s| - i
  {
    if i < |s| && IsSpace(s[i]) then StartFrom(s, i + 1) else i
  }

  /** The position after the last character before `j` that is no white space. */
  function EndBefore(s: string, j: nat): (b: nat)
    requires j <= |s|
    ensures b <= j && BlankIn(s, b, j) && (b > 0 ==> !IsSpace(s[b - 1]))
  {
    if j > 0 && IsSpace(s[j - 1]) then EndBefore(s, j - 1) else j
  }

  function Start(s: string): (a: nat)
    ensures a <= |s| && BlankIn(s, 0, a) && (a < |s| ==> !IsSpace(s[a]))
  {
    StartFrom(s, 0)
  }

  function End(s: string): (b: nat)
    ensures b <= |s| && BlankIn(s, b, |s|) && (b > 0 ==> !IsSpace(s[b - 1]))
  {
    EndBefore(s, |s|)
  }

  function LStrip(s: string): string {
    s[Start(s)..]
  }

  function RStrip(s: string): string {
    s[..End(s)]
  }

  function Strip(s: string): string {
    RStrip(LStrip(s))
  }

  predicate Blank(s: string) {
    forall i | 0 <= i < |s| :: IsSpace(s[i])
  }

  /** Stripping keeps what lies between the first and the last character that is no white space. */
  lemma {:induction false} StripCuts(s: string)
    ensures Blank(s) <==> Strip(s) == []
    ensures !Blank(s) ==> Start(s) < End(s) && Strip(s) == s[Start(s)..End(s)]
    ensures |LStrip(s)| == |s| - Start(s) && |RStrip(s)| == End(s)
  {
    CutsCompose(s, Start(s), End(LStrip(s)), End(s));
  }

  lemma {:induction false} StrippedIsBlankOnlyIfEmpty(s: string)
    ensures Blank(Strip(s)) <==> Strip(s) == ""
  {
    StripCuts(s);
    if !Blank(s) {
      assert Strip(s)[0] == s[Start(s)];
    }
  }

  lemma {:induction false} CutsCompose(s: string, a: nat, c: nat, b: nat)
    requires a <= |s| && BlankIn(s, 0, a) && (a < |s| ==> !IsSpace(s[a]))
    requires c <= |s[a..]| && BlankIn(s[a..], c, |s[a..]|) && (c > 0 ==> !IsSpace(s[a..][c - 1]))
    requires b <= |s| && BlankIn(s, b, |s|) && (b > 0 ==> !IsSpace(s[b - 1]))
    ensures Blank(s) <==> s[a..][..c] == []
    ensures !Blank(s) ==> a < b && s[a..][..c] == s[a..b]
  {
    assert c > 0 ==> s[a + c - 1] == s[a..][c - 1];
    forall i | a + c <= i < |s| ensures IsSpace(s[i]) {
      assert s[i] == s[a..][i - a];
    }
  }
}
