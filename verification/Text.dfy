/** Decimal rendering and ordering of strings, as the ids and sorted listings of the source use them. */
module Text {

  function Digit(n: nat): char
    requires n < 10
  {
    '0' + n as char
  }

  predicate IsDigit(c: char)
  {
    '0' <= c <= '9'
  }

  function Digits(n: nat): (s: string)
    ensures s != [] && forall i :: 0 <= i < |s| ==> IsDigit(s[i])
  {
    if n < 10 then [Digit(n)] else Digits(n / 10) + [Digit(n % 10)]
  }

  /** The number a string of digits denotes. */
  function Value(s: string): int
  {
    if s == [] then 0 else 10 * Value(s[..|s| - 1]) + (s[|s| - 1] as int - '0' as int)
  }

  function Zeros(k: nat): (s: string)
    ensures |s| == k && forall i :: 0 <= i < k ==> s[i] == '0'
  {
    if k == 0 then [] else Zeros(k - 1) + ['0']
  }

  /** `{n:0<width>d}`. */
  function Padded(n: nat, width: nat): (s: string)
    ensures forall i :: 0 <= i < |s| ==> IsDigit(s[i])
  {
    if |Digits(n)| >= width then Digits(n) else Zeros(width - |Digits(n)|) + Digits(n)
  }

  lemma {:induction false} ZerosDenote(k: nat)
    ensures Value(Zeros(k)) == 0
  {
    if k > 0 {
      assert Zeros(k)[..k - 1] == Zeros(k - 1);
      ZerosDenote(k - 1);
    }
  }

  lemma {:induction false} DigitsDenote(n: nat, pad: string)
    requires Value(pad) == 0
    ensures Value(pad + Digits(n)) == n
    decreases n
  {
    var s := pad + Digits(n);
    if n < 10 {
      assert s[..|s| - 1] == pad;
    } else {
      assert s[..|s| - 1] == pad + Digits(n / 10);
      DigitsDenote(n / 10, pad);
    }
  }

  lemma PaddedInjective(a: nat, b: nat, width: nat)
    requires Padded(a, width) == Padded(b, width)
    ensures a == b
  {
    DenotesPadded(a, width);
    DenotesPadded(b, width);
  }

  lemma DenotesPadded(n: nat, width: nat)
    ensures Value(Padded(n, width)) == n
  {
    var k := if |Digits(n)| >= width then 0 else width - |Digits(n)|;
    ZerosDenote(k);
    DigitsDenote(n, Zeros(k));
    assert Zeros(0) + Digits(n) == Digits(n);
  }

  /** What fixes a padded number: its digits denote it, there are at least `width` of them, and none is a
      zero in front that the width did not ask for. */
  lemma PaddedIs(n: nat, width: nat)
    ensures var s := Padded(n, width);
            && Value(s) == n && |s| >= width && (forall i :: 0 <= i < |s| ==> IsDigit(s[i]))
            && (|s| > width && |s| > 1 ==> s[0] != '0')
  {
    DenotesPadded(n, width);
    NoZeroInFront(n);
  }

  lemma {:induction false} NoZeroInFront(n: nat)
    ensures |Digits(n)| > 1 ==> Digits(n)[0] != '0'
  {
    if n >= 10 {
      NoZeroInFront(n / 10);
    }
  }

  /** A run of digits before a non-digit can be read off a string in one way only. */
  lemma DigitRunUnique(a: string, x: string, b: string, y: string)
    requires forall i :: 0 <= i < |a| ==> IsDigit(a[i])
    requires forall i :: 0 <= i < |b| ==> IsDigit(b[i])
    requires x != [] && !IsDigit(x[0]) && y != [] && !IsDigit(y[0])
    requires a + x == b + y
    ensures a == b && x == y
  {
    var s := a + x;
    assert s[|a|] == x[0] && s[|b|] == y[0];
    assert |a| == |b|;
    assert a == s[..|a|] && b == (b + y)[..|b|];
    assert x == s[|a|..] && y == (b + y)[|b|..];
  }

  lemma SamePrefix(p: string, a: string, b: string)
    requires p + a == p + b
    ensures a == b
  {
    assert a == (p + a)[|p|..] && b == (p + b)[|p|..];
  }

  // ----- sorted listings of sets of strings

  /** Python's order on strings: by code point, a proper prefix first. */
  predicate Before(a: string, b: string)
  {
    if b == [] then false
    else if a == [] then true
    else a[0] < b[0] || (a[0] == b[0] && Before(a[1..], b[1..]))
  }

  lemma {:induction false} BeforeTransitive(a: string, b: string, c: string)
    requires Before(a, b) && Before(b, c)
    ensures Before(a, c)
  {
    if a != [] && a[0] == b[0] == c[0] {
      BeforeTransitive(a[1..], b[1..], c[1..]);
    }
  }

  lemma {:induction false} BeforeTotal(a: string, b: string)
    ensures a == b || Before(a, b) || Before(b, a)
    ensures !(Before(a, b) && Before(b, a))
  {
    if a != [] && b != [] && a[0] == b[0] {
      BeforeTotal(a[1..], b[1..]);
      assert a == [a[0]] + a[1..] && b == [b[0]] + b[1..];
    }
  }

  ghost predicate Ascending(s: seq<string>)
  {
    forall i, j :: 0 <= i < j < |s| ==> Before(s[i], s[j])
  }

  /** Inserting keeps the listing ascending. */
  function Insert(s: seq<string>, x: string): seq<string>
  {
    if s == [] then [x]
    else if Before(x, s[0]) then [x] + s
    else [s[0]] + Insert(s[1..], x)
  }

  lemma {:induction false} InsertAscends(s: seq<string>, x: string)
    requires Ascending(s) && x !in s
    ensures Ascending(Insert(s, x)) && forall y :: y in Insert(s, x) <==> y == x || y in s
  {
    if s != [] {
      BeforeTotal(x, s[0]);
      if Before(x, s[0]) {
        forall j | 0 <= j < |s|
          ensures Before(x, s[j])
        {
          if j > 0 { BeforeTransitive(x, s[0], s[j]); }
        }
      } else {
        assert s == [s[0]] + s[1..];
        InsertAscends(s[1..], x);
        var rest := Insert(s[1..], x);
        forall j | 0 <= j < |rest|
          ensures Before(s[0], rest[j])
        {
          assert rest[j] in rest;
          if rest[j] != x {
            var k :| 0 <= k < |s[1..]| && s[1..][k] == rest[j];
            assert s[k + 1] == rest[j];
          }
        }
      }
    }
  }

  /** An ascending listing is determined by its elements. */
  lemma {:induction false} AscendingUnique(s: seq<string>, t: seq<string>)
    requires Ascending(s) && Ascending(t) && forall y :: y in s <==> y in t
    ensures s == t
  {
    assert t != [] ==> t[0] in t;
    if s != [] {
      assert s[0] in t;
      assert t[0] in s;
      var i :| 0 <= i < |t| && t[i] == s[0];
      var j :| 0 <= j < |s| && s[j] == t[0];
      BeforeTotal(s[0], t[0]);
      assert s[0] == t[0];
      forall y
        ensures y in s[1..] <==> y in t[1..]
      {
        TailMembers(s, y);
        TailMembers(t, y);
      }
      AscendingUnique(s[1..], t[1..]);
      assert s == [s[0]] + s[1..] && t == [t[0]] + t[1..];
    }
  }

  lemma TailMembers(s: seq<string>, y: string)
    requires Ascending(s) && s != []
    ensures y in s[1..] <==> y in s && y != s[0]
  {
    BeforeTotal(s[0], s[0]);
    if y in s && y != s[0] {
      var k :| 0 <= k < |s| && s[k] == y;
      assert s[1..][k - 1] == y;
    }
    if y in s[1..] {
      var k :| 0 <= k < |s[1..]| && s[1..][k] == y;
      assert s[k + 1] == y && Before(s[0], s[k + 1]);
    }
  }

  /** `sorted(items)` for a set. */
  ghost function Sorted(items: set<string>): seq<string>
  {
    if items == {} then [] else var x :| x in items; Insert(Sorted(items - {x}), x)
  }

  lemma {:induction false} SortedLists(items: set<string>)
    ensures Ascending(Sorted(items)) && forall y :: y in Sorted(items) <==> y in items
  {
    if items != {} {
      var x :| x in items && Sorted(items) == Insert(Sorted(items - {x}), x);
      SortedLists(items - {x});
      InsertAscends(Sorted(items - {x}), x);
    }
  }

  method SortSet(items: set<string>) returns (s: seq<string>)
    ensures s == Sorted(items)
  {
    s := [];
    var rest := items;
    while rest != {}
      invariant rest <= items
      invariant Ascending(s) && forall y :: y in s <==> y in items - rest
      decreases |rest|
    {
      var x :| x in rest;
      InsertAscends(s, x);
      s := Insert(s, x);
      rest := rest - {x};
    }
    SortedLists(items);
    AscendingUnique(s, Sorted(items));
  }
}
