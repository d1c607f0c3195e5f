/**
 Shared vocabulary for the viewer model: the Option and Result wrappers that stand
 for JavaScript's `undefined` and thrown exceptions, string helpers with the
 semantics of the JavaScript built-ins the viewer calls (`startsWith`, `indexOf`,
 `split`, `repeat`, `Number.prototype.toString`), and an order-preserving filter.
 */
module Common {

  /** A JavaScript value that may be `undefined`. */
  datatype Option<+T> = None | Some(value: T) {
    function GetOr(default: T): T {
      match this
      case Some(v) => v
      case None => default
    }
  }

  /** The outcome of a call that may throw. */
  datatype Result<+T> = Success(value: T) | Failure(error: string)

  /** JavaScript truthiness of an optional string: defined and non-empty. */
  predicate Truthy(s: Option<string>) {
    s.Some? && s.value != ""
  }

  /**
   `a || b || ...` over optional strings: the first truthy candidate, or `None`
   when every candidate is undefined or empty.
   */
  function FirstTruthy(cands: seq<Option<string>>): (r: Option<string>)
    ensures r.None? <==> forall i :: 0 <= i < |cands| ==> !Truthy(cands[i])
    ensures r.Some? ==> r.value != ""
    ensures r.Some? ==>
      exists i :: 0 <= i < |cands| && cands[i] == r && forall j :: 0 <= j < i ==> !Truthy(cands[j])
  {
    if |cands| == 0 then None
    else if Truthy(cands[0]) then cands[0]
    else
      var r := FirstTruthy(cands[1..]);
      if r.Some? then
        var i :| 0 <= i < |cands[1..]| && cands[1..][i] == r && forall j :: 0 <= j < i ==> !Truthy(cands[1..][j]);
        assert cands[i + 1] == r;
        assert forall j :: 0 <= j < i + 1 ==> !Truthy(cands[j]) by {
          forall j | 0 <= j < i + 1
            ensures !Truthy(cands[j])
          {
            if j > 0 {
              assert cands[j] == cands[1..][j - 1];
            }
          }
        }
        r
      else
        r
  }

  /** `s.startsWith(p)`. */
  predicate StartsWith(s: string, p: string) {
    |p| <= |s| && s[..|p|] == p
  }

  /**
   The read-only flag kept in the browser's storage: the stored entry, when it
   parses to an object, gives its `readOnly` field; otherwise editing is
   allowed. `stored` is the parsed entry (`None` for a missing one) and its
   field.
   */
  function ReadOnly(stored: Option<Option<bool>>): (ro: bool)
    ensures ro <==> stored == Some(Some(true))
  {
    stored.Some? && stored.value.GetOr(false)
  }

  /**
   `s.indexOf(c, from)`: the first position at or after `from` holding `c`,
   or -1 when there is none.
   */
  function IndexOfFrom(s: string, c: char, from: nat): (r: int)
    ensures r == -1 || from <= r < |s|
    ensures r == -1 ==> forall i :: from <= i < |s| ==> s[i] != c
    ensures r != -1 ==> s[r] == c && forall i :: from <= i < r ==> s[i] != c
    decreases |s| - from
  {
    if from >= |s| then -1
    else if s[from] == c then from
    else IndexOfFrom(s, c, from + 1)
  }

  /** A position with the defining property of `IndexOfFrom` is its result. */
  lemma IndexOfFromUnique(s: string, c: char, from: nat, r: int)
    requires r == -1 || (from <= r < |s| && s[r] == c)
    requires r == -1 ==> forall i :: from <= i < |s| ==> s[i] != c
    requires r != -1 ==> forall i :: from <= i < r ==> s[i] != c
    ensures IndexOfFrom(s, c, from) == r
  {
  }

  /** The position of the first `c` in `s`, which must occur. */
  function FirstIndex(s: string, c: char): (i: nat)
    requires c in s
    ensures i < |s| && s[i] == c && c !in s[..i]
  {
    var r := IndexOfFrom(s, c, 0);
    assert r != -1 by {
      var k :| 0 <= k < |s| && s[k] == c;
    }
    assert forall j :: 0 <= j < r ==> s[..r][j] != c;
    r
  }

  /** The pieces of a split glued back together with the separator. */
  function Join(parts: seq<string>, sep: char): string
  {
    if |parts| == 0 then ""
    else if |parts| == 1 then parts[0]
    else parts[0] + [sep] + Join(parts[1..], sep)
  }

  /**
   `s.split(sep)` for a one-character separator: the maximal separator-free
   pieces of `s`, in order. Joining them gives `s` back.
   */
  function Split(s: string, sep: char): (parts: seq<string>)
    ensures |parts| >= 1
    ensures forall i :: 0 <= i < |parts| ==> sep !in parts[i]
    ensures Join(parts, sep) == s
    ensures sep in s <==> |parts| >= 2
    decreases |s|
  {
    if sep !in s then [s]
    else
      var i := FirstIndex(s, sep);
      var rest := Split(s[i + 1..], sep);
      assert s == s[..i] + [sep] + s[i + 1..];
      [s[..i]] + rest
  }

  /** The first two parts of a split and what follows them: nothing, or the separator and the remaining parts. */
  lemma SplitHead(s: string, sep: char)
    requires sep in s
    ensures var parts := Split(s, sep);
      var tail := if |parts| == 2 then "" else [sep] + Join(parts[2..], sep);
      s == parts[0] + [sep] + parts[1] + tail
  {
    var parts := Split(s, sep);
    assert parts[1..][1..] == parts[2..];
    if |parts| > 2 {
      var rest := Join(parts[2..], sep);
      assert Join(parts[1..], sep) == parts[1] + [sep] + rest;
      ConcatAssoc4(parts[0] + [sep], parts[1], [sep], rest);
    }
  }

  lemma ConcatAssoc4<T>(a: seq<T>, b: seq<T>, c: seq<T>, d: seq<T>)
    ensures a + (b + c + d) == a + b + (c + d)
  {
  }

  /** `s.repeat(n)`. */
  function Repeat(s: string, n: nat): (r: string)
    ensures |r| == n * |s|
    ensures forall i :: 0 <= i < |r| ==> r[i] in s
  {
    if n == 0 then "" else s + Repeat(s, n - 1)
  }

  /**
   `xs.map(f)` where `f` may throw: every result in order, or the error of the
   first element that throws.
   */
  function MapOrFail<A, B>(xs: seq<A>, f: A -> Result<B>): (r: Result<seq<B>>)
    ensures r.Success? <==> forall i :: 0 <= i < |xs| ==> f(xs[i]).Success?
    ensures r.Success? ==> |r.value| == |xs| && forall i :: 0 <= i < |xs| ==> r.value[i] == f(xs[i]).value
    ensures r.Failure? ==> exists i :: (
      && 0 <= i < |xs| && f(xs[i]) == Failure(r.error)
      && forall j :: 0 <= j < i ==> f(xs[j]).Success?)
    decreases |xs|
  {
    if |xs| == 0 then Success([])
    else
      match f(xs[0])
      case Failure(e) => Failure(e)
      case Success(y) =>
        var rest := MapOrFail(xs[1..], f);
        if rest.Failure? then
          var i :| && 0 <= i < |xs[1..]| && f(xs[1..][i]) == Failure(rest.error)
                   && forall j :: 0 <= j < i ==> f(xs[1..][j]).Success?;
          assert forall j :: 0 <= j < i + 1 ==> f(xs[j]).Success? by {
            forall j | 0 <= j < i + 1 ensures f(xs[j]).Success? {
              if j > 0 { assert xs[j] == xs[1..][j - 1]; }
            }
          }
          assert xs[i + 1] == xs[1..][i];
          Failure(rest.error)
        else
          Success([y] + rest.value)
  }

  /** `xs.filter(p)`: the elements satisfying `p`, in their original order. */
  function Filter<T>(xs: seq<T>, p: T -> bool): (r: seq<T>)
    ensures |r| <= |xs|
    ensures forall i :: 0 <= i < |r| ==> r[i] in xs && p(r[i])
    ensures forall i :: 0 <= i < |xs| && p(xs[i]) ==> xs[i] in r
  {
    if |xs| == 0 then []
    else if p(xs[0]) then [xs[0]] + Filter(xs[1..], p)
    else Filter(xs[1..], p)
  }

  /** Filtering distributes over concatenation, so the relative order of survivors is kept. */
  lemma {:induction false} FilterAppend<T>(xs: seq<T>, ys: seq<T>, p: T -> bool)
    ensures Filter(xs + ys, p) == Filter(xs, p) + Filter(ys, p)
    decreases |xs|
  {
    if |xs| == 0 {
      assert xs + ys == ys;
    } else {
      assert (xs + ys)[1..] == xs[1..] + ys;
      FilterAppend(xs[1..], ys, p);
    }
  }

  /** A sequence whose every element passes the predicate is its own filter. */
  lemma {:induction false} FilterAll<T>(xs: seq<T>, p: T -> bool)
    requires forall i :: 0 <= i < |xs| ==> p(xs[i])
    ensures Filter(xs, p) == xs
    decreases |xs|
  {
    if |xs| > 0 {
      FilterAll(xs[1..], p);
    }
  }

  /** A sequence none of whose elements passes the predicate filters to nothing. */
  lemma {:induction false} FilterNone<T>(xs: seq<T>, p: T -> bool)
    requires forall i :: 0 <= i < |xs| ==> !p(xs[i])
    ensures Filter(xs, p) == []
    decreases |xs|
  {
    if |xs| > 0 {
      FilterNone(xs[1..], p);
    }
  }

  /** Splitting a sequence by a predicate and its negation loses nothing and invents nothing. */
  lemma {:induction false} FilterComplementPermutation<T>(xs: seq<T>, p: T -> bool, q: T -> bool)
    requires forall x :: q(x) == !p(x)
    ensures multiset(Filter(xs, p) + Filter(xs, q)) == multiset(xs)
    ensures |Filter(xs, p)| + |Filter(xs, q)| == |xs|
    decreases |xs|
  {
    if |xs| > 0 {
      FilterComplementPermutation(xs[1..], p, q);
      assert xs == [xs[0]] + xs[1..];
    }
  }

  /** Decimal digits of a natural number, as `n.toString()` prints them. */
  function NatToString(n: nat): (s: string)
    ensures |s| >= 1
    ensures forall i :: 0 <= i < |s| ==> '0' <= s[i] <= '9'
    ensures n > 0 ==> s[0] != '0'
  {
    if n < 10 then [DigitChar(n)]
    else NatToString(n / 10) + [DigitChar(n % 10)]
  }

  function DigitChar(d: nat): (c: char)
    requires d < 10
    ensures '0' <= c <= '9'
    ensures c as int - '0' as int == d
  {
    (d + '0' as int) as char
  }

  /** The value of a string of decimal digits. */
  function DecimalValue(s: string): nat
    requires forall i :: 0 <= i < |s| ==> '0' <= s[i] <= '9'
  {
    if |s| == 0 then 0
    else 10 * DecimalValue(s[..|s| - 1]) + (s[|s| - 1] as int - '0' as int)
  }

  /** Reading the printed digits back gives the number. */
  lemma {:induction false} DecimalRoundTrip(n: nat)
    ensures DecimalValue(NatToString(n)) == n
  {
    if n >= 10 {
      var s := NatToString(n);
      assert s[..|s| - 1] == NatToString(n / 10);
      DecimalRoundTrip(n / 10);
    }
  }
}
