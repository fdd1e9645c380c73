/** Value streams. Text streams and message buffers are both modelled as a
 *  sequence of typed tokens. Text streams also carry separator tokens; every
 *  formatted read skips leading whitespace, so reading a text stream is
 *  reading the same stream with its separators removed (`Strip`). */
module Streams {
  import opened Wrappers

  datatype Token = Real(r: real) | Int(i: int) | Tab | Newline

  predicate IsValue(t: Token) { t.Real? || t.Int? }

  predicate AllValues(s: seq<Token>)
  {
    forall i :: 0 <= i < |s| ==> IsValue(s[i])
  }

  lemma AllValuesConcat(a: seq<Token>, b: seq<Token>)
    requires AllValues(a) && AllValues(b)
    ensures AllValues(a + b)
  {
  }

  /** The stream as the reader sees it: separators dropped. */
  function Strip(s: seq<Token>): (r: seq<Token>)
    ensures AllValues(r)
    ensures |r| <= |s|
  {
    if s == [] then [] else (if IsValue(s[0]) then [s[0]] else []) + Strip(s[1..])
  }

  lemma {:induction false} StripAppend(a: seq<Token>, b: seq<Token>)
    ensures Strip(a + b) == Strip(a) + Strip(b)
    decreases |a|
  {
    if a != [] {
      assert (a + b)[1..] == a[1..] + b;
      StripAppend(a[1..], b);
    } else {
      assert a + b == b;
    }
  }

  lemma {:induction false} StripValues(a: seq<Token>)
    requires AllValues(a)
    ensures Strip(a) == a
    decreases |a|
  {
    if a != [] {
      StripValues(a[1..]);
    }
  }

  function RealTokens(v: seq<real>): (r: seq<Token>)
    ensures |r| == |v| && AllValues(r)
    ensures forall i :: 0 <= i < |v| ==> r[i] == Real(v[i])
  {
    seq(|v|, i requires 0 <= i < |v| => Real(v[i]))
  }

  function IntTokens(v: seq<int>): (r: seq<Token>)
    ensures |r| == |v| && AllValues(r)
    ensures forall i :: 0 <= i < |v| ==> r[i] == Int(v[i])
  {
    seq(|v|, i requires 0 <= i < |v| => Int(v[i]))
  }

  /** A matrix written row after row. */
  function RowTokens(m: seq<seq<real>>): (r: seq<Token>)
    ensures AllValues(r)
  {
    if m == [] then [] else RealTokens(m[0]) + RowTokens(m[1..])
  }

  function IntRowTokens(m: seq<seq<int>>): (r: seq<Token>)
    ensures AllValues(r)
  {
    if m == [] then [] else IntTokens(m[0]) + IntRowTokens(m[1..])
  }

  /** Text form: every value followed by a tab. */
  function Tabbed(v: seq<Token>): (r: seq<Token>)
    ensures |r| == 2 * |v|
  {
    if v == [] then [] else [v[0], Tab] + Tabbed(v[1..])
  }

  lemma {:induction false} StripTabbed(v: seq<Token>)
    requires AllValues(v)
    ensures Strip(Tabbed(v)) == v
    decreases |v|
  {
    if v != [] {
      var t := Tabbed(v[1..]);
      assert Tabbed(v) == [v[0], Tab] + t;
      assert Strip(t) == v[1..] by {
        StripTabbed(v[1..]);
      }
      assert Strip([v[0], Tab]) == [v[0]] by {
        assert [v[0], Tab][1..] == [Tab];
        assert [Tab][1..] == [];
      }
      assert Strip([v[0], Tab] + t) == Strip([v[0], Tab]) + Strip(t) by {
        StripAppend([v[0], Tab], t);
      }
      assert [v[0]] + v[1..] == v;
    }
  }

  lemma {:induction false} TabbedAppend(a: seq<Token>, b: seq<Token>)
    ensures Tabbed(a + b) == Tabbed(a) + Tabbed(b)
    decreases |a|
  {
    if a == [] {
      assert a + b == b;
    } else {
      assert (a + b)[1..] == a[1..] + b;
      TabbedAppend(a[1..], b);
    }
  }

  /** A vector field of a text stream: its values, each followed by a tab,
   *  and one more tab after the field. */
  function Field(v: seq<Token>): (r: seq<Token>)
    ensures |r| == 2 * |v| + 1
  {
    Tabbed(v) + [Tab]
  }

  lemma StripField(v: seq<Token>)
    requires AllValues(v)
    ensures Strip(Field(v)) == v
  {
    StripTabbed(v);
    StripAppend(Tabbed(v), [Tab]);
    assert [Tab][1..] == [];
  }

  /** A scalar field of a text stream: the value and one tab. */
  lemma StripScalar(x: Token)
    requires IsValue(x)
    ensures Strip(Tabbed([x])) == [x]
  {
    StripTabbed([x]);
  }

  /** Stripping a concatenation, when both halves are already known. */
  lemma StripThen(a: seq<Token>, b: seq<Token>, va: seq<Token>, vb: seq<Token>)
    requires Strip(a) == va && Strip(b) == vb
    ensures Strip(a + b) == va + vb
  {
    StripAppend(a, b);
  }

  /** Writes the values of `v` to a text stream, each followed by a tab. */
  method WriteValues(os: seq<Token>, v: seq<Token>) returns (os': seq<Token>)
    ensures os' == os + Tabbed(v)
  {
    os' := os;
    for i := 0 to |v|
      invariant os' == os + Tabbed(v[..i])
    {
      TabbedAppend(v[..i], [v[i]]);
      assert v[..i + 1] == v[..i] + [v[i]];
      os' := os' + [v[i], Tab];
    }
    assert v[..|v|] == v;
  }

  /** Writes a vector field: its values, then the tab that follows it. */
  method WriteField(os: seq<Token>, v: seq<Token>) returns (os': seq<Token>)
    ensures os' == os + Field(v)
  {
    os' := WriteValues(os, v);
    os' := os' + [Tab];
  }

  function ReadReal(s: seq<Token>): Option<(real, seq<Token>)>
  {
    if s != [] && s[0].Real? then Some((s[0].r, s[1..])) else None
  }

  function ReadInt(s: seq<Token>): Option<(int, seq<Token>)>
  {
    if s != [] && s[0].Int? then Some((s[0].i, s[1..])) else None
  }

  function ReadReals(n: nat, s: seq<Token>): (r: Option<(seq<real>, seq<Token>)>)
    ensures r.Some? ==> |r.value.0| == n
    decreases n
  {
    if n == 0 then Some(([], s))
    else match ReadReal(s)
      case None => None
      case Some((x, s')) =>
        match ReadReals(n - 1, s')
        case None => None
        case Some((v, s'')) => Some(([x] + v, s''))
  }

  function ReadInts(n: nat, s: seq<Token>): (r: Option<(seq<int>, seq<Token>)>)
    ensures r.Some? ==> |r.value.0| == n
    decreases n
  {
    if n == 0 then Some(([], s))
    else match ReadInt(s)
      case None => None
      case Some((x, s')) =>
        match ReadInts(n - 1, s')
        case None => None
        case Some((v, s'')) => Some(([x] + v, s''))
  }

  /** Reads `nrow` rows of `ncol` values each. */
  function ReadRows(nrow: nat, ncol: nat, s: seq<Token>): (r: Option<(seq<seq<real>>, seq<Token>)>)
    ensures r.Some? ==> |r.value.0| == nrow
    decreases nrow
  {
    if nrow == 0 then Some(([], s))
    else match ReadReals(ncol, s)
      case None => None
      case Some((row, s')) =>
        match ReadRows(nrow - 1, ncol, s')
        case None => None
        case Some((m, s'')) => Some(([row] + m, s''))
  }

  function ReadIntRows(nrow: nat, ncol: nat, s: seq<Token>): (r: Option<(seq<seq<int>>, seq<Token>)>)
    ensures r.Some? ==> |r.value.0| == nrow
    decreases nrow
  {
    if nrow == 0 then Some(([], s))
    else match ReadInts(ncol, s)
      case None => None
      case Some((row, s')) =>
        match ReadIntRows(nrow - 1, ncol, s')
        case None => None
        case Some((m, s'')) => Some(([row] + m, s''))
  }

  predicate Rectangular<T>(m: seq<seq<T>>, ncol: nat)
  {
    forall i :: 0 <= i < |m| ==> |m[i]| == ncol
  }

  lemma {:induction false} ReadRealsRoundTrip(v: seq<real>, rest: seq<Token>)
    ensures ReadReals(|v|, RealTokens(v) + rest) == Some((v, rest))
    decreases |v|
  {
    if v != [] {
      assert (RealTokens(v) + rest)[1..] == RealTokens(v[1..]) + rest;
      ReadRealsRoundTrip(v[1..], rest);
      assert [v[0]] + v[1..] == v;
    } else {
      assert RealTokens(v) + rest == rest;
    }
  }

  lemma {:induction false} ReadIntsRoundTrip(v: seq<int>, rest: seq<Token>)
    ensures ReadInts(|v|, IntTokens(v) + rest) == Some((v, rest))
    decreases |v|
  {
    if v != [] {
      assert (IntTokens(v) + rest)[1..] == IntTokens(v[1..]) + rest;
      ReadIntsRoundTrip(v[1..], rest);
      assert [v[0]] + v[1..] == v;
    } else {
      assert IntTokens(v) + rest == rest;
    }
  }

  lemma {:induction false} ReadRowsRoundTrip(m: seq<seq<real>>, ncol: nat, rest: seq<Token>)
    requires Rectangular(m, ncol)
    ensures ReadRows(|m|, ncol, RowTokens(m) + rest) == Some((m, rest))
    decreases |m|
  {
    if m != [] {
      assert RowTokens(m) + rest == RealTokens(m[0]) + (RowTokens(m[1..]) + rest);
      ReadRealsRoundTrip(m[0], RowTokens(m[1..]) + rest);
      ReadRowsRoundTrip(m[1..], ncol, rest);
      assert [m[0]] + m[1..] == m;
    } else {
      assert RowTokens(m) + rest == rest;
    }
  }

  lemma {:induction false} ReadIntRowsRoundTrip(m: seq<seq<int>>, ncol: nat, rest: seq<Token>)
    requires Rectangular(m, ncol)
    ensures ReadIntRows(|m|, ncol, IntRowTokens(m) + rest) == Some((m, rest))
    decreases |m|
  {
    if m != [] {
      assert IntRowTokens(m) + rest == IntTokens(m[0]) + (IntRowTokens(m[1..]) + rest);
      ReadIntsRoundTrip(m[0], IntRowTokens(m[1..]) + rest);
      ReadIntRowsRoundTrip(m[1..], ncol, rest);
      assert [m[0]] + m[1..] == m;
    } else {
      assert IntRowTokens(m) + rest == rest;
    }
  }

  /** A stream shorter than the values asked for cannot be read. */
  lemma {:induction false} ReadRealsShort(n: nat, s: seq<Token>)
    requires |s| < n
    ensures ReadReals(n, s) == None
    decreases n
  {
    if s != [] && s[0].Real? {
      ReadRealsShort(n - 1, s[1..]);
    }
  }

  lemma MulPred(a: nat, b: nat)
    requires a > 0
    ensures a * b == (a - 1) * b + b
  {
  }

  lemma {:induction false} RowTokensLength(m: seq<seq<real>>, ncol: nat)
    requires Rectangular(m, ncol)
    ensures |RowTokens(m)| == |m| * ncol
    decreases |m|
  {
    if m != [] {
      RowTokensLength(m[1..], ncol);
      MulPred(|m|, ncol);
    }
  }

  lemma {:induction false} IntRowTokensLength(m: seq<seq<int>>, ncol: nat)
    requires Rectangular(m, ncol)
    ensures |IntRowTokens(m)| == |m| * ncol
    decreases |m|
  {
    if m != [] {
      IntRowTokensLength(m[1..], ncol);
      MulPred(|m|, ncol);
    }
  }
}
