/** Branch-indexed arrays. A tree with `nbnodes` nodes has `nbnodes - 1`
 *  branches, indexed from 0. A selector gives read access to one value
 *  per branch; an array also gives write access; the homogeneous
 *  selector returns one shared value for every branch; the simple array
 *  stores its values in a vector. The tree itself is outside this model:
 *  only its node count is kept. */
module BranchArrays {
  import opened Wrappers
  import opened Streams

  /** How element values travel through a text stream: one value token
   *  per element. `Faithful` says that reading back a written element
   *  gives that element. */
  datatype Codec<!T> = Codec(put: T -> Token, get: Token -> Option<T>)

  ghost predicate Faithful<T(!new)>(c: Codec<T>)
  {
    forall x: T :: IsValue(c.put(x)) && c.get(c.put(x)) == Some(x)
  }

  /** Doubles travel as real tokens. */
  function RealCodec(): Codec<real>
  {
    Codec((x: real) => Real(x), (t: Token) => if t.Real? then Some(t.r) else None)
  }

  lemma RealCodecFaithful()
    ensures Faithful(RealCodec())
  {
  }

  function Encode<T>(c: Codec<T>, v: seq<T>): (r: seq<Token>)
    ensures |r| == |v|
    ensures forall i :: 0 <= i < |v| ==> r[i] == c.put(v[i])
  {
    seq(|v|, i requires 0 <= i < |v| => c.put(v[i]))
  }

  /** BranchSelector::ToStream: every value followed by a tab. */
  function SelectorText<T>(c: Codec<T>, v: seq<T>): seq<Token>
  {
    Tabbed(Encode(c, v))
  }

  /** Reads `n` elements from a stream with its separators removed. */
  function Decode<T>(c: Codec<T>, n: nat, s: seq<Token>): (r: Option<(seq<T>, seq<Token>)>)
    ensures r.Some? ==> |r.value.0| == n
    decreases n
  {
    if n == 0 then Some(([], s))
    else if s == [] then None
    else match c.get(s[0])
      case None => None
      case Some(x) =>
        match Decode(c, n - 1, s[1..])
        case None => None
        case Some((v, rest)) => Some(([x] + v, rest))
  }

  lemma {:induction false} DecodeEncode<T(!new)>(c: Codec<T>, v: seq<T>, rest: seq<Token>)
    requires Faithful(c)
    ensures Decode(c, |v|, Encode(c, v) + rest) == Some((v, rest))
    decreases |v|
  {
    if v != [] {
      var s := Encode(c, v) + rest;
      assert c.get(s[0]) == Some(v[0]);
      assert s[1..] == Encode(c, v[1..]) + rest;
      DecodeEncode(c, v[1..], rest);
      assert [v[0]] + v[1..] == v;
    } else {
      assert Encode(c, v) + rest == rest;
    }
  }

  /** Reading back what ToStream wrote restores the values. */
  lemma SelectorRoundTrip<T(!new)>(c: Codec<T>, v: seq<T>)
    requires Faithful(c)
    ensures Decode(c, |v|, Strip(SelectorText(c, v))) == Some((v, []))
  {
    StripTabbed(Encode(c, v));
    DecodeEncode(c, v, []);
    assert Encode(c, v) + [] == Encode(c, v);
  }

  /** BranchHomogeneousSelector: the same value for every branch. */
  class BranchHomogeneousSelector<T> {
    const nbnodes: int
    const value: T

    constructor (nbnodes: int, value: T)
      ensures this.nbnodes == nbnodes && this.value == value
    {
      this.nbnodes, this.value := nbnodes, value;
    }

    function GetNbranch(): int
    {
      nbnodes - 1
    }

    /** Any index, in range or not, gives the shared value. */
    function GetVal(index: int): (r: T)
      ensures r == value
    {
      value
    }

    /** The values as a selector shows them, one per branch. */
    function Values(): (r: seq<T>)
      requires GetNbranch() >= 0
      ensures |r| == GetNbranch()
      ensures forall i :: 0 <= i < |r| ==> r[i] == GetVal(i)
    {
      seq(GetNbranch(), i => value)
    }

    method ToStream(c: Codec<T>) returns (os: seq<Token>)
      requires GetNbranch() >= 0
      ensures os == SelectorText(c, Values())
    {
      os := [];
      for i := 0 to GetNbranch()
        invariant os == SelectorText(c, Values()[..i])
      {
        TabbedAppend(Encode(c, Values()[..i]), [c.put(GetVal(i))]);
        assert Encode(c, Values()[..i + 1]) == Encode(c, Values()[..i]) + [c.put(GetVal(i))];
        assert Tabbed([c.put(GetVal(i))]) == [c.put(GetVal(i)), Tab] by {
          assert [c.put(GetVal(i))][1..] == [];
        }
        os := os + [c.put(GetVal(i)), Tab];
      }
      assert Values()[..GetNbranch()] == Values();
    }
  }

  /** SimpleBranchArray: the values in a vector (`vec`). */
  class SimpleBranchArray<T> {
    const nbnodes: int
    var vec: seq<T>

    /** The tree-and-value constructor: one copy of `initval` per branch.
     *  (The tree-only constructor is the same with T's default value.) */
    constructor (nbnodes: int, initval: T)
      requires nbnodes >= 1
      ensures this.nbnodes == nbnodes
      ensures |vec| == GetNbranch()
      ensures forall i :: 0 <= i < |vec| ==> vec[i] == initval
    {
      this.nbnodes := nbnodes;
      vec := seq(nbnodes - 1, i => initval);
    }

    /** The tree-and-vector constructor: the vector is first sized to the
     *  tree and then replaced, so the vector is `initvals`, whatever its
     *  length. */
    constructor FromValues(nbnodes: int, initvals: seq<T>)
      requires nbnodes >= 1
      ensures this.nbnodes == nbnodes && vec == initvals
    {
      this.nbnodes := nbnodes;
      vec := initvals;
    }

    function GetNbranch(): (r: int)
      ensures r + 1 == nbnodes
    {
      nbnodes - 1
    }

    function Size(): nat
      reads this
    {
      |vec|
    }

    function GetVal(index: int): T
      reads this
      requires 0 <= index < |vec|
    {
      vec[index]
    }

    /** A write through operator[]: the next GetVal of that index sees the
     *  new value, and no other element changes. */
    method Set(index: int, v: T)
      requires 0 <= index < |vec|
      modifies this`vec
      ensures vec == old(vec)[index := v]
      ensures GetVal(index) == v
      ensures forall j :: 0 <= j < |vec| && j != index ==> GetVal(j) == old(GetVal(j))
    {
      vec := vec[index := v];
    }

    /** Copy from another selector, given by the values it shows: fatal
     *  when the branch counts differ, else the first GetNbranch elements
     *  become the source's values and the rest is left alone. */
    method Copy(from: seq<T>) returns (r: Result<()>)
      requires GetNbranch() <= |vec|
      modifies this`vec
      ensures r.Fatal? <==> |from| != GetNbranch()
      ensures r.Fatal? ==> vec == old(vec)
      ensures r.Ok? ==> |vec| == old(|vec|) && vec[..GetNbranch()] == from && vec[GetNbranch()..] == old(vec[GetNbranch()..])
    {
      if GetNbranch() != |from| {
        return Fatal("error: branch arrays do not have same size");
      }
      ghost var a0 := vec;
      for i := 0 to GetNbranch()
        invariant |vec| == |a0|
        invariant forall j :: 0 <= j < i ==> vec[j] == from[j]
        invariant forall j :: i <= j < |vec| ==> vec[j] == a0[j]
      {
        Set(i, from[i]);
      }
      r := Ok(());
    }

    /** operator=: the whole vector is replaced by the other's. */
    method Assign(from: SimpleBranchArray<T>)
      modifies this`vec
      ensures vec == old(from.vec)
    {
      vec := from.vec;
    }

    method ToStream(c: Codec<T>) returns (os: seq<Token>)
      requires 0 <= GetNbranch() <= |vec|
      ensures os == SelectorText(c, vec[..GetNbranch()])
    {
      os := [];
      for i := 0 to GetNbranch()
        invariant os == SelectorText(c, vec[..i])
      {
        TabbedAppend(Encode(c, vec[..i]), [c.put(GetVal(i))]);
        assert Encode(c, vec[..i + 1]) == Encode(c, vec[..i]) + [c.put(GetVal(i))];
        assert Tabbed([c.put(GetVal(i))]) == [c.put(GetVal(i)), Tab] by {
          assert [c.put(GetVal(i))][1..] == [];
        }
        os := os + [c.put(GetVal(i)), Tab];
      }
    }

    /** FromStream: reads GetNbranch elements in index order into the
     *  first GetNbranch positions. A stream that runs short or holds a
     *  token of the wrong kind is reported, and the vector is kept. */
    method FromStream(c: Codec<T>, input: seq<Token>) returns (ok: bool)
      requires 0 <= GetNbranch() <= |vec|
      modifies this`vec
      ensures ok == Decode(c, GetNbranch(), Strip(input)).Some?
      ensures ok ==> |vec| == old(|vec|) && vec[..GetNbranch()] == Decode(c, GetNbranch(), Strip(input)).value.0
      ensures ok ==> vec[GetNbranch()..] == old(vec[GetNbranch()..])
      ensures !ok ==> vec == old(vec)
    {
      var r := Decode(c, GetNbranch(), Strip(input));
      if r.None? {
        return false;
      }
      var v := r.value.0;
      ghost var a0 := vec;
      for i := 0 to GetNbranch()
        invariant |vec| == |a0|
        invariant forall j :: 0 <= j < i ==> vec[j] == v[j]
        invariant forall j :: i <= j < |vec| ==> vec[j] == a0[j]
      {
        Set(i, v[i]);
      }
      ok := true;
    }
  }

  /** Writing an array and reading the text back into an array over the
   *  same tree restores its branch values. */
  lemma ArrayRoundTrip<T(!new)>(c: Codec<T>, a: seq<T>, nbranch: nat)
    requires Faithful(c) && nbranch <= |a|
    ensures Decode(c, nbranch, Strip(SelectorText(c, a[..nbranch]))) == Some((a[..nbranch], []))
  {
    SelectorRoundTrip(c, a[..nbranch]);
  }
}
