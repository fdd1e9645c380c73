/** Checkpoint layout of AAMutSelDSBDPOmegaModel (ToStream/FromStream and
 *  MPIPut/MPIGet/GetMPISize). Every group of fields is written and read
 *  under a mode gate: a mode below 2 means the parameter is free in this
 *  model and therefore saved. */
module AAMutSelStream {
  import opened Wrappers
  import opened Streams

  const Naa: nat := 20

  datatype Modes = Modes(blmode: int, nucmode: int, basemode: int, omegamode: int)

  /** The saved parameters, in the order the model writes them. The stick-
   *  breaking weights are kept as one vector of values each. */
  datatype Params = Params(
    lambda: real, branchlength: seq<real>,
    nucrelrate: seq<real>, nucstat: seq<real>,
    basekappa: real, baseweight: seq<real>, componentalloc: seq<int>,
    basecenter: seq<seq<real>>, baseconc: seq<real>,
    kappa: real, weight: seq<real>, fitness: seq<seq<real>>, sitealloc: seq<int>,
    omega: real)

  /** A reader whose vectors have the sizes of `t` can read what a writer
   *  holding `p` wrote. */
  predicate SameShape(t: Params, p: Params)
  {
    && |t.branchlength| == |p.branchlength|
    && |t.nucrelrate| == |p.nucrelrate| && |t.nucstat| == |p.nucstat|
    && |t.baseweight| == |p.baseweight| && |t.componentalloc| == |p.componentalloc|
    && |t.basecenter| == |p.basecenter| && Rectangular(p.basecenter, Naa)
    && |t.baseconc| == |p.baseconc|
    && |t.weight| == |p.weight|
    && |t.fitness| == |p.fitness| && Rectangular(p.fitness, Naa)
    && |t.sitealloc| == |p.sitealloc|
  }

  function BranchValues(p: Params, m: Modes): seq<Token>
  {
    if m.blmode < 2 then [Real(p.lambda)] + RealTokens(p.branchlength) else []
  }

  function NucValues(p: Params, m: Modes): seq<Token>
  {
    if m.nucmode < 2 then RealTokens(p.nucrelrate) + RealTokens(p.nucstat) else []
  }

  function BaseValues(p: Params, m: Modes): seq<Token>
  {
    if m.basemode < 2 then
      [Real(p.basekappa)] + RealTokens(p.baseweight) + IntTokens(p.componentalloc)
      + RowTokens(p.basecenter) + RealTokens(p.baseconc)
    else []
  }

  function MixtureValues(p: Params): seq<Token>
  {
    [Real(p.kappa)] + RealTokens(p.weight) + RowTokens(p.fitness) + IntTokens(p.sitealloc)
  }

  /** Everything before the omega field. */
  function CoreValues(p: Params, m: Modes): seq<Token>
  {
    BranchValues(p, m) + NucValues(p, m) + BaseValues(p, m) + MixtureValues(p)
  }

  /** The values the writer emits when its omega gate is `withOmega`. */
  function Layout(p: Params, m: Modes, withOmega: bool): seq<Token>
  {
    CoreValues(p, m) + (if withOmega then [Real(p.omega)] else [])
  }

  /** The writer as the source has it: omega is saved when its VALUE is
   *  below 2. */
  function PutValuesAsWritten(p: Params, m: Modes): seq<Token>
  {
    Layout(p, m, p.omega < 2.0)
  }

  /** The writer with the gate the reader uses: omega is saved when
   *  `omegamode < 2`. */
  function PutValues(p: Params, m: Modes): seq<Token>
  {
    Layout(p, m, m.omegamode < 2)
  }

  // Text form. A scalar is written with one tab after it; a vector field
  // is written value by value, each followed by a tab, and the writer adds
  // one more tab after it. The stick-breaking weights are written by the
  // weight object itself, with no tab added after them.

  function BranchText(p: Params, m: Modes): seq<Token>
  {
    if m.blmode < 2 then Tabbed([Real(p.lambda)]) + Field(RealTokens(p.branchlength)) else []
  }

  function NucText(p: Params, m: Modes): seq<Token>
  {
    if m.nucmode < 2 then Field(RealTokens(p.nucrelrate)) + Field(RealTokens(p.nucstat)) else []
  }

  function BaseText(p: Params, m: Modes): seq<Token>
  {
    if m.basemode < 2 then
      Tabbed([Real(p.basekappa)]) + Tabbed(RealTokens(p.baseweight)) + Field(IntTokens(p.componentalloc))
      + Field(RowTokens(p.basecenter)) + Field(RealTokens(p.baseconc))
    else []
  }

  function MixtureText(p: Params): seq<Token>
  {
    Tabbed([Real(p.kappa)]) + Tabbed(RealTokens(p.weight)) + Field(RowTokens(p.fitness)) + Field(IntTokens(p.sitealloc))
  }

  // Writers of the text groups, field by field.

  method WriteBranchText(p: Params, m: Modes) returns (os: seq<Token>)
    ensures os == BranchText(p, m)
  {
    os := [];
    if m.blmode < 2 {
      os := WriteValues(os, [Real(p.lambda)]);
      os := WriteField(os, RealTokens(p.branchlength));
    }
  }

  method WriteNucText(p: Params, m: Modes) returns (os: seq<Token>)
    ensures os == NucText(p, m)
  {
    os := [];
    if m.nucmode < 2 {
      os := WriteField(os, RealTokens(p.nucrelrate));
      os := WriteField(os, RealTokens(p.nucstat));
    }
  }

  method WriteBaseText(p: Params, m: Modes) returns (os: seq<Token>)
    ensures os == BaseText(p, m)
  {
    os := [];
    if m.basemode < 2 {
      os := WriteValues(os, [Real(p.basekappa)]);
      os := WriteValues(os, RealTokens(p.baseweight));
      os := WriteField(os, IntTokens(p.componentalloc));
      os := WriteField(os, RowTokens(p.basecenter));
      os := WriteField(os, RealTokens(p.baseconc));
    }
  }

  method WriteMixtureText(p: Params) returns (os: seq<Token>)
    ensures os == MixtureText(p)
  {
    os := WriteValues([], [Real(p.kappa)]);
    os := WriteValues(os, RealTokens(p.weight));
    os := WriteField(os, RowTokens(p.fitness));
    os := WriteField(os, IntTokens(p.sitealloc));
  }

  /** The text the writer emits when its omega gate is `withOmega`. */
  function TextLayout(p: Params, m: Modes, withOmega: bool): seq<Token>
  {
    BranchText(p, m) + NucText(p, m) + BaseText(p, m) + MixtureText(p)
    + (if withOmega then Tabbed([Real(p.omega)]) else [])
  }

  /** ToStream as the source has it: omega is written when its value is
   *  below 2. */
  function StreamTextAsWritten(p: Params, m: Modes): seq<Token>
  {
    TextLayout(p, m, p.omega < 2.0)
  }

  /** ToStream with the gate the reader uses. */
  function StreamText(p: Params, m: Modes): seq<Token>
  {
    TextLayout(p, m, m.omegamode < 2)
  }

  /** Buffer size, field by field, when the omega gate is `withOmega`. */
  function SizeLayout(p: Params, m: Modes, withOmega: bool): nat
  {
    (if m.blmode < 2 then 1 + |p.branchlength| else 0)
    + (if m.nucmode < 2 then |p.nucrelrate| + |p.nucstat| else 0)
    + (if m.basemode < 2 then 1 + |p.baseweight| + |p.componentalloc| + |p.basecenter| * Naa + |p.baseconc| else 0)
    + 1 + |p.weight| + |p.fitness| * Naa + |p.sitealloc|
    + (if withOmega then 1 else 0)
  }

  /** Buffer size as the source counts it: omega counts when its value is
   *  below 2. */
  function MPISizeAsWritten(p: Params, m: Modes): nat
  {
    SizeLayout(p, m, p.omega < 2.0)
  }

  function MPISize(p: Params, m: Modes): nat
  {
    SizeLayout(p, m, m.omegamode < 2)
  }

  // Readers. Each group reads into a copy of the reader's current values
  // `t`, taking vector sizes from it.

  function ReadBranch(t: Params, m: Modes, s: seq<Token>): (r: Option<(Params, seq<Token>)>)
    ensures r.Some? ==> r.value.0 == t.(lambda := r.value.0.lambda, branchlength := r.value.0.branchlength)
  {
    if m.blmode < 2 then
      match ReadReal(s)
      case None => None
      case Some((lambda, s1)) =>
        match ReadReals(|t.branchlength|, s1)
        case None => None
        case Some((bl, s2)) => Some((t.(lambda := lambda, branchlength := bl), s2))
    else Some((t, s))
  }

  function ReadNuc(t: Params, m: Modes, s: seq<Token>): (r: Option<(Params, seq<Token>)>)
    ensures r.Some? ==> r.value.0 == t.(nucrelrate := r.value.0.nucrelrate, nucstat := r.value.0.nucstat)
  {
    if m.nucmode < 2 then
      match ReadReals(|t.nucrelrate|, s)
      case None => None
      case Some((rr, s1)) =>
        match ReadReals(|t.nucstat|, s1)
        case None => None
        case Some((st, s2)) => Some((t.(nucrelrate := rr, nucstat := st), s2))
    else Some((t, s))
  }

  function ReadBase(t: Params, m: Modes, s: seq<Token>): (r: Option<(Params, seq<Token>)>)
    ensures r.Some? ==> r.value.0 == t.(basekappa := r.value.0.basekappa, baseweight := r.value.0.baseweight,
      componentalloc := r.value.0.componentalloc, basecenter := r.value.0.basecenter, baseconc := r.value.0.baseconc)
  {
    if m.basemode < 2 then
      match ReadReal(s)
      case None => None
      case Some((bk, s1)) =>
        match ReadReals(|t.baseweight|, s1)
        case None => None
        case Some((bw, s2)) =>
          match ReadInts(|t.componentalloc|, s2)
          case None => None
          case Some((ca, s3)) =>
            match ReadRows(|t.basecenter|, Naa, s3)
            case None => None
            case Some((bc, s4)) =>
              match ReadReals(|t.baseconc|, s4)
              case None => None
              case Some((bz, s5)) =>
                Some((t.(basekappa := bk, baseweight := bw, componentalloc := ca,
                         basecenter := bc, baseconc := bz), s5))
    else Some((t, s))
  }

  function ReadMixture(t: Params, s: seq<Token>): (r: Option<(Params, seq<Token>)>)
    ensures r.Some? ==> r.value.0 == t.(kappa := r.value.0.kappa, weight := r.value.0.weight,
      fitness := r.value.0.fitness, sitealloc := r.value.0.sitealloc)
  {
    match ReadReal(s)
    case None => None
    case Some((k, s1)) =>
      match ReadReals(|t.weight|, s1)
      case None => None
      case Some((w, s2)) =>
        match ReadRows(|t.fitness|, Naa, s2)
        case None => None
        case Some((f, s3)) =>
          match ReadInts(|t.sitealloc|, s3)
          case None => None
          case Some((a, s4)) => Some((t.(kappa := k, weight := w, fitness := f, sitealloc := a), s4))
  }

  function ReadOmega(t: Params, m: Modes, s: seq<Token>): (r: Option<(Params, seq<Token>)>)
    ensures r.Some? ==> r.value.0 == t.(omega := r.value.0.omega)
  {
    if m.omegamode < 2 then
      match ReadReal(s)
      case None => None
      case Some((om, s1)) => Some((t.(omega := om), s1))
    else Some((t, s))
  }

  function ReadCore(t: Params, m: Modes, s: seq<Token>): Option<(Params, seq<Token>)>
  {
    match ReadBranch(t, m, s)
    case None => None
    case Some((t1, s1)) =>
      match ReadNuc(t1, m, s1)
      case None => None
      case Some((t2, s2)) =>
        match ReadBase(t2, m, s2)
        case None => None
        case Some((t3, s3)) => ReadMixture(t3, s3)
  }

  /** The reader (MPIGet, and FromStream once separators are skipped). */
  function GetValues(t: Params, m: Modes, s: seq<Token>): Option<(Params, seq<Token>)>
  {
    match ReadCore(t, m, s)
    case None => None
    case Some((t1, s1)) => ReadOmega(t1, m, s1)
  }

  /** What a reader holding `t` should hold after reading a writer holding
   *  `p`: every field of an open gate comes from `p`, the others stay. */
  function MergeCore(t: Params, p: Params, m: Modes): Params
  {
    var t1 := if m.blmode < 2 then t.(lambda := p.lambda, branchlength := p.branchlength) else t;
    var t2 := if m.nucmode < 2 then t1.(nucrelrate := p.nucrelrate, nucstat := p.nucstat) else t1;
    var t3 := if m.basemode < 2 then t2.(basekappa := p.basekappa, baseweight := p.baseweight,
                 componentalloc := p.componentalloc, basecenter := p.basecenter, baseconc := p.baseconc) else t2;
    t3.(kappa := p.kappa, weight := p.weight, fitness := p.fitness, sitealloc := p.sitealloc)
  }

  function Merge(t: Params, p: Params, m: Modes): Params
  {
    var c := MergeCore(t, p, m);
    if m.omegamode < 2 then c.(omega := p.omega) else c
  }

  lemma ReadBranchRoundTrip(t: Params, p: Params, m: Modes, rest: seq<Token>)
    requires |t.branchlength| == |p.branchlength|
    ensures ReadBranch(t, m, BranchValues(p, m) + rest)
         == Some((if m.blmode < 2 then t.(lambda := p.lambda, branchlength := p.branchlength) else t, rest))
  {
    if m.blmode < 2 {
      var s := BranchValues(p, m) + rest;
      assert s[1..] == RealTokens(p.branchlength) + rest;
      ReadRealsRoundTrip(p.branchlength, rest);
    } else {
      assert BranchValues(p, m) + rest == rest;
    }
  }

  lemma ReadNucRoundTrip(t: Params, p: Params, m: Modes, rest: seq<Token>)
    requires |t.nucrelrate| == |p.nucrelrate| && |t.nucstat| == |p.nucstat|
    ensures ReadNuc(t, m, NucValues(p, m) + rest)
         == Some((if m.nucmode < 2 then t.(nucrelrate := p.nucrelrate, nucstat := p.nucstat) else t, rest))
  {
    if m.nucmode < 2 {
      assert NucValues(p, m) + rest == RealTokens(p.nucrelrate) + (RealTokens(p.nucstat) + rest);
      ReadRealsRoundTrip(p.nucrelrate, RealTokens(p.nucstat) + rest);
      ReadRealsRoundTrip(p.nucstat, rest);
    } else {
      assert NucValues(p, m) + rest == rest;
    }
  }

  lemma ReadBaseRoundTrip(t: Params, p: Params, m: Modes, rest: seq<Token>)
    requires |t.baseweight| == |p.baseweight| && |t.componentalloc| == |p.componentalloc|
    requires |t.basecenter| == |p.basecenter| && Rectangular(p.basecenter, Naa)
    requires |t.baseconc| == |p.baseconc|
    ensures ReadBase(t, m, BaseValues(p, m) + rest)
         == Some((if m.basemode < 2 then t.(basekappa := p.basekappa, baseweight := p.baseweight,
                    componentalloc := p.componentalloc, basecenter := p.basecenter, baseconc := p.baseconc)
                  else t, rest))
  {
    if m.basemode < 2 {
      var r4 := RealTokens(p.baseconc) + rest;
      var r3 := RowTokens(p.basecenter) + r4;
      var r2 := IntTokens(p.componentalloc) + r3;
      var r1 := RealTokens(p.baseweight) + r2;
      assert BaseValues(p, m) + rest == [Real(p.basekappa)] + r1;
      assert ([Real(p.basekappa)] + r1)[1..] == r1;
      ReadRealsRoundTrip(p.baseweight, r2);
      ReadIntsRoundTrip(p.componentalloc, r3);
      ReadRowsRoundTrip(p.basecenter, Naa, r4);
      ReadRealsRoundTrip(p.baseconc, rest);
    } else {
      assert BaseValues(p, m) + rest == rest;
    }
  }

  lemma ReadMixtureRoundTrip(t: Params, p: Params, rest: seq<Token>)
    requires |t.weight| == |p.weight| && |t.fitness| == |p.fitness| && Rectangular(p.fitness, Naa)
    requires |t.sitealloc| == |p.sitealloc|
    ensures ReadMixture(t, MixtureValues(p) + rest)
         == Some((t.(kappa := p.kappa, weight := p.weight, fitness := p.fitness, sitealloc := p.sitealloc), rest))
  {
    var r3 := IntTokens(p.sitealloc) + rest;
    var r2 := RowTokens(p.fitness) + r3;
    var r1 := RealTokens(p.weight) + r2;
    assert MixtureValues(p) + rest == [Real(p.kappa)] + r1;
    assert ([Real(p.kappa)] + r1)[1..] == r1;
    ReadRealsRoundTrip(p.weight, r2);
    ReadRowsRoundTrip(p.fitness, Naa, r3);
    ReadIntsRoundTrip(p.sitealloc, rest);
  }

  /** Everything up to omega reads back whatever follows it. */
  lemma ReadCoreRoundTrip(t: Params, p: Params, m: Modes, rest: seq<Token>)
    requires SameShape(t, p)
    ensures ReadCore(t, m, CoreValues(p, m) + rest) == Some((MergeCore(t, p, m), rest))
  {
    var r3 := MixtureValues(p) + rest;
    var r2 := BaseValues(p, m) + r3;
    var r1 := NucValues(p, m) + r2;
    assert CoreValues(p, m) + rest == BranchValues(p, m) + r1;
    ReadBranchRoundTrip(t, p, m, r1);
    var t1 := if m.blmode < 2 then t.(lambda := p.lambda, branchlength := p.branchlength) else t;
    ReadNucRoundTrip(t1, p, m, r2);
    var t2 := if m.nucmode < 2 then t1.(nucrelrate := p.nucrelrate, nucstat := p.nucstat) else t1;
    ReadBaseRoundTrip(t2, p, m, r3);
    var t3 := if m.basemode < 2 then t2.(basekappa := p.basekappa, baseweight := p.baseweight,
                 componentalloc := p.componentalloc, basecenter := p.basecenter, baseconc := p.baseconc) else t2;
    ReadMixtureRoundTrip(t3, p, rest);
  }

  /** With the writer's omega gate equal to the reader's, MPIGet after MPIPut
   *  restores every saved field and consumes exactly what was written. */
  lemma RoundTrip(t: Params, p: Params, m: Modes, rest: seq<Token>)
    requires SameShape(t, p)
    ensures GetValues(t, m, PutValues(p, m) + rest) == Some((Merge(t, p, m), rest))
  {
    var tail := (if m.omegamode < 2 then [Real(p.omega)] else []) + rest;
    assert PutValues(p, m) + rest == CoreValues(p, m) + tail;
    ReadCoreRoundTrip(t, p, m, tail);
    var c := MergeCore(t, p, m);
    assert GetValues(t, m, CoreValues(p, m) + tail) == ReadOmega(c, m, tail);
    if m.omegamode < 2 {
      assert tail[0] == Real(p.omega) && tail[1..] == rest;
      assert ReadReal(tail) == Some((p.omega, rest));
    } else {
      assert tail == rest;
    }
  }

  lemma PutValuesAreValues(p: Params, m: Modes)
    ensures AllValues(PutValues(p, m))
  {
    var b, n, c, x := BranchValues(p, m), NucValues(p, m), BaseValues(p, m), MixtureValues(p);
    AllValuesConcat(RealTokens(p.nucrelrate), RealTokens(p.nucstat));
    AllValuesConcat([Real(p.lambda)], RealTokens(p.branchlength));
    AllValuesConcat([Real(p.basekappa)], RealTokens(p.baseweight));
    AllValuesConcat([Real(p.basekappa)] + RealTokens(p.baseweight), IntTokens(p.componentalloc));
    AllValuesConcat([Real(p.basekappa)] + RealTokens(p.baseweight) + IntTokens(p.componentalloc), RowTokens(p.basecenter));
    AllValuesConcat([Real(p.basekappa)] + RealTokens(p.baseweight) + IntTokens(p.componentalloc) + RowTokens(p.basecenter), RealTokens(p.baseconc));
    AllValuesConcat([Real(p.kappa)], RealTokens(p.weight));
    AllValuesConcat([Real(p.kappa)] + RealTokens(p.weight), RowTokens(p.fitness));
    AllValuesConcat([Real(p.kappa)] + RealTokens(p.weight) + RowTokens(p.fitness), IntTokens(p.sitealloc));
    assert AllValues(b) && AllValues(n) && AllValues(c) && AllValues(x);
    AllValuesConcat(b, n);
    AllValuesConcat(b + n, c);
    AllValuesConcat(b + n + c, x);
    AllValuesConcat(CoreValues(p, m), if m.omegamode < 2 then [Real(p.omega)] else []);
  }

  /** The text stream reads back the same way once its separators are
   *  skipped. */
  lemma StreamRoundTrip(t: Params, p: Params, m: Modes)
    requires SameShape(t, p)
    ensures GetValues(t, m, Strip(StreamText(p, m))) == Some((Merge(t, p, m), []))
  {
    var v := PutValues(p, m);
    TextLayoutStrip(p, m, m.omegamode < 2);
    RoundTrip(t, p, m, []);
    assert v + [] == v;
  }

  lemma StripBranchText(p: Params, m: Modes)
    ensures Strip(BranchText(p, m)) == BranchValues(p, m)
  {
    if m.blmode < 2 {
      StripScalar(Real(p.lambda));
      StripField(RealTokens(p.branchlength));
      StripThen(Tabbed([Real(p.lambda)]), Field(RealTokens(p.branchlength)), [Real(p.lambda)], RealTokens(p.branchlength));
    }
  }

  lemma StripNucText(p: Params, m: Modes)
    ensures Strip(NucText(p, m)) == NucValues(p, m)
  {
    if m.nucmode < 2 {
      StripField(RealTokens(p.nucrelrate));
      StripField(RealTokens(p.nucstat));
      StripThen(Field(RealTokens(p.nucrelrate)), Field(RealTokens(p.nucstat)), RealTokens(p.nucrelrate), RealTokens(p.nucstat));
    }
  }

  lemma StripBaseText(p: Params, m: Modes)
    ensures Strip(BaseText(p, m)) == BaseValues(p, m)
  {
    if m.basemode < 2 {
      var a, va := Tabbed([Real(p.basekappa)]), [Real(p.basekappa)];
      StripScalar(Real(p.basekappa));
      var b, vb := Tabbed(RealTokens(p.baseweight)), RealTokens(p.baseweight);
      StripTabbed(vb);
      StripThen(a, b, va, vb);
      var c, vc := Field(IntTokens(p.componentalloc)), IntTokens(p.componentalloc);
      StripField(vc);
      StripThen(a + b, c, va + vb, vc);
      var d, vd := Field(RowTokens(p.basecenter)), RowTokens(p.basecenter);
      StripField(vd);
      StripThen(a + b + c, d, va + vb + vc, vd);
      var e, ve := Field(RealTokens(p.baseconc)), RealTokens(p.baseconc);
      StripField(ve);
      StripThen(a + b + c + d, e, va + vb + vc + vd, ve);
    }
  }

  lemma StripMixtureText(p: Params)
    ensures Strip(MixtureText(p)) == MixtureValues(p)
  {
    var a, va := Tabbed([Real(p.kappa)]), [Real(p.kappa)];
    StripScalar(Real(p.kappa));
    var b, vb := Tabbed(RealTokens(p.weight)), RealTokens(p.weight);
    StripTabbed(vb);
    StripThen(a, b, va, vb);
    var c, vc := Field(RowTokens(p.fitness)), RowTokens(p.fitness);
    StripField(vc);
    StripThen(a + b, c, va + vb, vc);
    var d, vd := Field(IntTokens(p.sitealloc)), IntTokens(p.sitealloc);
    StripField(vd);
    StripThen(a + b + c, d, va + vb + vc, vd);
  }

  /** The text stream holds exactly the values of the buffer written with
   *  the same omega gate, in order. */
  lemma TextLayoutStrip(p: Params, m: Modes, withOmega: bool)
    ensures Strip(TextLayout(p, m, withOmega)) == Layout(p, m, withOmega)
  {
    var b, n, c, x := BranchText(p, m), NucText(p, m), BaseText(p, m), MixtureText(p);
    var vb, vn, vc, vx := BranchValues(p, m), NucValues(p, m), BaseValues(p, m), MixtureValues(p);
    StripBranchText(p, m);
    StripNucText(p, m);
    StripBaseText(p, m);
    StripMixtureText(p);
    StripThen(b, n, vb, vn);
    StripThen(b + n, c, vb + vn, vc);
    StripThen(b + n + c, x, vb + vn + vc, vx);
    if withOmega {
      StripScalar(Real(p.omega));
      StripThen(b + n + c + x, Tabbed([Real(p.omega)]), vb + vn + vc + vx, [Real(p.omega)]);
    } else {
      assert TextLayout(p, m, withOmega) == b + n + c + x;
      assert Layout(p, m, withOmega) == vb + vn + vc + vx;
    }
  }

  /** The size announced for the buffer is the number of values written. */
  lemma SizeLayoutRoundTrip(p: Params, m: Modes, withOmega: bool)
    requires Rectangular(p.basecenter, Naa) && Rectangular(p.fitness, Naa)
    ensures SizeLayout(p, m, withOmega) == |Layout(p, m, withOmega)|
  {
    RowTokensLength(p.basecenter, Naa);
    RowTokensLength(p.fitness, Naa);
  }

  /** Each writer announces the number of values it writes. */
  lemma MPISizeRoundTrip(p: Params, m: Modes)
    requires Rectangular(p.basecenter, Naa) && Rectangular(p.fitness, Naa)
    ensures MPISize(p, m) == |PutValues(p, m)|
    ensures MPISizeAsWritten(p, m) == |PutValuesAsWritten(p, m)|
  {
    SizeLayoutRoundTrip(p, m, m.omegamode < 2);
    SizeLayoutRoundTrip(p, m, p.omega < 2.0);
  }

  /** As written, the checkpoint round trip succeeds exactly when the
   *  writer's test on the value of omega agrees with the reader's test on
   *  omegamode. */
  lemma AsWrittenRoundTripIff(t: Params, p: Params, m: Modes)
    requires SameShape(t, p)
    ensures GetValues(t, m, PutValuesAsWritten(p, m)) == Some((Merge(t, p, m), []))
        <==> ((p.omega < 2.0) == (m.omegamode < 2))
  {
    var core := CoreValues(p, m);
    if p.omega < 2.0 {
      assert PutValuesAsWritten(p, m) == core + [Real(p.omega)];
      ReadCoreRoundTrip(t, p, m, [Real(p.omega)]);
      if m.omegamode < 2 {
        assert [Real(p.omega)][1..] == [];
      }
    } else {
      assert PutValuesAsWritten(p, m) == core + [];
      ReadCoreRoundTrip(t, p, m, []);
    }
  }

  /** The default configuration (every mode 0 except omegamode 2) with
   *  omega = 1: the writer saves omega and counts it in the buffer size,
   *  the reader does not read it, so one value is left over. */
  lemma OmegaGateMismatch(t: Params, p: Params)
    requires SameShape(t, p) && p.omega == 1.0
    ensures var m := Modes(0, 0, 0, 2);
      && GetValues(t, m, PutValuesAsWritten(p, m)) == Some((Merge(t, p, m), [Real(1.0)]))
      && MPISizeAsWritten(p, m) == MPISize(p, m) + 1
  {
    var m := Modes(0, 0, 0, 2);
    assert PutValuesAsWritten(p, m) == CoreValues(p, m) + [Real(1.0)];
    ReadCoreRoundTrip(t, p, m, [Real(1.0)]);
  }
}
