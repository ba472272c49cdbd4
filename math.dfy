/**
 * The IFS kernel generator of src/lib/math.ts: variations, the `Function`
 * record, the text of one transform, prefix sums of the normalised weights
 * and the dispatcher that picks a transform for a uniform draw `r`.
 *
 * The generated kernel is modelled by its structure (`Kernel`): the transform
 * texts in list order, the loop constants and one `Branch` per function.
 * `Select` gives the meaning of the `else if (r < P_i)` chain and
 * `Contributions` the meaning of one walker's loop.
 */
module FlameMath {
  import opened Wrappers
  import opened Numbers

  /** A nonlinear map R^2 -> R^2, kept as the two formula texts it is emitted as. */
  datatype Variation = Variation(dataX: string, dataY: string)

  datatype Color = Color(r: real, g: real, b: real)

  /** One IFS transform: six affine coefficients (meant to be at least six), a weight, a name, a variation and a colour. */
  datatype Function = Function(params: seq<real>, weight: real, name: string, variation: Variation, color: Color)

  const Linear: Variation := Variation("x", "y")
  const Sinusoid: Variation := Variation("sin(x)", "sin(y)")
  const Spherical: Variation := Variation("x * sqrt(1 / (r * r))", "y * sqrt(1 / (r * r))")
  const Horseshoe: Variation := Variation("(x - y) * (x + y) / r", "2 * x * y / r")
  const Handkerchief: Variation := Variation("r * sin(theta + r)", "r * cos(theta - r)")

  const WarmupIterations: nat := 20
  const TotalIterations: nat := 10000

  // ---------------------------------------------------------------------------
  // The text of one transform

  /** The fixed pieces of the transform template, around the name and the returned pair. */
  const TransformHead: string := "\nfn "
  const TransformBody: string := "(" + TransformSignature
  const TransformSignature: string :=
    "x0: f32, y0: f32, a: f32, b: f32, c: f32, d: f32, e: f32, f: f32) -> vec2<f32> {\n"
    + "  let x = x0 * a + y0 * b + c;\n"
    + "  let y = x0 * d + y0 * e + f;\n"
    + "  let r = sqrt(pow(x, 2) + pow(y, 2));\n"
    + "  let theta = atan2(x, y);\n"
    + "  return vec2("
  const TransformTail: string := ");\n} "

  /** A transform definition read back from its text: its name and the text of the pair it returns. */
  datatype Transform = Transform(name: string, result: string)

  /**
   * The WGSL function for `f`: the affine pre-transform with `f`'s name, then its variation's
   * pair. The text names its function and returns the pair: it parses back to both.
   */
  function FunctionToShader(f: Function): (s: string)
    ensures '(' !in f.name ==> ParseTransform(s) == Some(Transform(f.name, f.variation.dataX + ", " + f.variation.dataY))
  {
    var t := Transform(f.name, f.variation.dataX + ", " + f.variation.dataY);
    if '(' in f.name then Emit(t) else ParseEmit(t); Emit(t)
  }

  function Emit(t: Transform): string {
    Fill(TransformHead, TransformBody, TransformTail, t)
  }

  /** The template `head`, name, `body`, result, `tail`, filled with `t`. */
  function Fill(head: string, body: string, tail: string, t: Transform): string {
    head + t.name + body + t.result + tail
  }

  /** The first position of `c` in `s`, or `|s|` when it does not occur. */
  function IndexOf(s: string, c: char): (k: nat)
    ensures k <= |s|
  {
    if |s| == 0 then 0
    else if s[0] == c then 0
    else 1 + IndexOf(s[1..], c)
  }

  /** `IndexOf` finds the first occurrence: `c` is at the index and nowhere before it. */
  lemma {:induction false} IndexOfFirstOccurrence(s: string, c: char)
    ensures c !in s[..IndexOf(s, c)]
    ensures IndexOf(s, c) < |s| ==> s[IndexOf(s, c)] == c
  {
    if |s| > 0 && s[0] != c {
      IndexOfFirstOccurrence(s[1..], c);
      assert s[..IndexOf(s, c)] == [s[0]] + s[1..][..IndexOf(s[1..], c)];
    }
  }

  /** Reads a transform definition back: the name runs up to the first '('. */
  function ParseTransform(s: string): Option<Transform> {
    Unfill(TransformHead, TransformBody, TransformTail, s)
  }

  /** Reads back a filled template whose `body` starts with '(': `head`, then the name and the rest. */
  function Unfill(head: string, body: string, tail: string, s: string): Option<Transform> {
    if head <= s then UnfillName(body, tail, s[|head|..]) else None
  }

  /** The name runs up to the first '('; from there on the text is `body`, the result and `tail`. */
  function UnfillName(body: string, tail: string, rest: string): Option<Transform> {
    var k := IndexOf(rest, '(');
    match Between(body, tail, rest[k..])
    case None => None
    case Some(result) => Some(Transform(rest[..k], result))
  }

  /** The text between a leading `body` and a trailing `tail`, if `t` has both. */
  function Between(body: string, tail: string, t: string): Option<string> {
    if body <= t && |body| + |tail| <= |t| && t[|t| - |tail|..] == tail
    then Some(t[|body|..|t| - |tail|])
    else None
  }

  /** Reading back an emitted definition gives the definition, when its name has no '('. */
  lemma ParseEmit(t: Transform)
    requires '(' !in t.name
    ensures ParseTransform(Emit(t)) == Some(t)
  {
    assert TransformBody[0] == '(';
    UnfillFill(TransformHead, TransformBody, TransformTail, t);
  }

  /** Every text the reader accepts is exactly a transform definition. */
  lemma EmitParseTransform(s: string)
    requires ParseTransform(s).Some?
    ensures Emit(ParseTransform(s).value) == s
  {
    FillUnfill(TransformHead, TransformBody, TransformTail, s);
  }

  /** Reading back a filled template gives what filled it, for any template whose `body` starts with '('. */
  lemma UnfillFill(head: string, body: string, tail: string, t: Transform)
    requires '(' !in t.name && |body| > 0 && body[0] == '('
    ensures Unfill(head, body, tail, Fill(head, body, tail, t)) == Some(t)
  {
    var s := Fill(head, body, tail, t);
    var rest := t.name + (body + t.result + tail);
    assert s == head + rest;
    assert s[..|head|] == head && s[|head|..] == rest;
    UnfillNameOf(body, tail, t);
  }

  lemma UnfillNameOf(body: string, tail: string, t: Transform)
    requires '(' !in t.name && |body| > 0 && body[0] == '('
    ensures UnfillName(body, tail, t.name + (body + t.result + tail)) == Some(t)
  {
    var rest := t.name + (body + t.result + tail);
    IndexOfFirst(t.name, body + t.result + tail, '(');
    assert rest[..|t.name|] == t.name && rest[|t.name|..] == body + t.result + tail;
    BetweenOf(body, t.result, tail);
  }

  lemma BetweenOf(body: string, result: string, tail: string)
    ensures Between(body, tail, body + result + tail) == Some(result)
  {
    var t := body + result + tail;
    assert t[..|body|] == body;
    assert t[|t| - |tail|..] == tail;
    assert t[|body|..|t| - |tail|] == result;
  }

  /** What the reader accepts is a filled template: the filling it reads back gives the text again. */
  lemma FillUnfill(head: string, body: string, tail: string, s: string)
    requires Unfill(head, body, tail, s).Some?
    ensures Fill(head, body, tail, Unfill(head, body, tail, s).value) == s
  {
    assert head <= s;
    var rest := s[|head|..];
    var t := UnfillName(body, tail, rest).value;
    assert Unfill(head, body, tail, s).value == t;
    UnfillNameParts(body, tail, rest);
    Rejoin(head, s);
    FillNested(head, body, tail, t);
  }

  lemma UnfillNameParts(body: string, tail: string, rest: string)
    requires UnfillName(body, tail, rest).Some?
    ensures rest == UnfillName(body, tail, rest).value.name + (body + UnfillName(body, tail, rest).value.result + tail)
  {
    var k := IndexOf(rest, '(');
    BetweenParts(body, tail, rest[k..]);
    assert rest == rest[..k] + rest[k..];
  }

  lemma BetweenParts(body: string, tail: string, t: string)
    requires Between(body, tail, t).Some?
    ensures t == body + Between(body, tail, t).value + tail
  {
    var m := |t| - |tail|;
    assert t[..|body|] == body && t[m..] == tail;
    SplitThree(t, |body|, m);
  }

  lemma FillNested(head: string, body: string, tail: string, t: Transform)
    ensures Fill(head, body, tail, t) == head + (t.name + (body + t.result + tail))
  {
  }

  /** A text that starts with `a` is `a` followed by the rest. */
  lemma Rejoin(a: string, t: string)
    requires a <= t
    ensures t == a + t[|a|..]
  {
  }

  lemma IndexOfFirst(a: string, b: string, c: char)
    requires c !in a && |b| > 0 && b[0] == c
    ensures IndexOf(a + b, c) == |a|
  {
    IndexOfFirstOccurrence(a + b, c);
    assert (a + b)[|a|] == c;
    assert (a + b)[..|a|] == a;
  }

  lemma SplitThree(t: string, a: nat, b: nat)
    requires a <= b <= |t|
    ensures t == t[..a] + t[a..b] + t[b..]
  {
  }

  // ---------------------------------------------------------------------------
  // Prefix sums

  /** The running sums of `s` as the source's loop computes them: `p[0] == s[0]`, `p[i] == p[i-1] + s[i]`. */
  function Prefix(s: seq<Num>): (p: seq<Num>)
    ensures |p| == |s|
    ensures |s| > 0 ==> p[0] == s[0]
    ensures forall i :: 0 < i < |s| ==> p[i] == Add(p[i - 1], s[i])
  {
    if |s| <= 1 then s
    else
      var q := Prefix(s[..|s| - 1]);
      q + [Add(q[|q| - 1], s[|s| - 1])]
  }

  /** `prefixSums`: copies the array, then adds each element to its predecessor's running sum. */
  method PrefixSums(arr: array<Num>) returns (newArr: array<Num>)
    ensures fresh(newArr)
    ensures newArr[..] == Prefix(arr[..])
  {
    newArr := new Num[arr.Length];
    forall k | 0 <= k < arr.Length {
      newArr[k] := arr[k];
    }
    ghost var spec := Prefix(arr[..]);
    var i := 1;
    while i < arr.Length
      invariant 1 <= i
      invariant arr.Length > 0 ==> i <= arr.Length
      invariant forall k :: 0 <= k < i && k < arr.Length ==> newArr[k] == spec[k]
      invariant forall k :: i <= k < arr.Length ==> newArr[k] == arr[k]
    {
      newArr[i] := Add(newArr[i - 1], arr[i]);
      i := i + 1;
    }
    assert newArr[..] == spec;
  }

  /** The sum of a list of reals, folded from the left as `reduce` does. */
  function Sum(s: seq<real>): real {
    if |s| == 0 then 0.0 else Sum(s[..|s| - 1]) + s[|s| - 1]
  }

  function Fins(s: seq<real>): seq<Num> {
    seq(|s|, i requires 0 <= i < |s| => Fin(s[i]))
  }

  /** On finite inputs, element `i` of the prefix sums is the sum of the first `i + 1` inputs. */
  lemma {:induction false} PrefixOfReals(s: seq<real>, i: nat)
    requires i < |s|
    ensures Prefix(Fins(s))[i] == Fin(Sum(s[..i + 1]))
  {
    if i == 0 {
      assert s[..1] == [s[0]];
      assert s[..1][..0] == [];
    } else {
      PrefixOfReals(s, i - 1);
      assert s[..i + 1][..i] == s[..i];
    }
  }

  /** The last prefix sum is the total. */
  lemma PrefixLast(s: seq<real>)
    requires |s| > 0
    ensures Prefix(Fins(s))[|s| - 1] == Fin(Sum(s))
  {
    var n := |s| - 1;
    PrefixOfReals(s, n);
    assert s[..n + 1] == s;
  }

  lemma {:induction false} SumGrows(s: seq<real>, i: nat, j: nat)
    requires i <= j <= |s|
    requires forall k :: 0 <= k < |s| ==> s[k] >= 0.0
    ensures Sum(s[..i]) <= Sum(s[..j])
  {
    if i < j {
      SumGrows(s, i, j - 1);
      assert s[..j][..j - 1] == s[..j - 1];
    }
  }

  /** With non-negative inputs the prefix sums are finite and non-decreasing. */
  lemma PrefixNondecreasing(s: seq<real>, i: nat, j: nat)
    requires i <= j < |s|
    requires forall k :: 0 <= k < |s| ==> s[k] >= 0.0
    ensures Prefix(Fins(s))[i].Fin? && Prefix(Fins(s))[j].Fin?
    ensures Prefix(Fins(s))[i].v <= Prefix(Fins(s))[j].v
  {
    PrefixOfReals(s, i);
    PrefixOfReals(s, j);
    SumGrows(s, i + 1, j + 1);
  }

  // ---------------------------------------------------------------------------
  // Weights

  function Weights(fs: seq<Function>): seq<real> {
    seq(|fs|, i requires 0 <= i < |fs| => fs[i].weight)
  }

  /** The sum of the weights, from 0: zero for no functions, positive when every weight is. */
  function TotalWeight(fs: seq<Function>): (r: real)
    ensures |fs| == 0 ==> r == 0.0
    ensures |fs| > 0 && (forall i :: 0 <= i < |fs| ==> fs[i].weight > 0.0) ==> r > 0.0
  {
    SumPositive(Weights(fs));
    Sum(Weights(fs))
  }

  /** `w_i / totalWeight` for each function: finite unless the total is zero. */
  function Scaled(fs: seq<Function>): (r: seq<Num>)
    ensures |r| == |fs|
    ensures TotalWeight(fs) != 0.0 ==> forall i :: 0 <= i < |fs| ==> r[i] == Fin(fs[i].weight / TotalWeight(fs))
    ensures TotalWeight(fs) == 0.0 ==> forall i :: 0 <= i < |fs| ==> !r[i].Fin?
  {
    seq(|fs|, i requires 0 <= i < |fs| => Div(fs[i].weight, TotalWeight(fs)))
  }

  ghost predicate PositiveWeights(fs: seq<Function>) {
    forall i :: 0 <= i < |fs| ==> fs[i].weight > 0.0
  }

  function DividedBy(s: seq<real>, t: real): seq<real>
    requires t != 0.0
  {
    seq(|s|, i requires 0 <= i < |s| => s[i] / t)
  }

  lemma {:induction false} SumDividedBy(s: seq<real>, t: real)
    requires t != 0.0
    ensures Sum(DividedBy(s, t)) == Sum(s) / t
  {
    if |s| > 0 {
      var n := |s| - 1;
      assert DividedBy(s, t)[..n] == DividedBy(s[..n], t);
      SumDividedBy(s[..n], t);
      assert Sum(s[..n]) / t + s[n] / t == (Sum(s[..n]) + s[n]) / t;
    }
  }

  /** Sum of the first `i` weights, positive weights make it strictly increasing in `i`. */
  lemma {:induction false} SumStrictlyGrows(s: seq<real>, i: nat, j: nat)
    requires i < j <= |s|
    requires forall k :: 0 <= k < |s| ==> s[k] > 0.0
    ensures Sum(s[..i]) < Sum(s[..j])
  {
    assert s[..j][..j - 1] == s[..j - 1];
    if i < j - 1 {
      SumStrictlyGrows(s, i, j - 1);
    }
  }

  /** A non-empty sum of positive reals is positive. */
  lemma SumPositive(s: seq<real>)
    ensures |s| > 0 && (forall k :: 0 <= k < |s| ==> s[k] > 0.0) ==> Sum(s) > 0.0
  {
    if |s| > 0 && (forall k :: 0 <= k < |s| ==> s[k] > 0.0) {
      SumStrictlyGrows(s, 0, |s|);
      assert s[..0] == [] && s[..|s|] == s;
    }
  }

  /** With positive weights each scaled weight is positive and finite, and they sum to exactly 1. */
  lemma NormalisedWeights(fs: seq<Function>)
    requires |fs| > 0 && PositiveWeights(fs)
    ensures TotalWeight(fs) > 0.0
    ensures forall i :: 0 <= i < |fs| ==> Scaled(fs)[i].Fin? && Scaled(fs)[i].v > 0.0
    ensures Scaled(fs) == Fins(DividedBy(Weights(fs), TotalWeight(fs)))
    ensures Sum(DividedBy(Weights(fs), TotalWeight(fs))) == 1.0
  {
    var w := Weights(fs);
    SumStrictlyGrows(w, 0, |w|);
    assert w[..0] == [] && w[..|w|] == w;
    var t := TotalWeight(fs);
    assert t == Sum(w) && t > 0.0;
    SumDividedBy(w, t);
    calc {
      Sum(DividedBy(w, t));
      Sum(w) / t;
      { assert Sum(w) == t; }
      t / t;
      1.0;
    }
  }

  /** The cumulative distribution: the share of the total weight held by the first `i` functions. */
  function Cdf(fs: seq<Function>, i: nat): real
    requires i <= |fs| && TotalWeight(fs) != 0.0
  {
    Sum(Weights(fs)[..i]) / TotalWeight(fs)
  }

  /** Positive weights give a strictly increasing distribution from 0 to 1 whose steps are the normalised weights. */
  lemma CdfShape(fs: seq<Function>)
    requires |fs| > 0 && PositiveWeights(fs)
    ensures TotalWeight(fs) > 0.0
    ensures Cdf(fs, 0) == 0.0 && Cdf(fs, |fs|) == 1.0
    ensures forall i, j :: 0 <= i < j <= |fs| ==> Cdf(fs, i) < Cdf(fs, j)
    ensures forall i :: 0 <= i < |fs| ==> Cdf(fs, i + 1) - Cdf(fs, i) == fs[i].weight / TotalWeight(fs)
  {
    CdfEnds(fs);
    forall i, j | 0 <= i < j <= |fs| ensures Cdf(fs, i) < Cdf(fs, j) {
      CdfIncreasing(fs, i, j);
    }
    forall i | 0 <= i < |fs| ensures Cdf(fs, i + 1) - Cdf(fs, i) == fs[i].weight / TotalWeight(fs) {
      CdfStep(fs, i);
    }
  }

  lemma CdfEnds(fs: seq<Function>)
    requires |fs| > 0 && PositiveWeights(fs)
    ensures TotalWeight(fs) > 0.0
    ensures Cdf(fs, 0) == 0.0 && Cdf(fs, |fs|) == 1.0
  {
    var w := Weights(fs);
    var t := TotalWeight(fs);
    SumStrictlyGrows(w, 0, |w|);
    assert w[..0] == [] && w[..|w|] == w;
    assert t == Sum(w) > 0.0;
    assert Cdf(fs, |fs|) == Sum(w) / t == 1.0;
  }

  lemma CdfIncreasing(fs: seq<Function>, i: nat, j: nat)
    requires PositiveWeights(fs) && i < j <= |fs|
    ensures TotalWeight(fs) > 0.0
    ensures Cdf(fs, i) < Cdf(fs, j)
  {
    var w := Weights(fs);
    SumStrictlyGrows(w, 0, |w|);
    assert w[..0] == [] && w[..|w|] == w;
    SumStrictlyGrows(w, i, j);
  }

  lemma CdfStep(fs: seq<Function>, i: nat)
    requires i < |fs| && TotalWeight(fs) != 0.0
    ensures Cdf(fs, i + 1) - Cdf(fs, i) == fs[i].weight / TotalWeight(fs)
  {
    var w := Weights(fs);
    var t := TotalWeight(fs);
    assert w[..i + 1][..i] == w[..i];
    assert Sum(w[..i + 1]) == Sum(w[..i]) + w[i];
    assert Sum(w[..i + 1]) / t - Sum(w[..i]) / t == (Sum(w[..i + 1]) - Sum(w[..i])) / t;
  }

  // ---------------------------------------------------------------------------
  // The generated kernel

  /** One argument of a transform call: `params[k]`, or `undefined` past the end of `params`. */
  datatype Param = Defined(value: real) | Undefined

  /** One `else if (r < threshold)` arm: call `name` with `args`, and colour with `color` after warmup. */
  datatype Branch = Branch(threshold: Num, name: string, args: seq<Param>, color: Color)

  /** The kernel text, by structure: transform definitions, then the `flame` loop and its dispatcher. */
  datatype Kernel = Kernel(transforms: seq<string>, iterations: nat, warmup: nat, branches: seq<Branch>)

  function Args(params: seq<real>): seq<Param> {
    seq(6, k requires 0 <= k < 6 => if k < |params| then Defined(params[k]) else Undefined)
  }

  /** `toShader`: one transform per function and one dispatcher arm per function, both in list order. */
  function ToShader(fs: seq<Function>): (k: Kernel)
    ensures k.iterations == TotalIterations && k.warmup == WarmupIterations
    ensures |k.transforms| == |fs| && |k.branches| == |fs|
    ensures forall i :: 0 <= i < |fs| ==> k.transforms[i] == FunctionToShader(fs[i])
    ensures forall i :: 0 <= i < |fs| ==>
      && k.branches[i].name == fs[i].name
      && k.branches[i].color == fs[i].color
      && |k.branches[i].args| == 6
      && forall a :: 0 <= a < 6 ==>
           k.branches[i].args[a] == if a < |fs[i].params| then Defined(fs[i].params[a]) else Undefined
  {
    var thresholds := Prefix(Scaled(fs));
    Kernel(
      seq(|fs|, i requires 0 <= i < |fs| => FunctionToShader(fs[i])),
      TotalIterations,
      WarmupIterations,
      seq(|fs|, i requires 0 <= i < |fs| => Branch(thresholds[i], fs[i].name, Args(fs[i].params), fs[i].color)))
  }

  /** The arm of the `else if` chain taken for the draw `r`: the first whose threshold exceeds `r`, if any. */
  function Select(branches: seq<Branch>, r: real): (o: Option<nat>)
    ensures o.Some? ==> o.value < |branches| && Less(r, branches[o.value].threshold)
    ensures o.Some? ==> forall j :: 0 <= j < o.value ==> !Less(r, branches[j].threshold)
    ensures o.None? <==> forall j :: 0 <= j < |branches| ==> !Less(r, branches[j].threshold)
  {
    if |branches| == 0 then None
    else if Less(r, branches[0].threshold) then Some(0)
    else match Select(branches[1..], r)
      case None => None
      case Some(i) => Some(i + 1)
  }

  /** The threshold of arm `i` is the cumulative normalised weight of functions `0..i`. */
  lemma ThresholdIsCdf(fs: seq<Function>, i: nat)
    requires i < |fs| && TotalWeight(fs) != 0.0
    ensures ToShader(fs).branches[i].threshold == Fin(Cdf(fs, i + 1))
  {
    var w := Weights(fs);
    var t := TotalWeight(fs);
    var q := DividedBy(w, t);
    assert Scaled(fs) == Fins(q);
    PrefixOfReals(q, i);
    assert q[..i + 1] == DividedBy(w[..i + 1], t);
    SumDividedBy(w[..i + 1], t);
  }

  /** The thresholds the arms should have: `Cdf(fs, j + 1)` for arm `j`. */
  function Cdfs(fs: seq<Function>): (c: seq<real>)
    requires TotalWeight(fs) != 0.0
    ensures |c| == |fs|
  {
    seq(|fs|, j requires 0 <= j < |fs| => Cdf(fs, j + 1))
  }

  lemma CdfsIncrease(fs: seq<Function>)
    requires PositiveWeights(fs) && TotalWeight(fs) != 0.0
    ensures forall j, k :: 0 <= j < k < |fs| ==> Cdfs(fs)[j] < Cdfs(fs)[k]
  {
    forall j, k | 0 <= j < k < |fs| ensures Cdfs(fs)[j] < Cdfs(fs)[k] {
      CdfIncreasing(fs, j + 1, k + 1);
    }
  }

  lemma ThresholdsAreCdfs(fs: seq<Function>)
    requires TotalWeight(fs) != 0.0
    ensures forall j :: 0 <= j < |fs| ==> ToShader(fs).branches[j].threshold == Fin(Cdfs(fs)[j])
  {
    forall j | 0 <= j < |fs| ensures ToShader(fs).branches[j].threshold == Fin(Cdfs(fs)[j]) {
      ThresholdIsCdf(fs, j);
    }
  }

  /** Inverse-CDF sampling: with positive weights and `r >= 0`, arm `i` is taken exactly when `r` lies in its bucket. */
  lemma SelectIffBucket(fs: seq<Function>, r: real, i: nat)
    requires |fs| > 0 && PositiveWeights(fs)
    requires 0.0 <= r && i < |fs|
    ensures TotalWeight(fs) > 0.0
    ensures Select(ToShader(fs).branches, r) == Some(i) <==> Cdf(fs, i) <= r < Cdf(fs, i + 1)
  {
    CdfEnds(fs);
    var c := Cdfs(fs);
    CdfsIncrease(fs);
    ThresholdsAreCdfs(fs);
    SelectInBucket(ToShader(fs).branches, c, r, i);
    assert c[i] == Cdf(fs, i + 1);
    if i > 0 {
      assert c[i - 1] == Cdf(fs, i);
    }
  }

  /** For thresholds `c` strictly increasing, arm `i` is taken exactly when `c[i - 1] <= r < c[i]` (only `r < c[0]` for arm 0). */
  lemma SelectInBucket(bs: seq<Branch>, c: seq<real>, r: real, i: nat)
    requires |c| == |bs| && i < |bs|
    requires forall j :: 0 <= j < |bs| ==> bs[j].threshold == Fin(c[j])
    requires forall j, k :: 0 <= j < k < |c| ==> c[j] < c[k]
    ensures Select(bs, r) == Some(i) <==> (i == 0 || c[i - 1] <= r) && r < c[i]
  {
    var o := Select(bs, r);
    if (i == 0 || c[i - 1] <= r) && r < c[i] {
      assert Less(r, bs[i].threshold);
      forall j | 0 <= j < i ensures !Less(r, bs[j].threshold) {
        assert c[j] <= c[i - 1];
      }
      assert o.value == i;
    }
    if o == Some(i) && i > 0 {
      assert !Less(r, bs[i - 1].threshold);
    }
  }

  /** With positive weights every draw in [0, 1) takes some arm: exactly one function is applied. */
  lemma SelectTotal(fs: seq<Function>, r: real)
    requires |fs| > 0 && PositiveWeights(fs)
    requires 0.0 <= r < 1.0
    ensures Select(ToShader(fs).branches, r).Some?
  {
    CdfShape(fs);
    ThresholdIsCdf(fs, |fs| - 1);
    assert Less(r, ToShader(fs).branches[|fs| - 1].threshold);
  }

  /** The chain has no final `else`: a draw at or above every threshold takes no arm. */
  lemma NoFallback(fs: seq<Function>, r: real)
    requires |fs| > 0 && PositiveWeights(fs)
    requires r >= 1.0
    ensures Select(ToShader(fs).branches, r) == None
  {
    CdfShape(fs);
    forall j | 0 <= j < |fs| ensures !Less(r, ToShader(fs).branches[j].threshold) {
      ThresholdIsCdf(fs, j);
      assert Cdf(fs, j + 1) <= Cdf(fs, |fs|);
    }
  }

  /** No validation: an empty list still yields a kernel, with no transforms and no arms. */
  lemma EmptyListKernel(r: real)
    ensures ToShader([]).transforms == [] && ToShader([]).branches == []
    ensures Select(ToShader([]).branches, r) == None
  {
  }

  // ---------------------------------------------------------------------------
  // What one walker's loop contributes

  /** One `color_pixel` call: the arm that fired and the colour it adds. */
  datatype Hit = Hit(index: nat, color: Color)

  /**
   * The `color_pixel` calls of the kernel's loop when its `i`-th iteration draws `draws[i]`:
   * the selected arm contributes its colour once the iteration counter has reached the warmup.
   */
  function Contributions(k: Kernel, draws: seq<real>): (r: seq<Hit>)
    ensures |r| <= |draws|
    ensures forall h :: h in r ==> h.index < |k.branches| && h.color == k.branches[h.index].color
  {
    if |draws| == 0 then []
    else
      var n := |draws| - 1;
      Contributions(k, draws[..n])
        + match Select(k.branches, draws[n])
          case Some(b) => if n >= k.warmup then [Hit(b, k.branches[b].color)] else []
          case None => []
  }

  /** The first `warmup` iterations make no `color_pixel` call. */
  lemma {:induction false} WarmupColorsNothing(k: Kernel, draws: seq<real>)
    requires |draws| <= k.warmup
    ensures Contributions(k, draws) == []
  {
    if |draws| > 0 {
      WarmupColorsNothing(k, draws[..|draws| - 1]);
    }
  }

  /** When every draw takes an arm, there are as many `color_pixel` calls as iterations past the warmup. */
  lemma {:induction false} ContributionCountOf(k: Kernel, draws: seq<real>)
    requires forall i :: 0 <= i < |draws| ==> Select(k.branches, draws[i]).Some?
    requires |draws| >= k.warmup
    ensures |Contributions(k, draws)| == |draws| - k.warmup
  {
    var n := |draws| - 1;
    if |draws| == k.warmup {
      WarmupColorsNothing(k, draws);
    } else {
      ContributionCountOf(k, draws[..n]);
      var b := Select(k.branches, draws[n]).value;
      assert Contributions(k, draws) == Contributions(k, draws[..n]) + [Hit(b, k.branches[b].color)];
    }
  }

  /**
   * When every draw takes an arm, the `j`-th `color_pixel` call is made by iteration `warmup + j`,
   * for the arm the chain selects for that iteration's draw.
   */
  lemma {:induction false} ContributionsAreSelections(k: Kernel, draws: seq<real>)
    requires forall i :: 0 <= i < |draws| ==> Select(k.branches, draws[i]).Some?
    requires |draws| >= k.warmup
    ensures |Contributions(k, draws)| == |draws| - k.warmup
    ensures forall j :: 0 <= j < |draws| - k.warmup ==>
              Contributions(k, draws)[j].index == Select(k.branches, draws[k.warmup + j]).value
  {
    if |draws| == k.warmup {
      WarmupColorsNothing(k, draws);
    } else {
      var n := |draws| - 1;
      ContributionsAreSelections(k, draws[..n]);
      var b := Select(k.branches, draws[n]).value;
      var before := Contributions(k, draws[..n]);
      var c := Contributions(k, draws);
      assert c == before + [Hit(b, k.branches[b].color)];
      forall j | 0 <= j < |draws| - k.warmup
        ensures c[j].index == Select(k.branches, draws[k.warmup + j]).value
      {
        if j < |before| {
          assert c[j] == before[j];
          assert draws[..n][k.warmup + j] == draws[k.warmup + j];
        } else {
          assert k.warmup + j == n;
        }
      }
    }
  }

  /** With positive weights and draws in [0, 1), there are as many `color_pixel` calls as iterations past the warmup. */
  lemma ContributionCount(fs: seq<Function>, draws: seq<real>)
    requires |fs| > 0 && PositiveWeights(fs)
    requires forall i :: 0 <= i < |draws| ==> 0.0 <= draws[i] < 1.0
    requires |draws| >= WarmupIterations
    ensures |Contributions(ToShader(fs), draws)| == |draws| - WarmupIterations
  {
    forall i | 0 <= i < |draws| ensures Select(ToShader(fs).branches, draws[i]).Some? {
      SelectTotal(fs, draws[i]);
    }
    ContributionCountOf(ToShader(fs), draws);
  }

  /** A full run of the loop makes `TotalIterations - WarmupIterations` calls of `color_pixel`. */
  lemma FullRunContributions(fs: seq<Function>, draws: seq<real>)
    requires |fs| > 0 && PositiveWeights(fs)
    requires forall i :: 0 <= i < |draws| ==> 0.0 <= draws[i] < 1.0
    requires |draws| == ToShader(fs).iterations
    ensures |Contributions(ToShader(fs), draws)| == 9980
  {
    ContributionCount(fs, draws);
  }

  /** Every `color_pixel` call passes the colour configured for the function that fired. */
  lemma {:induction false} ContributionColors(fs: seq<Function>, draws: seq<real>)
    ensures forall h :: h in Contributions(ToShader(fs), draws) ==> h.index < |fs| && h.color == fs[h.index].color
  {
    if |draws| > 0 {
      ContributionColors(fs, draws[..|draws| - 1]);
    }
  }
}
