/**
 * The monthly totals: a fold over the movements that adds each coerced
 * `valor` to the bucket named by its `tipo`, then the balance and the
 * possible savings derived from the four sums.
 */
module Aggregation {
  import opened Wrappers
  import opened JsValues
  import Decimal

  /** The four `tipo` tags the handler sums; every other `tipo` is ignored. */
  datatype Bucket = Entrada | Fixo | Variavel | Cartao

  /** The bucket a `tipo` selects, by strict equality with the tag text. */
  function BucketOf(tipo: JsValue): (r: Option<Bucket>)
    ensures r == Some(Entrada) <==> tipo == Str("entrada")
    ensures r == Some(Fixo) <==> tipo == Str("fixo")
    ensures r == Some(Variavel) <==> tipo == Str("variavel")
    ensures r == Some(Cartao) <==> tipo == Str("cartao")
    ensures !tipo.Str? ==> r == None
  {
    if tipo == Str("entrada") then Some(Entrada)
    else if tipo == Str("fixo") then Some(Fixo)
    else if tipo == Str("variavel") then Some(Variavel)
    else if tipo == Str("cartao") then Some(Cartao)
    else None
  }

  /** Movements whose properties can all be read (no null or undefined element). */
  predicate Readable(movs: seq<JsValue>) { Undefined !in movs && Null !in movs }

  /** `m.name` for a movement whose properties can be read. */
  function Field(m: JsValue, name: string): JsValue
    requires !Nullish(m)
  {
    Get(m, Name(name)).value
  }

  /**
   * `Number(valor) || 0`: a missing `valor` and an object count 0, a number
   * counts itself, numeric text counts its reading and other text 0.
   */
  function CoercedAmount(valor: JsValue): (c: int)
    ensures valor == Undefined || valor == Null || valor == Bool(false) ==> c == 0
    ensures valor == Bool(true) ==> c == 100
    ensures valor.Num? ==> c == valor.cents
    ensures valor.Str? && Decimal.ParseCents(valor.s).Some? ==> c == Decimal.ParseCents(valor.s).value
    ensures valor.Str? && Decimal.ParseCents(valor.s).None? ==> c == 0
    ensures valor.Arr? && Decimal.ParseCents(ToStr(valor)).Some? ==> c == Decimal.ParseCents(ToStr(valor)).value
    ensures valor.Arr? && Decimal.ParseCents(ToStr(valor)).None? ==> c == 0
    ensures valor.Obj? ==> c == 0
  {
    match ToNumber(valor)
    case None => 0
    case Some(c) => c
  }

  /** What one movement adds to bucket `b`. */
  function Contribution(m: JsValue, b: Bucket): int
    requires !Nullish(m)
  {
    if BucketOf(Field(m, "tipo")) == Some(b) then CoercedAmount(Field(m, "valor")) else 0
  }

  /** The sum bucket `b` holds after folding over `movs`, left to right. */
  function SumOfType(movs: seq<JsValue>, b: Bucket): int
    requires Readable(movs)
    decreases |movs|
  {
    if movs == [] then 0
    else SumOfType(movs[..|movs| - 1], b) + Contribution(movs[|movs| - 1], b)
  }

  datatype Totals = Totals(
    totalEntradas: int,
    totalFixos: int,
    totalVariaveis: int,
    totalCartao: int,
    saldoMes: int,
    poupancaPossivel: int)

  /** The four bucket sums with the month balance and `Math.max(0, saldoMes)`. */
  function Summarize(entradas: int, fixos: int, variaveis: int, cartao: int): (t: Totals)
    ensures t.totalEntradas == entradas && t.totalFixos == fixos
    ensures t.totalVariaveis == variaveis && t.totalCartao == cartao
    ensures t.saldoMes == entradas - fixos - variaveis - cartao
    ensures t.poupancaPossivel >= 0 && t.poupancaPossivel >= t.saldoMes
    ensures t.poupancaPossivel == 0 || t.poupancaPossivel == t.saldoMes
  {
    var saldo := entradas - fixos - variaveis - cartao;
    Totals(entradas, fixos, variaveis, cartao, saldo, if saldo > 0 then saldo else 0)
  }

  /** The totals the handler computes for `movs`. */
  function TotalsOf(movs: seq<JsValue>): (t: Totals)
    requires Readable(movs)
    ensures t.saldoMes == t.totalEntradas - t.totalFixos - t.totalVariaveis - t.totalCartao
    ensures t.poupancaPossivel >= 0 && t.poupancaPossivel >= t.saldoMes
    ensures t.poupancaPossivel == 0 || t.poupancaPossivel == t.saldoMes
  {
    Summarize(SumOfType(movs, Entrada), SumOfType(movs, Fixo),
              SumOfType(movs, Variavel), SumOfType(movs, Cartao))
  }

  /**
   * The `forEach` loop with its four accumulators. None stands for the
   * TypeError thrown on reaching a null or undefined movement.
   */
  method Aggregate(movs: seq<JsValue>) returns (r: Option<Totals>)
    ensures r.None? <==> !Readable(movs)
    ensures r.Some? ==> Readable(movs) && r.value == TotalsOf(movs)
  {
    var totalEntradas, totalFixos, totalVariaveis, totalCartao := 0, 0, 0, 0;
    var i := 0;
    while i < |movs|
      invariant 0 <= i <= |movs|
      invariant Readable(movs[..i])
      invariant totalEntradas == SumOfType(movs[..i], Entrada)
      invariant totalFixos == SumOfType(movs[..i], Fixo)
      invariant totalVariaveis == SumOfType(movs[..i], Variavel)
      invariant totalCartao == SumOfType(movs[..i], Cartao)
    {
      var m := movs[i];
      if Nullish(m) {
        return None;
      }
      var v := CoercedAmount(Field(m, "valor"));
      var tipo := Field(m, "tipo");
      if tipo == Str("entrada") { totalEntradas := totalEntradas + v; }
      if tipo == Str("fixo") { totalFixos := totalFixos + v; }
      if tipo == Str("variavel") { totalVariaveis := totalVariaveis + v; }
      if tipo == Str("cartao") { totalCartao := totalCartao + v; }
      SumOfTypeStep(movs, i);
      i := i + 1;
    }
    assert movs[..i] == movs;
    r := Some(Summarize(totalEntradas, totalFixos, totalVariaveis, totalCartao));
  }

  /** One more readable movement adds its contribution to every bucket. */
  lemma SumOfTypeStep(movs: seq<JsValue>, i: nat)
    requires i < |movs| && Readable(movs[..i]) && !Nullish(movs[i])
    ensures Readable(movs[..i + 1])
    ensures forall b: Bucket :: SumOfType(movs[..i + 1], b) == SumOfType(movs[..i], b) + Contribution(movs[i], b)
  {
    assert movs[..i + 1] == movs[..i] + [movs[i]];
    assert movs[..i + 1][..i] == movs[..i];
  }

  lemma {:induction false} SumOfTypeAppend(a: seq<JsValue>, c: seq<JsValue>, b: Bucket)
    requires Readable(a) && Readable(c)
    ensures Readable(a + c)
    ensures SumOfType(a + c, b) == SumOfType(a, b) + SumOfType(c, b)
    decreases |c|
  {
    if c == [] {
      assert a + c == a;
    } else {
      var c' := c[..|c| - 1];
      assert (a + c)[..|a + c| - 1] == a + c';
      SumOfTypeAppend(a, c', b);
    }
  }

  /** Taking one movement out of the list takes exactly its contribution out of each sum. */
  lemma SumOfTypeRemove(t: seq<JsValue>, j: nat, b: Bucket)
    requires Readable(t) && j < |t|
    ensures Readable(t[..j] + t[j + 1..])
    ensures SumOfType(t, b) == SumOfType(t[..j] + t[j + 1..], b) + Contribution(t[j], b)
  {
    var x := t[j];
    assert t == t[..j] + [x] + t[j + 1..];
    assert Readable(t[..j]) && Readable(t[j + 1..]) && Readable([x]) by {
      assert forall y | y in t[..j] :: y in t;
      assert forall y | y in t[j + 1..] :: y in t;
    }
    SumOfTypeAppend(t[..j], [x], b);
    SumOfTypeAppend(t[..j] + [x], t[j + 1..], b);
    SumOfTypeAppend(t[..j], t[j + 1..], b);
    assert SumOfType([x], b) == Contribution(x, b) by { assert [x][..0] == []; }
  }

  lemma ReadablePermutation(s: seq<JsValue>, t: seq<JsValue>)
    requires Readable(s) && multiset(s) == multiset(t)
    ensures Readable(t)
  {
    assert Undefined in t <==> Undefined in multiset(t);
    assert Null in t <==> Null in multiset(t);
  }

  lemma MultisetRemove(s: seq<JsValue>, t: seq<JsValue>, j: nat)
    requires s != [] && multiset(s) == multiset(t) && j < |t| && t[j] == s[|s| - 1]
    ensures multiset(t[..j] + t[j + 1..]) == multiset(s[..|s| - 1])
  {
    var x := t[j];
    assert t == t[..j] + [x] + t[j + 1..];
    assert s == s[..|s| - 1] + [x];
    assert multiset(t) == multiset(t[..j]) + multiset{x} + multiset(t[j + 1..]);
    assert multiset(s) == multiset(s[..|s| - 1]) + multiset{x};
    assert multiset(t[..j] + t[j + 1..]) == multiset(t[..j]) + multiset(t[j + 1..]);
    var rest, init := multiset(t[..j] + t[j + 1..]), multiset(s[..|s| - 1]);
    assert rest + multiset{x} == init + multiset{x};
    assert rest == (rest + multiset{x}) - multiset{x};
    assert init == (init + multiset{x}) - multiset{x};
  }

  /** Each total is invariant under any reordering of the movements. */
  lemma {:induction false} SumOfTypePermutation(s: seq<JsValue>, t: seq<JsValue>, b: Bucket)
    requires Readable(s) && multiset(s) == multiset(t)
    ensures Readable(t) && SumOfType(s, b) == SumOfType(t, b)
    decreases |s|
  {
    ReadablePermutation(s, t);
    if s == [] {
      assert |t| == |multiset(t)| == 0;
    } else {
      var x := s[|s| - 1];
      assert x in multiset(t) by { assert x in multiset(s); }
      var j :| 0 <= j < |t| && t[j] == x;
      MultisetRemove(s, t, j);
      SumOfTypePermutation(s[..|s| - 1], t[..j] + t[j + 1..], b);
      SumOfTypeRemove(t, j, b);
    }
  }

  /** The totals as a whole are invariant under any reordering of the movements. */
  lemma TotalsPermutation(s: seq<JsValue>, t: seq<JsValue>)
    requires Readable(s) && multiset(s) == multiset(t)
    ensures Readable(t) && TotalsOf(s) == TotalsOf(t)
  {
    SumOfTypePermutation(s, t, Entrada);
    SumOfTypePermutation(s, t, Fixo);
    SumOfTypePermutation(s, t, Variavel);
    SumOfTypePermutation(s, t, Cartao);
  }

  /** A movement whose `tipo` is not the tag of `b`, wherever it stands, leaves the sum of `b` alone. */
  lemma OtherTypeIgnored(a: seq<JsValue>, m: JsValue, c: seq<JsValue>, b: Bucket)
    requires Readable(a + [m] + c)
    requires BucketOf(Field(m, "tipo")) != Some(b)
    ensures Readable(a + c) && SumOfType(a + [m] + c, b) == SumOfType(a + c, b)
  {
    assert a + [m] + c == (a + [m]) + c;
    assert Readable(a) && Readable(c) && Readable([m]) by {
      assert forall x | x in a :: x in a + [m] + c;
      assert forall x | x in c :: x in a + [m] + c;
    }
    SumOfTypeAppend(a, [m], b);
    SumOfTypeAppend(a + [m], c, b);
    SumOfTypeAppend(a, c, b);
    assert SumOfType([m], b) == 0 by { assert [m][..0] == []; }
  }

  /** A movement whose `valor` is missing or not a number adds nothing to any total. */
  lemma NonNumericIgnored(a: seq<JsValue>, m: JsValue, c: seq<JsValue>)
    requires Readable(a + [m] + c)
    requires ToNumber(Field(m, "valor")).None?
    ensures Readable(a + c) && TotalsOf(a + [m] + c) == TotalsOf(a + c)
  {
    assert forall b: Bucket :: Contribution(m, b) == 0;
    assert a + [m] + c == (a + [m]) + c;
    assert Readable(a) && Readable(c) && Readable([m]) by {
      assert forall x | x in a :: x in a + [m] + c;
      assert forall x | x in c :: x in a + [m] + c;
    }
    assert [m][..0] == [];
    forall b: Bucket ensures SumOfType(a + [m] + c, b) == SumOfType(a + c, b) {
      SumOfTypeAppend(a, [m], b);
      SumOfTypeAppend(a + [m], c, b);
      SumOfTypeAppend(a, c, b);
    }
  }

  /** A bucket none of whose movements carries its tag sums to 0, whatever their amounts. */
  lemma {:induction false} UntaggedSumZero(movs: seq<JsValue>, b: Bucket)
    requires Readable(movs)
    requires forall i | 0 <= i < |movs| :: BucketOf(Field(movs[i], "tipo")) != Some(b)
    ensures SumOfType(movs, b) == 0
    decreases |movs|
  {
    if movs != [] {
      UntaggedSumZero(movs[..|movs| - 1], b);
    }
  }

  /** A bucket whose movements all add a non-negative amount has a non-negative sum. */
  lemma {:induction false} SumOfTypeNonNegative(movs: seq<JsValue>, b: Bucket)
    requires Readable(movs)
    requires forall i | 0 <= i < |movs| :: Contribution(movs[i], b) >= 0
    ensures SumOfType(movs, b) >= 0
    decreases |movs|
  {
    if movs != [] {
      SumOfTypeNonNegative(movs[..|movs| - 1], b);
    }
  }

  /** Movements none of which carries one of the four tags give all-zero totals, whatever their amounts. */
  lemma UntaggedTotalsZero(movs: seq<JsValue>)
    requires Readable(movs)
    requires forall i | 0 <= i < |movs| :: BucketOf(Field(movs[i], "tipo")).None?
    ensures TotalsOf(movs) == Totals(0, 0, 0, 0, 0, 0)
  {
    UntaggedSumZero(movs, Entrada);
    UntaggedSumZero(movs, Fixo);
    UntaggedSumZero(movs, Variavel);
    UntaggedSumZero(movs, Cartao);
  }

  /** An empty movement list gives all-zero totals. */
  lemma EmptyTotals()
    ensures TotalsOf([]) == Totals(0, 0, 0, 0, 0, 0)
  {
  }

  /** The movements of `movs` whose `tipo` is the tag of `b`, in order. */
  function Matching(movs: seq<JsValue>, b: Bucket): (r: seq<JsValue>)
    requires Readable(movs)
    ensures Readable(r) && multiset(r) <= multiset(movs)
    ensures forall i | 0 <= i < |r| :: BucketOf(Field(r[i], "tipo")) == Some(b)
    decreases |movs|
  {
    if movs == [] then []
    else
      var init := movs[..|movs| - 1];
      var m := movs[|movs| - 1];
      assert movs == init + [m];
      if BucketOf(Field(m, "tipo")) == Some(b) then Matching(init, b) + [m] else Matching(init, b)
  }

  /** The plain sum of the coerced `valor` of the given movements. */
  function SumOfAmounts(movs: seq<JsValue>): int
    requires Readable(movs)
    decreases |movs|
  {
    if movs == [] then 0
    else SumOfAmounts(movs[..|movs| - 1]) + CoercedAmount(Field(movs[|movs| - 1], "valor"))
  }

  /**
   * `Matching` keeps every copy of a movement whose `tipo` is the tag of `b`
   * and no copy of any other movement.
   */
  lemma {:induction false} MatchingExact(movs: seq<JsValue>, b: Bucket, x: JsValue)
    requires Readable(movs) && !Nullish(x)
    ensures multiset(Matching(movs, b))[x]
      == if BucketOf(Field(x, "tipo")) == Some(b) then multiset(movs)[x] else 0
    decreases |movs|
  {
    if movs != [] {
      var init := movs[..|movs| - 1];
      var m := movs[|movs| - 1];
      assert movs == init + [m];
      MatchingExact(init, b, x);
    }
  }

  /** Each total is the sum of the coerced `valor` of exactly the movements tagged with its `tipo`. */
  lemma {:induction false} SumOfTypeIsSumOfMatching(movs: seq<JsValue>, b: Bucket)
    requires Readable(movs)
    ensures SumOfType(movs, b) == SumOfAmounts(Matching(movs, b))
    decreases |movs|
  {
    if movs != [] {
      var init := movs[..|movs| - 1];
      var m := movs[|movs| - 1];
      assert movs == init + [m];
      SumOfTypeIsSumOfMatching(init, b);
      var r := Matching(init, b);
      assert SumOfType(movs, b) == SumOfType(init, b) + Contribution(m, b);
      if BucketOf(Field(m, "tipo")) == Some(b) {
        assert Matching(movs, b) == r + [m];
        assert (r + [m])[..|r + [m]| - 1] == r;
        assert SumOfAmounts(r + [m]) == SumOfAmounts(r) + CoercedAmount(Field(m, "valor"));
      } else {
        assert Matching(movs, b) == r;
      }
    }
  }

  /** The worked example: 5000 in, 1200 fixed, 800 variable, 300 card. */
  lemma WorkedExample()
    ensures TotalsOf([
        Obj(map["tipo" := Str("entrada"), "valor" := Num(500000)]),
        Obj(map["tipo" := Str("fixo"), "valor" := Num(120000)]),
        Obj(map["tipo" := Str("variavel"), "valor" := Num(80000)]),
        Obj(map["tipo" := Str("cartao"), "valor" := Num(30000)])])
      == Totals(500000, 120000, 80000, 30000, 270000, 270000)
  {
    var e := Obj(map["tipo" := Str("entrada"), "valor" := Num(500000)]);
    var f := Obj(map["tipo" := Str("fixo"), "valor" := Num(120000)]);
    var v := Obj(map["tipo" := Str("variavel"), "valor" := Num(80000)]);
    var c := Obj(map["tipo" := Str("cartao"), "valor" := Num(30000)]);
    var movs := [e, f, v, c];
    assert Field(e, "tipo") == Str("entrada") && Field(e, "valor") == Num(500000);
    assert Field(f, "tipo") == Str("fixo") && Field(f, "valor") == Num(120000);
    assert Field(v, "tipo") == Str("variavel") && Field(v, "valor") == Num(80000);
    assert Field(c, "tipo") == Str("cartao") && Field(c, "valor") == Num(30000);
    forall b: Bucket
      ensures SumOfType(movs, b)
        == Contribution(e, b) + Contribution(f, b) + Contribution(v, b) + Contribution(c, b)
    {
      assert movs[..3] == [e, f, v];
      assert [e, f, v][..2] == [e, f];
      assert [e, f][..1] == [e];
      assert [e][..0] == [];
      assert SumOfType([e], b) == Contribution(e, b);
      assert SumOfType([e, f], b) == SumOfType([e], b) + Contribution(f, b);
      assert SumOfType([e, f, v], b) == SumOfType([e, f], b) + Contribution(v, b);
    }
  }
}
