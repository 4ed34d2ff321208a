/**
 * The movement list embedded in the report request: one display line per
 * movement, `{data|-} | {tipo} | {categoria} | R$ {valor, two decimals} | {descricao|-}`,
 * joined with "\n" in input order.
 */
module MovementLines {
  import opened Wrappers
  import opened JsValues
  import Decimal
  import opened Aggregation

  /** `${v || "-"}`: a falsy value prints as a dash. */
  function OrDash(v: JsValue): string
  {
    if Truthy(v) then ToStr(v) else "-"
  }

  /**
   * `Number(valor || 0).toFixed(2)`: a falsy `valor` prints as 0.00, a
   * truthy one that is not a number as NaN, any other with two decimals.
   */
  function AmountText(valor: JsValue): (s: string)
    ensures s == "NaN" <==> Truthy(valor) && ToNumber(valor).None?
    ensures s != "NaN" ==> Decimal.TwoDecimals(s)
    ensures !Truthy(valor) ==> s == "0.00"
  {
    if !Truthy(valor) then Decimal.FixedTwoZero(); Decimal.FixedTwo(0)
    else
      match ToNumber(valor)
      case None => "NaN"
      case Some(c) => Decimal.FixedTwo(c)
  }

  /**
   * The printed amount reads back as the amount the totals count, except for
   * a truthy non-numeric `valor`, which counts as 0 but prints as NaN.
   */
  lemma AmountAgreesWithTotals(valor: JsValue)
    ensures AmountText(valor) != "NaN" ==> Decimal.ParseCents(AmountText(valor)) == Some(CoercedAmount(valor))
    ensures AmountText(valor) == Decimal.FixedTwo(CoercedAmount(valor))
        <==> !(Truthy(valor) && ToNumber(valor).None?)
  {
    Decimal.FixedTwoRoundTrip(CoercedAmount(valor));
    Decimal.FixedTwoRoundTrip(0);
    if !Truthy(valor) {
      match valor
      case Str(s) => assert s == "" && Decimal.Trim(s) == "";
      case _ =>
    }
  }

  /**
   * The five cells of a movement's line: `data` or a dash, `tipo`, `categoria`
   * printed as it is (no dash), "R$ " and the amount, `descricao` or a dash.
   */
  function LineCells(m: JsValue): (cells: seq<string>)
    requires !Nullish(m)
    ensures |cells| == 5
    ensures !Truthy(Field(m, "data")) ==> cells[0] == "-"
    ensures Truthy(Field(m, "data")) ==> cells[0] == ToStr(Field(m, "data"))
    ensures cells[1] == ToStr(Field(m, "tipo")) && cells[2] == ToStr(Field(m, "categoria"))
    ensures cells[3] == "R$ " + AmountText(Field(m, "valor"))
    ensures !Truthy(Field(m, "descricao")) ==> cells[4] == "-"
    ensures Truthy(Field(m, "descricao")) ==> cells[4] == ToStr(Field(m, "descricao"))
    ensures |cells[3]| >= 3 && cells[3][..3] == "R$ " && (cells[3][3..] == "NaN" || Decimal.TwoDecimals(cells[3][3..]))
    ensures NewlineFree(m) ==> forall i | 0 <= i < |cells| :: '\n' !in cells[i]
  {
    AmountHasNoNewline(Field(m, "valor"));
    [OrDash(Field(m, "data")), ToStr(Field(m, "tipo")), ToStr(Field(m, "categoria")),
     "R$ " + AmountText(Field(m, "valor")), OrDash(Field(m, "descricao"))]
  }

  /** `Array.prototype.join(sep)` on strings. */
  function JoinWith(xs: seq<string>, sep: string): string
    decreases |xs|
  {
    if |xs| == 0 then ""
    else if |xs| == 1 then xs[0]
    else xs[0] + sep + JoinWith(xs[1..], sep)
  }

  /** One movement as a display line: its cells separated by " | "; no newline unless a printed field holds one. */
  function RenderLine(m: JsValue): (s: string)
    requires !Nullish(m)
    ensures var c := LineCells(m);
      s == c[0] + " | " + c[1] + " | " + c[2] + " | " + c[3] + " | " + c[4]
    ensures NewlineFree(m) ==> '\n' !in s
  {
    var c := LineCells(m);
    JoinWithAvoids(c, " | ", '\n');
    FiveCells(c, " | ");
    JoinWith(c, " | ")
  }

  /** Joining five pieces puts the separator between each neighbouring pair. */
  lemma FiveCells(c: seq<string>, sep: string)
    requires |c| == 5
    ensures JoinWith(c, sep) == c[0] + sep + c[1] + sep + c[2] + sep + c[3] + sep + c[4]
  {
    JoinWithLast(c, sep);
    JoinWithLast(c[..4], sep);
    JoinWithLast(c[..4][..3], sep);
    assert c[..4][..3][..2] == [c[0], c[1]];
  }

  /** `movimentos.map(...)`. */
  function RenderLines(movs: seq<JsValue>): seq<string>
    requires Readable(movs)
  {
    seq(|movs|, i requires 0 <= i < |movs| => RenderLine(movs[i]))
  }

  /** `lines.join("\n")`. */
  function JoinLines(lines: seq<string>): string
  {
    JoinWith(lines, "\n")
  }

  /**
   * The movement list as the report request embeds it: no movements give
   * the empty text; otherwise, when no printed field holds a newline,
   * splitting it at newlines gives back the lines of the movements in order.
   */
  function RenderList(movs: seq<JsValue>): (s: string)
    requires Readable(movs)
    ensures movs == [] ==> s == ""
    ensures movs != [] && (forall i | 0 <= i < |movs| :: NewlineFree(movs[i])) ==> SplitLines(s) == RenderLines(movs)
  {
    SplitJoinWhenFree(RenderLines(movs));
    JoinLines(RenderLines(movs))
  }

  /** `SplitJoin` for any lines, stated as an implication. */
  lemma SplitJoinWhenFree(lines: seq<string>)
    ensures |lines| >= 1 && (forall i | 0 <= i < |lines| :: '\n' !in lines[i]) ==> SplitLines(JoinLines(lines)) == lines
  {
    if |lines| >= 1 && forall i | 0 <= i < |lines| :: '\n' !in lines[i] {
      SplitJoin(lines);
    }
  }

  /** Index of the first "\n", or |s| when there is none. */
  function NewlineIndex(s: string): (k: nat)
    ensures k <= |s|
    ensures k < |s| ==> s[k] == '\n'
    decreases |s|
  {
    if s == [] || s[0] == '\n' then 0 else 1 + NewlineIndex(s[1..])
  }

  /** `s.split("\n")`: the inverse of joining lines that hold no newline. */
  function SplitLines(s: string): (r: seq<string>)
    ensures |r| >= 1
    decreases |s|
  {
    var k := NewlineIndex(s);
    if k == |s| then [s] else [s[..k]] + SplitLines(s[k + 1..])
  }

  lemma {:induction false} NewlineIndexAfter(a: string, b: string)
    requires '\n' !in a
    ensures NewlineIndex(a + b) == |a| + NewlineIndex(b)
    decreases |a|
  {
    if a == [] {
      assert a + b == b;
    } else {
      assert (a + b)[1..] == a[1..] + b;
      NewlineIndexAfter(a[1..], b);
    }
  }

  /** Splitting the joined text at newlines gives the lines back, when no line holds a newline. */
  lemma {:induction false} SplitJoin(lines: seq<string>)
    requires |lines| >= 1
    requires forall i | 0 <= i < |lines| :: '\n' !in lines[i]
    ensures SplitLines(JoinLines(lines)) == lines
    decreases |lines|
  {
    var l := lines[0];
    if |lines| == 1 {
      NewlineIndexAfter(l, "");
      assert l + "" == l;
    } else {
      var rest := JoinLines(lines[1..]);
      var s := l + "\n" + rest;
      assert s == l + ("\n" + rest);
      NewlineIndexAfter(l, "\n" + rest);
      assert s[..|l|] == l;
      assert s[|l| + 1..] == rest;
      SplitJoin(lines[1..]);
      assert lines == [l] + lines[1..];
    }
  }

  /** Joining pieces that do not hold `ch` with a separator that does not hold it gives text without `ch`. */
  lemma {:induction false} JoinWithAvoids(xs: seq<string>, sep: string, ch: char)
    ensures ch !in sep && (forall i | 0 <= i < |xs| :: ch !in xs[i]) ==> ch !in JoinWith(xs, sep)
    decreases |xs|
  {
    if |xs| >= 2 {
      JoinWithAvoids(xs[1..], sep, ch);
    }
  }

  /** The last piece of a join is preceded by the separator. */
  lemma {:induction false} JoinWithLast(xs: seq<string>, sep: string)
    requires |xs| >= 2
    ensures JoinWith(xs, sep) == JoinWith(xs[..|xs| - 1], sep) + sep + xs[|xs| - 1]
    decreases |xs|
  {
    if |xs| > 2 {
      JoinWithLast(xs[1..], sep);
      assert xs[1..][..|xs| - 2] == xs[..|xs| - 1][1..];
    }
  }

  /** The texts of a movement that the line prints verbatim hold no newline. */
  predicate NewlineFree(m: JsValue)
    requires !Nullish(m)
  {
    && '\n' !in ToStr(Field(m, "data"))
    && '\n' !in ToStr(Field(m, "tipo"))
    && '\n' !in ToStr(Field(m, "categoria"))
    && '\n' !in ToStr(Field(m, "descricao"))
  }

  /** The printed amount never holds a newline. */
  lemma AmountHasNoNewline(valor: JsValue)
    ensures '\n' !in AmountText(valor)
  {
    var a := AmountText(valor);
    if a != "NaN" {
      forall i | 0 <= i < |a| ensures a[i] != '\n' {
        if i < |a| - 3 {
          assert Decimal.IsDigit(a[i]) || a[i] == '-';
        }
      }
    }
  }

  /**
   * The rendered list has exactly one line per movement, in input order:
   * splitting it at newlines gives each movement's line at its own index.
   */
  lemma RenderListLines(movs: seq<JsValue>)
    requires Readable(movs) && movs != []
    requires forall i | 0 <= i < |movs| :: NewlineFree(movs[i])
    ensures |SplitLines(RenderList(movs))| == |movs|
    ensures forall i | 0 <= i < |movs| :: SplitLines(RenderList(movs))[i] == RenderLine(movs[i])
  {
    assert SplitLines(RenderList(movs)) == RenderLines(movs);
  }

  /** No movements give an empty list. */
  lemma EmptyList()
    ensures RenderList([]) == ""
  {
  }

  /** A falsy `data` opens the line with a dash, a falsy `descricao` closes it with one. */
  lemma DashForMissing(m: JsValue)
    requires !Nullish(m)
    ensures !Truthy(Field(m, "data")) ==> RenderLine(m) == "-" + " | " + JoinWith(LineCells(m)[1..], " | ")
    ensures !Truthy(Field(m, "descricao")) ==> RenderLine(m) == JoinWith(LineCells(m)[..4], " | ") + " | " + "-"
  {
    JoinWithLast(LineCells(m), " | ");
  }

  /** Two movements whose printed fields agree print the same line. */
  lemma SameCells(m: JsValue, u: JsValue)
    requires !Nullish(m) && !Nullish(u)
    requires Field(m, "data") == Field(u, "data") && Field(m, "tipo") == Field(u, "tipo")
    requires Field(m, "valor") == Field(u, "valor") && Field(m, "descricao") == Field(u, "descricao")
    requires ToStr(Field(m, "categoria")) == ToStr(Field(u, "categoria"))
    ensures LineCells(m) == LineCells(u)
  {
    var a, b := LineCells(m), LineCells(u);
    assert a[0] == b[0] && a[1] == b[1] && a[2] == b[2] && a[3] == b[3] && a[4] == b[4];
  }

  /**
   * A missing `categoria` is not replaced by a dash: its cell reads
   * "undefined", and its line is the line of the text "undefined".
   */
  lemma CategoriaNotDefaulted(fields: map<string, JsValue>)
    requires "categoria" !in fields
    ensures LineCells(Obj(fields))[2] == "undefined"
    ensures RenderLine(Obj(fields)) == RenderLine(Obj(fields["categoria" := Str("undefined")]))
  {
    var m, u := Obj(fields), Obj(fields["categoria" := Str("undefined")]);
    assert Field(m, "categoria") == Undefined;
    assert Field(u, "categoria") == Str("undefined");
    assert Field(m, "data") == Field(u, "data") && Field(m, "tipo") == Field(u, "tipo");
    assert Field(m, "valor") == Field(u, "valor") && Field(m, "descricao") == Field(u, "descricao");
    SameCells(m, u);
  }
}
