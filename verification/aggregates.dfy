/**
 * Per-kind sums of movement values, in the two forms the code uses:
 * Python's `sum(m.valor for m in ... if m.tipo == t)` (0 when nothing
 * matches) and the database aggregate `Sum('valor', filter=Q(tipo=t))`
 * (NULL when nothing matches).
 */
module Aggregates {
  import opened Wrappers
  import opened Models

  /** Reference sum: the values of the movements of kind `t`, left to right. */
  function SomaTipo(ms: seq<Movimentacao>, t: Tipo): int
  {
    if |ms| == 0 then 0
    else SomaTipo(ms[..|ms| - 1], t) + (if ms[|ms| - 1].tipo == t then ms[|ms| - 1].valor else 0)
  }

  /** SQL `SUM(valor) FILTER (WHERE tipo = t)`: NULL over an empty selection. */
  function SomaSql(ms: seq<Movimentacao>, t: Tipo): Option<int>
  {
    if |ms| == 0 then None
    else
      var acc := SomaSql(ms[..|ms| - 1], t);
      if ms[|ms| - 1].tipo == t then Some(acc.GetOr(0) + ms[|ms| - 1].valor) else acc
  }

  /** Python's `total or 0` applied to an aggregate. */
  function OuZero(o: Option<int>): int {
    o.GetOr(0)
  }

  predicate TemTipo(ms: seq<Movimentacao>, t: Tipo) {
    exists i :: 0 <= i < |ms| && ms[i].tipo == t
  }

  /** The aggregate is NULL exactly when no movement of that kind exists, and
      with NULL read as 0 it agrees with the in-memory sum. */
  lemma {:induction false} SomaSqlMatchesSoma(ms: seq<Movimentacao>, t: Tipo)
    ensures SomaSql(ms, t).None? <==> !TemTipo(ms, t)
    ensures OuZero(SomaSql(ms, t)) == SomaTipo(ms, t)
  {
    if |ms| > 0 {
      var p := ms[..|ms| - 1];
      SomaSqlMatchesSoma(p, t);
      assert forall i :: 0 <= i < |p| ==> p[i] == ms[i];
      if ms[|ms| - 1].tipo != t {
        assert TemTipo(ms, t) ==> TemTipo(p, t);
      }
    }
  }

  /** Appending movements adds their sum. */
  lemma {:induction false} SomaTipoAppend(a: seq<Movimentacao>, b: seq<Movimentacao>, t: Tipo)
    ensures SomaTipo(a + b, t) == SomaTipo(a, t) + SomaTipo(b, t)
    decreases |b|
  {
    if |b| == 0 {
      assert a + b == a;
    } else {
      var b' := b[..|b| - 1];
      assert (a + b)[..|a + b| - 1] == a + b';
      SomaTipoAppend(a, b', t);
    }
  }

  /** No movement of kind `t` means a zero sum. */
  lemma {:induction false} SomaTipoSemTipo(ms: seq<Movimentacao>, t: Tipo)
    requires !TemTipo(ms, t)
    ensures SomaTipo(ms, t) == 0
  {
    if |ms| > 0 {
      var p := ms[..|ms| - 1];
      assert forall i :: 0 <= i < |p| ==> p[i] == ms[i];
      SomaTipoSemTipo(p, t);
    }
  }

  /** The generator sum `sum(m.valor for m in ms if m.tipo == t)` as the loop Python runs. */
  method SomarGerador(ms: seq<Movimentacao>, t: Tipo) returns (total: int)
    ensures total == SomaTipo(ms, t)
    ensures !TemTipo(ms, t) ==> total == 0
  {
    total := 0;
    var i := 0;
    while i < |ms|
      invariant 0 <= i <= |ms|
      invariant total == SomaTipo(ms[..i], t)
    {
      assert ms[..i + 1][..i] == ms[..i];
      if ms[i].tipo == t {
        total := total + ms[i].valor;
      }
      i := i + 1;
    }
    assert ms[..|ms|] == ms;
    if !TemTipo(ms, t) {
      SomaTipoSemTipo(ms, t);
    }
  }

  /** What `resumo_rapido()` returns: one aggregate per kind, the supply total
      being the `DINHEIRO` movements. */
  datatype Agregados = Agregados(totalCartao: Option<int>, totalSuprimento: Option<int>, totalSaida: Option<int>)

  function ResumoRapido(ms: seq<Movimentacao>): (r: Agregados)
    ensures OuZero(r.totalCartao) == SomaTipo(ms, Cartao)
    ensures OuZero(r.totalSuprimento) == SomaTipo(ms, Dinheiro)
    ensures OuZero(r.totalSaida) == SomaTipo(ms, Saida)
    ensures ms == [] ==> r == Agregados(None, None, None)
  {
    SomaSqlMatchesSoma(ms, Cartao);
    SomaSqlMatchesSoma(ms, Dinheiro);
    SomaSqlMatchesSoma(ms, Saida);
    Agregados(SomaSql(ms, Cartao), SomaSql(ms, Dinheiro), SomaSql(ms, Saida))
  }
}
