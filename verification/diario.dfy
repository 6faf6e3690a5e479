/**
 * `diario_caixa` without its HTTP handling: date navigation, the
 * get-or-create of the visited day, the carry-forward of the opening
 * balance from the most recent earlier record, and the totals the view
 * computes for its template.
 */
module Diario {
  import opened Wrappers
  import opened Calendar
  import opened Models
  import opened Aggregates
  import Services
  import Signals
  import Ledger

  /** Every key of the store is a date Python could hold. */
  predicate ChavesValidas(fs: map<Date, Fechamento>) {
    forall k :: k in fs ==> Valid(k)
  }

  /** `k` is the record with the greatest date strictly before `d`. */
  predicate IsUltimoAntes(fs: map<Date, Fechamento>, d: Date, k: Date) {
    k in fs && Before(k, d) && forall j :: j in fs && Before(j, d) ==> !Before(k, j)
  }

  predicate NenhumAntes(fs: map<Date, Fechamento>, d: Date) {
    forall j :: j in fs ==> !Before(j, d)
  }

  /** At most one record is the latest before a date. */
  lemma UltimoAntesUnique(fs: map<Date, Fechamento>, d: Date, k1: Date, k2: Date)
    requires IsUltimoAntes(fs, d, k1) && IsUltimoAntes(fs, d, k2)
    ensures k1 == k2
  {
    BeforeIsStrictTotalOrder(k1, k2, d);
  }

  /**
   * `filter(data__lt=d).order_by('-data').first()`: found by walking back
   * one calendar day at a time until a stored date is met, which is the
   * greatest stored date before `d` (not necessarily the day before).
   */
  function UltimoAntes(fs: map<Date, Fechamento>, d: Date): (r: Option<Date>)
    requires Valid(d) && ChavesValidas(fs)
    ensures r.Some? ==> IsUltimoAntes(fs, d, r.value)
    ensures r.None? ==> NenhumAntes(fs, d)
    decreases d.year, d.month, d.day
  {
    match Prev(d)
    case None =>
      assert forall j :: j in fs ==> !Before(j, d) by {
        forall j | j in fs && Before(j, d)
          ensures false
        {
          PrevIsImmediate(d, j);
        }
      }
      None
    case Some(p) =>
      assert forall j :: j in fs && Before(j, d) ==> j == p || Before(j, p) by {
        forall j | j in fs && Before(j, d)
          ensures j == p || Before(j, p)
        {
          PrevIsImmediate(d, j);
        }
      }
      if p in fs then Some(p) else UltimoAntes(fs, p)
  }

  /** The store already carries the latest earlier closing balance into `d`'s opening balance. */
  predicate Transportado(fs: map<Date, Fechamento>, d: Date) {
    d in fs && forall k :: k in fs && IsUltimoAntes(fs, d, k) ==> fs[d].saldoInicial == fs[k].saldoFinalFisico
  }

  /** `get_or_create(data=d)`: the store with a record for `d`, and whether it was inserted. */
  function ObterOuCriar(fs: map<Date, Fechamento>, d: Date): (r: (map<Date, Fechamento>, bool))
    requires Valid(d)
    ensures r.0.Keys == fs.Keys + {d}
    ensures r.1 <==> d !in fs
    ensures d in fs ==> r.0 == fs
    ensures d !in fs ==> r.0 == fs[d := NovoFechamento(d)]
  {
    if d in fs then (fs, false) else (fs[d := NovoFechamento(d)], true)
  }

  /**
   * Lines 24-30: when an earlier record exists and the opening balance
   * differs from its closing count, overwrite it and `save()`.
   * Returns the store and whether a save happened.
   */
  function TransportarSaldo(fs: map<Date, Fechamento>, d: Date): (r: (map<Date, Fechamento>, bool))
    requires Valid(d) && ChavesValidas(fs) && d in fs
    ensures Transportado(r.0, d)
    ensures r.0.Keys == fs.Keys
    ensures forall k :: k in fs && k != d ==> r.0[k] == fs[k]
    ensures r.0[d] == fs[d].(saldoInicial := r.0[d].saldoInicial)
    ensures NenhumAntes(fs, d) ==> r.0 == fs
    ensures r.1 <==> !Transportado(fs, d)
    ensures !r.1 ==> r.0 == fs
  {
    match UltimoAntes(fs, d)
    case None => (fs, false)
    case Some(k) =>
      var anterior := fs[k];
      forall k' | IsUltimoAntes(fs, d, k')
        ensures k' == k
      {
        UltimoAntesUnique(fs, d, k, k');
      }
      if fs[d].saldoInicial != anterior.saldoFinalFisico then
        var fs' := fs[d := fs[d].(saldoInicial := anterior.saldoFinalFisico)];
        assert IsUltimoAntes(fs', d, k);
        forall k' | IsUltimoAntes(fs', d, k')
          ensures k' == k
        {
          UltimoAntesUnique(fs', d, k, k');
        }
        (fs', true)
      else (fs, false)
  }

  /** The error `date +/- timedelta(days=1)` raises at the ends of the calendar. */
  datatype ErroData = OverflowError

  /** What the view has established before it reads the form. */
  datatype Visita = Visita(
    anterior: Date,
    proximo: Date,
    fechamentos: map<Date, Fechamento>,
    criado: bool,
    salvo: bool)

  /** Lines 12-30 for date `d` (the caller parses `data_iso` or supplies today's date). */
  function Visitar(fs: map<Date, Fechamento>, d: Date): (r: Result<Visita, ErroData>)
    requires Valid(d) && ChavesValidas(fs)
    ensures r.Err? <==> d == MinDate || d == MaxDate
    ensures r.Ok? ==>
      var v := r.value;
      && Valid(v.anterior) && Valid(v.proximo)
      && Next(v.anterior) == Some(d) && Prev(v.proximo) == Some(d)
      && v.fechamentos.Keys == fs.Keys + {d}
      && (v.criado <==> d !in fs)
      && Transportado(v.fechamentos, d)
      && (forall k :: k in fs && k != d ==> v.fechamentos[k] == fs[k])
      && (d in fs ==> v.fechamentos[d] == fs[d].(saldoInicial := v.fechamentos[d].saldoInicial))
      && (d !in fs ==> v.fechamentos[d] == NovoFechamento(d).(saldoInicial := v.fechamentos[d].saldoInicial))
      && (NenhumAntes(fs, d) ==> v.fechamentos == ObterOuCriar(fs, d).0)
      && (!v.criado && !v.salvo ==> v.fechamentos == fs)
  {
    match (Prev(d), Next(d))
    case (Some(anterior), Some(proximo)) =>
      NextOfPrev(d);
      PrevOfNext(d);
      var (fs1, criado) := ObterOuCriar(fs, d);
      assert NenhumAntes(fs, d) ==> NenhumAntes(fs1, d);
      var (fs2, salvo) := TransportarSaldo(fs1, d);
      Ok(Visita(anterior, proximo, fs2, criado, salvo))
    case _ => Err(OverflowError)
  }

  /** Visiting the same date again inserts nothing and saves nothing. */
  lemma VisitarIdempotente(fs: map<Date, Fechamento>, d: Date)
    requires Valid(d) && ChavesValidas(fs) && Visitar(fs, d).Ok?
    ensures var v := Visitar(fs, d).value;
      && Visitar(v.fechamentos, d).Ok?
      && var w := Visitar(v.fechamentos, d).value;
      !w.criado && !w.salvo && w.fechamentos == v.fechamentos
  {
  }

  /** After a day's record exists, navigating to the next day carries that
      day's closing count into the next day's opening balance. */
  lemma ProximoDiaHerdaSaldo(fs: map<Date, Fechamento>, d: Date)
    requires Valid(d) && ChavesValidas(fs) && d in fs && d != MaxDate
    requires Visitar(fs, Next(d).value).Ok?
    ensures Visitar(fs, Next(d).value).value.fechamentos[Next(d).value].saldoInicial == fs[d].saldoFinalFisico
  {
    var n := Next(d).value;
    var fs' := Visitar(fs, n).value.fechamentos;
    assert IsUltimoAntes(fs', n, d) by {
      forall j | j in fs' && Before(j, n)
        ensures !Before(d, j)
      {
        NextIsImmediate(d, j);
      }
    }
  }

  /** The opening balance a visit writes is a stored closing balance, or
      the stored/default one: it stays a valid amount. */
  lemma VisitarKeepsKeys(fs: map<Date, Fechamento>, d: Date)
    requires Ledger.ChavesCoerentes(fs) && ChavesValidas(fs)
    requires Valid(d) && Visitar(fs, d).Ok?
    ensures Ledger.ChavesCoerentes(Visitar(fs, d).value.fechamentos)
  {
    var fs1 := ObterOuCriar(fs, d).0;
    var fs' := Visitar(fs, d).value.fechamentos;
    assert fs' == TransportarSaldo(fs1, d).0;
    assert Ledger.ChavesCoerentes(fs1);
    match UltimoAntes(fs1, d)
    case Some(k) =>
      assert IsUltimoAntes(fs', d, k);
      assert fs'[d].saldoInicial == fs1[k].saldoFinalFisico;
    case None =>
  }

  /** The card and withdrawal caches stay fresh: a created day has no
      movements yet, and the carry-forward touches only the opening balance. */
  lemma VisitarKeepsCaches(b: Ledger.Banco, d: Date)
    requires Ledger.BemFormado(b) && Ledger.CachesAtualizados(b)
    requires Valid(d) && ChavesValidas(b.fechamentos) && Visitar(b.fechamentos, d).Ok?
    ensures Ledger.CachesAtualizados(b.(fechamentos := Visitar(b.fechamentos, d).value.fechamentos))
  {
    var fs := b.fechamentos;
    var fs' := Visitar(fs, d).value.fechamentos;
    if d !in fs {
      assert forall i :: 0 <= i < |b.movimentacoes| ==> b.movimentacoes[i].fechamento != d;
      MovimentosDoIgnoresOthers(b.movimentacoes, d);
    } else {
      assert Signals.CacheCartaoSaida(fs[d], b.movimentacoes);
    }
    forall k | k in fs' && k != d
      ensures Signals.CacheCartaoSaida(fs'[k], b.movimentacoes)
    {
      assert Signals.CacheCartaoSaida(fs[k], b.movimentacoes);
    }
  }

  /** A visit keeps the ledger well formed and its signal caches fresh. */
  lemma VisitarPreservesLedger(b: Ledger.Banco, d: Date)
    requires Ledger.BemFormado(b) && Ledger.CachesAtualizados(b)
    requires Valid(d)
    ensures ChavesValidas(b.fechamentos)
    ensures Visitar(b.fechamentos, d).Ok? ==>
      var b' := b.(fechamentos := Visitar(b.fechamentos, d).value.fechamentos);
      Ledger.BemFormado(b') && Ledger.CachesAtualizados(b')
  {
    if Visitar(b.fechamentos, d).Ok? {
      VisitarKeepsKeys(b.fechamentos, d);
      VisitarKeepsCaches(b, d);
    }
  }

  /** The totals dictionary the view hands to its template. */
  datatype TotaisDiario = TotaisDiario(cartao: int, entradasEsp: int, retiradas: int, dinheiroMiudo: int, geral: int)

  /** Lines 53-69: in-memory sums, inferred cash sales clamped at 0, and a
      total revenue that counts the specific cash entries as revenue. */
  function TotaisDoDiario(f: Fechamento, ms: seq<Movimentacao>): (r: TotaisDiario)
    ensures var doDia := MovimentosDo(ms, f.data);
      && r.cartao == SomaTipo(doDia, Cartao)
      && r.entradasEsp == SomaTipo(doDia, Dinheiro)
      && r.retiradas == SomaTipo(doDia, Saida)
    ensures r.dinheiroMiudo >= 0
    ensures r.dinheiroMiudo > 0 ==> f.saldoInicial + r.entradasEsp + r.dinheiroMiudo - r.retiradas == f.saldoFinalFisico
    ensures r.dinheiroMiudo == 0 ==> f.saldoInicial + r.entradasEsp - r.retiradas >= f.saldoFinalFisico
    ensures r.geral == r.cartao + r.dinheiroMiudo + r.entradasEsp
  {
    var doDia := MovimentosDo(ms, f.data);
    var vendasCartao := SomaTipo(doDia, Cartao);
    var entradas := SomaTipo(doDia, Dinheiro);
    var retirado := SomaTipo(doDia, Saida);
    var miudos := (retirado + f.saldoFinalFisico) - (f.saldoInicial + entradas);
    var miudos' := if miudos < 0 then 0 else miudos;
    TotaisDiario(vendasCartao, entradas, retirado, miudos', vendasCartao + miudos' + entradas)
  }

  /** The view and `GestorCaixa.calcular_resumo` agree on every figure except
      total revenue, where the view's is larger by exactly the supplies. */
  lemma DiarioExcedeServicoPorSuprimentos(f: Fechamento, ms: seq<Movimentacao>)
    ensures var v := TotaisDoDiario(f, ms);
      var s := Services.CalcularResumo(f, ms);
      && v.cartao == s.cartao && v.entradasEsp == s.suprimentos && v.retiradas == s.saidas
      && v.dinheiroMiudo == s.dinheiro
      && v.geral == s.totalGeral + s.suprimentos
  {
    var v := TotaisDoDiario(f, ms);
    var s := Services.CalcularResumo(f, ms);
    Services.VendaDinheiroIsLeast(f.saldoInicial, f.saldoFinalFisico, s.suprimentos, s.saidas,
      if v.dinheiroMiudo > 0 then v.dinheiroMiudo else 0);
  }
}
