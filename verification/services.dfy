/**
 * `GestorCaixa`: the day summary with the inferred cash sales, and the
 * refresh of a day's cached totals.
 */
module Services {
  import opened Models
  import opened Aggregates

  /**
   * Cash sales are never booked: they are what must have come into the
   * till for the counted closing balance to be reached, and never
   * negative. Either the till balances with exactly `r` of sales, or it
   * already holds at least the closing count with none.
   */
  function VendaDinheiro(inicial: int, final: int, suprimentos: int, saidas: int): (r: int)
    ensures r >= 0
    ensures r > 0 ==> inicial + suprimentos + r - saidas == final
    ensures r == 0 ==> inicial + suprimentos - saidas >= final
  {
    var bruto := (final + saidas) - (inicial + suprimentos);
    if bruto < 0 then 0 else bruto
  }

  /** The inferred cash sale is the least non-negative amount that explains
      the closing count. */
  lemma VendaDinheiroIsLeast(inicial: int, final: int, suprimentos: int, saidas: int, x: int)
    requires x >= 0 && inicial + suprimentos + x - saidas >= final
    ensures VendaDinheiro(inicial, final, suprimentos, saidas) <= x
    ensures inicial + suprimentos + VendaDinheiro(inicial, final, suprimentos, saidas) - saidas >= final
  {
  }

  /** The dictionary `calcular_resumo` returns. */
  datatype Resumo = Resumo(cartao: int, dinheiro: int, saidas: int, suprimentos: int, totalGeral: int)

  /** The business rule applied to a day's three totals; supplies are not revenue. */
  function Resolver(f: Fechamento, cartao: int, suprimentos: int, saidas: int): (r: Resumo)
    ensures r.cartao == cartao && r.suprimentos == suprimentos && r.saidas == saidas
    ensures r.dinheiro >= 0
    ensures r.totalGeral - r.cartao == r.dinheiro
    ensures r.dinheiro > 0 ==> f.saldoInicial + suprimentos + r.dinheiro - saidas == f.saldoFinalFisico
    ensures r.dinheiro == 0 ==> f.saldoInicial + suprimentos - saidas >= f.saldoFinalFisico
  {
    var dinheiro := VendaDinheiro(f.saldoInicial, f.saldoFinalFisico, suprimentos, saidas);
    Resumo(cartao, dinheiro, saidas, suprimentos, cartao + dinheiro)
  }

  /** `GestorCaixa(f).calcular_resumo()` over the movement table `ms`. */
  function CalcularResumo(f: Fechamento, ms: seq<Movimentacao>): (r: Resumo)
    ensures var doDia := MovimentosDo(ms, f.data);
      && r.cartao == SomaTipo(doDia, Cartao)
      && r.suprimentos == SomaTipo(doDia, Dinheiro)
      && r.saidas == SomaTipo(doDia, Saida)
    ensures r.dinheiro >= 0
    ensures r.totalGeral == r.cartao + r.dinheiro
    ensures r.dinheiro > 0 ==> f.saldoInicial + r.suprimentos + r.dinheiro - r.saidas == f.saldoFinalFisico
    ensures r.dinheiro == 0 ==> f.saldoInicial + r.suprimentos - r.saidas >= f.saldoFinalFisico
  {
    var totais := ResumoRapido(MovimentosDo(ms, f.data));
    Resolver(f, OuZero(totais.totalCartao), OuZero(totais.totalSuprimento), OuZero(totais.totalSaida))
  }

  /** A day without movements earns exactly the growth of its till, if any. */
  lemma DiaSemMovimentos(f: Fechamento, ms: seq<Movimentacao>)
    requires MovimentosDo(ms, f.data) == []
    ensures var r := CalcularResumo(f, ms);
      && r.cartao == 0 && r.saidas == 0 && r.suprimentos == 0
      && r.totalGeral == (if f.saldoFinalFisico > f.saldoInicial then f.saldoFinalFisico - f.saldoInicial else 0)
  {
  }

  /** All three cache fields hold the live sums of the day's movements. */
  predicate CacheCompleto(f: Fechamento, ms: seq<Movimentacao>) {
    var doDia := MovimentosDo(ms, f.data);
    && f.cacheTotalCartao == SomaTipo(doDia, Cartao)
    && f.cacheTotalSaida == SomaTipo(doDia, Saida)
    && f.cacheTotalSuprimento == SomaTipo(doDia, Dinheiro)
  }

  /** `atualizar_cache_do_banco`: recompute the three caches; nothing else is written. */
  function AtualizarCacheDoBanco(f: Fechamento, ms: seq<Movimentacao>): (r: Fechamento)
    ensures CacheCompleto(r, ms)
    ensures r.data == f.data && r.saldoInicial == f.saldoInicial && r.saldoFinalFisico == f.saldoFinalFisico
  {
    var totais := ResumoRapido(MovimentosDo(ms, f.data));
    f.(cacheTotalCartao := OuZero(totais.totalCartao),
       cacheTotalSaida := OuZero(totais.totalSaida),
       cacheTotalSuprimento := OuZero(totais.totalSuprimento))
  }

  /** The summary a report would build from the cached fields alone. */
  function ResumoDoCache(f: Fechamento): Resumo {
    Resolver(f, f.cacheTotalCartao, f.cacheTotalSuprimento, f.cacheTotalSaida)
  }

  /** Cached and live summaries agree whenever the cache is complete, in
      particular right after a refresh. */
  lemma CacheMatchesLive(f: Fechamento, ms: seq<Movimentacao>)
    requires CacheCompleto(f, ms)
    ensures ResumoDoCache(f) == CalcularResumo(f, ms)
  {
  }

  /** Refreshing twice writes the same values as refreshing once. */
  lemma AtualizarCacheIdempotente(f: Fechamento, ms: seq<Movimentacao>)
    ensures AtualizarCacheDoBanco(AtualizarCacheDoBanco(f, ms), ms) == AtualizarCacheDoBanco(f, ms)
  {
  }
}
