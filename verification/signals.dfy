/**
 * The `post_save`/`post_delete` receiver on `Movimentacao`: recompute the
 * card and withdrawal caches of the movement's day from scratch.
 */
module Signals {
  import opened Models
  import opened Aggregates
  import Services

  /** Card and withdrawal caches hold the live sums of the day's movements. */
  predicate CacheCartaoSaida(f: Fechamento, ms: seq<Movimentacao>) {
    var doDia := MovimentosDo(ms, f.data);
    f.cacheTotalCartao == SomaTipo(doDia, Cartao) && f.cacheTotalSaida == SomaTipo(doDia, Saida)
  }

  /** `atualizar_cache_fechamento` applied to day `f` with movement table `ms`.
      The supply cache and the balances are written back as they were. */
  function AtualizarCacheFechamento(f: Fechamento, ms: seq<Movimentacao>): (r: Fechamento)
    ensures CacheCartaoSaida(r, ms)
    ensures r.cacheTotalSuprimento == f.cacheTotalSuprimento
    ensures r.data == f.data && r.saldoInicial == f.saldoInicial && r.saldoFinalFisico == f.saldoFinalFisico
  {
    var doDia := MovimentosDo(ms, f.data);
    var cartao := SomaSql(doDia, Cartao);
    var saida := SomaSql(doDia, Saida);
    SomaSqlMatchesSoma(doDia, Cartao);
    SomaSqlMatchesSoma(doDia, Saida);
    f.(cacheTotalCartao := OuZero(cartao), cacheTotalSaida := OuZero(saida))
  }

  /** Firing the handler twice leaves the same record as firing it once. */
  lemma SinalIdempotente(f: Fechamento, ms: seq<Movimentacao>)
    ensures AtualizarCacheFechamento(AtualizarCacheFechamento(f, ms), ms) == AtualizarCacheFechamento(f, ms)
  {
  }

  /** A day left without movements gets both caches back to 0. */
  lemma SinalSemMovimentos(f: Fechamento, ms: seq<Movimentacao>)
    requires MovimentosDo(ms, f.data) == []
    ensures AtualizarCacheFechamento(f, ms).cacheTotalCartao == 0
    ensures AtualizarCacheFechamento(f, ms).cacheTotalSaida == 0
  {
  }

  /** The handler agrees with the services refresh on the two caches it writes,
      so running it after that refresh keeps all three caches complete. */
  lemma SinalAposAtualizarCache(f: Fechamento, ms: seq<Movimentacao>)
    ensures Services.CacheCompleto(AtualizarCacheFechamento(Services.AtualizarCacheDoBanco(f, ms), ms), ms)
  {
  }

  /** The handler does not maintain the supply cache: a day with one
      500-cent supply keeps a stale supply cache of 0. */
  lemma SinalNaoAtualizaSuprimento(f: Fechamento)
    requires f.cacheTotalSuprimento == 0
    ensures var ms := [Movimentacao(1, f.data, Dinheiro, "troco", 500)];
      !Services.CacheCompleto(AtualizarCacheFechamento(f, ms), ms)
  {
    var ms := [Movimentacao(1, f.data, Dinheiro, "troco", 500)];
    assert MovimentosDo(ms, f.data) == ms;
    assert SomaTipo(ms, Dinheiro) == SomaTipo([], Dinheiro) + 500;
  }
}
