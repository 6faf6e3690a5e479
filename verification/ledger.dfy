/**
 * The store behind the views: the `FechamentoCaixa` table keyed by its
 * unique date and the `Movimentacao` table, with the writes the views
 * perform on movements (each followed by the signal handler) and the
 * cascading delete of a day.
 */
module Ledger {
  import opened Wrappers
  import opened Calendar
  import opened Models
  import opened Signals

  datatype Banco = Banco(fechamentos: map<Date, Fechamento>, movimentacoes: seq<Movimentacao>)

  /** `get_object_or_404` failing (404), and the movement form failing
      validation (the page is rendered again with the form's errors). */
  datatype Erro = NaoEncontrado | FormularioInvalido

  /** Each record is stored under its own `data`, so there is at most one record per date. */
  predicate ChavesCoerentes(fs: map<Date, Fechamento>) {
    forall d :: d in fs ==> fs[d].data == d && ValidFechamento(fs[d])
  }

  predicate IdsUnicos(ms: seq<Movimentacao>) {
    forall i, j :: 0 <= i < j < |ms| ==> ms[i].id != ms[j].id
  }

  /** Every movement belongs to exactly one existing day. */
  predicate ReferenciasValidas(b: Banco) {
    forall i :: 0 <= i < |b.movimentacoes| ==> b.movimentacoes[i].fechamento in b.fechamentos
  }

  /** Every stored movement satisfies its column constraints. */
  predicate MovimentosValidos(ms: seq<Movimentacao>) {
    forall m :: m in ms ==> ValidMovimentacao(m)
  }

  predicate BemFormado(b: Banco) {
    && ChavesCoerentes(b.fechamentos) && ReferenciasValidas(b)
    && IdsUnicos(b.movimentacoes) && MovimentosValidos(b.movimentacoes)
  }

  /** The signal-maintained caches agree with the live movements on every day. */
  predicate CachesAtualizados(b: Banco) {
    forall d :: d in b.fechamentos ==> CacheCartaoSaida(b.fechamentos[d], b.movimentacoes)
  }

  /** The primary-key lookup of `get_object_or_404(Movimentacao, id=id)`. */
  function IndiceDe(ms: seq<Movimentacao>, id: nat): (r: Option<nat>)
    ensures r.Some? ==> r.value < |ms| && ms[r.value].id == id
    ensures r.None? ==> forall i :: 0 <= i < |ms| ==> ms[i].id != id
  {
    if |ms| == 0 then None
    else if ms[0].id == id then Some(0)
    else match IndiceDe(ms[1..], id)
      case None => None
      case Some(k) => Some(k + 1)
  }

  /** A write on day `d`'s movements touches no record but `d`'s, and of that
      record only the card and withdrawal caches: the date, both balances and
      the supply cache are kept, and no day is added or removed. */
  predicate SoCachesDe(b: Banco, r: Banco, d: Date)
    requires d in b.fechamentos
  {
    && r.fechamentos.Keys == b.fechamentos.Keys
    && r.fechamentos[d].data == b.fechamentos[d].data
    && r.fechamentos[d].saldoInicial == b.fechamentos[d].saldoInicial
    && r.fechamentos[d].saldoFinalFisico == b.fechamentos[d].saldoFinalFisico
    && r.fechamentos[d].cacheTotalSuprimento == b.fechamentos[d].cacheTotalSuprimento
    && forall e :: e in b.fechamentos && e != d ==> r.fechamentos[e] == b.fechamentos[e]
  }

  /** The post-save/post-delete receiver fired for a movement of day `d`. */
  function Disparar(b: Banco, d: Date): (r: Banco)
    requires d in b.fechamentos
    ensures r.movimentacoes == b.movimentacoes
    ensures SoCachesDe(b, r, d)
    ensures CacheCartaoSaida(r.fechamentos[d], b.movimentacoes)
  {
    b.(fechamentos := b.fechamentos[d := AtualizarCacheFechamento(b.fechamentos[d], b.movimentacoes)])
  }

  /** A primary key no stored movement uses. */
  function ProximoId(ms: seq<Movimentacao>): (n: nat)
    ensures n >= 1
    ensures forall i :: 0 <= i < |ms| ==> ms[i].id < n
  {
    if |ms| == 0 then 1
    else
      var k := ProximoId(ms[..|ms| - 1]);
      if ms[|ms| - 1].id + 1 > k then ms[|ms| - 1].id + 1 else k
  }

  /** `diario_caixa` posting the movement form: a valid form becomes a
      movement of the visited day `d` (which `get_or_create` has just
      made sure exists) under a fresh primary key, then its signal.
      `codigo` is the posted value of the type select. */
  function AdicionarMovimentacao(b: Banco, d: Date, codigo: string, nome: string, valor: int): (r: Result<Banco, Erro>)
    requires d in b.fechamentos
    ensures r.Err? <==> !CamposValidos(codigo, nome, valor)
    ensures r.Err? ==> r.error == FormularioInvalido
    ensures r.Ok? ==>
      var n := |b.movimentacoes|;
      && |r.value.movimentacoes| == n + 1
      && r.value.movimentacoes[..n] == b.movimentacoes
      && r.value.movimentacoes[n].fechamento == d
      && CodigoTipo(r.value.movimentacoes[n].tipo) == codigo
      && r.value.movimentacoes[n].nome == nome
      && r.value.movimentacoes[n].valor == valor
      && IndiceDe(b.movimentacoes, r.value.movimentacoes[n].id).None?
    ensures r.Ok? ==> SoCachesDe(b, r.value, d)
    ensures r.Ok? ==> CacheCartaoSaida(r.value.fechamentos[d], r.value.movimentacoes)
  {
    if !CamposValidos(codigo, nome, valor) then Err(FormularioInvalido)
    else
      var m := Movimentacao(ProximoId(b.movimentacoes), d, LerTipo(codigo).value, nome, valor);
      var ms := b.movimentacoes + [m];
      assert ms[..|b.movimentacoes|] == b.movimentacoes;
      Ok(Disparar(b.(movimentacoes := ms), d))
  }

  /** Posting the form with the type select left at its initial choice books
      the movement the model's defaults describe: a card sale. */
  lemma AdicionarComTipoPadrao(b: Banco, d: Date, nome: string, valor: int)
    requires d in b.fechamentos && 0 < |nome| <= 100 && ValidMoney(valor)
    ensures AdicionarMovimentacao(b, d, CodigoTipo(TipoPadrao), nome, valor).Ok?
    ensures AdicionarMovimentacao(b, d, CodigoTipo(TipoPadrao), nome, valor).value.movimentacoes
      == b.movimentacoes + [NovaMovimentacao(ProximoId(b.movimentacoes), d, nome, valor)]
  {
    TipoCodeRoundTrip(TipoPadrao);
  }

  /** `deletar_movimentacao`: remove the movement, then its signal. */
  function DeletarMovimentacao(b: Banco, id: nat): (r: Result<Banco, Erro>)
    requires ReferenciasValidas(b)
    ensures r == Err(NaoEncontrado) <==> IndiceDe(b.movimentacoes, id).None?
    ensures r.Ok? <==> IndiceDe(b.movimentacoes, id).Some?
    ensures r.Ok? ==> var i := IndiceDe(b.movimentacoes, id).value;
      && r.value.movimentacoes == b.movimentacoes[..i] + b.movimentacoes[i + 1..]
      && SoCachesDe(b, r.value, b.movimentacoes[i].fechamento)
      && CacheCartaoSaida(r.value.fechamentos[b.movimentacoes[i].fechamento], r.value.movimentacoes)
  {
    match IndiceDe(b.movimentacoes, id)
    case None => Err(NaoEncontrado)
    case Some(i) =>
      var d := b.movimentacoes[i].fechamento;
      Ok(Disparar(b.(movimentacoes := b.movimentacoes[..i] + b.movimentacoes[i + 1..]), d))
  }

  /** `editar_movimentacao`: a valid form replaces `tipo`, `nome` and
      `valor`; the movement stays on its day. Then its signal. */
  function EditarMovimentacao(b: Banco, id: nat, codigo: string, nome: string, valor: int): (r: Result<Banco, Erro>)
    requires ReferenciasValidas(b)
    ensures r == Err(NaoEncontrado) <==> IndiceDe(b.movimentacoes, id).None?
    ensures r == Err(FormularioInvalido) <==> IndiceDe(b.movimentacoes, id).Some? && !CamposValidos(codigo, nome, valor)
    ensures r.Ok? <==> IndiceDe(b.movimentacoes, id).Some? && CamposValidos(codigo, nome, valor)
    ensures r.Ok? ==> var i := IndiceDe(b.movimentacoes, id).value;
      && |r.value.movimentacoes| == |b.movimentacoes|
      && CodigoTipo(r.value.movimentacoes[i].tipo) == codigo
      && r.value.movimentacoes[i] == b.movimentacoes[i].(tipo := r.value.movimentacoes[i].tipo, nome := nome, valor := valor)
      && (forall j :: 0 <= j < |b.movimentacoes| && j != i ==> r.value.movimentacoes[j] == b.movimentacoes[j])
      && SoCachesDe(b, r.value, b.movimentacoes[i].fechamento)
      && CacheCartaoSaida(r.value.fechamentos[b.movimentacoes[i].fechamento], r.value.movimentacoes)
  {
    match IndiceDe(b.movimentacoes, id)
    case None => Err(NaoEncontrado)
    case Some(i) =>
      if !CamposValidos(codigo, nome, valor) then Err(FormularioInvalido)
      else
      var m := b.movimentacoes[i];
      var m' := m.(tipo := LerTipo(codigo).value, nome := nome, valor := valor);
      Ok(Disparar(b.(movimentacoes := b.movimentacoes[i := m']), m.fechamento))
  }

  /** The movements not booked on day `d`, in table order. */
  function SemDia(ms: seq<Movimentacao>, d: Date): (r: seq<Movimentacao>)
    ensures forall i :: 0 <= i < |r| ==> r[i].fechamento != d && r[i] in ms
    ensures forall m :: m in ms && m.fechamento != d ==> m in r
  {
    if |ms| == 0 then []
    else if ms[0].fechamento == d then SemDia(ms[1..], d)
    else [ms[0]] + SemDia(ms[1..], d)
  }

  lemma {:induction false} SemDiaKeepsOtherDays(ms: seq<Movimentacao>, d: Date, e: Date)
    requires e != d
    ensures MovimentosDo(SemDia(ms, d), e) == MovimentosDo(ms, e)
  {
    if |ms| > 0 {
      SemDiaKeepsOtherDays(ms[1..], d, e);
      if ms[0].fechamento != d {
        assert ([ms[0]] + SemDia(ms[1..], d))[1..] == SemDia(ms[1..], d);
      }
    }
  }

  lemma {:induction false} SemDiaKeepsIds(ms: seq<Movimentacao>, d: Date)
    requires IdsUnicos(ms)
    ensures IdsUnicos(SemDia(ms, d))
  {
    if |ms| > 0 {
      SemDiaKeepsIds(ms[1..], d);
      if ms[0].fechamento != d {
        var r := SemDia(ms, d);
        forall i, j | 0 <= i < j < |r|
          ensures r[i].id != r[j].id
        {
          if i == 0 {
            assert r[j] in ms[1..];
          }
        }
      }
    }
  }

  /** Deleting a day (`on_delete=CASCADE`): the record and all its movements go. */
  function DeletarFechamento(b: Banco, d: Date): (r: Banco)
    ensures r.fechamentos == b.fechamentos - {d}
    ensures forall m :: m in r.movimentacoes ==> m.fechamento != d
    ensures forall m :: m in b.movimentacoes && m.fechamento != d ==> m in r.movimentacoes
  {
    Banco(b.fechamentos - {d}, SemDia(b.movimentacoes, d))
  }

  /** A change confined to one day's movements leaves every other day's list alone. */
  lemma SpliceKeepsOtherDays(pre: seq<Movimentacao>, mid: seq<Movimentacao>, post: seq<Movimentacao>, mid': seq<Movimentacao>, e: Date)
    requires MovimentosDo(mid, e) == MovimentosDo(mid', e)
    ensures MovimentosDo(pre + mid + post, e) == MovimentosDo(pre + mid' + post, e)
  {
    MovimentosDoAppend(pre + mid, post, e);
    MovimentosDoAppend(pre, mid, e);
    MovimentosDoAppend(pre + mid', post, e);
    MovimentosDoAppend(pre, mid', e);
  }

  /** Firing the handler for day `d` restores fresh caches when only `d`'s list changed. */
  lemma DispararRestoresCaches(b: Banco, ms: seq<Movimentacao>, d: Date)
    requires d in b.fechamentos && CachesAtualizados(b)
    requires forall e :: e != d ==> MovimentosDo(ms, e) == MovimentosDo(b.movimentacoes, e)
    requires forall e :: e in b.fechamentos ==> b.fechamentos[e].data == e
    ensures CachesAtualizados(Disparar(b.(movimentacoes := ms), d))
  {
    var r := Disparar(b.(movimentacoes := ms), d);
    forall e | e in r.fechamentos
      ensures CacheCartaoSaida(r.fechamentos[e], r.movimentacoes)
    {
      if e != d {
        assert CacheCartaoSaida(b.fechamentos[e], b.movimentacoes);
      }
    }
  }

  lemma DispararKeepsKeys(b: Banco, ms: seq<Movimentacao>, d: Date)
    requires d in b.fechamentos && ChavesCoerentes(b.fechamentos)
    ensures ChavesCoerentes(Disparar(b.(movimentacoes := ms), d).fechamentos)
  {
    var r := Disparar(b.(movimentacoes := ms), d);
    forall e | e in r.fechamentos
      ensures r.fechamentos[e].data == e && ValidFechamento(r.fechamentos[e])
    {
      assert ValidFechamento(b.fechamentos[e]);
    }
  }

  lemma AdicionarPreservesInvariants(b: Banco, d: Date, codigo: string, nome: string, valor: int)
    requires BemFormado(b) && CachesAtualizados(b) && d in b.fechamentos
    ensures var r := AdicionarMovimentacao(b, d, codigo, nome, valor);
      r.Ok? ==> BemFormado(r.value) && CachesAtualizados(r.value)
  {
    if !CamposValidos(codigo, nome, valor) {
      return;
    }
    var m := Movimentacao(ProximoId(b.movimentacoes), d, LerTipo(codigo).value, nome, valor);
    var ms := b.movimentacoes + [m];
    assert AdicionarMovimentacao(b, d, codigo, nome, valor).value == Disparar(b.(movimentacoes := ms), d);
    assert ValidFechamento(b.fechamentos[d]);
    AppendKeepsWellFormed(b, m);
    forall e | e != d
      ensures MovimentosDo(ms, e) == MovimentosDo(b.movimentacoes, e)
    {
      MovimentosDoAppend(b.movimentacoes, [m], e);
    }
    DispararRestoresCaches(b, ms, d);
    DispararKeepsKeys(b, ms, d);
  }

  /** Appending a valid movement of an existing day under an unused id keeps
      ids unique, references valid and every row within its constraints. */
  lemma AppendKeepsWellFormed(b: Banco, m: Movimentacao)
    requires BemFormado(b) && m.fechamento in b.fechamentos && ValidMovimentacao(m)
    requires forall i :: 0 <= i < |b.movimentacoes| ==> b.movimentacoes[i].id < m.id
    ensures var ms := b.movimentacoes + [m];
      && IdsUnicos(ms) && MovimentosValidos(ms)
      && forall j :: 0 <= j < |ms| ==> ms[j].fechamento in b.fechamentos
  {
    var ms := b.movimentacoes + [m];
    forall i, j | 0 <= i < j < |ms|
      ensures ms[i].id != ms[j].id
    {
      assert ms[i] == b.movimentacoes[i];
    }
  }

  /** Removing one entry keeps ids unique and references valid. */
  lemma RemoveAtKeepsWellFormed(b: Banco, i: nat)
    requires BemFormado(b) && i < |b.movimentacoes|
    ensures var ms' := b.movimentacoes[..i] + b.movimentacoes[i + 1..];
      && IdsUnicos(ms') && MovimentosValidos(ms')
      && forall j :: 0 <= j < |ms'| ==> ms'[j].fechamento in b.fechamentos
  {
    var ms := b.movimentacoes;
    var ms' := ms[..i] + ms[i + 1..];
    assert forall j :: 0 <= j < |ms'| ==> ms'[j] == ms[if j < i then j else j + 1];
  }

  /** Every other day's movement list is unchanged when entry `i` is replaced
      by `m'` of the same day (`m'` given) or removed (`m'` absent). */
  lemma ReplaceAtKeepsOtherDays(ms: seq<Movimentacao>, i: nat, mid': seq<Movimentacao>, e: Date)
    requires i < |ms| && ms[i].fechamento != e
    requires forall k :: 0 <= k < |mid'| ==> mid'[k].fechamento == ms[i].fechamento
    ensures MovimentosDo(ms[..i] + mid' + ms[i + 1..], e) == MovimentosDo(ms, e)
  {
    assert ms == ms[..i] + [ms[i]] + ms[i + 1..];
    MovimentosDoIgnoresOthers(mid', e);
    MovimentosDoIgnoresOthers([ms[i]], e);
    SpliceKeepsOtherDays(ms[..i], [ms[i]], ms[i + 1..], mid', e);
  }

  lemma DeletarPreservesInvariants(b: Banco, id: nat)
    requires BemFormado(b) && CachesAtualizados(b)
    ensures var r := DeletarMovimentacao(b, id);
      r.Ok? ==> BemFormado(r.value) && CachesAtualizados(r.value)
  {
    if IndiceDe(b.movimentacoes, id).None? {
      return;
    }
    var i := IndiceDe(b.movimentacoes, id).value;
    var ms := b.movimentacoes;
    var ms' := ms[..i] + ms[i + 1..];
    assert DeletarMovimentacao(b, id).value == Disparar(b.(movimentacoes := ms'), ms[i].fechamento);
    DispararKeepsKeys(b, ms', ms[i].fechamento);
    RemoveAtKeepsWellFormed(b, i);
    RemoveAtKeepsCaches(b, i);
  }

  lemma RemoveAtKeepsCaches(b: Banco, i: nat)
    requires ChavesCoerentes(b.fechamentos) && CachesAtualizados(b)
    requires i < |b.movimentacoes| && b.movimentacoes[i].fechamento in b.fechamentos
    ensures CachesAtualizados(Disparar(b.(movimentacoes := b.movimentacoes[..i] + b.movimentacoes[i + 1..]), b.movimentacoes[i].fechamento))
  {
    var ms := b.movimentacoes;
    var ms' := ms[..i] + ms[i + 1..];
    forall e | e != ms[i].fechamento
      ensures MovimentosDo(ms', e) == MovimentosDo(ms, e)
    {
      ReplaceAtKeepsOtherDays(ms, i, [], e);
      assert ms[..i] + [] + ms[i + 1..] == ms';
    }
    DispararRestoresCaches(b, ms', ms[i].fechamento);
  }

  lemma EditarPreservesInvariants(b: Banco, id: nat, codigo: string, nome: string, valor: int)
    requires BemFormado(b) && CachesAtualizados(b)
    ensures var r := EditarMovimentacao(b, id, codigo, nome, valor);
      r.Ok? ==> BemFormado(r.value) && CachesAtualizados(r.value)
  {
    if IndiceDe(b.movimentacoes, id).None? || !CamposValidos(codigo, nome, valor) {
      return;
    }
    var i := IndiceDe(b.movimentacoes, id).value;
    var ms := b.movimentacoes;
    var m' := ms[i].(tipo := LerTipo(codigo).value, nome := nome, valor := valor);
    var ms' := ms[i := m'];
    assert EditarMovimentacao(b, id, codigo, nome, valor).value == Disparar(b.(movimentacoes := ms'), ms[i].fechamento);
    assert ms[i] in ms && ValidMovimentacao(ms[i]);
    DispararKeepsKeys(b, ms', ms[i].fechamento);
    ReplaceAtKeepsWellFormed(b, i, m');
    ReplaceAtKeepsCaches(b, i, m');
  }

  lemma ReplaceAtKeepsWellFormed(b: Banco, i: nat, m': Movimentacao)
    requires BemFormado(b) && i < |b.movimentacoes| && ValidMovimentacao(m')
    requires m'.fechamento == b.movimentacoes[i].fechamento && m'.id == b.movimentacoes[i].id
    ensures IdsUnicos(b.movimentacoes[i := m'])
    ensures MovimentosValidos(b.movimentacoes[i := m'])
    ensures ReferenciasValidas(b.(movimentacoes := b.movimentacoes[i := m']))
  {
    var ms' := b.movimentacoes[i := m'];
    assert forall j :: 0 <= j < |ms'| ==> ms'[j].id == b.movimentacoes[j].id && ms'[j].fechamento == b.movimentacoes[j].fechamento;
  }

  lemma ReplaceAtKeepsCaches(b: Banco, i: nat, m': Movimentacao)
    requires ChavesCoerentes(b.fechamentos) && CachesAtualizados(b)
    requires i < |b.movimentacoes| && b.movimentacoes[i].fechamento in b.fechamentos
    requires m'.fechamento == b.movimentacoes[i].fechamento
    ensures CachesAtualizados(Disparar(b.(movimentacoes := b.movimentacoes[i := m']), m'.fechamento))
  {
    var ms := b.movimentacoes;
    var ms' := ms[i := m'];
    assert ms' == ms[..i] + [m'] + ms[i + 1..];
    forall e | e != ms[i].fechamento
      ensures MovimentosDo(ms', e) == MovimentosDo(ms, e)
    {
      ReplaceAtKeepsOtherDays(ms, i, [m'], e);
    }
    DispararRestoresCaches(b, ms', m'.fechamento);
  }

  lemma DeletarFechamentoPreservesInvariants(b: Banco, d: Date)
    requires BemFormado(b) && CachesAtualizados(b)
    ensures BemFormado(DeletarFechamento(b, d))
    ensures CachesAtualizados(DeletarFechamento(b, d))
    ensures MovimentosDo(DeletarFechamento(b, d).movimentacoes, d) == []
  {
    var r := DeletarFechamento(b, d);
    SemDiaKeepsIds(b.movimentacoes, d);
    forall e | e in r.fechamentos
      ensures CacheCartaoSaida(r.fechamentos[e], r.movimentacoes)
    {
      SemDiaKeepsOtherDays(b.movimentacoes, d, e);
      assert CacheCartaoSaida(b.fechamentos[e], b.movimentacoes);
    }
    forall i | 0 <= i < |r.movimentacoes|
      ensures r.movimentacoes[i].fechamento in r.fechamentos
    {
      var m := r.movimentacoes[i];
      assert m in b.movimentacoes;
      var k :| 0 <= k < |b.movimentacoes| && b.movimentacoes[k] == m;
    }
    assert forall i :: 0 <= i < |r.movimentacoes| ==> r.movimentacoes[i].fechamento != d;
    MovimentosDoIgnoresOthers(r.movimentacoes, d);
  }
}
