/**
 * The two tables of the cash ledger: one closing record (`FechamentoCaixa`)
 * per business date and the movements (`Movimentacao`) booked against it.
 * Monetary `DecimalField(max_digits=10, decimal_places=2)` values are
 * integer cents.
 */
module Models {
  import opened Wrappers
  import opened Calendar

  /** 99 999 999.99, the largest amount ten digits with two decimals can hold. */
  const MaxCents: int := 9_999_999_999

  predicate ValidMoney(x: int) {
    -MaxCents <= x <= MaxCents
  }

  /** `TIPO_CHOICES`: card/Pix sale, specific cash entry (a supply), cash withdrawal. */
  datatype Tipo = Cartao | Dinheiro | Saida

  const TipoPadrao: Tipo := Cartao
  const TipoMaxLength: int := 10

  /** The stored code of each choice. */
  function CodigoTipo(t: Tipo): string {
    match t
    case Cartao => "CARTAO"
    case Dinheiro => "DINHEIRO"
    case Saida => "SAIDA"
  }

  /** Choice validation of the `tipo` column: only the three codes are accepted. */
  function LerTipo(s: string): (r: Option<Tipo>)
    ensures r.Some? ==> CodigoTipo(r.value) == s
    ensures r.None? ==> forall t: Tipo :: CodigoTipo(t) != s
  {
    if s == "CARTAO" then Some(Cartao)
    else if s == "DINHEIRO" then Some(Dinheiro)
    else if s == "SAIDA" then Some(Saida)
    else None
  }

  /** Every choice round-trips through its code, and every code fits `max_length=10`. */
  lemma TipoCodeRoundTrip(t: Tipo)
    ensures LerTipo(CodigoTipo(t)) == Some(t)
    ensures |CodigoTipo(t)| <= TipoMaxLength
  {
  }

  /**
   * One business day. `data` is the unique key; the three `cache_*`
   * fields are the denormalised per-day totals the services and the
   * signal handler write (default 0). The creation timestamp is omitted.
   */
  datatype Fechamento = Fechamento(
    data: Date,
    saldoInicial: int,
    saldoFinalFisico: int,
    cacheTotalCartao: int,
    cacheTotalSaida: int,
    cacheTotalSuprimento: int)

  /** A movement; `fechamento` is the foreign key (the date of its day). */
  datatype Movimentacao = Movimentacao(
    id: nat,
    fechamento: Date,
    tipo: Tipo,
    nome: string,
    valor: int)

  predicate ValidFechamento(f: Fechamento) {
    Valid(f.data) && ValidMoney(f.saldoInicial) && ValidMoney(f.saldoFinalFisico)
  }

  predicate ValidMovimentacao(m: Movimentacao) {
    Valid(m.fechamento) && |m.nome| <= 100 && ValidMoney(m.valor)
  }

  /** What `MovimentacaoRapidaForm.is_valid()` demands of the posted fields:
      `tipo` is one of the choices' codes, `nome` is required and at most
      100 characters, `valor` fits its column. */
  predicate CamposValidos(codigo: string, nome: string, valor: int) {
    LerTipo(codigo).Some? && 0 < |nome| <= 100 && ValidMoney(valor)
  }

  /** The record `get_or_create(data=d)` inserts: every column at its default. */
  function NovoFechamento(d: Date): (f: Fechamento)
    requires Valid(d)
    ensures f.data == d && ValidFechamento(f)
    ensures f.saldoInicial == 0 && f.saldoFinalFisico == 0
    ensures f.cacheTotalCartao == 0 && f.cacheTotalSaida == 0 && f.cacheTotalSuprimento == 0
  {
    Fechamento(d, 0, 0, 0, 0, 0)
  }

  /** A new movement starts as a card sale unless another choice is given;
      the movement form's type select starts at this default too. */
  function NovaMovimentacao(id: nat, d: Date, nome: string, valor: int): (m: Movimentacao)
    ensures m.tipo == Cartao && m.fechamento == d && m.valor == valor
  {
    Movimentacao(id, d, TipoPadrao, nome, valor)
  }

  /** `fechamento.movimentacoes.all()`: the movements whose foreign key is `d`, in table order. */
  function MovimentosDo(ms: seq<Movimentacao>, d: Date): (r: seq<Movimentacao>)
    ensures |r| <= |ms|
    ensures forall i :: 0 <= i < |r| ==> r[i].fechamento == d && r[i] in ms
    ensures forall m :: m in ms && m.fechamento == d ==> m in r
  {
    if |ms| == 0 then []
    else if ms[0].fechamento == d then [ms[0]] + MovimentosDo(ms[1..], d)
    else MovimentosDo(ms[1..], d)
  }

  lemma {:induction false} MovimentosDoAppend(a: seq<Movimentacao>, b: seq<Movimentacao>, d: Date)
    ensures MovimentosDo(a + b, d) == MovimentosDo(a, d) + MovimentosDo(b, d)
  {
    if |a| == 0 {
      assert a + b == b;
    } else {
      assert (a + b)[1..] == a[1..] + b;
      MovimentosDoAppend(a[1..], b, d);
    }
  }

  /** Movements of other days do not show up in a day's list. */
  lemma {:induction false} MovimentosDoIgnoresOthers(ms: seq<Movimentacao>, d: Date)
    requires forall i :: 0 <= i < |ms| ==> ms[i].fechamento != d
    ensures MovimentosDo(ms, d) == []
  {
    if |ms| > 0 {
      MovimentosDoIgnoresOthers(ms[1..], d);
    }
  }
}
