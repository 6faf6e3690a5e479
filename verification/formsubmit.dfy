/**
 * `dispararSubmitLimpo`: before a form with money fields is submitted,
 * each masked value is cleaned into a hidden input of the same name and
 * the visible field loses its name; and the two double-submit guards of
 * the current script and of the older collected copy.
 */
module FormSubmit {
  import opened Wrappers
  import MoneyMask

  /** An `input.money-mask` field. */
  datatype CampoMoeda = CampoMoeda(name: string, value: string)

  /** An `input[type="hidden"]` of the form. */
  datatype Oculto = Oculto(name: string, value: string)

  predicate NomesUnicos(hs: seq<Oculto>) {
    forall i, j :: 0 <= i < j < |hs| ==> hs[i].name != hs[j].name
  }

  /** `form.querySelector('input[type="hidden"][name="…"]')`: the first hidden input of that name. */
  function BuscarOculto(hs: seq<Oculto>, name: string): (r: Option<nat>)
    ensures r.Some? ==> r.value < |hs| && hs[r.value].name == name
    ensures r.Some? ==> forall k :: 0 <= k < r.value ==> hs[k].name != name
    ensures r.None? ==> forall k :: 0 <= k < |hs| ==> hs[k].name != name
  {
    if |hs| == 0 then None
    else if hs[0].name == name then Some(0)
    else match BuscarOculto(hs[1..], name)
      case None => None
      case Some(k) => Some(k + 1)
  }

  /** The value the form submits under `name` from its hidden inputs. */
  function ValorOculto(hs: seq<Oculto>, name: string): Option<string> {
    match BuscarOculto(hs, name)
    case None => None
    case Some(j) => Some(hs[j].value)
  }

  /** One pass of the `forEach`: a field with a value and a name writes its
      cleaned value into the hidden input of that name, creating it if
      needed, and drops its own name. */
  function LimparCampo(c: CampoMoeda, hs: seq<Oculto>): (r: (CampoMoeda, seq<Oculto>))
    ensures r.0.value == c.value
    ensures r.0.name == if c.value != "" then "" else c.name
    ensures c.value != "" && c.name != "" ==> ValorOculto(r.1, c.name) == Some(MoneyMask.Unmask(c.value))
    ensures forall n :: n != c.name || c.value == "" ==> ValorOculto(r.1, n) == ValorOculto(hs, n)
    ensures NomesUnicos(hs) ==> NomesUnicos(r.1)
  {
    if c.value == "" || c.name == "" then (c, hs)
    else
      var limpo := MoneyMask.Unmask(c.value);
      match BuscarOculto(hs, c.name)
      case Some(j) =>
        var hs' := hs[j := hs[j].(value := limpo)];
        forall n ensures BuscarOculto(hs', n) == BuscarOculto(hs, n) {
          SameNamesSameLookup(hs, hs', n);
        }
        (c.(name := ""), hs')
      case None =>
        var hs' := hs + [Oculto(c.name, limpo)];
        forall n | n != c.name ensures BuscarOculto(hs', n) == BuscarOculto(hs, n) {
          AppendOtherNameSameLookup(hs, Oculto(c.name, limpo), n);
        }
        AppendNewNameLookup(hs, Oculto(c.name, limpo));
        (c.(name := ""), hs')
  }

  lemma {:induction false} SameNamesSameLookup(hs: seq<Oculto>, hs': seq<Oculto>, n: string)
    requires |hs| == |hs'| && forall k :: 0 <= k < |hs| ==> hs[k].name == hs'[k].name
    ensures BuscarOculto(hs', n) == BuscarOculto(hs, n)
  {
    if |hs| > 0 {
      SameNamesSameLookup(hs[1..], hs'[1..], n);
    }
  }

  lemma {:induction false} AppendOtherNameSameLookup(hs: seq<Oculto>, h: Oculto, n: string)
    requires h.name != n
    ensures BuscarOculto(hs + [h], n) == BuscarOculto(hs, n)
  {
    if |hs| == 0 {
      assert ([h])[1..] == [];
    } else {
      assert (hs + [h])[1..] == hs[1..] + [h];
      AppendOtherNameSameLookup(hs[1..], h, n);
    }
  }

  lemma {:induction false} AppendNewNameLookup(hs: seq<Oculto>, h: Oculto)
    requires forall k :: 0 <= k < |hs| ==> hs[k].name != h.name
    ensures BuscarOculto(hs + [h], h.name) == Some(|hs|)
  {
    if |hs| > 0 {
      assert (hs + [h])[1..] == hs[1..] + [h];
      AppendNewNameLookup(hs[1..], h);
    }
  }

  /** The field at `i` is the last one with a value that carries its name. */
  predicate UltimoComNome(cs: seq<CampoMoeda>, i: int) {
    0 <= i < |cs| && forall j :: i < j < |cs| && cs[j].value != "" ==> cs[j].name != cs[i].name
  }

  /** The whole `inputs.forEach(...)` over the form's money fields, in
      document order: every field with a value ends up without a name, so
      its masked text is never submitted, and at most one hidden input per
      name exists afterwards if that held before. */
  function LimparCampos(cs: seq<CampoMoeda>, hs: seq<Oculto>): (r: (seq<CampoMoeda>, seq<Oculto>))
    ensures |r.0| == |cs|
    ensures forall i :: 0 <= i < |cs| ==> r.0[i].value == cs[i].value
    ensures forall i :: 0 <= i < |cs| ==> r.0[i].name == if cs[i].value != "" then "" else cs[i].name
    ensures NomesUnicos(hs) ==> NomesUnicos(r.1)
    decreases |cs|
  {
    if |cs| == 0 then ([], hs)
    else
      var (c', hs1) := LimparCampo(cs[0], hs);
      var (resto, hs2) := LimparCampos(cs[1..], hs1);
      ([c'] + resto, hs2)
  }

  /** Names no field with a value carries keep their hidden value. */
  lemma {:induction false} LimparCamposKeepsOtherNames(cs: seq<CampoMoeda>, hs: seq<Oculto>, n: string)
    requires forall i :: 0 <= i < |cs| && cs[i].value != "" ==> cs[i].name != n
    ensures ValorOculto(LimparCampos(cs, hs).1, n) == ValorOculto(hs, n)
    decreases |cs|
  {
    if |cs| > 0 {
      var hs1 := LimparCampo(cs[0], hs).1;
      LimparCamposKeepsOtherNames(cs[1..], hs1, n);
    }
  }

  /** After the pass, the hidden input named like a field holds that field's
      cleaned value (the last such field's, when several share a name). */
  lemma {:induction false} LimparCamposWritesHidden(cs: seq<CampoMoeda>, hs: seq<Oculto>, i: int)
    requires UltimoComNome(cs, i) && cs[i].value != "" && cs[i].name != ""
    ensures ValorOculto(LimparCampos(cs, hs).1, cs[i].name) == Some(MoneyMask.Unmask(cs[i].value))
    decreases |cs|
  {
    var hs1 := LimparCampo(cs[0], hs).1;
    if i == 0 {
      LimparCamposKeepsOtherNames(cs[1..], hs1, cs[0].name);
    } else {
      assert UltimoComNome(cs[1..], i - 1);
      LimparCamposWritesHidden(cs[1..], hs1, i - 1);
    }
  }

  /** The current script's guard: a `data-is-submitting` flag on the form. */
  datatype EstadoEnvio = EstadoEnvio(isSubmitting: bool, envios: nat)

  /** Form events that reach `dispararSubmitLimpo`: a submit (Enter or the
      button), and leaving the closing-balance field (after its 200 ms delay). */
  datatype Evento = Enviar | SairDoSaldoFinal

  /** The guard at the top of `dispararSubmitLimpo`; `envios` counts `form.submit()` calls. */
  function DispararSubmitLimpo(st: EstadoEnvio): (r: EstadoEnvio)
    ensures r.isSubmitting
    ensures r.envios == st.envios + (if st.isSubmitting then 0 else 1)
  {
    if st.isSubmitting then st else EstadoEnvio(true, st.envios + 1)
  }

  /** One event: the submit handler calls `dispararSubmitLimpo` directly; the
      blur handler calls it only when the flag is not yet set. Either way the
      form ends up marked and is submitted only if it was not marked before. */
  function Reagir(st: EstadoEnvio, e: Evento): (r: EstadoEnvio)
    ensures r.isSubmitting
    ensures r.envios == st.envios + (if st.isSubmitting then 0 else 1)
  {
    match e
    case Enviar => DispararSubmitLimpo(st)
    case SairDoSaldoFinal => if !st.isSubmitting then DispararSubmitLimpo(st) else st
  }

  /** Whatever mix of Enter, button clicks and blurs arrives, the form is
      submitted at most once, and exactly once if anything arrives. */
  function Executar(st: EstadoEnvio, es: seq<Evento>): (r: EstadoEnvio)
    ensures r.envios == st.envios + (if !st.isSubmitting && |es| > 0 then 1 else 0)
    ensures |es| > 0 ==> r.isSubmitting
    ensures |es| == 0 ==> r == st
    decreases |es|
  {
    if |es| == 0 then st else Executar(Reagir(st, es[0]), es[1..])
  }

  /** The older copy's guard: the submit button's `disabled` flag, in the
      submit handler; `dispararSubmitLimpo` itself is unguarded. */
  datatype Botao = SemBotao | Botao(disabled: bool)

  datatype EstadoAntigo = EstadoAntigo(botao: Botao, envios: nat)

  function EnviarAntigo(st: EstadoAntigo): (r: EstadoAntigo)
    ensures st.botao.Botao? ==> r.botao == Botao(true)
    ensures r.envios == st.envios + (if st.botao == Botao(true) then 0 else 1)
  {
    match st.botao
    case SemBotao => st.(envios := st.envios + 1)
    case Botao(disabled) => if disabled then st else EstadoAntigo(Botao(true), st.envios + 1)
  }

  function ExecutarAntigo(st: EstadoAntigo, n: nat): EstadoAntigo
    decreases n
  {
    if n == 0 then st else ExecutarAntigo(EnviarAntigo(st), n - 1)
  }

  /** With a submit button the older guard also allows one submission; a
      form without one is submitted once per submit event. */
  lemma {:induction false} GuardaAntiga(st: EstadoAntigo, n: nat)
    ensures st.botao == Botao(false) ==> ExecutarAntigo(st, n).envios == st.envios + (if n > 0 then 1 else 0)
    ensures st.botao == Botao(true) ==> ExecutarAntigo(st, n).envios == st.envios
    ensures st.botao == SemBotao ==> ExecutarAntigo(st, n).envios == st.envios + n
    decreases n
  {
    if n > 0 {
      GuardaAntiga(EnviarAntigo(st), n - 1);
    }
  }
}
