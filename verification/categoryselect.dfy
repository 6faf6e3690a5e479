/**
 * `atualizarSelect`: the category select of the movement form shows a
 * placeholder followed by the categories whose kind matches the chosen
 * transaction type, and restores the saved category only on first load.
 */
module CategorySelect {
  import opened Wrappers

  /** An entry of the page's `categoriasDados` list. */
  datatype Categoria = Categoria(id: string, nome: string, tipo: string)

  datatype Opcao = Opcao(value: string, text: string, disabled: bool)

  /** The select after the update: its options, whether it is disabled, and its value. */
  datatype Select = Select(options: seq<Opcao>, disabled: bool, value: string)

  const TextoSelecione: string := "--- Selecione a Categoria ---"
  const TextoEscolhaTipo: string := "← Escolha o tipo antes"
  const TextoNenhuma: string := "--- Nenhuma categoria encontrada ---"

  /** Transaction type to category kind: cash entries use `ENTRADA` categories,
      card sales `CARTAO`, and every other type `SAIDA`. */
  function TipoFiltro(tipoTransacao: string): (k: string)
    ensures k == "ENTRADA" <==> tipoTransacao == "DINHEIRO"
    ensures k == "CARTAO" <==> tipoTransacao == "CARTAO"
    ensures k == "SAIDA" <==> tipoTransacao != "DINHEIRO" && tipoTransacao != "CARTAO"
  {
    if tipoTransacao == "DINHEIRO" then "ENTRADA"
    else if tipoTransacao == "CARTAO" then "CARTAO"
    else "SAIDA"
  }

  /** `categoriasDados.filter(c => c.tipo === k)`. */
  function Filtrar(cs: seq<Categoria>, k: string): (r: seq<Categoria>)
    ensures |r| <= |cs|
    ensures forall c :: c in r <==> c in cs && c.tipo == k
  {
    if |cs| == 0 then []
    else (if cs[0].tipo == k then [cs[0]] else []) + Filtrar(cs[1..], k)
  }

  /** Filtering keeps the original order: it distributes over concatenation. */
  lemma {:induction false} FiltrarAppend(a: seq<Categoria>, b: seq<Categoria>, k: string)
    ensures Filtrar(a + b, k) == Filtrar(a, k) + Filtrar(b, k)
  {
    if |a| == 0 {
      assert a + b == b;
    } else {
      assert (a + b)[0] == a[0] && (a + b)[1..] == a[1..] + b;
      FiltrarAppend(a[1..], b, k);
    }
  }

  /** One `<option>` per category: its id as value, its name as text. */
  function Opcoes(cs: seq<Categoria>): (r: seq<Opcao>)
    ensures |r| == |cs|
    ensures forall i :: 0 <= i < |cs| ==> r[i] == Opcao(cs[i].id, cs[i].nome, false)
  {
    if |cs| == 0 then [] else [Opcao(cs[0].id, cs[0].nome, false)] + Opcoes(cs[1..])
  }

  /** `catsFiltradas.some(c => c.id == pre)`. */
  predicate ContemId(cs: seq<Categoria>, id: string) {
    exists i :: 0 <= i < |cs| && cs[i].id == id
  }

  /**
   * `atualizarSelect(ehCarregamentoInicial)` with the page state as
   * parameters: the chosen type, `categoriasDados` (None when undefined),
   * and the category value captured when the page loaded.
   */
  function AtualizarSelect(tipo: string, dados: Option<seq<Categoria>>, pre: string, inicial: bool): (r: Select)
    ensures |r.options| >= 1 && r.options[0].value == "" && r.options[0].disabled
    ensures tipo == "" ==> r == Select([Opcao("", TextoEscolhaTipo, true)], true, "")
    ensures tipo != "" ==> !r.disabled
    ensures tipo != "" && dados.None? ==> r == Select([Opcao("", TextoSelecione, true)], false, "")
    ensures tipo != "" && dados.Some? ==>
      var filtradas := Filtrar(dados.value, TipoFiltro(tipo));
      && r.options[1..] == Opcoes(filtradas)
      && r.options[0].text == (if |filtradas| == 0 then TextoNenhuma else TextoSelecione)
    ensures r.value != "" ==>
      && inicial && r.value == pre && tipo != "" && dados.Some?
      && ContemId(Filtrar(dados.value, TipoFiltro(tipo)), pre)
    ensures inicial && pre != "" && tipo != "" && dados.Some? && ContemId(Filtrar(dados.value, TipoFiltro(tipo)), pre) ==>
      r.value == pre
    ensures exists k :: 0 <= k < |r.options| && r.options[k].value == r.value
  {
    if tipo == "" then Select([Opcao("", TextoEscolhaTipo, true)], true, "")
    else match dados
      case None => Select([Opcao("", TextoSelecione, true)], false, "")
      case Some(cs) =>
        var filtradas := Filtrar(cs, TipoFiltro(tipo));
        var texto := if |filtradas| > 0 then TextoSelecione else TextoNenhuma;
        var options := [Opcao("", texto, true)] + Opcoes(filtradas);
        var restaurar := inicial && pre != "" && ContemId(filtradas, pre);
        if restaurar then
          var i :| 0 <= i < |filtradas| && filtradas[i].id == pre;
          assert options[i + 1].value == pre;
          Select(options, false, pre)
        else
          assert options[0].value == "";
          Select(options, false, "")
  }

  /** A change of type (`ehCarregamentoInicial = false`) always resets the
      select to the placeholder. */
  lemma TrocaDeTipoReseta(tipo: string, dados: Option<seq<Categoria>>, pre: string)
    ensures AtualizarSelect(tipo, dados, pre, false).value == ""
  {
  }

  /** The filtered options are exactly the categories of the mapped kind,
      each once per occurrence in `categoriasDados` and in its order. */
  lemma OpcoesSaoCategoriasDoTipo(tipo: string, a: seq<Categoria>, b: seq<Categoria>, pre: string, inicial: bool)
    requires tipo != ""
    ensures var k := TipoFiltro(tipo);
      AtualizarSelect(tipo, Some(a + b), pre, inicial).options[1..] == Opcoes(Filtrar(a, k)) + Opcoes(Filtrar(b, k))
  {
    var k := TipoFiltro(tipo);
    FiltrarAppend(a, b, k);
    OpcoesAppend(Filtrar(a, k), Filtrar(b, k));
  }

  lemma OpcoesAppend(a: seq<Categoria>, b: seq<Categoria>)
    ensures Opcoes(a + b) == Opcoes(a) + Opcoes(b)
  {
    assert |Opcoes(a + b)| == |Opcoes(a) + Opcoes(b)|;
    forall i | 0 <= i < |a + b|
      ensures Opcoes(a + b)[i] == (Opcoes(a) + Opcoes(b))[i]
    {
      if i >= |a| {
        assert (a + b)[i] == b[i - |a|];
      }
    }
  }
}
