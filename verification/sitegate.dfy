/**
 * `SitePasswordMiddleware`: a site-wide password gate in front of every
 * request. The session flag `site_unlocked` lets a request through; so do
 * the login page and the static assets; everything else is redirected to
 * the login page.
 */
module SiteGate {
  import opened Wrappers

  const LoginPath: string := "/site-login/"
  const StaticPrefix: string := "/static/"
  /** Fallback of `getattr(settings, 'SITE_PASSWORD', 'admin')`. */
  const SenhaPadrao: string := "admin"

  /** The parts of a request the gate reads: path, HTTP method, the session
      flag, and the posted `password` field (None when absent). */
  datatype Pedido = Pedido(path: string, verbo: string, unlocked: bool, senha: Option<string>)

  /** `get_response(request)`, a redirect, or the login page re-rendered with an error. */
  datatype Resposta = Seguir | Redirecionar(destino: string) | Renderizar(erro: string)

  /** The response together with the session flag after the call. */
  datatype Saida = Saida(resposta: Resposta, unlocked: bool)

  function SenhaDoSite(configurada: Option<string>): string {
    configurada.GetOr(SenhaPadrao)
  }

  /** Paths served without the password. */
  predicate Livre(path: string) {
    path == LoginPath || StaticPrefix <= path
  }

  predicate EnvioDeSenha(p: Pedido) {
    p.verbo == "POST" && p.path == LoginPath
  }

  /** The gate as written: the pass-through for the login path comes before
      the password check, so a posted password is never examined. */
  function Chamar(p: Pedido, configurada: Option<string>): (s: Saida)
    ensures s.resposta.Seguir? <==> p.unlocked || Livre(p.path)
    ensures !s.resposta.Seguir? ==> s.resposta == Redirecionar(LoginPath)
    ensures s.unlocked == p.unlocked
  {
    if p.unlocked then Saida(Seguir, p.unlocked)
    else if p.path == LoginPath || StaticPrefix <= p.path then Saida(Seguir, p.unlocked)
    else if p.verbo == "POST" && p.path == LoginPath then
      if p.senha == Some(SenhaDoSite(configurada)) then Saida(Redirecionar("/"), true)
      else Saida(Renderizar("Senha incorreta"), false)
    else Saida(Redirecionar(LoginPath), false)
  }

  /** Posting the correct password to the login page of a locked session
      neither unlocks it nor redirects home: the request is handed on as is. */
  lemma SenhaCorretaNaoDesbloqueia(configurada: Option<string>)
    ensures var p := Pedido(LoginPath, "POST", false, Some(SenhaDoSite(configurada)));
      Chamar(p, configurada) == Saida(Seguir, false)
  {
  }

  /** The gate with the password check moved ahead of the login-page
      pass-through, as the comments of the middleware describe. */
  function ChamarCorrigido(p: Pedido, configurada: Option<string>): (s: Saida)
    ensures !p.unlocked && EnvioDeSenha(p) ==>
      (s.unlocked <==> p.senha == Some(SenhaDoSite(configurada)))
    ensures s.unlocked <==> p.unlocked || (EnvioDeSenha(p) && p.senha == Some(SenhaDoSite(configurada)))
    ensures s.resposta.Renderizar? <==> !p.unlocked && EnvioDeSenha(p) && p.senha != Some(SenhaDoSite(configurada))
    ensures s.resposta.Seguir? <==> p.unlocked || (Livre(p.path) && !EnvioDeSenha(p))
  {
    if p.unlocked then Saida(Seguir, p.unlocked)
    else if p.verbo == "POST" && p.path == LoginPath then
      if p.senha == Some(SenhaDoSite(configurada)) then Saida(Redirecionar("/"), true)
      else Saida(Renderizar("Senha incorreta"), false)
    else if p.path == LoginPath || StaticPrefix <= p.path then Saida(Seguir, p.unlocked)
    else Saida(Redirecionar(LoginPath), false)
  }

  /** The correction changes nothing but the password submission itself. */
  lemma CorrigidoSoMudaEnvioDeSenha(p: Pedido, configurada: Option<string>)
    ensures ChamarCorrigido(p, configurada) != Chamar(p, configurada) <==> !p.unlocked && EnvioDeSenha(p)
  {
  }

  /** Under the corrected gate an unlocked session stays unlocked and any
      request of it is handed on. */
  lemma DesbloqueioPersiste(p: Pedido, configurada: Option<string>)
    requires ChamarCorrigido(p, configurada).unlocked
    ensures ChamarCorrigido(p.(unlocked := true), configurada) == Saida(Seguir, true)
  {
  }
}
