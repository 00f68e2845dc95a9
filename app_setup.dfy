/**
 * How app/main.py assembles the application: the six resource routers and the auth router
 * are mounted under `/api`, every resource router behind `verify_token`, and two handlers
 * are registered for `StarletteHTTPException`. Registration stores handlers in a dictionary
 * keyed by exception class, so the second registration replaces the first and the custom
 * 404 text is never sent.
 */
module AppSetup {
  import opened Common

  /** A mounted router: its tag, the prefix it is mounted under, and whether `verify_token` guards it. */
  datatype Mount = Mount(tag: string, prefix: string, gated: bool)

  /** The two handlers main.py defines. */
  datatype Handler = Custom404Handler | MethodNotAllowedHandler

  /** The exception class both handlers are registered for. */
  const StarletteHttpException := "StarletteHTTPException"

  /** What reaches the client: a status code and a `detail` text. */
  datatype Response = Response(status: int, detail: string)

  const UrlNotFound := "URL not found. Please check the URL or request."

  class App {
    var mounts: seq<Mount>
    /** `exception_handlers`: exception class name to handler. */
    var handlers: map<string, Handler>

    constructor ()
      ensures mounts == [] && handlers == map[]
    {
      mounts := [];
      handlers := map[];
    }

    /** `include_router(router, prefix=..., tags=[...], dependencies=...)` */
    method IncludeRouter(tag: string, prefix: string, gated: bool)
      modifies this`mounts
      ensures mounts == old(mounts) + [Mount(tag, prefix, gated)]
    {
      mounts := mounts + [Mount(tag, prefix, gated)];
    }

    /** `@app.exception_handler(exc)`: a later registration for the same class replaces the earlier one. */
    method RegisterHandler(exc: string, h: Handler)
      modifies this`handlers
      ensures handlers == old(handlers)[exc := h]
    {
      handlers := handlers[exc := h];
    }
  }

  /** The routers in the order main.py mounts them. */
  const ResourceTags := ["vehicles", "parts", "purchases", "locations", "suppliers", "warranties"]

  /** Builds the application as main.py does at import time. */
  method BuildApp() returns (app: App)
    ensures fresh(app)
    ensures |app.mounts| == 1 + |ResourceTags|
    ensures app.mounts[0] == Mount("auth", "/api", false)
    ensures forall i :: 0 <= i < |ResourceTags| ==> app.mounts[i + 1] == Mount(ResourceTags[i], "/api", true)
    ensures app.handlers == map[StarletteHttpException := MethodNotAllowedHandler]
  {
    app := new App();
    app.IncludeRouter("auth", "/api", false);
    app.IncludeRouter("vehicles", "/api", true);
    app.IncludeRouter("parts", "/api", true);
    app.IncludeRouter("purchases", "/api", true);
    app.IncludeRouter("locations", "/api", true);
    app.IncludeRouter("suppliers", "/api", true);
    app.IncludeRouter("warranties", "/api", true);
    app.RegisterHandler(StarletteHttpException, Custom404Handler);
    app.RegisterHandler(StarletteHttpException, MethodNotAllowedHandler);
  }

  /**
   * What a handler does with an HTTP exception of `status` and `detail` raised while
   * serving `verb` on `path`. The 404 handler re-raises anything that is not a 404, which
   * the server turns into a 500.
   */
  function Handle(h: Handler, status: int, detail: string, verb: string, path: string): (r: Response)
    ensures h == MethodNotAllowedHandler && status != 405 ==> r == Response(status, detail)
    ensures h == MethodNotAllowedHandler && status == 405 ==>
              r == Response(405, "Método " + verb + " não permitido na rota " + path)
    ensures h == Custom404Handler && status == 404 ==> r == Response(404, UrlNotFound)
    ensures h == Custom404Handler && status != 404 ==> r == Response(500, InternalServerError.detail)
  {
    match h
    case MethodNotAllowedHandler =>
      if status == 405 then Response(405, "Método " + verb + " não permitido na rota " + path)
      else Response(status, detail)
    case Custom404Handler =>
      if status == 404 then Response(404, UrlNotFound)
      else Response(InternalServerError.status, InternalServerError.detail)
  }

  /**
   * With the handlers the application ends up with, every HTTP exception but a 405 reaches
   * the client with its own status and detail: a 404 never carries the custom "URL not
   * found" text unless its own detail already was that text.
   */
  lemma OnlyMethodNotAllowedIsRewritten(app: App, status: int, detail: string, verb: string, path: string)
    requires app.handlers == map[StarletteHttpException := MethodNotAllowedHandler]
    ensures status != 405 ==> Handle(app.handlers[StarletteHttpException], status, detail, verb, path) == Response(status, detail)
    ensures Handle(app.handlers[StarletteHttpException], 404, detail, verb, path).detail == UrlNotFound <==> detail == UrlNotFound
  {
  }

  /** Every mount under `/api` but the auth router's is gated, whatever its position. */
  lemma OnlyAuthIsOpen(app: App)
    requires |app.mounts| == 1 + |ResourceTags|
    requires app.mounts[0] == Mount("auth", "/api", false)
    requires forall i :: 0 <= i < |ResourceTags| ==> app.mounts[i + 1] == Mount(ResourceTags[i], "/api", true)
    ensures forall m :: m in app.mounts ==> m.prefix == "/api" && (m.gated <==> m.tag != "auth")
  {
    forall m | m in app.mounts
      ensures m.prefix == "/api" && (m.gated <==> m.tag != "auth")
    {
      var i :| 0 <= i < |app.mounts| && app.mounts[i] == m;
      if i > 0 {
        assert m == Mount(ResourceTags[i - 1], "/api", true);
      }
    }
  }
}
