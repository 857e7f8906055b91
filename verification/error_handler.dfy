/**
 * The HTTP error handler: an error code mapped to the code, name and
 * description of the error page, any code outside the table answered as
 * an internal server error.
 */
module ErrorHandler {

  /** The error the page shows; its code is also the response status. */
  datatype Error = Error(code: int, name: string, description: string)

  /** The handled codes and their (name, description) pairs. */
  const Table: map<int, (string, string)> := map[
    400 := ("Solicitud incorrecta",
            "La solicitud no se pudo entender por el servidor debido a una sintaxis mal formada."),
    401 := ("No autorizado", "No tiene autorización para acceder a este recurso."),
    403 := ("Prohibido", "No tiene permiso para acceder a este recurso."),
    404 := ("No encontrado", "La URL solicitada no se encuentra en el servidor."),
    405 := ("Método no permitido", "El método no está permitido para la URL solicitada."),
    500 := ("Error interno del servidor",
            "El servidor encontró una condición inesperada que le impidió completar la solicitud.")
  ]

  /** The pair the lookup falls back to when the code is not in the table. */
  const Unknown := ("Error desconocido", "Ocurrió un error inesperado.")

  lemma TableShape()
    ensures Table.Keys == {400, 401, 403, 404, 405, 500}
    ensures forall c :: c in Table ==> Table[c] != Unknown
  {
  }

  /**
   * `handle_error`: a code of the table keeps its entry; any other code
   * becomes 500. The fallback pair is looked up only with a code already
   * known to be in the table, so it is never used.
   */
  function HandleError(code: int): (r: Error)
    ensures r.code in Table
    ensures code in Table ==> r.code == code
    ensures code !in Table ==> r.code == 500
    ensures (r.name, r.description) == Table[r.code]
    ensures (r.name, r.description) != Unknown
  {
    TableShape();
    var c := if code in Table then code else 500;
    var entry := if c in Table then Table[c] else Unknown;
    Error(c, entry.0, entry.1)
  }

  /** Handling the status of an error page gives the same page: the mapping is a projection onto the table. */
  lemma HandleErrorIdempotent(code: int)
    ensures HandleError(HandleError(code).code) == HandleError(code)
  {
  }

  /** The codes the table does not know all give one and the same page, the internal-error page. */
  lemma UnknownCodesAgree(a: int, b: int)
    requires a !in Table && b !in Table
    ensures HandleError(a) == HandleError(b) == HandleError(500)
  {
  }

  /** Distinct handled codes give distinct pages: the page names tell the handled codes apart. */
  lemma HandledNamesDistinct(a: int, b: int)
    requires a in Table && b in Table && a != b
    ensures HandleError(a).name != HandleError(b).name
  {
  }

  /** The page of a missing URL. */
  lemma NotFoundPage()
    ensures HandleError(404) == Error(404, "No encontrado", "La URL solicitada no se encuentra en el servidor.")
  {
  }
}
